/**
 * The task builder DSL (example/DSL.kt). `ScheduleBuilder` only combines lists, so its
 * operations are functions; `TaskBuilder` and `TasksBuilder` hold private mutable state
 * and are classes. The `task { ... }` and `scheduled { ... }` blocks run on builders of
 * their own; here the caller passes the configured builder, or the schedule the block built.
 */
module TaskDsl {

  import opened TaskModel

  // ---------------------------------------------------------------------------
  // Sequence helpers: `map`, `filter` and `distinct` as the schedule builder uses them
  // ---------------------------------------------------------------------------

  /** `map { it.dayOfWeek }`. */
  function Days(s: TaskSchedule): (r: seq<DayOfWeek>)
    ensures |r| == |s|
    ensures forall i :: 0 <= i < |s| ==> r[i] == s[i].dayOfWeek
  {
    if |s| == 0 then [] else Days(s[..|s| - 1]) + [s[|s| - 1].dayOfWeek]
  }

  /** `map { ScheduleMoment(it, time) }`. */
  function At(days: seq<DayOfWeek>, time: string): (r: TaskSchedule)
    ensures |r| == |days|
    ensures forall i :: 0 <= i < |days| ==> r[i].dayOfWeek == days[i] && r[i].time == time
  {
    if |days| == 0 then [] else At(days[..|days| - 1], time) + [ScheduleMoment(days[|days| - 1], time)]
  }

  lemma DaysOfAt(days: seq<DayOfWeek>, time: string)
    ensures Days(At(days, time)) == days
  {
  }

  predicate NoDuplicates<T(==)>(xs: seq<T>)
  {
    forall i, j :: 0 <= i < j < |xs| ==> xs[i] != xs[j]
  }

  /** The position of the first occurrence of `x`. */
  function FirstIndex<T(==)>(xs: seq<T>, x: T): (i: nat)
    requires x in xs
    ensures i < |xs| && xs[i] == x && x !in xs[..i]
  {
    if xs[0] == x then 0 else 1 + FirstIndex(xs[1..], x)
  }

  /** `distinct()`: the first occurrence of each element, in order. */
  function Distinct<T(==,!new)>(xs: seq<T>): (r: seq<T>)
    ensures forall x :: x in r <==> x in xs
    ensures NoDuplicates(r)
  {
    if |xs| == 0 then []
    else
      var p := Distinct(xs[..|xs| - 1]);
      var x := xs[|xs| - 1];
      assert xs == xs[..|xs| - 1] + [x];
      if x in p then p else p + [x]
  }

  lemma FirstIndexSnoc<T>(xs: seq<T>, x: T, y: T)
    requires y in xs
    ensures FirstIndex(xs + [x], y) == FirstIndex(xs, y)
  {
    if xs[0] != y {
      assert (xs + [x])[1..] == xs[1..] + [x];
      FirstIndexSnoc(xs[1..], x, y);
    }
  }

  lemma FirstIndexNew<T>(xs: seq<T>, x: T)
    requires x !in xs
    ensures FirstIndex(xs + [x], x) == |xs|
  {
  }

  /** `distinct()` keeps the order of first occurrences. */
  lemma {:induction false} DistinctFirstOccurrenceOrder<T(!new)>(xs: seq<T>)
    ensures forall i, j :: 0 <= i < j < |Distinct(xs)| ==>
      FirstIndex(xs, Distinct(xs)[i]) < FirstIndex(xs, Distinct(xs)[j])
  {
    if |xs| > 0 {
      var q := xs[..|xs| - 1];
      var x := xs[|xs| - 1];
      assert xs == q + [x];
      var p := Distinct(q);
      DistinctFirstOccurrenceOrder(q);
      var r := Distinct(xs);
      forall i, j | 0 <= i < j < |r|
        ensures FirstIndex(xs, r[i]) < FirstIndex(xs, r[j])
      {
        assert r[i] in q by { assert r[i] == p[i]; }
        FirstIndexSnoc(q, x, r[i]);
        if j < |p| {
          assert r[j] == p[j];
          FirstIndexSnoc(q, x, r[j]);
        } else {
          assert x !in p && r[j] == x;
          FirstIndexNew(q, x);
        }
      }
    }
  }

  lemma NoDuplicatesCard<T>(xs: seq<T>)
    requires NoDuplicates(xs)
    ensures |set x | x in xs| == |xs|
  {
    if |xs| > 0 {
      var q := xs[..|xs| - 1];
      var x := xs[|xs| - 1];
      NoDuplicatesCard(q);
      assert (set y | y in xs) == (set y | y in q) + {x};
      assert x !in (set y | y in q);
    }
  }

  /** However long the schedule, `distinct()` leaves at most one entry per weekday. */
  lemma DistinctDaysAtMostSeven(days: seq<DayOfWeek>)
    ensures |Distinct(days)| <= 7
  {
    var r := Distinct(days);
    NoDuplicatesCard(r);
    NoDuplicatesCard(Entries());
    var week := set d | d in Entries();
    var seen := set d | d in r;
    assert week == seen + (week - seen);
  }

  predicate InRange(d: DayOfWeek, start: DayOfWeek, end: DayOfWeek)
  {
    start.Ordinal() <= d.Ordinal() <= end.Ordinal()
  }

  predicate Ascending(days: seq<DayOfWeek>)
  {
    forall i, j :: 0 <= i < j < |days| ==> days[i].Ordinal() < days[j].Ordinal()
  }

  /** `filter { it in start..end }`. */
  function DaysIn(days: seq<DayOfWeek>, start: DayOfWeek, end: DayOfWeek): (r: seq<DayOfWeek>)
    ensures forall d :: d in r <==> d in days && InRange(d, start, end)
  {
    if |days| == 0 then []
    else
      var q := days[..|days| - 1];
      var d := days[|days| - 1];
      assert days == q + [d];
      var p := DaysIn(q, start, end);
      if InRange(d, start, end) then p + [d] else p
  }

  /** A reversed range keeps nothing. */
  lemma {:induction false} DaysInEmpty(days: seq<DayOfWeek>, start: DayOfWeek, end: DayOfWeek)
    requires end.Ordinal() < start.Ordinal()
    ensures DaysIn(days, start, end) == []
  {
    if |days| > 0 {
      DaysInEmpty(days[..|days| - 1], start, end);
    }
  }

  /** Filtering keeps the order of what it keeps. */
  lemma {:induction false} DaysInAscending(days: seq<DayOfWeek>, start: DayOfWeek, end: DayOfWeek)
    requires Ascending(days)
    ensures Ascending(DaysIn(days, start, end))
  {
    if |days| > 0 {
      var q := days[..|days| - 1];
      var d := days[|days| - 1];
      assert days == q + [d];
      DaysInAscending(q, start, end);
      var p := DaysIn(q, start, end);
      if InRange(d, start, end) {
        forall e | e in p
          ensures e.Ordinal() < d.Ordinal()
        {
          BeforeLast(q, d, e);
        }
        AscendingSnoc(p, d);
      }
    }
  }

  /** In a list in week order, every day before the last comes earlier in the week. */
  lemma BeforeLast(q: seq<DayOfWeek>, d: DayOfWeek, e: DayOfWeek)
    requires Ascending(q + [d]) && e in q
    ensures e.Ordinal() < d.Ordinal()
  {
    var k :| 0 <= k < |q| && q[k] == e;
    assert (q + [d])[k] == e && (q + [d])[|q|] == d;
  }

  lemma AscendingSnoc(p: seq<DayOfWeek>, d: DayOfWeek)
    requires Ascending(p) && forall e :: e in p ==> e.Ordinal() < d.Ordinal()
    ensures Ascending(p + [d])
  {
    var r := p + [d];
    forall i, j | 0 <= i < j < |r|
      ensures r[i].Ordinal() < r[j].Ordinal()
    {
      assert r[i] == p[i] && r[i] in p;
      if j < |p| {
        assert r[j] == p[j];
      }
    }
  }

  // ---------------------------------------------------------------------------
  // ScheduleBuilder
  // ---------------------------------------------------------------------------

  /** `sched(d, t)`: one moment. */
  function Sched(d: DayOfWeek, time: string): (s: TaskSchedule)
    ensures |s| == 1 && s[0].dayOfWeek == d && s[0].time == time
  {
    [ScheduleMoment(d, time)]
  }

  /** `d.midDay`: one moment at noon. */
  function MidDay(d: DayOfWeek): (s: TaskSchedule)
    ensures |s| == 1 && s[0].dayOfWeek == d && s[0].time == "12:00"
  {
    Sched(d, "12:00")
  }

  /** `d on t`. */
  function On(d: DayOfWeek, time: string): (s: TaskSchedule)
    ensures |s| == 1 && s[0].dayOfWeek == d && s[0].time == time
  {
    Sched(d, time)
  }

  /** `d * t`. */
  function Times(d: DayOfWeek, time: string): (s: TaskSchedule)
    ensures |s| == 1 && s[0].dayOfWeek == d && s[0].time == time
  {
    Sched(d, time)
  }

  /** `start..end on t`: every day of the closed range, in week order, at the same time. */
  function RangeOn(start: DayOfWeek, end: DayOfWeek, time: string): (s: TaskSchedule)
    ensures forall i :: 0 <= i < |s| ==> s[i].time == time
    ensures forall d :: d in Days(s) <==> InRange(d, start, end)
    ensures Ascending(Days(s))
    ensures end.Ordinal() < start.Ordinal() ==> s == []
  {
    var days := DaysIn(Entries(), start, end);
    DaysOfAt(days, time);
    DaysInAscending(Entries(), start, end);
    if end.Ordinal() < start.Ordinal() then
      DaysInEmpty(Entries(), start, end);
      At(days, time)
    else
      At(days, time)
  }

  /** `s + t`: `s` itself, then the new time on each of its days, once per day. */
  function Plus(s: TaskSchedule, time: string): (r: TaskSchedule)
    ensures |r| == |s| + |Distinct(Days(s))|
    ensures r[..|s|] == s
    ensures forall i :: |s| <= i < |r| ==> r[i].time == time
    ensures Days(r[|s|..]) == Distinct(Days(s))
    ensures s == [] ==> r == []
  {
    var added := At(Distinct(Days(s)), time);
    DaysOfAt(Distinct(Days(s)), time);
    assert (s + added)[|s|..] == added;
    s + added
  }

  /** `s + t` adds at most one moment per weekday. */
  lemma PlusAddsAtMostSeven(s: TaskSchedule, time: string)
    ensures |s| <= |Plus(s, time)| <= |s| + 7
  {
    DistinctDaysAtMostSeven(Days(s));
  }

  /** A chain `d * t1 + t2 + t3` yields the three times on `d`, not a doubling. */
  lemma PlusChain(d: DayOfWeek, t1: string, t2: string, t3: string)
    ensures Plus(Plus(Times(d, t1), t2), t3) ==
      [ScheduleMoment(d, t1), ScheduleMoment(d, t2), ScheduleMoment(d, t3)]
  {
    PlusTwo(d, t1, t2);
    PlusThree(d, t1, t2, t3);
  }

  /** The second step of `PlusChain`: one `plus` on two moments of the same day. */
  lemma PlusThree(d: DayOfWeek, t1: string, t2: string, t3: string)
    ensures Plus([ScheduleMoment(d, t1), ScheduleMoment(d, t2)], t3) ==
      [ScheduleMoment(d, t1), ScheduleMoment(d, t2), ScheduleMoment(d, t3)]
  {
    var m1, m2, m3 := ScheduleMoment(d, t1), ScheduleMoment(d, t2), ScheduleMoment(d, t3);
    PlusOneDay([m1, m2], d, t3);
    assert [m1, m2] + [m3] == [m1, m2, m3];
  }

  /** The first step of `PlusChain`: one `plus` on a single moment. */
  lemma PlusTwo(d: DayOfWeek, t1: string, t2: string)
    ensures Plus(Times(d, t1), t2) == [ScheduleMoment(d, t1), ScheduleMoment(d, t2)]
  {
    var s1 := Times(d, t1);
    assert s1 == [ScheduleMoment(d, t1)];
    PlusOneDay(s1, d, t2);
  }

  /** A list holding only `d` has `[d]` as its distinct elements. */
  lemma {:induction false} DistinctOfRepeated(xs: seq<DayOfWeek>, d: DayOfWeek)
    requires |xs| > 0 && forall i :: 0 <= i < |xs| ==> xs[i] == d
    ensures Distinct(xs) == [d]
  {
    if |xs| > 1 {
      DistinctOfRepeated(xs[..|xs| - 1], d);
    }
  }

  /** On a schedule whose days are all `d`, `+ t` adds the single moment `(d, t)`. */
  lemma PlusOneDay(s: TaskSchedule, d: DayOfWeek, time: string)
    requires |s| > 0 && forall i :: 0 <= i < |s| ==> s[i].dayOfWeek == d
    ensures Plus(s, time) == s + [ScheduleMoment(d, time)]
  {
    DistinctOfRepeated(Days(s), d);
    var r := Plus(s, time);
    assert Days(r[|s|..]) == [d];
    assert r == r[..|s|] + r[|s|..];
  }

  // ---------------------------------------------------------------------------
  // TaskBuilder and TasksBuilder
  // ---------------------------------------------------------------------------

  class TaskBuilder {
    var name: string
    var action: Runnable
    var onFailure: FailureHandler
    var priority: TaskPriority
    var retries: Int32
    var schedule: TaskSchedule

    /** The defaults: empty name, the shared empty closures, `DEFAULT`, no retries, no schedule. */
    constructor ()
      ensures name == "" && action == NoOp && onFailure == Ignore
      ensures priority == Default && retries == 0 && schedule == []
    {
      name, action, onFailure := "", NoOp, Ignore;
      priority, retries, schedule := Default, 0, [];
    }

    method Name(n: string)
      modifies this
      ensures name == n
      ensures action == old(action) && onFailure == old(onFailure) && priority == old(priority)
      ensures retries == old(retries) && schedule == old(schedule)
    {
      name := n;
    }

    method Action(a: Runnable)
      modifies this
      ensures action == a
      ensures name == old(name) && onFailure == old(onFailure) && priority == old(priority)
      ensures retries == old(retries) && schedule == old(schedule)
    {
      action := a;
    }

    method OnFailure(h: FailureHandler)
      modifies this
      ensures onFailure == h
      ensures name == old(name) && action == old(action) && priority == old(priority)
      ensures retries == old(retries) && schedule == old(schedule)
    {
      onFailure := h;
    }

    /** `p.priority`: a getter whose only effect is to store `p` in the builder. */
    method Priority(p: TaskPriority)
      modifies this
      ensures priority == p
      ensures name == old(name) && action == old(action) && onFailure == old(onFailure)
      ensures retries == old(retries) && schedule == old(schedule)
    {
      priority := p;
    }

    method SetRetries(n: Int32)
      modifies this
      ensures retries == n
      ensures name == old(name) && action == old(action) && onFailure == old(onFailure)
      ensures priority == old(priority) && schedule == old(schedule)
    {
      retries := n;
    }

    /** `scheduled { ... }`: stores the schedule the block returned. */
    method Scheduled(s: TaskSchedule)
      modifies this
      ensures schedule == s
      ensures name == old(name) && action == old(action) && onFailure == old(onFailure)
      ensures priority == old(priority) && retries == old(retries)
    {
      schedule := s;
    }

    /** The `task` getter: every stored field except the priority, which is always `DEFAULT`. */
    function Task(): (t: TaskModel.Task)
      reads this
      ensures t.priority == Default
      ensures t.name == name && t.action == action && t.onFailure == onFailure
      ensures t.retries == retries && t.schedule == schedule
    {
      TaskModel.Task(name, Default, action, onFailure, retries, schedule)
    }
  }

  /** Setting a priority has no effect on the task the builder reports. */
  method PriorityIsIgnored(p: TaskPriority) returns (t: TaskModel.Task)
    ensures t.priority == Default
  {
    var b := new TaskBuilder();
    b.Priority(p);
    assert b.priority == p;
    t := b.Task();
  }

  /** A builder nobody configured reports the defaults. */
  method DefaultTask() returns (t: TaskModel.Task)
    ensures t.name == "" && t.action == NoOp && t.onFailure == Ignore
    ensures t.priority == Default && t.retries == 0 && t.schedule == []
  {
    var b := new TaskBuilder();
    t := b.Task();
  }

  /**
   * Two builders nobody configured report equal tasks: `Task` is a data class and the
   * default closures are shared.
   */
  method DefaultTasksEqual() returns (t1: TaskModel.Task, t2: TaskModel.Task)
    ensures t1 == t2
  {
    var b1 := new TaskBuilder();
    var b2 := new TaskBuilder();
    t1 := b1.Task();
    t2 := b2.Task();
  }

  class TasksBuilder {
    var tasks: seq<TaskModel.Task>

    constructor ()
      ensures tasks == []
    {
      tasks := [];
    }

    /** `task { ... }`: appends the task of the configured builder. */
    method Task(b: TaskBuilder)
      modifies this
      ensures tasks == old(tasks) + [b.Task()]
    {
      tasks := tasks + [b.Task()];
    }

    /** `build()`: the tasks in the order they were added. */
    function Build(): (r: seq<TaskModel.Task>)
      reads this
      ensures |r| == |tasks| && forall i :: 0 <= i < |r| ==> r[i] == tasks[i]
    {
      tasks
    }
  }

  /**
   * `tasks { ... }`: a block that calls `task` once per configured builder yields their
   * tasks in call order, every one with priority `DEFAULT`.
   */
  method Tasks(builders: seq<TaskBuilder>) returns (r: seq<TaskModel.Task>)
    ensures |r| == |builders|
    ensures forall i :: 0 <= i < |builders| ==> r[i] == builders[i].Task()
    ensures forall i :: 0 <= i < |r| ==> r[i].priority == Default
  {
    var tb := new TasksBuilder();
    for i := 0 to |builders|
      invariant fresh(tb)
      invariant |tb.tasks| == i
      invariant forall k :: 0 <= k < i ==> tb.tasks[k] == builders[k].Task()
    {
      tb.Task(builders[i]);
    }
    r := tb.Build();
  }
}
