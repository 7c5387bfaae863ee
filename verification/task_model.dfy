/**
 * The data declarations of the task DSL (example/Task.kt), and the part of
 * `kotlinx.datetime.DayOfWeek` they rely on: seven days, Monday to Sunday, ordered by
 * their position in `DayOfWeek.entries`.
 */
module TaskModel {

  datatype DayOfWeek = Monday | Tuesday | Wednesday | Thursday | Friday | Saturday | Sunday
  {
    /** The enum ordinal, which `compareTo` (and so `..` ranges) uses. */
    function Ordinal(): (n: nat)
      ensures n < 7
    {
      match this
      case Monday => 0
      case Tuesday => 1
      case Wednesday => 2
      case Thursday => 3
      case Friday => 4
      case Saturday => 5
      case Sunday => 6
    }
  }

  /** `DayOfWeek.entries`: every day once, listed in ordinal order. */
  function Entries(): (r: seq<DayOfWeek>)
    ensures |r| == 7
    ensures forall i :: 0 <= i < |r| ==> r[i].Ordinal() == i
    ensures forall d: DayOfWeek :: d in r
  {
    var r := [Monday, Tuesday, Wednesday, Thursday, Friday, Saturday, Sunday];
    forall d: DayOfWeek
      ensures d in r
    {
      assert r[d.Ordinal()] == d;
    }
    r
  }

  datatype ScheduleMoment = ScheduleMoment(dayOfWeek: DayOfWeek, time: string)

  type TaskSchedule = seq<ScheduleMoment>

  datatype TaskPriority = Low | Default | High | Max

  /** A JVM `Int`. */
  newtype Int32 = x: int | -0x8000_0000 <= x < 0x8000_0000

  /** A closure the DSL's user wrote: stored, never run here, compared by reference. */
  class Closure {
    constructor () { }
  }

  /**
   * An `() -> Unit` value. The builder's default `{ }` captures nothing, so the JVM
   * keeps a single instance of it: every builder starts with the same `NoOp`.
   */
  datatype Runnable = NoOp | Runs(closure: Closure)

  /** An `(Exception) -> Unit` value: the builder's shared default `{ }`, or a user closure. */
  datatype FailureHandler = Ignore | Handles(closure: Closure)

  datatype Task = Task(
    name: string,
    priority: TaskPriority,
    action: Runnable,
    onFailure: FailureHandler,
    retries: Int32,
    schedule: TaskSchedule)
}
