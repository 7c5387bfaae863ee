/**
 * The LaTeX text escaper (`String.escapeLatexText()` in latex/model/Utils.kt) and
 * the notion of a brace-balanced LaTeX fragment used to state what escaping is for.
 */
module LatexUtils {

  import opened Wrappers

  /** The characters LaTeX treats specially in text: `# $ % _ ^ { } ~ \`. */
  predicate IsReserved(c: char) {
    c == '#' || c == '$' || c == '%' || c == '_' || c == '^' ||
    c == '{' || c == '}' || c == '~' || c == '\\'
  }

  /** What one input character contributes to the escaped text. */
  function EscapeChar(c: char): string {
    if IsReserved(c) then ['\\', c] else [c]
  }

  /** Specification of the escaper: the characters' contributions, in order. */
  function Escape(s: string): string
    decreases |s|
  {
    if s == [] then [] else Escape(s[..|s| - 1]) + EscapeChar(s[|s| - 1])
  }

  /** Number of reserved characters in `s`. */
  function CountReserved(s: string): nat
    decreases |s|
  {
    if s == [] then 0
    else CountReserved(s[..|s| - 1]) + (if IsReserved(s[|s| - 1]) then 1 else 0)
  }

  /** Drops the backslash in front of every escaped character. */
  function Unescape(s: string): string
    decreases |s|
  {
    if s == [] then []
    else if s[0] == '\\' && |s| >= 2 then [s[1]] + Unescape(s[2..])
    else [s[0]] + Unescape(s[1..])
  }

  /**
   * The escaper as the source writes it: one pass over the characters,
   * appending to a growing buffer.
   */
  method EscapeLatexText(s: string) returns (r: string)
    ensures r == Escape(s)
  {
    r := [];
    for i := 0 to |s|
      invariant r == Escape(s[..i])
    {
      var c := s[i];
      assert s[..i + 1][..i] == s[..i];
      if IsReserved(c) {
        r := r + ['\\', c];
      } else {
        r := r + [c];
      }
    }
    assert s[..|s|] == s;
  }

  lemma {:induction false} EscapeConcat(a: string, b: string)
    ensures Escape(a + b) == Escape(a) + Escape(b)
    decreases |b|
  {
    if b == [] {
      assert a + b == a;
    } else {
      var b' := b[..|b| - 1];
      assert (a + b)[..|a + b| - 1] == a + b';
      assert (a + b)[|a + b| - 1] == b[|b| - 1];
      EscapeConcat(a, b');
    }
  }

  lemma EscapeSingle(c: char)
    ensures Escape([c]) == EscapeChar(c)
  {
    assert [c][..0] == [];
  }

  /** A string without reserved characters is its own escape (the empty string included). */
  lemma {:induction false} EscapeUnchanged(s: string)
    requires forall i :: 0 <= i < |s| ==> !IsReserved(s[i])
    ensures Escape(s) == s
    decreases |s|
  {
    if s != [] {
      EscapeUnchanged(s[..|s| - 1]);
    }
  }

  lemma {:induction false} EscapeLength(s: string)
    ensures |Escape(s)| == |s| + CountReserved(s)
    decreases |s|
  {
    if s != [] {
      EscapeLength(s[..|s| - 1]);
    }
  }

  lemma {:induction false} CountReservedConcat(a: string, b: string)
    ensures CountReserved(a + b) == CountReserved(a) + CountReserved(b)
    decreases |b|
  {
    if b == [] {
      assert a + b == a;
    } else {
      var b' := b[..|b| - 1];
      assert (a + b)[..|a + b| - 1] == a + b';
      CountReservedConcat(a, b');
    }
  }

  /**
   * Character `i` of the input lands at position `i + CountReserved(s[..i])` of the
   * output: a reserved character there is a backslash followed by the character, any
   * other character is copied as it is.
   */
  lemma EscapeAt(s: string, i: int)
    requires 0 <= i < |s|
    ensures var p := i + CountReserved(s[..i]);
      var e := Escape(s);
      if IsReserved(s[i]) then p + 1 < |e| && e[p] == '\\' && e[p + 1] == s[i]
      else p < |e| && e[p] == s[i]
  {
    assert s == s[..i] + [s[i]] + s[i + 1..];
    EscapeConcat(s[..i] + [s[i]], s[i + 1..]);
    EscapeConcat(s[..i], [s[i]]);
    EscapeSingle(s[i]);
    EscapeLength(s[..i]);
  }

  /** Each reserved character doubles into two reserved characters: `\` and itself. */
  lemma {:induction false} CountReservedOfEscape(s: string)
    ensures CountReserved(Escape(s)) == 2 * CountReserved(s)
    decreases |s|
  {
    if s != [] {
      var s' := s[..|s| - 1];
      var c := s[|s| - 1];
      CountReservedOfEscape(s');
      CountReservedConcat(Escape(s'), EscapeChar(c));
      if IsReserved(c) {
        assert ['\\', c][..1] == ['\\'];
        assert ['\\'][..0] == [];
        assert CountReserved(['\\']) == 1;
        assert CountReserved(EscapeChar(c)) == 2;
      } else {
        assert [c][..0] == [];
      }
    }
  }

  /** Escaping twice differs from escaping once as soon as anything needed escaping. */
  lemma EscapeNotIdempotent(s: string)
    requires CountReserved(s) > 0
    ensures Escape(Escape(s)) != Escape(s)
  {
    EscapeLength(s);
    EscapeLength(Escape(s));
    CountReservedOfEscape(s);
  }

  /** Removing the backslashes that escaping added gives back the input. */
  lemma {:induction false} UnescapeEscape(s: string)
    ensures Unescape(Escape(s)) == s
    decreases |s|
  {
    if s != [] {
      var c, t := s[0], s[1..];
      assert s == [c] + t;
      EscapeConcat([c], t);
      EscapeSingle(c);
      UnescapeEscape(t);
      var e := Escape(s);
      if IsReserved(c) {
        assert e[2..] == Escape(t);
      } else {
        assert e[1..] == Escape(t);
      }
    }
  }

  /** Escaping is injective: different texts never escape to the same output. */
  lemma EscapeInjective(a: string, b: string)
    requires Escape(a) == Escape(b)
    ensures a == b
  {
    UnescapeEscape(a);
    UnescapeEscape(b);
  }

  /**
   * Reads a LaTeX fragment left to right, keeping the depth of open `{ }` groups. A
   * backslash and the character after it form one control symbol that neither opens
   * nor closes a group; a dangling backslash or a `}` with no open group is an error.
   */
  function Scan(s: string, depth: nat): Option<nat>
    decreases |s|
  {
    if s == [] then Some(depth)
    else if s[0] == '\\' then (if |s| == 1 then None else Scan(s[2..], depth))
    else if s[0] == '{' then Scan(s[1..], depth + 1)
    else if s[0] == '}' then (if depth == 0 then None else Scan(s[1..], depth - 1))
    else Scan(s[1..], depth)
  }

  /** A fragment that can be dropped anywhere without changing the group structure. */
  ghost predicate Neutral(s: string) {
    forall d: nat :: Scan(s, d) == Some(d)
  }

  /** A complete LaTeX text whose groups all close. */
  predicate Balanced(s: string) {
    Scan(s, 0) == Some(0)
  }

  /** No braces and no backslashes. */
  predicate Plain(s: string) {
    forall i :: 0 <= i < |s| ==> s[i] != '{' && s[i] != '}' && s[i] != '\\'
  }

  lemma {:induction false} ScanConcat(a: string, b: string, d: nat)
    requires Scan(a, d).Some?
    ensures Scan(a + b, d) == Scan(b, Scan(a, d).value)
    decreases |a|
  {
    if a == [] {
      assert a + b == b;
    } else if a[0] == '\\' {
      assert (a + b)[2..] == a[2..] + b;
      ScanConcat(a[2..], b, d);
    } else if a[0] == '{' {
      assert (a + b)[1..] == a[1..] + b;
      ScanConcat(a[1..], b, d + 1);
    } else if a[0] == '}' {
      assert (a + b)[1..] == a[1..] + b;
      ScanConcat(a[1..], b, d - 1);
    } else {
      assert (a + b)[1..] == a[1..] + b;
      ScanConcat(a[1..], b, d);
    }
  }

  /** A `}` read at depth 0 is an error, whatever follows. */
  lemma UnmatchedClose(prefix: string, rest: string, d: nat)
    requires Scan(prefix, d) == Some(0)
    ensures Scan(prefix + ("}" + rest), d) == None
  {
    ScanConcat(prefix, "}" + rest, d);
  }

  lemma NeutralConcat(a: string, b: string)
    requires Neutral(a) && Neutral(b)
    ensures Neutral(a + b)
  {
    forall d: nat ensures Scan(a + b, d) == Some(d) {
      ScanConcat(a, b, d);
    }
  }

  lemma {:induction false} PlainNeutral(s: string)
    requires Plain(s)
    ensures Neutral(s)
    decreases |s|
  {
    if s != [] {
      PlainNeutral(s[1..]);
    }
  }

  /** A LaTeX group: `{arg}`. */
  function Group(arg: string): string {
    "{" + arg + "}"
  }

  /** The one-argument command `\name{arg}`. */
  function Macro(name: string, arg: string): string {
    "\\" + name + Group(arg)
  }

  /** The two-argument command `\name{a}{b}`. */
  function Macro2(name: string, a: string, b: string): string {
    Macro(name, a) + Group(b)
  }

  /** `Macro` written out as its characters are appended. */
  lemma MacroSpelled(name: string, arg: string)
    ensures Macro(name, arg) == "\\" + name + "{" + arg + "}"
  {
  }

  lemma GroupNeutral(x: string)
    requires Neutral(x)
    ensures Neutral(Group(x))
  {
    forall d: nat ensures Scan(Group(x), d) == Some(d) {
      assert Group(x)[1..] == x + "}";
      ScanConcat(x, "}", d + 1);
    }
  }

  /** A control word: a backslash followed by a non-empty plain name. */
  lemma ControlWordNeutral(name: string)
    requires |name| > 0 && Plain(name)
    ensures Neutral("\\" + name)
  {
    PlainNeutral(name[1..]);
    forall d: nat ensures Scan("\\" + name, d) == Some(d) {
      assert ("\\" + name)[2..] == name[1..];
    }
  }

  lemma MacroNeutral(name: string, arg: string)
    requires |name| > 0 && Plain(name) && Neutral(arg)
    ensures Neutral(Macro(name, arg))
  {
    ControlWordNeutral(name);
    GroupNeutral(arg);
    NeutralConcat("\\" + name, Group(arg));
  }

  lemma Macro2Neutral(name: string, a: string, b: string)
    requires |name| > 0 && Plain(name) && Neutral(a) && Neutral(b)
    ensures Neutral(Macro2(name, a, b))
  {
    MacroNeutral(name, a);
    GroupNeutral(b);
    NeutralConcat(Macro(name, a), Group(b));
  }

  /** `escape("a#b")` is `a\#b`. */
  lemma EscapeExample()
    ensures Escape("a#b") == "a\\#b"
  {
    assert "a#b"[..2] == "a#";
    assert "a#"[..1] == "a";
    assert "a"[..0] == "";
  }

  /** The escaper's reason to exist: whatever the text, its escape never opens or closes a group. */
  lemma {:induction false} EscapeNeutral(s: string)
    ensures Neutral(Escape(s))
    decreases |s|
  {
    if s != [] {
      var c := s[|s| - 1];
      EscapeNeutral(s[..|s| - 1]);
      if IsReserved(c) {
        forall d: nat ensures Scan(['\\', c], d) == Some(d) {
          assert ['\\', c][2..] == [];
        }
      } else {
        PlainNeutral([c]);
      }
      NeutralConcat(Escape(s[..|s| - 1]), EscapeChar(c));
    }
  }
}
