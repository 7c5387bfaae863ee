/**
 * Math-mode expressions (latex/model/Expressions.kt): a closed family of text atoms,
 * the three infix operators, fractions and square roots, each rendering itself.
 */
module LatexExpressions {

  import opened LatexUtils

  /** The infix operators sharing `BinOpExpression`'s rendering. */
  datatype BinOp = Add | Sub | Mul

  datatype Expression =
    | TextExpression(text: string)
    | BinOpExpression(op: BinOp, left: Expression, right: Expression)
    | DivOperationExpression(numerator: Expression, denominator: Expression)
    | SqrtOperationExpression(radicand: Expression)

  /** The `operation` each infix operator writes between its operands. */
  function Operation(op: BinOp): string {
    match op
    case Add => "+"
    case Sub => "-"
    case Mul => "\\cdot"
  }

  /** What `BinOpExpression` appends between its operands: a space, the operation, a space. */
  function Spaced(op: BinOp): string {
    " " + Operation(op) + " "
  }

  /** `mathLatex()`: operands rendered in place, no parentheses ever added. */
  function MathLatex(e: Expression): string {
    match e
    case TextExpression(text) => Escape(text)
    case BinOpExpression(op, left, right) =>
      MathLatex(left) + Spaced(op) + MathLatex(right)
    case DivOperationExpression(num, den) =>
      Macro2("frac", MathLatex(num), MathLatex(den))
    case SqrtOperationExpression(rad) => Macro("sqrt", MathLatex(rad))
  }

  /**
   * Precedence is not rendered: for any operators and operands, `x o1 (y o2 z)` and
   * `(x o1 y) o2 z` are different trees that give the same text.
   */
  lemma RenderingNotInjective(o1: BinOp, o2: BinOp, x: Expression, y: Expression, z: Expression)
    ensures var e1 := BinOpExpression(o1, x, BinOpExpression(o2, y, z));
      var e2 := BinOpExpression(o2, BinOpExpression(o1, x, y), z);
      e1 != e2 && MathLatex(e1) == MathLatex(e2)
  {
    var l, m, r := MathLatex(x), MathLatex(y), MathLatex(z);
    var p, q := Spaced(o1), Spaced(o2);
    ConcatAssoc(l + p, m + q, r);
    ConcatAssoc(l + p, m, q);
  }

  /** `1 + 2 * 3` and `(1 + 2) * 3` both render `1 + 2 \\cdot 3`. */
  lemma PrecedenceExample()
    ensures var one, two, three := TextExpression("1"), TextExpression("2"), TextExpression("3");
      MathLatex(BinOpExpression(Mul, BinOpExpression(Add, one, two), three)) == "1 + 2 \\cdot 3"
    ensures var one, two, three := TextExpression("1"), TextExpression("2"), TextExpression("3");
      MathLatex(BinOpExpression(Add, one, BinOpExpression(Mul, two, three))) == "1 + 2 \\cdot 3"
  {
    RenderingNotInjective(Add, Mul, TextExpression("1"), TextExpression("2"), TextExpression("3"));
    DigitAtoms();
    SpacedLiterals();
    assert "1" + " + " + "2" == "1 + 2";
    assert "1 + 2" + " \\cdot " + "3" == "1 + 2 \\cdot 3";
  }

  lemma DigitAtoms()
    ensures MathLatex(TextExpression("1")) == "1"
    ensures MathLatex(TextExpression("2")) == "2"
    ensures MathLatex(TextExpression("3")) == "3"
  {
    EscapeUnchanged("1");
    EscapeUnchanged("2");
    EscapeUnchanged("3");
  }

  lemma SpacedLiterals()
    ensures Spaced(Add) == " + " && Spaced(Sub) == " - " && Spaced(Mul) == " \\cdot "
  {
  }

  /** Associativity of `+` on strings, stated over variables so that proofs need not unfold literals. */
  lemma ConcatAssoc(a: string, b: string, c: string)
    ensures a + (b + c) == a + b + c
  {
  }

  lemma OperatorNeutral(op: BinOp)
    ensures Neutral(Spaced(op))
  {
    if op == Mul {
      ControlWordNeutral("cdot");
      assert "\\" + "cdot" == "\\cdot";
      PlainNeutral(" ");
      NeutralConcat(" ", "\\cdot");
      NeutralConcat(" " + "\\cdot", " ");
    } else {
      PlainNeutral(Spaced(op));
    }
  }

  /** Whatever the atoms' text, a rendered expression never opens or closes a group. */
  lemma {:induction false} MathLatexNeutral(e: Expression)
    ensures Neutral(MathLatex(e))
  {
    match e
    case TextExpression(text) =>
      EscapeNeutral(text);
    case BinOpExpression(op, left, right) =>
      MathLatexNeutral(left);
      MathLatexNeutral(right);
      var mid := Spaced(op);
      OperatorNeutral(op);
      NeutralConcat(MathLatex(left), mid);
      NeutralConcat(MathLatex(left) + mid, MathLatex(right));
      assert MathLatex(e) == MathLatex(left) + mid + MathLatex(right);
    case DivOperationExpression(num, den) =>
      MathLatexNeutral(num);
      MathLatexNeutral(den);
      Macro2Neutral("frac", MathLatex(num), MathLatex(den));
    case SqrtOperationExpression(rad) =>
      MathLatexNeutral(rad);
      MacroNeutral("sqrt", MathLatex(rad));
  }
}
