/**
 * The LaTeX builder layer (latex/DSL.kt). `MathBuilder` only wraps constructors, so
 * its operators are functions; `ParagraphBuilder` and `DocumentBuilder` own mutable
 * element lists and are classes. A nested block (`bold { ... }`, `paragraph { ... }`)
 * runs on a builder of its own, created for it; here the caller passes that builder
 * after running the block on it.
 */
module LatexDsl {

  import opened Wrappers
  import opened LatexUtils
  import opened LatexExpressions
  import E = LatexElements

  /** `"s".m`: a text atom, rendered as the escaped text. */
  function M(s: string): (e: Expression)
    ensures e == TextExpression(s)
    ensures MathLatex(e) == Escape(s)
  {
    TextExpression(s)
  }

  /**
   * The infix operators `+ - *` render their operands around the spaced operation,
   * unparenthesised: the left operand's text is a prefix and the right one's a suffix.
   */
  function Infix(op: BinOp, a: Expression, b: Expression): (e: Expression)
    ensures e.BinOpExpression? && e.op == op && e.left == a && e.right == b
    ensures MathLatex(e) == MathLatex(a) + Spaced(op) + MathLatex(b)
    ensures MathLatex(a) <= MathLatex(e)
    ensures MathLatex(e)[|MathLatex(e)| - |MathLatex(b)|..] == MathLatex(b)
  {
    BinOpExpression(op, a, b)
  }

  /** `a + b`. */
  function Plus(a: Expression, b: Expression): (e: Expression)
    ensures e.BinOpExpression? && e.op == Add && e.left == a && e.right == b
    ensures MathLatex(e) == MathLatex(a) + " + " + MathLatex(b)
  {
    SpacedLiterals();
    Infix(Add, a, b)
  }

  /** `a - b`. */
  function Minus(a: Expression, b: Expression): (e: Expression)
    ensures e.BinOpExpression? && e.op == Sub && e.left == a && e.right == b
    ensures MathLatex(e) == MathLatex(a) + " - " + MathLatex(b)
  {
    SpacedLiterals();
    Infix(Sub, a, b)
  }

  /** `a * b`. */
  function Times(a: Expression, b: Expression): (e: Expression)
    ensures e.BinOpExpression? && e.op == Mul && e.left == a && e.right == b
    ensures MathLatex(e) == MathLatex(a) + " \\cdot " + MathLatex(b)
  {
    SpacedLiterals();
    Infix(Mul, a, b)
  }

  /** `a / b`: a fraction, whatever the operands are. */
  function Div(a: Expression, b: Expression): (e: Expression)
    ensures e == DivOperationExpression(a, b)
    ensures MathLatex(e) == "\\frac{" + MathLatex(a) + "}{" + MathLatex(b) + "}"
  {
    DivOperationExpression(a, b)
  }

  /** `a.sqrt`. */
  function Sqrt(a: Expression): (e: Expression)
    ensures e == SqrtOperationExpression(a)
    ensures MathLatex(e) == "\\sqrt{" + MathLatex(a) + "}"
  {
    SqrtOperationExpression(a)
  }

  class ParagraphBuilder {
    var elements: seq<E.Element>

    /** The list's element type is `InParagraphElement`. */
    ghost predicate Valid()
      reads this
    {
      forall i :: 0 <= i < |elements| ==> elements[i].IsInParagraph()
    }

    constructor ()
      ensures Valid() && elements == []
    {
      elements := [];
    }

    /** `+"s"`: a separator, then a new text element, which is returned. */
    method UnaryPlus(s: string) returns (el: E.Element)
      requires Valid()
      modifies this
      ensures Valid()
      ensures el.Text? && el.text == s && fresh(el.id)
      ensures elements == old(elements) + [E.Separator, el]
    {
      elements := elements + [E.Separator];
      var id := new E.Identity();
      el := E.Text(id, s);
      elements := elements + [el];
    }

    /** `bold`, `it` and `tt`: one format element around the nested builder's list. */
    method AddFormat(kind: E.FormatKind, nested: ParagraphBuilder)
      requires Valid() && nested != this
      modifies this
      ensures Valid()
      ensures |elements| == |old(elements)| + 1 && elements[..|old(elements)|] == old(elements)
      ensures var f := elements[|old(elements)|];
        f.Format? && f.kind == kind && f.elements == nested.elements && fresh(f.id)
    {
      var id := new E.Identity();
      elements := elements + [E.Format(id, kind, nested.elements)];
    }

    method Bold(nested: ParagraphBuilder)
      requires Valid() && nested != this
      modifies this
      ensures Valid()
      ensures |elements| == |old(elements)| + 1 && elements[..|old(elements)|] == old(elements)
      ensures var f := elements[|old(elements)|];
        f.Format? && f.kind == E.Bold && f.elements == nested.elements && fresh(f.id)
    {
      AddFormat(E.Bold, nested);
    }

    method It(nested: ParagraphBuilder)
      requires Valid() && nested != this
      modifies this
      ensures Valid()
      ensures |elements| == |old(elements)| + 1 && elements[..|old(elements)|] == old(elements)
      ensures var f := elements[|old(elements)|];
        f.Format? && f.kind == E.Italics && f.elements == nested.elements && fresh(f.id)
    {
      AddFormat(E.Italics, nested);
    }

    method Tt(nested: ParagraphBuilder)
      requires Valid() && nested != this
      modifies this
      ensures Valid()
      ensures |elements| == |old(elements)| + 1 && elements[..|old(elements)|] == old(elements)
      ensures var f := elements[|old(elements)|];
        f.Format? && f.kind == E.Teletype && f.elements == nested.elements && fresh(f.id)
    {
      AddFormat(E.Teletype, nested);
    }

    /**
     * `receiver linkTo link`: when the receiver is the very object at the end of the
     * list it is replaced by the link around it; otherwise the link is appended.
     */
    method LinkTo(receiver: E.Element, link: string)
      requires Valid() && receiver.IsInParagraph()
      modifies this
      ensures Valid()
      ensures |elements| > 0
      ensures var h := elements[|elements| - 1];
        h.Href? && h.element == receiver && h.url == link && fresh(h.id)
      ensures var n := |old(elements)|;
        if n > 0 && old(elements)[n - 1] == receiver
        then elements == old(elements)[..n - 1] + [elements[|elements| - 1]]
        else elements == old(elements) + [elements[|elements| - 1]]
    {
      if |elements| > 0 && elements[|elements| - 1] == receiver {
        elements := elements[..|elements| - 1];
      }
      var id := new E.Identity();
      elements := elements + [E.Href(id, receiver, link)];
    }

    /** `math { ... }`: one inline-math element around the expression the block builds. */
    method Math(expression: Expression)
      requires Valid()
      modifies this
      ensures Valid()
      ensures |elements| == |old(elements)| + 1 && elements[..|old(elements)|] == old(elements)
      ensures var m := elements[|old(elements)|];
        m.MathMode? && m.expression == expression && fresh(m.id)
    {
      var id := new E.Identity();
      elements := elements + [E.MathMode(id, expression)];
    }
  }

  /** `+"t" linkTo url`: the text's separator stays, and the text becomes a link around it. */
  method TextLinkTo(p: ParagraphBuilder, t: string, url: string)
    requires p.Valid()
    modifies p
    ensures p.Valid()
    ensures |p.elements| == |old(p.elements)| + 2
    ensures p.elements[..|old(p.elements)|] == old(p.elements)
    ensures p.elements[|old(p.elements)|] == E.Separator
    ensures var h := p.elements[|old(p.elements)| + 1];
      h.Href? && h.element.Text? && h.element.text == t && h.url == url
  {
    var el := p.UnaryPlus(t);
    p.LinkTo(el, url);
  }

  /**
   * Links compare by reference: after `val x = +"t"; +"t"`, `x linkTo url` does not
   * replace the second text, equal in content but another object, and appends instead.
   */
  method LinkToEarlierText(p: ParagraphBuilder, t: string, url: string)
    requires p.Valid()
    modifies p
    ensures p.Valid()
    ensures var n := |old(p.elements)|;
      |p.elements| == n + 5 && p.elements[..n] == old(p.elements) &&
      p.elements[n + 1].Text? && p.elements[n + 3].Text? &&
      p.elements[n + 1].text == t && p.elements[n + 3].text == t &&
      p.elements[n + 1] != p.elements[n + 3] &&
      p.elements[n + 4].Href? && p.elements[n + 4].element == p.elements[n + 1]
  {
    var x := p.UnaryPlus(t);
    var y := p.UnaryPlus(t);
    p.LinkTo(x, url);
  }

  class DocumentBuilder {
    var elements: seq<E.Element>
    var title: Option<string>
    var author: Option<string>
    var date: Option<string>

    constructor ()
      ensures elements == [] && title == None && author == None && date == None
    {
      elements, title, author, date := [], None, None, None;
    }

    /** `title()`: appends the title marker. */
    method Title()
      modifies this
      ensures elements == old(elements) + [E.Title]
      ensures title == old(title) && author == old(author) && date == old(date)
    {
      elements := elements + [E.Title];
    }

    /** `paragraph { ... }`: appends one paragraph holding the nested builder's list. */
    method Paragraph(nested: ParagraphBuilder)
      requires nested.Valid()
      modifies this
      ensures elements == old(elements) + [E.Paragraph(nested.elements)]
      ensures title == old(title) && author == old(author) && date == old(date)
    {
      elements := elements + [E.Paragraph(nested.elements)];
    }
  }

  /** `latex(type) { ... }`: the document holds exactly what the builder collected. */
  function Latex(docType: Option<string>, builder: DocumentBuilder): (doc: E.LatexDocument)
    reads builder
    ensures doc.docType == docType && doc.title == builder.title && doc.author == builder.author
    ensures doc.date == builder.date && doc.elements == builder.elements
  {
    E.LatexDocument(docType, builder.title, builder.author, builder.date, builder.elements)
  }
}
