/**
 * Document elements and the document itself (latex/model/Elements.kt). Every element
 * renders itself by concatenating the rendering of what it holds.
 */
module LatexElements {

  import opened Wrappers
  import opened LatexUtils
  import opened LatexExpressions

  /**
   * The identity of a JVM object. The `InParagraphElement` classes are compared by
   * reference; each carries the `Identity` allocated with it, so two elements built
   * by two calls are different even when their contents agree.
   */
  class Identity {
    constructor () { }
  }

  datatype FormatKind = Bold | Italics | Teletype

  /**
   * `LatexElement`. `Title` and `Separator` are Kotlin `object`s (one instance
   * each, so they carry no identity). A paragraph is never compared, so it carries
   * none either. The source types a paragraph's children and a link's element as
   * `InParagraphElement`; the builders keep that restriction, the datatype does not.
   */
  datatype Element =
    | Title
    | Paragraph(elements: seq<Element>)
    | Separator
    | Text(id: Identity, text: string)
    | Format(id: Identity, kind: FormatKind, elements: seq<Element>)
    | Href(id: Identity, element: Element, url: string)
    | MathMode(id: Identity, expression: Expression)
  {
    /** The `InParagraphElement` sub-family: everything except titles and paragraphs. */
    predicate IsInParagraph() {
      !Title? && !Paragraph?
    }
  }

  /** The `command` of each `FormatElement` subclass. */
  function Command(kind: FormatKind): string {
    match kind
    case Bold => "textbf"
    case Italics => "textit"
    case Teletype => "texttt"
  }

  /** `latex()` of an element. */
  function Latex(e: Element): string
    decreases e, 1
  {
    match e
    case Title => "\\maketitle\n"
    case Paragraph(elements) => JoinLatex(elements) + "\n\n"
    case Separator => "\n"
    case Text(_, text) => Escape(text)
    case Format(_, kind, elements) => Macro(Command(kind), JoinLatex(elements))
    case Href(_, element, url) => Macro2("href", Escape(url), Latex(element))
    case MathMode(_, expression) => "$" + MathLatex(expression) + "$"
  }

  /** `elements.joinToString("") { it.latex() }`. */
  function JoinLatex(es: seq<Element>): string
    decreases es, 0
  {
    if es == [] then "" else Latex(es[0]) + JoinLatex(es[1..])
  }

  /** Joining distributes over list concatenation. */
  lemma {:induction false} JoinLatexConcat(a: seq<Element>, b: seq<Element>)
    ensures JoinLatex(a + b) == JoinLatex(a) + JoinLatex(b)
    decreases |a|
  {
    if a == [] {
      assert a + b == b;
    } else {
      assert (a + b)[1..] == a[1..] + b;
      JoinLatexConcat(a[1..], b);
    }
  }

  lemma JoinLatexSnoc(es: seq<Element>, e: Element)
    ensures JoinLatex(es + [e]) == JoinLatex(es) + Latex(e)
  {
    JoinLatexConcat(es, [e]);
    assert [e][1..] == [];
  }

  /** Nothing an element holds, text or url or expression, can unbalance the output's groups. */
  lemma {:induction false} LatexNeutral(e: Element)
    ensures Neutral(Latex(e))
    decreases e, 1
  {
    match e
    case Title =>
      ControlWordNeutral("maketitle");
      PlainNeutral("\n");
      NeutralConcat("\\" + "maketitle", "\n");
      assert Latex(e) == "\\" + "maketitle" + "\n";
    case Paragraph(elements) =>
      JoinLatexNeutral(elements);
      PlainNeutral("\n\n");
      NeutralConcat(JoinLatex(elements), "\n\n");
    case Separator =>
      PlainNeutral("\n");
    case Text(_, text) =>
      EscapeNeutral(text);
    case Format(_, kind, elements) =>
      JoinLatexNeutral(elements);
      MacroNeutral(Command(kind), JoinLatex(elements));
    case Href(_, element, url) =>
      LatexNeutral(element);
      EscapeNeutral(url);
      Macro2Neutral("href", Escape(url), Latex(element));
    case MathMode(_, expression) =>
      MathLatexNeutral(expression);
      PlainNeutral("$");
      NeutralConcat("$", MathLatex(expression));
      NeutralConcat("$" + MathLatex(expression), "$");
  }

  lemma {:induction false} JoinLatexNeutral(es: seq<Element>)
    ensures Neutral(JoinLatex(es))
    decreases es, 0
  {
    if es == [] {
      PlainNeutral("");
    } else {
      LatexNeutral(es[0]);
      JoinLatexNeutral(es[1..]);
      NeutralConcat(Latex(es[0]), JoinLatex(es[1..]));
    }
  }

  /** What the markers, separators, texts, paragraphs and inline math write. */
  lemma ElementRendering(id: Identity, es: seq<Element>, s: string, x: Expression)
    ensures Latex(Title) == "\\maketitle\n" && Latex(Separator) == "\n"
    ensures Latex(Paragraph(es)) == JoinLatex(es) + "\n\n" && Latex(Paragraph([])) == "\n\n"
    ensures Latex(Text(id, s)) == Escape(s)
    ensures Latex(MathMode(id, x)) == "$" + MathLatex(x) + "$"
  {
    assert JoinLatex([]) + "\n\n" == "\n\n";
  }

  /** A format element writes its command around its children's joined rendering. */
  lemma FormatRendering(id: Identity, es: seq<Element>)
    ensures Latex(Format(id, Bold, es)) == "\\textbf{" + JoinLatex(es) + "}"
    ensures Latex(Format(id, Italics, es)) == "\\textit{" + JoinLatex(es) + "}"
    ensures Latex(Format(id, Teletype, es)) == "\\texttt{" + JoinLatex(es) + "}"
  {
    var j := JoinLatex(es);
    assert "\\" + "textbf" + "{" == "\\textbf{";
    assert "\\" + "textit" + "{" == "\\textit{";
    assert "\\" + "texttt" + "{" == "\\texttt{";
    MacroSpelled("textbf", j);
    MacroSpelled("textit", j);
    MacroSpelled("texttt", j);
  }

  /** A link writes the escaped url, then the wrapped element's rendering. */
  lemma HrefRendering(id: Identity, el: Element, url: string)
    ensures Latex(Href(id, el, url)) == "\\href{" + Escape(url) + "}{" + Latex(el) + "}"
  {
    var u, r := Escape(url), Latex(el);
    assert "\\" + "href" + "{" == "\\href{";
    MacroSpelled("href", u);
    assert Macro2("href", u, r) == "\\href{" + u + "}" + ("{" + r + "}");
  }

  lemma JoinLatexSingle(e: Element)
    ensures JoinLatex([e]) == Latex(e)
  {
    assert [e][1..] == [];
  }

  /** Formats nest: bold around italics around a text. */
  lemma FormatNests(b: Identity, i: Identity, t: Identity)
    ensures Latex(Format(b, Bold, [Format(i, Italics, [Text(t, "x")])])) == "\\textbf{\\textit{x}}"
  {
    var inner := Format(i, Italics, [Text(t, "x")]);
    EscapeUnchanged("x");
    JoinLatexSingle(Text(t, "x"));
    JoinLatexSingle(inner);
    assert Latex(inner) == Macro("textit", "x");
    NestedMacroSpelled();
  }

  lemma NestedMacroSpelled()
    ensures Macro("textbf", Macro("textit", "x")) == "\\textbf{\\textit{x}}"
  {
    MacroSpelled("textit", "x");
    assert "\\" + "textit" + "{" + "x" + "}" == "\\textit{x}";
    MacroSpelled("textbf", "\\textit{x}");
    assert "\\" + "textbf" + "{" + "\\textit{x}" + "}" == "\\textbf{\\textit{x}}";
  }

  /** A link escapes its url, while the element it wraps is rendered once, not escaped again. */
  lemma HrefEscapesUrlOnly(h: Identity, b: Identity, t: Identity)
    ensures Latex(Href(h, Format(b, Bold, [Text(t, "a#b")]), "a#b")) == "\\href{a\\#b}{\\textbf{a\\#b}}"
  {
    EscapeExample();
    JoinLatexSingle(Text(t, "a#b"));
    assert Latex(Format(b, Bold, [Text(t, "a#b")])) == Macro("textbf", "a\\#b");
    HrefLiteral();
  }

  lemma HrefLiteral()
    ensures Macro2("href", "a\\#b", Macro("textbf", "a\\#b")) == "\\href{a\\#b}{\\textbf{a\\#b}}"
  {
    MacroLiteral("href", "a\\#b", "\\href{a\\#b}");
    MacroLiteral("textbf", "a\\#b", "\\textbf{a\\#b}");
    assert Group("\\textbf{a\\#b}") == "{\\textbf{a\\#b}}";
    assert "\\href{a\\#b}" + "{\\textbf{a\\#b}}" == "\\href{a\\#b}{\\textbf{a\\#b}}";
  }

  /** A macro call compared with its spelling, one literal at a time. */
  lemma MacroLiteral(name: string, arg: string, spelled: string)
    requires spelled == "\\" + name + "{" + arg + "}"
    ensures Macro(name, arg) == spelled
  {
    MacroSpelled(name, arg);
  }

  /**
   * `LatexDocument`: the document class (the builder passes `null` when none is
   * given), the optional metadata and the top-level elements.
   */
  datatype LatexDocument = LatexDocument(
    docType: Option<string>,
    title: Option<string>,
    author: Option<string>,
    date: Option<string>,
    elements: seq<Element>)

  /** Text written by one `appendLine` per line: each line followed by a line break. */
  function Unlines(lines: seq<string>): string {
    if lines == [] then "" else Unlines(lines[..|lines| - 1]) + lines[|lines| - 1] + "\n"
  }

  /** The `\command{value}` line of a metadata field that is set; no line when it is not. */
  function MetadataLine(command: string, value: Option<string>): seq<string> {
    match value
    case None => []
    case Some(v) => [Macro(command, v)]
  }

  function MetadataLines(doc: LatexDocument): seq<string> {
    MetadataLine("title", doc.title) + MetadataLine("author", doc.author) + MetadataLine("date", doc.date)
  }

  /**
   * The lines of `LatexDocument.latex()`, in the order they are appended: the class,
   * the metadata that is set, an empty line, hyperref, an empty line, the begin
   * marker, the joined body, the end marker.
   */
  function DocumentLines(doc: LatexDocument): seq<string> {
    [Macro("documentclass", doc.docType.GetOr("article"))] +
    MetadataLine("title", doc.title) + MetadataLine("author", doc.author) + MetadataLine("date", doc.date) +
    [""] + [Macro("usepackage", "hyperref")] + [""] + [Macro("begin", "document")] +
    [JoinLatex(doc.elements)] + [Macro("end", "document")]
  }

  /** Specification of `LatexDocument.latex()`. */
  function DocumentLatex(doc: LatexDocument): string {
    Unlines(DocumentLines(doc))
  }

  /** `joinToString("")` over the elements: their renderings appended one by one. */
  method JoinElements(es: seq<Element>) returns (body: string)
    ensures body == JoinLatex(es)
  {
    body := "";
    for i := 0 to |es|
      invariant body == JoinLatex(es[..i])
    {
      JoinLatexSnoc(es[..i], es[i]);
      assert es[..i + 1] == es[..i] + [es[i]];
      body := body + Latex(es[i]);
    }
    assert es[..|es|] == es;
  }

  /** The buffer of Kotlin's `buildString`. */
  class StringBuilder {
    var content: string

    constructor ()
      ensures content == ""
    {
      content := "";
    }

    method AppendLine(line: string)
      modifies this
      ensures content == old(content) + line + "\n"
    {
      content := content + line + "\n";
    }
  }

  lemma UnlinesSnoc(lines: seq<string>, line: string)
    ensures Unlines(lines + [line]) == Unlines(lines) + line + "\n"
  {
    assert (lines + [line])[..|lines|] == lines;
  }

  /** `appendLine(line)`, keeping track of the lines written so far. */
  method AppendLineOf(sb: StringBuilder, line: string, ghost lines: seq<string>)
    requires sb.content == Unlines(lines)
    modifies sb
    ensures sb.content == Unlines(lines + [line])
  {
    sb.AppendLine(line);
    UnlinesSnoc(lines, line);
  }

  /** `value?.let { appendLine("\\command{$it}") }`. */
  method AppendMetadata(sb: StringBuilder, command: string, value: Option<string>, ghost lines: seq<string>)
    requires sb.content == Unlines(lines)
    modifies sb
    ensures sb.content == Unlines(lines + MetadataLine(command, value))
  {
    if value.Some? {
      sb.AppendLine(Macro(command, value.value));
      UnlinesSnoc(lines, Macro(command, value.value));
    } else {
      assert lines + [] == lines;
    }
  }

  /**
   * `LatexDocument.latex()` as the source writes it: `appendLine` after `appendLine`
   * into one buffer, the metadata lines only for the fields that are set.
   */
  method RenderDocument(doc: LatexDocument) returns (out: string)
    ensures out == DocumentLatex(doc)
  {
    var sb := new StringBuilder();
    ghost var lines: seq<string> := [];
    AppendLineOf(sb, Macro("documentclass", doc.docType.GetOr("article")), lines);
    lines := lines + [Macro("documentclass", doc.docType.GetOr("article"))];
    AppendMetadata(sb, "title", doc.title, lines);
    lines := lines + MetadataLine("title", doc.title);
    AppendMetadata(sb, "author", doc.author, lines);
    lines := lines + MetadataLine("author", doc.author);
    AppendMetadata(sb, "date", doc.date, lines);
    lines := lines + MetadataLine("date", doc.date);
    AppendLineOf(sb, "", lines);
    lines := lines + [""];
    AppendLineOf(sb, Macro("usepackage", "hyperref"), lines);
    lines := lines + [Macro("usepackage", "hyperref")];
    AppendLineOf(sb, "", lines);
    lines := lines + [""];
    AppendLineOf(sb, Macro("begin", "document"), lines);
    lines := lines + [Macro("begin", "document")];
    var body := JoinElements(doc.elements);
    AppendLineOf(sb, body, lines);
    lines := lines + [body];
    AppendLineOf(sb, Macro("end", "document"), lines);
    lines := lines + [Macro("end", "document")];
    out := sb.content;
  }

  /** Every line of the output that the source appends is there, in this order. */
  lemma DocumentLayout(doc: LatexDocument)
    ensures var ls := DocumentLines(doc);
      var n := |ls|;
      n == 7 + |MetadataLines(doc)| &&
      ls[0] == Macro("documentclass", doc.docType.GetOr("article")) &&
      ls[1..n - 6] == MetadataLines(doc) &&
      ls[n - 6] == "" && ls[n - 5] == Macro("usepackage", "hyperref") && ls[n - 4] == "" &&
      ls[n - 3] == Macro("begin", "document") &&
      ls[n - 2] == JoinLatex(doc.elements) &&
      ls[n - 1] == Macro("end", "document")
  {
  }

  /**
   * A metadata field gives exactly one line when it is set and none when it is not,
   * and the lines keep the order title, author, date.
   */
  lemma MetadataLinesPresentIffSet(doc: LatexDocument)
    ensures var m := MetadataLines(doc);
      var k := (if doc.title.Some? then 1 else 0) + (if doc.author.Some? then 1 else 0) +
        (if doc.date.Some? then 1 else 0);
      |m| == k &&
      (doc.title.Some? ==> m[0] == Macro("title", doc.title.value)) &&
      (doc.author.Some? ==> m[if doc.title.Some? then 1 else 0] == Macro("author", doc.author.value)) &&
      (doc.date.Some? ==> m[k - 1] == Macro("date", doc.date.value))
  {
  }

  /**
   * Setting the title adds exactly the line `\title{t}` after the class line and
   * leaves every other line as it was without a title.
   */
  lemma TitleLineInserted(doc: LatexDocument, t: string)
    ensures var without := DocumentLines(doc.(title := None));
      |without| > 0 &&
      DocumentLines(doc.(title := Some(t))) == without[..1] + [Macro("title", t)] + without[1..]
  {
    var w := doc.(title := None);
    assert MetadataLine("title", w.title) == [];
    InsertAfterFirst(Macro("documentclass", doc.docType.GetOr("article")), [Macro("title", t)],
      MetadataLine("author", doc.author), MetadataLine("date", doc.date),
      "", Macro("usepackage", "hyperref"), "", Macro("begin", "document"),
      JoinLatex(doc.elements), Macro("end", "document"));
  }

  /**
   * List shape behind `TitleLineInserted`: lines `m` put right after the first line.
   * It is stated over variables, one per fixed line, so that the proof does not unfold the literal lines.
   */
  lemma InsertAfterFirst<T>(c: T, m: seq<T>, a: seq<T>, d: seq<T>, x1: T, x2: T, x3: T, x4: T, x5: T, x6: T)
    ensures var w := [c] + [] + a + d + [x1] + [x2] + [x3] + [x4] + [x5] + [x6];
      |w| > 0 && [c] + m + a + d + [x1] + [x2] + [x3] + [x4] + [x5] + [x6] == w[..1] + m + w[1..]
  {
    var r := a + d + [x1, x2, x3, x4, x5, x6];
    var w := [c] + [] + a + d + [x1] + [x2] + [x3] + [x4] + [x5] + [x6];
    assert w == [c] + r;
    assert w[..1] == [c] && w[1..] == r;
    assert [c] + m + a + d + [x1] + [x2] + [x3] + [x4] + [x5] + [x6] == [c] + m + r;
  }

  /** With no elements the body is a single empty line between the begin and end markers. */
  lemma EmptyBody(doc: LatexDocument)
    requires doc.elements == []
    ensures var ls := DocumentLines(doc);
      |ls| >= 3 && ls[|ls| - 3] == "\\begin{document}" && ls[|ls| - 2] == "" &&
      ls[|ls| - 1] == "\\end{document}"
  {
    DocumentLayout(doc);
    assert Macro("begin", "document") == "\\begin{document}";
    assert Macro("end", "document") == "\\end{document}";
  }

  lemma {:induction false} UnlinesConcat(a: seq<string>, b: seq<string>)
    ensures Unlines(a + b) == Unlines(a) + Unlines(b)
    decreases |b|
  {
    if b == [] {
      assert a + b == a;
    } else {
      assert (a + b)[..|a + b| - 1] == a + b[..|b| - 1];
      UnlinesConcat(a, b[..|b| - 1]);
    }
  }

  lemma {:induction false} UnlinesNeutral(lines: seq<string>)
    requires forall i :: 0 <= i < |lines| ==> Neutral(lines[i])
    ensures Neutral(Unlines(lines))
    decreases |lines|
  {
    if lines == [] {
      PlainNeutral("");
    } else {
      var last := lines[|lines| - 1];
      UnlinesNeutral(lines[..|lines| - 1]);
      PlainNeutral("\n");
      NeutralConcat(Unlines(lines[..|lines| - 1]), last);
      NeutralConcat(Unlines(lines[..|lines| - 1]) + last, "\n");
    }
  }

  ghost predicate AllNeutral(lines: seq<string>) {
    forall i :: 0 <= i < |lines| ==> Neutral(lines[i])
  }

  lemma AllNeutralConcat(a: seq<string>, b: seq<string>)
    requires AllNeutral(a) && AllNeutral(b)
    ensures AllNeutral(a + b)
  {
    forall i | 0 <= i < |a + b| ensures Neutral((a + b)[i]) {
      if i >= |a| {
        assert (a + b)[i] == b[i - |a|];
      }
    }
  }

  lemma MetadataLineNeutral(command: string, value: Option<string>)
    requires |command| > 0 && Plain(command)
    requires value.Some? ==> Neutral(value.value)
    ensures AllNeutral(MetadataLine(command, value))
  {
    if value.Some? {
      MacroNeutral(command, value.value);
    }
  }

  lemma ClassLineNeutral(docType: string)
    requires Neutral(docType)
    ensures Neutral(Macro("documentclass", docType))
  {
    MacroNeutral("documentclass", docType);
  }

  lemma MetadataNeutral(doc: LatexDocument)
    requires doc.title.Some? ==> Neutral(doc.title.value)
    requires doc.author.Some? ==> Neutral(doc.author.value)
    requires doc.date.Some? ==> Neutral(doc.date.value)
    ensures AllNeutral(MetadataLine("title", doc.title))
    ensures AllNeutral(MetadataLine("author", doc.author))
    ensures AllNeutral(MetadataLine("date", doc.date))
  {
    MetadataLineNeutral("title", doc.title);
    MetadataLineNeutral("author", doc.author);
    MetadataLineNeutral("date", doc.date);
  }

  /** The lines whose text is fixed. */
  lemma PreambleNeutral()
    ensures Neutral("") && Neutral(Macro("usepackage", "hyperref"))
    ensures Neutral(Macro("begin", "document")) && Neutral(Macro("end", "document"))
  {
    PlainNeutral("");
    PlainNeutral("hyperref");
    PlainNeutral("document");
    MacroNeutral("usepackage", "hyperref");
    MacroNeutral("begin", "document");
    MacroNeutral("end", "document");
  }

  /**
   * The class name and the metadata are written verbatim, so the document's groups
   * all close whenever those do, whatever text the elements hold.
   */
  lemma DocumentBalanced(doc: LatexDocument)
    requires Neutral(doc.docType.GetOr("article"))
    requires doc.title.Some? ==> Neutral(doc.title.value)
    requires doc.author.Some? ==> Neutral(doc.author.value)
    requires doc.date.Some? ==> Neutral(doc.date.value)
    ensures Balanced(DocumentLatex(doc))
  {
    var classLine := [Macro("documentclass", doc.docType.GetOr("article"))];
    ClassLineNeutral(doc.docType.GetOr("article"));
    MetadataNeutral(doc);
    PreambleNeutral();
    JoinLatexNeutral(doc.elements);
    var ls := classLine;
    AllNeutralConcat(ls, MetadataLine("title", doc.title));
    ls := ls + MetadataLine("title", doc.title);
    AllNeutralConcat(ls, MetadataLine("author", doc.author));
    ls := ls + MetadataLine("author", doc.author);
    AllNeutralConcat(ls, MetadataLine("date", doc.date));
    ls := ls + MetadataLine("date", doc.date);
    AllNeutralConcat(ls, [""]);
    ls := ls + [""];
    AllNeutralConcat(ls, [Macro("usepackage", "hyperref")]);
    ls := ls + [Macro("usepackage", "hyperref")];
    AllNeutralConcat(ls, [""]);
    ls := ls + [""];
    AllNeutralConcat(ls, [Macro("begin", "document")]);
    ls := ls + [Macro("begin", "document")];
    AllNeutralConcat(ls, [JoinLatex(doc.elements)]);
    ls := ls + [JoinLatex(doc.elements)];
    AllNeutralConcat(ls, [Macro("end", "document")]);
    ls := ls + [Macro("end", "document")];
    UnlinesNeutral(ls);
  }

  /**
   * The metadata is not escaped: a title `}` closes a group that was never opened, so
   * the output is not balanced.
   */
  lemma UnescapedTitleUnbalances()
    ensures !Balanced(DocumentLatex(LatexDocument(None, Some("}"), None, None, [])))
  {
    var doc := LatexDocument(None, Some("}"), None, None, []);
    var ls := DocumentLines(doc);
    var classLine := Macro("documentclass", "article");
    var emptyTitle := Macro("title", "");
    ClosingTitle();
    assert ls[..2] == [classLine] + [Macro("title", "}")];
    UnlinesConcat(ls[..2], ls[2..]);
    assert ls == ls[..2] + ls[2..];
    UnlinesSnoc([classLine], Macro("title", "}"));
    var u := Unlines([classLine]);
    var rest := Unlines(ls[2..]);
    Regroup(u, emptyTitle, "}", "\n", rest);
    OpeningLinesNeutral();
    UnmatchedClose(u + emptyTitle, "\n" + rest, 0);
  }

  /** `\title{}}` is `\title{}` followed by a stray `}`. */
  lemma ClosingTitle()
    ensures Macro("title", "}") == Macro("title", "") + "}"
  {
    assert Group("}") == Group("") + "}";
  }

  /** The class line and an empty title close every group they open. */
  lemma OpeningLinesNeutral()
    ensures Neutral(Unlines([Macro("documentclass", "article")]) + Macro("title", ""))
  {
    PlainNeutral("article");
    PlainNeutral("");
    MacroNeutral("documentclass", "article");
    MacroNeutral("title", "");
    UnlinesNeutral([Macro("documentclass", "article")]);
    NeutralConcat(Unlines([Macro("documentclass", "article")]), Macro("title", ""));
  }

  /** Regrouping of five strings, stated over variables so that `UnescapedTitleUnbalances` need not unfold literals. */
  lemma Regroup(u: string, e: string, c: string, n: string, r: string)
    ensures (u + (e + c) + n) + r == (u + e) + (c + (n + r))
  {
  }
}
