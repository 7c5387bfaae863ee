# Kotlin builder DSLs, modelled in Dafny

This project models the two builder DSLs of a small Kotlin lecture repository and proves properties of the model.

**The LaTeX generator** (`latex/`):
- A text escaper, `escapeLatexText`, puts a backslash before each of `# $ % _ ^ { } ~ \`.
- A math-expression tree renders to math-mode text: text atoms, `+ - *` (`\cdot`), fractions and square roots.
- Document elements render to LaTeX: title, separator, text, bold/italic/teletype, link, inline math, paragraph.
- `LatexDocument.latex()` writes a fixed layout. It has the class line, the metadata lines that are set, the hyperref preamble, the body between `\begin{document}` and `\end{document}`.
- The builders (`MathBuilder`, `ParagraphBuilder`, `DocumentBuilder`, `latex(type) { ... }`) assemble these trees.

**The task DSL** (`example/`):
- `ScheduleBuilder` combines lists of `(day of week, time)` moments:
  - a single moment;
  - `midDay`;
  - a day range in week order;
  - "the same days again at another time".
- `TaskBuilder` keeps a task's settings.
- `TasksBuilder` collects the tasks.

Modules, one per source file:

| Dafny module | file | source |
|---|---|---|
| `Wrappers` | wrappers.dfy | `Option`, for Kotlin's nullable values and `?:` |
| `LatexUtils` | latex_utils.dfy | latex/model/Utils.kt |
| `LatexExpressions` | latex_expressions.dfy | latex/model/Expressions.kt |
| `LatexElements` | latex_elements.dfy | latex/model/Elements.kt |
| `LatexDsl` | latex_dsl.dfy | latex/DSL.kt |
| `TaskModel` | task_model.dfy | example/Task.kt and the `DayOfWeek` enum |
| `TaskDsl` | task_dsl.dfy | example/DSL.kt |

The model takes the source's own form:
- Code that loops and appends is a `method`, proved equal to a specification function:
  - the escaper's `for` loop;
  - `joinToString`;
  - the `appendLine` sequence of `LatexDocument.latex()`, written against a `StringBuilder` class.
- Expression and element rendering are recursive functions over datatypes.
- The builders whose lists and fields change in place are classes: `ParagraphBuilder`, `DocumentBuilder`, `TaskBuilder`, `TasksBuilder`.
- `MathBuilder` and `ScheduleBuilder` only combine values, so they are functions.

**Identity.** `linkTo` compares its receiver with the last element by `==`. `TextElement` is not a data class, so that is reference equality. The `InParagraphElement` classes (text, format, link, inline math) carry a freshly allocated `Identity` object. Two texts with the same content are therefore different elements. `TitleElement` and `SeparatorElement` are Kotlin `object`s, so they carry no identity and are equal to themselves. `ParagraphElement` is also a class, but it can never be a `linkTo` receiver and nothing else compares paragraphs, so it carries no identity.

**Balance.** Escaping exists so that user text cannot break the markup. `LatexUtils.Scan` reads a fragment for brace grouping:
- `\x` is one control symbol;
- `{` opens a group and `}` closes one;
- an unmatched `}` or a trailing lone `\` is an error.

`Scan` does not know LaTeX's `%` comments, which hide the rest of the line. Escaped text never holds a bare `%`, but the verbatim class name and metadata can, and for those "balanced" means balanced as `Scan` reads them.

A fragment is *neutral* when it closes every group it opens and closes none it did not open. Every element and expression renders to a neutral fragment, whatever text it holds. A document is balanced whenever its class name and metadata are. Those four values are written without escaping, and a title `}` breaks the document.

## Model

| member | source | states |
|---|---|---|
| LatexUtils.EscapeLatexText | src/main/kotlin/latex/model/Utils.kt:3-12 | the character loop appending to a buffer computes exactly `Escape(s)`, the in-order concatenation of each character's contribution |
| LatexUtils.EscapeSingle | src/main/kotlin/latex/model/Utils.kt:7-8 | a reserved character becomes backslash + itself; any other character is copied |
| LatexUtils.EscapeUnchanged | src/main/kotlin/latex/model/Utils.kt:5-9 | a string with no reserved character (the empty string included) escapes to itself |
| LatexUtils.EscapeLength | src/main/kotlin/latex/model/Utils.kt:5-9 | output length is input length plus the number of reserved characters |
| LatexUtils.EscapeConcat | src/main/kotlin/latex/model/Utils.kt:5-9 | escaping distributes over concatenation |
| LatexUtils.EscapeAt | src/main/kotlin/latex/model/Utils.kt:7-8 | input character `i` lands at `i` plus the reserved characters before it, preceded by a backslash exactly when reserved |
| LatexUtils.UnescapeEscape | src/main/kotlin/latex/model/Utils.kt:7-8 | dropping the backslash before each escaped character recovers the input |
| LatexUtils.EscapeInjective | src/main/kotlin/latex/model/Utils.kt:7-8 | different inputs escape to different outputs |
| LatexUtils.CountReservedOfEscape | src/main/kotlin/latex/model/Utils.kt:7 | the escaped text holds twice as many reserved characters as the input |
| LatexUtils.EscapeNotIdempotent | src/main/kotlin/latex/model/Utils.kt:7 | if the input holds a reserved character, escaping twice differs from escaping once |
| LatexUtils.EscapeExample | src/main/kotlin/latex/model/Utils.kt:7 | `a#b` escapes to `a\#b` |
| LatexUtils.EscapeNeutral | src/main/kotlin/latex/model/Utils.kt:3-12 | escaped text of any input opens and closes no group |
| LatexExpressions.RenderingNotInjective | src/main/kotlin/latex/model/Expressions.kt:14-20 | for all operators and operands, `x o1 (y o2 z)` and `(x o1 y) o2 z` are different trees with the same rendering |
| LatexExpressions.PrecedenceExample | src/main/kotlin/latex/model/Expressions.kt:14-30 | `(1 + 2) * 3` and `1 + (2 * 3)` both render `1 + 2 \cdot 3` |
| LatexExpressions.SpacedLiterals | src/main/kotlin/latex/model/Expressions.kt:24-30 | the operations between operands are ` + `, ` - ` and ` \cdot ` |
| LatexExpressions.MathLatexNeutral | src/main/kotlin/latex/model/Expressions.kt:8-38 | every rendered expression is brace-neutral, whatever its atoms' text |
| LatexElements.ElementRendering | src/main/kotlin/latex/model/Elements.kt:8-52 | title is `\maketitle` + newline, separator a newline, text its escaped text, a paragraph its children + two newlines (just two newlines when empty), inline math `$expr$` |
| LatexElements.FormatRendering | src/main/kotlin/latex/model/Elements.kt:28-42 | bold, italics and teletype write `\textbf{…}`, `\textit{…}`, `\texttt{…}` around the children's joined rendering |
| LatexElements.HrefRendering | src/main/kotlin/latex/model/Elements.kt:45-49 | a link writes `\href{escaped url}{element's rendering}` |
| LatexElements.JoinLatexConcat | src/main/kotlin/latex/model/Elements.kt:12 | joining the renderings of `a + b` is joining `a`'s then `b`'s |
| LatexElements.JoinElements | src/main/kotlin/latex/model/Elements.kt:72 | appending each element's rendering in a loop yields the joined rendering |
| LatexElements.LatexNeutral | src/main/kotlin/latex/model/Elements.kt:8-52 | every element renders to a brace-neutral fragment, whatever text and urls it holds |
| LatexElements.JoinLatexNeutral | src/main/kotlin/latex/model/Elements.kt:12 | a joined list of elements is brace-neutral |
| LatexElements.FormatNests | src/main/kotlin/latex/model/Elements.kt:28-38 | bold around italics around `x` renders `\textbf{\textit{x}}` |
| LatexElements.HrefEscapesUrlOnly | src/main/kotlin/latex/model/Elements.kt:47 | the url is escaped, the wrapped element's rendering is not escaped again |
| LatexElements.StringBuilder.AppendLine | src/main/kotlin/latex/model/Elements.kt:64 | `appendLine` adds the line and a line break to the buffer |
| LatexElements.AppendMetadata | src/main/kotlin/latex/model/Elements.kt:65-67 | `value?.let { appendLine(...) }` writes the `\command{value}` line only when the value is set |
| LatexElements.RenderDocument | src/main/kotlin/latex/model/Elements.kt:62-75 | the `appendLine` sequence writes exactly the document's lines, each followed by a line break |
| LatexElements.DocumentLayout | src/main/kotlin/latex/model/Elements.kt:64-73 | the lines are: class line (type or `article`), the metadata lines, empty, `\usepackage{hyperref}`, empty, `\begin{document}`, the joined body, `\end{document}` |
| LatexElements.MetadataLinesPresentIffSet | src/main/kotlin/latex/model/Elements.kt:65-67 | one unescaped line per metadata field that is set, none otherwise, in the order title, author, date |
| LatexElements.TitleLineInserted | src/main/kotlin/latex/model/Elements.kt:65 | setting a title inserts `\title{t}` right after the class line and changes no other line |
| LatexElements.EmptyBody | src/main/kotlin/latex/model/Elements.kt:71-73 | with no elements, the begin and end markers enclose one empty line |
| LatexElements.DocumentBalanced | src/main/kotlin/latex/model/Elements.kt:62-75 | the whole document is balanced whenever its type and metadata are neutral |
| LatexElements.UnescapedTitleUnbalances | src/main/kotlin/latex/model/Elements.kt:65 | the title `}` is written verbatim and unbalances the document |
| LatexDsl.M | src/main/kotlin/latex/DSL.kt:13-14 | `"s".m` is a text atom rendering as the escaped text |
| LatexDsl.Infix | src/main/kotlin/latex/model/Expressions.kt:14-20 | an infix node renders as left, then space + operation + space, then right; the left rendering is a prefix and the right one a suffix |
| LatexDsl.Plus | src/main/kotlin/latex/DSL.kt:19-21 | `a + b` builds the Add node over `a`, `b`, rendering `a + b` |
| LatexDsl.Minus | src/main/kotlin/latex/DSL.kt:23-25 | `a - b` builds the Sub node, rendering `a - b` |
| LatexDsl.Times | src/main/kotlin/latex/DSL.kt:27-29 | `a * b` builds the Mul node, rendering `a \cdot b` |
| LatexDsl.Div | src/main/kotlin/latex/DSL.kt:31-33 | `a / b` builds the fraction node, rendering `\frac{a}{b}` whatever the operands |
| LatexDsl.Sqrt | src/main/kotlin/latex/DSL.kt:35-36 | `a.sqrt` builds the root node, rendering `\sqrt{a}` |
| LatexDsl.ParagraphBuilder.constructor | src/main/kotlin/latex/DSL.kt:41 | a new paragraph builder has an empty list |
| LatexDsl.ParagraphBuilder.UnaryPlus | src/main/kotlin/latex/DSL.kt:43-48 | `+"s"` appends a separator and a new text `s`, returns that text, and keeps the earlier elements |
| LatexDsl.ParagraphBuilder.Bold | src/main/kotlin/latex/DSL.kt:50-52 | appends exactly one new bold element around the nested builder's list |
| LatexDsl.ParagraphBuilder.It | src/main/kotlin/latex/DSL.kt:54-56 | appends exactly one new italics element around the nested builder's list |
| LatexDsl.ParagraphBuilder.Tt | src/main/kotlin/latex/DSL.kt:58-60 | appends exactly one new teletype element around the nested builder's list |
| LatexDsl.ParagraphBuilder.LinkTo | src/main/kotlin/latex/DSL.kt:62-67 | if the receiver is the last element it is replaced by a new link around it (length unchanged), otherwise the link is appended |
| LatexDsl.ParagraphBuilder.Math | src/main/kotlin/latex/DSL.kt:69-71 | appends exactly one new inline-math element around the built expression |
| LatexDsl.TextLinkTo | src/main/kotlin/latex/DSL.kt:62-67 | `+"t" linkTo url` leaves `[..., Separator, Href(Text(t), url)]` |
| LatexDsl.LinkToEarlierText | src/main/kotlin/latex/DSL.kt:62-67 | linking an earlier text appends: the last element is another text with the same content `t`, is not the linked text, and stays in place |
| LatexDsl.DocumentBuilder.constructor | src/main/kotlin/latex/DSL.kt:86-88 | a new document builder has no elements and no title, author or date |
| LatexDsl.DocumentBuilder.Title | src/main/kotlin/latex/DSL.kt:78-80 | `title()` appends the title marker and changes nothing else |
| LatexDsl.DocumentBuilder.Paragraph | src/main/kotlin/latex/DSL.kt:82-84 | `paragraph { }` appends one paragraph with the nested builder's list and changes nothing else |
| LatexDsl.Latex | src/main/kotlin/latex/DSL.kt:91-100 | the document's type is the argument; its title, author, date and elements are the builder's |
| TaskModel.DayOfWeek.Ordinal | src/main/kotlin/example/DSL.kt:91 | day ordinals, which order ranges, are below seven |
| TaskModel.Entries | src/main/kotlin/example/DSL.kt:92 | `DayOfWeek.entries` lists all seven days, in ordinal order |
| TaskDsl.Days | src/main/kotlin/example/DSL.kt:95 | `map { it.dayOfWeek }` keeps length and position |
| TaskDsl.At | src/main/kotlin/example/DSL.kt:96 | `map { ScheduleMoment(it, time) }` gives day `i` the time, position by position |
| TaskDsl.Distinct | src/main/kotlin/example/DSL.kt:95 | `distinct()` holds the same elements as its input, with no repetition |
| TaskDsl.DistinctFirstOccurrenceOrder | src/main/kotlin/example/DSL.kt:95 | `distinct()` lists elements in the order of their first occurrences |
| TaskDsl.DistinctDaysAtMostSeven | src/main/kotlin/example/DSL.kt:95 | the distinct days of any schedule number at most seven |
| TaskDsl.DistinctOfRepeated | src/main/kotlin/example/DSL.kt:95 | a non-empty list holding only `d` has distinct elements `[d]` |
| TaskDsl.DaysIn | src/main/kotlin/example/DSL.kt:92 | the filter keeps a day iff it is in the list and within the closed range |
| TaskDsl.DaysInEmpty | src/main/kotlin/example/DSL.kt:91-92 | when the start comes after the end, the filter keeps nothing |
| TaskDsl.DaysInAscending | src/main/kotlin/example/DSL.kt:92 | filtering a list in week order gives a list in week order |
| TaskDsl.Sched | src/main/kotlin/example/DSL.kt:77 | `sched(d, t)` is the single moment `(d, t)` |
| TaskDsl.MidDay | src/main/kotlin/example/DSL.kt:79-80 | `d.midDay` is the single moment `(d, "12:00")` |
| TaskDsl.On | src/main/kotlin/example/DSL.kt:85-86 | `d on t` is the single moment `(d, t)` |
| TaskDsl.Times | src/main/kotlin/example/DSL.kt:88-89 | `d * t` is the single moment `(d, t)` |
| TaskDsl.RangeOn | src/main/kotlin/example/DSL.kt:91-92 | `start..end on t` has every day `w` with `start <= w <= end` and no other, strictly in week order, all at `t`; empty when start is after end |
| TaskDsl.Plus | src/main/kotlin/example/DSL.kt:94-97 | `s + t` keeps `s` as a prefix and adds one moment at `t` per distinct day of `s`, in first-occurrence order; its length is the length of `s` plus the number of distinct days; `[] + t` is `[]` |
| TaskDsl.PlusAddsAtMostSeven | src/main/kotlin/example/DSL.kt:94-97 | `s + t` adds at most seven moments |
| TaskDsl.PlusOneDay | src/main/kotlin/example/DSL.kt:94-97 | on a schedule whose days are all `d`, `+ t` appends just `(d, t)` |
| TaskDsl.PlusChain | src/main/kotlin/example/DSL.kt:94-97 | `d * t1 + t2 + t3` is the three moments on `d`, not a doubling |
| TaskDsl.TaskBuilder.constructor | src/main/kotlin/example/DSL.kt:50-54 | defaults: empty name, the shared empty action and failure handler, `DEFAULT`, zero retries, empty schedule |
| TaskDsl.TaskBuilder.Name | src/main/kotlin/example/DSL.kt:18-20 | sets the name, nothing else |
| TaskDsl.TaskBuilder.Action | src/main/kotlin/example/DSL.kt:22-24 | sets the action, nothing else |
| TaskDsl.TaskBuilder.OnFailure | src/main/kotlin/example/DSL.kt:26-28 | sets the failure handler, nothing else |
| TaskDsl.TaskBuilder.Priority | src/main/kotlin/example/DSL.kt:30-33 | `p.priority` stores `p` in the builder, nothing else |
| TaskDsl.TaskBuilder.SetRetries | src/main/kotlin/example/DSL.kt:36-43 | sets the retries, nothing else |
| TaskDsl.TaskBuilder.Scheduled | src/main/kotlin/example/DSL.kt:46-48 | stores the schedule the block returned, nothing else |
| TaskDsl.TaskBuilder.Task | src/main/kotlin/example/DSL.kt:56-64 | the task has the builder's name, closures, retries and schedule, and priority `DEFAULT` whatever was stored |
| TaskDsl.PriorityIsIgnored | src/main/kotlin/example/DSL.kt:30-33 | after `p.priority` the builder's task still has priority `DEFAULT` |
| TaskDsl.DefaultTask | src/main/kotlin/example/DSL.kt:50-64 | an unconfigured builder's task has name `""`, the empty closures, priority `DEFAULT`, zero retries and no schedule |
| TaskDsl.DefaultTasksEqual | src/main/kotlin/example/DSL.kt:50-64 | two unconfigured builders report equal tasks |
| TaskDsl.TasksBuilder.constructor | src/main/kotlin/example/DSL.kt:10 | a new tasks builder holds no task |
| TaskDsl.TasksBuilder.Task | src/main/kotlin/example/DSL.kt:12-14 | `task { }` appends exactly the configured builder's task |
| TaskDsl.TasksBuilder.Build | src/main/kotlin/example/DSL.kt:100 | `build()` returns the tasks in the order they were added |
| TaskDsl.Tasks | src/main/kotlin/example/DSL.kt:103-106 | `tasks { }` returns one task per `task` call, in call order, each with priority `DEFAULT` |

## Left out

- `Number.m` (latex/DSL.kt:16-17) is not modelled. It depends on the JVM's `Number.toString()`, including floating point. Atoms are built from strings only.
- `main()` (latex/DSL.kt:102-136) builds a sample document and writes it to a file. That is I/O and is not modelled.
- The demo functions `exampleSchedule`, `exampleDSLMarker`, `example0` and `example` (example/DSL.kt:108-189) are usage samples and are not modelled. This includes line 166, which adds a list to a string through `List.toString()`.
- `@DslMarker` and Kotlin's scoped blocks (`apply`, `run`) are not modelled. A nested block runs on a fresh builder of its own. The model's `Bold`, `It`, `Tt`, `Paragraph` and `TasksBuilder.Task` take that builder after the block has run; `Bold`, `It` and `Tt` therefore require `nested != this`. `Math` and `Scheduled` take the value the block returned.
- `DocumentBuilder`'s `title`, `author` and `date` are public fields, assigned directly as in the source.
- `tasks(init)` is modelled by `Tasks`, which runs a block made of one `task` call per configured builder. Other statements a block could contain are not modelled.
- The `action` and `onFailure` closures are never run. A closure the user writes is stored only by its identity (a `Closure` object). The default `{ }` closures capture nothing, so the JVM shares one instance of each; they are the values `NoOp` and `Ignore`.
- The `retries` setter's comment promises bookkeeping that is not implemented, so `retries` is a plain stored `Int32`.
- `kotlinx.datetime.DayOfWeek` is a seven-constructor enum, with the ordinal order Kotlin's `compareTo` uses. The `mon` … `sun` properties of `ScheduleBuilder` are its constructors.
- The default parameter values of the `Task` data class (example/Task.kt) are not modelled: the builder always passes every argument.
- `==` on the `Task` datatype models the data class's generated `equals`, as `DefaultTasksEqual` uses it. The generated `hashCode` and `toString` are not modelled.
- The model copies lists by value, and the sharing of mutable lists in the source is not captured. `build()` (example/DSL.kt:100) returns the builder's own `MutableList`, so a `task { }` call after `build()` would show up in the list already returned. `FormatElement`, `ParagraphElement` and `LatexDocument` likewise keep the builders' own lists (latex/DSL.kt:51, 55, 59, 83, 98). In the model, `Build`, `Bold`, `It`, `Tt`, `Paragraph` and `Latex` take a copy of the sequence at the time of the call.
- A schedule is a list that may repeat moments, as the source's `List` does, not a set.
- `LatexElements.Element` is wider than the source's types. `Paragraph` and `Href` accept any element, while `ParagraphElement` and `HrefElement` take only `InParagraphElement` values. The builders keep the restriction: `ParagraphBuilder.Valid()` and the requires of `ParagraphBuilder.LinkTo`.
- The element list of `ParagraphBuilder` has type `InParagraphElement` in the source. It is a `seq<Element>` here, with that restriction kept as the invariant `Valid()`.
