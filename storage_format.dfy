/**
 * `convertToMarkdownHTML`: the chain of global regular-expression replacements
 * that turns a page's storage-format markup into display HTML.
 *
 * Each modelled pass is a global `String.prototype.replace`: the string is
 * scanned from the left, at each index the pattern is tried, a match is
 * replaced and the scan resumes after it, otherwise one character is copied.
 * A pass's pattern is tried by `MatchAt`, which follows the way the
 * backtracking matcher settles each pattern used here: a greedy `[^>]*` or
 * `[^<]*` stops at the first `>` or `<`; a lazy `(.*?)` stops at the first
 * occurrence of the closing literal; a greedy `[^>]*` in front of an
 * attribute name tries the rightmost occurrence of the name first.
 */
module StorageFormat {
  import opened Base
  import opened Text
  import Whitespace

  /**
   * The browser's date services: `new Date(text)` (`None` when the time value
   * is NaN) and the three `ko-KR` formatters: `toLocaleDateString` with
   * year/month/day, `toLocaleTimeString` with hour/minute, `toLocaleString`
   * with both.
   */
  datatype DateHost = DateHost(
    parse: string -> Option<int>,
    formatDate: int -> string,
    formatTime: int -> string,
    formatDateTime: int -> string)

  /**
   * The passes that are not modelled as string functions: removal of
   * `<script>`/`<style>` elements (a backreference), removal of stray task
   * ids and UUIDs (word boundaries), unwrapping of the remaining macros,
   * layouts and `ac:` tags and the rewriting of page links (look-ahead,
   * backreferences).
   */
  datatype OpaquePasses = OpaquePasses(
    stripScriptAndStyle: string -> string,
    stripStrayIds: string -> string,
    unwrapMarkup: string -> string)

  /** A literal pattern: never empty, so every match consumes input. */
  type Pattern = s: string | |s| > 0 witness "x"

  // ---------------------------------------------------------------------------
  // Replacement texts

  const SPAN_CLOSE := "</span>"
  const CHECKED_SPAN := "<span class=\"task-checkbox checked\">✅</span>"
  const UNCHECKED_SPAN := "<span class=\"task-checkbox unchecked\">⬜</span>"
  const TASK_ITEM_LI := "<li class=\"task-item\">"

  /** `<span class="CLASS">TEXT</span>`, the shape of every date, time and datetime replacement. */
  function ClassSpan(cls: string, text: string): string {
    "<span class=\"" + cls + "\">" + text + SPAN_CLOSE
  }

  const DATE_CLASS := "confluence-date"

  // ---------------------------------------------------------------------------
  // Structured date, time and datetime macros

  datatype MacroKind = DateMacro | TimeMacro | DateTimeMacro

  const MACRO_OPEN := "<ac:structured-macro"
  const MACRO_CLOSE := "</ac:structured-macro>"

  /** The attribute a macro's opening tag must carry: `ac:name="date"`, `ac:name="time"` or `ac:name="datetime"`. */
  function MacroNameAttr(k: MacroKind): string {
    match k
    case DateMacro => "ac:name=\"date\""
    case TimeMacro => "ac:name=\"time\""
    case DateTimeMacro => "ac:name=\"datetime\""
  }

  function MacroClass(k: MacroKind): string {
    match k
    case DateMacro => DATE_CLASS
    case TimeMacro => "confluence-time"
    case DateTimeMacro => "confluence-datetime"
  }

  function MacroPlaceholder(k: MacroKind): string {
    match k
    case DateMacro => "[Date Component]"
    case TimeMacro => "[Time]"
    case DateTimeMacro => "[DateTime]"
  }

  /** The text handed to `new Date`: a time macro's value is read as a time of day on 1 January 1970. */
  function MacroDateInput(k: MacroKind, value: string): string {
    if k == TimeMacro then "1970-01-01T" + value else value
  }

  function MacroFormat(h: DateHost, k: MacroKind, t: int): string {
    match k
    case DateMacro => h.formatDate(t)
    case TimeMacro => h.formatTime(t)
    case DateTimeMacro => h.formatDateTime(t)
  }

  const PARAM_OPEN := "<ac:parameter"
  const PARAM_CLOSE := "</ac:parameter>"
  const VALUE_ATTR := "ac:name=\"value\""

  /** A parameter element named `value` tried at index `p` of `t`: its text, up to the first `<`, when the closing tag follows. */
  function ValueParameterAt(t: string, p: nat): (r: Option<string>)
    requires p <= |t|
    ensures r.Some? ==> LitAt(t, p, PARAM_OPEN, true)
  {
    if !LitAt(t, p, PARAM_OPEN, true) then None
    else match IndexOf(t, '>', p + |PARAM_OPEN|)
      case None => None
      case Some(gt) =>
        if !Contains(t[p + |PARAM_OPEN|..gt], VALUE_ATTR, true) then None
        else match IndexOf(t, '<', gt + 1)
          case None => None
          case Some(lt) => if LitAt(t, lt, PARAM_CLOSE, true) then Some(t[gt + 1..lt]) else None
  }

  /** The leftmost value parameter at or after index `from`. */
  function FirstValueParameter(t: string, from: nat): Option<string>
    requires from <= |t|
    decreases |t| - from
  {
    if from == |t| then ValueParameterAt(t, from)
    else match ValueParameterAt(t, from)
      case Some(v) => Some(v)
      case None => FirstValueParameter(t, from + 1)
  }

  /** A value found is the one at some index `p`, and no index before `p` holds one. */
  lemma {:induction false} FirstValueParameterLeftmost(t: string, from: nat) returns (p: nat)
    requires from <= |t| && FirstValueParameter(t, from).Some?
    ensures from <= p <= |t| && ValueParameterAt(t, p) == FirstValueParameter(t, from)
    ensures forall j | from <= j < p :: ValueParameterAt(t, j).None?
    decreases |t| - from
  {
    if from == |t| || ValueParameterAt(t, from).Some? {
      p := from;
    } else {
      p := FirstValueParameterLeftmost(t, from + 1);
      assert ValueParameterAt(t, from).None?;
      forall j | from <= j < p ensures ValueParameterAt(t, j).None? {
        if j != from {
          assert from + 1 <= j < p;
        }
      }
    }
  }

  /** Nothing is found exactly when no index from `from` on holds a value parameter. */
  lemma {:induction false} FirstValueParameterNone(t: string, from: nat)
    requires from <= |t|
    ensures FirstValueParameter(t, from).None? <==> forall p | from <= p <= |t| :: ValueParameterAt(t, p).None?
    decreases |t| - from
  {
    if from < |t| {
      FirstValueParameterNone(t, from + 1);
      var here := ValueParameterAt(t, from);
      if here.None? {
        assert FirstValueParameter(t, from) == FirstValueParameter(t, from + 1);
        if FirstValueParameter(t, from + 1).None? {
          forall p | from <= p <= |t| ensures ValueParameterAt(t, p).None? {
            if p != from {
              assert from + 1 <= p;
            }
          }
        }
      } else {
        assert FirstValueParameter(t, from) == here;
      }
    }
  }

  /** `content.match(…)[1]` for the value parameter of a macro's body, `None` when there is none. */
  function ValueParameter(content: string): Option<string> {
    FirstValueParameter(content, 0)
  }

  /**
   * The replacement of one matched date, time or datetime macro: the
   * formatted value when the value parameter is present and parses, the
   * kind's placeholder otherwise.
   */
  function MacroText(h: DateHost, k: MacroKind, content: string): (r: string)
    ensures ValueParameter(content).None? ==> r == ClassSpan(MacroClass(k), MacroPlaceholder(k))
    ensures ValueParameter(content).Some? ==>
      var parsed := h.parse(MacroDateInput(k, ValueParameter(content).value));
      r == ClassSpan(MacroClass(k), if parsed.Some? then MacroFormat(h, k, parsed.value) else MacroPlaceholder(k))
  {
    match ValueParameter(content)
    case None => ClassSpan(MacroClass(k), MacroPlaceholder(k))
    case Some(v) =>
      match h.parse(MacroDateInput(k, v))
      case None => ClassSpan(MacroClass(k), MacroPlaceholder(k))
      case Some(t) => ClassSpan(MacroClass(k), MacroFormat(h, k, t))
  }

  // ---------------------------------------------------------------------------
  // Date-bearing elements: `<time datetime>`, class="…date…" spans, data-date

  /** `content && content.trim()`: the element shows some visible text. */
  predicate HasVisibleText(content: string) {
    content != "" && Whitespace.Trim(content) != ""
  }

  /** The replacement of a `<time datetime="…">…</time>` element. */
  function TimeElementText(h: DateHost, datetime: string, content: string): (r: string)
    ensures HasVisibleText(content) ==> r == ClassSpan(DATE_CLASS, content)
    ensures !HasVisibleText(content) && h.parse(datetime).None? ==> r == ClassSpan(DATE_CLASS, "[Time Element]")
    ensures !HasVisibleText(content) && h.parse(datetime).Some? ==> r == ClassSpan(DATE_CLASS, h.formatDate(h.parse(datetime).value))
  {
    if HasVisibleText(content) then ClassSpan(DATE_CLASS, content)
    else match h.parse(datetime)
      case Some(t) => ClassSpan(DATE_CLASS, h.formatDate(t))
      case None => ClassSpan(DATE_CLASS, "[Time Element]")
  }

  /** The replacement of an element carrying `data-date="…"`. */
  function DataDateText(content: string): (r: string)
    ensures HasVisibleText(content) ==> r == ClassSpan(DATE_CLASS, content)
    ensures !HasVisibleText(content) ==> r == ClassSpan(DATE_CLASS, "[Data Date]")
  {
    if HasVisibleText(content) then ClassSpan(DATE_CLASS, content) else ClassSpan(DATE_CLASS, "[Data Date]")
  }

  /** The four patterns built as `<TAG[^>]*NAME="…"…`, whose greedy `[^>]*` backtracks over occurrences of NAME. */
  datatype AttrPattern =
    | TimeElement   // a `time` element: its quoted `datetime` value and its text
    | DateSpan      // a `span` whose quoted class mentions `date`: its text
    | DataDate      // any element with a quoted `data-date` value: that value and its text
    | TaskListItem  // an `li` opening tag whose quoted class mentions `task-list-item`

  function AttrOpen(p: AttrPattern): Pattern {
    match p
    case TimeElement => "<time"
    case DateSpan => "<span"
    case DataDate => "<"
    case TaskListItem => "<li"
  }

  /** The attribute name with its `="`. */
  function AttrName(p: AttrPattern): Pattern {
    match p
    case TimeElement => "datetime=\""
    case DateSpan => "class=\""
    case DataDate => "data-date=\""
    case TaskListItem => "class=\""
  }

  /** What the quoted attribute value must contain, if anything. */
  function AttrValueMust(p: AttrPattern): string {
    match p
    case DateSpan => "date"
    case TaskListItem => "task-list-item"
    case _ => ""
  }

  /** A match: the index just after it and the text that replaces it. */
  datatype Hit = Hit(end: nat, text: string)

  /**
   * The rest of an attribute pattern once the attribute's value starts at index
   * `v`: the value up to the next `"`, the tag up to the next `>`, the element's
   * text up to the next `<`, and the closing tag.
   */
  function AttrTail(h: DateHost, p: AttrPattern, s: string, v: nat): (r: Option<Hit>)
    requires v <= |s|
    ensures r.Some? ==> v < r.value.end <= |s|
  {
    match IndexOf(s, '"', v)
    case None => None
    case Some(q) =>
      var value := s[v..q];
      if !Contains(value, AttrValueMust(p), true) then None
      else match IndexOf(s, '>', q + 1)
        case None => None
        case Some(gt) => AttrContent(h, p, s, value, gt)
  }

  /** After the `>` at `gt` that closes the opening tag: the content up to the next `<`, then the closing tag. */
  function AttrContent(h: DateHost, p: AttrPattern, s: string, value: string, gt: nat): (r: Option<Hit>)
    requires gt < |s|
    ensures r.Some? ==> gt < r.value.end <= |s|
  {
    if p == TaskListItem then Some(Hit(gt + 1, TASK_ITEM_LI))
    else match IndexOf(s, '<', gt + 1)
      case None => None
      case Some(lt) => ClosingTag(h, p, s, value, s[gt + 1..lt], lt)
  }

  /** The closing tag each pattern expects at the `<` at `lt`, and the replacement built from the value and the content. */
  function ClosingTag(h: DateHost, p: AttrPattern, s: string, value: string, content: string, lt: nat): (r: Option<Hit>)
    requires lt < |s|
    ensures r.Some? ==> lt < r.value.end <= |s|
  {
    match p
    case TimeElement =>
      if LitAt(s, lt, "</time>", true) then Some(Hit(lt + 7, TimeElementText(h, value, content))) else None
    case DateSpan =>
      if LitAt(s, lt, "</span>", true) then Some(Hit(lt + 7, ClassSpan(DATE_CLASS, content))) else None
    case DataDate =>
      if LitAt(s, lt, "</", false) then
        (match IndexOf(s, '>', lt + 2)
         case None => None
         case Some(e) => Some(Hit(e + 1, DataDateText(content))))
      else None
    case TaskListItem => None
  }

  /** Tries the attribute name at the candidate indices `hi - 1`, `hi - 2`, …, `lo`, in the order the backtracking matcher does. */
  function Backtrack(h: DateHost, p: AttrPattern, s: string, lo: nat, hi: nat): (r: Option<Hit>)
    requires hi <= |s|
    ensures r.Some? ==> lo < r.value.end <= |s|
    decreases hi
  {
    if hi <= lo then None
    else
      var c := hi - 1;
      var tail := if LitAt(s, c, AttrName(p), true) then AttrTail(h, p, s, c + |AttrName(p)|) else None;
      if tail.Some? then tail else Backtrack(h, p, s, lo, c)
  }

  /**
   * An attribute pattern at index `i`. The attribute must start before the
   * first `>` after the tag name (the greedy `[^>]*` cannot pass it); when
   * there is no `>` at all nothing can match, since every pattern needs one.
   */
  function AttrAt(h: DateHost, p: AttrPattern, s: string, i: nat): (r: Option<Hit>)
    requires i <= |s|
    ensures r.Some? ==> i < r.value.end <= |s|
  {
    var open := AttrOpen(p);
    if !LitAt(s, i, open, true) then None
    else match IndexOf(s, '>', i + |open|)
      case None => None
      case Some(gt) => Backtrack(h, p, s, i + |open|, gt)
  }

  // ---------------------------------------------------------------------------
  // Tasks

  const TASK_STATUS_OPEN := "<ac:task-status>"
  const TASK_STATUS_CLOSE := "</ac:task-status>"

  /** The replacement of `<ac:task-status>STATUS</ac:task-status>`: checked exactly for the status `complete`. */
  function TaskStatusText(status: string): (r: string)
    ensures r == CHECKED_SPAN <==> status == "complete"
    ensures r == UNCHECKED_SPAN <==> status != "complete"
  {
    var isComplete := status == "complete";
    "<span class=\"task-checkbox " + (if isComplete then "checked" else "unchecked") + "\">"
      + (if isComplete then "✅" else "⬜") + "</span>"
  }

  const TYPE_CHECKBOX := "type=\"checkbox\""

  // ---------------------------------------------------------------------------
  // The passes

  datatype Pass =
    | Macro(kind: MacroKind)                        // a structured macro named KIND, up to the first closing macro tag
    | Attr(pattern: AttrPattern)
    | Literal(pat: Pattern, rep: string, ci: bool)  // a fixed pattern, with or without the i flag
    | TaskId                                        // a task-id element, removed
    | TaskStatus                                    // a task-status element, by its status text
    | TaskBody                                      // a task-body element, up to the first closing tag
    | CheckedInput                                  // a checkbox input with `checked` after its type
    | CheckboxInput                                 // any remaining checkbox input

  /** `OPEN[^>]*>(.*?)CLOSE` at `i`: the tag's attribute text, the content and the end of the match. */
  datatype Element = Element(attrs: string, content: string, end: nat)

  function LazyElementAt(s: string, i: nat, open: Pattern, close: Pattern): (r: Option<Element>)
    requires i <= |s|
    ensures r.Some? ==> i < r.value.end <= |s|
  {
    if !LitAt(s, i, open, true) then None
    else match IndexOf(s, '>', i + |open|)
      case None => None
      case Some(gt) =>
        match Find(s, close, true, gt + 1)
        case None => None
        case Some(c) => Some(Element(s[i + |open|..gt], s[gt + 1..c], c + |close|))
  }

  /** `OPEN([^<]*)CLOSE` at `i`: the text up to the first `<` and the end of the match. */
  function TextElementAt(s: string, i: nat, open: Pattern, close: Pattern): (r: Option<(string, nat)>)
    requires i <= |s|
    ensures r.Some? ==> i < r.value.1 <= |s|
  {
    if !LitAt(s, i, open, true) then None
    else match IndexOf(s, '<', i + |open|)
      case None => None
      case Some(lt) => if LitAt(s, lt, close, true) then Some((s[i + |open|..lt], lt + |close|)) else None
  }

  /** `<input[^>]*…>` at `i`: the attribute text of the tag and the end of the match. */
  function InputTagAt(s: string, i: nat): (r: Option<(string, nat)>)
    requires i <= |s|
    ensures r.Some? ==> i < r.value.1 <= |s|
  {
    if !LitAt(s, i, "<input", true) then None
    else match IndexOf(s, '>', i + 6)
      case None => None
      case Some(gt) => Some((s[i + 6..gt], gt + 1))
  }

  /** A date, time or datetime macro at `i`: an element whose opening tag names the kind. */
  function MacroAt(h: DateHost, k: MacroKind, s: string, i: nat): (r: Option<Hit>)
    requires i <= |s|
    ensures r.Some? ==> i < r.value.end <= |s|
  {
    match LazyElementAt(s, i, MACRO_OPEN, MACRO_CLOSE)
    case Some(el) =>
      if Contains(el.attrs, MacroNameAttr(k), true) then Some(Hit(el.end, MacroText(h, k, el.content))) else None
    case None => None
  }

  /** A task-id element at `i`, replaced by nothing. */
  function TaskIdAt(s: string, i: nat): (r: Option<Hit>)
    requires i <= |s|
    ensures r.Some? ==> i < r.value.end <= |s|
  {
    match TextElementAt(s, i, "<ac:task-id>", "</ac:task-id>")
    case Some((_, e)) => Some(Hit(e, ""))
    case None => None
  }

  /** A task-status element at `i`, replaced by the glyph of its status. */
  function TaskStatusAt(s: string, i: nat): (r: Option<Hit>)
    requires i <= |s|
    ensures r.Some? ==> i < r.value.end <= |s|
  {
    match TextElementAt(s, i, TASK_STATUS_OPEN, TASK_STATUS_CLOSE)
    case Some((status, e)) => Some(Hit(e, TaskStatusText(status)))
    case None => None
  }

  /** A task-body element at `i`, replaced by a task-text span around its content. */
  function TaskBodyAt(s: string, i: nat): (r: Option<Hit>)
    requires i <= |s|
    ensures r.Some? ==> i < r.value.end <= |s|
  {
    match LazyElementAt(s, i, "<ac:task-body", "</ac:task-body>")
    case Some(el) => Some(Hit(el.end, "<span class=\"task-text\">" + el.content + SPAN_CLOSE))
    case None => None
  }

  /**
   * A checkbox input at `i` with `checked` after its type. The greedy run
   * before the type tries its rightmost occurrence first, but a `checked`
   * after any occurrence is also after the first, so the first decides.
   */
  function CheckedInputAt(s: string, i: nat): (r: Option<Hit>)
    requires i <= |s|
    ensures r.Some? ==> i < r.value.end <= |s|
  {
    match InputTagAt(s, i)
    case Some((attrs, e)) =>
      (match Find(attrs, TYPE_CHECKBOX, true, 0)
       case Some(c) => if Contains(attrs[c + |TYPE_CHECKBOX|..], "checked", true) then Some(Hit(e, CHECKED_SPAN)) else None
       case None => None)
    case None => None
  }

  /** A checkbox input at `i`, whatever its other attributes. */
  function CheckboxInputAt(s: string, i: nat): (r: Option<Hit>)
    requires i <= |s|
    ensures r.Some? ==> i < r.value.end <= |s|
  {
    match InputTagAt(s, i)
    case Some((attrs, e)) => if Contains(attrs, TYPE_CHECKBOX, true) then Some(Hit(e, UNCHECKED_SPAN)) else None
    case None => None
  }

  /** The pass's pattern tried at index `i` of `s`. */
  function MatchAt(h: DateHost, p: Pass, s: string, i: nat): (r: Option<Hit>)
    requires i <= |s|
    ensures r.Some? ==> i < r.value.end <= |s|
  {
    match p
    case Macro(k) => MacroAt(h, k, s, i)
    case Attr(a) => AttrAt(h, a, s, i)
    case Literal(pat, rep, ci) => if LitAt(s, i, pat, ci) then Some(Hit(i + |pat|, rep)) else None
    case TaskId => TaskIdAt(s, i)
    case TaskStatus => TaskStatusAt(s, i)
    case TaskBody => TaskBodyAt(s, i)
    case CheckedInput => CheckedInputAt(s, i)
    case CheckboxInput => CheckboxInputAt(s, i)
  }

  /** The global replacement from index `from` on. */
  function ReplaceFrom(h: DateHost, p: Pass, s: string, from: nat): string
    requires from <= |s|
    decreases |s| - from
  {
    if from == |s| then ""
    else match MatchAt(h, p, s, from)
      case Some(hit) => hit.text + ReplaceFrom(h, p, s, hit.end)
      case None => [s[from]] + ReplaceFrom(h, p, s, from + 1)
  }

  /** `s.replace(/PATTERN/g, replacement)`. */
  function Replace(h: DateHost, p: Pass, s: string): string {
    ReplaceFrom(h, p, s, 0)
  }

  /** A chain of `.replace` calls, applied left to right. */
  function ApplyAll(h: DateHost, ps: seq<Pass>, s: string): string
    decreases |ps|
  {
    if ps == [] then s else ApplyAll(h, ps[1..], Replace(h, ps[0], s))
  }

  /** Dates and times: the date macro, `<time>`, class="…date…" spans, data-date, time and datetime macros. */
  const DATE_PASSES: seq<Pass> := [
    Macro(DateMacro), Attr(TimeElement), Attr(DateSpan), Attr(DataDate), Macro(TimeMacro), Macro(DateTimeMacro)]

  /** Task-list containers, task items and embedded task ids. */
  const TASK_MARKUP_PASSES: seq<Pass> := [
    Literal("<ac:task-list>", "<div class=\"task-list\">", true),
    Literal("</ac:task-list>", "</div>", true),
    Literal("<ac:task>", "<div class=\"task-item\">", true),
    Literal("</ac:task>", "</div>", true),
    TaskId]

  /** Markdown-style bracket checkboxes. */
  const BRACKET_PASSES: seq<Pass> := [
    Literal("[x]", CHECKED_SPAN, true),
    Literal("[ ]", UNCHECKED_SPAN, true)]

  /** Task status, task body, list-style checkboxes and bracket checkboxes. */
  const TASK_PASSES: seq<Pass> := [TaskStatus, TaskBody, Attr(TaskListItem), CheckedInput, CheckboxInput] + BRACKET_PASSES

  /** Full-width parentheses, then the named and numeric entities, in the source's order. */
  const CHARACTER_PASSES: seq<Pass> := [
    Literal("（", "(", false), Literal("）", ")", false),
    Literal("&nbsp;", " ", false), Literal("&amp;", "&", false),
    Literal("&lt;", "<", false), Literal("&gt;", ">", false),
    Literal("&quot;", "\"", false), Literal("&#39;", "'", false),
    Literal("&#40;", "(", false), Literal("&#41;", ")", false)]

  /**
   * `convertToMarkdownHTML(htmlContent)`. A missing or empty input gives the
   * empty string; every output is in the final normal form: no two whitespace
   * characters in a row, no whitespace alone between `>` and `<`, no leading
   * or trailing whitespace.
   */
  function ConvertToMarkdownHtml(h: DateHost, ext: OpaquePasses, htmlContent: Option<string>): (r: string)
    ensures htmlContent.None? || htmlContent == Some("") ==> r == ""
    ensures Whitespace.Normalized(r)
    ensures Whitespace.NoWsBetweenTags(r)
  {
    if htmlContent.None? || htmlContent.value == "" then ""
    else
      var s0 := ext.stripScriptAndStyle(htmlContent.value);
      var s1 := ApplyAll(h, DATE_PASSES, s0);
      var s2 := ApplyAll(h, TASK_MARKUP_PASSES, s1);
      var s3 := ext.stripStrayIds(s2);
      var s4 := ApplyAll(h, TASK_PASSES, s3);
      var s5 := ext.unwrapMarkup(s4);
      var s6 := ApplyAll(h, CHARACTER_PASSES, s5);
      Whitespace.NormalizeProperties(s6);
      Whitespace.Normalize(s6)
  }
}
