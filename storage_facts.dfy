/**
 * What the rewrite passes of `convertToMarkdownHTML` do to the elements they
 * target: task statuses, checkboxes, date macros and entities.
 */
module StorageFacts {
  import opened Base
  import opened Text
  import opened StorageFormat

  // ---------------------------------------------------------------------------
  // Scanning helpers

  lemma IndexOfIs(s: string, c: char, from: nat, j: nat)
    requires from <= j < |s| && s[j] == c
    requires forall k | from <= k < j :: s[k] != c
    ensures IndexOf(s, c, from) == Some(j)
  {
    IndexOfFirst(s, c, from);
  }

  /** An occurrence seen from `off` on is the same occurrence in the suffix `s[off..]`. */
  lemma LitAtShift(s: string, off: nat, j: nat, p: string, ci: bool)
    requires off <= |s|
    ensures LitAt(s, off + j, p, ci) == LitAt(s[off..], j, p, ci)
  {
    LitAtChars(s, off + j, p, ci);
    LitAtChars(s[off..], j, p, ci);
    if off + j + |p| <= |s| {
      assert forall k | j <= k < j + |p| :: s[off..][k] == s[off + k];
    }
  }

  // ---------------------------------------------------------------------------
  // Global replacement

  /** Where the pattern matches nowhere, the replacement gives the text back. */
  lemma {:induction false} ReplaceFromNoMatch(h: DateHost, p: Pass, s: string, from: nat)
    requires from <= |s|
    requires forall i | from <= i < |s| :: MatchAt(h, p, s, i).None?
    ensures ReplaceFrom(h, p, s, from) == s[from..]
    decreases |s| - from
  {
    if from < |s| {
      ReplaceFromNoMatch(h, p, s, from + 1);
      assert s[from..] == [s[from]] + s[from + 1..];
    }
  }

  /** A match that spans the whole text is replaced by its replacement alone. */
  lemma ReplaceWhole(h: DateHost, p: Pass, s: string, text: string)
    requires MatchAt(h, p, s, 0) == Some(Hit(|s|, text))
    ensures Replace(h, p, s) == text
  {
    assert ReplaceFrom(h, p, s, |s|) == "";
  }

  /** A literal pass leaves alone a text where the pattern does not occur. */
  lemma LiteralAbsent(h: DateHost, pat: Pattern, rep: string, ci: bool, s: string, k: nat)
    requires k < |pat|
    requires pat[k] !in s
    requires ci ==> UpperChar(pat[k]) !in s && LowerChar(pat[k]) !in s
    ensures Replace(h, Literal(pat, rep, ci), s) == s
  {
    NoOccurrence(s, pat, ci, k);
    ReplaceFromNoMatch(h, Literal(pat, rep, ci), s, 0);
  }

  /** A literal pass turns its own pattern, spelt in any case when case is ignored, into its replacement. */
  lemma LiteralWhole(h: DateHost, pat: Pattern, rep: string, ci: bool, s: string)
    requires LitAt(s, 0, pat, ci) && |s| == |pat|
    ensures Replace(h, Literal(pat, rep, ci), s) == rep
  {
    ReplaceWhole(h, Literal(pat, rep, ci), s, rep);
  }

  /** A single-character literal pass removes every occurrence of that character, unless its replacement brings it back. */
  lemma {:induction false} SingleCharRemoved(h: DateHost, c: char, rep: string, s: string, from: nat)
    requires from <= |s|
    requires c !in rep
    ensures c !in ReplaceFrom(h, Literal([c], rep, false), s, from)
    decreases |s| - from
  {
    if from < |s| {
      SingleCharRemoved(h, c, rep, s, from + 1);
      if MatchAt(h, Literal([c], rep, false), s, from).Some? {
        SingleCharRemoved(h, c, rep, s, from + 1);
      } else {
        LitAtExact(s, from, [c]);
        assert s[from..from + 1] == [s[from]];
      }
    }
  }

  /** A literal pass whose replacement lacks a character never introduces it. */
  lemma {:induction false} LiteralKeepsAbsent(h: DateHost, pat: Pattern, rep: string, s: string, from: nat, c: char)
    requires from <= |s|
    requires c !in rep && c !in s
    ensures c !in ReplaceFrom(h, Literal(pat, rep, false), s, from)
    decreases |s| - from
  {
    if from < |s| {
      match MatchAt(h, Literal(pat, rep, false), s, from)
      case Some(hit) => LiteralKeepsAbsent(h, pat, rep, s, hit.end, c);
      case None => LiteralKeepsAbsent(h, pat, rep, s, from + 1, c);
    }
  }

  lemma ApplyAllCons(h: DateHost, p: Pass, ps: seq<Pass>, s: string)
    ensures ApplyAll(h, [p] + ps, s) == ApplyAll(h, ps, Replace(h, p, s))
  {
    assert ([p] + ps)[1..] == ps;
  }

  // ---------------------------------------------------------------------------
  // Elements: where their parts lie

  /** A text starts with its own prefix. */
  lemma LitAtStart(s: string, p: string, rest: string, ci: bool)
    requires s == p + rest
    ensures LitAt(s, 0, p, ci)
  {
    LitAtChars(s, 0, p, ci);
    assert forall k | 0 <= k < |p| :: s[k] == p[k];
  }

  /** A text ends with its own suffix, which starts at `off`. */
  lemma LitAtEnd(s: string, prefix: string, p: string, off: nat, ci: bool)
    requires s == prefix + p && off == |prefix|
    ensures LitAt(s, off, p, ci)
  {
    LitAtChars(s, off, p, ci);
    assert forall k | 0 <= k < |p| :: s[off + k] == p[k];
  }

  /** The opening tag of `open + attrs + ">" + content + close` starts the text and ends at its `>`. */
  lemma ElementOpen(s: string, open: string, attrs: string, content: string, close: string)
    requires s == open + attrs + ">" + content + close
    requires '>' !in attrs
    ensures LitAt(s, 0, open, true)
    ensures IndexOf(s, '>', |open|) == Some(|open| + |attrs|)
  {
    LitAtChars(s, 0, open, true);
    assert forall k | 0 <= k < |open| :: s[k] == open[k];
    forall j | |open| <= j < |open| + |attrs| ensures s[j] != '>' {
      assert s[j] == attrs[j - |open|];
    }
    IndexOfIs(s, '>', |open|, |open| + |attrs|);
  }

  /** In `prefix + text + close`, the text after `prefix` runs up to the closing tag's `<`. */
  lemma TextEnd(s: string, prefix: string, text: string, close: string, off: nat)
    requires s == prefix + text + close && off == |prefix|
    requires '<' !in text && |close| > 0 && close[0] == '<'
    ensures IndexOf(s, '<', off) == Some(off + |text|)
    ensures LitAt(s, off + |text|, close, true)
  {
    forall j | off <= j < off + |text| ensures s[j] != '<' {
      assert s[j] == text[j - off];
    }
    IndexOfIs(s, '<', off, off + |text|);
    LitAtEnd(s, prefix + text, close, off + |text|, true);
  }

  /** The first closing tag in `content + close` is the one appended: the lazy body ends where the element does. */
  predicate FirstCloseIsOwn(content: string, close: string) {
    Find(content + close, close, true, 0) == Some(|content|)
  }

  function ShiftBy(o: Option<nat>, d: nat): Option<nat> {
    if o.None? then None else Some(o.value + d)
  }

  /** Searching from `off + j` is searching the suffix `s[off..]` from `j`, shifted by `off`. */
  lemma {:induction false} FindShift(s: string, off: nat, p: string, ci: bool, j: nat)
    requires off + j <= |s|
    ensures Find(s, p, ci, off + j) == ShiftBy(Find(s[off..], p, ci, j), off)
    decreases |s| - off - j
  {
    LitAtShift(s, off, j, p, ci);
    if off + j + |p| > |s| {
    } else if LitAt(s, off + j, p, ci) {
    } else if off + j == |s| {
    } else {
      FindShift(s, off, p, ci, j + 1);
    }
  }

  /** The first occurrence in a suffix, seen from the suffix's start in the whole text. */
  lemma FindInSuffix(s: string, off: nat, t: string, p: string, ci: bool, n: nat)
    requires off <= |s| && s[off..] == t
    requires Find(t, p, ci, 0) == Some(n)
    ensures Find(s, p, ci, off) == Some(off + n)
  {
    FindShift(s, off, p, ci, 0);
  }

  /** The lazy body that starts after `prefix`, at index `off`, ends at the closing tag appended to it. */
  lemma LazyBodyEnd(s: string, prefix: string, content: string, close: string, off: nat)
    requires s == prefix + content + close && off == |prefix|
    requires FirstCloseIsOwn(content, close)
    ensures Find(s, close, true, off) == Some(off + |content|)
  {
    assert s[off..] == content + close;
    FindInSuffix(s, off, content + close, close, true, |content|);
  }

  /** The parts of `open + attrs + ">" + content + close`, by position: the tag's `>` is at `gt`, the closing tag at `c`. */
  lemma ElementSlices(s: string, open: string, attrs: string, content: string, close: string, gt: nat, c: nat)
    requires s == open + attrs + ">" + content + close
    requires gt == |open| + |attrs| && c == gt + 1 + |content|
    ensures s[|open|..gt] == attrs && s[gt + 1..c] == content && c + |close| == |s|
  {
  }

  /** A lazy element found from the positions of its parts. */
  lemma LazyElementParts(s: string, open: Pattern, close: Pattern, gt: nat, c: nat)
    requires LitAt(s, 0, open, true)
    requires IndexOf(s, '>', |open|) == Some(gt)
    requires Find(s, close, true, gt + 1) == Some(c)
    ensures LazyElementAt(s, 0, open, close) == Some(Element(s[|open|..gt], s[gt + 1..c], c + |close|))
  {
  }

  /** `open + attrs + ">" + content + close` is one lazy element spanning the whole text. */
  lemma LazyElementWhole(s: string, open: Pattern, attrs: string, content: string, close: Pattern)
    requires s == open + attrs + ">" + content + close
    requires '>' !in attrs
    requires FirstCloseIsOwn(content, close)
    ensures LazyElementAt(s, 0, open, close) == Some(Element(attrs, content, |s|))
  {
    var gt := |open| + |attrs|;
    var c := gt + 1 + |content|;
    ElementOpen(s, open, attrs, content, close);
    LazyBodyEnd(s, open + attrs + ">", content, close, gt + 1);
    LazyElementParts(s, open, close, gt, c);
    ElementSlices(s, open, attrs, content, close, gt, c);
  }

  /** A text element found from the positions of its parts. */
  lemma TextElementParts(s: string, open: Pattern, close: Pattern, lt: nat)
    requires LitAt(s, 0, open, true)
    requires IndexOf(s, '<', |open|) == Some(lt)
    requires LitAt(s, lt, close, true)
    ensures TextElementAt(s, 0, open, close) == Some((s[|open|..lt], lt + |close|))
  {
  }

  /** `open + text + close`, with no `<` in the text, is one text element spanning the whole text. */
  lemma TextElementWhole(s: string, open: Pattern, text: string, close: Pattern)
    requires s == open + text + close
    requires '<' !in text && close[0] == '<'
    ensures TextElementAt(s, 0, open, close) == Some((text, |s|))
  {
    var lt := |open| + |text|;
    LitAtStart(s, open, text + close, true);
    TextEnd(s, open, text, close, |open|);
    TextElementParts(s, open, close, lt);
    assert s[|open|..lt] == text;
  }

  // ---------------------------------------------------------------------------
  // Time elements

  const TIME_HEAD := "<time datetime=\""

  /** The backtracking matcher skips candidate indices where the attribute name does not start. */
  lemma {:induction false} BacktrackSkip(h: DateHost, p: AttrPattern, s: string, lo: nat, m: nat, hi: nat)
    requires lo <= m <= hi <= |s|
    requires forall c | m <= c < hi :: !LitAt(s, c, AttrName(p), true)
    ensures Backtrack(h, p, s, lo, hi) == Backtrack(h, p, s, lo, m)
    decreases hi
  {
    if m < hi {
      BacktrackSkip(h, p, s, lo, m, hi - 1);
    }
  }

  /** The fixed head `<time datetime="` of a time element: its tag name, its attribute name and no `>`. */
  lemma TimeHead(s: string, rest: string)
    requires s == TIME_HEAD + rest
    ensures LitAt(s, 0, "<time", true) && LitAt(s, 6, "datetime=\"", true)
    ensures forall j | 5 <= j < 16 :: s[j] != '>'
  {
    assert forall k | 0 <= k < 16 :: s[k] == TIME_HEAD[k];
    LitAtChars(s, 0, "<time", true);
    LitAtChars(s, 6, "datetime=\"", true);
  }

  /** A quoted value without `"` or `>`, followed by `">`: where it ends and where the tag closes. */
  lemma QuotedValue(s: string, head: string, v: string, rest: string, off: nat)
    requires s == head + v + "\">" + rest && off == |head|
    requires '"' !in v && '>' !in v
    ensures IndexOf(s, '"', off) == Some(off + |v|) && s[off..off + |v|] == v
    ensures forall j | off <= j <= off + |v| :: s[j] != '>'
    ensures s[off + |v| + 1] == '>'
  {
    forall j | off <= j < off + |v| ensures s[j] != '"' && s[j] != '>' {
      assert s[j] == v[j - off];
    }
    IndexOfIs(s, '"', off, off + |v|);
  }

  /** Where the opening tag of `<time datetime="DT">` ends and its value lies. */
  lemma TimeOpenTag(s: string, dt: string, rest: string, q: nat)
    requires s == TIME_HEAD + dt + "\">" + rest && q == |TIME_HEAD| + |dt|
    requires '"' !in dt && '>' !in dt
    ensures LitAt(s, 0, "<time", true) && LitAt(s, 6, "datetime=\"", true)
    ensures IndexOf(s, '>', 5) == Some(q + 1)
    ensures IndexOf(s, '"', 16) == Some(q) && s[16..q] == dt
    ensures IndexOf(s, '>', q + 1) == Some(q + 1)
  {
    TimeHead(s, dt + "\">" + rest);
    QuotedValue(s, TIME_HEAD, dt, rest, 16);
    IndexOfIs(s, '>', 5, q + 1);
    IndexOfIs(s, '>', q + 1, q + 1);
  }

  /** Before the tag's first `>`, the attribute name starts only at its own place: the value holds no `"` and no `=`. */
  lemma TimeNameOnce(s: string, dt: string, rest: string, gt: nat)
    requires s == TIME_HEAD + dt + "\">" + rest && gt == |TIME_HEAD| + |dt| + 1
    requires '"' !in dt && '>' !in dt && '=' !in dt
    ensures forall c | 7 <= c < gt :: !LitAt(s, c, "datetime=\"", true)
  {
    forall c | 7 <= c < gt ensures !LitAt(s, c, "datetime=\"", true) {
      if c + 10 > gt {
        assert s[gt] == '>';
        NotLitAt(s, c, "datetime=\"", true, gt - c);
      } else {
        assert c + 8 == 15 || 16 <= c + 8 < gt - 1;
        if c + 8 > 15 {
          assert s[c + 8] == dt[c + 8 - 16];
        }
        NotLitAt(s, c, "datetime=\"", true, 8);
      }
    }
  }

  /**
   * The element `<time datetime="DT">CONTENT</time>`, with a plain value and
   * text, is replaced by the time element's text for that value and content.
   */
  lemma TimeElementWhole(h: DateHost, s: string, dt: string, content: string)
    requires s == TIME_HEAD + dt + "\">" + content + "</time>"
    requires '"' !in dt && '>' !in dt && '=' !in dt && '<' !in content
    ensures Replace(h, Attr(TimeElement), s) == TimeElementText(h, dt, content)
  {
    TimeElementAt(h, s, dt, content);
    ReplaceWholeAttr(h, TimeElement, s, TimeElementText(h, dt, content));
  }

  /** An attribute pass whose pattern matches the whole text replaces it by that match's text. */
  lemma ReplaceWholeAttr(h: DateHost, a: AttrPattern, s: string, text: string)
    requires AttrAt(h, a, s, 0) == Some(Hit(|s|, text))
    ensures Replace(h, Attr(a), s) == text
  {
    MatchAtAttr(h, a, s, 0);
    ReplaceWhole(h, Attr(a), s, text);
  }

  /** An attribute pass tries its attribute pattern. */
  lemma MatchAtAttr(h: DateHost, a: AttrPattern, s: string, i: nat)
    requires i <= |s|
    ensures MatchAt(h, Attr(a), s, i) == AttrAt(h, a, s, i)
  {
  }

  /**
   * Where the pieces of a time element lie: its opening tag up to the first
   * `>` at `gt`, with the attribute name at index 6 and nowhere after it.
   */
  predicate TimeOpening(s: string, gt: nat) {
    7 <= gt <= |s|
    && LitAt(s, 0, AttrOpen(TimeElement), true) && LitAt(s, 6, AttrName(TimeElement), true)
    && IndexOf(s, '>', 5) == Some(gt)
    && forall c | 7 <= c < gt :: !LitAt(s, c, AttrName(TimeElement), true)
  }

  /** The rest of a time element: the value ending at `q`, the tag's end at `gt`, the text and the closing tag at `lt`. */
  predicate TimeLayout(s: string, dt: string, content: string, q: nat, gt: nat, lt: nat) {
    16 <= q && gt == q + 1 && gt < lt && lt + 7 == |s|
    && IndexOf(s, '"', 16) == Some(q) && s[16..q] == dt
    && IndexOf(s, '>', q + 1) == Some(gt)
    && IndexOf(s, '<', gt + 1) == Some(lt) && s[gt + 1..lt] == content
    && LitAt(s, lt, "</time>", true)
  }

  lemma TimeOpeningHolds(s: string, dt: string, content: string)
    requires s == TIME_HEAD + dt + "\">" + content + "</time>"
    requires '"' !in dt && '>' !in dt && '=' !in dt
    ensures TimeOpening(s, |TIME_HEAD| + |dt| + 1)
  {
    TimeNames();
    TimeOpenTag(s, dt, content + "</time>", |TIME_HEAD| + |dt|);
    TimeNameOnce(s, dt, content + "</time>", |TIME_HEAD| + |dt| + 1);
  }

  lemma TimeLayoutHolds(s: string, dt: string, content: string)
    requires s == TIME_HEAD + dt + "\">" + content + "</time>"
    requires '"' !in dt && '>' !in dt && '<' !in content
    ensures TimeLayout(s, dt, content, |TIME_HEAD| + |dt|, |TIME_HEAD| + |dt| + 1, |TIME_HEAD| + |dt| + 2 + |content|)
  {
    var q := |TIME_HEAD| + |dt|;
    QuotedValue(s, TIME_HEAD, dt, content + "</time>", 16);
    IndexOfIs(s, '>', q + 1, q + 1);
    TimeContent(s, TIME_HEAD + dt + "\">", content, q + 2);
  }

  /** The time pattern matches the whole element `<time datetime="DT">CONTENT</time>`. */
  lemma TimeElementAt(h: DateHost, s: string, dt: string, content: string)
    requires s == TIME_HEAD + dt + "\">" + content + "</time>"
    requires '"' !in dt && '>' !in dt && '=' !in dt && '<' !in content
    ensures AttrAt(h, TimeElement, s, 0) == Some(Hit(|s|, TimeElementText(h, dt, content)))
  {
    var q := |TIME_HEAD| + |dt|;
    TimeOpeningHolds(s, dt, content);
    TimeLayoutHolds(s, dt, content);
    TimeTail(h, s, dt, content, q, q + 1, q + 2 + |content|);
    TimeSkip(h, s, q + 1);
    TimeAttrAt(h, s, TimeElementText(h, dt, content), q + 1);
  }

  /** A time pattern whose backtracking from the tag's first `>` comes down to the attribute name at index 6 matches what its tail matches. */
  lemma TimeAttrAt(h: DateHost, s: string, text: string, gt: nat)
    requires 7 <= gt <= |s| && IndexOf(s, '>', 5) == Some(gt)
    requires LitAt(s, 0, AttrOpen(TimeElement), true) && LitAt(s, 6, AttrName(TimeElement), true)
    requires Backtrack(h, TimeElement, s, 5, gt) == Backtrack(h, TimeElement, s, 5, 7)
    requires AttrTail(h, TimeElement, s, 16) == Some(Hit(|s|, text))
    ensures AttrAt(h, TimeElement, s, 0) == Some(Hit(|s|, text))
  {
    TimeNames();
    AttrAtFound(h, TimeElement, s, 0, 6, gt);
  }

  /** Before the tag's first `>`, the time pattern's backtracking passes over every index where its attribute name does not start. */
  lemma TimeSkip(h: DateHost, s: string, gt: nat)
    requires TimeOpening(s, gt)
    ensures Backtrack(h, TimeElement, s, 5, gt) == Backtrack(h, TimeElement, s, 5, 7)
  {
    TimeNames();
    BacktrackSkip(h, TimeElement, s, 5, 7, gt);
  }

  /** The tag and the attribute name of the time pattern. */
  lemma TimeNames()
    ensures AttrOpen(TimeElement) == "<time" && AttrName(TimeElement) == "datetime=\""
    ensures |AttrOpen(TimeElement)| == 5 && |AttrName(TimeElement)| == 10
  {
  }

  /**
   * An attribute pattern at `i` whose tag's first `>` is at `gt`, where the
   * backtracking from `gt` reaches candidate `c` and the name starts at `c`
   * with a tail that matches, matches what that tail matches.
   */
  lemma AttrAtFound(h: DateHost, p: AttrPattern, s: string, i: nat, c: nat, gt: nat)
    requires i + |AttrOpen(p)| <= c < gt <= |s|
    requires LitAt(s, i, AttrOpen(p), true)
    requires IndexOf(s, '>', i + |AttrOpen(p)|) == Some(gt)
    requires LitAt(s, c, AttrName(p), true)
    requires Backtrack(h, p, s, i + |AttrOpen(p)|, gt) == Backtrack(h, p, s, i + |AttrOpen(p)|, c + 1)
    requires AttrTail(h, p, s, c + |AttrName(p)|).Some?
    ensures AttrAt(h, p, s, i) == AttrTail(h, p, s, c + |AttrName(p)|)
  {
    BacktrackHit(h, p, s, i + |AttrOpen(p)|, c);
    AttrAtBacktrack(h, p, s, i, gt);
  }

  /** An attribute pattern at `i` backtracks over the candidates up to the tag's first `>`. */
  lemma AttrAtBacktrack(h: DateHost, p: AttrPattern, s: string, i: nat, gt: nat)
    requires i + |AttrOpen(p)| <= gt <= |s|
    requires LitAt(s, i, AttrOpen(p), true)
    requires IndexOf(s, '>', i + |AttrOpen(p)|) == Some(gt)
    ensures AttrAt(h, p, s, i) == Backtrack(h, p, s, i + |AttrOpen(p)|, gt)
  {
  }

  /** The backtracking matcher stops at the last candidate where the name starts and its tail matches. */
  lemma BacktrackHit(h: DateHost, p: AttrPattern, s: string, lo: nat, c: nat)
    requires lo <= c && c + |AttrName(p)| <= |s|
    requires LitAt(s, c, AttrName(p), true)
    requires AttrTail(h, p, s, c + |AttrName(p)|).Some?
    ensures Backtrack(h, p, s, lo, c + 1) == AttrTail(h, p, s, c + |AttrName(p)|)
  {
  }

  lemma TimeContent(s: string, head: string, content: string, off: nat)
    requires s == head + content + "</time>" && off == |head|
    requires '<' !in content
    ensures IndexOf(s, '<', off) == Some(off + |content|)
    ensures LitAt(s, off + |content|, "</time>", true)
    ensures s[off..off + |content|] == content && |s| == off + |content| + 7
  {
    TextEnd(s, head, content, "</time>", off);
  }

  /** What follows the attribute name: the value, the tag's end, the text and the closing tag, as found by position. */
  lemma TimeTail(h: DateHost, s: string, dt: string, content: string, q: nat, gt: nat, lt: nat)
    requires TimeLayout(s, dt, content, q, gt, lt)
    ensures AttrTail(h, TimeElement, s, 16) == Some(Hit(|s|, TimeElementText(h, dt, content)))
  {
    TimeValueContained(dt);
    TimeContentSteps(h, s, dt, content, q, gt, lt);
  }

  /** Every value holds what the time pattern demands of it: nothing. */
  lemma TimeValueContained(v: string)
    ensures Contains(v, AttrValueMust(TimeElement), true)
  {
    EmptyContained(v);
  }

  /** The content of a time pattern and its closing tag. */
  lemma TimeContentSteps(h: DateHost, s: string, dt: string, content: string, q: nat, gt: nat, lt: nat)
    requires TimeLayout(s, dt, content, q, gt, lt)
    ensures AttrContent(h, TimeElement, s, dt, gt) == Some(Hit(|s|, TimeElementText(h, dt, content)))
  {
  }

  /** The empty pattern occurs in every text. */
  lemma EmptyContained(s: string)
    ensures Contains(s, "", true)
  {
    assert LitAt(s, 0, "", true);
  }

  /** A `<time>` element with visible text shows that text as it is, whatever its `datetime` value. */
  lemma TimeElementVisibleText(h: DateHost, dt: string, content: string)
    requires '"' !in dt && '>' !in dt && '=' !in dt && '<' !in content
    requires HasVisibleText(content)
    ensures Replace(h, Attr(TimeElement), TIME_HEAD + dt + "\">" + content + "</time>") == ClassSpan(DATE_CLASS, content)
  {
    TimeElementWhole(h, TIME_HEAD + dt + "\">" + content + "</time>", dt, content);
  }

  // ---------------------------------------------------------------------------
  // Date spans

  /** The attributes of the span every date replacement emits. */
  const DATE_SPAN_ATTRS := " class=\"confluence-date\""

  /** `p` occurs in `pre + p + rest` where `pre` ends. */
  lemma LitAtMid(s: string, pre: string, p: string, rest: string, off: nat, ci: bool)
    requires s == pre + p + rest && off == |pre|
    ensures LitAt(s, off, p, ci)
  {
    LitAtChars(s, off, p, ci);
    assert forall k | 0 <= k < |p| :: s[off + k] == p[k];
  }

  /** The opening tag of every date span. */
  const DATE_SPAN_HEAD := "<span class=\"confluence-date\">"

  /** The opening tag of a date span, cut at the places the pattern looks at. */
  lemma DateSpanHeadForms()
    ensures "<span" + DATE_SPAN_ATTRS + ">" == DATE_SPAN_HEAD
    ensures "<span class=\"" + "confluence-date" + "\">" == DATE_SPAN_HEAD
    ensures "<span " + "class=\"" + "confluence-date\">" == DATE_SPAN_HEAD
  {
    SpanHeadWithAttrs();
    SpanHeadWithClass();
    SpanHeadWithName();
  }

  lemma SpanHeadWithAttrs() ensures "<span" + DATE_SPAN_ATTRS + ">" == DATE_SPAN_HEAD { }
  lemma SpanHeadWithClass() ensures "<span class=\"" + "confluence-date" + "\">" == DATE_SPAN_HEAD { }
  lemma SpanHeadWithName() ensures "<span " + "class=\"" + "confluence-date\">" == DATE_SPAN_HEAD { }

  /** A date span is its opening tag, its text and its closing tag. */
  lemma DateSpanText(t: string)
    ensures ClassSpan(DATE_CLASS, t) == DATE_SPAN_HEAD + t + SPAN_CLOSE
  {
    DateSpanHeadForms();
  }

  /** The tag, the attribute name and the demanded value of the date-span pattern. */
  lemma SpanNames()
    ensures AttrOpen(DateSpan) == "<span" && AttrName(DateSpan) == "class=\"" && AttrValueMust(DateSpan) == "date"
    ensures |AttrOpen(DateSpan)| == 5 && |AttrName(DateSpan)| == 7
    ensures |DATE_SPAN_ATTRS| == 24 && '>' !in DATE_SPAN_ATTRS
  {
  }

  /** The date span's opening tag ends at index 29, with the attribute name at index 6 and nowhere after it. */
  predicate SpanOpening(s: string) {
    29 < |s|
    && LitAt(s, 0, AttrOpen(DateSpan), true) && LitAt(s, 6, AttrName(DateSpan), true)
    && IndexOf(s, '>', 5) == Some(29)
    && forall c | 7 <= c < 29 :: !LitAt(s, c, AttrName(DateSpan), true)
  }

  /** The rest of a date span: its class value, the tag's end, its text and its closing tag. */
  predicate SpanLayout(s: string, t: string) {
    |s| == 37 + |t|
    && IndexOf(s, '"', 13) == Some(28) && s[13..28] == "confluence-date"
    && IndexOf(s, '>', 29) == Some(29)
    && IndexOf(s, '<', 30) == Some(30 + |t|) && s[30..30 + |t|] == t
    && LitAt(s, 30 + |t|, SPAN_CLOSE, true)
  }

  /** Before the tag's `>`, `class="` starts only at index 6. */
  lemma SpanNameOnce(s: string, t: string)
    requires s == DATE_SPAN_HEAD + t + SPAN_CLOSE
    ensures forall c | 7 <= c < 29 :: !LitAt(s, c, "class=\"", true)
  {
    assert forall k | 0 <= k < 29 :: s[k] == DATE_SPAN_HEAD[k];
    forall c | 7 <= c < 29 ensures !LitAt(s, c, "class=\"", true) {
      if c == 13 || c == 21 {
        NotLitAt(s, c, "class=\"", true, 1);
      } else {
        NotLitAt(s, c, "class=\"", true, 0);
      }
    }
  }

  lemma SpanOpeningHolds(s: string, t: string)
    requires s == ClassSpan(DATE_CLASS, t)
    ensures SpanOpening(s)
  {
    DateSpanText(t);
    DateSpanHeadForms();
    SpanNames();
    ElementOpen(s, "<span", DATE_SPAN_ATTRS, t, SPAN_CLOSE);
    LitAtMid(s, "<span ", "class=\"", "confluence-date\">" + t + SPAN_CLOSE, 6, true);
    SpanNameOnce(s, t);
  }

  lemma SpanLayoutHolds(s: string, t: string)
    requires s == ClassSpan(DATE_CLASS, t) && '<' !in t
    ensures SpanLayout(s, t)
  {
    DateSpanText(t);
    SpanValue(s, t);
    IndexOfIs(s, '>', 29, 29);
    TextEnd(s, DATE_SPAN_HEAD, t, SPAN_CLOSE, 30);
  }

  /** The class value of a date span ends at the `"` at index 28, just before the tag's `>`. */
  lemma SpanValue(s: string, t: string)
    requires s == DATE_SPAN_HEAD + t + SPAN_CLOSE
    ensures IndexOf(s, '"', 13) == Some(28) && s[13..28] == "confluence-date" && s[29] == '>'
  {
    DateSpanHeadForms();
    QuotedValue(s, "<span class=\"", "confluence-date", t + SPAN_CLOSE, 13);
  }

  /** The class value `confluence-date` mentions `date`. */
  lemma DateInClass(v: string)
    requires v == "confluence-date"
    ensures Contains(v, "date", true)
  {
    assert v[11..15] == "date";
    LitAtExact(v, 11, "date");
    LitAtChars(v, 11, "date", false);
    LitAtChars(v, 11, "date", true);
    FindAtMost(v, "date", true, 11);
  }

  /** What follows the class name of a date span: its value, the tag's end, its text and the closing tag. */
  lemma SpanTail(h: DateHost, s: string, t: string)
    requires SpanLayout(s, t)
    ensures AttrTail(h, DateSpan, s, 13) == Some(Hit(|s|, ClassSpan(DATE_CLASS, t)))
  {
    DateInClass(s[13..28]);
    SpanContentSteps(h, s, t);
  }

  lemma SpanContentSteps(h: DateHost, s: string, t: string)
    requires SpanLayout(s, t)
    ensures AttrContent(h, DateSpan, s, s[13..28], 29) == Some(Hit(|s|, ClassSpan(DATE_CLASS, t)))
  {
  }

  /** Before the tag's `>`, the date-span pattern's backtracking passes over every index where `class="` does not start. */
  lemma SpanSkip(h: DateHost, s: string)
    requires SpanOpening(s)
    ensures Backtrack(h, DateSpan, s, 5, 29) == Backtrack(h, DateSpan, s, 5, 7)
  {
    SpanNames();
    BacktrackSkip(h, DateSpan, s, 5, 7, 29);
  }

  lemma SpanAttrAt(h: DateHost, s: string, text: string)
    requires SpanOpening(s)
    requires Backtrack(h, DateSpan, s, 5, 29) == Backtrack(h, DateSpan, s, 5, 7)
    requires AttrTail(h, DateSpan, s, 13) == Some(Hit(|s|, text))
    ensures AttrAt(h, DateSpan, s, 0) == Some(Hit(|s|, text))
  {
    SpanNames();
    AttrAtFound(h, DateSpan, s, 0, 6, 29);
  }

  /** The date-span pattern matches a whole date span the date passes emit, and rebuilds it. */
  lemma DateSpanAt(h: DateHost, s: string, t: string)
    requires s == ClassSpan(DATE_CLASS, t) && '<' !in t
    ensures AttrAt(h, DateSpan, s, 0) == Some(Hit(|s|, ClassSpan(DATE_CLASS, t)))
  {
    SpanOpeningHolds(s, t);
    SpanLayoutHolds(s, t);
    SpanTail(h, s, t);
    SpanSkip(h, s);
    SpanAttrAt(h, s, ClassSpan(DATE_CLASS, t));
  }

  /**
   * The date-span pass is stable on its own output, and so on what the date
   * macro and time-element passes emit: a `confluence-date` span whose text
   * holds no `<` goes through it unchanged.
   */
  lemma DateSpanStable(h: DateHost, t: string)
    requires '<' !in t
    ensures Replace(h, Attr(DateSpan), ClassSpan(DATE_CLASS, t)) == ClassSpan(DATE_CLASS, t)
  {
    DateSpanAt(h, ClassSpan(DATE_CLASS, t), t);
    ReplaceWholeAttr(h, DateSpan, ClassSpan(DATE_CLASS, t), ClassSpan(DATE_CLASS, t));
  }

  // ---------------------------------------------------------------------------
  // Task status and checkboxes

  /**
   * A task-status element becomes the checked glyph exactly when its status
   * text is `complete`, and the unchecked glyph for every other text,
   * including the empty one.
   */
  lemma TaskStatusElement(h: DateHost, status: string)
    requires '<' !in status
    ensures Replace(h, TaskStatus, TASK_STATUS_OPEN + status + TASK_STATUS_CLOSE)
            == if status == "complete" then CHECKED_SPAN else UNCHECKED_SPAN
  {
    var s := TASK_STATUS_OPEN + status + TASK_STATUS_CLOSE;
    TextElementWhole(s, TASK_STATUS_OPEN, status, TASK_STATUS_CLOSE);
    ReplaceWhole(h, TaskStatus, s, TaskStatusText(status));
  }

  /** `[x]` and `[X]` become the checked glyph. */
  lemma BracketChecked(h: DateHost, s: string)
    requires s == "[x]" || s == "[X]"
    ensures ApplyAll(h, BRACKET_PASSES, s) == CHECKED_SPAN
  {
    var checked := Literal("[x]", CHECKED_SPAN, true);
    var unchecked := Literal("[ ]", UNCHECKED_SPAN, true);
    assert BRACKET_PASSES == [checked] + [unchecked];
    LitAtChars(s, 0, "[x]", true);
    assert SameChar(s[1], 'x', true);
    LiteralWhole(h, "[x]", CHECKED_SPAN, true, s);
    BracketUncheckedAbsent(h, CHECKED_SPAN);
    ApplyAllCons(h, checked, [unchecked], s);
  }

  /** The glyph spans hold no `[`, so the `[ ]` pass leaves them alone. */
  lemma BracketUncheckedAbsent(h: DateHost, s: string)
    requires s == CHECKED_SPAN
    ensures Replace(h, Literal("[ ]", UNCHECKED_SPAN, true), s) == s
  {
    assert '[' !in s;
    LiteralAbsent(h, "[ ]", UNCHECKED_SPAN, true, s, 0);
  }

  /** `[ ]` becomes the unchecked glyph. */
  lemma BracketUnchecked(h: DateHost, s: string)
    requires s == "[ ]"
    ensures ApplyAll(h, BRACKET_PASSES, s) == UNCHECKED_SPAN
  {
    var checked := Literal("[x]", CHECKED_SPAN, true);
    var unchecked := Literal("[ ]", UNCHECKED_SPAN, true);
    assert BRACKET_PASSES == [checked] + [unchecked];
    LiteralAbsent(h, "[x]", CHECKED_SPAN, true, s, 1);
    LitAtStart(s, "[ ]", "", true);
    LiteralWhole(h, "[ ]", UNCHECKED_SPAN, true, s);
    ApplyAllCons(h, checked, [unchecked], s);
  }

  /** The attributes of an input name the checkbox type and, somewhere after that, `checked`. */
  predicate CheckedAfterType(attrs: string) {
    Follows(attrs, TYPE_CHECKBOX, "checked")
  }

  /** Some occurrence of `p` in `s`, compared without regard to case, is followed somewhere by `q`. */
  predicate Follows(s: string, p: string, q: string) {
    exists c: nat | c + |p| <= |s| :: LitAt(s, c, p, true) && Contains(s[c + |p|..], q, true)
  }

  /** `"<input" + attrs + ">"` is one input tag spanning the whole text. */
  lemma InputTagWhole(s: string, attrs: string)
    requires s == "<input" + attrs + ">" && '>' !in attrs
    ensures InputTagAt(s, 0) == Some((attrs, |s|))
  {
    assert s == "<input" + attrs + ">" + "" + "";
    ElementOpen(s, "<input", attrs, "", "");
    assert s[6..6 + |attrs|] == attrs;
  }

  /**
   * A `checked` after any occurrence of the checkbox type is also after the
   * first one, which is the one the checked pass looks behind.
   */
  lemma CheckedAfterFirstType(attrs: string)
    requires CheckedAfterType(attrs)
    ensures Find(attrs, TYPE_CHECKBOX, true, 0).Some?
    ensures Contains(attrs[Find(attrs, TYPE_CHECKBOX, true, 0).value + |TYPE_CHECKBOX|..], "checked", true)
  {
    var f := AfterFirstOccurrence(attrs, TYPE_CHECKBOX, "checked");
  }

  /** Whatever follows an occurrence of `p` also follows the first occurrence of `p`. */
  lemma AfterFirstOccurrence(s: string, p: string, q: string) returns (f: nat)
    requires Follows(s, p, q)
    ensures Find(s, p, true, 0) == Some(f) && f + |p| <= |s|
    ensures Contains(s[f + |p|..], q, true)
  {
    var c: nat :| c + |p| <= |s| && LitAt(s, c, p, true) && Contains(s[c + |p|..], q, true);
    FindAtMost(s, p, true, c);
    f := Find(s, p, true, 0).value;
    ContainedFromEarlier(s, q, f + |p|, c + |p|);
  }

  /** What a suffix of `s` contains, a longer suffix contains too. */
  lemma ContainedFromEarlier(s: string, q: string, a: nat, b: nat)
    requires a <= b <= |s|
    requires Contains(s[b..], q, true)
    ensures Contains(s[a..], q, true)
  {
    var j := Find(s[b..], q, true, 0).value;
    LitAtAfter(s, b, b + j, q);
    LitAtAfter(s, a, b + j, q);
    FindAtMost(s[a..], q, true, b + j - a);
  }

  /** An occurrence at `i` means the search finds one, at `i` or before. */
  lemma FindAtMost(s: string, p: string, ci: bool, i: nat)
    requires LitAt(s, i, p, ci)
    ensures Find(s, p, ci, 0).Some? && Find(s, p, ci, 0).value <= i
  {
    FindFirst(s, p, ci, 0);
  }

  /** An occurrence at index `k` of `s` is one at index `k - off` of `s[off..]`. */
  lemma LitAtAfter(s: string, off: nat, k: nat, q: string)
    requires off <= k && off <= |s|
    ensures LitAt(s, k, q, true) == LitAt(s[off..], k - off, q, true)
  {
    LitAtShift(s, off, k - off, q, true);
  }

  /** The checked glyph span holds no `i`, so no input tag: the input passes leave it alone. */
  lemma NoInputTag(h: DateHost, p: Pass, s: string)
    requires p == CheckedInput || p == CheckboxInput
    requires s == CHECKED_SPAN
    ensures Replace(h, p, s) == s
  {
    GlyphChars(s);
    NoInputPass(h, p, s);
  }

  /** The glyph spans hold no `:`, no `i` in either case and no `[`. */
  lemma GlyphChars(s: string)
    requires s == CHECKED_SPAN || s == UNCHECKED_SPAN
    ensures ':' !in s && 'i' !in s && 'I' !in s && '[' !in s
  {
    if s == CHECKED_SPAN {
      CheckedGlyphChars(s);
    } else {
      UncheckedGlyphChars(s);
    }
  }

  /** The characters a task pass or a bracket pass needs before it can match. */
  predicate GlyphFree(s: string) {
    ':' !in s && 'i' !in s && 'I' !in s && '[' !in s
  }

  lemma GlyphFreeJoin(a: string, b: string)
    requires GlyphFree(a) && GlyphFree(b)
    ensures GlyphFree(a + b)
  { }

  lemma CheckedSpanPieces()
    ensures CHECKED_SPAN == "<span class=\"" + "task-checkbox" + " checked\">" + "✅</span>"
  { }

  lemma UncheckedSpanPieces()
    ensures UNCHECKED_SPAN == "<span class=\"" + "task-checkbox" + " unchecked\">" + "⬜</span>"
  { }

  lemma SpanHeadGlyphFree()
    ensures GlyphFree("<span class=\"") && GlyphFree("task-checkbox")
  {
    SpanOpenGlyphFree();
    CheckboxClassGlyphFree();
  }

  lemma SpanOpenGlyphFree() ensures GlyphFree("<span class=\"") { }
  lemma CheckboxClassGlyphFree() ensures GlyphFree("task-checkbox") { }
  lemma CheckedTailGlyphFree() ensures GlyphFree(" checked\">") && GlyphFree("✅</span>") { }
  lemma UncheckedTailGlyphFree() ensures GlyphFree(" unchecked\">") && GlyphFree("⬜</span>") { }

  lemma CheckedGlyphChars(s: string)
    requires s == CHECKED_SPAN
    ensures GlyphFree(s)
  {
    CheckedSpanPieces();
    SpanHeadGlyphFree();
    CheckedTailGlyphFree();
    GlyphFreeJoin("<span class=\"", "task-checkbox");
    GlyphFreeJoin("<span class=\"" + "task-checkbox", " checked\">");
    GlyphFreeJoin("<span class=\"" + "task-checkbox" + " checked\">", "✅</span>");
  }

  lemma UncheckedGlyphChars(s: string)
    requires s == UNCHECKED_SPAN
    ensures GlyphFree(s)
  {
    UncheckedSpanPieces();
    SpanHeadGlyphFree();
    UncheckedTailGlyphFree();
    GlyphFreeJoin("<span class=\"", "task-checkbox");
    GlyphFreeJoin("<span class=\"" + "task-checkbox", " unchecked\">");
    GlyphFreeJoin("<span class=\"" + "task-checkbox" + " unchecked\">", "⬜</span>");
  }

  /** A text with no `i` in either case holds no input tag: the input passes leave it alone. */
  lemma NoInputPass(h: DateHost, p: Pass, s: string)
    requires p == CheckedInput || p == CheckboxInput
    requires 'i' !in s && 'I' !in s
    ensures Replace(h, p, s) == s
  {
    NoOccurrence(s, "<input", true, 1);
    ReplaceFromNoMatch(h, p, s, 0);
  }

  /** A text without `:` holds no task-status element. */
  lemma NoTaskStatusPass(h: DateHost, p: Pass, s: string)
    requires p == TaskStatus && ':' !in s
    ensures Replace(h, p, s) == s
  {
    NoOccurrence(s, TASK_STATUS_OPEN, true, 3);
    ReplaceFromNoMatch(h, p, s, 0);
  }

  /** A text without `:` holds no task-body element. */
  lemma NoTaskBodyPass(h: DateHost, p: Pass, s: string)
    requires p == TaskBody && ':' !in s
    ensures Replace(h, p, s) == s
  {
    NoOccurrence(s, "<ac:task-body", true, 3);
    ReplaceFromNoMatch(h, p, s, 0);
  }

  /** A text with no `i` in either case holds no `li` tag. */
  lemma NoTaskListItemPass(h: DateHost, p: Pass, s: string)
    requires p == Attr(TaskListItem) && 'i' !in s && 'I' !in s
    ensures Replace(h, p, s) == s
  {
    NoOccurrence(s, "<li", true, 2);
    ReplaceFromNoMatch(h, p, s, 0);
  }

  /** The task chain, pass by pass. */
  predicate TaskShape(ps: seq<Pass>) {
    && |ps| == 7
    && ps[0] == TaskStatus && ps[1] == TaskBody && ps[2] == Attr(TaskListItem)
    && ps[3] == CheckedInput && ps[4] == CheckboxInput
    && ps[5] == Literal("[x]", CHECKED_SPAN, true) && ps[6] == Literal("[ ]", UNCHECKED_SPAN, true)
  }

  lemma TaskPassesShape()
    ensures TaskShape(TASK_PASSES)
  {
  }

  /** The task passes up to the `li` pattern leave alone a text without `:` and without `i` in either case. */
  lemma TaskMarkupUntouched(h: DateHost, ps: seq<Pass>, s: string)
    requires TaskShape(ps) && ':' !in s && 'i' !in s && 'I' !in s
    ensures ApplyAll(h, ps, s) == ApplyAll(h, ps[3..], s)
  {
    assert ps[0..] == ps;
    NoTaskStatusPass(h, ps[0], s);
    ApplyAllAt(h, ps, 0, s);
    NoTaskBodyPass(h, ps[1], s);
    ApplyAllAt(h, ps, 1, s);
    NoTaskListItemPass(h, ps[2], s);
    ApplyAllAt(h, ps, 2, s);
  }

  /** The checkbox passes leave alone a text without `i` in either case and without `[`. */
  lemma CheckboxesUntouched(h: DateHost, ps: seq<Pass>, s: string)
    requires TaskShape(ps) && 'i' !in s && 'I' !in s && '[' !in s
    ensures ApplyAll(h, ps[3..], s) == s
  {
    NoInputPass(h, ps[3], s);
    ApplyAllAt(h, ps, 3, s);
    NoInputPass(h, ps[4], s);
    ApplyAllAt(h, ps, 4, s);
    LiteralAbsent(h, "[x]", CHECKED_SPAN, true, s, 0);
    ApplyAllAt(h, ps, 5, s);
    LiteralAbsent(h, "[ ]", UNCHECKED_SPAN, true, s, 0);
    ApplyAllAt(h, ps, 6, s);
    assert ps[7..] == [];
  }

  /** The task passes leave alone every text without `:`, without `i` in either case and without `[`. */
  lemma TaskPassesUntouched(h: DateHost, s: string)
    requires ':' !in s && 'i' !in s && 'I' !in s && '[' !in s
    ensures ApplyAll(h, TASK_PASSES, s) == s
  {
    TaskPassesShape();
    TaskMarkupUntouched(h, TASK_PASSES, s);
    CheckboxesUntouched(h, TASK_PASSES, s);
  }

  /** The task passes are stable on their own output: both glyph spans go through them unchanged. */
  lemma TaskGlyphsStable(h: DateHost, s: string)
    requires s == CHECKED_SPAN || s == UNCHECKED_SPAN
    ensures ApplyAll(h, TASK_PASSES, s) == s
  {
    GlyphChars(s);
    TaskPassesUntouched(h, s);
  }

  /** Only the first character of a text whose one `<` leads it can start an input tag. */
  lemma InputOnlyAtStart(h: DateHost, p: Pass, s: string)
    requires p == CheckedInput || p == CheckboxInput
    requires |s| > 0 && '<' !in s[1..]
    ensures forall i | 1 <= i < |s| :: MatchAt(h, p, s, i).None?
  {
    forall i | 1 <= i < |s| ensures !LitAt(s, i, "<input", true) {
      assert s[i] == s[1..][i - 1];
      NotLitAt(s, i, "<input", true, 0);
    }
  }

  /** The checked pattern matches a checkbox input whose first type attribute is followed by `checked`. */
  lemma CheckedInputMatch(s: string, attrs: string, f: nat)
    requires InputTagAt(s, 0) == Some((attrs, |s|))
    requires Find(attrs, TYPE_CHECKBOX, true, 0) == Some(f)
    requires Contains(attrs[f + |TYPE_CHECKBOX|..], "checked", true)
    ensures CheckedInputAt(s, 0) == Some(Hit(|s|, CHECKED_SPAN))
  {
  }

  /** The checked pass tries the checked pattern. */
  lemma MatchAtChecked(h: DateHost, p: Pass, s: string, i: nat)
    requires p == CheckedInput && i <= |s|
    ensures MatchAt(h, p, s, i) == CheckedInputAt(s, i)
  {
  }

  /** Through the checked pass a checkbox input with `checked` after its type becomes the checked glyph. */
  lemma CheckedInputTag(h: DateHost, s: string, attrs: string)
    requires s == "<input" + attrs + ">" && '>' !in attrs
    requires CheckedAfterType(attrs)
    ensures Replace(h, CheckedInput, s) == CHECKED_SPAN
  {
    InputTagWhole(s, attrs);
    CheckedInputWhole(h, CheckedInput, s, attrs);
  }

  lemma CheckedInputWhole(h: DateHost, p: Pass, s: string, attrs: string)
    requires p == CheckedInput
    requires InputTagAt(s, 0) == Some((attrs, |s|))
    requires CheckedAfterType(attrs)
    ensures Replace(h, p, s) == CHECKED_SPAN
  {
    CheckedInputAtWhole(s, attrs);
    MatchAtChecked(h, p, s, 0);
    ReplaceWhole(h, p, s, CHECKED_SPAN);
  }

  /** The checked pattern matches the whole of a checkbox input with `checked` after its type. */
  lemma CheckedInputAtWhole(s: string, attrs: string)
    requires InputTagAt(s, 0) == Some((attrs, |s|))
    requires CheckedAfterType(attrs)
    ensures CheckedInputAt(s, 0) == Some(Hit(|s|, CHECKED_SPAN))
  {
    var f := AfterFirstOccurrence(attrs, TYPE_CHECKBOX, "checked");
    CheckedInputMatch(s, attrs, f);
  }

  /** The checked pattern does not match a checkbox input without `checked` after its type. */
  lemma CheckedInputNoMatch(h: DateHost, s: string, attrs: string)
    requires InputTagAt(s, 0) == Some((attrs, |s|))
    requires !CheckedAfterType(attrs)
    ensures CheckedInputAt(s, 0).None?
  {
    var o := Find(attrs, TYPE_CHECKBOX, true, 0);
    if o.Some? {
      assert !Contains(attrs[o.value + |TYPE_CHECKBOX|..], "checked", true);
    }
  }

  /** The checked pass leaves alone a checkbox input without `checked` after its type. */
  lemma UncheckedInputKept(h: DateHost, s: string, attrs: string)
    requires s == "<input" + attrs + ">" && '>' !in attrs && '<' !in attrs
    requires !CheckedAfterType(attrs)
    ensures Replace(h, CheckedInput, s) == s
  {
    InputTagWhole(s, attrs);
    CheckedInputNoMatch(h, s, attrs);
    MatchAtChecked(h, CheckedInput, s, 0);
    assert s[1..] == "input" + attrs + ">";
    InputOnlyAtStart(h, CheckedInput, s);
    ReplaceFromNoMatch(h, CheckedInput, s, 0);
  }

  /** The plain checkbox pass turns a checkbox input into the unchecked glyph. */
  lemma CheckboxInputTag(h: DateHost, p: Pass, s: string, attrs: string)
    requires p == CheckboxInput
    requires s == "<input" + attrs + ">" && '>' !in attrs
    requires Contains(attrs, TYPE_CHECKBOX, true)
    ensures Replace(h, p, s) == UNCHECKED_SPAN
  {
    InputTagWhole(s, attrs);
    MatchAtCheckbox(h, p, s, 0);
    ReplaceWhole(h, p, s, UNCHECKED_SPAN);
  }

  /** The plain checkbox pass tries the checkbox pattern. */
  lemma MatchAtCheckbox(h: DateHost, p: Pass, s: string, i: nat)
    requires p == CheckboxInput && i <= |s|
    ensures MatchAt(h, p, s, i) == CheckboxInputAt(s, i)
  {
  }

  /**
   * A checkbox input tag becomes the checked glyph when `checked` follows its
   * type attribute, and the unchecked glyph otherwise: the checked pass runs
   * first and the plain checkbox pass takes what it leaves.
   */
  lemma InputCheckbox(h: DateHost, attrs: string)
    requires '>' !in attrs && '<' !in attrs
    requires Contains(attrs, TYPE_CHECKBOX, true)
    ensures ApplyAll(h, [CheckedInput, CheckboxInput], "<input" + attrs + ">")
            == if CheckedAfterType(attrs) then CHECKED_SPAN else UNCHECKED_SPAN
  {
    var s := "<input" + attrs + ">";
    ApplyAllCons(h, CheckedInput, [CheckboxInput], s);
    if CheckedAfterType(attrs) {
      CheckedInputTag(h, s, attrs);
      ApplyAllCons(h, CheckboxInput, [], CHECKED_SPAN);
      NoInputTag(h, CheckboxInput, CHECKED_SPAN);
    } else {
      UncheckedInputKept(h, s, attrs);
      CheckboxInputTag(h, CheckboxInput, s, attrs);
      ApplyAllCons(h, CheckboxInput, [], s);
    }
  }

  // ---------------------------------------------------------------------------
  // Date macros

  /**
   * A date, time or datetime macro element, whose opening tag names its kind
   * and whose body holds no earlier closing tag, is replaced by its rendered
   * value or placeholder.
   */
  lemma MacroElement(h: DateHost, k: MacroKind, attrs: string, content: string)
    requires '>' !in attrs && Contains(attrs, MacroNameAttr(k), true)
    requires FirstCloseIsOwn(content, MACRO_CLOSE)
    ensures Replace(h, Macro(k), MACRO_OPEN + attrs + ">" + content + MACRO_CLOSE) == MacroText(h, k, content)
  {
    var s := MACRO_OPEN + attrs + ">" + content + MACRO_CLOSE;
    LazyElementWhole(s, MACRO_OPEN, attrs, content, MACRO_CLOSE);
    ReplaceWhole(h, Macro(k), s, MacroText(h, k, content));
  }

  /** A macro body without any `<ac:parameter` tag has no value parameter. */
  lemma ValueParameterAbsent(content: string)
    requires !Contains(content, PARAM_OPEN, true)
    ensures ValueParameter(content).None?
  {
    FindFirst(content, PARAM_OPEN, true, 0);
    forall p | 0 <= p <= |content| ensures ValueParameterAt(content, p).None? {
      assert !LitAt(content, p, PARAM_OPEN, true);
    }
    FirstValueParameterNone(content, 0);
  }

  /** A value parameter found from the positions of its parts. */
  lemma ValueParameterParts(t: string, pattrs: string, gt: nat, lt: nat)
    requires LitAt(t, 0, PARAM_OPEN, true)
    requires IndexOf(t, '>', |PARAM_OPEN|) == Some(gt)
    requires t[|PARAM_OPEN|..gt] == pattrs && Contains(pattrs, VALUE_ATTR, true)
    requires IndexOf(t, '<', gt + 1) == Some(lt)
    requires LitAt(t, lt, PARAM_CLOSE, true)
    ensures ValueParameterAt(t, 0) == Some(t[gt + 1..lt])
  {
    assert Contains(t[0 + |PARAM_OPEN|..gt], VALUE_ATTR, true);
  }

  /** A body that is a value parameter yields that parameter's text. */
  lemma ValueParameterPresent(pattrs: string, v: string)
    requires '>' !in pattrs && Contains(pattrs, VALUE_ATTR, true)
    requires '<' !in v
    ensures ValueParameter(PARAM_OPEN + pattrs + ">" + v + PARAM_CLOSE) == Some(v)
  {
    var t := PARAM_OPEN + pattrs + ">" + v + PARAM_CLOSE;
    var gt := |PARAM_OPEN| + |pattrs|;
    var lt := gt + 1 + |v|;
    ValueParameterLayout(t, pattrs, v, gt, lt);
    ValueParameterFound(t, pattrs, v, gt, lt);
  }

  /** Where the parts of `PARAM_OPEN + pattrs + ">" + v + PARAM_CLOSE` lie. */
  lemma ValueParameterLayout(t: string, pattrs: string, v: string, gt: nat, lt: nat)
    requires '>' !in pattrs && '<' !in v
    requires t == PARAM_OPEN + pattrs + ">" + v + PARAM_CLOSE
    requires gt == |PARAM_OPEN| + |pattrs| && lt == gt + 1 + |v|
    ensures LitAt(t, 0, PARAM_OPEN, true) && IndexOf(t, '>', |PARAM_OPEN|) == Some(gt)
    ensures lt <= |t| && t[|PARAM_OPEN|..gt] == pattrs && t[gt + 1..lt] == v
    ensures IndexOf(t, '<', gt + 1) == Some(lt) && LitAt(t, lt, PARAM_CLOSE, true)
  {
    ElementOpen(t, PARAM_OPEN, pattrs, v, PARAM_CLOSE);
    TextEnd(t, PARAM_OPEN + pattrs + ">", v, PARAM_CLOSE, gt + 1);
    ElementSlices(t, PARAM_OPEN, pattrs, v, PARAM_CLOSE, gt, lt);
  }

  /** A text that starts with a value parameter has that parameter's text as its value. */
  lemma ValueParameterFound(t: string, pattrs: string, v: string, gt: nat, lt: nat)
    requires LitAt(t, 0, PARAM_OPEN, true) && IndexOf(t, '>', |PARAM_OPEN|) == Some(gt)
    requires gt < lt <= |t| && t[|PARAM_OPEN|..gt] == pattrs && t[gt + 1..lt] == v
    requires Contains(pattrs, VALUE_ATTR, true)
    requires IndexOf(t, '<', gt + 1) == Some(lt) && LitAt(t, lt, PARAM_CLOSE, true)
    ensures ValueParameter(t) == Some(v)
  {
    ValueParameterParts(t, pattrs, gt, lt);
  }

  /**
   * A date, time or datetime macro without a value parameter, whatever other
   * parameters it has, becomes exactly the kind's placeholder span,
   * `<span class="confluence-date">[Date Component]</span>` for a date macro.
   */
  lemma MacroWithoutValue(h: DateHost, k: MacroKind, attrs: string, content: string)
    requires '>' !in attrs && Contains(attrs, MacroNameAttr(k), true)
    requires FirstCloseIsOwn(content, MACRO_CLOSE)
    requires ValueParameter(content).None?
    ensures Replace(h, Macro(k), MACRO_OPEN + attrs + ">" + content + MACRO_CLOSE)
            == ClassSpan(MacroClass(k), MacroPlaceholder(k))
  {
    MacroElement(h, k, attrs, content);
  }

  /** A macro body without any `<ac:parameter` tag, in particular, becomes the placeholder. */
  lemma MacroWithoutParameters(h: DateHost, k: MacroKind, attrs: string, content: string)
    requires '>' !in attrs && Contains(attrs, MacroNameAttr(k), true)
    requires FirstCloseIsOwn(content, MACRO_CLOSE)
    requires !Contains(content, PARAM_OPEN, true)
    ensures Replace(h, Macro(k), MACRO_OPEN + attrs + ">" + content + MACRO_CLOSE)
            == ClassSpan(MacroClass(k), MacroPlaceholder(k))
  {
    ValueParameterAbsent(content);
    MacroWithoutValue(h, k, attrs, content);
  }

  /**
   * A macro whose body is a value parameter shows the formatted value when
   * the host parses it, and the placeholder when it does not.
   */
  lemma MacroWithValue(h: DateHost, k: MacroKind, attrs: string, pattrs: string, v: string)
    requires '>' !in attrs && Contains(attrs, MacroNameAttr(k), true)
    requires '>' !in pattrs && Contains(pattrs, VALUE_ATTR, true) && '<' !in v
    requires FirstCloseIsOwn(PARAM_OPEN + pattrs + ">" + v + PARAM_CLOSE, MACRO_CLOSE)
    ensures var parsed := h.parse(MacroDateInput(k, v));
            Replace(h, Macro(k), MACRO_OPEN + attrs + ">" + (PARAM_OPEN + pattrs + ">" + v + PARAM_CLOSE) + MACRO_CLOSE)
            == ClassSpan(MacroClass(k), if parsed.Some? then MacroFormat(h, k, parsed.value) else MacroPlaceholder(k))
  {
    MacroElement(h, k, attrs, PARAM_OPEN + pattrs + ">" + v + PARAM_CLOSE);
    ValueParameterPresent(pattrs, v);
  }

  // ---------------------------------------------------------------------------
  // Characters and entities

  /** Running a chain from pass `i` on is running pass `i`, then the passes after it. */
  lemma ApplyAllAt(h: DateHost, ps: seq<Pass>, i: nat, s: string)
    requires i < |ps|
    ensures ApplyAll(h, ps[i..], s) == ApplyAll(h, ps[i + 1..], Replace(h, ps[i], s))
  {
    assert ps[i..][1..] == ps[i + 1..];
  }

  /** Literal passes none of whose replacements holds `c` never introduce it. */
  lemma {:induction false} LiteralsKeepAbsent(h: DateHost, ps: seq<Pass>, i: nat, s: string, c: char)
    requires i <= |ps|
    requires forall j | i <= j < |ps| :: ps[j].Literal? && !ps[j].ci && c !in ps[j].rep
    requires c !in s
    ensures c !in ApplyAll(h, ps[i..], s)
    decreases |ps| - i
  {
    if i == |ps| {
      assert ps[i..] == [];
    } else {
      ApplyAllAt(h, ps, i, s);
      LiteralKeepsAbsent(h, ps[i].pat, ps[i].rep, s, 0, c);
      LiteralsKeepAbsent(h, ps, i + 1, Replace(h, ps[i], s), c);
    }
  }

  /**
   * Literal passes each of whose patterns has, at index `k`, a character the
   * text lacks leave the text alone.
   */
  lemma {:induction false} LiteralsAbsent(h: DateHost, ps: seq<Pass>, i: nat, s: string, k: nat)
    requires i <= |ps|
    requires forall j | i <= j < |ps| :: ps[j].Literal? && !ps[j].ci && k < |ps[j].pat| && ps[j].pat[k] !in s
    ensures ApplyAll(h, ps[i..], s) == s
    decreases |ps| - i
  {
    if i == |ps| {
      assert ps[i..] == [];
    } else {
      ApplyAllAt(h, ps, i, s);
      LiteralAbsent(h, ps[i].pat, ps[i].rep, false, s, k);
      LiteralsAbsent(h, ps, i + 1, s, k);
    }
  }

  /** The character chain, pass by pass. */
  predicate CharacterShape(ps: seq<Pass>) {
    && |ps| == 10
    && ps[0] == Literal("（", "(", false) && ps[1] == Literal("）", ")", false)
    && ps[2] == Literal("&nbsp;", " ", false) && ps[3] == Literal("&amp;", "&", false)
    && ps[4] == Literal("&lt;", "<", false) && ps[5] == Literal("&gt;", ">", false)
    && ps[6] == Literal("&quot;", "\"", false) && ps[7] == Literal("&#39;", "'", false)
    && ps[8] == Literal("&#40;", "(", false) && ps[9] == Literal("&#41;", ")", false)
  }

  lemma CharacterPassesShape()
    ensures CharacterShape(CHARACTER_PASSES)
  {
  }

  /** Every character pass is a literal pass without the `i` flag, and its replacement is one ASCII character. */
  lemma CharacterPassKinds(ps: seq<Pass>)
    requires CharacterShape(ps)
    ensures forall j | 0 <= j < |ps| :: ps[j].Literal? && !ps[j].ci && |ps[j].rep| == 1 && ps[j].rep[0] < '\U{80}'
  {
  }

  /** The entity passes from `&lt;` on: each pattern starts with `&`, and its second character is one of `l`, `g`, `q`, `#`. */
  lemma EntityPatterns(ps: seq<Pass>)
    requires CharacterShape(ps)
    ensures forall j | 4 <= j < |ps| :: |ps[j].pat| > 1 && ps[j].pat[0] == '&' && ps[j].pat[1] in "lgq#"
  {
  }

  /** No full-width parenthesis survives the character passes, whatever the input. */
  lemma FullWidthParensRemoved(h: DateHost, s: string)
    ensures '（' !in ApplyAll(h, CHARACTER_PASSES, s)
    ensures '）' !in ApplyAll(h, CHARACTER_PASSES, s)
  {
    CharacterPassesShape();
    ParensRemoved(h, CHARACTER_PASSES, s);
  }

  lemma ParensRemoved(h: DateHost, ps: seq<Pass>, s: string)
    requires CharacterShape(ps)
    ensures '（' !in ApplyAll(h, ps, s) && '）' !in ApplyAll(h, ps, s)
  {
    CharacterPassKinds(ps);
    var s1 := Replace(h, ps[0], s);
    SingleCharRemoved(h, '（', "(", s, 0);
    var s2 := Replace(h, ps[1], s1);
    SingleCharRemoved(h, '）', ")", s1, 0);
    LiteralKeepsAbsent(h, "）", ")", s1, 0, '（');
    assert ps[0..] == ps;
    ApplyAllAt(h, ps, 0, s);
    ApplyAllAt(h, ps, 1, s1);
    LiteralsKeepAbsent(h, ps, 2, s2, '（');
    LiteralsKeepAbsent(h, ps, 2, s2, '）');
  }

  /**
   * An illustration of the decoding order, `&amp;` after `&nbsp;` and before
   * `&lt;`: a doubly encoded `&lt;` is decoded twice, down to `<`.
   */
  lemma DoublyEncodedLt(h: DateHost)
    ensures ApplyAll(h, CHARACTER_PASSES, "&amp;lt;") == "<"
  {
    CharacterPassesShape();
    DoublyEncodedLtSteps(h, CHARACTER_PASSES, "&amp;lt;", "&lt;", "<");
  }

  lemma DoublyEncodedLtSteps(h: DateHost, ps: seq<Pass>, a: string, b: string, c: string)
    requires CharacterShape(ps) && a == "&amp;lt;" && b == "&lt;" && c == "<"
    ensures ApplyAll(h, ps, a) == c
  {
    AmpersandLt(h, ps, a, b);
    LtDecoded(h, ps, b, c);
    DoublyEncodedLtChars(a, c);
    LtChain(h, ps, a, b, c);
  }

  lemma DoublyEncodedLtChars(a: string, c: string)
    requires a == "&amp;lt;" && c == "<"
    ensures '（' !in a && '）' !in a && 'n' !in a && '&' !in c
  {
  }

  /** The `&amp;` pass turns `&amp;lt;` into `&lt;`. */
  lemma AmpersandLt(h: DateHost, ps: seq<Pass>, a: string, b: string)
    requires CharacterShape(ps) && a == "&amp;lt;" && b == "&lt;"
    ensures Replace(h, ps[3], a) == b
  {
    assert a == "&amp;" + "lt;";
    assert b == "&" + "lt;";
    AmpersandPrefix(h, "lt;");
  }

  /** The `&lt;` pass turns `&lt;` into `<`. */
  lemma LtDecoded(h: DateHost, ps: seq<Pass>, b: string, c: string)
    requires CharacterShape(ps) && b == "&lt;" && c == "<"
    ensures Replace(h, ps[4], b) == c
  {
    LitAtStart(b, "&lt;", "", false);
    LiteralWhole(h, "&lt;", "<", false, b);
  }

  /** The chain on `a` when only `&amp;` changes it, into `b`, and then only `&lt;`, into a text without `&`. */
  lemma LtChain(h: DateHost, ps: seq<Pass>, a: string, b: string, c: string)
    requires CharacterShape(ps) && '（' !in a && '）' !in a && 'n' !in a && '&' !in c
    requires Replace(h, ps[3], a) == b && Replace(h, ps[4], b) == c
    ensures ApplyAll(h, ps, a) == c
  {
    UntouchedHead(h, ps, a);
    ApplyAllAt(h, ps, 3, a);
    ApplyAllAt(h, ps, 4, b);
    AmpersandFree(h, ps, c);
  }

  /** None of the passes after `&lt;` finds anything in a text without `&`. */
  lemma AmpersandFree(h: DateHost, ps: seq<Pass>, c: string)
    requires CharacterShape(ps) && '&' !in c
    ensures ApplyAll(h, ps[5..], c) == c
  {
    LiteralAbsent(h, "&gt;", ">", false, c, 0);
    LiteralAbsent(h, "&quot;", "\"", false, c, 0);
    LiteralAbsent(h, "&#39;", "'", false, c, 0);
    LiteralAbsent(h, "&#40;", "(", false, c, 0);
    LiteralAbsent(h, "&#41;", ")", false, c, 0);
    ApplyAllAt(h, ps, 5, c);
    ApplyAllAt(h, ps, 6, c);
    ApplyAllAt(h, ps, 7, c);
    ApplyAllAt(h, ps, 8, c);
    ApplyAllAt(h, ps, 9, c);
    assert ps[10..] == [];
  }

  /** The parenthesis and `&nbsp;` passes leave a text with no full-width parenthesis and no `n` alone. */
  lemma UntouchedHead(h: DateHost, ps: seq<Pass>, a: string)
    requires CharacterShape(ps) && '（' !in a && '）' !in a && 'n' !in a
    ensures ApplyAll(h, ps, a) == ApplyAll(h, ps[3..], a)
  {
    assert ps[0..] == ps;
    LiteralAbsent(h, "（", "(", false, a, 0);
    ApplyAllAt(h, ps, 0, a);
    LiteralAbsent(h, "）", ")", false, a, 0);
    ApplyAllAt(h, ps, 1, a);
    LiteralAbsent(h, "&nbsp;", " ", false, a, 1);
    ApplyAllAt(h, ps, 2, a);
  }

  /**
   * An illustration of the decoding order, `&nbsp;` before `&amp;`: a doubly
   * encoded `&nbsp;` is decoded once only, and stays an entity.
   */
  lemma DoublyEncodedNbsp(h: DateHost)
    ensures ApplyAll(h, CHARACTER_PASSES, "&amp;nbsp;") == "&nbsp;"
  {
    CharacterPassesShape();
    DoublyEncodedNbspSteps(h, CHARACTER_PASSES, "&amp;nbsp;", "&nbsp;");
  }

  lemma DoublyEncodedNbspSteps(h: DateHost, ps: seq<Pass>, a: string, b: string)
    requires CharacterShape(ps) && a == "&amp;nbsp;" && b == "&nbsp;"
    ensures ApplyAll(h, ps, a) == b
  {
    NbspNotInDoublyEncoded(h, a);
    AmpersandNbsp(h, ps, a, b);
    DoublyEncodedNbspChars(a, b);
    NbspChain(h, ps, a, b);
  }

  lemma DoublyEncodedNbspChars(a: string, b: string)
    requires a == "&amp;nbsp;" && b == "&nbsp;"
    ensures '（' !in a && '）' !in a && 'l' !in b && 'g' !in b && 'q' !in b && '#' !in b
  {
  }

  /** The chain on `a` when only `&amp;` changes it, into a text without `l`, `g`, `q` and `#`. */
  lemma NbspChain(h: DateHost, ps: seq<Pass>, a: string, b: string)
    requires CharacterShape(ps) && '（' !in a && '）' !in a && 'l' !in b && 'g' !in b && 'q' !in b && '#' !in b
    requires Replace(h, ps[2], a) == a && Replace(h, ps[3], a) == b
    ensures ApplyAll(h, ps, a) == b
  {
    assert ps[0..] == ps;
    LiteralAbsent(h, "（", "(", false, a, 0);
    LiteralAbsent(h, "）", ")", false, a, 0);
    ApplyAllAt(h, ps, 0, a);
    ApplyAllAt(h, ps, 1, a);
    ApplyAllAt(h, ps, 2, a);
    ApplyAllAt(h, ps, 3, a);
    EntitiesAbsent(h, ps, b);
  }

  /** The `&amp;` pass turns `&amp;nbsp;` into `&nbsp;`. */
  lemma AmpersandNbsp(h: DateHost, ps: seq<Pass>, a: string, b: string)
    requires CharacterShape(ps) && a == "&amp;nbsp;" && b == "&nbsp;"
    ensures Replace(h, ps[3], a) == b
  {
    assert a == "&amp;" + "nbsp;";
    assert b == "&" + "nbsp;";
    AmpersandPrefix(h, "nbsp;");
  }

  /** None of the passes from `&lt;` on finds anything in a text without `l`, `g`, `q` and `#`. */
  lemma EntitiesAbsent(h: DateHost, ps: seq<Pass>, b: string)
    requires CharacterShape(ps) && 'l' !in b && 'g' !in b && 'q' !in b && '#' !in b
    ensures ApplyAll(h, ps[4..], b) == b
  {
    LiteralAbsent(h, "&lt;", "<", false, b, 1);
    LiteralAbsent(h, "&gt;", ">", false, b, 1);
    LiteralAbsent(h, "&quot;", "\"", false, b, 1);
    LiteralAbsent(h, "&#39;", "'", false, b, 1);
    LiteralAbsent(h, "&#40;", "(", false, b, 1);
    LiteralAbsent(h, "&#41;", ")", false, b, 1);
    ApplyAllAt(h, ps, 4, b);
    ApplyAllAt(h, ps, 5, b);
    ApplyAllAt(h, ps, 6, b);
    ApplyAllAt(h, ps, 7, b);
    ApplyAllAt(h, ps, 8, b);
    ApplyAllAt(h, ps, 9, b);
    assert ps[10..] == [];
  }

  /** `&amp;nbsp;` holds no `&nbsp;`: its only `&` is followed by `a`. */
  lemma NbspNotInDoublyEncoded(h: DateHost, b: string)
    requires b == "&amp;nbsp;"
    ensures Replace(h, Literal("&nbsp;", " ", false), b) == b
  {
    forall i | 0 <= i < |b| ensures MatchAt(h, Literal("&nbsp;", " ", false), b, i).None? {
      if i == 0 {
        NotLitAt(b, i, "&nbsp;", false, 1);
      } else {
        NotLitAt(b, i, "&nbsp;", false, 0);
      }
    }
    ReplaceFromNoMatch(h, Literal("&nbsp;", " ", false), b, 0);
  }

  /** `&amp;` followed by a text without `&` decodes to `&` followed by that text. */
  lemma AmpersandPrefix(h: DateHost, rest: string)
    requires '&' !in rest
    ensures Replace(h, Literal("&amp;", "&", false), "&amp;" + rest) == "&" + rest
  {
    var s := "&amp;" + rest;
    var p := Literal("&amp;", "&", false);
    LitAtStart(s, "&amp;", rest, false);
    forall i | 5 <= i < |s| ensures MatchAt(h, p, s, i).None? {
      assert s[i] == rest[i - 5];
      NotLitAt(s, i, "&amp;", false, 0);
    }
    ReplaceFromNoMatch(h, p, s, 5);
    assert s[5..] == rest;
  }
}
