/**
 * The colour the `Status` badge of a JIRA issue takes, reduced to the
 * category it stands for: the issue's status name is lower-cased and tested
 * against three keyword groups in a fixed order.
 */
module Status {
  import opened Base
  import opened Text

  /** The four looks of the badge: green, blue, gold and the grey default. */
  datatype Category = Done | InProgress | Review | Neutral

  const DONE_WORDS: seq<string> := ["완료", "done", "closed"]
  const PROGRESS_WORDS: seq<string> := ["진행", "progress", "in progress"]
  const REVIEW_WORDS: seq<string> := ["검토", "review", "reviewing"]

  /** `name.includes(w1) || name.includes(w2) || ...`. */
  function IncludesAny(name: string, words: seq<string>): (r: bool)
    ensures r <==> exists k | 0 <= k < |words| :: Contains(name, words[k], false)
    decreases |words|
  {
    if words == [] then false
    else if Contains(name, words[0], false) then true
    else
      var r := IncludesAny(name, words[1..]);
      assert forall k | 1 <= k < |words| :: words[k] == words[1..][k - 1];
      r
  }

  /** A name mentions a word of two lists together exactly when it mentions a word of one of them. */
  lemma IncludesAnyAppend(name: string, a: seq<string>, b: seq<string>)
    ensures IncludesAny(name, a + b) <==> IncludesAny(name, a) || IncludesAny(name, b)
  {
    var ab := a + b;
    if IncludesAny(name, a) {
      var k :| 0 <= k < |a| && Contains(name, a[k], false);
      assert ab[k] == a[k];
    }
    if IncludesAny(name, b) {
      var k :| 0 <= k < |b| && Contains(name, b[k], false);
      assert ab[|a| + k] == b[k];
    }
    if IncludesAny(name, ab) {
      var k :| 0 <= k < |ab| && Contains(name, ab[k], false);
      if k >= |a| {
        assert ab[k] == b[k - |a|];
      }
    }
  }

  /** `statusName?.toLowerCase() || ""`: the lower-cased name, and the empty text for a missing one. */
  function NormalName(statusName: Option<string>): (r: string)
    ensures statusName.None? ==> r == ""
    ensures statusName.Some? ==> r == Lower(statusName.value)
  {
    match statusName
    case None => ""
    case Some(s) => Lower(s)
  }

  /**
   * The badge's category: the first keyword group the lower-cased name
   * mentions, and `Neutral` when it mentions none, or is missing.
   */
  function Classify(statusName: Option<string>): (c: Category)
    ensures var n := NormalName(statusName);
      && (c == Done <==> IncludesAny(n, DONE_WORDS))
      && (c == InProgress <==> !IncludesAny(n, DONE_WORDS) && IncludesAny(n, PROGRESS_WORDS))
      && (c == Review <==> !IncludesAny(n, DONE_WORDS) && !IncludesAny(n, PROGRESS_WORDS) && IncludesAny(n, REVIEW_WORDS))
      && (c == Neutral <==> !IncludesAny(n, DONE_WORDS + PROGRESS_WORDS + REVIEW_WORDS))
    ensures statusName.None? ==> c == Neutral
  {
    var n := NormalName(statusName);
    IncludesAnyAppend(n, DONE_WORDS, PROGRESS_WORDS);
    IncludesAnyAppend(n, DONE_WORDS + PROGRESS_WORDS, REVIEW_WORDS);
    if IncludesAny(n, DONE_WORDS) then Done
    else if IncludesAny(n, PROGRESS_WORDS) then InProgress
    else if IncludesAny(n, REVIEW_WORDS) then Review
    else Neutral
  }

  /** The test ignores case: an upper-cased or lower-cased name falls in the same category. */
  lemma ClassifyIgnoresCase(s: string)
    ensures Classify(Some(Upper(s))) == Classify(Some(s))
    ensures Classify(Some(Lower(s))) == Classify(Some(s))
  {
    LowerOfUpper(s);
    assert Lower(Lower(s)) == Lower(s);
  }

  /** "in progress" and "reviewing" add nothing: each holds a shorter keyword of its own group. */
  lemma RedundantKeywords(name: string)
    ensures IncludesAny(name, PROGRESS_WORDS) <==> Contains(name, "진행", false) || Contains(name, "progress", false)
    ensures IncludesAny(name, REVIEW_WORDS) <==> Contains(name, "검토", false) || Contains(name, "review", false)
  {
    if Contains(name, "in progress", false) {
      ContainsInner(name, "in progress", 3, 11);
      assert "in progress"[3..11] == "progress";
    }
    if Contains(name, "reviewing", false) {
      ContainsInner(name, "reviewing", 0, 6);
      assert "reviewing"[0..6] == "review";
    }
  }

  /** An illustration of InProgressClassified: JIRA's "In Progress" shows as in progress. */
  lemma InProgressExample()
    ensures Classify(Some("In Progress")) == InProgress
  {
    InProgressLower("In Progress", "in progress");
    InProgressWords("in progress");
    InProgressClassified("In Progress", "in progress");
  }

  lemma InProgressLower(s: string, n: string)
    requires s == "In Progress" && n == "in progress"
    ensures Lower(s) == n
  {
    assert forall k | 0 <= k < |s| :: Lower(s)[k] == n[k];
  }

  /** "in progress" mentions no word of the done group and the word "progress". */
  lemma InProgressWords(n: string)
    requires n == "in progress"
    ensures !Contains(n, "완료", false) && !Contains(n, "done", false) && !Contains(n, "closed", false)
    ensures Contains(n, "progress", false)
  {
    NotContains(n, "완료", 0);
    NotContains(n, "done", 0);
    NotContains(n, "closed", 0);
    assert n == "in " + "progress";
    assert n[3..11] == "progress";
    IncludesAt(n, "progress", 3);
  }

  /** A name whose lower-cased form mentions no done word and mentions "progress" is in progress. */
  lemma InProgressClassified(s: string, n: string)
    requires Lower(s) == n
    requires !Contains(n, "완료", false) && !Contains(n, "done", false) && !Contains(n, "closed", false)
    requires Contains(n, "progress", false)
    ensures Classify(Some(s)) == InProgress
  {
    assert !IncludesAny(n, DONE_WORDS);
    assert IncludesAny(n, PROGRESS_WORDS) by {
      assert PROGRESS_WORDS[1] == "progress";
    }
  }
}
