/**
 * The last three steps of the storage-format rewrite: whitespace runs
 * collapsed to one space, whitespace alone between tags removed, and the
 * result trimmed.
 */
module Whitespace {
  import opened Text

  /** The end of the run of whitespace that starts at `i` (the first non-whitespace index, or `|s|`). */
  function SkipWs(s: string, i: nat): (e: nat)
    requires i <= |s|
    ensures i <= e <= |s|
    ensures forall k | i <= k < e :: IsWs(s[k])
    ensures e == |s| || !IsWs(s[e])
    decreases |s| - i
  {
    if i == |s| || !IsWs(s[i]) then i else SkipWs(s, i + 1)
  }

  /** The start of the run of whitespace that ends at `j` (scanning backwards). */
  function SkipWsBack(s: string, j: nat): (b: nat)
    requires j <= |s|
    ensures b <= j
    ensures forall k | b <= k < j :: IsWs(s[k])
    ensures b == 0 || !IsWs(s[b - 1])
  {
    if j == 0 || !IsWs(s[j - 1]) then j else SkipWsBack(s, j - 1)
  }

  /** `s.trim()`: the slice of `s` without its leading and trailing whitespace. */
  function Trim(s: string): (r: string)
    ensures r == [] || (!IsWs(r[0]) && !IsWs(r[|r| - 1]))
    ensures exists a, b | 0 <= a <= b <= |s| :: r == s[a..b]
    ensures (forall k | 0 <= k < |s| :: IsWs(s[k])) <==> r == []
  {
    var a := SkipWs(s, 0);
    var b := SkipWsBack(s, |s|);
    if a >= b then
      assert forall k | 0 <= k < |s| :: IsWs(s[k]) by {
        forall k | 0 <= k < |s| ensures IsWs(s[k]) {
          if k >= b { } else { assert k < a; }
        }
      }
      assert s[0..0] == [];
      []
    else
      assert !IsWs(s[a]);
      s[a..b]
  }

  /** The first whitespace pass: every maximal run of whitespace becomes one space. */
  function CollapseWs(s: string): (r: string)
    ensures s == [] <==> r == []
    ensures s != [] ==> (IsWs(r[0]) <==> IsWs(s[0]))
    decreases |s|
  {
    if s == [] then []
    else if IsWs(s[0]) then [' '] + CollapseWs(s[SkipWs(s, 0)..])
    else [s[0]] + CollapseWs(s[1..])
  }

  /** The end of a gap (a `>`, whitespace, a `<`) that starts at index 0, if there is one. */
  function GapAtStart(s: string): (e: Base.Option<nat>)
    ensures e.Some? ==> 1 < e.value < |s| && s[0] == '>' && s[e.value] == '<'
    ensures e.Some? ==> forall k | 1 <= k < e.value :: IsWs(s[k])
  {
    if |s| >= 3 && s[0] == '>' then
      var e := SkipWs(s, 1);
      if 1 < e < |s| && s[e] == '<' then Base.Some(e) else Base.None
    else Base.None
  }

  /** The second whitespace pass: whitespace standing alone between a `>` and a `<` is removed. */
  function CloseTagGaps(s: string): (r: string)
    ensures s == [] <==> r == []
    ensures s != [] ==> r[0] == s[0]
    decreases |s|
  {
    if s == [] then []
    else
      match GapAtStart(s)
      case Some(e) => "><" + CloseTagGaps(s[e + 1..])
      case None => [s[0]] + CloseTagGaps(s[1..])
  }

  /** The whole final step: collapse, close tag gaps, trim. */
  function Normalize(s: string): string {
    Trim(CloseTagGaps(CollapseWs(s)))
  }

  // ---------------------------------------------------------------------------
  // The properties of the output

  /** No two whitespace characters stand next to each other. */
  predicate NoDoubleWs(s: string) {
    forall k | 0 <= k < |s| - 1 :: !(IsWs(s[k]) && IsWs(s[k + 1]))
  }

  /** No single whitespace character stands between a `>` and a `<`. */
  predicate NoTagGap(s: string) {
    forall k | 0 <= k < |s| - 2 :: !(s[k] == '>' && IsWs(s[k + 1]) && s[k + 2] == '<')
  }

  /** The only whitespace character left is the plain space. */
  predicate OnlySpaces(s: string) {
    forall k | 0 <= k < |s| :: IsWs(s[k]) ==> s[k] == ' '
  }

  /** No leading or trailing whitespace. */
  predicate Trimmed(s: string) {
    s == [] || (!IsWs(s[0]) && !IsWs(s[|s| - 1]))
  }

  predicate Normalized(s: string) {
    NoDoubleWs(s) && NoTagGap(s) && OnlySpaces(s) && Trimmed(s)
  }

  /** Between a `>` and a later `<` there is never whitespace alone. */
  predicate NoWsBetweenTags(s: string) {
    forall i, j | 0 <= i && i + 1 < j < |s| && s[i] == '>' && s[j] == '<' ::
      exists k | i < k < j :: !IsWs(s[k])
  }

  /** The characters of `s` that are not whitespace, in order: what the final step must not touch. */
  function NonWs(s: string): (r: string)
    ensures |r| <= |s|
  {
    if s == [] then [] else (if IsWs(s[0]) then [] else [s[0]]) + NonWs(s[1..])
  }

  lemma {:induction false} NonWsAppend(a: string, b: string)
    ensures NonWs(a + b) == NonWs(a) + NonWs(b)
    decreases |a|
  {
    if a == [] {
      assert a + b == b;
    } else {
      var ab := a + b;
      assert ab[0] == a[0];
      assert ab[1..] == a[1..] + b;
      NonWsAppend(a[1..], b);
      assert NonWs(ab) == (if IsWs(a[0]) then [] else [a[0]]) + NonWs(a[1..] + b);
    }
  }

  lemma {:induction false} NonWsOfWhitespace(a: string)
    requires forall k | 0 <= k < |a| :: IsWs(a[k])
    ensures NonWs(a) == []
    decreases |a|
  {
    if a != [] {
      NonWsOfWhitespace(a[1..]);
    }
  }

  /** `NonWs` of `s` split at `i` and `j`, with only whitespace between them. */
  lemma NonWsSkipping(s: string, i: nat, j: nat)
    requires i <= j <= |s|
    requires forall k | i <= k < j :: IsWs(s[k])
    ensures NonWs(s) == NonWs(s[..i]) + NonWs(s[j..])
  {
    NonWsSplit(s, i);
    var t := s[i..];
    forall k | 0 <= k < j - i ensures IsWs(t[k]) {
      assert t[k] == s[i + k];
    }
    NonWsWhitespacePrefix(t, j - i);
    assert t[j - i..] == s[j..];
  }

  /** `NonWs` of `s` is `NonWs` of its two halves at `i`, joined. */
  lemma NonWsSplit(s: string, i: nat)
    requires i <= |s|
    ensures NonWs(s) == NonWs(s[..i]) + NonWs(s[i..])
  {
    assert s == s[..i] + s[i..];
    NonWsAppend(s[..i], s[i..]);
  }

  /** A leading run of `n` whitespace characters adds nothing to `NonWs`. */
  lemma NonWsWhitespacePrefix(t: string, n: nat)
    requires n <= |t|
    requires forall k | 0 <= k < n :: IsWs(t[k])
    ensures NonWs(t) == NonWs(t[n..])
  {
    var mid := t[..n];
    assert forall k | 0 <= k < |mid| :: mid[k] == t[k];
    NonWsOfWhitespace(mid);
    NonWsSplit(t, n);
  }

  // ---------------------------------------------------------------------------
  // Collapse

  /** Collapsing leaves no two whitespace characters side by side, only plain spaces, and every other character in order. */
  lemma {:induction false} CollapseWsProperties(s: string)
    ensures NoDoubleWs(CollapseWs(s))
    ensures OnlySpaces(CollapseWs(s))
    ensures NonWs(CollapseWs(s)) == NonWs(s)
    decreases |s|
  {
    if s != [] {
      var r := CollapseWs(s);
      if IsWs(s[0]) {
        var e := SkipWs(s, 0);
        var t := s[e..];
        CollapseWsProperties(t);
        assert r == [' '] + CollapseWs(t);
        assert t != [] ==> !IsWs(t[0]);
        NonWsSkipping(s, 0, e);
        assert s[..0] == [];
        NonWsAppend([' '], CollapseWs(t));
      } else {
        CollapseWsProperties(s[1..]);
        assert r == [s[0]] + CollapseWs(s[1..]);
        NonWsAppend([s[0]], CollapseWs(s[1..]));
        assert s == [s[0]] + s[1..];
        NonWsAppend([s[0]], s[1..]);
      }
    }
  }

  // ---------------------------------------------------------------------------
  // Tag gaps

  lemma NoDoubleWsTail(s: string, n: nat)
    requires NoDoubleWs(s) && n <= |s|
    ensures NoDoubleWs(s[n..])
  {
    forall k | 0 <= k < |s[n..]| - 1 ensures !(IsWs(s[n..][k]) && IsWs(s[n..][k + 1])) {
      assert s[n..][k] == s[n + k] && s[n..][k + 1] == s[n + k + 1];
    }
  }

  lemma OnlySpacesTail(s: string, n: nat)
    requires OnlySpaces(s) && n <= |s|
    ensures OnlySpaces(s[n..])
  {
    forall k | 0 <= k < |s[n..]| ensures IsWs(s[n..][k]) ==> s[n..][k] == ' ' {
      assert s[n..][k] == s[n + k];
    }
  }

  /** A gap contributes its `>` and its `<` and nothing else. */
  lemma GapNonWs(s: string, e: nat)
    requires GapAtStart(s) == Base.Some(e)
    ensures NonWs(s) == "><" + NonWs(s[e + 1..])
    ensures NonWs("><") == "><"
  {
    var t := s[e + 1..];
    NonWsSkipping(s, 1, e);
    assert s[..1] == ['>'];
    assert s[e..] == ['<'] + t;
    NonWsAppend(['<'], t);
    assert "><" == ['>'] + ['<'];
    NonWsAppend(['>'], ['<']);
  }

  /** Removing the gaps keeps every non-whitespace character in order. */
  lemma {:induction false} CloseTagGapsKeepsNonWs(s: string)
    ensures NonWs(CloseTagGaps(s)) == NonWs(s)
    decreases |s|
  {
    if s != [] {
      var r := CloseTagGaps(s);
      match GapAtStart(s)
      case Some(e) =>
        var t := s[e + 1..];
        CloseTagGapsKeepsNonWs(t);
        assert r == "><" + CloseTagGaps(t);
        GapNonWs(s, e);
        NonWsAppend("><", CloseTagGaps(t));
      case None =>
        var t := s[1..];
        var g := CloseTagGaps(t);
        CloseTagGapsKeepsNonWs(t);
        assert r == [s[0]] + g;
        NonWsAppend([s[0]], g);
        assert s == [s[0]] + t;
        NonWsAppend([s[0]], t);
    }
  }

  /** Removing the gaps only deletes characters, so plain spaces stay the only whitespace. */
  lemma {:induction false} CloseTagGapsKeepsOnlySpaces(s: string)
    requires OnlySpaces(s)
    ensures OnlySpaces(CloseTagGaps(s))
    decreases |s|
  {
    if s != [] {
      var r := CloseTagGaps(s);
      match GapAtStart(s)
      case Some(e) =>
        OnlySpacesTail(s, e + 1);
        CloseTagGapsKeepsOnlySpaces(s[e + 1..]);
        var g := CloseTagGaps(s[e + 1..]);
        assert r == "><" + g;
        assert forall k | 2 <= k < |r| :: r[k] == g[k - 2];
      case None =>
        OnlySpacesTail(s, 1);
        CloseTagGapsKeepsOnlySpaces(s[1..]);
        var g := CloseTagGaps(s[1..]);
        assert r == [s[0]] + g;
        assert forall k | 1 <= k < |r| :: r[k] == g[k - 1];
    }
  }

  /** On text without double whitespace, removing the gaps leaves none behind and creates no double whitespace. */
  lemma {:induction false} CloseTagGapsClosesAll(s: string)
    requires NoDoubleWs(s)
    ensures NoDoubleWs(CloseTagGaps(s)) && NoTagGap(CloseTagGaps(s))
    decreases |s|
  {
    if s != [] {
      var r := CloseTagGaps(s);
      match GapAtStart(s)
      case Some(e) =>
        NoDoubleWsTail(s, e + 1);
        CloseTagGapsClosesAll(s[e + 1..]);
        var g := CloseTagGaps(s[e + 1..]);
        assert r == "><" + g;
        assert forall k | 2 <= k < |r| :: r[k] == g[k - 2];
      case None =>
        NoDoubleWsTail(s, 1);
        CloseTagGapsClosesAll(s[1..]);
        CopiedHeadKeepsClosed(s);
    }
  }

  /** A text that does not start with a gap keeps its first character, and the closed rest stays closed behind it. */
  lemma CopiedHeadKeepsClosed(s: string)
    requires s != [] && NoDoubleWs(s) && GapAtStart(s).None?
    requires NoDoubleWs(CloseTagGaps(s[1..])) && NoTagGap(CloseTagGaps(s[1..]))
    ensures NoDoubleWs(CloseTagGaps(s)) && NoTagGap(CloseTagGaps(s))
  {
    var t := s[1..];
    var g := CloseTagGaps(t);
    assert CloseTagGaps(s) == [s[0]] + g;
    if |s| >= 2 {
      assert g[0] == s[1];
    }
    if |s| >= 3 && IsWs(s[1]) {
      // s[1] is whitespace and cannot start a gap, so it is copied and followed by s[2]
      assert GapAtStart(t).None?;
      assert g == [t[0]] + CloseTagGaps(t[1..]);
      assert t[1..] == s[2..];
      assert g[1] == s[2];
      assert !IsWs(s[2]);
    }
    ConsNoDoubleWs(s[0], g);
    ConsNoTagGap(s[0], g);
  }

  lemma ConsNoDoubleWs(c: char, g: string)
    requires NoDoubleWs(g) && (|g| > 0 ==> !(IsWs(c) && IsWs(g[0])))
    ensures NoDoubleWs([c] + g)
  {
    var r := [c] + g;
    assert forall k | 1 <= k < |r| :: r[k] == g[k - 1];
  }

  lemma ConsNoTagGap(c: char, g: string)
    requires NoTagGap(g) && (|g| > 1 ==> !(c == '>' && IsWs(g[0]) && g[1] == '<'))
    ensures NoTagGap([c] + g)
  {
    var r := [c] + g;
    assert forall k | 1 <= k < |r| :: r[k] == g[k - 1];
  }

  // ---------------------------------------------------------------------------
  // Trim

  lemma SliceKeepsProperties(s: string, a: nat, b: nat)
    requires a <= b <= |s|
    ensures NoDoubleWs(s) ==> NoDoubleWs(s[a..b])
    ensures NoTagGap(s) ==> NoTagGap(s[a..b])
    ensures OnlySpaces(s) ==> OnlySpaces(s[a..b])
  {
    var t := s[a..b];
    assert forall k | 0 <= k < |t| :: t[k] == s[a + k];
  }

  lemma TrimKeepsNonWs(s: string)
    ensures NonWs(Trim(s)) == NonWs(s)
  {
    var a := SkipWs(s, 0);
    var b := SkipWsBack(s, |s|);
    if a >= b {
      NonWsOfWhitespace(s);
    } else {
      assert Trim(s) == s[a..b];
      assert NonWs(s[..a]) == [] by {
        var w := s[..a];
        assert forall k | 0 <= k < |w| :: w[k] == s[k];
        NonWsOfWhitespace(w);
      }
      assert NonWs(s[b..]) == [] by {
        var w := s[b..];
        assert forall k | 0 <= k < |w| :: w[k] == s[b + k];
        NonWsOfWhitespace(w);
      }
      NonWsInner(s, a, b);
    }
  }

  /** A slice whose surroundings hold no non-whitespace character keeps all of them. */
  lemma NonWsInner(s: string, a: nat, b: nat)
    requires a <= b <= |s|
    requires NonWs(s[..a]) == [] && NonWs(s[b..]) == []
    ensures NonWs(s[a..b]) == NonWs(s)
  {
    NonWsSplit(s, a);
    NonWsDropTail(s, a, b);
  }

  /** Dropping from `s[a..]` a tail with no non-whitespace character keeps all of them. */
  lemma NonWsDropTail(s: string, a: nat, b: nat)
    requires a <= b <= |s|
    requires NonWs(s[b..]) == []
    ensures NonWs(s[a..]) == NonWs(s[a..b])
  {
    var u := s[a..];
    NonWsSplit(u, b - a);
    assert u[b - a..] == s[b..];
    assert u[..b - a] == s[a..b];
  }

  // ---------------------------------------------------------------------------
  // The whole step

  /**
   * The final step's guarantees: no run of two whitespace characters, none
   * between `>` and `<`, only plain spaces, no leading or trailing whitespace,
   * and every other character kept in order.
   */
  lemma NormalizeProperties(s: string)
    ensures Normalized(Normalize(s))
    ensures NoWsBetweenTags(Normalize(s))
    ensures NonWs(Normalize(s)) == NonWs(s)
  {
    var c := CollapseWs(s);
    var g := CloseTagGaps(c);
    CollapseWsProperties(s);
    CloseTagGapsKeepsNonWs(c);
    CloseTagGapsKeepsOnlySpaces(c);
    CloseTagGapsClosesAll(c);
    var r := Trim(g);
    var a, b :| 0 <= a <= b <= |g| && r == g[a..b];
    SliceKeepsProperties(g, a, b);
    TrimKeepsNonWs(g);
    NormalizedHasNoWsBetweenTags(r);
  }

  lemma NormalizedHasNoWsBetweenTags(s: string)
    requires NoDoubleWs(s) && NoTagGap(s)
    ensures NoWsBetweenTags(s)
  {
    forall i, j | 0 <= i && i + 1 < j < |s| && s[i] == '>' && s[j] == '<'
      ensures exists k | i < k < j :: !IsWs(s[k])
    {
      if !IsWs(s[i + 1]) {
      } else if j == i + 2 {
        assert false;
      } else {
        assert !IsWs(s[i + 2]);
      }
    }
  }

  // ---------------------------------------------------------------------------
  // Idempotence

  lemma {:induction false} CollapseWsFixesNormalized(s: string)
    requires NoDoubleWs(s) && OnlySpaces(s)
    ensures CollapseWs(s) == s
    decreases |s|
  {
    if s != [] {
      NoDoubleWsTail(s, 1);
      OnlySpacesTail(s, 1);
      if IsWs(s[0]) {
        assert SkipWs(s, 0) == 1 by {
          assert |s| > 1 ==> !IsWs(s[1]);
        }
      }
      CollapseWsFixesNormalized(s[1..]);
    }
  }

  lemma {:induction false} CloseTagGapsFixesNormalized(s: string)
    requires NoDoubleWs(s) && NoTagGap(s)
    ensures CloseTagGaps(s) == s
    decreases |s|
  {
    if s != [] {
      NoGapWhenNormalized(s);
      NoDoubleWsTail(s, 1);
      assert NoTagGap(s[1..]) by {
        SliceKeepsProperties(s, 1, |s|);
      }
      CloseTagGapsFixesNormalized(s[1..]);
    }
  }

  lemma NoGapWhenNormalized(s: string)
    requires NoDoubleWs(s) && NoTagGap(s)
    ensures GapAtStart(s).None?
  {
    if |s| >= 3 && s[0] == '>' {
      if IsWs(s[1]) {
        assert !IsWs(s[2]);
        assert SkipWs(s, 2) == 2;
        assert SkipWs(s, 1) == 2;
      } else {
        assert SkipWs(s, 1) == 1;
      }
    }
  }

  lemma TrimFixesTrimmed(s: string)
    requires Trimmed(s)
    ensures Trim(s) == s
  {
    if s != [] {
      assert SkipWs(s, 0) == 0;
      assert SkipWsBack(s, |s|) == |s|;
    }
  }

  /** Normalising a second time changes nothing. */
  lemma NormalizeIdempotent(s: string)
    ensures Normalize(Normalize(s)) == Normalize(s)
  {
    var r := Normalize(s);
    NormalizeProperties(s);
    CollapseWsFixesNormalized(r);
    CloseTagGapsFixesNormalized(r);
    TrimFixesTrimmed(r);
  }
}
