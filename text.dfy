/**
 * Character classes and substring search on strings, as JavaScript's regular
 * expressions and `String.prototype.includes` see them.
 */
module Text {
  import opened Base

  /** The ECMAScript `\s` class, which is also the set `String.prototype.trim` removes. */
  predicate IsWs(c: char) {
    || c == '\t' || c == '\n' || c == '\U{000B}' || c == '\U{000C}' || c == '\r' || c == ' '
    || c == '\U{00A0}' || c == '\U{1680}' || ('\U{2000}' <= c <= '\U{200A}')
    || c == '\U{2028}' || c == '\U{2029}' || c == '\U{202F}' || c == '\U{205F}'
    || c == '\U{3000}' || c == '\U{FEFF}'
  }

  /** ASCII lower-casing of one character; every other character is left as it is. */
  function LowerChar(c: char): (d: char)
    ensures 'A' <= c <= 'Z' ==> d as int == c as int + 32
    ensures !('A' <= c <= 'Z') ==> d == c
  {
    if 'A' <= c <= 'Z' then (c as int + 32) as char else c
  }

  /**
   * Lower-casing leaves no ASCII capital, is idempotent, and maps two
   * characters alike exactly when they are equal or an ASCII case pair.
   */
  lemma LowerCharFolds(c: char, d: char)
    ensures !('A' <= LowerChar(c) <= 'Z') && LowerChar(LowerChar(c)) == LowerChar(c)
    ensures LowerChar(c) == LowerChar(d) <==> c == d || UpperChar(c) == d || UpperChar(d) == c
  {
  }

  /** ASCII upper-casing of one character. */
  function UpperChar(c: char): (d: char)
    ensures 'a' <= c <= 'z' ==> d as int == c as int - 32
    ensures !('a' <= c <= 'z') ==> d == c
  {
    if 'a' <= c <= 'z' then (c as int - 32) as char else c
  }

  function Lower(s: string): (r: string)
    ensures |r| == |s| && forall k | 0 <= k < |s| :: r[k] == LowerChar(s[k])
  {
    seq(|s|, k requires 0 <= k < |s| => LowerChar(s[k]))
  }

  function Upper(s: string): (r: string)
    ensures |r| == |s| && forall k | 0 <= k < |s| :: r[k] == UpperChar(s[k])
  {
    seq(|s|, k requires 0 <= k < |s| => UpperChar(s[k]))
  }

  /** Lower-casing forgets a prior upper-casing: the two spellings compare equal case-insensitively. */
  lemma LowerOfUpper(s: string)
    ensures Lower(Upper(s)) == Lower(s)
  {
    forall k | 0 <= k < |s| ensures Lower(Upper(s))[k] == Lower(s)[k] {
      var c := s[k];
      if 'a' <= c <= 'z' {
        assert UpperChar(c) as int == c as int - 32;
      }
    }
  }

  /**
   * The pattern `p` occurs in `s` at index `i`; when `ci` holds, as a regular
   * expression with the `i` flag compares: ASCII letters without regard to case
   * (without the `u` flag no other character folds onto an ASCII letter).
   */
  predicate LitAt(s: string, i: nat, p: string, ci: bool) {
    i + |p| <= |s| && SameFrom(s, i, p, ci, 0)
  }

  /** Two characters compare equal, without regard to ASCII case when `ci` holds. */
  predicate SameChar(a: char, b: char, ci: bool) {
    if ci then LowerChar(a) == LowerChar(b) else a == b
  }

  /** `s` from index `i` agrees with `p` on the characters from index `k` of `p` on. */
  predicate SameFrom(s: string, i: nat, p: string, ci: bool, k: nat)
    requires i + |p| <= |s| && k <= |p|
    decreases |p| - k
  {
    k == |p| || (SameChar(s[i + k], p[k], ci) && SameFrom(s, i, p, ci, k + 1))
  }

  lemma {:induction false} SameFromChars(s: string, i: nat, p: string, ci: bool, k: nat)
    requires i + |p| <= |s| && k <= |p|
    ensures SameFrom(s, i, p, ci, k) <==> forall m | k <= m < |p| :: SameChar(s[i + m], p[m], ci)
    decreases |p| - k
  {
    if k < |p| {
      SameFromChars(s, i, p, ci, k + 1);
    }
  }

  /** An occurrence, character by character. */
  lemma LitAtChars(s: string, i: nat, p: string, ci: bool)
    ensures LitAt(s, i, p, ci) <==> i + |p| <= |s| && forall m | 0 <= m < |p| :: SameChar(s[i + m], p[m], ci)
  {
    if i + |p| <= |s| {
      SameFromChars(s, i, p, ci, 0);
    }
  }

  /** Compared exactly, an occurrence is an equal slice. */
  lemma LitAtExact(s: string, i: nat, p: string)
    ensures LitAt(s, i, p, false) <==> i + |p| <= |s| && s[i..i + |p|] == p
  {
    LitAtChars(s, i, p, false);
    if i + |p| <= |s| && !LitAt(s, i, p, false) {
      var k :| 0 <= k < |p| && s[i + k] != p[k];
      assert s[i..i + |p|][k] != p[k];
    }
  }

  /** The first index at or after `from` where `s` holds `c`. */
  function IndexOf(s: string, c: char, from: nat): (r: Option<nat>)
    requires from <= |s|
    ensures r.Some? ==> from <= r.value < |s| && s[r.value] == c
    decreases |s| - from
  {
    if from == |s| then None else if s[from] == c then Some(from) else IndexOf(s, c, from + 1)
  }

  /** `IndexOf` finds the first occurrence, and finds nothing only when there is none. */
  lemma {:induction false} IndexOfFirst(s: string, c: char, from: nat)
    requires from <= |s|
    ensures IndexOf(s, c, from).Some? ==> forall j | from <= j < IndexOf(s, c, from).value :: s[j] != c
    ensures IndexOf(s, c, from).None? ==> forall j | from <= j < |s| :: s[j] != c
    decreases |s| - from
  {
    if from < |s| && s[from] != c {
      IndexOfFirst(s, c, from + 1);
    }
  }

  /** The first index at or after `from` where `p` occurs in `s`. */
  function Find(s: string, p: string, ci: bool, from: nat): (r: Option<nat>)
    requires from <= |s|
    ensures r.Some? ==> from <= r.value && LitAt(s, r.value, p, ci)
    decreases |s| - from
  {
    if from + |p| > |s| then None
    else if LitAt(s, from, p, ci) then Some(from)
    else if from == |s| then None
    else Find(s, p, ci, from + 1)
  }

  /** `Find` finds the leftmost occurrence, and finds nothing only when there is none. */
  lemma {:induction false} FindFirst(s: string, p: string, ci: bool, from: nat)
    requires from <= |s|
    ensures Find(s, p, ci, from).Some? ==> forall j | from <= j < Find(s, p, ci, from).value :: !LitAt(s, j, p, ci)
    ensures Find(s, p, ci, from).None? ==> forall j | from <= j :: !LitAt(s, j, p, ci)
    decreases |s| - from
  {
    if from + |p| <= |s| && !LitAt(s, from, p, ci) && from < |s| {
      FindFirst(s, p, ci, from + 1);
    }
  }

  /** `p` occurs somewhere in `s`. */
  predicate Contains(s: string, p: string, ci: bool) {
    Find(s, p, ci, 0).Some?
  }

  /** `s.includes(p)`: `p` occurs in `s` at some index, compared exactly. */
  lemma IncludesAt(s: string, p: string, i: nat)
    requires i + |p| <= |s| && s[i..i + |p|] == p
    ensures Contains(s, p, false)
  {
    LitAtExact(s, i, p);
    FindFirst(s, p, false, 0);
  }

  /** Every occurrence of a longer pattern contains the occurrences of its inner part. */
  lemma ContainsInner(s: string, p: string, a: nat, b: nat)
    requires a <= b <= |p|
    requires Contains(s, p, false)
    ensures Contains(s, p[a..b], false)
  {
    var i := Find(s, p, false, 0).value;
    LitAtExact(s, i, p);
    assert s[i + a..i + b] == s[i..i + |p|][a..b];
    IncludesAt(s, p[a..b], i + a);
  }

  /** One differing character rules an occurrence out. */
  lemma NotLitAt(s: string, i: nat, p: string, ci: bool, k: nat)
    requires k < |p| && i + k < |s| && !SameChar(s[i + k], p[k], ci)
    ensures !LitAt(s, i, p, ci)
  {
    LitAtChars(s, i, p, ci);
  }

  /** A text one of whose pattern characters it does not hold, in either case when case is ignored, holds no occurrence. */
  lemma NoOccurrence(s: string, p: string, ci: bool, k: nat)
    requires k < |p|
    requires p[k] !in s
    requires ci ==> UpperChar(p[k]) !in s && LowerChar(p[k]) !in s
    ensures forall i :: !LitAt(s, i, p, ci)
  {
    forall i: nat | i + |p| <= |s| ensures !LitAt(s, i, p, ci) {
      assert s[i + k] in s;
      NotLitAt(s, i, p, ci, k);
    }
  }

  /** A text missing one character of the pattern does not contain it. */
  lemma NotContains(s: string, p: string, k: nat)
    requires k < |p| && p[k] !in s
    ensures !Contains(s, p, false)
  {
    NoOccurrence(s, p, false, k);
  }
}
