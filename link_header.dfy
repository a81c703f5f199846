/**
 * The ad-hoc reading of a GitHub `Link` response header that both GitHub
 * collectors use: the first match of the regular expression
 * `page=(\d+)>; rel="last"`, whose digits `parseInt` turns into the number of
 * the last page (with `per_page: 1`, the number of items). This is not a
 * parser for the Link header field of RFC 8288, section 3.
 */
module LinkHeader {
  import opened Common

  const PagePrefix: string := "page="
  const LastSuffix: string := ">; rel=\"last\""

  /** The first index at or after `k` that does not hold a digit: where the greedy `\d+` stops. */
  function DigitRunEnd(h: string, k: nat): (j: nat)
    requires k <= |h|
    ensures k <= j <= |h|
    ensures AllDigits(h[k..j])
    ensures j < |h| ==> !IsDigit(h[j])
    decreases |h| - k
  {
    if k < |h| && IsDigit(h[k]) then DigitRunEnd(h, k + 1) else k
  }

  /**
   * The regular expression matches at index `i`. A shorter run of digits
   * cannot be followed by `>`, so backtracking from the greedy run never helps.
   */
  predicate MatchesAt(h: string, i: nat) {
    i + |PagePrefix| <= |h| && h[i..i + |PagePrefix|] == PagePrefix &&
    var j := DigitRunEnd(h, i + |PagePrefix|);
    j > i + |PagePrefix| && StartsWith(h[j..], LastSuffix)
  }

  /** The number captured by a match at `i`. */
  function Captured(h: string, i: nat): nat
    requires MatchesAt(h, i)
  {
    DecimalValue(h[i + |PagePrefix|..DigitRunEnd(h, i + |PagePrefix|)])
  }

  /** `h.match(/page=(\d+)>; rel="last"/)` searched from index `i`: the leftmost match, if any. */
  function LastPageFrom(h: string, i: nat): (r: Option<nat>)
    ensures r.None? <==> forall k :: i <= k < |h| ==> !MatchesAt(h, k)
    ensures r.Some? ==> exists k :: i <= k < |h| && MatchesAt(h, k) && r.value == Captured(h, k) &&
                                    forall k' :: i <= k' < k ==> !MatchesAt(h, k')
    decreases |h| - i
  {
    if i >= |h| then None
    else if MatchesAt(h, i) then Some(Captured(h, i))
    else LastPageFrom(h, i + 1)
  }

  function LastPage(h: string): Option<nat> {
    LastPageFrom(h, 0)
  }

  lemma {:induction false} DigitRunEndPrefix(p: string, s: string, k: nat)
    requires k <= |p|
    requires s == [] || !IsDigit(s[0])
    ensures DigitRunEnd(p + s, k) == DigitRunEnd(p, k)
    decreases |p| - k
  {
    if k < |p| && IsDigit(p[k]) {
      DigitRunEndPrefix(p, s, k + 1);
    }
  }

  /** A match that starts inside `p` cannot use the text `page=...` that follows `p`. */
  lemma MatchInPrefix(p: string, s: string, i: nat)
    requires StartsWith(s, PagePrefix)
    requires i < |p| && MatchesAt(p + s, i)
    ensures MatchesAt(p, i)
  {
    var h := p + s;
    var n := |PagePrefix|;
    assert h[|p|] == 'p';
    assert i + n <= |p|;
    var j := DigitRunEnd(h, i + n);
    assert j <= |p|;
    assert j < |p|;
    assert j + |LastSuffix| <= |p|;
    assert p[i..i + n] == h[i..i + n];
    DigitRunEndPrefix(p, s, i + n);
    assert p[j..][..|LastSuffix|] == h[j..][..|LastSuffix|];
  }

  /**
   * The last-page link is found when nothing before it matches: a header
   * `p + "page=" + N + ">; rel=\"last\"" + q` reads as N.
   */
  lemma LastPageRoundTrip(p: string, n: nat, q: string)
    requires forall k :: 0 <= k < |p| ==> !MatchesAt(p, k)
    ensures LastPage(p + PagePrefix + Decimal(n) + LastSuffix + q) == Some(n)
  {
    var d := Decimal(n);
    var a := p + PagePrefix;
    var t := LastSuffix + q;
    var h := a + d + t;
    Regroup(p, d, q);
    NoMatchBefore(p, PagePrefix + d + t);
    MatchesAfter(a, d, t);
    DecimalRoundTrip(n);
    LeftmostIs(h, |p|);
  }

  lemma Regroup(p: string, d: string, q: string)
    ensures (p + PagePrefix) + d + (LastSuffix + q) == p + (PagePrefix + d + (LastSuffix + q))
    ensures (p + PagePrefix) + d + (LastSuffix + q) == p + PagePrefix + d + LastSuffix + q
  {
  }

  lemma NoMatchBefore(p: string, s: string)
    requires StartsWith(s, PagePrefix)
    requires forall k :: 0 <= k < |p| ==> !MatchesAt(p, k)
    ensures forall k :: 0 <= k < |p| ==> !MatchesAt(p + s, k)
  {
    forall k | 0 <= k < |p| ensures !MatchesAt(p + s, k) {
      if MatchesAt(p + s, k) {
        MatchInPrefix(p, s, k);
      }
    }
  }

  /** In `a + d + t` with `a` ending in `page=`, `d` all digits and `t` the suffix, the match at `|a| - 5` captures `d`. */
  lemma MatchesAfter(a: string, d: string, t: string)
    requires EndsWith(a, PagePrefix) && |d| >= 1 && AllDigits(d) && StartsWith(t, LastSuffix)
    ensures MatchesAt(a + d + t, |a| - |PagePrefix|)
    ensures Captured(a + d + t, |a| - |PagePrefix|) == DecimalValue(d)
  {
    PrefixBefore(a, d + t);
    assert a + (d + t) == a + d + t;
    DigitsThenSuffix(a, d, t);
    var h := a + d + t;
    assert h[|a|..|a| + |d|] == d;
  }

  lemma PrefixBefore(a: string, rest: string)
    requires EndsWith(a, PagePrefix)
    ensures (a + rest)[|a| - |PagePrefix|..|a|] == PagePrefix
  {
    assert (a + rest)[|a| - |PagePrefix|..|a|] == a[|a| - |PagePrefix|..];
  }

  lemma DigitsThenSuffix(a: string, d: string, t: string)
    requires AllDigits(d) && StartsWith(t, LastSuffix)
    ensures DigitRunEnd(a + d + t, |a|) == |a| + |d|
    ensures StartsWith((a + d + t)[|a| + |d|..], LastSuffix)
  {
    DigitRunEndPrefix(d, t, 0);
    DigitRunEndAllDigits(d, 0);
    DigitRunEndShift(a, d + t, 0);
    assert a + (d + t) == a + d + t;
    assert (a + d + t)[|a| + |d|..] == t;
  }

  lemma {:induction false} DigitRunEndFromDigits(d: string)
    requires AllDigits(d)
    ensures DigitRunEnd(d, 0) == |d|
  {
    DigitRunEndAllDigits(d, 0);
  }

  lemma {:induction false} DigitRunEndAllDigits(d: string, k: nat)
    requires k <= |d| && AllDigits(d)
    ensures DigitRunEnd(d, k) == |d|
    decreases |d| - k
  {
    if k < |d| {
      DigitRunEndAllDigits(d, k + 1);
    }
  }

  /** The digit run in `a + b` starting at `|a| + k` is the run in `b` starting at `k`, shifted. */
  lemma {:induction false} DigitRunEndShift(a: string, b: string, k: nat)
    requires k <= |b|
    ensures DigitRunEnd(a + b, |a| + k) == |a| + DigitRunEnd(b, k)
    decreases |b| - k
  {
    if k < |b| && IsDigit(b[k]) {
      assert (a + b)[|a| + k] == b[k];
      DigitRunEndShift(a, b, k + 1);
    } else if k < |b| {
      assert (a + b)[|a| + k] == b[k];
    }
  }

  /** When nothing matches before `i` and `i` matches, the search returns the match at `i`. */
  lemma {:induction false} LeftmostIs(h: string, i: nat)
    requires i < |h| && MatchesAt(h, i)
    requires forall k :: 0 <= k < i ==> !MatchesAt(h, k)
    ensures LastPageFrom(h, 0) == Some(Captured(h, i))
  {
    LeftmostFrom(h, 0, i);
  }

  lemma {:induction false} LeftmostFrom(h: string, from: nat, i: nat)
    requires from <= i < |h| && MatchesAt(h, i)
    requires forall k :: from <= k < i ==> !MatchesAt(h, k)
    ensures LastPageFrom(h, from) == Some(Captured(h, i))
    decreases i - from
  {
    if from < i {
      LeftmostFrom(h, from + 1, i);
    }
  }
}
