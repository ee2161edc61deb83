/**
  jaro_winkler_dist: the Jaro similarity of two wide strings, raised by the
  Winkler bonus for a common prefix of up to four characters.

  The integer part is modelled exactly: the match window, the greedy
  flagging of matching characters (`MatchPass`, one position of `s2` per
  step), the match count `m`, the transposition count `t` (the k-th matched
  character of `s2` against the k-th matched character of `s1`) and the
  prefix count `l`.  The two formulas are evaluated in `real`, without the
  rounding of `double`.
*/
module JaroWinkler {

  /** The half-width of the match window: MAX(0, MAX(s1l, s2l) / 2 - 1). */
  function Range(n1: nat, n2: nat): (r: nat)
    ensures var longer := if n1 > n2 then n1 else n2;
      (r == 0 <==> longer < 4) && (r > 0 ==> 2 * r + 2 <= longer < 2 * r + 4)
  {
    var longer := if n1 > n2 then n1 else n2;
    if 0 > longer / 2 - 1 then 0 else longer / 2 - 1
  }

  /** First position of s1 that s2[i] may match: MAX(i - range, 0). */
  function Lo(i: nat, range: nat): (lo: nat)
    ensures lo <= i && i - lo <= range
    ensures lo > 0 ==> i - lo == range
  {
    if i - range > 0 then i - range else 0
  }

  /** One past the last position of s1 that s2[i] may match: MIN(i + range + 1, s1l). */
  function Hi(i: nat, range: nat, n1: nat): (hi: nat)
    ensures hi <= n1 && hi <= i + range + 1
    ensures hi == n1 || hi == i + range + 1
  {
    if i + range + 1 < n1 then i + range + 1 else n1
  }

  /** The number of raised flags among the first `n`. */
  function Count(f: seq<bool>, n: nat): (c: nat)
    requires n <= |f|
    ensures c <= n
  {
    if n == 0 then 0 else Count(f, n - 1) + (if f[n - 1] then 1 else 0)
  }

  /** The characters of s[..n] whose flag is raised, in order. */
  function Matched(s: seq<char>, f: seq<bool>, n: nat): (r: seq<char>)
    requires n <= |s| && n <= |f|
    ensures |r| == Count(f, n)
  {
    if n == 0 then [] else Matched(s, f, n - 1) + (if f[n - 1] then [s[n - 1]] else [])
  }

  /** The positions k < n where `a` and `b` differ. */
  function Mismatches(a: seq<char>, b: seq<char>, n: nat): (c: nat)
    requires n <= |a| && n <= |b|
    ensures c <= n
  {
    if n == 0 then 0 else Mismatches(a, b, n - 1) + (if a[n - 1] != b[n - 1] then 1 else 0)
  }

  /** The inner matching loop: the first position in [j, hi) holding `c`
      whose flag is still down, or `hi` when there is none. */
  function FirstFree(s1: seq<char>, c: char, f1: seq<bool>, j: nat, hi: nat): (r: nat)
    requires |f1| == |s1| && hi <= |s1|
    ensures r == hi || (j <= r < hi && s1[r] == c && !f1[r])
    ensures forall k :: j <= k < hi && k < r ==> s1[k] != c || f1[k]
    decreases hi - j
  {
    if j >= hi then hi
    else if s1[j] == c && !f1[j] then j
    else FirstFree(s1, c, f1, j + 1, hi)
  }

  lemma CountAllDown(f: seq<bool>, n: nat)
    requires n <= |f|
    requires forall k :: 0 <= k < |f| ==> !f[k]
    ensures Count(f, n) == 0
  {
  }

  /** Raising a flag that was down adds one to every count that covers it. */
  lemma {:induction false} CountRaise(f: seq<bool>, k: nat, n: nat)
    requires k < n <= |f| && !f[k]
    ensures Count(f[k := true], n) == Count(f, n) + 1
    decreases n
  {
    if n - 1 != k {
      CountRaise(f, k, n - 1);
    } else {
      CountSame(f, f[k := true], n - 1);
    }
  }

  lemma {:induction false} CountSame(f: seq<bool>, g: seq<bool>, n: nat)
    requires n <= |f| && n <= |g|
    requires forall k :: 0 <= k < n ==> f[k] == g[k]
    ensures Count(f, n) == Count(g, n)
    decreases n
  {
    if n > 0 {
      CountSame(f, g, n - 1);
    }
  }

  /** The matching rule for s2[i]: with no position of s1 in the window that
      holds s2[i] with its flag down, the flags `r` are the flags `f`;
      otherwise exactly the first such position j and i are flagged. */
  predicate FlagsFirstFree(s1: seq<char>, s2: seq<char>, range: nat, i: nat, f: (seq<bool>, seq<bool>), r: (seq<bool>, seq<bool>))
    requires i < |s2| && |f.0| == |s1| && |f.1| == |s2|
  {
    var lo, hi := Lo(i, range), Hi(i, range, |s1|);
    || (r == f && forall k :: lo <= k < hi ==> s1[k] != s2[i] || f.0[k])
    || (exists j :: lo <= j < hi && s1[j] == s2[i] && !f.0[j] &&
                    (forall k :: lo <= k < j ==> s1[k] != s2[i] || f.0[k]) &&
                    r == (f.0[j := true], f.1[i := true]))
  }

  /** One pass of the matching loop, for s2[i]: the first free matching
      position of s1 in the window gets its flag raised, together with the
      flag of i; with no such position nothing changes. */
  function MatchStep(s1: seq<char>, s2: seq<char>, range: nat, i: nat, f: (seq<bool>, seq<bool>)): (r: (seq<bool>, seq<bool>))
    requires i < |s2| && |f.0| == |s1| && |f.1| == |s2| && !f.1[i]
    ensures |r.0| == |s1| && |r.1| == |s2|
    ensures r == f || (r.1 == f.1[i := true] && Count(r.0, |s1|) == Count(f.0, |s1|) + 1 && Count(r.1, |s2|) == Count(f.1, |s2|) + 1)
    ensures FlagsFirstFree(s1, s2, range, i, f, r)
  {
    var hi := Hi(i, range, |s1|);
    var j := FirstFree(s1, s2[i], f.0, Lo(i, range), hi);
    if j < hi then
      CountRaise(f.0, j, |s1|);
      CountRaise(f.1, i, |s2|);
      (f.0[j := true], f.1[i := true])
    else
      f
  }

  /** The flags after the matching loop has handled s2[..n]. */
  function MatchPass(s1: seq<char>, s2: seq<char>, range: nat, n: nat): (r: (seq<bool>, seq<bool>))
    requires n <= |s2|
    ensures |r.0| == |s1| && |r.1| == |s2|
    ensures forall k :: n <= k < |s2| ==> !r.1[k]
    ensures Count(r.0, |s1|) == Count(r.1, |s2|)
    decreases n
  {
    if n == 0 then
      var f1, f2 := seq(|s1|, _ => false), seq(|s2|, _ => false);
      CountAllDown(f1, |s1|);
      CountAllDown(f2, |s2|);
      (f1, f2)
    else
      MatchStep(s1, s2, range, n - 1, MatchPass(s1, s2, range, n - 1))
  }

  /** The flags the matching loop leaves behind. */
  function Flags(s1: seq<char>, s2: seq<char>): (seq<bool>, seq<bool>) {
    MatchPass(s1, s2, Range(|s1|, |s2|), |s2|)
  }

  /** m: the number of matched characters, the same on both sides. */
  function Matches(s1: seq<char>, s2: seq<char>): (m: nat)
    ensures m == Count(Flags(s1, s2).0, |s1|)
    ensures m <= |s1| && m <= |s2|
  {
    Count(Flags(s1, s2).1, |s2|)
  }

  /** The k-th matched character of s2 compared with the k-th matched
      character of s1, for every k < m: the number that differ. */
  function RawTranspositions(s1: seq<char>, s2: seq<char>): (n: nat)
    ensures n <= Matches(s1, s2)
  {
    var f := Flags(s1, s2);
    Mismatches(Matched(s2, f.1, |s2|), Matched(s1, f.0, |s1|), Count(f.1, |s2|))
  }

  /** t: half the mismatches, rounded down. */
  function Transpositions(s1: seq<char>, s2: seq<char>): (t: nat)
    ensures 2 * t <= Matches(s1, s2)
  {
    RawTranspositions(s1, s2) / 2
  }

  /** The positions i < n at which the strings agree; a mismatch does not
      stop the count. */
  function CommonPrefix(s1: seq<char>, s2: seq<char>, n: nat): (c: nat)
    requires n <= |s1| && n <= |s2|
    ensures c <= n
  {
    if n == 0 then 0 else CommonPrefix(s1, s2, n - 1) + (if s1[n - 1] == s2[n - 1] then 1 else 0)
  }

  /** MIN(MIN(s1l, s2l), 4). */
  function PrefixLimit(n1: nat, n2: nat): nat {
    var shorter := if n1 < n2 then n1 else n2;
    if shorter < 4 then shorter else 4
  }

  /** l: agreeing positions among the first four, at most 4. */
  function PrefixCount(s1: seq<char>, s2: seq<char>): (l: nat)
    ensures l <= 4
  {
    CommonPrefix(s1, s2, PrefixLimit(|s1|, |s2|))
  }

  /** The Jaro similarity for m > 0. */
  function Jaro(n1: nat, n2: nat, m: nat, t: nat): real
    requires 0 < m <= n1 && m <= n2
  {
    ((m as real / n1 as real) + (m as real / n2 as real) + ((m - t) as real / m as real)) / 3.0
  }

  /** The Winkler bonus: the prefix count times the scaling factor, applied
      to the distance still missing from 1. */
  function Winkler(dw: real, l: nat, scaling: real): real {
    dw + (l as real * scaling * (1.0 - dw))
  }

  /** The value jaro_winkler_dist returns. */
  function JaroWinkler(s1: seq<char>, s2: seq<char>, scaling: real): real {
    if |s1| == 0 || |s2| == 0 then 0.0
    else
      var m := Matches(s1, s2);
      if m == 0 then 0.0
      else
        Winkler(Jaro(|s1|, |s2|, m, Transpositions(s1, s2)), PrefixCount(s1, s2), scaling)
  }

  /** jaro_winkler_dist with an explicit scaling factor. */
  method JaroWinklerDist(s1: seq<char>, s2: seq<char>, scaling: real) returns (dw: real)
    ensures dw == JaroWinkler(s1, s2, scaling)
  {
    var s1l, s2l := |s1|, |s2|;
    var range := Range(s1l, s2l);
    if s1l == 0 || s2l == 0 {
      return 0.0;
    }
    var s1flags := new bool[s1l];
    var s2flags := new bool[s2l];
    ClearFlags(s2flags);
    ClearFlags(s1flags);

    var m := MarkMatches(s1, s2, range, s1flags, s2flags);
    assert m == Matches(s1, s2);
    if m == 0 {
      return 0.0;
    }
    var t := CountMismatches(s1, s2, s1flags, s2flags);
    assert t == RawTranspositions(s1, s2);
    t := t / 2;

    // Jaro distance
    dw := Jaro(s1l, s2l, m, t);

    // common prefix up to four characters
    var l := CountPrefix(s1, s2);

    // Jaro-Winkler distance
    dw := Winkler(dw, l, scaling);
  }

  /** The loops that put every flag down. */
  method ClearFlags(flags: array<bool>)
    modifies flags
    ensures flags[..] == seq(flags.Length, _ => false)
  {
    var i := 0;
    while i < flags.Length
      invariant 0 <= i <= flags.Length
      invariant forall k :: 0 <= k < i ==> !flags[k]
    {
      flags[i] := false;
      i := i + 1;
    }
  }

  /** The prefix loop: agreeing positions among the first MIN(MIN(s1l, s2l), 4). */
  method CountPrefix(s1: seq<char>, s2: seq<char>) returns (l: nat)
    ensures l == PrefixCount(s1, s2)
  {
    l := 0;
    var i := 0;
    while i < PrefixLimit(|s1|, |s2|)
      invariant 0 <= i <= PrefixLimit(|s1|, |s2|)
      invariant l == CommonPrefix(s1, s2, i)
    {
      if s1[i] == s2[i] {
        l := l + 1;
      }
      i := i + 1;
    }
  }

  /** The matching loop over s2, on flag arrays that start all down: it
      leaves the flags of MatchPass and returns their count m. */
  method MarkMatches(s1: seq<char>, s2: seq<char>, range: nat, s1flags: array<bool>, s2flags: array<bool>) returns (m: nat)
    requires s1flags != s2flags
    requires s1flags[..] == seq(|s1|, _ => false) && s2flags[..] == seq(|s2|, _ => false)
    modifies s1flags, s2flags
    ensures (s1flags[..], s2flags[..]) == MatchPass(s1, s2, range, |s2|)
    ensures m == Count(s2flags[..], |s2|)
  {
    CountAllDown(s2flags[..], |s2|);
    m := 0;
    var i := 0;
    while i < |s2|
      invariant 0 <= i <= |s2|
      invariant (s1flags[..], s2flags[..]) == MatchPass(s1, s2, range, i)
      invariant m == Count(s2flags[..], |s2|)
    {
      m := MatchPosition(s1, s2, range, i, s1flags, s2flags, m);
      i := i + 1;
    }
  }

  /** The inner matching loop for s2[i]: scan the window, and at the first
      free matching position raise both flags, count the match and stop. */
  method MatchPosition(s1: seq<char>, s2: seq<char>, range: nat, i: nat, s1flags: array<bool>, s2flags: array<bool>, m: nat)
    returns (m': nat)
    requires s1flags != s2flags && s1flags.Length == |s1| && s2flags.Length == |s2|
    requires i < |s2| && !s2flags[i]
    modifies s1flags, s2flags
    ensures (s1flags[..], s2flags[..]) == MatchStep(s1, s2, range, i, (old(s1flags[..]), old(s2flags[..])))
    ensures m' == m + (if s2flags[i] then 1 else 0)
  {
    m' := m;
    ghost var f1 := s1flags[..];
    var j, l := Lo(i, range), Hi(i, range, |s1|);
    while j < l
      invariant Lo(i, range) <= j && (j == Lo(i, range) || j <= l)
      invariant s1flags[..] == f1 && s2flags[..] == old(s2flags[..])
      invariant FirstFree(s1, s2[i], f1, j, l) == FirstFree(s1, s2[i], f1, Lo(i, range), l)
    {
      if s2[i] == s1[j] && !s1flags[j] {
        s1flags[j] := true;
        s2flags[i] := true;
        m' := m' + 1;
        break;
      }
      j := j + 1;
    }
  }

  /** The transposition loop without the final halving: walk the raised
      flags of s2 and, for each, the next raised flag of s1, counting the
      pairs whose characters differ. */
  method CountMismatches(s1: seq<char>, s2: seq<char>, s1flags: array<bool>, s2flags: array<bool>) returns (t: nat)
    requires s1flags.Length == |s1| && s2flags.Length == |s2|
    requires Count(s1flags[..], |s1|) == Count(s2flags[..], |s2|)
    ensures t == Mismatches(Matched(s2, s2flags[..], |s2|), Matched(s1, s1flags[..], |s1|), Count(s2flags[..], |s2|))
  {
    var s1l, s2l := |s1|, |s2|;
    ghost var f1, f2 := s1flags[..], s2flags[..];
    ghost var matched1, matched2 := Matched(s1, f1, s1l), Matched(s2, f2, s2l);
    t := 0;
    var l := 0;
    var i := 0;
    while i < s2l
      invariant 0 <= i <= s2l && 0 <= l <= s1l
      invariant Count(f1, l) == Count(f2, i) <= Count(f2, s2l)
      invariant t == Mismatches(matched2, matched1, Count(f2, i))
    {
      if s2flags[i] {
        CountMonotone(f2, i + 1, s2l);
        var j := NextFlagged(s1flags, l);
        l := j + 1;
        MatchedAt(s1, f1, s1l, j);
        MatchedAt(s2, f2, s2l, i);
        if s2[i] != s1[j] {
          t := t + 1;
        }
      }
      CountMonotone(f2, i + 1, s2l);
      i := i + 1;
    }
  }

  /** The inner transposition loop: the first raised flag at or after
      `from`.  One exists whenever fewer flags are raised before `from`
      than in the whole array, so the search never runs off the end. */
  method NextFlagged(flags: array<bool>, from: nat) returns (j: nat)
    requires from <= flags.Length && Count(flags[..], from) < Count(flags[..], flags.Length)
    ensures from <= j < flags.Length && flags[j]
    ensures Count(flags[..], j) == Count(flags[..], from)
  {
    j := from;
    while j < flags.Length
      invariant from <= j <= flags.Length
      invariant Count(flags[..], j) == Count(flags[..], from)
    {
      if flags[j] {
        return;
      }
      j := j + 1;
    }
  }

  /** The two-argument jaro_winkler_dist: scaling factor 0.1. */
  method JaroWinklerDistDefault(s1: seq<char>, s2: seq<char>) returns (dw: real)
    ensures dw == JaroWinkler(s1, s2, 0.1)
  {
    dw := JaroWinklerDist(s1, s2, 0.1);
  }

  lemma {:induction false} CountMonotone(f: seq<bool>, i: nat, n: nat)
    requires i <= n <= |f|
    ensures Count(f, i) <= Count(f, n)
    decreases n - i
  {
    if i < n {
      CountMonotone(f, i, n - 1);
    }
  }

  /** The k-th raised flag of f[..n] (k counted from 0) carries the k-th
      character of Matched. */
  lemma {:induction false} MatchedAt(s: seq<char>, f: seq<bool>, n: nat, i: nat)
    requires i < n <= |s| && n <= |f| && f[i]
    ensures Count(f, i) < Count(f, n)
    ensures Matched(s, f, n)[Count(f, i)] == s[i]
    decreases n
  {
    if i < n - 1 {
      MatchedAt(s, f, n - 1, i);
    }
  }

  lemma {:induction false} MismatchesSelf(a: seq<char>, n: nat)
    requires n <= |a|
    ensures Mismatches(a, a, n) == 0
    decreases n
  {
    if n > 0 {
      MismatchesSelf(a, n - 1);
    }
  }

  lemma RatioInUnit(p: nat, q: nat)
    requires 0 < q && p <= q
    ensures 0.0 <= p as real / q as real <= 1.0
  {
    assert (p as real / q as real) * q as real == p as real;
  }

  /** With at most half the matches transposed, the Jaro similarity lies in
      [0, 1]. */
  lemma JaroInUnit(n1: nat, n2: nat, m: nat, t: nat)
    requires 0 < m <= n1 && m <= n2 && 2 * t <= m
    ensures 0.0 <= Jaro(n1, n2, m, t) <= 1.0
  {
    RatioInUnit(m, n1);
    RatioInUnit(m, n2);
    RatioInUnit(m - t, m);
  }

  /** The Winkler bonus keeps a similarity in [0, 1] as long as four times
      the scaling factor stays at most 1. */
  lemma WinklerInUnit(dw: real, l: nat, scaling: real)
    requires 0.0 <= dw <= 1.0 && l <= 4 && 0.0 <= scaling <= 0.25
    ensures dw <= Winkler(dw, l, scaling) <= 1.0
  {
    var k := l as real * scaling;
    MulNonNegative(l as real, scaling);
    MulNonNegative(4.0 - l as real, scaling);
    assert 0.0 <= k <= 1.0;
    MulNonNegative(k, 1.0 - dw);
    MulNonNegative(1.0 - k, 1.0 - dw);
  }

  lemma MulNonNegative(a: real, b: real)
    requires 0.0 <= a && 0.0 <= b
    ensures 0.0 <= a * b
  {
  }

  /** For a scaling factor in [0, 0.25] the result is a similarity in [0, 1]. */
  lemma UnitInterval(s1: seq<char>, s2: seq<char>, scaling: real)
    requires 0.0 <= scaling <= 0.25
    ensures 0.0 <= JaroWinkler(s1, s2, scaling) <= 1.0
  {
    if |s1| > 0 && |s2| > 0 && Matches(s1, s2) > 0 {
      var dw := Jaro(|s1|, |s2|, Matches(s1, s2), Transpositions(s1, s2));
      JaroInUnit(|s1|, |s2|, Matches(s1, s2), Transpositions(s1, s2));
      WinklerInUnit(dw, PrefixCount(s1, s2), scaling);
    }
  }

  /** Flags raised on exactly the first n positions. */
  function Raised(len: nat, n: nat): seq<bool> {
    seq(len, k => k < n)
  }

  lemma {:induction false} FirstFreeAt(s1: seq<char>, c: char, f1: seq<bool>, j: nat, hi: nat, r: nat)
    requires |f1| == |s1| && hi <= |s1|
    requires j <= r < hi && s1[r] == c && !f1[r]
    requires forall k :: j <= k < r ==> f1[k]
    ensures FirstFree(s1, c, f1, j, hi) == r
    decreases r - j
  {
    if j < r {
      FirstFreeAt(s1, c, f1, j + 1, hi, r);
    }
  }

  /** Against itself, with the flags of s[..i] raised, s2[i] finds s1[i]. */
  lemma MatchStepSelf(s: seq<char>, range: nat, i: nat)
    requires i < |s|
    ensures MatchStep(s, s, range, i, (Raised(|s|, i), Raised(|s|, i))) == (Raised(|s|, i + 1), Raised(|s|, i + 1))
  {
    var f := Raised(|s|, i);
    var lo, hi := Lo(i, range), Hi(i, range, |s|);
    FirstFreeAt(s, s[i], f, lo, hi, i);
    assert f[i := true] == Raised(|s|, i + 1);
  }

  /** Matching a string against itself: position i of s2 always finds
      position i of s1, since everything before it in the window is taken. */
  lemma {:induction false} MatchPassSelf(s: seq<char>, range: nat, n: nat)
    requires n <= |s|
    ensures MatchPass(s, s, range, n) == (Raised(|s|, n), Raised(|s|, n))
    decreases n
  {
    if n > 0 {
      MatchPassSelf(s, range, n - 1);
      MatchStepSelf(s, range, n - 1);
    } else {
      assert Raised(|s|, 0) == seq(|s|, _ => false);
    }
  }

  lemma {:induction false} CountRaised(len: nat, n: nat)
    requires n <= len
    ensures Count(Raised(len, len), n) == n
    decreases n
  {
    if n > 0 {
      CountRaised(len, n - 1);
    }
  }

  /** A non-empty string compared with itself scores exactly 1, whatever
      the scaling factor. */
  lemma IdenticalIsOne(s: seq<char>, scaling: real)
    requires |s| > 0
    ensures JaroWinkler(s, s, scaling) == 1.0
  {
    var n := |s|;
    MatchPassSelf(s, Range(n, n), n);
    CountRaised(n, n);
    var f := Raised(n, n);
    assert Flags(s, s) == (f, f);
    MismatchesSelf(Matched(s, f, n), n);
    assert Matches(s, s) == n;
    assert RawTranspositions(s, s) == 0;
    JaroAllMatched(n);
    assert JaroWinkler(s, s, scaling) == Winkler(1.0, PrefixCount(s, s), scaling);
  }

  lemma JaroAllMatched(n: nat)
    requires n > 0
    ensures Jaro(n, n, n, 0) == 1.0
  {
    assert n as real / n as real == 1.0;
  }
}
