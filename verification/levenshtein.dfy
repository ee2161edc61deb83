/**
  levenshtein_dist: the edit distance (insertions, deletions, substitutions,
  each of cost 1) between two wide strings, computed with a single column of
  the dynamic-programming table that is overwritten in place.

  `D(s1, s2, y, x)` is the table entry the column holds: the distance between
  the first `y` characters of `s1` and the first `x` characters of `s2`, by
  the recurrence the inner loop evaluates.  The lemmas state what that table
  means: zero exactly on equal prefixes, symmetric, and bounded below by the
  length difference and above by the longer length.
*/
module Levenshtein {

  /** MIN3, evaluated in the order the macro tests its arguments. */
  function Min3(a: nat, b: nat, c: nat): (r: nat)
    ensures r <= a && r <= b && r <= c
    ensures r == a || r == b || r == c
  {
    if a < b then (if a < c then a else c) else (if b < c then b else c)
  }

  /** The cost of a substitution: 0 for equal characters, 1 otherwise. */
  function Cost(c1: char, c2: char): nat {
    if c1 == c2 then 0 else 1
  }

  /** The table entry for prefixes s1[..y] and s2[..x]. */
  function D(s1: seq<char>, s2: seq<char>, y: nat, x: nat): nat
    requires y <= |s1| && x <= |s2|
    decreases y + x
  {
    if y == 0 then x
    else if x == 0 then y
    else Min3(D(s1, s2, y, x - 1) + 1, D(s1, s2, y - 1, x) + 1, D(s1, s2, y - 1, x - 1) + Cost(s1[y - 1], s2[x - 1]))
  }

  /** The edit distance between two whole strings. */
  function Dist(s1: seq<char>, s2: seq<char>): nat {
    D(s1, s2, |s1|, |s2|)
  }

  /** levenshtein_dist.  Both strings empty is excluded: then the column's
      first entry is returned without ever having been written. */
  method LevenshteinDist(s1: seq<char>, s2: seq<char>) returns (d: nat)
    requires |s1| > 0 || |s2| > 0
    ensures d == Dist(s1, s2)
  {
    var s1len, s2len := |s1|, |s2|;
    var column := new nat[s1len + 1];
    var y := 1;
    while y <= s1len
      invariant 1 <= y <= s1len + 1
      invariant forall k {:trigger column[k]} :: 1 <= k < y ==> column[k] == D(s1, s2, k, 0)
    {
      column[y] := y;
      y := y + 1;
    }
    var x := 1;
    while x <= s2len
      invariant 1 <= x <= s2len + 1
      invariant forall k {:trigger column[k]} :: 1 <= k <= s1len ==> column[k] == D(s1, s2, k, x - 1)
      invariant x > 1 ==> column[0] == D(s1, s2, 0, x - 1)
    {
      NextColumn(column, s1, s2, x);
      x := x + 1;
    }
    d := column[s1len];
  }

  /** One pass of the outer loop: turn the column for s2[..x-1] into the
      column for s2[..x], carrying the overwritten entry along as the
      diagonal of the next row. */
  method NextColumn(column: array<nat>, s1: seq<char>, s2: seq<char>, x: nat)
    requires column.Length == |s1| + 1 && 1 <= x <= |s2|
    requires forall k {:trigger column[k]} :: 1 <= k <= |s1| ==> column[k] == D(s1, s2, k, x - 1)
    modifies column
    ensures forall k {:trigger column[k]} :: 0 <= k <= |s1| ==> column[k] == D(s1, s2, k, x)
  {
    var s1len := |s1|;
    ghost var prev := column[..];
    column[0] := x;
    var lastdiag := x - 1;
    var y := 1;
    while y <= s1len
      invariant 1 <= y <= s1len + 1
      invariant column[0] == D(s1, s2, 0, x)
      invariant forall k {:trigger column[k]} :: 1 <= k < y ==> column[k] == D(s1, s2, k, x)
      invariant forall k {:trigger column[k]} :: y <= k <= s1len ==> column[k] == prev[k]
      invariant lastdiag == D(s1, s2, y - 1, x - 1)
    {
      var olddiag := column[y];
      column[y] := Min3(column[y] + 1, column[y - 1] + 1, lastdiag + Cost(s1[y - 1], s2[x - 1]));
      lastdiag := olddiag;
      y := y + 1;
    }
  }

  /** Against an empty string the distance is the other string's length. */
  lemma DistToEmpty(s: seq<char>)
    ensures Dist(s, []) == |s| && Dist([], s) == |s|
  {
  }

  /** The distance never exceeds the longer length: substitute along the
      shorter string, then insert or delete the rest. */
  lemma {:induction false} UpperBound(s1: seq<char>, s2: seq<char>, y: nat, x: nat)
    requires y <= |s1| && x <= |s2|
    ensures D(s1, s2, y, x) <= if y < x then x else y
    decreases y + x
  {
    if y > 0 && x > 0 {
      UpperBound(s1, s2, y - 1, x - 1);
    }
  }

  /** The distance is at least the difference of the lengths: each step
      changes the length by at most one. */
  lemma {:induction false} LowerBound(s1: seq<char>, s2: seq<char>, y: nat, x: nat)
    requires y <= |s1| && x <= |s2|
    ensures D(s1, s2, y, x) >= if y < x then x - y else y - x
    decreases y + x
  {
    if y > 0 && x > 0 {
      LowerBound(s1, s2, y, x - 1);
      LowerBound(s1, s2, y - 1, x);
      LowerBound(s1, s2, y - 1, x - 1);
    }
  }

  lemma DistBounds(s1: seq<char>, s2: seq<char>)
    ensures Dist(s1, s2) <= if |s1| < |s2| then |s2| else |s1|
    ensures Dist(s1, s2) >= if |s1| < |s2| then |s2| - |s1| else |s1| - |s2|
  {
    UpperBound(s1, s2, |s1|, |s2|);
    LowerBound(s1, s2, |s1|, |s2|);
  }

  /** The table is symmetric: swapping the strings swaps the first two
      arguments of MIN3, which does not change the minimum. */
  lemma {:induction false} Symmetric(s1: seq<char>, s2: seq<char>, y: nat, x: nat)
    requires y <= |s1| && x <= |s2|
    ensures D(s1, s2, y, x) == D(s2, s1, x, y)
    decreases y + x
  {
    if y > 0 && x > 0 {
      Symmetric(s1, s2, y, x - 1);
      Symmetric(s1, s2, y - 1, x);
      Symmetric(s1, s2, y - 1, x - 1);
    }
  }

  lemma DistSymmetric(s1: seq<char>, s2: seq<char>)
    ensures Dist(s1, s2) == Dist(s2, s1)
  {
    Symmetric(s1, s2, |s1|, |s2|);
  }

  /** An entry is zero exactly when the two prefixes are equal. */
  lemma {:induction false} ZeroIffEqual(s1: seq<char>, s2: seq<char>, y: nat, x: nat)
    requires y <= |s1| && x <= |s2|
    ensures D(s1, s2, y, x) == 0 <==> s1[..y] == s2[..x]
    decreases y + x
  {
    if y > 0 && x > 0 {
      ZeroIffEqual(s1, s2, y - 1, x - 1);
      var p1, p2 := s1[..y], s2[..x];
      assert p1 == s1[..y - 1] + [s1[y - 1]];
      assert p2 == s2[..x - 1] + [s2[x - 1]];
      if p1 == p2 {
        assert s1[..y - 1] == p1[..y - 1] && s2[..x - 1] == p2[..x - 1];
        assert s1[y - 1] == p1[y - 1] && s2[x - 1] == p2[x - 1];
      }
    } else if y > 0 || x > 0 {
      assert |s1[..y]| != |s2[..x]|;
    }
  }

  /** The distance is zero exactly for equal strings; in particular
      dist(s, s) == 0. */
  lemma DistZeroIffEqual(s1: seq<char>, s2: seq<char>)
    ensures Dist(s1, s2) == 0 <==> s1 == s2
  {
    ZeroIffEqual(s1, s2, |s1|, |s2|);
    assert s1[..|s1|] == s1 && s2[..|s2|] == s2;
  }
}
