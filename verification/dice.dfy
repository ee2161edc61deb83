/**
  dice_coeff: the Dice coefficient of two wide strings over their sets of
  bigrams (two-character substrings): twice the number of shared bigrams
  over the total number of bigrams in the two sets.

  The division is left undone: the result is the numerator and the
  denominator as the source computes them.  The denominator is 0 exactly
  when both strings have one character, and the source then divides 0 by 0
  without a guard; `Quotient(0, 0)` exposes that case.
*/
module Dice {

  /** What dice_coeff computes: the early 0 for an empty argument, or the
      two integers whose quotient it returns. */
  datatype Coefficient = Zero | Quotient(num: nat, den: nat)

  /** s.substr(k, 2) for a position k before the last. */
  function BigramAt(s: seq<char>, k: nat): seq<char>
    requires k + 2 <= |s|
  {
    s[k..k + 2]
  }

  /** The bigrams starting before position n. */
  function BigramsUpTo(s: seq<char>, n: nat): set<seq<char>>
    requires n < |s|
  {
    set k | 0 <= k < n :: BigramAt(s, k)
  }

  /** Adding a position adds its bigram, and at most one element. */
  lemma BigramsStep(s: seq<char>, n: nat)
    requires n + 1 < |s|
    ensures BigramsUpTo(s, n + 1) == BigramsUpTo(s, n) + {BigramAt(s, n)}
  {
  }

  /** At most one bigram per position. */
  lemma {:induction false} BigramsUpToSize(s: seq<char>, n: nat)
    requires n < |s|
    ensures |BigramsUpTo(s, n)| <= n
    decreases n
  {
    if n > 0 {
      BigramsUpToSize(s, n - 1);
      BigramsStep(s, n - 1);
    } else {
      assert BigramsUpTo(s, 0) == {};
    }
  }

  /** The bigram set of a non-empty string: one per position but the last. */
  function Bigrams(s: seq<char>): (r: set<seq<char>>)
    requires |s| > 0
    ensures |r| <= |s| - 1
    ensures r == {} <==> |s| == 1
  {
    BigramsUpToSize(s, |s| - 1);
    assert |s| >= 2 ==> BigramAt(s, 0) in BigramsUpTo(s, |s| - 1);
    BigramsUpTo(s, |s| - 1)
  }

  /** The value dice_coeff returns, before the division. */
  function Dice(s1: seq<char>, s2: seq<char>): Coefficient {
    if |s1| == 0 || |s2| == 0 then Zero
    else
      var b1, b2 := Bigrams(s1), Bigrams(s2);
      Quotient(|b1 * b2| * 2, |b1| + |b2|)
  }

  /** dice_coeff. */
  method DiceCoeff(s1: seq<char>, s2: seq<char>) returns (r: Coefficient)
    ensures r == Dice(s1, s2)
  {
    if |s1| == 0 || |s2| == 0 {
      return Zero;
    }
    var s1bi := BigramSet(s1);
    var s2bi := BigramSet(s2);
    var intersection := CountShared(s1bi, s2bi);
    r := Quotient(intersection * 2, |s1bi| + |s2bi|);
  }

  /** The iterator loop over s2bi, adding s1bi.count of each element (0 or
      1): the number of shared bigrams.  The elements are taken in no
      particular order, which a sum does not notice. */
  method CountShared(s1bi: set<seq<char>>, s2bi: set<seq<char>>) returns (intersection: nat)
    ensures intersection == |s1bi * s2bi|
  {
    intersection := 0;
    var rest := s2bi;
    ghost var done: set<seq<char>> := {};
    while rest != {}
      invariant done + rest == s2bi && done !! rest
      invariant intersection == |s1bi * done|
      decreases |rest|
    {
      var b :| b in rest;
      SharedStep(s1bi, done, b);
      intersection := intersection + (if b in s1bi then 1 else 0);
      rest := rest - {b};
      done := done + {b};
    }
    assert done == s2bi;
  }

  lemma SharedStep<T>(a: set<T>, done: set<T>, b: T)
    requires b !in done
    ensures |a * (done + {b})| == |a * done| + (if b in a then 1 else 0)
  {
    if b in a {
      assert a * (done + {b}) == a * done + {b};
    } else {
      assert a * (done + {b}) == a * done;
    }
  }

  /** The loop that inserts every bigram of a non-empty string. */
  method BigramSet(s: seq<char>) returns (bi: set<seq<char>>)
    requires |s| > 0
    ensures bi == Bigrams(s)
  {
    bi := {};
    var i := 0;
    assert BigramsUpTo(s, 0) == {};
    while i < |s| - 1
      invariant 0 <= i <= |s| - 1
      invariant bi == BigramsUpTo(s, i)
    {
      BigramsStep(s, i);
      bi := bi + {s[i..i + 2]};
      i := i + 1;
    }
  }

  lemma {:induction false} SubsetSize<T>(a: set<T>, b: set<T>)
    requires a <= b
    ensures |a| <= |b|
    decreases |a|
  {
    if a != {} {
      var x :| x in a;
      SubsetSize(a - {x}, b - {x});
    }
  }

  /** The shared bigrams are at most the bigrams of either side, so the
      coefficient never exceeds 1. */
  lemma NumeratorAtMostDenominator(s1: seq<char>, s2: seq<char>)
    requires |s1| > 0 && |s2| > 0
    ensures Dice(s1, s2).num <= Dice(s1, s2).den
  {
    var b1, b2 := Bigrams(s1), Bigrams(s2);
    SubsetSize(b1 * b2, b1);
    SubsetSize(b1 * b2, b2);
  }

  /** Both numerator and denominator are symmetric in the two strings. */
  lemma Symmetric(s1: seq<char>, s2: seq<char>)
    ensures Dice(s1, s2) == Dice(s2, s1)
  {
    if |s1| > 0 && |s2| > 0 {
      assert Bigrams(s1) * Bigrams(s2) == Bigrams(s2) * Bigrams(s1);
    }
  }

  /** A string of two or more characters has a bigram, and compared with
      itself shares every one of them: numerator equals denominator. */
  lemma IdenticalIsOne(s: seq<char>)
    requires |s| >= 2
    ensures Dice(s, s).num == Dice(s, s).den > 0
  {
    var b := Bigrams(s);
    assert b * b == b;
  }

  /** The denominator is 0 exactly when both strings have one character;
      the source divides by it unguarded. */
  lemma ZeroDenominator(s1: seq<char>, s2: seq<char>)
    requires |s1| > 0 && |s2| > 0
    ensures Dice(s1, s2).den == 0 <==> |s1| == 1 && |s2| == 1
    ensures |s1| == 1 && |s2| == 1 ==> Dice(s1, s2) == Quotient(0, 0)
  {
  }
}
