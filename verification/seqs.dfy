/** Sums, means and prefixes of sequences, in the order in which
    the source's loops and `reduce` calls visit them. */
module Seqs {

  /** Left-to-right running total, as `for (i = 0; i < len; i++) sum += a[i]`
      and `a.reduce((x, y) => x + y, 0)` compute it. */
  function Sum(s: seq<real>): real
    decreases |s|
  {
    if |s| == 0 then 0.0 else Sum(s[..|s| - 1]) + s[|s| - 1]
  }

  /** The total read from the front: the first value plus the total of the
      rest. */
  lemma {:induction false} SumCons(s: seq<real>)
    requires |s| > 0
    ensures Sum(s) == s[0] + Sum(s[1..])
    decreases |s|
  {
    if |s| > 1 {
      var n := |s| - 1;
      SumCons(s[..n]);
      assert s[..n][1..] == s[1..][..n - 1];
    }
  }

  /** Every element lies in [lo, hi], so the total lies in [n*lo, n*hi]. */
  lemma {:induction false} SumBounds(s: seq<real>, lo: real, hi: real)
    requires forall i :: 0 <= i < |s| ==> lo <= s[i] <= hi
    ensures |s| as real * lo <= Sum(s) <= |s| as real * hi
    decreases |s|
  {
    if |s| > 0 {
      var m := (|s| - 1) as real;
      SumBounds(s[..|s| - 1], lo, hi);
      assert m * lo + lo == |s| as real * lo;
      assert m * hi + hi == |s| as real * hi;
    }
  }

  /** Arithmetic mean of a non-empty series. */
  function Mean(s: seq<real>): (m: real)
    requires |s| > 0
    ensures m * |s| as real == Sum(s)
  {
    Sum(s) / |s| as real
  }

  /** The mean of values that all lie in [lo, hi] lies in [lo, hi]. */
  lemma MeanBetween(s: seq<real>, lo: real, hi: real)
    requires |s| > 0
    requires forall i :: 0 <= i < |s| ==> lo <= s[i] <= hi
    ensures lo <= Mean(s) <= hi
  {
    SumBounds(s, lo, hi);
    var n := |s| as real;
    assert n * lo <= Sum(s) <= n * hi;
    assert Sum(s) / n >= lo by {
      assert Sum(s) / n * n == Sum(s);
    }
    assert Sum(s) / n <= hi by {
      assert Sum(s) / n * n == Sum(s);
    }
  }

  /** Values all below `hi` total less than |s| copies of `hi`. */
  lemma {:induction false} SumBelow(s: seq<real>, hi: real)
    requires |s| > 0
    requires forall i :: 0 <= i < |s| ==> s[i] < hi
    ensures Sum(s) < |s| as real * hi
    decreases |s|
  {
    var m := (|s| - 1) as real;
    if |s| > 1 {
      SumBelow(s[..|s| - 1], hi);
    }
    assert m * hi + hi == |s| as real * hi;
  }

  /** Values all at least `lo` total at least |s| copies of `lo`. */
  lemma {:induction false} SumAtLeast(s: seq<real>, lo: real)
    requires forall i :: 0 <= i < |s| ==> lo <= s[i]
    ensures |s| as real * lo <= Sum(s)
    decreases |s|
  {
    if |s| > 0 {
      var m := (|s| - 1) as real;
      SumAtLeast(s[..|s| - 1], lo);
      assert m * lo + lo == |s| as real * lo;
    }
  }

  /** A mean of at least `x` needs some value of at least `x`, and values
      all of at least `x` give such a mean. */
  lemma MeanAtLeast(s: seq<real>, x: real)
    requires |s| > 0
    ensures Mean(s) >= x ==> exists i :: 0 <= i < |s| && s[i] >= x
    ensures (forall i :: 0 <= i < |s| ==> s[i] >= x) ==> Mean(s) >= x
  {
    var n := |s| as real;
    assert Mean(s) * n == Sum(s);
    if forall i :: 0 <= i < |s| ==> s[i] < x {
      SumBelow(s, x);
    }
    if forall i :: 0 <= i < |s| ==> s[i] >= x {
      SumAtLeast(s, x);
    }
  }

  function Min(a: int, b: int): int { if a <= b then a else b }

  /** `s.slice(0, n)` for n >= 0. */
  function Take<T>(s: seq<T>, n: nat): (r: seq<T>)
    ensures |r| == Min(n, |s|)
    ensures r == s[..|r|]
  {
    if |s| <= n then s else s[..n]
  }
}
