/**
 * Arithmetic shared by the three batch commands: sums of real vectors,
 * category-set Jaccard overlap, dot products and the Cauchy-Schwarz bound
 * that keeps the colour cosine inside [-1, 1].
 */
module Numeric {

  /** Sum of a vector, accumulated left to right as a loop would. */
  function Sum(s: seq<real>): real
  {
    if s == [] then 0.0 else Sum(s[..|s| - 1]) + s[|s| - 1]
  }

  /** `s / c` element-wise (numpy's vector division by a scalar). */
  function Divide(s: seq<real>, c: real): (r: seq<real>)
    requires c != 0.0
    ensures |r| == |s|
    ensures forall i :: 0 <= i < |s| ==> r[i] == s[i] / c
  {
    seq(|s|, i requires 0 <= i < |s| => s[i] / c)
  }

  predicate AllNonNegative(s: seq<real>)
  {
    forall i :: 0 <= i < |s| ==> 0.0 <= s[i]
  }

  predicate AllZero(s: seq<real>)
  {
    forall i :: 0 <= i < |s| ==> s[i] == 0.0
  }

  predicate AllPositive(s: seq<real>)
  {
    forall i :: 0 <= i < |s| ==> 0.0 < s[i]
  }

  /** Dividing every entry by c divides the sum by c. */
  lemma {:induction false} SumDivide(s: seq<real>, c: real)
    requires c != 0.0
    ensures Sum(Divide(s, c)) == Sum(s) / c
  {
    if s != [] {
      var n := |s|;
      assert Divide(s, c)[..n - 1] == Divide(s[..n - 1], c);
      SumDivide(s[..n - 1], c);
      assert Sum(Divide(s, c)) == Sum(s[..n - 1]) / c + s[n - 1] / c;
    }
  }

  /** A vector divided by its own (non-zero) sum sums to 1. */
  lemma DivideBySumIsOne(s: seq<real>)
    requires Sum(s) != 0.0
    ensures Sum(Divide(s, Sum(s))) == 1.0
  {
    SumDivide(s, Sum(s));
    assert Sum(s) / Sum(s) == 1.0;
  }

  lemma {:induction false} SumNonNegative(s: seq<real>)
    requires AllNonNegative(s)
    ensures 0.0 <= Sum(s)
  {
    if s != [] {
      SumNonNegative(s[..|s| - 1]);
    }
  }

  /** An all-zero vector sums to 0. */
  lemma {:induction false} SumOfZeros(s: seq<real>)
    requires AllZero(s)
    ensures Sum(s) == 0.0
  {
    if s != [] {
      SumOfZeros(s[..|s| - 1]);
    }
  }

  /** A non-negative vector whose sum is 0 is all zero. */
  lemma {:induction false} SumZeroMeansAllZero(s: seq<real>)
    requires AllNonNegative(s) && Sum(s) == 0.0
    ensures AllZero(s)
  {
    if s != [] {
      SumNonNegative(s[..|s| - 1]);
      SumZeroMeansAllZero(s[..|s| - 1]);
    }
  }

  /** Every entry of a non-negative vector is at most its sum. */
  lemma {:induction false} EntryAtMostSum(s: seq<real>, k: int)
    requires AllNonNegative(s) && 0 <= k < |s|
    ensures s[k] <= Sum(s)
  {
    SumNonNegative(s[..|s| - 1]);
    if k < |s| - 1 {
      EntryAtMostSum(s[..|s| - 1], k);
    }
  }

  /** A vector whose entries all exceed `lo` sums to more than |s| * lo. */
  lemma {:induction false} SumAtLeast(s: seq<real>, lo: real)
    requires forall i :: 0 <= i < |s| ==> lo <= s[i]
    ensures |s| as real * lo <= Sum(s)
  {
    if s != [] {
      SumAtLeast(s[..|s| - 1], lo);
    }
  }

  /** The largest of a non-empty list of counts. */
  function MaxCount(counts: seq<int>): (r: int)
    requires |counts| > 0
    ensures forall i :: 0 <= i < |counts| ==> counts[i] <= r
    ensures exists i :: 0 <= i < |counts| && counts[i] == r
  {
    if |counts| == 1 then counts[0]
    else
      var rest := MaxCount(counts[..|counts| - 1]);
      var last := counts[|counts| - 1];
      assert forall i :: 0 <= i < |counts| - 1 ==> counts[..|counts| - 1][i] == counts[i];
      if last > rest then last else rest
  }

  /** The smallest of a non-empty list of counts. */
  function MinCount(counts: seq<int>): (r: int)
    requires |counts| > 0
    ensures forall i :: 0 <= i < |counts| ==> r <= counts[i]
    ensures exists i :: 0 <= i < |counts| && counts[i] == r
  {
    if |counts| == 1 then counts[0]
    else
      var rest := MinCount(counts[..|counts| - 1]);
      var last := counts[|counts| - 1];
      assert forall i :: 0 <= i < |counts| - 1 ==> counts[..|counts| - 1][i] == counts[i];
      if last < rest then last else rest
  }

  /**
   * Jaccard overlap |a ∩ b| / |a ∪ b|, 0 when the union is empty.
   * Both commands that use it only call it on two non-empty sets.
   */
  function Jaccard(a: set<int>, b: set<int>): (r: real)
    ensures 0.0 <= r <= 1.0
  {
    IntersectionAtMostUnion(a, b);
    if |a + b| == 0 then 0.0 else (|a * b| as real) / (|a + b| as real)
  }

  lemma IntersectionAtMostUnion(a: set<int>, b: set<int>)
    ensures |a * b| <= |a + b|
  {
    SubsetAtMost(a * b, a + b);
  }

  lemma SubsetAtMost(x: set<int>, y: set<int>)
    requires x <= y
    ensures |x| <= |y|
    ensures x != y ==> |x| < |y|
  {
    assert y == x + (y - x);
    assert x * (y - x) == {};
    if x != y {
      assert y - x != {};
    }
  }

  /** Jaccard overlap does not depend on the order of its arguments. */
  lemma JaccardSymmetric(a: set<int>, b: set<int>)
    ensures Jaccard(a, b) == Jaccard(b, a)
  {
    assert a * b == b * a && a + b == b + a;
  }

  /** Jaccard is 0 exactly for disjoint sets. */
  lemma JaccardZeroIffDisjoint(a: set<int>, b: set<int>)
    ensures Jaccard(a, b) == 0.0 <==> a !! b
  {
    if a * b != {} {
      SubsetAtMost(a * b, a + b);
      assert |a * b| > 0;
      MulPositive(|a * b| as real, 1.0 / (|a + b| as real));
    } else {
      forall x | x in a
        ensures x !in b
      {
        assert x !in a * b;
      }
    }
  }

  /** For non-empty sets, Jaccard is 1 exactly when the sets are equal. */
  lemma JaccardOneIffEqual(a: set<int>, b: set<int>)
    requires a != {}
    ensures Jaccard(a, b) == 1.0 <==> a == b
  {
    SubsetAtMost(a, a + b);
    SubsetAtMost(a * b, a + b);
    if a == b {
      assert a * b == a + b;
    } else {
      assert a * b != a + b;
    }
  }

  /** Dot product over two vectors of the same length. */
  function Dot(a: seq<real>, b: seq<real>): real
    requires |a| == |b|
  {
    if a == [] then 0.0 else Dot(a[..|a| - 1], b[..|b| - 1]) + a[|a| - 1] * b[|b| - 1]
  }

  /** Squared Euclidean norm. */
  function SqNorm(a: seq<real>): real
  {
    Dot(a, a)
  }

  lemma {:induction false} DotSymmetric(a: seq<real>, b: seq<real>)
    requires |a| == |b|
    ensures Dot(a, b) == Dot(b, a)
  {
    if a != [] {
      DotSymmetric(a[..|a| - 1], b[..|b| - 1]);
    }
  }

  lemma {:induction false} SqNormNonNegative(a: seq<real>)
    ensures 0.0 <= SqNorm(a)
  {
    if a != [] {
      SqNormNonNegative(a[..|a| - 1]);
    }
  }

  /** Dropping a suffix cannot increase the squared norm. */
  lemma {:induction false} SqNormPrefix(a: seq<real>, k: nat)
    requires k <= |a|
    ensures SqNorm(a[..k]) <= SqNorm(a)
  {
    if k < |a| {
      var n := |a|;
      assert a[..n - 1][..k] == a[..k];
      SqNormPrefix(a[..n - 1], k);
      assert SqNorm(a) == SqNorm(a[..n - 1]) + a[n - 1] * a[n - 1];
    } else {
      assert a[..k] == a;
    }
  }

  lemma PositiveFactor(a: real, t: real)
    requires 0.0 < a && 0.0 <= a * t
    ensures 0.0 <= t
  {
  }

  /** A fraction whose numerator lies between 0 and a positive denominator lies in [0, 1]. */
  lemma DivideAtMostOne(x: real, s: real)
    requires 0.0 <= x <= s && 0.0 < s
    ensures 0.0 <= x / s <= 1.0
  {
    assert x / s * s == x;
  }

  lemma MulPositive(a: real, b: real)
    requires 0.0 < a && 0.0 < b
    ensures 0.0 < a * b
  {
  }

  lemma SquarePositive(d: real)
    requires d != 0.0
    ensures d * d > 0.0
  {
    if d < 0.0 {
      assert d * d == (-d) * (-d);
    }
  }

  lemma MulMonotone(a: real, b: real, c: real, d: real)
    requires 0.0 <= a <= c && 0.0 <= b <= d
    ensures a * b <= c * d
  {
    assert a * b <= c * b;
    assert c * b <= c * d;
  }

  lemma MulMonotoneInt(x: int, y: int, s: int)
    requires x <= y && 0 < s
    ensures x * s <= y * s
  {
    assert y * s == x * s + (y - x) * s;
  }

  /** A quotient whose numerator is bounded by its positive denominator lies in [-1, 1]. */
  lemma QuotientWithinOne(d: real, n: real)
    requires 0.0 < n && -n <= d <= n
    ensures -1.0 <= d / n <= 1.0
  {
    assert d / n * n == d;
  }

  /** The inductive step of Cauchy-Schwarz: extending both vectors by one entry. */
  lemma CauchySchwarzStep(na: real, nb: real, d: real, x: real, y: real)
    requires 0.0 <= na && 0.0 <= nb && d * d <= na * nb
    ensures (d + x * y) * (d + x * y) <= (na + x * x) * (nb + y * y)
  {
    var gap := na * y * y + nb * x * x - 2.0 * d * x * y;
    if na == 0.0 {
      if d != 0.0 {
        SquarePositive(d);
      }
      assert gap == nb * x * x;
    } else {
      assert na * gap == (na * y - d * x) * (na * y - d * x) + (na * nb - d * d) * (x * x);
      PositiveFactor(na, gap);
    }
    assert (na + x * x) * (nb + y * y) - (d + x * y) * (d + x * y) == (na * nb - d * d) + gap;
  }

  /** Cauchy-Schwarz: dot(a, b)^2 <= |a|^2 |b|^2. */
  lemma {:induction false} CauchySchwarz(a: seq<real>, b: seq<real>)
    requires |a| == |b|
    ensures Dot(a, b) * Dot(a, b) <= SqNorm(a) * SqNorm(b)
  {
    if a != [] {
      var n := |a|;
      var a', b' := a[..n - 1], b[..n - 1];
      CauchySchwarz(a', b');
      SqNormNonNegative(a');
      SqNormNonNegative(b');
      CauchySchwarzStep(SqNorm(a'), SqNorm(b'), Dot(a', b'), a[n - 1], b[n - 1]);
    }
  }

  /** From x^2 <= y^2 and y >= 0 follows |x| <= y. */
  lemma AbsFromSquares(x: real, y: real)
    requires 0.0 <= y && x * x <= y * y
    ensures -y <= x <= y
  {
    if x > y {
      assert x * x - y * y == (x - y) * (x + y);
      MulPositive(x - y, x + y);
    }
    if x < -y {
      assert x * x - y * y == (-x - y) * (y - x);
      MulPositive(-x - y, y - x);
    }
  }
}
