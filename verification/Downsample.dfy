/** Thinning a chart's points by a fixed stride, in the server and in the page. */
module Downsample {
  import opened Division

  function DivCeil(n: nat, d: nat): nat
    requires d > 0
  {
    n / d + if n % d == 0 then 0 else 1
  }

  /** The elements at indices divisible by the stride. */
  function Strided<T>(points: seq<T>, stride: nat): seq<T>
    requires stride > 0
  {
    if points == [] then [] else
    var front := Strided(points[..|points| - 1], stride);
    if (|points| - 1) % stride == 0 then front + [points[|points| - 1]] else front
  }

  /** `downsample_by_stride`. */
  function ByStride<T>(points: seq<T>, maxPoints: nat): seq<T> {
    if maxPoints == 0 || |points| <= maxPoints then points
    else
      StrideIsPositive(|points|, maxPoints);
      Strided(points, DivCeil(|points|, maxPoints))
  }

  lemma {:induction false} StrideIsPositive(n: nat, d: nat)
    requires 0 < d < n
    ensures DivCeil(n, d) > 1
  {
    assert n / d >= 1;
    if n / d == 1 { assert n == d + n % d; }
  }

  lemma {:induction false} DivCeilStep(n: nat, d: nat)
    requires d > 0
    ensures DivCeil(n + 1, d) == DivCeil(n, d) + if n % d == 0 then 1 else 0
    ensures n % d == 0 ==> DivCeil(n, d) * d == n
  {
    var q, r := n / d, n % d;
    assert n == q * d + r;
    if r == d - 1 {
      assert n + 1 == (q + 1) * d;
      QuotientIs(n + 1, d, q + 1, 0);
    } else {
      assert n + 1 == q * d + (r + 1);
      QuotientIs(n + 1, d, q, r + 1);
    }
  }

  /** The j-th kept point is the one at index j times the stride. */
  lemma {:induction false} StridedAt<T>(points: seq<T>, stride: nat)
    requires stride > 0
    ensures |Strided(points, stride)| == DivCeil(|points|, stride)
    ensures forall j :: 0 <= j < |Strided(points, stride)| ==> 0 <= j * stride < |points| && Strided(points, stride)[j] == points[j * stride]
  {
    if points == [] {
      assert 0 / stride == 0 && 0 % stride == 0;
    } else {
      var n := |points| - 1;
      StridedAt(points[..n], stride);
      DivCeilStep(n, stride);
    }
  }

  /** ceil(n / ceil(n / m)) <= m. */
  lemma {:induction false} CeilOfCeil(n: nat, m: nat)
    requires 0 < m < n
    ensures DivCeil(n, m) > 0 && DivCeil(n, DivCeil(n, m)) <= m
  {
    StrideIsPositive(n, m);
    var s := DivCeil(n, m);
    Covers(n, m);
    LastMultiple(n, s);
    MulOrder(DivCeil(n, s) - 1, m, s);
  }

  lemma {:induction false} Covers(n: nat, d: nat)
    requires d > 0
    ensures DivCeil(n, d) * d >= n
  {
    assert n == n / d * d + n % d;
    assert (n / d + 1) * d == n / d * d + d;
  }

  /** The stride is the least one that leaves no more than the requested points. */
  lemma {:induction false} StrideIsLeast(n: nat, m: nat, s: nat)
    requires m > 0
    ensures DivCeil(n, m) * m >= n
    ensures s * m >= n ==> DivCeil(n, m) <= s
  {
    Covers(n, m);
    if n > 0 && s < DivCeil(n, m) {
      LastMultiple(n, m);
      if s < DivCeil(n, m) - 1 { MulOrder(s, DivCeil(n, m) - 1, m); }
    }
  }

  lemma {:induction false} LastMultiple(n: nat, d: nat)
    requires d > 0 && n > 0
    ensures 0 <= (DivCeil(n, d) - 1) * d < n
    ensures n - (DivCeil(n, d) - 1) * d <= d
  {
    var q, r := n / d, n % d;
    assert n == q * d + r;
    if r == 0 {
      MulOrder(0, q, d);
      assert (q - 1) * d == q * d - d;
      assert (q - 1) * d >= 0;
    }
  }

  /** At most maxPoints points, in order, starting with the first, with exactly the stride between neighbours and no
      more than a stride from the last kept point to the end. */
  lemma {:induction false} ByStrideThins<T>(points: seq<T>, maxPoints: nat)
    requires maxPoints > 0 && points != []
    ensures var kept := ByStride(points, maxPoints);
            var stride := if |points| <= maxPoints then 1 else DivCeil(|points|, maxPoints);
            && 0 < |kept| <= maxPoints && kept[0] == points[0]
            && (forall j :: 0 <= j < |kept| ==> 0 <= j * stride < |points| && kept[j] == points[j * stride])
            && |points| - (|kept| - 1) * stride <= stride
  {
    if |points| > maxPoints {
      var stride := DivCeil(|points|, maxPoints);
      StrideIsPositive(|points|, maxPoints);
      StridedAt(points, stride);
      CeilOfCeil(|points|, maxPoints);
      LastMultiple(|points|, stride);
      Covers(|points|, stride);
      var kept := ByStride(points, maxPoints);
      MulOrder(0, |kept|, stride);
      assert kept[0] == points[0 * stride];
    }
  }

  /** Beyond the requested number of points the stride is the least one that meets it. */
  lemma {:induction false} ByLeastStride<T>(points: seq<T>, maxPoints: nat) returns (stride: nat)
    requires 0 < maxPoints < |points|
    ensures stride > 1 && stride * maxPoints >= |points| > (stride - 1) * maxPoints
    ensures var kept := ByStride(points, maxPoints);
            && 0 < |kept| <= maxPoints
            && (forall j :: 0 <= j < |kept| ==> 0 <= j * stride < |points| && kept[j] == points[j * stride])
            && |points| - (|kept| - 1) * stride <= stride
  {
    stride := DivCeil(|points|, maxPoints);
    StrideIsPositive(|points|, maxPoints);
    StridedAt(points, stride);
    assert ByStride(points, maxPoints) == Strided(points, stride);
    CeilOfCeil(|points|, maxPoints);
    LastMultiple(|points|, stride);
    Covers(|points|, stride);
    MulOrder(0, DivCeil(|points|, stride), stride);
    StrideIsLeast(|points|, maxPoints, stride - 1);
  }

  /** `downsampleByStride` of the page: the same points, and the last one unless the stride lands on it. The page tells
      whether it kept the last point by the identity of the object, which is its index here. */
  method ByStrideInPage<T>(points: seq<T>, maxPoints: nat) returns (out: seq<T>)
    ensures maxPoints == 0 || |points| <= maxPoints ==> out == points
    ensures 0 < maxPoints < |points| ==>
      var stride, n := DivCeil(|points|, maxPoints), |points| - 1;
      stride > 1 && out == ByStride(points, maxPoints) + if n % stride == 0 then [] else [points[n]]
    ensures points != [] ==> out != [] && out[0] == points[0] && out[|out| - 1] == points[|points| - 1]
    ensures maxPoints > 0 ==> |out| <= maxPoints + 1
  {
    if maxPoints == 0 || |points| <= maxPoints {
      return points;
    }
    StrideIsPositive(|points|, maxPoints);
    var stride := DivCeil(|points|, maxPoints);
    ByStrideThins(points, maxPoints);
    StridedAt(points, stride);
    out := [];
    var i := 0;
    while i < |points|
      invariant i == |out| * stride
      invariant |out| <= DivCeil(|points|, stride)
      invariant i >= |points| ==> |out| == DivCeil(|points|, stride)
      invariant forall j :: 0 <= j < |out| ==> out[j] == Strided(points, stride)[j]
      decreases |points| - i
    {
      Reaches(|points|, stride, |out|);
      assert points[i] == Strided(points, stride)[|out|];
      out := out + [points[i]];
      i := i + stride;
    }
    assert out == Strided(points, stride);
    LastKept(|points|, stride, |out|);
    var last := |points| - 1;
    if i - stride != last {
      out := out + [points[last]];
    }
  }

  /** The walk ends on the last index exactly when the stride divides it. */
  lemma {:induction false} LastKept(n: nat, d: nat, k: nat)
    requires d > 0 && n > 0 && k == DivCeil(n, d)
    ensures k * d - d == n - 1 <==> (n - 1) % d == 0
    ensures k * d - d == (k - 1) * d
  {
    LastMultiple(n, d);
    assert k * d - d == (k - 1) * d;
    QuotientIs(n - 1, d, k - 1, n - 1 - (k - 1) * d);
  }

  /** A multiple below n is below the last one kept, and the next one ends the walk exactly when it is the last. */
  lemma {:induction false} Reaches(n: nat, d: nat, k: nat)
    requires d > 0 && k * d < n
    ensures k < DivCeil(n, d) && ((k + 1) * d >= n ==> k + 1 == DivCeil(n, d)) && (k + 1) * d == k * d + d
  {
    Covers(n, d);
    LastMultiple(n, d);
    MulOrder(k, DivCeil(n, d), d);
    MulOrder(DivCeil(n, d) - 1, k + 1, d);
  }
}
