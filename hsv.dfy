/** The colour descriptor of an image: the mean hue, saturation and value over
    all of its pixels, and the arithmetic the trainer and the classifier do on
    descriptors. Hue is treated as a linear scalar, with no wrap-around. */
module Hsv {

  datatype Descriptor = Descriptor(h: real, s: real, v: real)

  const Zero := Descriptor(0.0, 0.0, 0.0)

  function Add(a: Descriptor, b: Descriptor): Descriptor
  {
    Descriptor(a.h + b.h, a.s + b.s, a.v + b.v)
  }

  function Scale(a: Descriptor, k: real): Descriptor
  {
    Descriptor(k * a.h, k * a.s, k * a.v)
  }

  /** Component-wise sum of the descriptors, accumulated in order. */
  function Sum(ds: seq<Descriptor>): Descriptor
  {
    if ds == [] then Zero else Add(Sum(ds[..|ds| - 1]), ds[|ds| - 1])
  }

  function Divide(a: Descriptor, k: real): Descriptor
    requires k != 0.0
  {
    Descriptor(a.h / k, a.s / k, a.v / k)
  }

  /** Component-wise arithmetic mean, as numpy's mean over axis 0: the sum
      divided by the number of descriptors. */
  function Mean(ds: seq<Descriptor>): Descriptor
    requires |ds| > 0
  {
    Divide(Sum(ds), |ds| as real)
  }

  /** `a` lies at or below `b` in every channel. */
  predicate AtMost(a: Descriptor, b: Descriptor)
  {
    a.h <= b.h && a.s <= b.s && a.v <= b.v
  }

  lemma {:induction false} SumOfUniform(ds: seq<Descriptor>, c: Descriptor)
    requires forall k :: 0 <= k < |ds| ==> ds[k] == c
    ensures Sum(ds) == Scale(c, |ds| as real)
  {
    if ds != [] {
      SumOfUniform(ds[..|ds| - 1], c);
    }
  }

  /** The centroid of identical descriptors is that descriptor. */
  lemma MeanOfUniform(ds: seq<Descriptor>, c: Descriptor)
    requires |ds| > 0
    requires forall k :: 0 <= k < |ds| ==> ds[k] == c
    ensures Mean(ds) == c
  {
    SumOfUniform(ds, c);
    var n := |ds| as real;
    assert (n * c.h) / n == c.h;
    assert (n * c.s) / n == c.s;
    assert (n * c.v) / n == c.v;
  }

  /** Summation is monotone in every channel. */
  lemma {:induction false} SumMonotone(xs: seq<Descriptor>, ys: seq<Descriptor>)
    requires |xs| == |ys|
    requires forall k :: 0 <= k < |xs| ==> AtMost(xs[k], ys[k])
    ensures AtMost(Sum(xs), Sum(ys))
  {
    if xs != [] {
      SumMonotone(xs[..|xs| - 1], ys[..|ys| - 1]);
    }
  }

  /** The centroid lies inside every box that holds all of its descriptors,
      so it stays within the decoder's channel ranges. */
  lemma MeanWithin(ds: seq<Descriptor>, lo: Descriptor, hi: Descriptor)
    requires |ds| > 0
    requires forall k :: 0 <= k < |ds| ==> AtMost(lo, ds[k]) && AtMost(ds[k], hi)
    ensures AtMost(lo, Mean(ds)) && AtMost(Mean(ds), hi)
  {
    var los := seq(|ds|, _ => lo);
    var his := seq(|ds|, _ => hi);
    SumMonotone(los, ds);
    SumMonotone(ds, his);
    SumOfUniform(los, lo);
    SumOfUniform(his, hi);
    ScaledBox(|ds| as real, lo, Sum(ds), hi);
  }

  lemma ScaledBox(n: real, lo: Descriptor, s: Descriptor, hi: Descriptor)
    requires n > 0.0 && AtMost(Scale(lo, n), s) && AtMost(s, Scale(hi, n))
    ensures AtMost(lo, Divide(s, n)) && AtMost(Divide(s, n), hi)
  {
    DividedBetween(n, lo.h, s.h, hi.h);
    DividedBetween(n, lo.s, s.s, hi.s);
    DividedBetween(n, lo.v, s.v, hi.v);
  }

  lemma DividedBetween(n: real, lo: real, x: real, hi: real)
    requires n > 0.0 && n * lo <= x <= n * hi
    ensures lo <= x / n <= hi
  {
    var q := x / n;
    assert x == n * q;
    if q < lo {
      MultiplyMonotone(n, q, lo);
      assert false;
    }
    if hi < q {
      MultiplyMonotone(n, hi, q);
      assert false;
    }
  }

  lemma MultiplyMonotone(m: real, a: real, b: real)
    requires m >= 0.0 && a <= b
    ensures m * a <= m * b
  {
    assert m * b - m * a == m * (b - a);
  }

  /** Squared Euclidean distance in hue/saturation/value space. */
  function SquaredDistance(a: Descriptor, b: Descriptor): (d: real)
    ensures d >= 0.0
  {
    var dh, ds, dv := a.h - b.h, a.s - b.s, a.v - b.v;
    SquareNonnegative(dh);
    SquareNonnegative(ds);
    SquareNonnegative(dv);
    dh * dh + ds * ds + dv * dv
  }

  lemma SquareNonnegative(x: real)
    ensures x * x >= 0.0
  {
    if x != 0.0 {
      SquarePositive(x);
    }
  }

  lemma SquarePositive(x: real)
    requires x != 0.0
    ensures x * x > 0.0
  {
    if x > 0.0 {
      StrictMultiply(x, x);
    } else {
      NegativeMultiply(x, x);
    }
  }

  lemma NegativeMultiply(a: real, b: real)
    requires a < 0.0 && b < 0.0
    ensures a * b > 0.0
  {
  }

  lemma StrictMultiply(a: real, b: real)
    requires a > 0.0 && b > 0.0
    ensures a * b > 0.0
  {
  }

  /** The source compares Euclidean norms, the square roots of squared
      distances; on non-negative reals a strict comparison of two norms has
      the same outcome as the comparison of their squares. */
  lemma NormOrder(x: real, y: real)
    requires x >= 0.0 && y >= 0.0
    ensures x < y <==> x * x < y * y
  {
    if x < y {
      SquaresOrdered(x, y);
    } else if y < x {
      SquaresOrdered(y, x);
    }
  }

  lemma SquaresOrdered(x: real, y: real)
    requires 0.0 <= x < y
    ensures x * x < y * y
  {
    var xx, xy, yy := x * x, x * y, y * y;
    assert xx <= xy;
    StrictMultiply(y - x, y);
    assert yy - xy > 0.0;
  }
}
