/** The classifier (`EggClassifier`): decodes the query image and answers the
    class of the nearest centroid, the earliest one in table order among
    equally near centroids, or no result when the image yields no
    descriptor. */
module Classifier {
  import opened Wrappers
  import opened Hsv
  import opened CentroidTable
  import opened Trainer

  /** The running minimum distance; the source starts it at `float('inf')`. */
  datatype Bound = Infinity | Finite(value: real)

  /** `d < bound`, with every real below infinity. */
  predicate Below(d: real, bound: Bound)
  {
    bound.Infinity? || d < bound.value
  }

  /** Entry `k` is nearest to `q`, and strictly nearer than every entry
      before it. */
  ghost predicate IsFirstNearest(t: Table, q: Descriptor, k: int)
  {
    0 <= k < |t| &&
    (forall j :: 0 <= j < |t| ==> SquaredDistance(q, t[k].pattern) <= SquaredDistance(q, t[j].pattern)) &&
    (forall j :: 0 <= j < k ==> SquaredDistance(q, t[k].pattern) < SquaredDistance(q, t[j].pattern))
  }

  /** The position of the first nearest centroid. */
  function NearestIndex(t: Table, q: Descriptor): (k: nat)
    requires |t| > 0
    ensures IsFirstNearest(t, q, k)
  {
    if |t| == 1 then 0
    else
      var k := NearestIndex(t[..|t| - 1], q);
      if SquaredDistance(q, t[|t| - 1].pattern) < SquaredDistance(q, t[k].pattern) then |t| - 1 else k
  }

  /** What `classify` answers for a decoder result `query`. */
  function Prediction(t: Table, query: Option<Descriptor>): Option<Label>
  {
    if query.None? || t == [] then None else Some(t[NearestIndex(t, query.value)].className)
  }

  /** There is a result exactly when the query has a descriptor and the
      table is not empty, and the result is then the class of the first
      nearest centroid; the first nearest centroid is unique, so the answer
      is determined by the table and the descriptor. */
  lemma PredictionIsFirstNearest(t: Table, query: Option<Descriptor>, name: Label)
    ensures Prediction(t, query) == Some(name) <==>
      query.Some? && exists k :: IsFirstNearest(t, query.value, k) && t[k].className == name
  {
    if query.Some? && t != [] {
      var n := NearestIndex(t, query.value);
      forall k | IsFirstNearest(t, query.value, k)
        ensures k == n
      {
      }
    }
  }

  /** A query equal to one centroid and strictly farther from every other
      centroid gets that centroid's class. */
  lemma ExactMatchWins(t: Table, q: Descriptor, k: nat)
    requires k < |t| && t[k].pattern == q
    requires forall j :: 0 <= j < |t| && j != k ==> SquaredDistance(q, t[j].pattern) > 0.0
    ensures Prediction(t, Some(q)) == Some(t[k].className)
  {
    var n := NearestIndex(t, q);
    assert SquaredDistance(q, q) == 0.0;
    assert SquaredDistance(q, t[n].pattern) <= SquaredDistance(q, t[k].pattern);
  }

  class EggClassifier {
    const colorPatterns: Table

    constructor (colorPatterns: Table)
      ensures this.colorPatterns == colorPatterns
    {
      this.colorPatterns := colorPatterns;
    }

    /** `EggClassifier.classify`: scans the table in order, keeping the
        running minimum distance and the class that reached it; only a
        strictly smaller distance replaces the current best. */
    method Classify(extract: Extractor, imagePath: string) returns (predicted: Option<Label>)
      ensures predicted == Prediction(colorPatterns, extract(imagePath))
    {
      var avgHsv := extract(imagePath);
      if avgHsv.None? {
        return None;
      }
      var q := avgHsv.value;
      var minDistance := Infinity;
      predicted := None;
      ghost var best := 0;
      for k := 0 to |colorPatterns|
        invariant k == 0 ==> predicted.None? && minDistance.Infinity?
        invariant k > 0 ==> best == NearestIndex(colorPatterns[..k], q)
        invariant k > 0 ==> predicted == Some(colorPatterns[best].className)
        invariant k > 0 ==> minDistance == Finite(SquaredDistance(q, colorPatterns[best].pattern))
      {
        var distance := SquaredDistance(q, colorPatterns[k].pattern);
        assert colorPatterns[..k + 1][..k] == colorPatterns[..k];
        if Below(distance, minDistance) {
          minDistance := Finite(distance);
          predicted := Some(colorPatterns[k].className);
          best := k;
        }
      }
      assert colorPatterns[..|colorPatterns|] == colorPatterns;
    }
  }
}
