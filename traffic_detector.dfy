/**
 * Detects the overall traffic level of a map image: samples the colour at
 * fixed control points, classifies each sample, and rounds the weighted sum
 * of the known severities back to a level.
 */
module TrafficDetector {
  import opened Traffic

  /** A pixel coordinate of the map image. */
  datatype Point = Point(x: int, y: int)

  /** The map image: its size and the packed colour code of every pixel. */
  datatype Image = Image(width: nat, height: nat, rgb: (int, int) -> Int32) {

    /** Whether a point lies inside the image. */
    predicate Contains(p: Point) {
      0 <= p.x < width && 0 <= p.y < height
    }

    /** The colour code at a point; reading outside the image is an error. */
    function At(p: Point): Int32
      requires Contains(p)
    {
      rgb(p.x, p.y)
    }
  }

  /** Whether every point lies inside the image. */
  predicate InBounds(image: Image, points: seq<Point>) {
    forall i :: 0 <= i < |points| ==> image.Contains(points[i])
  }

  /** The overall level and the per-point samples of one detection. */
  datatype DetectedTraffic = DetectedTraffic(traffic: Level, samples: seq<Level>)

  /** The control points of the outbound direction. */
  const OutboundPoints: seq<Point> :=
    [Point(458, 10), Point(400, 85), Point(374, 114), Point(316, 160), Point(274, 212), Point(230, 288)]

  /** The weight of each outbound control point in the overall level. */
  const OutboundWeights: seq<real> := [0.1, 0.3, 0.1, 0.1, 0.1, 0.3]

  // ---------------------------------------------------------------------------
  // Rounding as Java does it
  // ---------------------------------------------------------------------------

  const LongMin: int := -0x8000_0000_0000_0000
  const LongMax: int := 0x7FFF_FFFF_FFFF_FFFF

  /**
   * Math.round on a double: the closest long, ties rounding up, saturating
   * at the bounds of long.
   */
  function MathRound(x: real): (r: int)
    ensures LongMin <= r <= LongMax
    ensures LongMin as real <= x + 0.5 < LongMax as real + 1.0 ==> r as real <= x + 0.5 < r as real + 1.0
    ensures x + 0.5 < LongMin as real ==> r == LongMin
    ensures LongMax as real + 1.0 <= x + 0.5 ==> r == LongMax
  {
    var n := (x + 0.5).Floor;
    if n < LongMin then LongMin else if n > LongMax then LongMax else n
  }

  /** The `(int)` cast of a long: keeps the low 32 bits, read as two's complement. */
  function NarrowToInt(v: int): (r: Int32)
    ensures (v - r) % 0x1_0000_0000 == 0
    ensures -0x8000_0000 <= v < 0x8000_0000 ==> r == v
  {
    Signed(v % 0x1_0000_0000)
  }

  // ---------------------------------------------------------------------------
  // The weighted total
  // ---------------------------------------------------------------------------

  /** What one known sample adds to the total: its severity times its weight. */
  function Contribution(sample: Level, weight: real): real {
    Severity(sample) as real * weight
  }

  /**
   * The running total after the given samples, as the detector keeps it: it
   * starts at Unknown's severity, -1, is reset to 0 when a known sample
   * arrives while it still holds -1, and then grows by severity times weight.
   * Unknown samples leave it alone.
   */
  function SentinelTotal(samples: seq<Level>, weights: seq<real>): real
    requires |samples| <= |weights|
  {
    if |samples| == 0 then Severity(Unknown) as real
    else
      var n := |samples| - 1;
      var total := SentinelTotal(samples[..n], weights);
      if samples[n] == Unknown then total
      else (if total == Severity(Unknown) as real then 0.0 else total) + Contribution(samples[n], weights[n])
  }

  /** One more sample updates the running total by one step. */
  lemma SentinelTotalAppend(samples: seq<Level>, sample: Level, weights: seq<real>)
    requires |samples| < |weights|
    ensures SentinelTotal(samples + [sample], weights) ==
      var total := SentinelTotal(samples, weights);
      if sample == Unknown then total
      else (if total == Severity(Unknown) as real then 0.0 else total) + Contribution(sample, weights[|samples|])
  {
    assert (samples + [sample])[..|samples|] == samples;
  }

  /** The overall level: the running total rounded and looked up as a severity. */
  function Overall(samples: seq<Level>, weights: seq<real>): Level
    requires |samples| <= |weights|
  {
    FromSeverity(NarrowToInt(MathRound(SentinelTotal(samples, weights))))
  }

  /** The running total as a tagged state: nothing observed yet, or the sum so far. */
  datatype Accumulator = NoObservation | Observed(total: real)

  /** The running total kept without a sentinel value. */
  function Accumulate(samples: seq<Level>, weights: seq<real>): Accumulator
    requires |samples| <= |weights|
  {
    if |samples| == 0 then NoObservation
    else
      var n := |samples| - 1;
      var acc := Accumulate(samples[..n], weights);
      if samples[n] == Unknown then acc
      else Observed((if acc.Observed? then acc.total else 0.0) + Contribution(samples[n], weights[n]))
  }

  /** The sum of severity times weight over the known samples only. */
  function WeightedSum(samples: seq<Level>, weights: seq<real>): real
    requires |samples| <= |weights|
  {
    if |samples| == 0 then 0.0
    else
      var n := |samples| - 1;
      WeightedSum(samples[..n], weights) + (if samples[n] == Unknown then 0.0 else Contribution(samples[n], weights[n]))
  }

  /** The sum of the first `n` weights. */
  function Sum(weights: seq<real>, n: nat): real
    requires n <= |weights|
  {
    if n == 0 then 0.0 else Sum(weights, n - 1) + weights[n - 1]
  }

  /** Whether no sample could be classified. */
  predicate AllUnknown(samples: seq<Level>) {
    forall i :: 0 <= i < |samples| ==> samples[i] == Unknown
  }

  /** Whether no weight is negative. */
  predicate NonNegative(weights: seq<real>) {
    forall i :: 0 <= i < |weights| ==> weights[i] >= 0.0
  }

  // ---------------------------------------------------------------------------
  // The detector
  // ---------------------------------------------------------------------------

  /**
   * Samples every point in order, records each sample, and folds the known
   * ones into the running total, which is then rounded to the overall level.
   */
  method Detect(image: Image, points: seq<Point>, weights: seq<real>) returns (result: DetectedTraffic)
    requires |points| <= |weights|
    requires InBounds(image, points)
    ensures |result.samples| == |points|
    ensures forall i :: 0 <= i < |points| ==> result.samples[i] == FromRgba(image.At(points[i]))
    ensures result.traffic == Overall(result.samples, weights)
  {
    var total: real := Severity(Unknown) as real;
    var samples := new Level[|points|];
    for i := 0 to |points|
      invariant forall k :: 0 <= k < i ==> samples[k] == FromRgba(image.At(points[k]))
      invariant total == SentinelTotal(samples[..i], weights)
    {
      var traffic := FromRgba(image.At(points[i]));
      ghost var before := samples[..i];
      samples[i] := traffic;
      if traffic != Unknown {
        if total == Severity(Unknown) as real {
          total := 0.0;
        }
        total := total + Contribution(traffic, weights[i]);
      }
      assert samples[..i + 1] == before + [traffic];
      SentinelTotalAppend(before, traffic, weights);
    }
    assert samples[..|points|] == samples[..];
    result := DetectedTraffic(FromSeverity(NarrowToInt(MathRound(total))), samples[..]);
  }

  /** Detects the outbound traffic with its six control points and weights. */
  method DetectOutbound(image: Image) returns (result: DetectedTraffic)
    requires InBounds(image, OutboundPoints)
    ensures |result.samples| == 6
    ensures forall i :: 0 <= i < 6 ==> result.samples[i] == FromRgba(image.At(OutboundPoints[i]))
    ensures result.traffic == Overall(result.samples, OutboundWeights)
  {
    result := Detect(image, OutboundPoints, OutboundWeights);
  }

  // ---------------------------------------------------------------------------
  // Properties of the weighted total
  // ---------------------------------------------------------------------------

  /** The tagged total observes nothing until a known sample, then holds the weighted sum of the known samples. */
  lemma {:induction false} AccumulateIsWeightedSum(samples: seq<Level>, weights: seq<real>)
    requires |samples| <= |weights|
    ensures Accumulate(samples, weights) == if AllUnknown(samples) then NoObservation else Observed(WeightedSum(samples, weights))
  {
    if |samples| > 0 {
      var n := |samples| - 1;
      AccumulateIsWeightedSum(samples[..n], weights);
      assert AllUnknown(samples) <==> AllUnknown(samples[..n]) && samples[n] == Unknown;
      if AllUnknown(samples[..n]) {
        AllUnknownSumsToZero(samples[..n], weights);
      }
    }
  }

  /** Unknown samples add nothing to the weighted sum. */
  lemma {:induction false} AllUnknownSumsToZero(samples: seq<Level>, weights: seq<real>)
    requires |samples| <= |weights| && AllUnknown(samples)
    ensures WeightedSum(samples, weights) == 0.0
  {
    if |samples| > 0 {
      AllUnknownSumsToZero(samples[..|samples| - 1], weights);
    }
  }

  /** With no known sample the running total stays at the sentinel and the overall level is Unknown. */
  lemma {:induction false} AllUnknownStaysSentinel(samples: seq<Level>, weights: seq<real>)
    requires |samples| <= |weights| && AllUnknown(samples)
    ensures SentinelTotal(samples, weights) == Severity(Unknown) as real
    ensures Overall(samples, weights) == Unknown
  {
    if |samples| > 0 {
      AllUnknownStaysSentinel(samples[..|samples| - 1], weights);
    }
  }

  /**
   * With non-negative weights the sentinel total and the tagged total agree:
   * -1 exactly while nothing is observed, and otherwise the tagged sum, which
   * is never negative.
   */
  lemma {:induction false} SentinelMatchesAccumulator(samples: seq<Level>, weights: seq<real>)
    requires |samples| <= |weights| && NonNegative(weights)
    ensures Accumulate(samples, weights) == NoObservation ==> SentinelTotal(samples, weights) == Severity(Unknown) as real
    ensures Accumulate(samples, weights).Observed? ==>
              SentinelTotal(samples, weights) == Accumulate(samples, weights).total >= 0.0
  {
    if |samples| > 0 {
      var n := |samples| - 1;
      SentinelMatchesAccumulator(samples[..n], weights);
      if samples[n] != Unknown {
        ContributionNonNegative(samples[n], weights[n]);
      }
    }
  }

  /** A known sample with a non-negative weight adds a non-negative amount. */
  lemma ContributionNonNegative(sample: Level, weight: real)
    requires sample != Unknown && weight >= 0.0
    ensures Contribution(sample, weight) >= 0.0
  {
    assert Severity(sample) >= 0;
  }

  /**
   * With non-negative weights the running total is -1 when every sample is
   * Unknown, and otherwise exactly the weighted sum of the known samples:
   * Unknown samples are neither counted as zero nor renormalised away.
   */
  lemma SentinelIsWeightedSum(samples: seq<Level>, weights: seq<real>)
    requires |samples| <= |weights| && NonNegative(weights)
    ensures SentinelTotal(samples, weights) == if AllUnknown(samples) then Severity(Unknown) as real else WeightedSum(samples, weights)
    ensures !AllUnknown(samples) ==> SentinelTotal(samples, weights) >= 0.0
  {
    SentinelMatchesAccumulator(samples, weights);
    AccumulateIsWeightedSum(samples, weights);
  }

  /**
   * With non-negative weights the reset to 0 fires only on the first known
   * sample: before a known sample the total holds -1 exactly when every
   * earlier sample was Unknown.
   */
  lemma ResetOnlyOnFirstKnown(samples: seq<Level>, weights: seq<real>, k: nat)
    requires |samples| <= |weights| && NonNegative(weights)
    requires k < |samples| && samples[k] != Unknown
    ensures SentinelTotal(samples[..k], weights) == Severity(Unknown) as real <==> AllUnknown(samples[..k])
    ensures SentinelTotal(samples[..k + 1], weights) >= 0.0
  {
    SentinelIsWeightedSum(samples[..k], weights);
    SentinelIsWeightedSum(samples[..k + 1], weights);
    assert samples[..k + 1][k] == samples[k];
  }

  /** The weights of Unknown points play no part in the total or the overall level. */
  lemma {:induction false} UnknownWeightsIgnored(samples: seq<Level>, weights: seq<real>, others: seq<real>)
    requires |samples| <= |weights| && |samples| <= |others|
    requires forall i :: 0 <= i < |samples| && samples[i] != Unknown ==> weights[i] == others[i]
    ensures SentinelTotal(samples, weights) == SentinelTotal(samples, others)
    ensures Overall(samples, weights) == Overall(samples, others)
  {
    if |samples| > 0 {
      var n := |samples| - 1;
      UnknownWeightsIgnored(samples[..n], weights, others);
    }
  }

  /**
   * While the total is within the range of `int`, the overall level is the
   * total rounded half up and looked up as a severity; it is known exactly
   * when that rounding lands on 0 to 4.
   */
  lemma OverallRoundsTotal(samples: seq<Level>, weights: seq<real>)
    requires |samples| <= |weights|
    requires -0x8000_0000 as real <= SentinelTotal(samples, weights) + 0.5 < 0x8000_0000 as real
    ensures Overall(samples, weights) == FromSeverity((SentinelTotal(samples, weights) + 0.5).Floor)
    ensures Overall(samples, weights) != Unknown <==> -0.5 <= SentinelTotal(samples, weights) < 4.5
  {
    var total := SentinelTotal(samples, weights);
    var n := MathRound(total);
    assert n == (total + 0.5).Floor;
    assert NarrowToInt(n) == n;
  }

  /**
   * The narrowing cast wraps totals beyond the range of `int`: a single very
   * heavy point of weight 1073741824.5 totals 2^32 + 2, which the detector
   * reports as Medium.
   */
  lemma NarrowingWrapsHugeTotals()
    ensures SentinelTotal([VeryHeavy], [1073741824.5]) == 4294967298.0
    ensures Overall([VeryHeavy], [1073741824.5]) == Medium
  {
    assert [VeryHeavy][..0] == [];
    assert MathRound(4294967298.0) == 4294967298;
    assert NarrowToInt(4294967298) == 2;
  }

  /**
   * With negative weights the sentinel is ambiguous: a known sample that
   * brings the total back to -1 triggers a second reset, so the sentinel total
   * leaves the tagged total.
   */
  lemma NegativeWeightsResetAgain()
    ensures Accumulate([Low, Low], [-1.0, 1.0]) == Observed(0.0)
    ensures SentinelTotal([Low, Low], [-1.0, 1.0]) == 1.0
  {
    assert [Low, Low][..1] == [Low];
    assert [Low][..0] == [];
  }

  /** The weighted sum of samples all of one known level is its severity times the sum of their weights. */
  lemma {:induction false} UniformWeightedSum(samples: seq<Level>, weights: seq<real>, t: Level)
    requires |samples| <= |weights| && t != Unknown
    requires forall i :: 0 <= i < |samples| ==> samples[i] == t
    ensures WeightedSum(samples, weights) == Contribution(t, Sum(weights, |samples|))
  {
    if |samples| > 0 {
      var n := |samples| - 1;
      UniformWeightedSum(samples[..n], weights, t);
      ContributionAdds(t, Sum(weights, n), weights[n]);
    }
  }

  /** Contributions of one level add up like their weights. */
  lemma ContributionAdds(t: Level, a: real, b: real)
    ensures Contribution(t, a) + Contribution(t, b) == Contribution(t, a + b)
  {
    var s := Severity(t) as real;
    assert s * a + s * b == s * (a + b);
  }

  /**
   * When non-negative weights sum to 1 and every sample is the same known
   * level, the overall level is that level.
   */
  lemma UniformSamplesGiveTheirLevel(samples: seq<Level>, weights: seq<real>, t: Level)
    requires |samples| <= |weights| && NonNegative(weights) && Sum(weights, |samples|) == 1.0
    requires 0 < |samples| && t != Unknown
    requires forall i :: 0 <= i < |samples| ==> samples[i] == t
    ensures Overall(samples, weights) == t
  {
    assert !AllUnknown(samples) by { assert samples[0] != Unknown; }
    SentinelIsWeightedSum(samples, weights);
    UniformWeightedSum(samples, weights, t);
    var n := Severity(t);
    assert Contribution(t, 1.0) == n as real;
    assert (n as real + 0.5).Floor == n;
    OverallRoundsTotal(samples, weights);
  }

  /** The six outbound weights are non-negative and sum to 1. */
  lemma OutboundWeightsSumToOne()
    ensures NonNegative(OutboundWeights)
    ensures Sum(OutboundWeights, 6) == 1.0
  {
    assert Sum(OutboundWeights, 3) == 0.5;
  }

  /** If all six outbound samples show the same known level, that level is the outbound verdict. */
  lemma OutboundUniform(samples: seq<Level>, t: Level)
    requires |samples| == 6 && t != Unknown
    requires forall i :: 0 <= i < 6 ==> samples[i] == t
    ensures Overall(samples, OutboundWeights) == t
  {
    OutboundWeightsSumToOne();
    UniformSamplesGiveTheirLevel(samples, OutboundWeights, t);
  }

  // ---------------------------------------------------------------------------
  // Worked examples
  // ---------------------------------------------------------------------------

  /** One low point of weight 1 gives Low; low and heavy at half weight each give Medium. */
  lemma KnownSamplesExamples()
    ensures Overall([Low], [1.0]) == Low
    ensures Overall([Low, Heavy], [0.5, 0.5]) == Medium
  {
    assert [Low][..0] == [];
    assert [Low, Heavy][..1] == [Low];
    assert SentinelTotal([Low, Heavy], [0.5, 0.5]) == 2.0;
  }

  /** A heavy point of weight 0.3 beside an Unknown point gives Low: the Unknown point does not pull the total to 0. */
  lemma UnknownDoesNotDilute()
    ensures SentinelTotal([Heavy, Unknown], [0.3, 0.7]) == 0.9
    ensures Overall([Heavy, Unknown], [0.3, 0.7]) == Low
  {
    assert [Heavy, Unknown][..1] == [Heavy];
    assert [Heavy][..0] == [];
  }
}
