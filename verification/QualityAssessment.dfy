// Calibration scores, the conservative aggregate, and one whole quality assessment.
module QualityAssessment {
  import opened Wrappers
  import opened Cancellation
  import opened Arithmetic
  import opened ImageStatistics
  import opened Histogram
  import opened Laplacian

  function Clamp01(x: real): (c: real) { if x < 0.0 then 0.0 else if x > 1.0 then 1.0 else x }

  function Magnitude(x: real): (m: real) { if x < 0.0 then -x else x }

  // ---------------------------------------------------------------- calibrations

  datatype Band = Band(rejectBelow: real, idealMin: real, idealMax: real, rejectAbove: real) {
    predicate Valid() {
      rejectBelow < idealMin <= idealMax < rejectAbove
    }

    function Score(value: real): (s: real)
      requires Valid()
    {
      if value <= rejectBelow || value >= rejectAbove then 0.0
      else if value < idealMin then (value - rejectBelow) / (idealMin - rejectBelow)
      else if value <= idealMax then 1.0
      else (rejectAbove - value) / (rejectAbove - idealMax)
    }
  }

  datatype LowerBound = LowerBound(rejectAtOrBelow: real, idealAtOrAbove: real) {
    predicate Valid() {
      rejectAtOrBelow < idealAtOrAbove
    }

    function Score(value: real): (s: real)
      requires Valid()
    {
      Clamp01((value - rejectAtOrBelow) / (idealAtOrAbove - rejectAtOrBelow))
    }
  }

  datatype Deviation = Deviation(idealAtOrBelow: real, rejectAtOrAbove: real) {
    predicate Valid() {
      0.0 <= idealAtOrBelow < rejectAtOrAbove
    }

    function Score(deviation: real): (s: real)
      requires Valid()
    {
      Clamp01((rejectAtOrAbove - deviation) / (rejectAtOrAbove - idealAtOrBelow))
    }
  }

  // How a quotient with a positive denominator compares with zero and one.
  lemma QuotientCompares(n: real, d: real)
    requires d > 0.0
    ensures n / d <= 0.0 <==> n <= 0.0
    ensures n / d >= 1.0 <==> n >= d
    ensures n / d == 1.0 <==> n == d
    ensures n / d == 0.0 <==> n == 0.0
  {
    var q := n / d;
    assert q * d == n;
    FactorOrder(q, 0.0, d);
    FactorOrder(1.0, q, d);
  }

  lemma QuotientOrder(n: real, n': real, d: real)
    requires d > 0.0 && n <= n'
    ensures n / d <= n' / d
  {
    assert n / d * d == n && n' / d * d == n';
    FactorOrder(n / d, n' / d, d);
  }

  // A band scores zero exactly outside its outer limits and one exactly inside its ideal range.
  lemma BandScoreLaws(band: Band, value: real)
    requires band.Valid()
    ensures Unit01(band.Score(value))
    ensures band.Score(value) == 0.0 <==> value <= band.rejectBelow || band.rejectAbove <= value
    ensures band.Score(value) == 1.0 <==> band.idealMin <= value <= band.idealMax
  {
    QuotientCompares(value - band.rejectBelow, band.idealMin - band.rejectBelow);
    QuotientCompares(band.rejectAbove - value, band.rejectAbove - band.idealMax);
  }

  lemma LowerBoundScoreLaws(bound: LowerBound, value: real, better: real)
    requires bound.Valid() && value <= better
    ensures Unit01(bound.Score(value)) && bound.Score(value) <= bound.Score(better)
    ensures bound.Score(value) == 0.0 <==> value <= bound.rejectAtOrBelow
    ensures bound.Score(value) == 1.0 <==> bound.idealAtOrAbove <= value
  {
    var d := bound.idealAtOrAbove - bound.rejectAtOrBelow;
    QuotientCompares(value - bound.rejectAtOrBelow, d);
    QuotientOrder(value - bound.rejectAtOrBelow, better - bound.rejectAtOrBelow, d);
  }

  lemma DeviationScoreLaws(limit: Deviation, value: real, worse: real)
    requires limit.Valid() && value <= worse
    ensures Unit01(limit.Score(value)) && limit.Score(worse) <= limit.Score(value)
    ensures limit.Score(value) == 0.0 <==> limit.rejectAtOrAbove <= value
    ensures limit.Score(value) == 1.0 <==> value <= limit.idealAtOrBelow
  {
    var d := limit.rejectAtOrAbove - limit.idealAtOrBelow;
    QuotientCompares(limit.rejectAtOrAbove - value, d);
    QuotientOrder(limit.rejectAtOrAbove - worse, limit.rejectAtOrAbove - value, d);
  }

  // ---------------------------------------------------------------- the conservative aggregate

  const COMPONENTS := 8

  predicate Scores(scores: seq<real>) {
    forall i :: 0 <= i < |scores| ==> Unit01(scores[i])
  }

  predicate Weights(weights: seq<real>) {
    forall i :: 0 <= i < |weights| ==> 0.01 <= weights[i] <= 100.0
  }

  function Weakest(scores: seq<real>): (m: real) {
    if scores == [] then 1.0 else Smaller(Weakest(scores[..|scores| - 1]), scores[|scores| - 1])
  }

  function WeightSum(weights: seq<real>): (w: real) {
    if weights == [] then 0.0 else WeightSum(weights[..|weights| - 1]) + weights[|weights| - 1]
  }

  predicate Positive(scores: seq<real>) {
    forall i :: 0 <= i < |scores| ==> 0.0 < scores[i] <= 1.0
  }

  function ReciprocalSum(scores: seq<real>, weights: seq<real>): (r: real)
    requires |scores| == |weights| && Positive(scores)
  {
    if scores == [] then 0.0
    else
      var n := |scores| - 1;
      ReciprocalSum(scores[..n], weights[..n]) + weights[n] / scores[n]
  }

  lemma {:induction false} WeakestIsTheMinimum(scores: seq<real>)
    requires Scores(scores)
    ensures 0.0 <= Weakest(scores) <= 1.0
    ensures forall i :: 0 <= i < |scores| ==> Weakest(scores) <= scores[i]
    ensures Weakest(scores) == 1.0 || exists i :: 0 <= i < |scores| && scores[i] == Weakest(scores)
    decreases |scores|
  {
    if scores != [] {
      var n := |scores| - 1;
      WeakestIsTheMinimum(scores[..n]);
      var w := Weakest(scores[..n]);
      if w != 1.0 && w <= scores[n] {
        var i :| 0 <= i < n && scores[..n][i] == w;
        assert scores[i] == Weakest(scores);
      } else if scores[n] < w {
        assert scores[n] == Weakest(scores);
      }
    }
  }

  lemma Reciprocal(w: real, s: real, m: real)
    requires 0.0 < m <= s <= 1.0 && 0.0 < w
    ensures w <= w / s && Product(w / s, m) <= w
  {
    var q := w / s;
    assert q * s == w;
    assert q > 0.0;
    ProductIsNotNegative(q, 1.0 - s);
    ProductIsNotNegative(q, s - m);
    assert Product(q, 1.0 - s) == q - q * s;
    assert Product(q, s - m) == q * s - q * m;
  }

  lemma AddedProduct(a: real, b: real, m: real)
    ensures Product(a + b, m) == Product(a, m) + Product(b, m)
  {
  }

  lemma {:induction false} ReciprocalSumBounds(scores: seq<real>, weights: seq<real>, m: real)
    requires |scores| == |weights| && Positive(scores) && Weights(weights) && 0.0 < m
    requires forall i :: 0 <= i < |scores| ==> m <= scores[i]
    ensures 0.01 * |scores| as real <= WeightSum(weights) <= ReciprocalSum(scores, weights)
    ensures Product(ReciprocalSum(scores, weights), m) <= WeightSum(weights)
    decreases |scores|
  {
    if scores != [] {
      var n := |scores| - 1;
      ReciprocalSumBounds(scores[..n], weights[..n], m);
      Reciprocal(weights[n], scores[n], m);
      AddedProduct(ReciprocalSum(scores[..n], weights[..n]), weights[n] / scores[n], m);
    }
  }

  function Harmonic(scores: seq<real>, weights: seq<real>): (h: real)
    requires |scores| == |weights| && Positive(scores) && ReciprocalSum(scores, weights) > 0.0
  {
    WeightSum(weights) / ReciprocalSum(scores, weights)
  }

  // The weighted harmonic mean, capped a little above the weakest component.
  ghost predicate IsAggregate(scores: seq<real>, weights: seq<real>, headroom: real, a: real)
    requires |scores| == |weights|
  {
    if Weakest(scores) == 0.0 then a == 0.0
    else Positive(scores) && ReciprocalSum(scores, weights) > 0.0
         && a == Smaller(Harmonic(scores, weights), Smaller(Weakest(scores) + headroom, 1.0))
  }

  lemma RatioBounds(w: real, r: real, m: real)
    requires 0.0 < w <= r && Product(r, m) <= w
    ensures m <= w / r <= 1.0
  {
    var q := w / r;
    assert q * r == w;
    FactorOrder(m, q, r);
    FactorOrder(q, 1.0, r);
  }

  lemma WeakestIsPositive(scores: seq<real>)
    requires Scores(scores) && Weakest(scores) != 0.0
    ensures Positive(scores)
  {
    WeakestIsTheMinimum(scores);
  }

  lemma SumsArePositive(scores: seq<real>, weights: seq<real>, m: real)
    requires 0 < |scores| == |weights| && Positive(scores) && Weights(weights) && 0.0 < m
    requires forall i :: 0 <= i < |scores| ==> m <= scores[i]
    ensures 0.0 < WeightSum(weights) <= ReciprocalSum(scores, weights)
  {
    ReciprocalSumBounds(scores, weights, m);
    hide WeightSum;
    hide ReciprocalSum;
    assert |scores| as real >= 1.0;
  }

  lemma HarmonicIsARatio(scores: seq<real>, weights: seq<real>, m: real)
    requires |scores| == |weights| && Positive(scores)
    requires 0.0 < WeightSum(weights) <= ReciprocalSum(scores, weights)
    requires Product(ReciprocalSum(scores, weights), m) <= WeightSum(weights)
    ensures m <= Harmonic(scores, weights) <= 1.0
  {
    var w, r := WeightSum(weights), ReciprocalSum(scores, weights);
    hide WeightSum;
    hide ReciprocalSum;
    hide Positive;
    RatioBounds(w, r, m);
  }

  lemma HarmonicBounds(scores: seq<real>, weights: seq<real>)
    requires 0 < |scores| == |weights| && Scores(scores) && Weights(weights) && Weakest(scores) != 0.0
    ensures Positive(scores) && 0.0 < WeightSum(weights) && 0.0 < ReciprocalSum(scores, weights)
    ensures Weakest(scores) <= Harmonic(scores, weights) <= 1.0
  {
    WeakestIsTheMinimum(scores);
    WeakestIsPositive(scores);
    hide *;
    SumsArePositive(scores, weights, Weakest(scores));
    ReciprocalSumBounds(scores, weights, Weakest(scores));
    HarmonicIsARatio(scores, weights, Weakest(scores));
  }

  // Between the weakest component and the weakest plus its headroom; zero exactly when a component is.
  lemma AggregateIsConservative(scores: seq<real>, weights: seq<real>, headroom: real, a: real)
    requires 0 < |scores| == |weights| && Scores(scores) && Weights(weights) && 0.0 <= headroom <= 0.5
    requires IsAggregate(scores, weights, headroom, a)
    ensures Weakest(scores) <= a <= Smaller(1.0, Weakest(scores) + headroom)
    ensures a == 0.0 <==> exists i :: 0 <= i < |scores| && scores[i] == 0.0
  {
    WeakestIsTheMinimum(scores);
    if Weakest(scores) != 0.0 { HarmonicBounds(scores, weights); }
    hide Weakest;
    hide Harmonic;
  }

  lemma SmallerReciprocal(w: real, s: real, t: real)
    requires 0.0 < s <= t && 0.0 < w
    ensures w / t <= w / s
  {
    var p, q := w / t, w / s;
    assert p * t == w && q * s == w;
    assert p > 0.0;
    ProductIsNotNegative(p, t - s);
    assert Product(p, t - s) == p * t - p * s;
    FactorOrder(p, q, s);
  }

  lemma {:induction false} ReciprocalSumFalls(scores: seq<real>, better: seq<real>, weights: seq<real>)
    requires |scores| == |better| == |weights| && Positive(scores) && Positive(better) && Weights(weights)
    requires forall i :: 0 <= i < |scores| ==> scores[i] <= better[i]
    ensures ReciprocalSum(better, weights) <= ReciprocalSum(scores, weights)
    decreases |scores|
  {
    if scores != [] {
      var n := |scores| - 1;
      ReciprocalSumFalls(scores[..n], better[..n], weights[..n]);
      SmallerReciprocal(weights[n], scores[n], better[n]);
    }
  }

  lemma WeakestRises(scores: seq<real>, better: seq<real>)
    requires |scores| == |better| && Scores(scores) && Scores(better)
    requires forall i :: 0 <= i < |scores| ==> scores[i] <= better[i]
    ensures Weakest(scores) <= Weakest(better)
  {
    WeakestIsTheMinimum(scores);
    WeakestIsTheMinimum(better);
  }

  lemma HarmonicRises(scores: seq<real>, better: seq<real>, weights: seq<real>)
    requires 0 < |scores| == |better| == |weights| && Scores(scores) && Scores(better) && Weights(weights)
    requires forall i :: 0 <= i < |scores| ==> scores[i] <= better[i]
    requires Weakest(scores) != 0.0 && Weakest(better) != 0.0
    ensures Positive(scores) && ReciprocalSum(scores, weights) > 0.0
    ensures Positive(better) && ReciprocalSum(better, weights) > 0.0
    ensures Harmonic(scores, weights) <= Harmonic(better, weights)
  {
    hide Weakest;
    hide WeightSum;
    hide ReciprocalSum;
    HarmonicBounds(scores, weights);
    HarmonicBounds(better, weights);
    ReciprocalSumFalls(scores, better, weights);
    SmallerReciprocal(WeightSum(weights), ReciprocalSum(better, weights), ReciprocalSum(scores, weights));
  }

  // Improving any components never lowers the aggregate.
  lemma AggregateIsMonotone(scores: seq<real>, better: seq<real>, weights: seq<real>, headroom: real, a: real, b: real)
    requires 0 < |scores| == |better| == |weights| && Scores(scores) && Scores(better) && Weights(weights)
    requires 0.0 <= headroom <= 0.5
    requires forall i :: 0 <= i < |scores| ==> scores[i] <= better[i]
    requires IsAggregate(scores, weights, headroom, a) && IsAggregate(better, weights, headroom, b)
    ensures a <= b
  {
    hide Weakest;
    hide Harmonic;
    hide ReciprocalSum;
    WeakestRises(scores, better);
    WeakestIsTheMinimum(scores);
    AggregateIsConservative(better, weights, headroom, b);
    if Weakest(scores) != 0.0 { HarmonicRises(scores, better, weights); }
  }

  method ConservativeAggregate(scores: seq<real>, weights: seq<real>, headroom: real) returns (a: real)
    requires |scores| == |weights| == COMPONENTS && Scores(scores) && Weights(weights) && 0.0 <= headroom <= 0.5
    ensures IsAggregate(scores, weights, headroom, a)
  {
    var weakest := 1.0;
    for i := 0 to |scores|
      invariant weakest == Weakest(scores[..i])
    {
      assert scores[..i + 1][..i] == scores[..i];
      weakest := Smaller(weakest, scores[i]);
    }
    assert scores[..|scores|] == scores;
    if weakest == 0.0 { return 0.0; }
    HarmonicBounds(scores, weights);
    hide Weakest;
    var weightSum, reciprocalSum := 0.0, 0.0;
    for i := 0 to |scores|
      invariant weightSum == WeightSum(weights[..i])
      invariant Positive(scores[..i]) && reciprocalSum == ReciprocalSum(scores[..i], weights[..i])
    {
      assert scores[..i + 1][..i] == scores[..i] && weights[..i + 1][..i] == weights[..i];
      weightSum := weightSum + weights[i];
      reciprocalSum := reciprocalSum + weights[i] / scores[i];
    }
    assert weights[..|scores|] == weights;
    a := Smaller(weightSum / reciprocalSum, Smaller(weakest + headroom, 1.0));
  }

  // ---------------------------------------------------------------- configuration

  datatype QualityConfig = QualityConfig(
    maxImagePixels: nat, minimumFaceWidth: u32, minimumFaceHeight: u32, lowPercentile: u8, highPercentile: u8,
    exposure: Band, darkClip: u8, brightClip: u8, clippedFraction: Deviation, dynamicRange: LowerBound,
    sharpness: LowerBound, faceFraction: Band, horizontalCentering: Deviation, verticalCentering: Deviation,
    yaw: Deviation, pitch: Deviation, roll: Deviation, visibility: LowerBound, landmarkConfidence: LowerBound,
    weights: seq<real>, headroom: real)

  predicate ValidConfig(c: QualityConfig) {
    && 9 <= c.maxImagePixels <= ABSOLUTE_MAX_IMAGE_PIXELS
    && 3 <= c.minimumFaceWidth <= ABSOLUTE_MAX_IMAGE_DIMENSION
    && 3 <= c.minimumFaceHeight <= ABSOLUTE_MAX_IMAGE_DIMENSION
    && Area(c.minimumFaceWidth, c.minimumFaceHeight) <= c.maxImagePixels
    && 1 <= c.lowPercentile <= 49 && 51 <= c.highPercentile <= 99
    && c.exposure.Valid() && 0.0 <= c.exposure.rejectBelow && c.exposure.rejectAbove <= 255.0
    && c.darkClip < c.brightClip
    && c.clippedFraction.Valid() && c.clippedFraction.rejectAtOrAbove <= 1.0
    && c.dynamicRange.Valid() && 0.0 <= c.dynamicRange.rejectAtOrBelow && c.dynamicRange.idealAtOrAbove <= 255.0
    && c.sharpness.Valid() && 0.0 <= c.sharpness.rejectAtOrBelow && c.sharpness.idealAtOrAbove <= 16.0
    && c.faceFraction.Valid() && 0.0 <= c.faceFraction.rejectBelow && c.faceFraction.rejectAbove <= 1.0
    && c.horizontalCentering.Valid() && c.horizontalCentering.rejectAtOrAbove <= 0.5
    && c.verticalCentering.Valid() && c.verticalCentering.rejectAtOrAbove <= 0.5
    && c.yaw.Valid() && c.yaw.rejectAtOrAbove <= 90.0
    && c.pitch.Valid() && c.pitch.rejectAtOrAbove <= 90.0
    && c.roll.Valid() && c.roll.rejectAtOrAbove <= 180.0
    && c.visibility.Valid() && 0.0 <= c.visibility.rejectAtOrBelow && c.visibility.idealAtOrAbove <= 1.0
    && c.landmarkConfidence.Valid() && 0.0 <= c.landmarkConfidence.rejectAtOrBelow
    && c.landmarkConfidence.idealAtOrAbove <= 1.0
    && |c.weights| == COMPONENTS && Weights(c.weights)
    && 0.0 <= c.headroom <= 0.5
  }

  // ---------------------------------------------------------------- measurements and components

  datatype Measurements = Measurements(
    meanLuma: real, clippedFraction: real, dynamicRange: real, normalizedVariance: real, faceFraction: real)

  datatype Report = Report(aggregate: real, components: seq<real>, measurements: Measurements)

  // What the two scans of a region's pixels measure.
  ghost predicate Measures(m: Measurements, s: seq<u8>, laplacians: seq<int>, g: FaceGeometry, c: QualityConfig)
    requires 0 < |s| <= ABSOLUTE_MAX_IMAGE_PIXELS && laplacians != [] && ValidConfig(c)
  {
    && m.meanLuma == Sum(s) as real / |s| as real
    && m.clippedFraction == (CountIn(s, 0, c.darkClip) + CountIn(s, c.brightClip, 255)) as real / |s| as real
    && m.dynamicRange == (Percentile(s, c.highPercentile) as int - Percentile(s, c.lowPercentile)) as real
    && m.normalizedVariance == PopulationVariance(laplacians) / 65_025.0
    && m.faceFraction == Product(g.width, g.height)
  }

  function Components(m: Measurements, g: FaceGeometry, c: QualityConfig): (s: seq<real>)
    requires ValidConfig(c)
    ensures |s| == COMPONENTS
  {
    [Smaller(c.exposure.Score(m.meanLuma), c.clippedFraction.Score(m.clippedFraction)),
     c.dynamicRange.Score(m.dynamicRange),
     c.sharpness.Score(m.normalizedVariance),
     c.faceFraction.Score(m.faceFraction),
     Smaller(c.horizontalCentering.Score(Magnitude(g.centerX - 0.5)),
             c.verticalCentering.Score(Magnitude(g.centerY - 0.5))),
     Smaller(Smaller(c.yaw.Score(Magnitude(g.yaw)), c.pitch.Score(Magnitude(g.pitch))),
             c.roll.Score(Magnitude(g.roll))),
     c.visibility.Score(g.visibleFraction),
     c.landmarkConfidence.Score(g.landmarkConfidence)]
  }

  lemma ComponentsAreScores(m: Measurements, g: FaceGeometry, c: QualityConfig)
    requires ValidConfig(c)
    ensures Scores(Components(m, g, c))
  {
    BandScoreLaws(c.exposure, m.meanLuma);
    DeviationScoreLaws(c.clippedFraction, m.clippedFraction, m.clippedFraction);
    LowerBoundScoreLaws(c.dynamicRange, m.dynamicRange, m.dynamicRange);
    LowerBoundScoreLaws(c.sharpness, m.normalizedVariance, m.normalizedVariance);
    BandScoreLaws(c.faceFraction, m.faceFraction);
    var x, y := Magnitude(g.centerX - 0.5), Magnitude(g.centerY - 0.5);
    DeviationScoreLaws(c.horizontalCentering, x, x);
    DeviationScoreLaws(c.verticalCentering, y, y);
    DeviationScoreLaws(c.yaw, Magnitude(g.yaw), Magnitude(g.yaw));
    DeviationScoreLaws(c.pitch, Magnitude(g.pitch), Magnitude(g.pitch));
    DeviationScoreLaws(c.roll, Magnitude(g.roll), Magnitude(g.roll));
    LowerBoundScoreLaws(c.visibility, g.visibleFraction, g.visibleFraction);
    LowerBoundScoreLaws(c.landmarkConfidence, g.landmarkConfidence, g.landmarkConfidence);
  }

  // Component `i` has a measurement at its rejection limit; angles and offsets count by their size alone.
  predicate RejectsAt(i: nat, m: Measurements, g: FaceGeometry, c: QualityConfig) {
    match i
    case 0 => || m.meanLuma <= c.exposure.rejectBelow || c.exposure.rejectAbove <= m.meanLuma
              || c.clippedFraction.rejectAtOrAbove <= m.clippedFraction
    case 1 => m.dynamicRange <= c.dynamicRange.rejectAtOrBelow
    case 2 => m.normalizedVariance <= c.sharpness.rejectAtOrBelow
    case 3 => m.faceFraction <= c.faceFraction.rejectBelow || c.faceFraction.rejectAbove <= m.faceFraction
    case 4 => || AtLeast(g.centerX - 0.5, c.horizontalCentering.rejectAtOrAbove)
              || AtLeast(g.centerY - 0.5, c.verticalCentering.rejectAtOrAbove)
    case 5 => || AtLeast(g.yaw, c.yaw.rejectAtOrAbove) || AtLeast(g.pitch, c.pitch.rejectAtOrAbove)
              || AtLeast(g.roll, c.roll.rejectAtOrAbove)
    case 6 => g.visibleFraction <= c.visibility.rejectAtOrBelow
    case _ => g.landmarkConfidence <= c.landmarkConfidence.rejectAtOrBelow
  }

  predicate Rejects(m: Measurements, g: FaceGeometry, c: QualityConfig) {
    exists i: nat :: i < COMPONENTS && RejectsAt(i, m, g, c)
  }

  predicate AtLeast(offset: real, limit: real) { offset <= -limit || limit <= offset }

  predicate Within(offset: real, limit: real) { -limit <= offset <= limit }

  // Component `i` has all its measurements in their ideal ranges.
  predicate IdealAt(i: nat, m: Measurements, g: FaceGeometry, c: QualityConfig) {
    match i
    case 0 => && c.exposure.idealMin <= m.meanLuma <= c.exposure.idealMax
              && m.clippedFraction <= c.clippedFraction.idealAtOrBelow
    case 1 => c.dynamicRange.idealAtOrAbove <= m.dynamicRange
    case 2 => c.sharpness.idealAtOrAbove <= m.normalizedVariance
    case 3 => c.faceFraction.idealMin <= m.faceFraction <= c.faceFraction.idealMax
    case 4 => && Within(g.centerX - 0.5, c.horizontalCentering.idealAtOrBelow)
              && Within(g.centerY - 0.5, c.verticalCentering.idealAtOrBelow)
    case 5 => && Within(g.yaw, c.yaw.idealAtOrBelow) && Within(g.pitch, c.pitch.idealAtOrBelow)
              && Within(g.roll, c.roll.idealAtOrBelow)
    case 6 => c.visibility.idealAtOrAbove <= g.visibleFraction
    case _ => c.landmarkConfidence.idealAtOrAbove <= g.landmarkConfidence
  }

  predicate Ideal(m: Measurements, g: FaceGeometry, c: QualityConfig) {
    forall i: nat :: i < COMPONENTS ==> IdealAt(i, m, g, c)
  }

  lemma ComponentLimits(i: nat, m: Measurements, g: FaceGeometry, c: QualityConfig)
    requires ValidConfig(c) && i < COMPONENTS
    ensures Components(m, g, c)[i] == 0.0 <==> RejectsAt(i, m, g, c)
    ensures Components(m, g, c)[i] == 1.0 <==> IdealAt(i, m, g, c)
  {
    hide Band.Score;
    hide LowerBound.Score;
    hide Deviation.Score;
    hide Magnitude;
    match i
    case 0 =>
      BandScoreLaws(c.exposure, m.meanLuma);
      DeviationScoreLaws(c.clippedFraction, m.clippedFraction, m.clippedFraction);
    case 1 => LowerBoundScoreLaws(c.dynamicRange, m.dynamicRange, m.dynamicRange);
    case 2 => LowerBoundScoreLaws(c.sharpness, m.normalizedVariance, m.normalizedVariance);
    case 3 => BandScoreLaws(c.faceFraction, m.faceFraction);
    case 4 =>
      OffsetScores(c.horizontalCentering, g.centerX - 0.5);
      OffsetScores(c.verticalCentering, g.centerY - 0.5);
    case 5 =>
      OffsetScores(c.yaw, g.yaw);
      OffsetScores(c.pitch, g.pitch);
      OffsetScores(c.roll, g.roll);
    case 6 => LowerBoundScoreLaws(c.visibility, g.visibleFraction, g.visibleFraction);
    case _ => LowerBoundScoreLaws(c.landmarkConfidence, g.landmarkConfidence, g.landmarkConfidence);
  }

  lemma OffsetScores(limit: Deviation, offset: real)
    requires limit.Valid()
    ensures Unit01(limit.Score(Magnitude(offset)))
    ensures limit.Score(Magnitude(offset)) == 0.0 <==> AtLeast(offset, limit.rejectAtOrAbove)
    ensures limit.Score(Magnitude(offset)) == 1.0 <==> Within(offset, limit.idealAtOrBelow)
  {
    DeviationScoreLaws(limit, Magnitude(offset), Magnitude(offset));
  }

  // A face scores nothing exactly when some measurement reaches its rejection limit, and everything when
  // all are ideal.
  lemma AggregateIsZeroIffRejected(m: Measurements, g: FaceGeometry, c: QualityConfig, a: real)
    requires ValidConfig(c) && IsAggregate(Components(m, g, c), c.weights, c.headroom, a)
    ensures a == 0.0 <==> Rejects(m, g, c)
    ensures Ideal(m, g, c) ==> a == 1.0
  {
    hide Components;
    hide RejectsAt;
    hide IdealAt;
    hide IsAggregate;
    hide ValidConfig;
    var s := Components(m, g, c);
    forall i: nat | i < COMPONENTS
      ensures (s[i] == 0.0 <==> RejectsAt(i, m, g, c)) && (s[i] == 1.0 <==> IdealAt(i, m, g, c))
    {
      ComponentLimits(i, m, g, c);
    }
    ComponentsAreScores(m, g, c);
    ConfigHasWeights(c);
    AggregateIsConservative(s, c.weights, c.headroom, a);
    WeakestIsTheMinimum(s);
  }

  lemma ConfigHasWeights(c: QualityConfig)
    requires ValidConfig(c)
    ensures |c.weights| == COMPONENTS && Weights(c.weights) && 0.0 <= c.headroom <= 0.5
  {
  }

  // One view is no better than another in any respect; exposure and face size have two sides, so they
  // are compared between equals.
  predicate NoBetter(m: Measurements, g: FaceGeometry, m': Measurements, g': FaceGeometry) {
    && m.meanLuma == m'.meanLuma && m.faceFraction == m'.faceFraction
    && m.clippedFraction >= m'.clippedFraction && m.dynamicRange <= m'.dynamicRange
    && m.normalizedVariance <= m'.normalizedVariance
    && Further(g.centerX - 0.5, g'.centerX - 0.5) && Further(g.centerY - 0.5, g'.centerY - 0.5)
    && Further(g.yaw, g'.yaw) && Further(g.pitch, g'.pitch) && Further(g.roll, g'.roll)
    && g.visibleFraction <= g'.visibleFraction && g.landmarkConfidence <= g'.landmarkConfidence
  }

  predicate Further(offset: real, other: real) { AtLeast(offset, other) && AtLeast(offset, -other) }

  lemma FurtherScoresLess(limit: Deviation, offset: real, other: real)
    requires limit.Valid() && Further(offset, other)
    ensures limit.Score(Magnitude(offset)) <= limit.Score(Magnitude(other))
  {
    DeviationScoreLaws(limit, Magnitude(other), Magnitude(offset));
  }

  lemma ComponentsAreMonotone(m: Measurements, g: FaceGeometry, m': Measurements, g': FaceGeometry, c: QualityConfig)
    requires ValidConfig(c) && NoBetter(m, g, m', g')
    ensures forall i :: 0 <= i < COMPONENTS ==> Components(m, g, c)[i] <= Components(m', g', c)[i]
  {
    DeviationScoreLaws(c.clippedFraction, m'.clippedFraction, m.clippedFraction);
    LowerBoundScoreLaws(c.dynamicRange, m.dynamicRange, m'.dynamicRange);
    LowerBoundScoreLaws(c.sharpness, m.normalizedVariance, m'.normalizedVariance);
    FurtherScoresLess(c.horizontalCentering, g.centerX - 0.5, g'.centerX - 0.5);
    FurtherScoresLess(c.verticalCentering, g.centerY - 0.5, g'.centerY - 0.5);
    FurtherScoresLess(c.yaw, g.yaw, g'.yaw);
    FurtherScoresLess(c.pitch, g.pitch, g'.pitch);
    FurtherScoresLess(c.roll, g.roll, g'.roll);
    LowerBoundScoreLaws(c.visibility, g.visibleFraction, g'.visibleFraction);
    LowerBoundScoreLaws(c.landmarkConfidence, g.landmarkConfidence, g'.landmarkConfidence);
    hide ValidConfig;
    hide Band.Score;
    hide LowerBound.Score;
    hide Deviation.Score;
    hide Magnitude;
  }

  // A view that is no better in any respect never scores more; in particular mirrored poses score alike.
  lemma WorseViewsScoreNoMore(m: Measurements, g: FaceGeometry, m': Measurements, g': FaceGeometry, c: QualityConfig,
                              a: real, b: real)
    requires ValidConfig(c) && NoBetter(m, g, m', g')
    requires IsAggregate(Components(m, g, c), c.weights, c.headroom, a)
    requires IsAggregate(Components(m', g', c), c.weights, c.headroom, b)
    ensures a <= b
  {
    ComponentsAreMonotone(m, g, m', g', c);
    ComponentsAreScores(m, g, c);
    ComponentsAreScores(m', g', c);
    AggregateIsMonotone(Components(m, g, c), Components(m', g', c), c.weights, c.headroom, a, b);
  }

  // Every measurement lies in the range its calibration is validated against.
  lemma MeasurementsAreInRange(m: Measurements, s: seq<u8>, laplacians: seq<int>, g: FaceGeometry, c: QualityConfig)
    requires 0 < |s| <= ABSOLUTE_MAX_IMAGE_PIXELS && laplacians != [] && ValidConfig(c)
    requires Measures(m, s, laplacians, g, c) && Bounded(laplacians) && ValidateGeometry(g).Success?
    ensures 0.0 <= m.meanLuma <= 255.0 && 0.0 <= m.clippedFraction <= 1.0 && 0.0 <= m.dynamicRange <= 255.0
    ensures 0.0 <= m.normalizedVariance <= 16.0 && 0.0 <= m.faceFraction <= 1.0
  {
    hide PopulationVariance;
    hide Percentile;
    hide CountIn;
    hide Sum;
    hide Product;
    VarianceIsBounded(laplacians);
    SumIsBounded(s);
    QuotientBound(Sum(s) as real, |s|, 255.0);
    CountsAreDisjoint(s, c.darkClip, c.brightClip);
    QuotientBound((CountIn(s, 0, c.darkClip) + CountIn(s, c.brightClip, 255)) as real, |s|, 1.0);
    PercentilesAreOrdered(s, c.lowPercentile, c.highPercentile);
    FractionOfFraction(g.width, g.height);
  }

  lemma FractionOfFraction(x: real, y: real)
    requires Unit01(x) && Unit01(y)
    ensures Unit01(Product(x, y))
  {
    ProductIsNotNegative(x, y);
    ProductIsNotNegative(x, 1.0 - y);
    assert Product(x, 1.0 - y) == x - Product(x, y);
  }

  lemma CountsAreDisjoint(s: seq<u8>, dark: u8, bright: u8)
    requires dark < bright
    ensures CountIn(s, 0, dark) + CountIn(s, bright, 255) <= |s|
  {
    CountOfAll(s, 0, 255);
    CountSplits(s, 0, dark, 255);
    CountSplits(s, dark + 1, bright - 1, 255);
  }

  // ---------------------------------------------------------------- the assessment

  // The failures decided before any pixel is read, in the order they are checked.
  function Admission(view: ImageView, g: FaceGeometry, c: QualityConfig): (r: Result<Region, QualityError>)
    requires Packed(view)
    ensures r.Success? ==> ValidConfig(c) && ValidateGeometry(g).Success? && r.value.Inside(view)
    ensures r.Success? ==> r.value.Width() >= 3 && r.value.Height() >= 3
  {
    if !ValidConfig(c) then Failure(InvalidConfig)
    else if ValidateGeometry(g).Failure? then Failure(ValidateGeometry(g).error)
    else if Area(view.width, view.height) > c.maxImagePixels
    then Failure(ConfiguredImageLimitExceeded(Area(view.width, view.height), c.maxImagePixels))
    else
      ValidGeometryHasARegion(view, g);
      var region := RegionFromGeometry(view.width, view.height, g).value;
      if region.Width() < c.minimumFaceWidth || region.Height() < c.minimumFaceHeight
      then Failure(FaceRegionTooSmall(region.Width(), region.Height()))
      else Success(region)
  }

  ghost predicate Reports(view: ImageView, region: Region, g: FaceGeometry, c: QualityConfig, report: Report)
    requires Packed(view) && region.Inside(view) && ValidConfig(c) && region.Width() >= 3 && region.Height() >= 3
  {
    LumasOfRegion(view, region);
    SomeInterior(view, region);
    && Measures(report.measurements, Lumas(view, region), Laplacians(view, region), g, c)
    && report.components == Components(report.measurements, g, c)
    && IsAggregate(report.components, c.weights, c.headroom, report.aggregate)
  }

  lemma LumasOfRegion(view: ImageView, region: Region)
    requires Packed(view) && region.Inside(view)
    ensures 0 < |Lumas(view, region)| <= ABSOLUTE_MAX_IMAGE_PIXELS
  {
    RegionIsBounded(view, region);
    AreaIsPositive(region.Width(), region.Height());
  }

  // The ranges every consumer of a report relies on.
  predicate InRange(report: Report) {
    && 0.0 <= report.measurements.meanLuma <= 255.0 && Unit01(report.measurements.clippedFraction)
    && 0.0 <= report.measurements.dynamicRange <= 255.0 && 0.0 <= report.measurements.normalizedVariance <= 16.0
    && Unit01(report.measurements.faceFraction)
    && Scores(report.components) && Unit01(report.aggregate)
  }

  // The Laplacians of a scanned region are bounded, so its normalized variance is at most the ceiling
  // that configuration validation assumes; everything else in a report is in range with it.
  lemma ReportIsInRange(view: ImageView, region: Region, g: FaceGeometry, c: QualityConfig, report: Report)
    requires Packed(view) && region.Inside(view) && ValidConfig(c) && region.Width() >= 3 && region.Height() >= 3
    requires ValidateGeometry(g).Success? && Reports(view, region, g, c, report)
    ensures InRange(report)
  {
    LumasOfRegion(view, region);
    SomeInterior(view, region);
    RowsAreBounded(view, region, region.bottom - 1);
    MeasurementsAreInRange(report.measurements, Lumas(view, region), Laplacians(view, region), g, c);
    ComponentsAreScores(report.measurements, g, c);
    AggregateIsConservative(report.components, c.weights, c.headroom, report.aggregate);
    WeakestIsTheMinimum(report.components);
  }

  method Measure(statistics: LumaStatistics, variance: real, g: FaceGeometry, c: QualityConfig,
                 ghost s: seq<u8>, ghost laplacians: seq<int>) returns (m: Measurements)
    requires ValidConfig(c) && 0 < |s| <= ABSOLUTE_MAX_IMAGE_PIXELS && Describes(statistics, s)
    requires laplacians != [] && variance == PopulationVariance(laplacians)
    ensures Measures(m, s, laplacians, g, c)
  {
    hide PopulationVariance;
    hide CountIn;
    hide Product;
    hide Percentile;
    var low := HistogramPercentile(statistics.histogram, statistics.pixelCount, c.lowPercentile, s);
    var high := HistogramPercentile(statistics.histogram, statistics.pixelCount, c.highPercentile, s);
    PercentilesAreOrdered(s, c.lowPercentile, c.highPercentile);
    var dark := HistogramCountInclusive(statistics.histogram, 0, c.darkClip, s);
    var bright := HistogramCountInclusive(statistics.histogram, c.brightClip, 255, s);
    CountsAreDisjoint(s, c.darkClip, c.brightClip);
    var clipped: u32 := dark + bright;
    m := Measurements(statistics.lumaSum as real / statistics.pixelCount as real,
                      clipped as real / statistics.pixelCount as real,
                      SaturatingSub(high, low) as real, variance / 65_025.0, Product(g.width, g.height));
  }

  // Once admitted, only cancellation can keep an image from being reported on.
  method Assess(view: ImageView, g: FaceGeometry, c: QualityConfig, probe: CancelProbe)
    returns (r: Result<Report, QualityError>)
    requires Packed(view)
    modifies probe
    ensures !Quiet(probe, old(probe.polls)) ==> r == Failure(Cancelled)
    ensures Quiet(probe, old(probe.polls)) && Admission(view, g, c).Failure? ==>
              r == Failure(Admission(view, g, c).error)
    ensures Quiet(probe, old(probe.polls)) && Admission(view, g, c).Success? ==>
              r.Success? && Reports(view, Admission(view, g, c).value, g, c, r.value) && InRange(r.value)
  {
    ghost var start := probe.polls;
    var check := CheckCancelled(probe, start);
    if check.Failure? { return Failure(check.error); }
    var admission := Admission(view, g, c);
    if admission.Failure? { return Failure(admission.error); }
    var region := admission.value;
    r := AssessRegion(view, region, g, c, probe, start);
    if r.Success? { ReportIsInRange(view, region, g, c, r.value); }
  }

  method AssessRegion(view: ImageView, region: Region, g: FaceGeometry, c: QualityConfig, probe: CancelProbe,
                      ghost start: nat)
    returns (r: Result<Report, QualityError>)
    requires Packed(view) && region.Inside(view) && ValidConfig(c) && region.Width() >= 3 && region.Height() >= 3
    requires start <= probe.polls && Quiet(probe, start)
    modifies probe
    ensures old(probe.polls) <= probe.polls
    ensures !Quiet(probe, start) ==> r == Failure(Cancelled)
    ensures Quiet(probe, start) ==> r.Success? && Reports(view, region, g, c, r.value)
  {
    LumasOfRegion(view, region);
    SomeInterior(view, region);
    assert |c.weights| == COMPONENTS && Weights(c.weights) && 0.0 <= c.headroom <= 0.5;
    hide Packed;
    hide Lumas;
    hide Laplacians;
    hide PopulationVariance;
    hide Describes;
    hide Quiet;
    hide ValidConfig;
    hide Measures;
    hide IsAggregate;
    hide Components;
    var statistics := ScanLuma(view, region, probe, start);
    if statistics.Failure? { return Failure(statistics.error); }
    var variance := ScanLaplacian(view, region, probe, start);
    if variance.Failure? { return Failure(variance.error); }
    var check := CheckCancelled(probe, start);
    if check.Failure? { return Failure(check.error); }
    var m := Measure(statistics.value, variance.value, g, c, Lumas(view, region), Laplacians(view, region));
    ComponentsAreScores(m, g, c);
    var components := Components(m, g, c);
    var aggregate := ConservativeAggregate(components, c.weights, c.headroom);
    r := Success(Report(aggregate, components, m));
  }
}
