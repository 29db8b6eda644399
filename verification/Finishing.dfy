// When a ready enrollment session is sure to aggregate: the exact condition on its configuration.
module Finishing {
  import opened Wrappers
  import opened Arithmetic
  import opened Vectors
  import opened Aggregation
  import opened Simplex
  import opened Enrollment

  // The weight left in `n` samples at the quality floor, and what the similarity floor leaves of their sum.
  function LeastWeight(config: EnrollmentConfig, n: nat): (w: real) { n as real * config.minimumQuality }

  function LeastNorm(config: EnrollmentConfig, n: nat): (m: real) {
    Product(Product(n as real, Square(config.minimumQuality)), Margin(n, 2.0 * config.minimumSimilarity - 1.0))
  }

  predicate Robust(config: EnrollmentConfig, n: nat) {
    LeastWeight(config, n) > EPSILON && LeastNorm(config, n) > Square(EPSILON)
  }

  lemma RobustMeansMargin(config: EnrollmentConfig, n: nat)
    requires 2 <= n && Robust(config, n)
    ensures Margin(n, 2.0 * config.minimumSimilarity - 1.0) > 0.0 && config.minimumSimilarity > 0.0
  {
    var m := Margin(n, 2.0 * config.minimumSimilarity - 1.0);
    SquareIsNotNegative(config.minimumQuality);
    ProductIsNotNegative(n as real, Square(config.minimumQuality));
    if m <= 0.0 { ProductIsNotNegative(Product(n as real, Square(config.minimumQuality)), -m); }
    FloorIsMargin(n, config.minimumSimilarity);
  }

  lemma LongerRoot(root: real)
    requires 0.0 <= root <= EPSILON
    ensures Product(root, root) <= Square(EPSILON)
  {
    SquareOrder(root, EPSILON);
  }

  // A ready session of unit samples aggregates whenever its configuration is robust for their number.
  lemma ReadyMeansFinishable(s: SessionState, root: real)
    requires Inv(s) && Ready(s) && IsNorm(s, root) && Units(s.samples) && Robust(s.config, |s.samples|)
    ensures !Degenerate(s, root)
  {
    var n, low := |s.samples|, 2.0 * s.config.minimumSimilarity - 1.0;
    var q := s.config.minimumQuality;
    WeightedQualities(s);
    RobustMeansMargin(s.config, n);
    FloorBoundsPairs(s.samples, s.dimension.value, s.config.minimumSimilarity);
    CentroidIsLong(s.samples, s.qualities, s.dimension.value, low, q);
    SumsAreAtLeast(s.qualities, q);
    LeastsAreProducts(s.config, n);
    assert root >= 0.0 && Product(root, root) == NormSquared(Combined(s.samples, s.qualities, s.dimension.value));
    assert LeastWeight(s.config, n) > EPSILON && LeastNorm(s.config, n) > Square(EPSILON);
    assert Degenerate(s, root) <==> TotalWeight(s.qualities) <= EPSILON || root <= EPSILON;
    hide *;
    if root <= EPSILON { LongerRoot(root); }
  }

  lemma LeastsAreProducts(config: EnrollmentConfig, n: nat)
    ensures LeastWeight(config, n) == Product(n as real, config.minimumQuality)
    ensures LeastNorm(config, n) == Product(Product(n as real, Square(config.minimumQuality)),
                                            Margin(n, 2.0 * config.minimumSimilarity - 1.0))
  {
  }

  // A similarity floor of a half and a quality floor that is not negligible are enough for any number.
  lemma HalfFloorIsRobust(config: EnrollmentConfig, n: nat)
    requires 2 <= n && 0.5 <= config.minimumSimilarity && EPSILON <= config.minimumQuality
    ensures Robust(config, n)
  {
    var q, m := config.minimumQuality, Margin(n, 2.0 * config.minimumSimilarity - 1.0);
    var square := Product(n as real, Square(q));
    LeastsAreProducts(config, n);
    SquareOrder(EPSILON, q);
    SquareIsPositive(EPSILON);
    ScaleUp(2.0, n as real, q);
    ScaleUp(2.0, n as real, Square(q));
    assert Product(2.0, q) == 2.0 * q && Product(2.0, Square(q)) == 2.0 * Square(q);
    ProductIsNotNegative(n as real - 1.0, 2.0 * config.minimumSimilarity - 1.0);
    OrderedProducts(square, 1.0, m);
    ProductsCommute(square, 1.0);
    OneTimes(square);
  }

  // ---------------------------------------------------------------- the converse

  // How much the samples of a session that fails to aggregate share.
  function SharedPart(config: EnrollmentConfig, n: nat): (beta: real)
    requires 1 <= n
  {
    if LeastWeight(config, n) <= EPSILON then 1.0
    else if Margin(n, 2.0 * config.minimumSimilarity - 1.0) <= 0.0 then 0.0
    else EPSILON / LeastWeight(config, n)
  }

  function Yaw(i: nat): (y: real) { if i == 0 then -30.0 else 30.0 }

  // There is room for `n` samples at the least interval.
  predicate TimeEnough(config: EnrollmentConfig, n: nat) {
    n == 0 || Offset(config.minimumInterval, n - 1) + 1 < config.duration
  }

  lemma TimesFit(config: EnrollmentConfig, n: nat, i: nat)
    requires i < n && TimeEnough(config, n)
    ensures 1 + Offset(config.minimumInterval, i) < config.duration
  {
    OffsetGrows(config.minimumInterval, i, n - 1);
  }

  function Moment(config: EnrollmentConfig, issued: u64, n: nat, i: nat): (t: u64)
    requires TimeEnough(config, n) && issued + config.duration <= MAX_U64 && i < n
    ensures issued < t < issued + config.duration
  {
    TimesFit(config, n, i);
    issued + 1 + Offset(config.minimumInterval, i)
  }

  function ShownAt(config: EnrollmentConfig, issued: u64, n: nat): (times: seq<u64>)
    requires TimeEnough(config, n) && issued + config.duration <= MAX_U64
    ensures |times| == n && forall i :: 0 <= i < n ==> times[i] == Moment(config, issued, n, i)
  {
    seq<u64>(n, i requires 0 <= i < n => Moment(config, issued, n, i))
  }

  // `n` samples at the quality floor, on the vertices of the simplex the similarity floor still admits.
  function Cancelling(config: EnrollmentConfig, issued: u64, n: nat, alpha: real): (s: SessionState)
    requires 2 <= n && TimeEnough(config, n) && issued + config.duration <= MAX_U64
  {
    SessionState(config, issued, issued + config.duration, Some(seq(64, _ => 'a')), Some(DIMENSION),
                 Vertices(n, alpha, SharedPart(config, n)), Equal(n, config.minimumQuality),
                 seq(n, (i: nat) => Yaw(i)), ShownAt(config, issued, n), false)
  }

  lemma ShownAtIsSpaced(config: EnrollmentConfig, issued: u64, n: nat, i: nat, j: nat)
    requires TimeEnough(config, n) && issued + config.duration <= MAX_U64 && i < j < n
    ensures ShownAt(config, issued, n)[i] + config.minimumInterval <= ShownAt(config, issued, n)[j]
  {
    OneMoreInterval(config.minimumInterval, i);
    OffsetGrows(config.minimumInterval, i + 1, j);
    hide Offset;
  }

  lemma SharedPartIsAdmitted(config: EnrollmentConfig, n: nat)
    requires ValidConfig(config) && 2 <= n && !Robust(config, n)
    ensures 0.0 <= SharedPart(config, n) <= 1.0
    ensures Margin(n, 2.0 * config.minimumSimilarity - 1.0) <= Product(n as real, Square(SharedPart(config, n)))
  {
    var beta, m, w := SharedPart(config, n), Margin(n, 2.0 * config.minimumSimilarity - 1.0), LeastWeight(config, n);
    if w <= EPSILON {
      ProductIsNotNegative(n as real - 1.0, 2.0 - 2.0 * config.minimumSimilarity);
      assert Product(n as real - 1.0, 2.0 - 2.0 * config.minimumSimilarity) ==
             n as real - 1.0 - Product(n as real - 1.0, 2.0 * config.minimumSimilarity - 1.0);
    } else if m <= 0.0 {
    } else {
      SmallPart(n as real, config.minimumQuality, w, m, beta);
    }
  }

  lemma SmallPart(n: real, q: real, w: real, m: real, beta: real)
    requires 2.0 <= n && w == n * q && EPSILON < w && beta == EPSILON / w
    requires Product(Product(n, Square(q)), m) <= Square(EPSILON)
    ensures 0.0 <= beta <= 1.0 && m <= Product(n, Square(beta))
  {
    assert beta * w == EPSILON;
    ShareOrder(n, q, w, m, beta);
  }

  lemma ShareOrder(n: real, q: real, w: real, m: real, beta: real)
    requires 2.0 <= n && w == n * q && 0.0 < w && beta * w == EPSILON
    requires Product(Product(n, Square(q)), m) <= Square(EPSILON)
    ensures m <= Product(n, Square(beta))
  {
    var f := Product(n, Square(q));
    assert q > 0.0;
    SquareIsPositive(q);
    ProductIsPositive(n, Square(q));
    assert Square(EPSILON) == Product(f, Product(n, Square(beta))) by {
      assert Square(EPSILON) == (beta * (n * q)) * (beta * (n * q));
    }
    ProductsCommute(f, m);
    ProductsCommute(f, Product(n, Square(beta)));
    ProductOrder(m, Product(n, Square(beta)), f);
  }

  predicate Circle(config: EnrollmentConfig, n: nat, alpha: real)
    requires 1 <= n
  {
    Square(alpha) + Square(SharedPart(config, n)) == 1.0
  }

  lemma CancellingIsConsistent(config: EnrollmentConfig, issued: u64, n: nat, alpha: real)
    requires ValidConfig(config) && config.minimumSamples <= n <= config.maximumSamples && !Robust(config, n)
    requires TimeEnough(config, n) && issued + config.duration <= MAX_U64 && Circle(config, n, alpha)
    ensures OneModel(Cancelling(config, issued, n, alpha)) && Units(Cancelling(config, issued, n, alpha).samples)
  {
    var beta := SharedPart(config, n);
    SharedPartIsAdmitted(config, n);
    VerticesAreUnits(n, alpha, beta);
    SimplexIsConsistent(n, alpha, beta, config.minimumSimilarity);
    hide Consistent;
    hide Vertices;
    hide Units;
    hide SharedPart;
  }

  lemma CancellingIsSpaced(config: EnrollmentConfig, issued: u64, n: nat, alpha: real)
    requires 2 <= n && TimeEnough(config, n) && issued + config.duration <= MAX_U64
    ensures Spaced(Cancelling(config, issued, n, alpha))
  {
    var times := ShownAt(config, issued, n);
    forall i, j | 0 <= i < j < n ensures times[i] + config.minimumInterval <= times[j] {
      ShownAtIsSpaced(config, issued, n, i, j);
    }
    hide ShownAt;
    hide Vertices;
  }

  // That session is reachable and ready.
  lemma CancellingIsReady(config: EnrollmentConfig, issued: u64, n: nat, alpha: real)
    requires ValidConfig(config) && config.minimumSamples <= n <= config.maximumSamples && !Robust(config, n)
    requires TimeEnough(config, n) && issued + config.duration <= MAX_U64 && Circle(config, n, alpha)
    ensures Inv(Cancelling(config, issued, n, alpha)) && Ready(Cancelling(config, issued, n, alpha))
    ensures Units(Cancelling(config, issued, n, alpha).samples)
  {
    CancellingIsConsistent(config, issued, n, alpha);
    CancellingIsSpaced(config, issued, n, alpha);
    var s := Cancelling(config, issued, n, alpha);
    assert s.yaws[1] - s.yaws[0] >= config.minimumYawSpan;
    hide OneModel;
    hide Spaced;
    hide Units;
  }

  lemma RootOfWeight(n: real, q: real, beta: real)
    ensures Product(Product(n, Square(q)), Product(n, Square(beta))) == Product(n * q * beta, n * q * beta)
  {
  }

  // The shared part of the total weight: the root of that session's squared norm.
  function LeastRoot(config: EnrollmentConfig, n: nat): (root: real)
    requires 1 <= n
  {
    Product(LeastWeight(config, n), SharedPart(config, n))
  }

  lemma LeastRootIsNegligible(config: EnrollmentConfig, n: nat)
    requires 1 <= n && 0.0 <= config.minimumQuality && 0.0 <= SharedPart(config, n)
    ensures 0.0 <= LeastRoot(config, n)
    ensures LeastWeight(config, n) <= EPSILON || LeastRoot(config, n) <= EPSILON
    ensures Product(LeastRoot(config, n), LeastRoot(config, n)) ==
            Product(Product(n as real, Square(config.minimumQuality)),
                    Product(n as real, Square(SharedPart(config, n))))
  {
    ProductIsNotNegative(n as real, config.minimumQuality);
    ProductIsNotNegative(LeastWeight(config, n), SharedPart(config, n));
    RootOfWeight(n as real, config.minimumQuality, SharedPart(config, n));
  }

  // Its aggregate is negligible.
  lemma CancellingIsDegenerate(config: EnrollmentConfig, issued: u64, n: nat, alpha: real)
    requires ValidConfig(config) && config.minimumSamples <= n <= config.maximumSamples && !Robust(config, n)
    requires TimeEnough(config, n) && issued + config.duration <= MAX_U64 && Circle(config, n, alpha)
    requires Inv(Cancelling(config, issued, n, alpha))
    ensures IsNorm(Cancelling(config, issued, n, alpha), LeastRoot(config, n))
    ensures Degenerate(Cancelling(config, issued, n, alpha), LeastRoot(config, n))
  {
    hide Product;
    hide Square;
    hide SharedPart;
    hide LeastWeight;
    hide LeastRoot;
    hide Combined;
    hide Vertices;
    hide TotalWeight;
    hide Inv;
    hide NormSquared;
    hide Robust;
    VerticesNorm(n, alpha, SharedPart(config, n), config.minimumQuality);
    SumsOfEqual(Equal(n, config.minimumQuality), config.minimumQuality);
    LeastsAreProducts(config, n);
    SharedPartIsAdmitted(config, n);
    LeastRootIsNegligible(config, n);
  }

  // ---------------------------------------------------------------- the exact condition

  // A ready session of `n` unit samples is not refused for its aggregate.
  ghost predicate Aggregates(s: SessionState, n: nat, root: real) {
    Inv(s) && Ready(s) && |s.samples| == n && Units(s.samples) && IsNorm(s, root) ==> !Degenerate(s, root)
  }

  ghost predicate ReadySessionsFinish(config: EnrollmentConfig, issued: u64, n: nat)
    requires issued + config.duration <= MAX_U64
  {
    forall observations: seq<Observation>, root: real ::
      Aggregates(Run(Fresh(config, issued), observations), n, root)
  }

  lemma {:induction false} ConfigIsKept(s: SessionState, observations: seq<Observation>)
    ensures Run(s, observations).config == s.config
    decreases |observations|
  {
    hide Inconsistent;
    hide Stale;
    if observations != [] { ConfigIsKept(s, observations[..|observations| - 1]); }
  }

  lemma RobustAggregates(s: SessionState, n: nat, root: real)
    requires 2 <= n && Robust(s.config, n)
    ensures Aggregates(s, n, root)
  {
    if Inv(s) && Ready(s) && |s.samples| == n && Units(s.samples) && IsNorm(s, root) { ReadyMeansFinishable(s, root); }
  }

  lemma CancellingFails(config: EnrollmentConfig, issued: u64, n: nat, alpha: real)
    requires ValidConfig(config) && config.minimumSamples <= n <= config.maximumSamples && !Robust(config, n)
    requires TimeEnough(config, n) && issued + config.duration <= MAX_U64 && Circle(config, n, alpha)
    ensures !Aggregates(Cancelling(config, issued, n, alpha), n, LeastRoot(config, n))
    ensures Run(Fresh(config, issued), Retained(Cancelling(config, issued, n, alpha))) ==
            Cancelling(config, issued, n, alpha)
  {
    CancellingIsReady(config, issued, n, alpha);
    CancellingIsDegenerate(config, issued, n, alpha);
    InvIsReachable(Cancelling(config, issued, n, alpha));
    hide Inv;
    hide Ready;
    hide Units;
    hide IsNorm;
    hide Degenerate;
  }

  // Ready sessions always aggregate exactly when the configuration is robust; `alpha` stands for the
  // root that puts the vertices on the unit sphere.
  lemma ReadySessionsFinishIffRobust(config: EnrollmentConfig, issued: u64, n: nat, alpha: real)
    requires ValidConfig(config) && config.minimumSamples <= n <= config.maximumSamples
    requires TimeEnough(config, n) && issued + config.duration <= MAX_U64
    requires !Robust(config, n) ==> Circle(config, n, alpha)
    ensures ReadySessionsFinish(config, issued, n) <==> Robust(config, n)
  {
    if Robust(config, n) {
      forall observations: seq<Observation>, root: real
        ensures Aggregates(Run(Fresh(config, issued), observations), n, root)
      {
        ConfigIsKept(Fresh(config, issued), observations);
        RobustAggregates(Run(Fresh(config, issued), observations), n, root);
      }
    } else {
      CancellingFails(config, issued, n, alpha);
      hide Aggregates;
      hide Cancelling;
      hide Run;
      var root := LeastRoot(config, n);
      assert !Aggregates(Run(Fresh(config, issued), Retained(Cancelling(config, issued, n, alpha))), n, root);
    }
  }
}
