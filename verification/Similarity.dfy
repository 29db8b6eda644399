// Five-point least-squares similarity alignment over the reals.
module Similarity {
  import opened Wrappers
  import opened Arithmetic

  datatype Point = Point(x: real, y: real)

  datatype AlignmentError = FaceAlignmentInvalid | FaceAlignmentResidualExceeded

  const FACE_ALIGNMENT_LANDMARKS := 5

  // Smallest spread and smallest squared scale that are not treated as degenerate.
  const DEGENERATE := 0.000000000001

  datatype SimilarityTransform = SimilarityTransform(cosine: real, sine: real, tx: real, ty: real) {
    function Forward(p: Point): (q: Point) {
      Point(cosine * p.x + (-sine * p.y + tx), sine * p.x + (cosine * p.y + ty))
    }

    function Determinant(): (d: real) {
      cosine * cosine + sine * sine
    }

    function Inverse(q: Point): (p: Point)
      requires Determinant() != 0.0
    {
      var x := q.x - tx;
      var y := q.y - ty;
      Point((cosine * x + sine * y) / Determinant(), (-sine * x + cosine * y) / Determinant())
    }
  }

  const IDENTITY := SimilarityTransform(1.0, 0.0, 0.0, 0.0)

  // ---------------------------------------------------------------- sums over landmark lists

  function Plus(p: Point, q: Point): (sum: Point) { Point(p.x + q.x, p.y + q.y) }

  function Minus(p: Point, q: Point): (difference: Point) { Point(p.x - q.x, p.y - q.y) }

  function SquaredNorm(p: Point): (n: real) { Square(p.x) + Square(p.y) }

  function Total(points: seq<Point>): (sum: Point) {
    if points == [] then Point(0.0, 0.0)
    else Plus(Total(points[..|points| - 1]), points[|points| - 1])
  }

  // Second moments of two landmark lists: dot products, cross products, squared source lengths.
  datatype Moments = Moments(cosine: real, sine: real, spread: real)

  function PlusMoments(m: Moments, k: Moments): (sum: Moments) {
    Moments(m.cosine + k.cosine, m.sine + k.sine, m.spread + k.spread)
  }

  function PairMoments(u: Point, w: Point): (m: Moments) {
    Moments(u.x * w.x + u.y * w.y, u.x * w.y - u.y * w.x, SquaredNorm(u))
  }

  function CentredMoments(source: seq<Point>, destination: seq<Point>, a: Point, b: Point): (m: Moments)
    requires |source| == |destination|
  {
    if source == [] then Moments(0.0, 0.0, 0.0)
    else
      var n := |source| - 1;
      PlusMoments(CentredMoments(source[..n], destination[..n], a, b),
                  PairMoments(Minus(source[n], a), Minus(destination[n], b)))
  }

  // The total squared landmark error of a transform.
  function SquaredError(t: SimilarityTransform, source: seq<Point>, destination: seq<Point>): (e: real)
    requires |source| == |destination|
  {
    if source == [] then 0.0
    else
      var n := |source| - 1;
      SquaredError(t, source[..n], destination[..n]) + SquaredNorm(Minus(t.Forward(source[n]), destination[n]))
  }

  function Center(points: seq<Point>): (c: Point)
    requires |points| == FACE_ALIGNMENT_LANDMARKS
  {
    Point(Total(points).x / 5.0, Total(points).y / 5.0)
  }

  // The root mean square residual exceeds the limit, without taking the root.
  predicate ResidualExceeds(squaredError: real, maximumResidual: real) {
    maximumResidual < 0.0 || squaredError / 5.0 > maximumResidual * maximumResidual
  }

  // For a `root` of the mean of the squared errors, the test is whether the root exceeds the limit.
  lemma ResidualIsTheRootMeanSquare(squaredError: real, root: real, maximumResidual: real)
    requires root >= 0.0 && Product(root, root) * (FACE_ALIGNMENT_LANDMARKS as real) == squaredError
    ensures ResidualExceeds(squaredError, maximumResidual) <==> root > maximumResidual
  {
    assert squaredError / 5.0 == Product(root, root);
    if maximumResidual >= 0.0 { SquaresKeepOrder(root, maximumResidual); }
  }

  // The transform with this rotation and scale that takes `a` to `b`.
  function Carrying(cosine: real, sine: real, a: Point, b: Point): (t: SimilarityTransform)
    ensures t.Forward(a) == b
  {
    SimilarityTransform(cosine, sine, sine * a.y + (cosine * -a.x + b.x), cosine * -a.y + (sine * -a.x + b.y))
  }

  // The transform the centred moments name, before the residual limit is consulted.
  function Named(m: Moments, a: Point, b: Point): (t: SimilarityTransform)
    requires m.spread != 0.0
  {
    Carrying(m.cosine / m.spread, m.sine / m.spread, a, b)
  }

  function Fit(source: seq<Point>, destination: seq<Point>, maximumResidual: real)
    : (r: Result<SimilarityTransform, AlignmentError>)
    requires |source| == |destination| == FACE_ALIGNMENT_LANDMARKS
  {
    var a, b := Center(source), Center(destination);
    var m := CentredMoments(source, destination, a, b);
    if m.spread <= DEGENERATE then Failure(FaceAlignmentInvalid)
    else
      var t := Named(m, a, b);
      if t.Determinant() <= DEGENERATE then Failure(FaceAlignmentInvalid)
      else if ResidualExceeds(SquaredError(t, source, destination), maximumResidual)
      then Failure(FaceAlignmentResidualExceeded)
      else Success(t)
  }

  // ---------------------------------------------------------------- the error as a quadratic form

  // The spread of the destination alone; which transform is best never depends on it.
  function Spread(points: seq<Point>, c: Point): (s: real) {
    if points == [] then 0.0
    else Spread(points[..|points| - 1], c) + SquaredNorm(Minus(points[|points| - 1], c))
  }

  function CentredTotal(points: seq<Point>, c: Point): (sum: Point) {
    if points == [] then Point(0.0, 0.0)
    else Plus(CentredTotal(points[..|points| - 1], c), Minus(points[|points| - 1], c))
  }

  lemma {:induction false} CentredTotalIsOffset(points: seq<Point>, c: Point)
    ensures CentredTotal(points, c).x == Total(points).x - |points| as real * c.x
    ensures CentredTotal(points, c).y == Total(points).y - |points| as real * c.y
    decreases |points|
  {
    if points != [] {
      CentredTotalIsOffset(points[..|points| - 1], c);
      var k := (|points| - 1) as real;
      assert (k + 1.0) * c.x == k * c.x + c.x && (k + 1.0) * c.y == k * c.y + c.y;
    }
  }

  // Where the transform leaves the centre of the source relative to the centre of the destination.
  function CenterOffset(t: SimilarityTransform, a: Point, b: Point): (o: Point) {
    Minus(t.Forward(a), b)
  }

  // The value the error of `n` landmarks takes, as a sum of its seven terms.
  function Quadratic(t: SimilarityTransform, o: Point, n: real, m: Moments, spread: real, su: Point, sw: Point)
    : (e: real)
  {
    t.Determinant() * m.spread + n * SquaredNorm(o) + spread
    + 2.0 * (o.x * LinearX(t, su, sw)) + 2.0 * (o.y * LinearY(t, su, sw))
    - 2.0 * (t.cosine * m.cosine) - 2.0 * (t.sine * m.sine)
  }

  function LinearX(t: SimilarityTransform, u: Point, w: Point): (l: real) { t.cosine * u.x - t.sine * u.y - w.x }

  function LinearY(t: SimilarityTransform, u: Point, w: Point): (l: real) { t.sine * u.x + t.cosine * u.y - w.y }

  lemma Distribute(x: real, y: real, z: real)
    ensures x * (y + z) == x * y + x * z
  {
  }

  lemma LinearAdds(t: SimilarityTransform, su: Point, sw: Point, u: Point, w: Point)
    ensures LinearX(t, Plus(su, u), Plus(sw, w)) == LinearX(t, su, sw) + LinearX(t, u, w)
    ensures LinearY(t, Plus(su, u), Plus(sw, w)) == LinearY(t, su, sw) + LinearY(t, u, w)
  {
    Distribute(t.cosine, su.x, u.x);
    Distribute(t.cosine, su.y, u.y);
    Distribute(t.sine, su.x, u.x);
    Distribute(t.sine, su.y, u.y);
  }

  lemma EmptyQuadratic(t: SimilarityTransform, o: Point)
    ensures Quadratic(t, o, 0.0, Moments(0.0, 0.0, 0.0), 0.0, Point(0.0, 0.0), Point(0.0, 0.0)) == 0.0
  {
    assert LinearX(t, Point(0.0, 0.0), Point(0.0, 0.0)) == 0.0 == LinearY(t, Point(0.0, 0.0), Point(0.0, 0.0));
  }

  // One more landmark adds its own quadratic.
  lemma QuadraticAdds(t: SimilarityTransform, o: Point, n: real, m: Moments, spread: real, su: Point, sw: Point,
                      m1: Moments, spread1: real, u: Point, w: Point)
    ensures
      Quadratic(t, o, n + 1.0, PlusMoments(m, m1), spread + spread1, Plus(su, u), Plus(sw, w)) ==
      Quadratic(t, o, n, m, spread, su, sw) + Quadratic(t, o, 1.0, m1, spread1, u, w)
  {
    LinearAdds(t, su, sw, u, w);
    hide LinearX;
    hide LinearY;
    hide SquaredNorm;
    Distribute(t.Determinant(), m.spread, m1.spread);
    Distribute(SquaredNorm(o), n, 1.0);
    Distribute(o.x, LinearX(t, su, sw), LinearX(t, u, w));
    Distribute(o.y, LinearY(t, su, sw), LinearY(t, u, w));
    Distribute(t.cosine, m.cosine, m1.cosine);
    Distribute(t.sine, m.sine, m1.sine);
  }

  // The rotated and scaled landmark against its target, before any offset.
  lemma RotationError(t: SimilarityTransform, u: Point, w: Point)
    ensures SquaredNorm(Point(LinearX(t, u, w), LinearY(t, u, w))) ==
            t.Determinant() * SquaredNorm(u) + SquaredNorm(w)
            - 2.0 * (t.cosine * (u.x * w.x + u.y * w.y)) - 2.0 * (t.sine * (u.x * w.y - u.y * w.x))
  {
    var p, q := t.cosine * u.x - t.sine * u.y, t.sine * u.x + t.cosine * u.y;
    assert p * p + q * q == t.Determinant() * SquaredNorm(u);
    assert p * w.x + q * w.y == t.cosine * (u.x * w.x + u.y * w.y) + t.sine * (u.x * w.y - u.y * w.x);
    assert (p - w.x) * (p - w.x) == p * p + w.x * w.x - 2.0 * (p * w.x);
    assert (q - w.y) * (q - w.y) == q * q + w.y * w.y - 2.0 * (q * w.y);
  }

  lemma ShiftedNorm(a: Point, o: Point)
    ensures SquaredNorm(Plus(a, o)) == SquaredNorm(a) + SquaredNorm(o) + 2.0 * (o.x * a.x) + 2.0 * (o.y * a.y)
  {
  }

  lemma ShiftX(c: real, s: real, px: real, py: real, ax: real, ay: real, tx: real, q: real, b: real)
    ensures c * px + (-s * py + tx) - q == c * (px - ax) - s * (py - ay) - (q - b) + (c * ax + (-s * ay + tx) - b)
  {
  }

  lemma ShiftY(c: real, s: real, px: real, py: real, ax: real, ay: real, ty: real, q: real, b: real)
    ensures s * px + (c * py + ty) - q == s * (px - ax) + c * (py - ay) - (q - b) + (s * ax + (c * ay + ty) - b)
  {
  }

  lemma CentredImage(t: SimilarityTransform, p: Point, q: Point, a: Point, b: Point)
    ensures
      var u, w := Minus(p, a), Minus(q, b);
      Minus(t.Forward(p), q) == Plus(Point(LinearX(t, u, w), LinearY(t, u, w)), CenterOffset(t, a, b))
  {
    var u, w := Minus(p, a), Minus(q, b);
    var e, f := Minus(t.Forward(p), q), Plus(Point(LinearX(t, u, w), LinearY(t, u, w)), CenterOffset(t, a, b));
    ShiftX(t.cosine, t.sine, p.x, p.y, a.x, a.y, t.tx, q.x, b.x);
    assert e.x == f.x;
    ShiftY(t.cosine, t.sine, p.x, p.y, a.x, a.y, t.ty, q.y, b.y);
    assert e.y == f.y;
  }

  // One landmark's squared error is its own quadratic.
  lemma PointErrorIsQuadratic(t: SimilarityTransform, p: Point, q: Point, a: Point, b: Point)
    ensures SquaredNorm(Minus(t.Forward(p), q)) ==
            Quadratic(t, CenterOffset(t, a, b), 1.0, PairMoments(Minus(p, a), Minus(q, b)), SquaredNorm(Minus(q, b)),
                      Minus(p, a), Minus(q, b))
  {
    var u, w := Minus(p, a), Minus(q, b);
    CentredImage(t, p, q, a, b);
    ShiftedNorm(Point(LinearX(t, u, w), LinearY(t, u, w)), CenterOffset(t, a, b));
    RotationError(t, u, w);
    hide SquaredNorm;
    hide LinearX;
    hide LinearY;
    hide CenterOffset;
    hide Minus;
  }

  lemma {:induction false} ErrorIsQuadratic(t: SimilarityTransform, source: seq<Point>, destination: seq<Point>,
                                            a: Point, b: Point)
    requires |source| == |destination|
    ensures SquaredError(t, source, destination) ==
            Quadratic(t, CenterOffset(t, a, b), |source| as real, CentredMoments(source, destination, a, b),
                      Spread(destination, b), CentredTotal(source, a), CentredTotal(destination, b))
    decreases |source|
  {
    EmptyQuadratic(t, CenterOffset(t, a, b));
    hide Quadratic;
    hide SquaredNorm;
    hide Minus;
    hide PairMoments;
    hide CenterOffset;
    if source != [] {
      var n := |source| - 1;
      var before, after := source[..n], destination[..n];
      ErrorIsQuadratic(t, before, after, a, b);
      var u, w := Minus(source[n], a), Minus(destination[n], b);
      PointErrorIsQuadratic(t, source[n], destination[n], a, b);
      QuadraticAdds(t, CenterOffset(t, a, b), n as real, CentredMoments(before, after, a, b), Spread(after, b),
                    CentredTotal(before, a), CentredTotal(after, b), PairMoments(u, w), SquaredNorm(w), u, w);
      assert |source| as real == n as real + 1.0;
    }
  }

  // The part of the error that depends on rotation and scale alone.
  function RotationPart(t: SimilarityTransform, m: Moments): (e: real) {
    t.Determinant() * m.spread - 2.0 * (t.cosine * m.cosine) - 2.0 * (t.sine * m.sine)
  }

  // The error with every sum taken around the true centres, where the linear terms vanish.
  function CentredError(t: SimilarityTransform, o: Point, m: Moments, spread: real): (e: real) {
    RotationPart(t, m) + 5.0 * SquaredNorm(o) + spread
  }

  lemma QuadraticAtCenters(t: SimilarityTransform, o: Point, m: Moments, spread: real)
    ensures Quadratic(t, o, 5.0, m, spread, Point(0.0, 0.0), Point(0.0, 0.0)) == CentredError(t, o, m, spread)
  {
    assert LinearX(t, Point(0.0, 0.0), Point(0.0, 0.0)) == 0.0 == LinearY(t, Point(0.0, 0.0), Point(0.0, 0.0));
  }

  lemma CentredAtCenter(points: seq<Point>)
    requires |points| == FACE_ALIGNMENT_LANDMARKS
    ensures CentredTotal(points, Center(points)) == Point(0.0, 0.0)
  {
    CentredTotalIsOffset(points, Center(points));
  }

  lemma ErrorAroundCenters(t: SimilarityTransform, source: seq<Point>, destination: seq<Point>, a: Point, b: Point)
    requires |source| == |destination| == FACE_ALIGNMENT_LANDMARKS
    requires a == Center(source) && b == Center(destination)
    ensures SquaredError(t, source, destination) ==
            CentredError(t, CenterOffset(t, a, b), CentredMoments(source, destination, a, b), Spread(destination, b))
  {
    ErrorIsQuadratic(t, source, destination, a, b);
    CentredAtCenter(source);
    CentredAtCenter(destination);
    QuadraticAtCenters(t, CenterOffset(t, a, b), CentredMoments(source, destination, a, b), Spread(destination, b));
  }

  lemma CompleteTheSquare(c: real, s: real, c0: real, s0: real, d: real)
    ensures (c * c + s * s) * d - 2.0 * (c * (c0 * d)) - 2.0 * (s * (s0 * d))
            - ((c0 * c0 + s0 * s0) * d - 2.0 * (c0 * (c0 * d)) - 2.0 * (s0 * (s0 * d)))
            == d * ((c - c0) * (c - c0) + (s - s0) * (s - s0))
  {
    assert (c - c0) * (c - c0) == c * c - 2.0 * (c * c0) + c0 * c0;
    assert (s - s0) * (s - s0) == s * s - 2.0 * (s * s0) + s0 * s0;
  }

  lemma SameFactor(x: real, y: real, z: real)
    requires y == z
    ensures x * y == x * z
  {
  }

  // How much more the moments cost at (c, s) than at (c0, s0), where they are balanced.
  lemma RotationGap(c: real, s: real, c0: real, s0: real, mc: real, ms: real, d: real)
    requires c0 * d == mc && s0 * d == ms
    ensures (c * c + s * s) * d - 2.0 * (c * mc) - 2.0 * (s * ms) ==
            ((c0 * c0 + s0 * s0) * d - 2.0 * (c0 * mc) - 2.0 * (s0 * ms))
            + d * ((c - c0) * (c - c0) + (s - s0) * (s - s0))
  {
    CompleteTheSquare(c, s, c0, s0, d);
    SameFactor(c, mc, c0 * d);
    SameFactor(s, ms, s0 * d);
    SameFactor(c0, mc, c0 * d);
    SameFactor(s0, ms, s0 * d);
  }

  // How much worse any transform is than the named one: five times the squared distance by which it
  // misses the destination's centre, plus the spread times its squared distance in rotation and scale.
  function Excess(t: SimilarityTransform, named: SimilarityTransform, o: Point, spread: real): (g: real) {
    5.0 * SquaredNorm(o) + Product(spread, SquaredNorm(Point(t.cosine - named.cosine, t.sine - named.sine)))
  }

  lemma NamedMeetsCenters(m: Moments, a: Point, b: Point)
    requires m.spread != 0.0
    ensures CenterOffset(Named(m, a, b), a, b) == Point(0.0, 0.0)
  {
  }

  lemma NamedIsBalanced(m: Moments, a: Point, b: Point)
    requires m.spread != 0.0
    ensures Named(m, a, b).cosine * m.spread == m.cosine && Named(m, a, b).sine * m.spread == m.sine
  {
  }

  lemma RotationPartGap(t: SimilarityTransform, named: SimilarityTransform, m: Moments)
    requires named.cosine * m.spread == m.cosine && named.sine * m.spread == m.sine
    ensures RotationPart(t, m) ==
            RotationPart(named, m) + m.spread * SquaredNorm(Point(t.cosine - named.cosine, t.sine - named.sine))
  {
    RotationGap(t.cosine, t.sine, named.cosine, named.sine, m.cosine, m.sine, m.spread);
  }

  lemma ErrorGap(t: SimilarityTransform, named: SimilarityTransform, o: Point, m: Moments, spread: real)
    requires named.cosine * m.spread == m.cosine && named.sine * m.spread == m.sine
    ensures CentredError(t, o, m, spread) ==
            CentredError(named, Point(0.0, 0.0), m, spread) + Excess(t, named, o, m.spread)
  {
    hide RotationPart;
    hide SquaredNorm;
    RotationPartGap(t, named, m);
    ZeroNorm();
  }

  lemma ZeroNorm()
    ensures SquaredNorm(Point(0.0, 0.0)) == 0.0
  {
  }

  lemma ExcessIsTheGap(t: SimilarityTransform, source: seq<Point>, destination: seq<Point>,
                       a: Point, b: Point, m: Moments)
    requires |source| == |destination| == FACE_ALIGNMENT_LANDMARKS
    requires a == Center(source) && b == Center(destination)
    requires m == CentredMoments(source, destination, a, b) && m.spread > 0.0
    ensures SquaredError(t, source, destination) ==
            SquaredError(Named(m, a, b), source, destination)
            + Excess(t, Named(m, a, b), CenterOffset(t, a, b), m.spread)
  {
    hide *;
    NamedIsBalanced(m, a, b);
    NamedMeetsCenters(m, a, b);
    ErrorAroundCenters(t, source, destination, a, b);
    ErrorAroundCenters(Named(m, a, b), source, destination, a, b);
    ErrorGap(t, Named(m, a, b), CenterOffset(t, a, b), m, Spread(destination, b));
  }

  lemma NormIsPositiveIfX(p: Point)
    requires p.x != 0.0
    ensures SquaredNorm(p) > 0.0
  {
    SquareIsPositive(p.x);
    SquareIsNotNegative(p.y);
    hide Square;
  }

  lemma NormIsPositiveIfY(p: Point)
    requires p.y != 0.0
    ensures SquaredNorm(p) > 0.0
  {
    SquareIsNotNegative(p.x);
    SquareIsPositive(p.y);
    hide Square;
  }

  lemma NormIsPositive(p: Point)
    requires p != Point(0.0, 0.0)
    ensures SquaredNorm(p) > 0.0
  {
    hide SquaredNorm;
    if p.x != 0.0 {
      NormIsPositiveIfX(p);
    } else {
      NormIsPositiveIfY(p);
    }
  }

  lemma NormIsNotNegative(p: Point)
    ensures SquaredNorm(p) >= 0.0
  {
    SquareIsNotNegative(p.x);
    SquareIsNotNegative(p.y);
    hide Square;
  }

  // Rotation and scale together with the image of the source centre determine the transform.
  lemma OffsetFixesTranslation(t: SimilarityTransform, named: SimilarityTransform, a: Point, b: Point)
    requires CenterOffset(named, a, b) == Point(0.0, 0.0) == CenterOffset(t, a, b)
    requires t.cosine == named.cosine && t.sine == named.sine
    ensures t == named
  {
  }

  lemma WeightedNormsArePositive(o: Point, d: Point, spread: real)
    requires spread > 0.0 && (o != Point(0.0, 0.0) || d != Point(0.0, 0.0))
    ensures 5.0 * SquaredNorm(o) + Product(spread, SquaredNorm(d)) > 0.0
  {
    hide SquaredNorm;
    hide Product;
    NormIsNotNegative(o);
    NormIsNotNegative(d);
    if o != Point(0.0, 0.0) {
      NormIsPositive(o);
      ProductIsNotNegative(spread, SquaredNorm(d));
    } else {
      NormIsPositive(d);
      ProductIsPositive(spread, SquaredNorm(d));
    }
  }

  lemma ExcessIsPositive(t: SimilarityTransform, named: SimilarityTransform, a: Point, b: Point, spread: real)
    requires spread > 0.0 && t != named && CenterOffset(named, a, b) == Point(0.0, 0.0)
    ensures Excess(t, named, CenterOffset(t, a, b), spread) > 0.0
  {
    hide SquaredNorm;
    hide CenterOffset;
    var o := CenterOffset(t, a, b);
    var d := Point(t.cosine - named.cosine, t.sine - named.sine);
    if o == Point(0.0, 0.0) && d == Point(0.0, 0.0) { OffsetFixesTranslation(t, named, a, b); }
    WeightedNormsArePositive(o, d, spread);
  }

  // ---------------------------------------------------------------- main results

  // The fitted transform is the unique least-squares optimum, and its residual is admitted.
  lemma FitIsTheUniqueOptimum(source: seq<Point>, destination: seq<Point>, maximumResidual: real,
                              other: SimilarityTransform)
    requires |source| == |destination| == FACE_ALIGNMENT_LANDMARKS
    ensures Fit(source, destination, maximumResidual).Success? ==>
      var best := Fit(source, destination, maximumResidual).value;
      && (other != best ==> SquaredError(best, source, destination) < SquaredError(other, source, destination))
      && !ResidualExceeds(SquaredError(best, source, destination), maximumResidual)
      && best.Determinant() > DEGENERATE
  {
    var a, b := Center(source), Center(destination);
    var m := CentredMoments(source, destination, a, b);
    hide CentredMoments;
    hide SquaredError;
    hide Center;
    hide Named;
    hide Excess;
    hide ResidualExceeds;
    if m.spread > DEGENERATE && other != Named(m, a, b) {
      ExcessIsTheGap(other, source, destination, a, b, m);
      NamedMeetsCenters(m, a, b);
      ExcessIsPositive(other, Named(m, a, b), a, b, m.spread);
    }
  }

  lemma SmallerErrorFits(e: real, f: real, maximumResidual: real)
    requires e <= f && !ResidualExceeds(f, maximumResidual)
    ensures !ResidualExceeds(e, maximumResidual)
  {
  }

  // Over landmarks and a best scale that are not degenerate, fitting succeeds exactly when some
  // similarity transform meets the residual limit.
  lemma FitSucceedsIffSomeTransformFits(source: seq<Point>, destination: seq<Point>, maximumResidual: real)
    requires |source| == |destination| == FACE_ALIGNMENT_LANDMARKS
    ensures Fit(source, destination, maximumResidual) != Failure(FaceAlignmentInvalid) ==>
              (Fit(source, destination, maximumResidual).Success? <==>
               exists t :: !ResidualExceeds(SquaredError(t, source, destination), maximumResidual))
  {
    var a, b := Center(source), Center(destination);
    var m := CentredMoments(source, destination, a, b);
    if m.spread <= DEGENERATE { return; }
    var best := Named(m, a, b);
    hide CentredMoments;
    hide SquaredError;
    hide Center;
    hide Named;
    hide Excess;
    hide ResidualExceeds;
    if t :| !ResidualExceeds(SquaredError(t, source, destination), maximumResidual) {
      if t != best {
        ExcessIsTheGap(t, source, destination, a, b, m);
        NamedMeetsCenters(m, a, b);
        ExcessIsPositive(t, best, a, b, m.spread);
      }
      SmallerErrorFits(SquaredError(best, source, destination), SquaredError(t, source, destination), maximumResidual);
    }
  }

  lemma DivideBack(d: real, x: real)
    requires d != 0.0
    ensures d * x / d == x
  {
  }

  lemma RotateBack(c: real, s: real, x: real, y: real)
    ensures c * (c * x - s * y) + s * (s * x + c * y) == (c * c + s * s) * x
    ensures -s * (c * x - s * y) + c * (s * x + c * y) == (c * c + s * s) * y
  {
  }

  lemma Unrotate(c: real, s: real, px: real, py: real, x: real, y: real)
    requires x == c * px - s * py && y == s * px + c * py && c * c + s * s != 0.0
    ensures (c * x + s * y) / (c * c + s * s) == px
    ensures (-s * x + c * y) / (c * c + s * s) == py
  {
    RotateBack(c, s, px, py);
    SameFactor(c, x, c * px - s * py);
    SameFactor(s, y, s * px + c * py);
    SameFactor(-s, x, c * px - s * py);
    SameFactor(c, y, s * px + c * py);
    DivideBack(c * c + s * s, px);
    DivideBack(c * c + s * s, py);
  }

  lemma ForwardThenInverse(t: SimilarityTransform, p: Point)
    requires t.Determinant() != 0.0
    ensures t.Inverse(t.Forward(p)) == p
  {
    var q := t.Forward(p);
    Unrotate(t.cosine, t.sine, p.x, p.y, q.x - t.tx, q.y - t.ty);
    assert t.Inverse(q).x == p.x;
    assert t.Inverse(q).y == p.y;
  }

  lemma InverseThenForward(t: SimilarityTransform, q: Point)
    requires t.Determinant() != 0.0
    ensures t.Forward(t.Inverse(q)) == q
  {
    var p := t.Inverse(q);
    ForwardThenInverse(t, p);
    InverseIsInjective(t, t.Forward(p), q);
  }

  lemma InverseIsInjective(t: SimilarityTransform, p: Point, q: Point)
    requires t.Determinant() != 0.0 && t.Inverse(p) == t.Inverse(q)
    ensures p == q
  {
    var d := t.Determinant();
    var x, y := p.x - q.x, p.y - q.y;
    assert t.Inverse(p).x * d == t.cosine * (p.x - t.tx) + t.sine * (p.y - t.ty);
    assert t.Inverse(q).x * d == t.cosine * (q.x - t.tx) + t.sine * (q.y - t.ty);
    assert t.Inverse(p).y * d == -t.sine * (p.x - t.tx) + t.cosine * (p.y - t.ty);
    assert t.Inverse(q).y * d == -t.sine * (q.x - t.tx) + t.cosine * (q.y - t.ty);
    assert t.cosine * x + t.sine * y == 0.0 && -t.sine * x + t.cosine * y == 0.0;
    OnlyZeroIsLost(t.cosine, t.sine, x, y);
  }

  lemma OnlyZeroIsLost(c: real, s: real, x: real, y: real)
    requires c * c + s * s != 0.0
    requires c * x + s * y == 0.0 && -s * x + c * y == 0.0
    ensures x == 0.0 && y == 0.0
  {
    var d := c * c + s * s;
    assert c * (c * x + s * y) - s * (-s * x + c * y) == d * x;
    assert s * (c * x + s * y) + c * (-s * x + c * y) == d * y;
    assert d * x == 0.0 && d * y == 0.0;
  }

  lemma {:induction false} NoErrorOnImages(t: SimilarityTransform, source: seq<Point>, destination: seq<Point>)
    requires |source| == |destination|
    requires forall i :: 0 <= i < |source| ==> destination[i] == t.Forward(source[i])
    ensures SquaredError(t, source, destination) == 0.0
    decreases |source|
  {
    if source != [] {
      NoErrorOnImages(t, source[..|source| - 1], destination[..|source| - 1]);
    }
  }

  lemma {:induction false} ErrorIsNotNegative(t: SimilarityTransform, source: seq<Point>, destination: seq<Point>)
    requires |source| == |destination|
    ensures SquaredError(t, source, destination) >= 0.0
    decreases |source|
  {
    if source != [] {
      var n := |source| - 1;
      ErrorIsNotNegative(t, source[..n], destination[..n]);
      NormIsNotNegative(Minus(t.Forward(source[n]), destination[n]));
      hide SquaredNorm;
    }
  }

  // Landmarks that really are a similarity image of the reference give back that similarity.
  lemma FitRecoversTheTransform(t: SimilarityTransform, source: seq<Point>, destination: seq<Point>,
                                maximumResidual: real)
    requires |source| == |destination| == FACE_ALIGNMENT_LANDMARKS
    requires forall i :: 0 <= i < |source| ==> destination[i] == t.Forward(source[i])
    requires maximumResidual >= 0.0
    ensures CentredMoments(source, destination, Center(source), Center(destination)).spread > DEGENERATE
            && t.Determinant() > DEGENERATE ==>
              Fit(source, destination, maximumResidual) == Success(t)
  {
    var a, b := Center(source), Center(destination);
    var m := CentredMoments(source, destination, a, b);
    if m.spread <= DEGENERATE { return; }
    hide CentredMoments;
    hide SquaredError;
    hide Center;
    hide Named;
    hide Excess;
    NoErrorOnImages(t, source, destination);
    ErrorIsNotNegative(Named(m, a, b), source, destination);
    if t != Named(m, a, b) {
      ExcessIsTheGap(t, source, destination, a, b, m);
      NamedMeetsCenters(m, a, b);
      ExcessIsPositive(t, Named(m, a, b), a, b, m.spread);
    }
    ZeroErrorFits(maximumResidual);
    hide ResidualExceeds;
  }

  lemma ZeroErrorFits(maximumResidual: real)
    requires maximumResidual >= 0.0
    ensures !ResidualExceeds(0.0, maximumResidual)
  {
    SquareIsNotNegative(maximumResidual);
  }
}
