// Unit vectors whose pairwise dot products are all equal, and the exact similarity floor at which
// weighted sums of unit samples stop being able to cancel.
module Simplex {
  import opened Arithmetic
  import opened Vectors
  import opened Aggregation

  const SLOTS := 16

  // A standard basis vector less the mean of the first `n`; `r` is one over `n`.
  function Corner(n: nat, i: nat, r: real): (v: seq<real>)
    ensures |v| == SLOTS
  {
    seq(SLOTS, k => if k >= n then 0.0 else if k == i then 1.0 - r else -r)
  }

  function Scaled(v: seq<real>, f: real): (w: seq<real>)
    ensures |w| == |v|
  {
    AddScaled(Zero(|v|), v, f)
  }

  function Before(i: nat, m: nat): (b: real) { if i < m then 1.0 else 0.0 }

  lemma CornerTerm(x: real, y: real, r: real)
    ensures Product(x - r, y - r) == Product(x, y) - x * r - y * r + Square(r)
  {
  }

  lemma {:induction false} CornerPrefix(n: nat, i: nat, j: nat, r: real, m: nat)
    requires i < n <= SLOTS && j < n && m <= SLOTS
    ensures Dot(Corner(n, i, r)[..m], Corner(n, j, r)[..m]) ==
            Product((if m < n then m else n) as real, Square(r)) - Before(i, m) * r - Before(j, m) * r
            + (if i == j then Before(i, m) else 0.0)
    decreases m
  {
    if m == 0 {
      ProductWithZero(Square(r));
    } else {
      var k := m - 1;
      var u, v := Corner(n, i, r), Corner(n, j, r);
      CornerPrefix(n, i, j, r, k);
      assert u[..m][..k] == u[..k] && v[..m][..k] == v[..k];
      if k < n {
        CornerTerm(if k == i then 1.0 else 0.0, if k == j then 1.0 else 0.0, r);
        OneMore(k, Square(r));
      }
      hide Corner;
      hide Square;
    }
  }

  lemma CornerDots(n: nat, i: nat, j: nat, r: real)
    requires i < n <= SLOTS && j < n && Product(n as real, r) == 1.0
    ensures Dot(Corner(n, i, r), Corner(n, j, r)) == if i == j then 1.0 - r else -r
  {
    CornerPrefix(n, i, j, r, SLOTS);
    var u, v := Corner(n, i, r), Corner(n, j, r);
    assert u[..SLOTS] == u && v[..SLOTS] == v;
    ProductAssociates(n as real, r, r);
    OneTimes(r);
    hide Product;
    hide Dot;
  }

  lemma DotOfScaled(v: seq<real>, w: seq<real>, f: real)
    requires |v| == |w|
    ensures Dot(Scaled(v, f), Scaled(w, f)) == Product(Square(f), Dot(v, w))
  {
    hide Dot;
    hide AddScaled;
    DotAddScaled(Zero(|v|), v, f, Scaled(w, f));
    DotZero(|v|, Scaled(w, f));
    DotCommutes(v, Scaled(w, f));
    DotAddScaled(Zero(|w|), w, f, v);
    DotZero(|w|, v);
    DotCommutes(w, v);
    ProductAssociates(f, f, Dot(v, w));
  }

  lemma {:induction false} DotOfConcatenation(a: seq<real>, b: seq<real>, c: seq<real>, d: seq<real>)
    requires |a| == |b| && |c| == |d|
    ensures Dot(a + c, b + d) == Dot(a, b) + Dot(c, d)
    decreases |c|
  {
    hide Product;
    if c == [] {
      assert a + c == a && b + d == b;
    } else {
      var n := |c| - 1;
      DotOfConcatenation(a, b, c[..n], d[..n]);
      assert (a + c)[..|a + c| - 1] == a + c[..n];
      assert (b + d)[..|b + d| - 1] == b + d[..n];
    }
  }

  // The ordered pairs of distinct samples.
  function Pairs(n: nat): (p: real) { n as real * (n as real - 1.0) }

  // Four integers whose squares add up to that number: they stand in for its root.
  datatype Quadruple = Quadruple(a: real, b: real, c: real, d: real)

  function FourSquares(n: nat): (q: Quadruple)
    ensures 2 <= n <= SLOTS ==>
              Square(q.a) + Square(q.b) + Square(q.c) + Square(q.d) == Pairs(n)
  {
    match n
    case 2 => Quadruple(1.0, 1.0, 0.0, 0.0)
    case 3 => Quadruple(2.0, 1.0, 1.0, 0.0)
    case 4 => Quadruple(2.0, 2.0, 2.0, 0.0)
    case 5 => Quadruple(4.0, 2.0, 0.0, 0.0)
    case 6 => Quadruple(5.0, 2.0, 1.0, 0.0)
    case 7 => Quadruple(5.0, 4.0, 1.0, 0.0)
    case 8 => Quadruple(6.0, 4.0, 2.0, 0.0)
    case 9 => Quadruple(6.0, 6.0, 0.0, 0.0)
    case 10 => Quadruple(9.0, 3.0, 0.0, 0.0)
    case 11 => Quadruple(10.0, 3.0, 1.0, 0.0)
    case 12 => Quadruple(11.0, 3.0, 1.0, 1.0)
    case 13 => Quadruple(12.0, 2.0, 2.0, 2.0)
    case 14 => Quadruple(13.0, 3.0, 2.0, 0.0)
    case 15 => Quadruple(14.0, 3.0, 2.0, 1.0)
    case 16 => Quadruple(14.0, 6.0, 2.0, 2.0)
    case _ => Quadruple(0.0, 0.0, 0.0, 0.0)
  }

  const DIMENSION := 65

  function TwoBlocks(v: seq<real>, a: real, b: real): (w: seq<real>)
    ensures |w| == 2 * |v|
  {
    Scaled(v, a) + Scaled(v, b)
  }

  // Four scaled copies of a vector and one shared component.
  function Blocks(v: seq<real>, a: real, b: real, c: real, d: real, beta: real): (w: seq<real>)
    ensures |w| == 4 * |v| + 1
  {
    TwoBlocks(v, a, b) + TwoBlocks(v, c, d) + [beta]
  }

  function Vertex(n: nat, i: nat, alpha: real, beta: real): (v: seq<real>)
    requires 2 <= n
    ensures |v| == DIMENSION
  {
    var corner, q, g := Corner(n, i, 1.0 / n as real), FourSquares(n), alpha / (n as real - 1.0);
    Blocks(corner, Product(g, q.a), Product(g, q.b), Product(g, q.c), Product(g, q.d), beta)
  }

  function Vertices(n: nat, alpha: real, beta: real): (s: seq<seq<real>>)
    requires 2 <= n
    ensures |s| == n && Rectangular(s, DIMENSION)
  {
    seq(n, (i: nat) => Vertex(n, i, alpha, beta))
  }

  // The common dot product of distinct vertices.
  function Spread(n: nat, alpha: real, beta: real): (d: real)
    requires 2 <= n
  {
    Square(beta) - Square(alpha) / (n as real - 1.0)
  }

  lemma SingleDot(x: real)
    ensures Dot([x], [x]) == Square(x)
  {
    assert [x][..0] == [];
  }

  lemma TwoBlocksDot(u: seq<real>, v: seq<real>, a: real, b: real)
    requires |u| == |v|
    ensures Dot(TwoBlocks(u, a, b), TwoBlocks(v, a, b)) == Product(Square(a) + Square(b), Dot(u, v))
  {
    DotOfScaled(u, v, a);
    DotOfScaled(u, v, b);
    DotOfConcatenation(Scaled(u, a), Scaled(v, a), Scaled(u, b), Scaled(v, b));
    SumTimes(Square(a), Square(b), Dot(u, v));
    hide Dot;
    hide Scaled;
    hide Product;
  }

  lemma ThreePartsDot(l1: seq<real>, l2: seq<real>, r1: seq<real>, r2: seq<real>, beta: real)
    requires |l1| == |l2| && |r1| == |r2|
    ensures Dot(l1 + r1 + [beta], l2 + r2 + [beta]) == Dot(l1, l2) + Dot(r1, r2) + Square(beta)
  {
    SingleDot(beta);
    hide Dot;
    DotOfConcatenation(l1, l2, r1, r2);
    DotOfConcatenation(l1 + r1, l2 + r2, [beta], [beta]);
  }

  lemma BlocksDot(u: seq<real>, v: seq<real>, a: real, b: real, c: real, d: real, beta: real)
    requires |u| == |v|
    ensures Dot(Blocks(u, a, b, c, d, beta), Blocks(v, a, b, c, d, beta)) ==
            Product(Square(a) + Square(b) + (Square(c) + Square(d)), Dot(u, v)) + Square(beta)
  {
    var l1, l2 := TwoBlocks(u, a, b), TwoBlocks(v, a, b);
    var r1, r2 := TwoBlocks(u, c, d), TwoBlocks(v, c, d);
    assert Blocks(u, a, b, c, d, beta) == l1 + r1 + [beta] && Blocks(v, a, b, c, d, beta) == l2 + r2 + [beta];
    hide *;
    TwoBlocksDot(u, v, a, b);
    TwoBlocksDot(u, v, c, d);
    ThreePartsDot(l1, l2, r1, r2, beta);
    SumTimes(Square(a) + Square(b), Square(c) + Square(d), Dot(u, v));
  }

  lemma FactorOut(g: real, q: Quadruple, total: real)
    requires Square(q.a) + Square(q.b) + Square(q.c) + Square(q.d) == total
    ensures Square(Product(g, q.a)) + Square(Product(g, q.b)) + Square(Product(g, q.c)) + Square(Product(g, q.d)) ==
            Product(Square(g), total)
  {
  }

  lemma Shared(n: nat, alpha: real)
    requires 2 <= n
    ensures Product(Product(Square(alpha / (n as real - 1.0)), Pairs(n)), 1.0 - 1.0 / n as real) == Square(alpha)
    ensures Product(Product(Square(alpha / (n as real - 1.0)), Pairs(n)), -(1.0 / n as real)) ==
            -(Square(alpha) / (n as real - 1.0))
  {
    var m := n as real;
    var g, r := alpha / (m - 1.0), 1.0 / m;
    assert g * (m - 1.0) == alpha;
    assert m * r == 1.0;
    Cancelled(g, m, r, alpha);
  }

  lemma Cancelled(g: real, n: real, r: real, alpha: real)
    requires 2.0 <= n && g * (n - 1.0) == alpha && n * r == 1.0
    ensures Product(Product(Square(g), n * (n - 1.0)), 1.0 - r) == Square(alpha)
    ensures Product(Product(Square(g), n * (n - 1.0)), -r) == -(Square(alpha) / (n - 1.0))
  {
    assert Product(Product(Square(g), n * (n - 1.0)), r) == g * alpha * (n * r);
    assert Product(Square(g), n * (n - 1.0)) == g * alpha * n;
    assert g * alpha * n == g * alpha * (n - 1.0) + g * alpha;
    assert g * alpha * (n - 1.0) == Square(alpha);
    assert g * alpha == Square(alpha) / (n - 1.0);
  }

  lemma Reciprocal(n: nat)
    requires 0 < n
    ensures Product(n as real, 1.0 / n as real) == 1.0
  {
  }

  // Every vertex is a unit vector and any two of them have the same dot product.
  lemma VertexDots(n: nat, i: nat, j: nat, alpha: real, beta: real)
    requires 2 <= n <= SLOTS && i < n && j < n && Square(alpha) + Square(beta) == 1.0
    ensures Dot(Vertex(n, i, alpha, beta), Vertex(n, j, alpha, beta)) == if i == j then 1.0 else Spread(n, alpha, beta)
  {
    hide Product;
    hide Square;
    hide Dot;
    hide Scaled;
    hide Corner;
    hide FourSquares;
    hide Pairs;
    var q, g, r := FourSquares(n), alpha / (n as real - 1.0), 1.0 / n as real;
    var u, v := Corner(n, i, r), Corner(n, j, r);
    Reciprocal(n);
    CornerDots(n, i, j, r);
    hide Blocks;
    BlocksDot(u, v, Product(g, q.a), Product(g, q.b), Product(g, q.c), Product(g, q.d), beta);
    FactorOut(g, q, Pairs(n));
    Shared(n, alpha);
  }

  lemma VerticesAreUnits(n: nat, alpha: real, beta: real)
    requires 2 <= n <= SLOTS && Square(alpha) + Square(beta) == 1.0
    ensures Units(Vertices(n, alpha, beta))
    ensures PairwiseWithin(Vertices(n, alpha, beta), DIMENSION, Spread(n, alpha, beta), Spread(n, alpha, beta))
  {
    var s, d := Vertices(n, alpha, beta), Spread(n, alpha, beta);
    forall i, j | 0 <= i < n && 0 <= j < n ensures Dot(s[i], s[j]) == if i == j then 1.0 else d {
      VertexDots(n, i, j, alpha, beta);
    }
  }

  function Equal(n: nat, q: real): (w: seq<real>)
    ensures |w| == n && forall i :: 0 <= i < n ==> w[i] == q
  {
    seq(n, _ => q)
  }

  lemma SpreadIsMargin(n: nat, alpha: real, beta: real)
    requires 2 <= n && Square(alpha) + Square(beta) == 1.0
    ensures Margin(n, Spread(n, alpha, beta)) == Product(n as real, Square(beta))
  {
    var m := n as real - 1.0;
    assert Product(m, Square(alpha) / m) == Square(alpha);
    assert Product(m, Spread(n, alpha, beta)) == Product(m, Square(beta)) - Square(alpha);
  }

  lemma EqualWeightsNorm(n: real, q: real, d: real)
    ensures Product(n, Square(q)) + Product(d, Product(n, Product(n - 1.0, Square(q)))) ==
            Product(Product(n, Square(q)), 1.0 + Product(n - 1.0, d))
  {
  }

  // Equal weights meet the bound on the sum's norm: the shared component is all that is left.
  lemma VerticesNorm(n: nat, alpha: real, beta: real, q: real)
    requires 2 <= n <= SLOTS && Square(alpha) + Square(beta) == 1.0 && 0.0 <= q <= 1.0
    ensures NormSquared(Combined(Vertices(n, alpha, beta), Equal(n, q), DIMENSION)) ==
            Product(Product(n as real, Square(q)), Product(n as real, Square(beta)))
  {
    var s, w, d := Vertices(n, alpha, beta), Equal(n, q), Spread(n, alpha, beta);
    VerticesAreUnits(n, alpha, beta);
    assert Weighted(w);
    CentroidNormBounds(s, w, DIMENSION, d, d);
    SumsOfEqual(w, q);
    SpreadIsMargin(n, alpha, beta);
    assert Margin(n, d) == 1.0 + Product(n as real - 1.0, d);
    hide *;
    EqualWeightsNorm(n as real, q, d);
  }

  lemma MarginOrder(n: nat, a: real, b: real)
    requires 2 <= n
    ensures Margin(n, a) <= Margin(n, b) <==> a <= b
  {
    var m := n as real - 1.0;
    ProductsCommute(m, a);
    ProductsCommute(m, b);
    ProductOrder(a, b, m);
  }

  lemma SpreadIsACosine(n: nat, alpha: real, beta: real)
    requires 2 <= n && Square(alpha) + Square(beta) == 1.0
    ensures -1.0 <= Spread(n, alpha, beta) <= 1.0
  {
    SquareIsNotNegative(alpha);
    SquareIsNotNegative(beta);
    assert 0.0 <= Square(alpha) / (n as real - 1.0) <= Square(alpha);
  }

  // The vertices are consistent under every floor that leaves no more than their own margin.
  lemma SimplexIsConsistent(n: nat, alpha: real, beta: real, floor: real)
    requires 2 <= n <= SLOTS && Square(alpha) + Square(beta) == 1.0
    requires Margin(n, 2.0 * floor - 1.0) <= Product(n as real, Square(beta))
    ensures Consistent(Vertices(n, alpha, beta), DIMENSION, floor)
  {
    var s, d := Vertices(n, alpha, beta), Spread(n, alpha, beta);
    VerticesAreUnits(n, alpha, beta);
    SpreadIsMargin(n, alpha, beta);
    MarginOrder(n, 2.0 * floor - 1.0, d);
    SpreadIsACosine(n, alpha, beta);
    assert Mapped(d) >= floor;
    hide Vertices;
    hide Dot;
    hide Mapped;
    forall i, j | 0 <= i < j < n ensures Mapped(Dot(s[i], s[j])) >= floor {
      assert Dot(s[i], s[j]) == d;
    }
  }

  // ---------------------------------------------------------------- the exact floor

  predicate Admitted(samples: seq<seq<real>>, qualities: seq<real>, dimension: nat, floor: real) {
    && |samples| == |qualities| && Rectangular(samples, dimension) && Units(samples)
    && Weighted(qualities) && 0.0 < SquareSum(qualities) && Consistent(samples, dimension, floor)
  }

  // No set of `n` unit samples above the floor, weighted not all by zero, adds up to nothing.
  ghost predicate NeverCancels(n: nat, dimension: nat, floor: real) {
    forall samples, qualities ::
      |samples| == n && Admitted(samples, qualities, dimension, floor) ==>
        NormSquared(Combined(samples, qualities, dimension)) > 0.0
  }

  predicate FloorSuffices(n: nat, floor: real) { 2.0 * (n as real - 1.0) * floor > n as real - 2.0 }

  lemma FloorIsMargin(n: nat, floor: real)
    requires 2 <= n
    ensures FloorSuffices(n, floor) <==> Margin(n, 2.0 * floor - 1.0) > 0.0
    ensures FloorSuffices(n, floor) ==> floor > 0.0
  {
    var m := n as real - 1.0;
    assert Product(m, 2.0 * floor - 1.0) == 2.0 * m * floor - m;
    if floor <= 0.0 { ProductIsNotNegative(m, -floor); }
  }

  lemma AdmittedIsLong(samples: seq<seq<real>>, qualities: seq<real>, dimension: nat, floor: real)
    requires 2 <= |samples| && FloorSuffices(|samples|, floor) && Admitted(samples, qualities, dimension, floor)
    ensures NormSquared(Combined(samples, qualities, dimension)) > 0.0
  {
    var low := 2.0 * floor - 1.0;
    FloorIsMargin(|samples|, floor);
    FloorBoundsPairs(samples, dimension, floor);
    CentroidIsLong(samples, qualities, dimension, low, 0.0);
    ProductIsPositive(SquareSum(qualities), Margin(|samples|, low));
  }

  // Below it the simplex cancels, whatever its common weight.
  lemma SimplexCancels(n: nat, floor: real)
    requires 2 <= n <= SLOTS && !FloorSuffices(n, floor)
    ensures Admitted(Vertices(n, 1.0, 0.0), Equal(n, 1.0), DIMENSION, floor)
    ensures NormSquared(Combined(Vertices(n, 1.0, 0.0), Equal(n, 1.0), DIMENSION)) == 0.0
  {
    var s, w := Vertices(n, 1.0, 0.0), Equal(n, 1.0);
    VerticesAreUnits(n, 1.0, 0.0);
    VerticesNorm(n, 1.0, 0.0, 1.0);
    SumsOfEqual(w, 1.0);
    FloorIsMargin(n, floor);
    SimplexIsConsistent(n, 1.0, 0.0, floor);
  }

  // Unit samples can never cancel exactly when the similarity floor exceeds (n - 2) / (2 * (n - 1)).
  lemma NeverCancelsIffFloorSuffices(n: nat, floor: real)
    requires 2 <= n <= SLOTS
    ensures NeverCancels(n, DIMENSION, floor) <==> FloorSuffices(n, floor)
    ensures FloorSuffices(n, floor) ==> forall dimension: nat :: NeverCancels(n, dimension, floor)
  {
    if FloorSuffices(n, floor) {
      forall dimension: nat, samples, qualities | |samples| == n && Admitted(samples, qualities, dimension, floor)
        ensures NormSquared(Combined(samples, qualities, dimension)) > 0.0
      {
        AdmittedIsLong(samples, qualities, dimension, floor);
      }
    } else {
      SimplexCancels(n, floor);
    }
  }
}
