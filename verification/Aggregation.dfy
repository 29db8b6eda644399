// Quality-weighted aggregation of enrollment samples, and why it cannot cancel out.
module Aggregation {
  import opened Arithmetic
  import opened Vectors

  predicate Rectangular(samples: seq<seq<real>>, dimension: nat) {
    forall i :: 0 <= i < |samples| ==> |samples[i]| == dimension
  }

  predicate Weighted(qualities: seq<real>) {
    forall i :: 0 <= i < |qualities| ==> 0.0 <= qualities[i] <= 1.0
  }

  predicate PairwiseWithin(samples: seq<seq<real>>, dimension: nat, low: real, high: real)
    requires Rectangular(samples, dimension)
  {
    forall i, j :: 0 <= i < j < |samples| ==> low <= Dot(samples[i], samples[j]) <= high
  }

  // Half the clamped cosine plus a half.
  function Mapped(cosine: real): (m: real) {
    (if cosine < -1.0 then -1.0 else if cosine > 1.0 then 1.0 else cosine) * 0.5 + 0.5
  }

  predicate Consistent(samples: seq<seq<real>>, dimension: nat, floor: real)
    requires Rectangular(samples, dimension)
  {
    forall i, j :: 0 <= i < j < |samples| ==> Mapped(Dot(samples[i], samples[j])) >= floor
  }

  function TotalWeight(qualities: seq<real>): (w: real) {
    if qualities == [] then 0.0 else TotalWeight(qualities[..|qualities| - 1]) + qualities[|qualities| - 1]
  }

  function Combined(samples: seq<seq<real>>, qualities: seq<real>, dimension: nat): (c: seq<real>)
    requires |samples| == |qualities| && Rectangular(samples, dimension)
    ensures |c| == dimension
  {
    if samples == [] then Zero(dimension)
    else
      var n := |samples| - 1;
      AddScaled(Combined(samples[..n], qualities[..n], dimension), samples[n], qualities[n])
  }

  function SquareSum(qualities: seq<real>): (n: real) {
    if qualities == [] then 0.0
    else SquareSum(qualities[..|qualities| - 1]) + Square(qualities[|qualities| - 1])
  }

  // The products of distinct weights, each pair counted twice.
  function CrossSum(qualities: seq<real>): (n: real) {
    if qualities == [] then 0.0
    else
      var rest := qualities[..|qualities| - 1];
      CrossSum(rest) + 2.0 * Product(qualities[|qualities| - 1], TotalWeight(rest))
  }

  lemma OrderedProducts(q: real, a: real, b: real)
    requires 0.0 <= q && a <= b
    ensures Product(q, a) <= Product(q, b)
  {
    ProductIsNotNegative(q, b - a);
    assert Product(q, b - a) == Product(q, b) - Product(q, a);
  }

  lemma ProductsCommute(a: real, b: real)
    ensures Product(a, b) == Product(b, a)
  {
  }

  // If every sample's dot product with `y` lies in low..=high, the sum's lies between them, weighted.
  lemma {:induction false} CombinedDotBounds(samples: seq<seq<real>>, qualities: seq<real>, dimension: nat,
                                             y: seq<real>, low: real, high: real)
    requires |samples| == |qualities| && Rectangular(samples, dimension) && Weighted(qualities) && |y| == dimension
    requires forall i :: 0 <= i < |samples| ==> low <= Dot(samples[i], y) <= high
    ensures Product(TotalWeight(qualities), low) <= Dot(Combined(samples, qualities, dimension), y)
    ensures Dot(Combined(samples, qualities, dimension), y) <= Product(TotalWeight(qualities), high)
    decreases |samples|
  {
    hide Product;
    hide Dot;
    if samples == [] {
      DotZero(dimension, y);
      ProductWithZero(low);
      ProductWithZero(high);
    } else {
      var n := |samples| - 1;
      CombinedDotBounds(samples[..n], qualities[..n], dimension, y, low, high);
      DotAddScaled(Combined(samples[..n], qualities[..n], dimension), samples[n], qualities[n], y);
      OrderedProducts(qualities[n], low, Dot(samples[n], y));
      OrderedProducts(qualities[n], Dot(samples[n], y), high);
      SumTimes(TotalWeight(qualities[..n]), qualities[n], low);
      SumTimes(TotalWeight(qualities[..n]), qualities[n], high);
    }
  }

  lemma NormOfSum(s: seq<real>, x: seq<real>, q: real)
    requires |s| == |x|
    ensures NormSquared(AddScaled(s, x, q)) ==
            NormSquared(s) + 2.0 * Product(q, Dot(s, x)) + Product(Square(q), NormSquared(x))
  {
    hide Dot;
    hide Product;
    hide AddScaled;
    var t := AddScaled(s, x, q);
    DotAddScaled(s, x, q, t);
    DotCommutes(s, t);
    DotCommutes(x, t);
    DotAddScaled(s, x, q, s);
    DotAddScaled(s, x, q, x);
    DotCommutes(s, x);
    SumOfProducts(q, Dot(s, x), Product(q, NormSquared(x)));
    ProductAssociates(q, q, NormSquared(x));
  }

  lemma MappedFloor(cosine: real, floor: real)
    requires 0.0 < floor && Mapped(cosine) >= floor
    ensures cosine >= 2.0 * floor - 1.0
  {
  }

  predicate Units(samples: seq<seq<real>>) {
    forall i :: 0 <= i < |samples| ==> NormSquared(samples[i]) == 1.0
  }

  // A positive similarity floor bounds the dot products of unit samples from below.
  lemma FloorBoundsPairs(samples: seq<seq<real>>, dimension: nat, floor: real)
    requires Rectangular(samples, dimension) && Consistent(samples, dimension, floor) && Units(samples) && 0.0 < floor
    ensures PairwiseWithin(samples, dimension, 2.0 * floor - 1.0, 1.0)
  {
    forall i, j | 0 <= i < j < |samples| ensures 2.0 * floor - 1.0 <= Dot(samples[i], samples[j]) <= 1.0 {
      DotIsBounded(samples[i], samples[j]);
      MappedFloor(Dot(samples[i], samples[j]), floor);
    }
  }

  lemma ConsistentEitherWay(samples: seq<seq<real>>, dimension: nat, floor: real, i: nat, j: nat)
    requires Rectangular(samples, dimension) && Consistent(samples, dimension, floor) && Units(samples)
    requires 0.5 <= floor <= 1.0 && i < |samples| && j < |samples|
    ensures 2.0 * floor - 1.0 <= Dot(samples[i], samples[j]) <= 1.0
  {
    DotIsBounded(samples[i], samples[j]);
    DotCommutes(samples[i], samples[j]);
    hide Dot;
    if i < j { MappedFloor(Dot(samples[i], samples[j]), floor); }
    if j < i { MappedFloor(Dot(samples[j], samples[i]), floor); }
  }

  // The sum of unit samples agrees with each of them, and is no longer than their total weight.
  lemma CombinedAgrees(samples: seq<seq<real>>, qualities: seq<real>, dimension: nat, floor: real, k: nat)
    requires |samples| == |qualities| && Rectangular(samples, dimension) && Weighted(qualities) && Units(samples)
    requires Consistent(samples, dimension, floor) && 0.5 <= floor <= 1.0 && k < |samples|
    ensures Product(TotalWeight(qualities), 2.0 * floor - 1.0) <=
            Dot(Combined(samples, qualities, dimension), samples[k])
    ensures Dot(Combined(samples, qualities, dimension), samples[k]) <= TotalWeight(qualities)
  {
    forall i | 0 <= i < |samples| ensures 2.0 * floor - 1.0 <= Dot(samples[i], samples[k]) <= 1.0 {
      ConsistentEitherWay(samples, dimension, floor, i, k);
    }
    hide Dot;
    CombinedDotBounds(samples, qualities, dimension, samples[k], 2.0 * floor - 1.0, 1.0);
  }

  lemma CombinedIsShort(samples: seq<seq<real>>, qualities: seq<real>, dimension: nat, floor: real)
    requires |samples| == |qualities| && Rectangular(samples, dimension) && Weighted(qualities) && Units(samples)
    requires Consistent(samples, dimension, floor) && 0.5 <= floor <= 1.0
    ensures NormSquared(Combined(samples, qualities, dimension)) <= Square(TotalWeight(qualities))
  {
    var c, w := Combined(samples, qualities, dimension), TotalWeight(qualities);
    var low := LowerBound(samples, c);
    forall i | 0 <= i < |samples| ensures low <= Dot(samples[i], c) <= w {
      CombinedAgrees(samples, qualities, dimension, floor, i);
      DotCommutes(samples[i], c);
    }
    hide Dot;
    CombinedDotBounds(samples, qualities, dimension, c, low, w);
  }

  lemma {:induction false} LowerBound(samples: seq<seq<real>>, y: seq<real>) returns (low: real)
    requires Rectangular(samples, |y|)
    ensures forall i :: 0 <= i < |samples| ==> low <= Dot(samples[i], y)
    decreases |samples|
  {
    if samples == [] {
      low := 0.0;
    } else {
      var n := |samples| - 1;
      low := LowerBound(samples[..n], y);
      forall i | 0 <= i < n ensures low <= Dot(samples[i], y) { assert samples[..n][i] == samples[i]; }
      if Dot(samples[n], y) < low { low := Dot(samples[n], y); }
    }
  }

  lemma {:induction false} WeightIsNotNegative(qualities: seq<real>)
    requires Weighted(qualities)
    ensures 0.0 <= TotalWeight(qualities)
    decreases |qualities|
  {
    if qualities != [] { WeightIsNotNegative(qualities[..|qualities| - 1]); }
  }

  lemma SquareIsStrict(x: real, y: real)
    requires 0.0 <= x < y
    ensures Square(x) < Square(y)
  {
    LikeSigns(y - x, y + x);
    assert Product(y - x, y + x) == Square(y) - Square(x);
  }

  lemma RootOrder(x: real, y: real)
    requires 0.0 <= x && 0.0 <= y && Square(x) <= Square(y)
    ensures x <= y
  {
    if y < x { SquareIsStrict(y, x); }
  }

  lemma ScaleDown(t: real, c: real, root: real, w: real, d: real)
    requires 0.0 < root <= w && 0.0 <= c && Product(w, c) <= d && Product(t, root) == d
    ensures c <= t
  {
    hide Product;
    OrderedProducts(c, root, w);
    ProductsCommute(c, root);
    ProductsCommute(c, w);
    ProductOrder(c, t, root);
  }

  // The template of consistent unit samples meets the same similarity floor against each of them.
  lemma TemplateMatchesEverySample(samples: seq<seq<real>>, qualities: seq<real>, dimension: nat, floor: real,
                                   root: real, k: nat)
    requires |samples| == |qualities| && Rectangular(samples, dimension) && Weighted(qualities) && Units(samples)
    requires Consistent(samples, dimension, floor) && 0.5 <= floor <= 1.0 && k < |samples|
    requires 0.0 < root && Product(root, root) == NormSquared(Combined(samples, qualities, dimension))
    ensures Mapped(Dot(Divided(Combined(samples, qualities, dimension), root), samples[k])) >= floor
  {
    var c, w := Combined(samples, qualities, dimension), TotalWeight(qualities);
    CombinedIsShort(samples, qualities, dimension, floor);
    WeightIsNotNegative(qualities);
    RootOrder(root, w);
    CombinedAgrees(samples, qualities, dimension, floor, k);
    DotDivided(c, samples[k], root);
    hide Product;
    hide Dot;
    ScaleDown(Dot(Divided(c, root), samples[k]), 2.0 * floor - 1.0, root, w, Dot(c, samples[k]));
  }

  // ---------------------------------------------------------------- how short the sum can be

  lemma NormStep(norm: real, q: real, dot: real, weight: real, squares: real, cross: real, low: real)
    requires 0.0 <= q && Product(weight, low) <= dot && squares + Product(low, cross) <= norm
    ensures squares + Square(q) + Product(low, cross + 2.0 * Product(q, weight)) <=
            norm + 2.0 * Product(q, dot) + Square(q)
  {
    OrderedProducts(q, Product(weight, low), dot);
    assert Product(low, cross + 2.0 * Product(q, weight)) ==
           Product(low, cross) + 2.0 * Product(q, Product(weight, low));
  }

  lemma NormStepDown(norm: real, q: real, dot: real, weight: real, squares: real, cross: real, high: real)
    requires 0.0 <= q && dot <= Product(weight, high) && norm <= squares + Product(high, cross)
    ensures norm + 2.0 * Product(q, dot) + Square(q) <=
            squares + Square(q) + Product(high, cross + 2.0 * Product(q, weight))
  {
    OrderedProducts(q, dot, Product(weight, high));
    assert Product(high, cross + 2.0 * Product(q, weight)) ==
           Product(high, cross) + 2.0 * Product(q, Product(weight, high));
  }

  // Bounds on the pairwise dot products of unit samples bound the squared norm of their weighted sum.
  lemma {:induction false} CentroidNormBounds(samples: seq<seq<real>>, qualities: seq<real>, dimension: nat,
                                              low: real, high: real)
    requires |samples| == |qualities| && Rectangular(samples, dimension) && Weighted(qualities) && Units(samples)
    requires PairwiseWithin(samples, dimension, low, high)
    ensures SquareSum(qualities) + Product(low, CrossSum(qualities)) <=
            NormSquared(Combined(samples, qualities, dimension))
    ensures NormSquared(Combined(samples, qualities, dimension)) <=
            SquareSum(qualities) + Product(high, CrossSum(qualities))
    decreases |samples|
  {
    if samples == [] {
      DotZero(dimension, Zero(dimension));
    } else {
      var n := |samples| - 1;
      var rest, weights, x, q := samples[..n], qualities[..n], samples[n], qualities[n];
      var s := Combined(rest, weights, dimension);
      CentroidNormBounds(rest, weights, dimension, low, high);
      CombinedDotBounds(rest, weights, dimension, x, low, high);
      NormOfSum(s, x, q);
      assert Combined(samples, qualities, dimension) == AddScaled(s, x, q) && NormSquared(x) == 1.0;
      assert SquareSum(qualities) == SquareSum(weights) + Square(q);
      assert CrossSum(qualities) == CrossSum(weights) + 2.0 * Product(q, TotalWeight(weights));
      hide *;
      ProductsCommute(Square(q), 1.0);
      OneTimes(Square(q));
      NormStep(NormSquared(s), q, Dot(s, x), TotalWeight(weights), SquareSum(weights), CrossSum(weights), low);
      NormStepDown(NormSquared(s), q, Dot(s, x), TotalWeight(weights), SquareSum(weights), CrossSum(weights), high);
    }
  }

  lemma OneMore(n: nat, x: real)
    ensures Product((n + 1) as real, x) == Product(n as real, x) + x
  {
  }

  lemma SquareOrder(x: real, y: real)
    requires 0.0 <= x <= y
    ensures Square(x) <= Square(y)
  {
    OrderedProducts(x, x, y);
    OrderedProducts(y, x, y);
    ProductsCommute(x, y);
  }

  // Twice the product of one weight with all the others is at most their squares and as many of its own.
  lemma {:induction false} WeightTimesOne(qualities: seq<real>, q: real)
    ensures 2.0 * Product(q, TotalWeight(qualities)) <= SquareSum(qualities) + Product(|qualities| as real, Square(q))
    decreases |qualities|
  {
    if qualities == [] {
      ProductWithZero(q);
      ProductWithZero(Square(q));
    } else {
      var n := |qualities| - 1;
      WeightTimesOne(qualities[..n], q);
      MixedTerm(q, qualities[n]);
      SumOfProducts(q, TotalWeight(qualities[..n]), qualities[n]);
      OneMore(n, Square(q));
      hide Product;
    }
  }

  // The cross terms are at most the squares, one time fewer than there are samples.
  lemma {:induction false} CrossIsAtMost(qualities: seq<real>)
    requires qualities != []
    ensures CrossSum(qualities) <= Product((|qualities| - 1) as real, SquareSum(qualities))
    decreases |qualities|
  {
    var n := |qualities| - 1;
    var rest := qualities[..n];
    if n == 0 {
      ProductWithZero(qualities[n]);
      ProductWithZero(SquareSum(qualities));
    } else {
      CrossIsAtMost(rest);
      WeightTimesOne(rest, qualities[n]);
      OneMore(n - 1, SquareSum(rest));
      SumOfProducts(n as real, SquareSum(rest), Square(qualities[n]));
      hide Product;
      hide Square;
    }
  }

  // Both sums when every weight is at least `least`; they are met exactly by equal weights.
  lemma {:induction false} SumsAreAtLeast(qualities: seq<real>, least: real)
    requires 0.0 <= least && forall i :: 0 <= i < |qualities| ==> least <= qualities[i]
    ensures TotalWeight(qualities) >= Product(|qualities| as real, least)
    ensures SquareSum(qualities) >= Product(|qualities| as real, Square(least))
    ensures CrossSum(qualities) >= Product(|qualities| as real, Product((|qualities| - 1) as real, Square(least)))
    decreases |qualities|
  {
    if qualities == [] {
      ProductWithZero(least);
      ProductWithZero(Square(least));
      ProductWithZero(Product(-1.0, Square(least)));
    } else {
      var n := |qualities| - 1;
      var rest := qualities[..n];
      SumsAreAtLeast(rest, least);
      SquareOrder(least, qualities[n]);
      OneMore(n, least);
      OneMore(n, Square(least));
      CrossStep(n as real, qualities[n], TotalWeight(rest), least);
      hide Product;
      hide Square;
    }
  }

  lemma CrossStep(n: real, q: real, weight: real, least: real)
    requires 0.0 <= n && 0.0 <= least <= q && Product(n, least) <= weight
    ensures Product(n, Product(n - 1.0, Square(least))) + 2.0 * Product(q, weight) >=
            Product(n + 1.0, Product(n, Square(least)))
  {
    ProductIsNotNegative(n, least);
    OrderedProducts(q, Product(n, least), weight);
    ProductsCommute(q, Product(n, least));
    OrderedProducts(Product(n, least), least, q);
    assert Product(Product(n, least), least) == Product(n, Square(least));
    assert Product(n + 1.0, Product(n, Square(least))) ==
           Product(n, Product(n - 1.0, Square(least))) + 2.0 * Product(n, Square(least));
  }

  lemma {:induction false} SumsOfEqual(qualities: seq<real>, q: real)
    requires forall i :: 0 <= i < |qualities| ==> qualities[i] == q
    ensures TotalWeight(qualities) == Product(|qualities| as real, q)
    ensures SquareSum(qualities) == Product(|qualities| as real, Square(q))
    ensures CrossSum(qualities) == Product(|qualities| as real, Product((|qualities| - 1) as real, Square(q)))
    decreases |qualities|
  {
    if qualities == [] {
      ProductWithZero(q);
      ProductWithZero(Square(q));
      ProductWithZero(Product(-1.0, Square(q)));
    } else {
      var n := |qualities| - 1;
      SumsOfEqual(qualities[..n], q);
      OneMore(n, q);
      OneMore(n, Square(q));
      EqualCrossStep(n as real, q);
      hide Product;
      hide Square;
    }
  }

  lemma EqualCrossStep(n: real, q: real)
    ensures Product(n, Product(n - 1.0, Square(q))) + 2.0 * Product(q, Product(n, q)) ==
            Product(n + 1.0, Product(n, Square(q)))
  {
    assert Product(q, Product(n, q)) == Product(n, Square(q));
    assert Product(n + 1.0, Product(n, Square(q))) ==
           Product(n, Product(n - 1.0, Square(q))) + 2.0 * Product(n, Square(q));
  }

  // What is left of `n` unit samples whose dot products are all `low`, per squared weight.
  function Margin(n: nat, low: real): (m: real) { 1.0 + Product(n as real - 1.0, low) }

  lemma NegativeFloor(low: real, cross: real, squares: real, n: real)
    requires low <= 0.0 && cross <= Product(n - 1.0, squares)
    ensures squares + Product(low, cross) >= Product(squares, 1.0 + Product(n - 1.0, low))
  {
    OrderedProducts(-low, cross, Product(n - 1.0, squares));
    assert Product(-low, cross) == -Product(low, cross);
    assert Product(-low, Product(n - 1.0, squares)) == -Product(low, Product(n - 1.0, squares));
    assert Product(squares, 1.0 + Product(n - 1.0, low)) == squares + Product(low, Product(n - 1.0, squares));
  }

  // The shortest the sum can be, for any bound on the dot products and any least weight.
  lemma CentroidIsLong(samples: seq<seq<real>>, qualities: seq<real>, dimension: nat, low: real, least: real)
    requires |samples| == |qualities| && Rectangular(samples, dimension) && Weighted(qualities) && Units(samples)
    requires samples != [] && PairwiseWithin(samples, dimension, low, 1.0) && Margin(|samples|, low) >= 0.0
    requires 0.0 <= least && forall i :: 0 <= i < |qualities| ==> least <= qualities[i]
    ensures low <= 0.0 ==> NormSquared(Combined(samples, qualities, dimension)) >=
                           Product(SquareSum(qualities), Margin(|samples|, low))
    ensures low >= 0.0 ==> NormSquared(Combined(samples, qualities, dimension)) >= SquareSum(qualities)
    ensures NormSquared(Combined(samples, qualities, dimension)) >=
            Product(Product(|samples| as real, Square(least)), Margin(|samples|, low))
  {
    var n := |samples| as real;
    hide Dot;
    CentroidNormBounds(samples, qualities, dimension, low, 1.0);
    SumsAreAtLeast(qualities, least);
    var nq, m := Product(n, Square(least)), Margin(|samples|, low);
    if low <= 0.0 {
      CrossIsAtMost(qualities);
      NegativeFloor(low, CrossSum(qualities), SquareSum(qualities), n);
      ScaleUp(nq, SquareSum(qualities), m);
    }
    if low >= 0.0 {
      SquareIsNotNegative(least);
      ProductIsNotNegative(n - 1.0, Square(least));
      ProductIsNotNegative(n, Product(n - 1.0, Square(least)));
      var cross := Product(n, Product(n - 1.0, Square(least)));
      OrderedProducts(low, cross, CrossSum(qualities));
      ProductIsNotNegative(low, cross);
      LeastMargin(n, Square(least), low);
    }
  }

  lemma ScaleUp(a: real, b: real, m: real)
    requires a <= b && 0.0 <= m
    ensures Product(a, m) <= Product(b, m)
  {
    OrderedProducts(m, a, b);
    ProductsCommute(m, a);
    ProductsCommute(m, b);
  }

  lemma LeastMargin(n: real, square: real, low: real)
    ensures Product(Product(n, square), 1.0 + Product(n - 1.0, low)) ==
            Product(n, square) + Product(low, Product(n, Product(n - 1.0, square)))
  {
  }
}
