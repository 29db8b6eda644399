// Embedding vectors: dot products, weighted sums and normalization over reals.
module Vectors {
  import opened Arithmetic

  function Dot(a: seq<real>, b: seq<real>): (d: real)
    requires |a| == |b|
  {
    if a == [] then 0.0
    else Dot(a[..|a| - 1], b[..|b| - 1]) + Product(a[|a| - 1], b[|b| - 1])
  }

  function NormSquared(a: seq<real>): (n: real) { Dot(a, a) }

  function Zero(dimension: nat): (z: seq<real>)
    ensures |z| == dimension
  {
    seq(dimension, _ => 0.0)
  }

  // s + q * x, component by component.
  function AddScaled(s: seq<real>, x: seq<real>, q: real): (t: seq<real>)
    requires |s| == |x|
    ensures |t| == |s|
  {
    seq(|s|, i requires 0 <= i < |s| => s[i] + Product(x[i], q))
  }

  function Divided(s: seq<real>, norm: real): (t: seq<real>)
    requires norm != 0.0
    ensures |t| == |s|
  {
    seq(|s|, i requires 0 <= i < |s| => s[i] / norm)
  }

  lemma {:induction false} DotCommutes(a: seq<real>, b: seq<real>)
    requires |a| == |b|
    ensures Dot(a, b) == Dot(b, a)
    decreases |a|
  {
    if a != [] { DotCommutes(a[..|a| - 1], b[..|b| - 1]); }
  }

  lemma Distributes(s: real, x: real, q: real, y: real)
    ensures Product(s + Product(x, q), y) == Product(s, y) + Product(q, Product(x, y))
  {
  }

  lemma SumOfProducts(q: real, a: real, b: real)
    ensures Product(q, a + b) == Product(q, a) + Product(q, b)
  {
  }

  lemma {:induction false} DotAddScaled(s: seq<real>, x: seq<real>, q: real, y: seq<real>)
    requires |s| == |x| == |y|
    ensures Dot(AddScaled(s, x, q), y) == Dot(s, y) + Product(q, Dot(x, y))
    decreases |s|
  {
    hide Product;
    if s == [] {
      ProductWithZero(q);
    } else {
      var n := |s| - 1;
      DotAddScaled(s[..n], x[..n], q, y[..n]);
      assert AddScaled(s, x, q)[..n] == AddScaled(s[..n], x[..n], q);
      Distributes(s[n], x[n], q, y[n]);
      SumOfProducts(q, Dot(x[..n], y[..n]), Product(x[n], y[n]));
    }
  }

  lemma ProductWithZero(q: real)
    ensures Product(q, 0.0) == 0.0 == Product(0.0, q)
  {
  }

  lemma {:induction false} DotZero(dimension: nat, y: seq<real>)
    requires |y| == dimension
    ensures Dot(Zero(dimension), y) == 0.0
    decreases dimension
  {
    if dimension != 0 {
      DotZero(dimension - 1, y[..dimension - 1]);
      assert Zero(dimension)[..dimension - 1] == Zero(dimension - 1);
    }
  }

  lemma {:induction false} NormIsNotNegative(a: seq<real>)
    ensures NormSquared(a) >= 0.0
    decreases |a|
  {
    if a != [] {
      NormIsNotNegative(a[..|a| - 1]);
      SquareIsNotNegative(a[|a| - 1]);
    }
  }

  lemma MixedTerm(a: real, b: real)
    ensures 2.0 * Product(a, b) <= Product(a, a) + Product(b, b)
  {
    SquareIsNotNegative(a - b);
  }

  // Twice a dot product is at most the sum of the squared norms.
  lemma {:induction false} DotIsBounded(a: seq<real>, b: seq<real>)
    requires |a| == |b|
    ensures 2.0 * Dot(a, b) <= NormSquared(a) + NormSquared(b)
    decreases |a|
  {
    hide Product;
    if a != [] {
      DotIsBounded(a[..|a| - 1], b[..|b| - 1]);
      MixedTerm(a[|a| - 1], b[|b| - 1]);
    }
  }

  lemma ProductOverNorm(a: real, b: real, norm: real)
    requires norm != 0.0
    ensures Product(Product(a / norm, b), norm) == Product(a, b)
  {
    assert a / norm * norm == a;
    assert a / norm * b * norm == a / norm * norm * b;
  }

  lemma {:induction false} DotDivided(a: seq<real>, b: seq<real>, norm: real)
    requires |a| == |b| && norm != 0.0
    ensures Product(Dot(Divided(a, norm), b), norm) == Dot(a, b)
    decreases |a|
  {
    if a == [] {
      ProductWithZero(norm);
    } else {
      var n := |a| - 1;
      hide Product;
      DotDivided(a[..n], b[..n], norm);
      assert Divided(a, norm)[..n] == Divided(a[..n], norm);
      ProductOverNorm(a[n], b[n], norm);
      SumTimes(Dot(Divided(a[..n], norm), b[..n]), Product(a[n] / norm, b[n]), norm);
    }
  }

  lemma SumTimes(a: real, b: real, m: real)
    ensures Product(a + b, m) == Product(a, m) + Product(b, m)
  {
  }

  lemma CancelFactor(x: real, y: real, m: real)
    requires m != 0.0 && Product(x, m) == Product(y, m)
    ensures x == y
  {
    assert (x - y) * m == 0.0;
  }

  lemma ProductAssociates(x: real, y: real, z: real)
    ensures Product(Product(x, y), z) == Product(x, Product(y, z))
  {
  }

  lemma OneTimes(x: real)
    ensures Product(1.0, x) == x
  {
  }

  // Dividing by the root of the squared norm leaves a unit vector.
  lemma DividedIsUnit(a: seq<real>, root: real)
    requires root > 0.0 && Product(root, root) == NormSquared(a)
    ensures NormSquared(Divided(a, root)) == 1.0
  {
    var u := Divided(a, root);
    hide Product;
    hide Dot;
    DotDivided(a, u, root);
    DotCommutes(a, u);
    DotDivided(a, a, root);
    DotCommutes(u, a);
    CancelFactor(Dot(u, a), root, root);
    OneTimes(root);
    CancelFactor(NormSquared(u), 1.0, root);
  }
}
