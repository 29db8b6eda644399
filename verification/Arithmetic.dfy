// Small arithmetic shared by the geometry, image and embedding models.
module Arithmetic {
  // Multiplication of reals as a function, so that a proof can hide it.
  function Product(x: real, y: real): (p: real) { x * y }

  function Square(x: real): (s: real) { Product(x, x) }

  function Larger(a: real, b: real): (m: real) { if a < b then b else a }

  function Smaller(a: real, b: real): (m: real) { if a < b then a else b }

  // Cells of a grid, and their row-major numbering.
  function Area(width: nat, height: nat): (n: nat) { width * height }

  function Flat(x: nat, y: nat, width: nat): (i: nat) { y * width + x }

  lemma FlatInRange(x: nat, y: nat, width: nat, height: nat)
    requires x < width && y < height
    ensures Flat(x, y, width) < Area(width, height)
  {
    assert (y + 1) * width <= height * width;
  }

  lemma LikeSigns(x: real, y: real)
    requires (x > 0.0 && y > 0.0) || (x < 0.0 && y < 0.0)
    ensures Product(x, y) > 0.0
  {
  }

  lemma SquareIsPositive(x: real)
    requires x != 0.0
    ensures Square(x) > 0.0
  {
    hide Product;
    LikeSigns(x, x);
  }

  lemma SquareIsNotNegative(x: real)
    ensures Square(x) >= 0.0
  {
  }

  lemma ProductIsPositive(x: real, y: real)
    requires x > 0.0 && y > 0.0
    ensures Product(x, y) > 0.0
  {
  }

  lemma ProductIsNotNegative(x: real, y: real)
    requires x >= 0.0 && y >= 0.0
    ensures Product(x, y) >= 0.0
  {
  }

  lemma SquaresKeepOrder(a: real, b: real)
    requires a >= 0.0 && b >= 0.0
    ensures Product(a, a) <= Product(b, b) <==> a <= b
  {
    if a <= b {
      assert Product(a, a) <= Product(a, b) <= Product(b, b);
    } else {
      assert Product(b, b) <= Product(a, b) < Product(a, a);
    }
  }

  lemma FactorOrder(a: real, b: real, n: real)
    requires 0.0 < n
    ensures a * n <= b * n <==> a <= b
  {
    assert b < a ==> 0.0 < (a - b) * n;
    assert a <= b ==> 0.0 <= (b - a) * n;
  }

  lemma ProductOrder(a: real, b: real, n: real)
    requires 0.0 < n
    ensures Product(a, n) <= Product(b, n) <==> a <= b
  {
    FactorOrder(a, b, n);
  }
}
