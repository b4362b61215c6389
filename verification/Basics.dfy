/** Small facts about numbers and sets that several modules rest on. */
module Basics {

  /** A real cut to the range 0..1. */
  function Unit(x: real): (u: real)
    ensures 0.0 <= u <= 1.0
  {
    if x < 0.0 then 0.0 else if x > 1.0 then 1.0 else x
  }

  function Max(x: real, y: real): real {
    if x < y then y else x
  }

  lemma UnitMonotone(x: real, y: real)
    requires x <= y
    ensures Unit(x) <= Unit(y)
  {
  }

  lemma MulMonotone(a: int, b: int, c: int)
    requires a <= b && c >= 0
    ensures a * c <= b * c
  {
  }

  lemma ScaleMonotone(a: real, b: real, c: real)
    requires a <= b && c >= 0.0
    ensures a * c <= b * c
  {
  }

  lemma PositiveProduct(a: real, b: real)
    requires a > 0.0 && b > 0.0
    ensures a * b > 0.0
  {
  }

  /** With the products named: a larger number has the larger product with a positive one. */
  lemma ScaleStrict(a: real, b: real, c: real, ac: real, bc: real)
    requires a < b && c > 0.0 && ac == a * c && bc == b * c
    ensures ac < bc
  {
    PositiveProduct(b - a, c);
    assert (b - a) * c == bc - ac;
  }

  /** Comparing two numbers by their products with a positive one. */
  lemma ScaleOrder(a: real, b: real, c: real, ac: real, bc: real)
    requires c > 0.0 && ac == a * c && bc == b * c
    ensures a < b <==> ac < bc
  {
    if a < b {
      ScaleStrict(a, b, c, ac, bc);
    } else if b < a {
      ScaleStrict(b, a, c, bc, ac);
    } else {
      assert ac == bc;
    }
  }

  lemma QuotientTimes(a: real, d: real)
    requires d != 0.0
    ensures a / d * d == a
  {
  }

  lemma DivideMonotone(a: real, b: real, d: real)
    requires a <= b && d > 0.0
    ensures a / d <= b / d
  {
    QuotientTimes(a, d);
    QuotientTimes(b, d);
  }

  lemma SmallMultiple(k: int, d: int)
    requires d > 0 && -d < k * d < d
    ensures k == 0
  {
    if k >= 1 {
      MulMonotone(1, k, d);
    } else if k <= -1 {
      MulMonotone(k, -1, d);
    }
  }

  /** Quotient and remainder are the only ones there are. */
  lemma Quotient(value: int, d: int, q: int, r: int)
    requires d > 0 && value == q * d + r && 0 <= r < d
    ensures value / d == q && value % d == r
  {
    var q', r' := value / d, value % d;
    assert value == d * q' + r';
    var k := q - q';
    assert k * d == q * d - d * q' == r' - r;
    SmallMultiple(k, d);
  }

  lemma SubsetSize<T>(a: set<T>, b: set<T>)
    requires a <= b
    ensures |a| <= |b|
  {
    assert b == a + (b - a);
  }
}
