/**
  Fixed-point arithmetic of the Cosmos SDK decimal type, restricted to the
  non-negative values that the modelled modules compute with.

  A decimal is an integer scaled by 10^18.  The library itself is not part of this
  model; its rounding rules are fixed here: products and quotients are rounded half
  to even, and a quotient is first truncated at 36 digits.

  Products and quotients of two unknowns are written as repeated addition and
  subtraction, so that only the lemmas of this module reason about nonlinear
  arithmetic.
 */
module Dec {

  const ONE: nat := 1_000_000_000_000_000_000
  const HALF: nat := 500_000_000_000_000_000

  function Product(x: nat, y: nat): nat {
    if x == 0 then 0 else y + Product(x - 1, y)
  }

  /** The quotient rounded down. */
  function Quotient(x: nat, y: nat): nat
    requires y != 0
  {
    if x < y then 0 else 1 + Quotient(x - y, y)
  }

  /** Drops 18 digits, rounding half to even. */
  function Chop(x: nat): nat {
    var q, r := x / ONE, x % ONE;
    if r < HALF || (r == HALF && q % 2 == 0) then q else q + 1
  }

  function FromInt(n: nat): nat {
    n * ONE
  }

  function Mul(x: nat, y: nat): nat {
    Chop(Product(x, y))
  }

  function Quo(x: nat, y: nat): nat
    requires y != 0
  {
    Chop(Quotient(x * ONE * ONE, y))
  }

  function Ceil(x: nat): nat {
    if x % ONE == 0 then FromInt(x / ONE) else FromInt(x / ONE + 1)
  }

  function RoundInt(x: nat): nat {
    Chop(x)
  }

  function TruncateInt(x: nat): nat {
    x / ONE
  }

  // ---- products and quotients ----

  lemma {:induction false} ProductIsTimes(x: nat, y: nat)
    ensures Product(x, y) == x * y
  {
    if x > 0 {
      ProductIsTimes(x - 1, y);
      assert x * y == (x - 1) * y + y;
    }
  }

  lemma {:induction false} QuotientBounds(x: nat, y: nat)
    requires y != 0
    ensures Product(y, Quotient(x, y)) <= x < Product(y, Quotient(x, y)) + y
  {
    if x >= y {
      var q := Quotient(x - y, y);
      QuotientBounds(x - y, y);
      ProductSum(y, q, 1);
      ProductOfConstant(y, 1);
    } else {
      ProductOfConstant(y, 0);
    }
  }

  lemma {:induction false} ProductCommutes(x: nat, y: nat)
    ensures Product(x, y) == Product(y, x)
  {
    ProductIsTimes(x, y);
    ProductIsTimes(y, x);
  }

  lemma {:induction false} ProductMono(x: nat, y: nat, z: nat)
    requires y <= z
    ensures Product(x, y) <= Product(x, z)
  {
    if x > 0 { ProductMono(x - 1, y, z); }
  }

  lemma {:induction false} ProductSum(x: nat, y: nat, z: nat)
    ensures Product(x, y + z) == Product(x, y) + Product(x, z)
  {
    if x > 0 { ProductSum(x - 1, y, z); }
  }

  lemma {:induction false} SumProduct(x: nat, y: nat, z: nat)
    ensures Product(x + y, z) == Product(x, z) + Product(y, z)
  {
    if x > 0 { SumProduct(x - 1, y, z); }
  }

  /** Constant factors can be taken out, on either side. */
  lemma {:induction false} ProductOfScaled(x: nat, k: nat, y: nat)
    ensures Product(x, k * y) == k * Product(x, y)
  {
    if x > 0 {
      ProductOfScaled(x - 1, k, y);
      var p := Product(x - 1, y);
      assert k * (y + p) == k * y + k * p;
    }
  }

  lemma {:induction false} ScaledProduct(k: nat, x: nat, y: nat)
    ensures Product(k * x, y) == k * Product(x, y)
  {
    ProductOfScaled(y, k, x);
    ProductCommutes(y, k * x);
    ProductCommutes(y, x);
  }

  lemma {:induction false} ProductOfConstant(x: nat, k: nat)
    ensures Product(x, k) == k * x
  {
    ProductIsTimes(x, k);
  }

  lemma {:induction false} ProductRegroups(x: nat, y: nat, z: nat)
    ensures Product(x, Product(y, z)) == Product(Product(x, y), z) == Product(y, Product(x, z))
  {
    var xy, yz, xz := Product(x, y), Product(y, z), Product(x, z);
    ProductIsTimes(x, y);
    ProductIsTimes(y, z);
    ProductIsTimes(x, z);
    ProductIsTimes(x, yz);
    ProductIsTimes(xy, z);
    ProductIsTimes(y, xz);
    hide Product;
    assert x * (y * z) == (x * y) * z == y * (x * z);
  }

  lemma {:induction false} ProductCancels(x: nat, y: nat, z: nat)
    requires x != 0 && Product(x, y) <= Product(x, z)
    ensures y <= z
  {
    if z < y {
      ProductMono(x, z + 1, y);
      ProductSum(x, z, 1);
      ProductOfConstant(x, 1);
    }
  }

  // ---- rounding ----

  lemma {:induction false} ChopBound(x: nat)
    ensures ONE * Chop(x) <= x + HALF
    ensures x <= ONE * Chop(x) + HALF
  {
  }

  /** Half to even, stated without the algorithm: the nearest integer, the even one on a tie. */
  lemma {:induction false} ChopNearest(x: nat, n: nat)
    ensures Chop(x) == n <==>
            && ONE * n - HALF <= x <= ONE * n + HALF
            && (x == ONE * n - HALF || x == ONE * n + HALF ==> n % 2 == 0)
  {
  }

  lemma {:induction false} ChopMonotone(x: nat, y: nat)
    requires x <= y
    ensures Chop(x) <= Chop(y)
  {
  }

  lemma {:induction false} ChopExact(n: nat)
    ensures Chop(n * ONE) == n
  {
  }

  lemma {:induction false} TruncateExact(n: nat)
    ensures TruncateInt(FromInt(n)) == n
  {
  }

  /** Multiplying an integer amount by a decimal loses nothing. */
  lemma {:induction false} MulInt(n: nat, x: nat)
    ensures Mul(FromInt(n), x) == Product(n, x)
  {
    ScaledProduct(ONE, n, x);
    ChopExact(Product(n, x));
  }
}
