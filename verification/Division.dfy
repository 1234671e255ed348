/** What determines a quotient, and integer division with a variable divisor. */
module Division {
  import opened Dec

  function Floor(x: nat, y: nat): nat
    requires y != 0
  {
    x / y
  }

  function Rest(x: nat, y: nat): nat
    requires y != 0
  {
    x % y
  }

  lemma {:induction false} DivisionWithRest(x: nat, y: nat)
    requires y != 0
    ensures x == Product(y, Floor(x, y)) + Rest(x, y) && Rest(x, y) < y
  {
    ProductIsTimes(y, Floor(x, y));
  }

  lemma {:induction false} QuotientIsFloor(x: nat, y: nat)
    requires y != 0
    ensures Quotient(x, y) == Floor(x, y)
  {
    hide Product, Quotient, Floor, Rest;
    DivisionWithRest(x, y);
    QuotientUnique(x, y, Floor(x, y));
  }

  lemma {:induction false} QuotientUnique(x: nat, y: nat, q: nat)
    requires y != 0 && Product(y, q) <= x < Product(y, q) + y
    ensures Quotient(x, y) == q
  {
    var d := Quotient(x, y);
    QuotientBounds(x, y);
    ProductSum(y, d, 1);
    ProductSum(y, q, 1);
    ProductOfConstant(y, 1);
    hide Product, Quotient;
    if d < q { ProductMono(y, d + 1, q); }
    if q < d { ProductMono(y, q + 1, d); }
  }

  /** A common factor of dividend and divisor drops out. */
  lemma {:induction false} QuotientScaled(x: nat, y: nat, s: nat)
    requires y != 0 && s != 0
    ensures Product(s, y) != 0
    ensures Quotient(Product(s, x), Product(s, y)) == Quotient(x, y)
  {
    var q := Quotient(x, y);
    QuotientBounds(x, y);
    ProductMono(s, 1, y);
    ProductOfConstant(s, 1);
    ProductMono(s, Product(y, q), x);
    ProductMono(s, x + 1, Product(y, q) + y);
    ProductSum(s, x, 1);
    ProductSum(s, Product(y, q), y);
    ProductRegroups(s, y, q);
    QuotientUnique(Product(s, x), Product(s, y), q);
  }
}
