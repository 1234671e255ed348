/**
  Converting a base price and quantity into a quote quantity, through 18-digit decimals.
 */
module Quote {
  import opened Dec
  import opened Division

  function Pow10(n: nat): (p: nat)
    ensures p > 0
  {
    if n == 0 then 1 else 10 * Pow10(n - 1)
  }

  /** The most decimals a currency can have before its conversions panic. */
  const MAX_DECIMALS := 18

  function UintToDec(quantity: nat, decimals: nat): nat
    requires decimals <= MAX_DECIMALS
  {
    Product(quantity, Pow10(MAX_DECIMALS - decimals))
  }

  /** The smallest amount of a currency. */
  function MinDecimal(decimals: nat): (m: nat)
    requires decimals <= MAX_DECIMALS
    ensures m == Pow10(MAX_DECIMALS - decimals)
  {
    ProductIsTimes(1, Pow10(MAX_DECIMALS - decimals));
    UintToDec(1, decimals)
  }

  function DecToUint(quantity: nat, decimals: nat): nat
    requires decimals <= MAX_DECIMALS
  {
    TruncateInt(Quo(quantity, MinDecimal(decimals)))
  }

  datatype Conversion = Converted(quantity: nat) | TooSmall | Panics

  function BaseToQuoteQuantity(basePrice: nat, baseQuantity: nat, baseDecimals: nat, quoteDecimals: nat): Conversion {
    if baseDecimals > MAX_DECIMALS || quoteDecimals > MAX_DECIMALS then Panics
    else
      var basePriceDec := UintToDec(basePrice, quoteDecimals);
      var baseQuantityDec := UintToDec(baseQuantity, baseDecimals);
      var quoteQuantityDec := Mul(basePriceDec, baseQuantityDec);
      if quoteQuantityDec < MinDecimal(quoteDecimals) then TooSmall
      else Converted(DecToUint(quoteQuantityDec, quoteDecimals))
  }

  // ---- powers of ten, quotients ----

  lemma {:induction false} PowSum(a: nat, b: nat)
    ensures Pow10(a + b) == Product(Pow10(a), Pow10(b))
  {
    if a == 0 {
      assert Product(1, Pow10(b)) == Pow10(b) + Product(0, Pow10(b));
    } else {
      PowSum(a - 1, b);
      ScaledProduct(10, Pow10(a - 1), Pow10(b));
    }
  }

  lemma {:induction false} PowOne()
    ensures Pow10(18) == ONE
  {
    assert Pow10(6) == 1_000_000;
    PowSum(6, 6);
    PowSum(12, 6);
    ProductOfConstant(Pow10(6), 1_000_000);
    ProductOfConstant(Pow10(12), 1_000_000);
  }

  lemma {:induction false} SmallerThanUnit(x: nat, m: nat)
    requires m != 0
    ensures x < m <==> Quotient(x, m) == 0
  {
  }

  /** Converting a decimal back divides it by the smallest currency unit, rounding down, with no other error. */
  lemma {:induction false} DecToUintIsFloor(quantity: nat, decimals: nat)
    requires decimals <= MAX_DECIMALS
    ensures DecToUint(quantity, decimals) == Quotient(quantity, Pow10(MAX_DECIMALS - decimals))
  {
    var m, t := Pow10(MAX_DECIMALS - decimals), Pow10(decimals);
    PowSum(MAX_DECIMALS - decimals, decimals);
    PowOne();
    ExactQuotient(quantity, m, t);
    TruncatedQuotient(quantity, m, t);
  }

  lemma {:induction false} ExactQuotient(x: nat, m: nat, t: nat)
    requires m != 0 && Product(m, t) == ONE
    ensures Quo(x, m) == Product(x, t)
  {
    var p := Product(x, t);
    ProductRegroups(m, x, t);
    ProductOfConstant(x, ONE);
    ProductOfScaled(m, ONE, p);
    assert Product(m, ONE * p) == x * ONE * ONE;
    QuotientUnique(x * ONE * ONE, m, ONE * p);
    ChopExact(p);
  }

  lemma {:induction false} TruncatedQuotient(x: nat, m: nat, t: nat)
    requires m != 0 && t != 0 && Product(m, t) == ONE
    ensures TruncateInt(Product(x, t)) == Quotient(x, m)
  {
    var q := Quotient(x, m);
    QuotientBounds(x, m);
    ProductCommutes(x, t);
    ProductCommutes(m, t);
    ProductMono(t, Product(m, q), x);
    ProductMono(t, x + 1, Product(m, q) + m);
    ProductSum(t, x, 1);
    ProductSum(t, Product(m, q), m);
    ProductOfConstant(t, 1);
    ProductRegroups(t, m, q);
    ProductCommutes(ONE, q);
    ProductOfConstant(q, ONE);
  }

  // ---- the two regimes ----

  /** Scaling both factors scales the product by both scales. */
  lemma {:induction false} ScaledFactors(price: nat, quantity: nat, m: nat, w: nat)
    ensures Product(Product(price, m), Product(quantity, w)) == Product(Product(price, quantity), Product(m, w))
  {
    ProductRegroups(price, m, Product(quantity, w));
    ProductRegroups(m, quantity, w);
    ProductRegroups(price, quantity, Product(m, w));
  }

  /** Many decimals: the product is rounded once, half to even, to a multiple of `step`. */
  lemma {:induction false} RoundedProduct(x: nat, s: nat, step: nat, n: nat)
    requires s != 0 && Product(s, step) == ONE
    ensures Chop(Product(s, x)) >= n <==>
              (2 * x + step > 2 * Product(step, n) || (2 * x + step == 2 * Product(step, n) && n % 2 == 0))
  {
    var y, target := Product(s, x), Product(step, n);
    ChopAtLeast(y, n);
    ProductSum(s, 2 * x, step);
    ProductOfScaled(s, 2, x);
    ProductOfScaled(s, 2, target);
    ProductRegroups(s, step, n);
    ProductCommutes(ONE, n);
    ProductOfConstant(n, ONE);
    ScaledCompare(s, 2 * x + step, 2 * target);
  }

  lemma {:induction false} ScaledCompare(s: nat, p: nat, q: nat)
    requires s != 0
    ensures Product(s, p) > Product(s, q) <==> p > q
    ensures Product(s, p) == Product(s, q) <==> p == q
  {
    ProductSum(s, p, 1);
    ProductSum(s, q, 1);
    ProductOfConstant(s, 1);
    hide Product;
    if p < q { ProductMono(s, p + 1, q); }
    if q < p { ProductMono(s, q + 1, p); }
  }

  lemma {:induction false} ChopAtLeast(y: nat, n: nat)
    ensures Chop(y) >= n <==> 2 * y + ONE > 2 * (ONE * n) || (2 * y + ONE == 2 * (ONE * n) && n % 2 == 0)
  {
  }

  /** The whole conversion: one rounding of the scaled product, then a division that rounds down. */
  lemma {:induction false} ConversionIsQuotient(basePrice: nat, baseQuantity: nat, baseDecimals: nat, quoteDecimals: nat)
    requires baseDecimals <= MAX_DECIMALS && quoteDecimals <= MAX_DECIMALS
    ensures var m, w := Pow10(MAX_DECIMALS - quoteDecimals), Pow10(MAX_DECIMALS - baseDecimals);
            var n := Quotient(Chop(Product(Product(m, w), Product(basePrice, baseQuantity))), m);
            BaseToQuoteQuantity(basePrice, baseQuantity, baseDecimals, quoteDecimals)
            == if n == 0 then TooSmall else Converted(n)
  {
    var x := Product(basePrice, baseQuantity);
    var m, w := Pow10(MAX_DECIMALS - quoteDecimals), Pow10(MAX_DECIMALS - baseDecimals);
    var dec := Chop(Product(Product(m, w), x));
    ScaledFactors(basePrice, baseQuantity, m, w);
    ProductCommutes(x, Product(m, w));
    DecToUintIsFloor(dec, quoteDecimals);
    SmallerThanUnit(dec, m);
    hide Product, Quotient, Chop, Pow10, DecToUint;
  }

  // ---- the theorems ----

  /**
    With at most 18 decimals in all the conversion is exact: the floor of the true quote
    amount, refused exactly when that is zero.
   */
  lemma {:induction false} ExactConversion(basePrice: nat, baseQuantity: nat, baseDecimals: nat, quoteDecimals: nat)
    requires baseDecimals + quoteDecimals <= MAX_DECIMALS
    ensures var floor := Quotient(Product(basePrice, baseQuantity), Pow10(baseDecimals));
            BaseToQuoteQuantity(basePrice, baseQuantity, baseDecimals, quoteDecimals)
            == if floor == 0 then TooSmall else Converted(floor)
  {
    hide Product, Quotient, Chop, Pow10, BaseToQuoteQuantity;
    var x := Product(basePrice, baseQuantity);
    var m, w := Pow10(MAX_DECIMALS - quoteDecimals), Pow10(MAX_DECIMALS - baseDecimals);
    var b, s := Pow10(baseDecimals), Pow10(MAX_DECIMALS - quoteDecimals - baseDecimals);
    ConversionIsQuotient(basePrice, baseQuantity, baseDecimals, quoteDecimals);
    PowSum(MAX_DECIMALS - quoteDecimals - baseDecimals, baseDecimals);
    PowSum(baseDecimals, MAX_DECIMALS - baseDecimals);
    PowOne();
    ProductRegroups(s, b, w);
    ProductOfConstant(s, ONE);
    assert Product(m, w) == ONE * s;
    ScaledProduct(ONE, s, x);
    ChopExact(Product(s, x));
    QuotientScaled(x, b, s);
  }

  /** Whether rounding the product carries it into the next unit of `steps` rounding steps. */
  predicate Carries(floor: nat, rest: nat, step: nat, steps: nat) {
    var unit := Product(step, steps);
    2 * rest + step > 2 * unit || (2 * rest + step == 2 * unit && Product(floor + 1, steps) % 2 == 0)
  }

  /**
    With more decimals the product is rounded first, which can carry into the next unit: the
    result is the floor or the floor plus one, and it is plus one exactly when the remainder
    lies within half a rounding step of the next unit (ties go to an even step).
   */
  lemma {:induction false} RoundedConversion(basePrice: nat, baseQuantity: nat, baseDecimals: nat, quoteDecimals: nat)
    requires baseDecimals <= MAX_DECIMALS && quoteDecimals <= MAX_DECIMALS
    requires baseDecimals + quoteDecimals > MAX_DECIMALS
    ensures var unit := Pow10(baseDecimals);
            var floor := Quotient(Product(basePrice, baseQuantity), unit);
            var rest := Product(basePrice, baseQuantity) - Product(unit, floor);
            var step := Pow10(baseDecimals + quoteDecimals - MAX_DECIMALS);
            var steps := Pow10(MAX_DECIMALS - quoteDecimals);
            && unit == Product(step, steps)
            && 0 <= rest < unit
            && var result := if Carries(floor, rest, step, steps) then floor + 1 else floor;
               BaseToQuoteQuantity(basePrice, baseQuantity, baseDecimals, quoteDecimals)
               == if result == 0 then TooSmall else Converted(result)
  {
    hide Product, Quotient, Chop, Pow10, Carries, BaseToQuoteQuantity;
    var x := Product(basePrice, baseQuantity);
    var m, w := Pow10(MAX_DECIMALS - quoteDecimals), Pow10(MAX_DECIMALS - baseDecimals);
    var a, unit := Pow10(baseDecimals + quoteDecimals - MAX_DECIMALS), Pow10(baseDecimals);
    ConversionIsQuotient(basePrice, baseQuantity, baseDecimals, quoteDecimals);
    PowSum(baseDecimals + quoteDecimals - MAX_DECIMALS, MAX_DECIMALS - quoteDecimals);
    PowSum(MAX_DECIMALS - baseDecimals, baseDecimals);
    PowOne();
    QuotientBounds(x, unit);
    ScaleOfStep(m, w, a);
    CarryCases(x, Product(m, w), m, a);
  }

  /**
    The bound in plain arithmetic: the conversion never panics for decimals up to 18, fails only
    if the floor of price * quantity / 10^baseDecimals is zero, and otherwise returns that floor
    or one more; for at most 18 decimals in all, exactly the floor.
   */
  lemma {:induction false} ConversionBound(basePrice: nat, baseQuantity: nat, baseDecimals: nat, quoteDecimals: nat)
    requires baseDecimals <= MAX_DECIMALS && quoteDecimals <= MAX_DECIMALS
    ensures var floor := Floor(basePrice * baseQuantity, Pow10(baseDecimals));
            var r := BaseToQuoteQuantity(basePrice, baseQuantity, baseDecimals, quoteDecimals);
            match r
            case TooSmall => floor == 0
            case Converted(quantity) =>
              && 0 < quantity && floor <= quantity <= floor + 1
              && (baseDecimals + quoteDecimals <= MAX_DECIMALS ==> quantity == floor)
            case Panics => false
  {
    hide Product, Quotient, Pow10, Carries, BaseToQuoteQuantity;
    ProductIsTimes(basePrice, baseQuantity);
    QuotientIsFloor(basePrice * baseQuantity, Pow10(baseDecimals));
    if baseDecimals + quoteDecimals <= MAX_DECIMALS {
      ExactConversion(basePrice, baseQuantity, baseDecimals, quoteDecimals);
    } else {
      RoundedConversion(basePrice, baseQuantity, baseDecimals, quoteDecimals);
    }
    hide Floor;
  }

  /**
    Exactly when the conversion refuses an amount as too small. With at most 18 decimals in all
    that is below one quote unit; otherwise half a rounding step less, and a tie is refused only
    if a quote unit is a single (odd) step.
   */
  lemma {:induction false} TooSmallIff(basePrice: nat, baseQuantity: nat, baseDecimals: nat, quoteDecimals: nat)
    requires baseDecimals <= MAX_DECIMALS && quoteDecimals <= MAX_DECIMALS
    ensures var amount, unit := Product(basePrice, baseQuantity), Pow10(baseDecimals);
            BaseToQuoteQuantity(basePrice, baseQuantity, baseDecimals, quoteDecimals) == TooSmall <==>
            if baseDecimals + quoteDecimals <= MAX_DECIMALS then amount < unit
            else
              var step := Pow10(baseDecimals + quoteDecimals - MAX_DECIMALS);
              2 * amount + step < 2 * unit || (2 * amount + step == 2 * unit && Pow10(MAX_DECIMALS - quoteDecimals) % 2 == 1)
  {
    hide Product, Quotient, Pow10, BaseToQuoteQuantity, Carries;
    var amount, unit := Product(basePrice, baseQuantity), Pow10(baseDecimals);
    SmallerThanUnit(amount, unit);
    if baseDecimals + quoteDecimals <= MAX_DECIMALS {
      ExactConversion(basePrice, baseQuantity, baseDecimals, quoteDecimals);
    } else {
      RoundedConversion(basePrice, baseQuantity, baseDecimals, quoteDecimals);
      ProductOfConstant(unit, 0);
      var step := Pow10(baseDecimals + quoteDecimals - MAX_DECIMALS);
      CarriesFromZero(amount, step, Pow10(MAX_DECIMALS - quoteDecimals), unit);
    }
  }

  lemma {:induction false} CarriesFromZero(amount: nat, step: nat, steps: nat, unit: nat)
    requires unit == Product(step, steps)
    ensures Carries(0, amount, step, steps) <==>
            2 * amount + step > 2 * unit || (2 * amount + step == 2 * unit && steps % 2 == 0)
  {
    ProductCommutes(1, steps);
    ProductOfConstant(steps, 1);
    hide Product;
  }

  lemma {:induction false} ScaleOfStep(m: nat, w: nat, a: nat)
    requires m != 0 && Product(w, Product(a, m)) == ONE
    ensures Product(Product(m, w), a) == ONE
    ensures Product(m, w) != 0
  {
    ProductCommutes(a, m);
    ProductRegroups(m, w, a);
    ProductRegroups(w, m, a);
    assert Product(0, a) == 0;
  }

  /** Dividing the rounded product by m, given its comparison with every multiple of m. */
  lemma {:induction false} CarryCases(x: nat, s: nat, m: nat, a: nat)
    requires s != 0 && m != 0 && a != 0 && Product(s, a) == ONE && Product(a, m) != 0
    ensures var floor := Quotient(x, Product(a, m));
            var rest := x - Product(Product(a, m), floor);
            && rest >= 0
            && Quotient(Chop(Product(s, x)), m) == if Carries(floor, rest, a, m) then floor + 1 else floor
  {
    hide Product, Quotient, Chop;
    var unit := Product(a, m);
    var floor := Quotient(x, unit);
    var dec := Chop(Product(s, x));
    QuotientBounds(x, unit);
    ProductMono(a, 1, m);
    ProductOfConstant(a, 1);
    AtLeastSteps(x, s, m, a, floor, 0);
    AtLeastSteps(x, s, m, a, floor, 1);
    AtLeastSteps(x, s, m, a, floor, 2);
    NextStep(m, floor);
    NextStep(m, floor + 1);
    if dec >= Product(floor + 1, m) {
      QuotientUnique(dec, m, floor + 1);
    } else {
      QuotientUnique(dec, m, floor);
    }
  }

  lemma {:induction false} NextStep(m: nat, k: nat)
    ensures Product(k + 1, m) == Product(k, m) + m
    ensures Product(k, m) == Product(m, k)
    ensures Product(k + 1, m) == Product(m, k + 1)
  {
    ProductCommutes(k, m);
    ProductCommutes(k + 1, m);
  }

  /** When the rounded product reaches j units past the floor, j being a small constant. */
  lemma {:induction false} AtLeastSteps(x: nat, s: nat, m: nat, a: nat, floor: nat, j: nat)
    requires s != 0 && Product(s, a) == ONE
    ensures var n := Product(floor + j, m);
            var target := Product(Product(a, m), floor) + j * Product(a, m);
            Chop(Product(s, x)) >= n <==> 2 * x + a > 2 * target || (2 * x + a == 2 * target && n % 2 == 0)
  {
    hide Product, Chop;
    var unit := Product(a, m);
    RoundedProduct(x, s, a, Product(floor + j, m));
    StepsOf(a, m, floor + j);
    ProductSum(unit, floor, j);
    ProductOfConstant(unit, j);
  }

  lemma {:induction false} StepsOf(a: nat, m: nat, k: nat)
    ensures Product(a, Product(k, m)) == Product(Product(a, m), k)
    ensures Product(k, m) == Product(m, k)
  {
    ProductCommutes(k, m);
    ProductRegroups(a, m, k);
  }
}
