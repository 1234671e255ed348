/**
  The pro-rata arithmetic of a clearance state: the ratio supply / demand in 18-digit
  decimals, its inverse, and the volume each side may clear.

  The source computes all four with roundings.  This module bounds what those roundings
  can do, and states exactly when they do nothing.
 */
module Clearance {
  import opened Dec
  import opened Division

  datatype ClearanceState = ClearanceState(
    price: nat,
    proRata: nat,        // decimal
    proRataInvert: nat,  // decimal
    maxBidVolume: nat,   // decimal
    maxAskVolume: nat)   // decimal

  function ProRata(supply: nat, demand: nat): nat
    requires demand != 0
  {
    Quo(FromInt(supply), FromInt(demand))
  }

  function ProRataInvert(proRata: nat): nat
    requires proRata != 0
  {
    Quo(ONE, proRata)
  }

  /** The volume (an integer) the bids may clear. */
  function MaxBid(supply: nat, demand: nat): nat
    requires demand != 0
  {
    RoundInt(Mul(FromInt(demand), ProRata(supply, demand)))
  }

  /** The volume (an integer) the asks may clear. */
  function MaxAsk(supply: nat, demand: nat): nat
    requires demand != 0 && ProRata(supply, demand) != 0
  {
    RoundInt(Mul(FromInt(supply), ProRataInvert(ProRata(supply, demand))))
  }

  /** The state of a crossing point with the given supply and demand. */
  ghost predicate IsStateOf(state: ClearanceState, price: nat, supply: nat, demand: nat) {
    && demand != 0
    && state.price == price
    && state.proRata == ProRata(supply, demand) != 0
    && state.proRataInvert == ProRataInvert(state.proRata)
    && state.maxBidVolume == FromInt(MaxBid(supply, demand))
    && state.maxAskVolume == FromInt(MaxAsk(supply, demand))
  }

  // ---- the ratio and its inverse ----

  /** A quotient is off by half a unit in the last place, and by the 36-digit truncation. */
  lemma {:induction false} QuoBounds(x: nat, y: nat)
    requires y != 0
    ensures 2 * ONE * Product(y, Quo(x, y)) <= 2 * (x * ONE * ONE) + ONE * y
    ensures 2 * (x * ONE * ONE) < 2 * ONE * Product(y, Quo(x, y)) + ONE * y + 2 * y
  {
    var f := Quotient(x * ONE * ONE, y);
    var q := Quo(x, y);
    QuotientBounds(x * ONE * ONE, y);
    ChopBound(f);
    RoundedQuotient(x * ONE * ONE, y, f, q);
  }

  /** A rounded value q of the truncated quotient f of x by y. */
  lemma {:induction false} RoundedQuotient(x: nat, y: nat, f: nat, q: nat)
    requires Product(y, f) <= x < Product(y, f) + y
    requires ONE * q <= f + HALF && f <= ONE * q + HALF
    ensures 2 * ONE * Product(y, q) <= 2 * x + ONE * y
    ensures 2 * x < 2 * ONE * Product(y, q) + ONE * y + 2 * y
  {
    hide Product;
    ProductMono(y, ONE * q, f + HALF);
    ProductMono(y, f, ONE * q + HALF);
    ProductSum(y, f, HALF);
    ProductSum(y, ONE * q, HALF);
    ProductOfScaled(y, ONE, q);
    ProductOfConstant(y, HALF);
  }

  lemma {:induction false} RatioBounds(supply: nat, demand: nat)
    requires demand != 0
    ensures var product := Product(demand, ProRata(supply, demand));
            && 2 * product <= 2 * (supply * ONE) + demand
            && 2 * (supply * ONE * ONE) < 2 * ONE * product + ONE * demand + 2 * demand
  {
    QuoBounds(FromInt(supply), FromInt(demand));
    ScaledProduct(ONE, demand, ProRata(supply, demand));
  }

  /** The inverse of a zero ratio is a division by zero: exactly when this happens. */
  lemma {:induction false} RatioIsZero(supply: nat, demand: nat)
    requires demand != 0
    ensures ProRata(supply, demand) == 0 <==> 2 * (supply * ONE * ONE) < (ONE + 2) * demand
  {
    var f := Quotient(FromInt(supply) * ONE * ONE, FromInt(demand));
    QuotientBounds(FromInt(supply) * ONE * ONE, FromInt(demand));
    ScaledProduct(ONE, demand, f);
    assert Product(demand, f) <= supply * ONE * ONE < Product(demand, f) + demand;
    assert Chop(f) == 0 <==> f <= HALF;
    ProductOfConstant(demand, HALF);
    ProductOfConstant(demand, HALF + 1);
    hide Product, Quotient;
    if f <= HALF {
      ProductMono(demand, f, HALF);
    } else {
      ProductMono(demand, HALF + 1, f);
    }
  }

  /** Rounding never moves a quotient across one. */
  lemma {:induction false} QuoSide(x: nat, y: nat)
    requires y != 0
    ensures x <= y ==> Quo(x, y) <= ONE
    ensures x >= y ==> Quo(x, y) >= ONE
  {
    var f := Quotient(x * ONE * ONE, y);
    QuotientBounds(x * ONE * ONE, y);
    ProductOfConstant(y, ONE * ONE);
    ChopExact(ONE);
    hide Product, Quotient;
    if x <= y {
      ProductCancels(y, f, ONE * ONE);
      ChopMonotone(f, ONE * ONE);
    }
    if f < ONE * ONE {
      ProductMono(y, f + 1, ONE * ONE);
      ProductSum(y, f, 1);
      ProductOfConstant(y, 1);
    } else {
      ChopMonotone(ONE * ONE, f);
    }
  }

  lemma {:induction false} MaxVolumes(supply: nat, demand: nat)
    requires demand != 0
    ensures var r := ProRata(supply, demand);
            && MaxBid(supply, demand) == Chop(Product(demand, r))
            && (r != 0 ==> MaxAsk(supply, demand) == Chop(Product(supply, ProRataInvert(r))))
  {
    var r := ProRata(supply, demand);
    MulInt(demand, r);
    if r != 0 { MulInt(supply, ProRataInvert(r)); }
  }

  // ---- the two maximum volumes ----

  /** The bids may clear the supply, up to the rounding of the ratio. */
  lemma {:induction false} MaxBidNearSupply(supply: nat, demand: nat)
    requires demand != 0
    ensures 2 * ONE * ONE * MaxBid(supply, demand) <= 2 * ONE * ONE * supply + ONE * ONE + (ONE + 2) * demand
    ensures 2 * ONE * ONE * supply <= 2 * ONE * ONE * MaxBid(supply, demand) + ONE * ONE + (ONE + 2) * demand
  {
    hide ProRata, MaxBid, Chop;
    MaxVolumes(supply, demand);
    RatioBounds(supply, demand);
    ChopBound(Product(demand, ProRata(supply, demand)));
  }

  /** The bounds on the inverse, scaled by the supply. */
  lemma {:induction false} InvertScaled(r: nat, supply: nat)
    requires r != 0
    ensures var volumeR := Product(r, Product(supply, ProRataInvert(r)));
            var supplyR := Product(r, supply);
            && 2 * ONE * volumeR <= 2 * (ONE * ONE * ONE) * supply + ONE * supplyR
            && 2 * (ONE * ONE * ONE) * supply <= 2 * ONE * volumeR + ONE * supplyR + 2 * supplyR
  {
    var p := Product(r, ProRataInvert(r));
    QuoBounds(ONE, r);
    ScaleBounds(p, r, supply);
    ProductRegroups(supply, r, ProRataInvert(r));
    ProductCommutes(supply, r);
  }

  lemma {:induction false} ScaleBounds(p: nat, r: nat, supply: nat)
    requires 2 * ONE * p <= 2 * (ONE * ONE * ONE) + ONE * r
    requires 2 * (ONE * ONE * ONE) < 2 * ONE * p + (ONE + 2) * r
    ensures 2 * ONE * Product(supply, p) <= 2 * (ONE * ONE * ONE) * supply + ONE * Product(supply, r)
    ensures 2 * (ONE * ONE * ONE) * supply <= 2 * ONE * Product(supply, p) + (ONE + 2) * Product(supply, r)
  {
    hide Product;
    ProductMono(supply, 2 * ONE * p, 2 * (ONE * ONE * ONE) + ONE * r);
    ProductMono(supply, 2 * (ONE * ONE * ONE), 2 * ONE * p + (ONE + 2) * r);
    ProductSum(supply, 2 * (ONE * ONE * ONE), ONE * r);
    ProductSum(supply, 2 * ONE * p, (ONE + 2) * r);
    ProductOfScaled(supply, 2 * ONE, p);
    ProductOfConstant(supply, 2 * (ONE * ONE * ONE));
    ProductOfScaled(supply, ONE, r);
    ProductOfScaled(supply, ONE + 2, r);
  }

  /** With the asks pro-rated, supply times the inverse ratio stays near the demand. */
  lemma {:induction false} InvertedSupply(supply: nat, demand: nat)
    requires demand != 0 && ProRata(supply, demand) > ONE
    ensures var v := Product(supply, ProRataInvert(ProRata(supply, demand)));
            && 2 * ONE * v <= 2 * ONE * ONE * demand + (ONE + 2) * (supply + demand)
            && 2 * ONE * ONE * demand <= 2 * ONE * v + (ONE + 2) * (supply + demand)
  {
    hide Product, ProRata, ProRataInvert;
    var r := ProRata(supply, demand);
    var v := Product(supply, ProRataInvert(r));
    RatioBounds(supply, demand);
    InvertScaled(r, supply);
    ProductMono(demand, ONE, r);
    ProductOfConstant(demand, ONE);
    ProductCommutes(demand, r);
    InvertedChain(supply, demand, Product(r, v), Product(r, supply), Product(r, demand));
    TimesRatio(r, v, demand, supply);
    ProductCancels(r, 2 * ONE * v, 2 * ONE * ONE * demand + (ONE + 2) * (supply + demand));
    ProductCancels(r, 2 * ONE * ONE * demand, 2 * ONE * v + (ONE + 2) * (supply + demand));
  }

  /** Both bounds of InvertedSupply, multiplied by the ratio. */
  lemma {:induction false} TimesRatio(r: nat, v: nat, demand: nat, supply: nat)
    ensures Product(r, 2 * ONE * v) == 2 * ONE * Product(r, v)
    ensures Product(r, 2 * ONE * ONE * demand) == 2 * ONE * ONE * Product(r, demand)
    ensures Product(r, 2 * ONE * ONE * demand + (ONE + 2) * (supply + demand))
            == 2 * ONE * ONE * Product(r, demand) + (ONE + 2) * Product(r, supply) + (ONE + 2) * Product(r, demand)
    ensures Product(r, 2 * ONE * v + (ONE + 2) * (supply + demand))
            == 2 * ONE * Product(r, v) + (ONE + 2) * Product(r, supply) + (ONE + 2) * Product(r, demand)
  {
    hide Product;
    ProductSum(r, 2 * ONE * ONE * demand, (ONE + 2) * (supply + demand));
    ProductSum(r, 2 * ONE * v, (ONE + 2) * (supply + demand));
    ProductSum(r, supply, demand);
    ProductOfScaled(r, 2 * ONE * ONE, demand);
    ProductOfScaled(r, 2 * ONE, v);
    ProductOfScaled(r, ONE + 2, supply + demand);
  }

  /** The chain of bounds behind InvertedSupply, with every product named. */
  lemma {:induction false} InvertedChain(supply: nat, demand: nat, volumeR: nat, supplyR: nat, demandR: nat)
    requires 2 * ONE * volumeR <= 2 * (ONE * ONE * ONE) * supply + ONE * supplyR
    requires 2 * (ONE * ONE * ONE) * supply <= 2 * ONE * volumeR + ONE * supplyR + 2 * supplyR
    requires 2 * demandR <= 2 * (supply * ONE) + demand
    requires 2 * (supply * ONE * ONE) < 2 * ONE * demandR + ONE * demand + 2 * demand
    requires ONE * demand <= demandR
    ensures 2 * ONE * volumeR <= 2 * ONE * ONE * demandR + (ONE + 2) * supplyR + (ONE + 2) * demandR
    ensures 2 * ONE * ONE * demandR <= 2 * ONE * volumeR + (ONE + 2) * supplyR + (ONE + 2) * demandR
  {
  }

  /** The asks may clear the demand, up to the rounding of the ratio and its inverse. */
  lemma {:induction false} MaxAskNearDemand(supply: nat, demand: nat)
    requires demand != 0 && ProRata(supply, demand) > ONE
    ensures 2 * ONE * ONE * MaxAsk(supply, demand) <= 2 * ONE * ONE * demand + ONE * ONE + (ONE + 2) * (supply + demand)
    ensures 2 * ONE * ONE * demand <= 2 * ONE * ONE * MaxAsk(supply, demand) + ONE * ONE + (ONE + 2) * (supply + demand)
  {
    hide ProRata, ProRataInvert, MaxAsk, Chop;
    MaxVolumes(supply, demand);
    InvertedSupply(supply, demand);
    ChopBound(Product(supply, ProRataInvert(ProRata(supply, demand))));
  }

  // ---- both sides together ----

  /** What the bids clear: pro-rated when supply does not exceed demand, everything otherwise. */
  function ClearedBid(supply: nat, demand: nat): nat
    requires demand != 0
  {
    if ProRata(supply, demand) > ONE then demand else MaxBid(supply, demand)
  }

  function ClearedAsk(supply: nat, demand: nat): nat
    requires demand != 0 && ProRata(supply, demand) != 0
  {
    if ProRata(supply, demand) > ONE then MaxAsk(supply, demand) else supply
  }

  ghost function Diff(a: nat, b: nat): nat {
    if a <= b then b - a else a - b
  }

  lemma {:induction false} SmallGap(a: nat, b: nat, total: nat)
    requires 2 * ONE * ONE * a <= 2 * ONE * ONE * b + ONE * ONE + (ONE + 2) * total
    requires 2 * ONE * ONE * b <= 2 * ONE * ONE * a + ONE * ONE + (ONE + 2) * total
    ensures Diff(a, b) <= 1 + total / ONE
    ensures total <= ONE - 2 ==> a == b
  {
  }

  /** The non-pro-rated side's maximum never cuts it short. */
  lemma {:induction false} UncappedSide(supply: nat, demand: nat)
    requires demand != 0 && ProRata(supply, demand) != 0
    ensures ProRata(supply, demand) > ONE ==> MaxBid(supply, demand) >= demand
    ensures ProRata(supply, demand) <= ONE ==> MaxAsk(supply, demand) >= supply
  {
    var r := ProRata(supply, demand);
    MaxVolumes(supply, demand);
    QuoSide(ONE, r);
    if r > ONE {
      ProductMono(demand, ONE, r);
      ProductOfConstant(demand, ONE);
      ChopMonotone(demand * ONE, Product(demand, r));
      ChopExact(demand);
    } else {
      ProductMono(supply, ONE, ProRataInvert(r));
      ProductOfConstant(supply, ONE);
      ChopMonotone(supply * ONE, Product(supply, ProRataInvert(r)));
      ChopExact(supply);
    }
  }

  /** The two cleared volumes differ by rounding only. */
  lemma {:induction false} ClearedGap(supply: nat, demand: nat)
    requires demand != 0 && ProRata(supply, demand) != 0
    ensures var gap := Diff(ClearedBid(supply, demand), ClearedAsk(supply, demand));
            && gap <= 1 + (supply + demand) / ONE
            && (supply + demand <= ONE - 2 ==> gap == 0)
  {
    hide ProRata, MaxAsk, MaxBid;
    if ProRata(supply, demand) > ONE {
      MaxAskNearDemand(supply, demand);
      SmallGap(MaxAsk(supply, demand), demand, supply + demand);
    } else {
      MaxBidNearSupply(supply, demand);
      SmallGap(MaxBid(supply, demand), supply, supply + demand);
    }
  }

  /** Below 10^18 - 1 units in all, rounding is invisible: both sides clear the smaller volume. */
  lemma {:induction false} ClearedEqual(supply: nat, demand: nat)
    requires supply != 0 && demand != 0
    requires supply + demand <= ONE - 2
    ensures ProRata(supply, demand) != 0
    ensures ClearedBid(supply, demand) == ClearedAsk(supply, demand) == if supply <= demand then supply else demand
  {
    RatioIsZero(supply, demand);
    ClearedGap(supply, demand);
    if ProRata(supply, demand) > ONE {
      QuoSide(FromInt(supply), FromInt(demand));
    } else {
      SmallSupply(supply, demand);
    }
  }

  lemma {:induction false} SmallSupply(supply: nat, demand: nat)
    requires demand != 0 && supply + demand <= ONE - 2
    requires ProRata(supply, demand) <= ONE
    ensures supply <= demand
  {
    hide Product, ProRata;
    RatioBounds(supply, demand);
    ProductMono(demand, ProRata(supply, demand), ONE);
    ProductOfConstant(demand, ONE);
  }

  // ---- exactly when both sides clear the same volume ----

  /** Whether x / y rounds up at 18 digits: the remainder passes half by the 36th digit, or reaches half after an odd digit. */
  predicate RoundsUp(x: nat, y: nat)
    requires y != 0
  {
    var q, m := Floor(x * ONE, y), Rest(x * ONE, y);
    ONE * m >= (HALF + 1) * y || (ONE * m >= HALF * y && q % 2 == 1)
  }

  /** x / y in 18 digits. */
  function Nearest(x: nat, y: nat): nat
    requires y != 0
  {
    Floor(x * ONE, y) + if RoundsUp(x, y) then 1 else 0
  }

  /** By how much y times the rounded quotient exceeds x, read off the remainder. */
  function Excess(x: nat, y: nat): int
    requires y != 0
  {
    var m: int := Rest(x * ONE, y);
    if RoundsUp(x, y) then y - m else -m
  }

  /** An error that rounding to n swallows: below one half, or exactly one half of an even n. */
  predicate Swallowed(error: int, half: int, n: nat) {
    -half < error < half || ((error == half || error == -half) && n % 2 == 0)
  }

  /** The test on supply and demand: what one rounded division (or two) leaves over disappears in the final rounding. */
  predicate SameVolume(supply: nat, demand: nat)
    requires demand != 0
  {
    var ratio, left := Nearest(supply, demand), Excess(supply, demand);
    if ratio <= ONE then Swallowed(left, HALF, supply)
    else Swallowed(supply * Excess(ONE, ratio) - ONE * left, HALF * ratio, demand)
  }

  /** Comparing an integer quotient with k compares the dividend with k divisors. */
  lemma {:induction false} QuotientAtLeast(x: nat, y: nat, q: nat, k: nat)
    requires Product(y, q) <= x < Product(y, q) + y
    ensures q >= k <==> x >= Product(y, k)
  {
    hide Product;
    if q >= k {
      ProductMono(y, k, q);
    } else {
      ProductMono(y, q + 1, k);
      ProductSum(y, q, 1);
      ProductOfConstant(y, 1);
    }
  }

  /** The 36-digit quotient: 18 digits of quotient, then 18 digits of the remainder. */
  lemma {:induction false} QuotientDigits(x: nat, y: nat, q: nat, m: nat) returns (g: nat)
    requires y != 0 && m < y && x * ONE == Product(y, q) + m
    ensures g < ONE && Quotient(x * ONE * ONE, y) == ONE * q + g
    ensures Product(y, g) <= ONE * m < Product(y, g) + y
  {
    g := Quotient(ONE * m, y);
    QuotientBounds(ONE * m, y);
    hide Product, Quotient;
    ProductOfConstant(y, ONE);
    QuotientAtLeast(ONE * m, y, g, ONE);
    ProductSum(y, ONE * q, g);
    ProductOfScaled(y, ONE, q);
    QuotientUnique(x * ONE * ONE, y, ONE * q + g);
  }

  /** The truncated, then rounded, quotient is decided by one remainder. */
  lemma {:induction false} QuoIsNearest(x: nat, y: nat)
    requires y != 0
    ensures Quo(x, y) == Nearest(x, y)
    ensures Product(y, Nearest(x, y)) == x * ONE + Excess(x, y)
  {
    var q, m := Floor(x * ONE, y), Rest(x * ONE, y);
    DivisionWithRest(x * ONE, y);
    hide Floor, Rest;
    RoundedDigits(x, y, q, m);
    ProductSum(y, q, 1);
    ProductOfConstant(y, 1);
    hide Product, Quo;
  }

  lemma {:induction false} RoundedDigits(x: nat, y: nat, q: nat, m: nat)
    requires y != 0 && m < y && x * ONE == Product(y, q) + m
    ensures Quo(x, y) == if ONE * m >= (HALF + 1) * y || (ONE * m >= HALF * y && q % 2 == 1) then q + 1 else q
  {
    var g := QuotientDigits(x, y, q, m);
    hide Product, Quotient;
    QuotientAtLeast(ONE * m, y, g, HALF);
    QuotientAtLeast(ONE * m, y, g, HALF + 1);
    ProductOfConstant(y, HALF);
    ProductOfConstant(y, HALF + 1);
    ChopDigits(q, g);
  }

  lemma {:induction false} ChopDigits(q: nat, g: nat)
    requires g < ONE
    ensures Chop(ONE * q + g) == if g >= HALF + 1 || (g >= HALF && q % 2 == 1) then q + 1 else q
  {
  }

  lemma {:induction false} RatioIsNearest(supply: nat, demand: nat)
    requires demand != 0
    ensures ProRata(supply, demand) == Nearest(supply, demand)
  {
    ProductOfConstant(ONE, supply * ONE * ONE);
    ProductOfConstant(ONE, demand);
    QuotientScaled(supply * ONE * ONE, demand, ONE);
    QuoIsNearest(supply, demand);
    hide Product, Quotient, Nearest;
  }

  /** Exactly when the two sides clear the same volume, whatever the size, as a test on supply and demand. */
  lemma {:induction false} ClearedEqualIff(supply: nat, demand: nat)
    requires demand != 0 && ProRata(supply, demand) != 0
    ensures ClearedBid(supply, demand) == ClearedAsk(supply, demand) <==> SameVolume(supply, demand)
  {
    hide Product, ProRata, ProRataInvert, MaxBid, MaxAsk, Nearest, Excess;
    var r := Nearest(supply, demand);
    RatioIsNearest(supply, demand);
    MaxVolumes(supply, demand);
    if r <= ONE {
      QuoIsNearest(supply, demand);
      ChopSwallows(Product(demand, r), supply);
    } else {
      var volume := Product(supply, ProRataInvert(r));
      ChopSwallows(volume, demand);
      InverseError(supply, demand);
      SwallowedScaled(volume - ONE * demand, r, demand);
    }
  }

  lemma {:induction false} ChopSwallows(x: nat, n: nat)
    ensures Chop(x) == n <==> Swallowed(x - ONE * n, HALF, n)
  {
    ChopNearest(x, n);
  }

  lemma {:induction false} SwallowedScaled(error: int, r: nat, n: nat)
    requires r > 0
    ensures Swallowed(error * r, HALF * r, n) <==> Swallowed(error, HALF, n)
  {
    var half: int := HALF;
    ScaledCompare(error, half, r);
    ScaledCompare(-half, error, r);
    ScaledCompare(half, error, r);
    ScaledCompare(error, -half, r);
    assert -half * r == -(half * r);
  }

  lemma {:induction false} ScaledCompare(a: int, b: int, r: nat)
    requires r > 0
    ensures a * r < b * r <==> a < b
  {
  }

  /** What both roundings leave over, multiplied by the ratio. */
  lemma {:induction false} InverseError(supply: nat, demand: nat)
    requires demand != 0 && Nearest(supply, demand) > ONE
    ensures var r := Nearest(supply, demand);
            (Product(supply, ProRataInvert(r)) - ONE * demand) * r
            == supply * Excess(ONE, r) - ONE * Excess(supply, demand)
  {
    var r := Nearest(supply, demand);
    var v := ProRataInvert(r);
    QuoIsNearest(supply, demand);
    QuoIsNearest(ONE, r);
    hide Nearest, Excess;
    ProductIsTimes(demand, r);
    ProductIsTimes(r, v);
    ProductIsTimes(supply, v);
    hide Product, ProRataInvert;
    ExpandError(supply, demand, r, v, Excess(ONE, r), Excess(supply, demand));
  }

  lemma {:induction false} ExpandError(s: nat, d: nat, r: nat, v: nat, e': int, e: int)
    requires d * r == s * ONE + e && r * v == ONE * ONE + e'
    ensures (s * v - ONE * d) * r == s * e' - ONE * e
  {
    calc {
      (s * v - ONE * d) * r;
      s * v * r - ONE * d * r;
      { assert s * v * r == s * (r * v); assert ONE * d * r == ONE * (d * r); }
      s * (r * v) - ONE * (d * r);
      s * (ONE * ONE + e') - ONE * (s * ONE + e);
      s * e' - ONE * e;
    }
  }

  /** The size limit cannot be dropped: one unit of supply against 1.5 * 10^18 of demand. */
  lemma {:induction false} ClearedUnequalExample(supply: nat, demand: nat)
    requires supply == 1 && demand == ONE + HALF
    ensures ProRata(supply, demand) != 0
    ensures ClearedAsk(supply, demand) == 1
    ensures ClearedBid(supply, demand) == 2
  {
    var r := ProRata(supply, demand);
    RatioIsZero(supply, demand);
    RatioBounds(supply, demand);
    ProductIsTimes(demand, r);
    assert r == 1;
    MaxVolumes(supply, demand);
  }

  /** Nor can it be moved up by much: fewer than two billion units above 10^18, the bids clear one unit too many. */
  lemma {:induction false} ClearedUnequalNearLimit(supply: nat, demand: nat)
    requires supply == 1_220_703_125 && demand == ONE + 409_600_000
    ensures supply + demand < ONE + 2_000_000_000
    ensures ProRata(supply, demand) != 0
    ensures ClearedAsk(supply, demand) == supply
    ensures ClearedBid(supply, demand) == supply + 1
  {
    var r := ProRata(supply, demand);
    RatioBounds(supply, demand);
    ProductIsTimes(demand, r);
    assert r == supply;
    MaxVolumes(supply, demand);
  }
}
