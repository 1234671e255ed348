/**
  Which price a book clears at, in terms of its raw orders alone.
 */
module ClearingPrices {
  import opened Dec
  import opened Seqs
  import opened Orders
  import opened Curves
  import opened CrossPoint
  import opened Clearance
  import opened Fills
  import opened Matcher
  import opened Clearings

  ghost predicate OrderPrice(asks: seq<Order>, bids: seq<Order>, p: nat) {
    p in Prices(asks) || p in Prices(bids)
  }

  /** An order price at which this supply meets this demand. */
  ghost predicate Trades(asks: seq<Order>, bids: seq<Order>, p: nat, supply: nat, demand: nat) {
    OrderPrice(asks, bids, p) && Volume(asks, Ask, p) == supply && Volume(bids, Bid, p) == demand
  }

  ghost predicate Spans(asks: seq<Order>, bids: seq<Order>, lo: nat, hi: nat, supply: nat, demand: nat) {
    && Trades(asks, bids, lo, supply, demand) && Trades(asks, bids, hi, supply, demand)
    && forall p: nat :: Trades(asks, bids, p, supply, demand) ==> lo <= p <= hi
  }

  /** The halved sum of the lowest and the highest order price with this supply and demand. */
  ghost predicate Midpoint(asks: seq<Order>, bids: seq<Order>, price: nat, supply: nat, demand: nat) {
    exists lo: nat, hi: nat :: Spans(asks, bids, lo, hi, supply, demand) && price == (lo + hi) / 2
  }

  ghost predicate SomeDemandHeavy(asks: seq<Order>, bids: seq<Order>) {
    exists p :: OrderPrice(asks, bids, p) && Volume(asks, Ask, p) < Volume(bids, Bid, p)
  }

  ghost predicate SomeSupplied(asks: seq<Order>, bids: seq<Order>) {
    exists p :: OrderPrice(asks, bids, p) && Volume(asks, Ask, p) >= Volume(bids, Bid, p)
  }

  ghost predicate HighestBid(bids: seq<Order>, price: nat) {
    price in Prices(bids) && forall p :: p in Prices(bids) ==> p <= price
  }

  ghost predicate LowestPrice(asks: seq<Order>, bids: seq<Order>, price: nat) {
    OrderPrice(asks, bids, price) && forall p :: OrderPrice(asks, bids, p) ==> price <= p
  }

  /**
    Where demand exceeds supply at low prices and a price with enough supply is chosen, that is
    the middle of the order prices with its volumes; where supply only suffices once demand is
    gone, the highest bid. Where supply is never short, the lowest price if it balances; and
    otherwise, the balance never changing, an order price with the volumes of the result.
   */
  ghost predicate PriceRule(asks: seq<Order>, bids: seq<Order>, price: nat, supply: nat, demand: nat) {
    if SomeDemandHeavy(asks, bids) && SomeSupplied(asks, bids) then
      if supply >= demand then Midpoint(asks, bids, price, supply, demand) else HighestBid(bids, price)
    else if supply == demand then LowestPrice(asks, bids, price)
    else Trades(asks, bids, price, supply, demand)
  }

  lemma {:induction false} PointTrades(asks: seq<Order>, bids: seq<Order>, c: seq<SDItem>, k: nat)
    requires CurveOf(c, asks, bids) && k < |c|
    ensures Trades(asks, bids, c[k].price, c[k].supply, c[k].demand)
  {
    assert c[k].price in ItemPrices(c);
  }

  /** The first point tells whether some price is demand-heavy, the last whether some is supplied. */
  lemma {:induction false} EndsDecide(asks: seq<Order>, bids: seq<Order>, c: seq<SDItem>)
    requires CurveOf(c, asks, bids) && |c| > 0
    ensures SomeDemandHeavy(asks, bids) <==> Balance(c[0]) == -1
    ensures SomeSupplied(asks, bids) <==> Balance(c[|c| - 1]) >= 0
  {
    hide CurveOf, Volume, Prices;
    PointTrades(asks, bids, c, 0);
    PointTrades(asks, bids, c, |c| - 1);
    if p :| OrderPrice(asks, bids, p) && Volume(asks, Ask, p) < Volume(bids, Bid, p) {
      var k := PointOf(asks, bids, c, p);
      PointVolumes(asks, bids, c, k);
      CurveMonotone(asks, bids, c, 0, k);
    }
    if p :| OrderPrice(asks, bids, p) && Volume(asks, Ask, p) >= Volume(bids, Bid, p) {
      var k := PointOf(asks, bids, c, p);
      PointVolumes(asks, bids, c, k);
      CurveMonotone(asks, bids, c, k, |c| - 1);
    }
  }

  lemma {:induction false} PointVolumes(asks: seq<Order>, bids: seq<Order>, c: seq<SDItem>, k: nat)
    requires CurveOf(c, asks, bids) && k < |c|
    ensures c[k].supply == Volume(asks, Ask, c[k].price) && c[k].demand == Volume(bids, Bid, c[k].price)
  {
  }

  /** The order prices with the volumes of a point of change run from it to the end of its corridor. */
  lemma {:induction false} CorridorSpans(asks: seq<Order>, bids: seq<Order>, c: seq<SDItem>, i: nat)
    requires CurveOf(c, asks, bids) && i < |c|
    requires forall k :: 0 <= k < i ==> Balance(c[k]) != Balance(c[i])
    ensures Spans(asks, bids, c[i].price, c[CorridorEnd(c, i, i)].price, c[i].supply, c[i].demand)
  {
    var e := CorridorEnd(c, i, i);
    PointTrades(asks, bids, c, i);
    PointTrades(asks, bids, c, e);
    forall p: nat | Trades(asks, bids, p, c[i].supply, c[i].demand) ensures c[i].price <= p <= c[e].price {
      var k := PointOf(asks, bids, c, p);
      PointVolumes(asks, bids, c, k);
      hide Volume, Prices;
      if k > e {
        CurveMonotone(asks, bids, c, i, e + 1);
        CurveMonotone(asks, bids, c, e + 1, k);
        CorridorStops(c, i, i);
      }
    }
  }

  lemma {:induction false} CorridorStops(c: seq<SDItem>, i: nat, j: nat)
    requires i <= j < |c| && c[j].supply == c[i].supply && c[j].demand == c[i].demand
    ensures var e := CorridorEnd(c, i, j);
            e + 1 < |c| ==> !(c[e + 1].supply == c[i].supply && c[e + 1].demand == c[i].demand)
    decreases |c| - j
  {
    if j + 1 < |c| && c[j + 1].supply == c[i].supply && c[j + 1].demand == c[i].demand {
      CorridorStops(c, i, j + 1);
    }
  }

  /** Where demand has run out at the next point, a point is the highest bid. */
  lemma {:induction false} LastDemand(asks: seq<Order>, bids: seq<Order>, c: seq<SDItem>, i: nat)
    requires Book(asks, bids, c) && 0 < i < |c| && c[i].demand == 0 && c[i - 1].demand > 0
    ensures HighestBid(bids, c[i - 1].price)
  {
    assert forall p :: p in Prices(bids) ==> p <= c[i - 1].price by {
      forall p | p in Prices(bids) ensures p <= c[i - 1].price {
        var k := PointOf(asks, bids, c, p);
        PointHasOrder(asks, bids, c, k);
        if k >= i { CurveMonotone(asks, bids, c, i, k); }
      }
    }
    DemandHasBid(bids, c[i - 1].price);
  }

  lemma {:induction false} DemandHasBid(bids: seq<Order>, p: nat)
    requires Volume(bids, Bid, p) > 0 && forall q :: q in Prices(bids) ==> q <= p
    ensures p in Prices(bids)
  {
    if forall k :: 0 <= k < |bids| ==> !Eligible(bids[k], Bid, p) {
      VolumeZero(bids, Bid, p);
    } else {
      var k :| 0 <= k < |bids| && Eligible(bids[k], Bid, p);
      assert bids[k].price in Prices(bids);
    }
  }

  lemma {:induction false} FirstIsLowest(asks: seq<Order>, bids: seq<Order>, c: seq<SDItem>)
    requires CurveOf(c, asks, bids) && |c| > 0
    ensures LowestPrice(asks, bids, c[0].price)
  {
    PointTrades(asks, bids, c, 0);
    forall p | OrderPrice(asks, bids, p) ensures c[0].price <= p {
      var k := PointOf(asks, bids, c, p);
    }
  }

  /** The search follows the rule on every trading book. */
  lemma {:induction false} CrossPointPrice(asks: seq<Order>, bids: seq<Order>, c: seq<SDItem>, r: SDItem)
    requires Book(asks, bids, c) && |c| > 0 && IsCrossPoint(c, r)
    ensures PriceRule(asks, bids, r.price, r.supply, r.demand)
  {
    hide Volume, Prices, Book, CurveOf, SomeDemandHeavy, SomeSupplied, HighestBid, LowestPrice, LeastGap, Trades;
    BookHasCurve(asks, bids, c);
    EndsDecide(asks, bids, c);
    var i := FirstChange(c, 1);
    if HasVolumes(c[0]) && Balance(c[0]) == 0 {
      FirstIsLowest(asks, bids, c);
    } else if i < |c| {
      AtChange(asks, bids, c);
      CurveMonotone(asks, bids, c, i, |c| - 1);
      if HasVolumes(c[i]) {
        CorridorSpans(asks, bids, c, i);
      } else {
        LastDemand(asks, bids, c, i);
      }
    } else {
      NoChange(asks, bids, c, r);
      StartsUnbalanced(asks, bids, c);
      SameBalance(c, |c| - 1);
      var k :| 0 <= k < |c| && c[k] == r;
      SameBalance(c, k);
      PointTrades(asks, bids, c, k);
    }
  }

  /** So does every clearing, with the supply and demand of the raw orders at its price. */
  lemma {:induction false} ClearingPrice(r: MatcherResult, bids: seq<Order>, asks: seq<Order>)
    requires Clears(r, bids, asks)
    ensures PriceRule(asks, bids, r.state.price, Volume(asks, Ask, r.state.price), Volume(bids, Bid, r.state.price))
  {
    hide Volume, Book, IsCrossPoint, PriceRule, Sorted, Run;
    var sb, sa, c, point :| ClearsAt(r, bids, asks, sb, sa, c, point);
    CrossPointPrice(asks, bids, c, point);
  }

  /** What else a result records: the sizes of both sides, what each may clear and what it did clear. */
  lemma {:induction false} ClearingVolumes(r: MatcherResult, bids: seq<Order>, asks: seq<Order>)
    requires Clears(r, bids, asks)
    ensures r.bidOrdersCount == |bids| && r.askOrdersCount == |asks|
    ensures var supply, demand := Volume(asks, Ask, r.state.price), Volume(bids, Bid, r.state.price);
            && demand != 0 && ProRata(supply, demand) != 0
            && TruncateInt(r.state.maxBidVolume) == MaxBid(supply, demand)
            && TruncateInt(r.state.maxAskVolume) == MaxAsk(supply, demand)
            && TruncateInt(r.matchedBidVolume) == ClearedBid(supply, demand)
            && TruncateInt(r.matchedAskVolume) == ClearedAsk(supply, demand)
  {
    hide Run, IsCrossPoint, Book, Sorted, Volume, Reversed, ProRata, ProRataInvert, MaxBid, MaxAsk, ClearedBid, ClearedAsk,
         Positive, Total;
    var sb, sa, c, point :| ClearsAt(r, bids, asks, sb, sa, c, point);
    PositiveBook(bids, asks, c);
    PositivePermutation(bids, sb);
    PositivePermutation(asks, sa);
    VolumePermutation(bids, sb, Bid, point.price);
    VolumePermutation(asks, sa, Ask, point.price);
    MatchTotals(r, r.market, sb, sa, point);
    PermutationLength(sb, bids);
    PermutationLength(sa, asks);
    TruncateExact(MaxBid(point.supply, point.demand));
    TruncateExact(MaxAsk(point.supply, point.demand));
    TruncateExact(ClearedBid(point.supply, point.demand));
    TruncateExact(ClearedAsk(point.supply, point.demand));
  }

  lemma {:induction false} PositiveBook(bids: seq<Order>, asks: seq<Order>, c: seq<SDItem>)
    requires Book(asks, bids, c)
    ensures Positive(bids) && Positive(asks)
  {
  }

  const CORRIDOR_ASKS := [Order(0, 0, 0, Ask, 5, 10, 0)]
  const CORRIDOR_BIDS := [Order(1, 0, 0, Bid, 7, 10, 0), Order(2, 0, 0, Bid, 4, 5, 0)]
  const CORRIDOR_CURVE := [SDItem(4, 0, 15), SDItem(5, 10, 10), SDItem(7, 10, 10)]

  /** Ten units asked at 5, ten bid at 7 and five at 4 clear at 6, which is no order's price. */
  lemma {:induction false} CorridorExample(r: SDItem)
    requires IsCrossPoint(CORRIDOR_CURVE, r)
    ensures Book(CORRIDOR_ASKS, CORRIDOR_BIDS, CORRIDOR_CURVE)
    ensures r == SDItem(6, 10, 10)
  {
    var asks, bids, c := CORRIDOR_ASKS, CORRIDOR_BIDS, CORRIDOR_CURVE;
    assert asks[1..] == [] && bids[1..] == [bids[1]] && [bids[1]][1..] == [];
    assert asks[0].price == 5 && bids[0].price == 7 && bids[1].price == 4;
    assert c[0].price == 4 && c[1].price == 5 && c[2].price == 7;
    assert Prices(asks) == {5} && Prices(bids) == {4, 7} && ItemPrices(c) == {4, 5, 7};
    assert asks[0].price <= bids[0].price;
    assert FirstChange(c, 1) == 1;
    assert CorridorEnd(c, 1, 1) == CorridorEnd(c, 1, 2) == 2;
  }
}
