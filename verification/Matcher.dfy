/**
  The matcher of one market: it collects orders, builds the curve, finds the clearance
  state and fills the orders.
 */
module Matcher {
  import opened Dec
  import opened Seqs
  import opened Orders
  import opened Aggregates
  import opened Curves
  import opened Clearance
  import opened CrossPoint
  import opened Fills

  /** The largest Go int, the length at which a side refuses further orders. */
  const MAX_INT: nat := 0x7fff_ffff_ffff_ffff

  datatype AddResult = Added | WrongMarket | ZeroPrice | ZeroQuantity | TooManyOrders

  datatype MatcherResult = MatcherResult(
    market: nat,
    state: ClearanceState,
    bidOrdersCount: nat,
    askOrdersCount: nat,
    matchedBidVolume: nat,  // decimal
    matchedAskVolume: nat,  // decimal
    orderFills: seq<OrderFill>)

  datatype MatchOutcome =
    | Matched(result: MatcherResult)
    | NoMatch    // a side is empty, or the highest bid is below the lowest ask
    | Internal   // the caller panics on these
    | Panicked   // division by a ratio that rounded to zero

  // ---- from orders to aggregates and back ----

  lemma {:induction false} PositiveOrdersAggs(aggs: seq<Aggregate>, orders: seq<Order>, dir: Direction)
    requires AggregatesOf(aggs, orders, dir) && Positive(orders)
    ensures PositiveAggs(aggs)
  {
    forall k | 0 <= k < |aggs| ensures aggs[k].quantity > 0 {
      assert aggs[k].price in Prices(orders);
      var i :| 0 <= i < |orders| && orders[i].price == aggs[k].price;
      VolumeAtLeast(orders, dir, aggs[k].price, i);
    }
  }

  /** The guard on the outermost aggregates is the existence of a bid at or above an ask. */
  lemma {:induction false} CrossingGuard(askAggs: seq<Aggregate>, bidAggs: seq<Aggregate>, asks: seq<Order>, bids: seq<Order>)
    requires AggregatesOf(askAggs, asks, Ask) && AggregatesOf(bidAggs, bids, Bid)
    requires |askAggs| > 0 && |bidAggs| > 0
    ensures askAggs[0].price <= bidAggs[|bidAggs| - 1].price <==> Crosses(asks, bids)
  {
    var low, high := askAggs[0].price, bidAggs[|bidAggs| - 1].price;
    if Crosses(asks, bids) {
      var i, j :| 0 <= i < |asks| && 0 <= j < |bids| && asks[i].price <= bids[j].price;
      assert asks[i].price in AggPrices(askAggs) && bids[j].price in AggPrices(bidAggs);
    }
    if low <= high {
      assert low in Prices(asks) && high in Prices(bids);
      var i :| 0 <= i < |asks| && asks[i].price == low;
      var j :| 0 <= j < |bids| && bids[j].price == high;
    }
  }

  // ---- nothing depends on the order in which orders were added ----

  lemma {:induction false} PricesPermutation(a: seq<Order>, b: seq<Order>)
    requires multiset(a) == multiset(b)
    ensures Prices(a) == Prices(b)
  {
    forall p ensures p in Prices(a) <==> p in Prices(b) {
      if p in Prices(a) {
        var i :| 0 <= i < |a| && a[i].price == p;
        var j := PermutationMember(a, b, i);
      }
      if p in Prices(b) {
        var i :| 0 <= i < |b| && b[i].price == p;
        var j := PermutationMember(b, a, i);
      }
    }
  }

  lemma {:induction false} CrossesPermutation(asks: seq<Order>, bids: seq<Order>, asks': seq<Order>, bids': seq<Order>)
    requires multiset(asks) == multiset(asks') && multiset(bids) == multiset(bids')
    requires Crosses(asks, bids)
    ensures Crosses(asks', bids')
  {
    var i, j :| 0 <= i < |asks| && 0 <= j < |bids| && asks[i].price <= bids[j].price;
    var i' := PermutationMember(asks, asks', i);
    var j' := PermutationMember(bids, bids', j);
  }

  lemma {:induction false} BookPermutation(asks: seq<Order>, bids: seq<Order>, asks': seq<Order>, bids': seq<Order>, c: seq<SDItem>)
    requires multiset(asks) == multiset(asks') && multiset(bids) == multiset(bids')
    requires Book(asks, bids, c)
    ensures Book(asks', bids', c)
  {
    PricesPermutation(asks, asks');
    PricesPermutation(bids, bids');
    PositivePermutation(asks, asks');
    PositivePermutation(bids, bids');
    CrossesPermutation(asks, bids, asks', bids');
    forall k | 0 <= k < |c|
      ensures c[k].supply == Volume(asks', Ask, c[k].price) && c[k].demand == Volume(bids', Bid, c[k].price)
    {
      VolumePermutation(asks, asks', Ask, c[k].price);
      VolumePermutation(bids, bids', Bid, c[k].price);
    }
  }

  // ---- the result of a match ----

  /** The result that clears the sorted sides at the given crossing point. */
  ghost predicate ResultOf(r: MatcherResult, market: nat, bids: seq<Order>, asks: seq<Order>, point: SDItem) {
    && r.market == market
    && r.bidOrdersCount == |bids| && r.askOrdersCount == |asks|
    && IsStateOf(r.state, point.price, point.supply, point.demand)
    && WellFormed(r.state)
    && r.orderFills == Run(Reversed(bids), BidSide(r.state), 0) + Run(asks, AskSide(r.state), 0)
    && r.matchedBidVolume == FromInt(Total(Run(Reversed(bids), BidSide(r.state), 0)))
    && r.matchedAskVolume == FromInt(Total(Run(asks, AskSide(r.state), 0)))
  }

  /** Each matched volume is what the clearance arithmetic assigns to that side. */
  lemma {:induction false} MatchTotals(r: MatcherResult, market: nat, bids: seq<Order>, asks: seq<Order>, point: SDItem)
    requires Sorted(Bid, bids) && Sorted(Ask, asks) && Positive(bids) && Positive(asks)
    requires HasVolumes(point)
    requires point.supply == Volume(asks, Ask, point.price) && point.demand == Volume(bids, Bid, point.price)
    requires ResultOf(r, market, bids, asks, point)
    ensures r.matchedBidVolume == FromInt(ClearedBid(point.supply, point.demand))
    ensures r.matchedAskVolume == FromInt(ClearedAsk(point.supply, point.demand))
  {
    SortedGivesPriority(bids);
    SortedGivesPriority(asks);
    var queue := Reversed(bids);
    ReversedContents(bids);
    VolumePermutation(bids, queue, Bid, point.price);
    PositivePermutation(bids, queue);
    PriorityEligibleFirst(queue, Bid, point.price);
    PriorityEligibleFirst(asks, Ask, point.price);
    MatchedBids(queue, r.state, point.supply, point.demand);
    MatchedAsks(asks, r.state, point.supply, point.demand);
  }

  /**
    Clearing balance: the two matched volumes differ by rounding only, and below 10^18 - 1
    units in all they are both the smaller volume. Whether they are equal at any size is a test
    on supply and demand.
   */
  lemma {:induction false} MatchBalance(r: MatcherResult, market: nat, bids: seq<Order>, asks: seq<Order>, point: SDItem)
    requires Sorted(Bid, bids) && Sorted(Ask, asks) && Positive(bids) && Positive(asks)
    requires HasVolumes(point)
    requires point.supply == Volume(asks, Ask, point.price) && point.demand == Volume(bids, Bid, point.price)
    requires ResultOf(r, market, bids, asks, point)
    ensures Diff(r.matchedBidVolume, r.matchedAskVolume) <= FromInt(1 + (point.supply + point.demand) / ONE)
    ensures point.supply + point.demand <= ONE - 2 ==>
              r.matchedBidVolume == r.matchedAskVolume == FromInt(Min(point.supply, point.demand))
    ensures r.matchedBidVolume == r.matchedAskVolume <==> SameVolume(point.supply, point.demand)
  {
    hide SameVolume;
    MatchTotals(r, market, bids, asks, point);
    ClearedEqualIff(point.supply, point.demand);
    var bid, ask := ClearedBid(point.supply, point.demand), ClearedAsk(point.supply, point.demand);
    ClearedGap(point.supply, point.demand);
    ScaledDiff(bid, ask, 1 + (point.supply + point.demand) / ONE);
    if point.supply + point.demand <= ONE - 2 {
      ClearedEqual(point.supply, point.demand);
    }
  }

  lemma {:induction false} ScaledDiff(a: nat, b: nat, bound: nat)
    requires Diff(a, b) <= bound
    ensures Diff(FromInt(a), FromInt(b)) <= FromInt(bound)
  {
  }

  /**
    Fill correctness: each side's fills are a gap-free prefix of that side in price-then-id
    priority, at the clearance price, never more than the order, and the side that is not
    pro-rated fills every order that trades, in full.
   */
  lemma {:induction false} MatchFills(r: MatcherResult, market: nat, bids: seq<Order>, asks: seq<Order>, point: SDItem)
    requires Sorted(Bid, bids) && Sorted(Ask, asks) && Positive(bids) && Positive(asks)
    requires HasVolumes(point)
    requires point.supply == Volume(asks, Ask, point.price) && point.demand == Volume(bids, Bid, point.price)
    requires ResultOf(r, market, bids, asks, point)
    ensures FillsOf(Run(Reversed(bids), BidSide(r.state), 0), Reversed(bids), BidSide(r.state))
    ensures FillsOf(Run(asks, AskSide(r.state), 0), asks, AskSide(r.state))
  {
    SortedGivesPriority(bids);
    SortedGivesPriority(asks);
    ReversedContents(bids);
    PositivePermutation(bids, Reversed(bids));
    VolumePermutation(bids, Reversed(bids), Bid, point.price);
    SidesCanShare(r.state, point.supply, point.demand);
    UncappedSide(point.supply, point.demand);
    StateIsWellFormed(r.state, point.price, point.supply, point.demand);
    SideFills(Reversed(bids), BidSide(r.state));
    SideFills(asks, AskSide(r.state));
  }

  ghost predicate FillsOf(fills: seq<OrderFill>, queue: seq<Order>, s: Side) {
    && Priority(queue, s.dir)
    && |fills| <= |queue|
    && (forall k :: 0 <= k < |fills| ==>
          && fills[k].order == queue[k] && Eligible(queue[k], s.dir, s.price)
          && fills[k].clearancePrice == s.price
          && fills[k].filled > 0 && fills[k].filled + fills[k].unfilled == queue[k].quantity
          && (!s.proRated ==> fills[k].unfilled == 0)
          && (s.proRated && k < |fills| - 1 ==> fills[k].filled == CeilInt(Product(queue[k].quantity, s.ratio))))
    && (!s.proRated ==> forall k :: 0 <= k < |queue| ==> (Eligible(queue[k], s.dir, s.price) <==> k < |fills|))
  }

  lemma {:induction false} SideFills(queue: seq<Order>, s: Side)
    requires Positive(queue) && Priority(queue, s.dir) && CanShare(s)
    requires !s.proRated ==> Volume(queue, s.dir, s.price) <= s.max
    ensures FillsOf(Run(queue, s, 0), queue, s)
  {
    RunIsPrefix(queue, s, 0);
    PriorityEligibleFirst(queue, s.dir, s.price);
    if !s.proRated {
      FullRun(queue, s, 0);
    }
  }

  // ---- the matcher ----

  ghost predicate SideOrders(orders: seq<Order>, market: nat, dir: Direction) {
    && Positive(orders)
    && forall i :: 0 <= i < |orders| ==> orders[i].market == market && orders[i].direction == dir
  }

  class Matcher {
    const marketID: nat
    var bids: seq<Order>
    var asks: seq<Order>
    var curve: seq<SDItem>

    constructor (marketID: nat)
      ensures this.marketID == marketID && bids == [] && asks == [] && Valid()
    {
      this.marketID := marketID;
      bids, asks, curve := [], [], [];
    }

    ghost predicate Valid()
      reads this
    {
      SideOrders(bids, marketID, Bid) && SideOrders(asks, marketID, Ask)
    }

    method AddOrder(order: Order) returns (r: AddResult)
      requires Valid()
      modifies this`bids, this`asks
      ensures Valid()
      ensures r == WrongMarket <==> order.market != marketID
      ensures r == ZeroPrice <==> order.market == marketID && order.price == 0
      ensures r == ZeroQuantity <==> order.market == marketID && order.price > 0 && order.quantity == 0
      ensures r == TooManyOrders <==>
                && order.market == marketID && order.price > 0 && order.quantity > 0
                && |if order.direction == Bid then old(bids) else old(asks)| == MAX_INT
      ensures r != Added ==> bids == old(bids) && asks == old(asks)
      ensures r == Added && order.direction == Bid ==> bids == old(bids) + [order] && asks == old(asks)
      ensures r == Added && order.direction == Ask ==> asks == old(asks) + [order] && bids == old(bids)
    {
      if order.market != marketID { return WrongMarket; }
      if order.price == 0 { return ZeroPrice; }
      if order.quantity == 0 { return ZeroQuantity; }
      match order.direction {
        case Bid =>
          if |bids| == MAX_INT { return TooManyOrders; }
          bids := bids + [order];
        case Ask =>
          if |asks| == MAX_INT { return TooManyOrders; }
          asks := asks + [order];
      }
      return Added;
    }

    /** Sorts and aggregates both sides; the source runs the two halves concurrently on disjoint fields. */
    method Aggregate() returns (askAggs: seq<Aggregate>, bidAggs: seq<Aggregate>)
      requires Valid()
      modifies this`bids, this`asks
      ensures Valid()
      ensures multiset(bids) == multiset(old(bids)) && Sorted(Bid, bids)
      ensures multiset(asks) == multiset(old(asks)) && Sorted(Ask, asks)
      ensures AggregatesOf(askAggs, asks, Ask) && PositiveAggs(askAggs) && (|asks| > 0 <==> |askAggs| > 0)
      ensures AggregatesOf(bidAggs, bids, Bid) && PositiveAggs(bidAggs) && (|bids| > 0 <==> |bidAggs| > 0)
    {
      bids := Sort(Bid, bids);
      SideOrdersPermutation(old(bids), bids, marketID, Bid);
      SortedByPrice(Bid, bids);
      bidAggs := NewBidOrderAggregates(bids);
      PositiveOrdersAggs(bidAggs, bids, Bid);

      asks := Sort(Ask, asks);
      SideOrdersPermutation(old(asks), asks, marketID, Ask);
      SortedByPrice(Ask, asks);
      askAggs := NewAskOrderAggregates(asks);
      PositiveOrdersAggs(askAggs, asks, Ask);

      assert |bidAggs| > 0 ==> bidAggs[0].price in Prices(bids);
      assert |askAggs| > 0 ==> askAggs[0].price in Prices(asks);
    }

    /**
      A book that does not cross is no match.  A book that crosses is never an internal error:
      it is matched at the crossing point of its curve, unless the ratio there rounds to zero.
     */
    method Match() returns (r: MatchOutcome, ghost point: SDItem)
      requires Valid()
      modifies this
      ensures Valid()
      ensures multiset(bids) == multiset(old(bids)) && Sorted(Bid, bids)
      ensures multiset(asks) == multiset(old(asks)) && Sorted(Ask, asks)
      ensures r == NoMatch <==> !Crosses(old(asks), old(bids))
      ensures r != Internal
      ensures Crosses(old(asks), old(bids)) ==>
                && |curve| > 0 && Book(old(asks), old(bids), curve)
                && IsCrossPoint(curve, point) && HasVolumes(point)
                && point.supply == Volume(old(asks), Ask, point.price)
                && point.demand == Volume(old(bids), Bid, point.price)
                && (r == Panicked <==> 2 * (point.supply * ONE * ONE) < (ONE + 2) * point.demand)
      ensures r.Matched? ==> ResultOf(r.result, marketID, bids, asks, point)
    {
      point := SDItem(0, 0, 0);
      var askAggs, bidAggs := Aggregate();
      var sdCurves, err := NewSDCurves(askAggs, bidAggs);
      if |askAggs| > 0 && |bidAggs| > 0 {
        CrossingGuard(askAggs, bidAggs, asks, bids);
      }
      if Crosses(asks, bids) {
        CrossesPermutation(asks, bids, old(asks), old(bids));
      }
      if Crosses(old(asks), old(bids)) {
        CrossesPermutation(old(asks), old(bids), asks, bids);
      }
      if err != NoError {
        return if err == NotSorted then Internal else NoMatch, point;
      }
      curve := sdCurves.items;
      CurveRefinesOrders(curve, askAggs, bidAggs, asks, bids);
      BookPermutation(asks, bids, old(asks), old(bids), curve);

      var outcome;
      outcome, point := GetClearanceState(curve);
      CrossPointSound(old(asks), old(bids), curve, point);
      RatioIsZero(point.supply, point.demand);
      match outcome {
        case EmptyCurve => return NoMatch, point;
        case EmptyPoint => return Internal, point;
        case DivideByZero => return Panicked, point;
        case Cleared(state) =>
          StateIsWellFormed(state, point.price, point.supply, point.demand);
          var bidFills, bidMatchedVolume := GetBidOrderFills(bids, state);
          var askFills, askMatchedVolume := GetAskOrderFills(asks, state);
          r := Matched(MatcherResult(marketID, state, |bids|, |asks|, bidMatchedVolume, askMatchedVolume, bidFills + askFills));
      }
    }
  }

  lemma {:induction false} SideOrdersPermutation(a: seq<Order>, b: seq<Order>, market: nat, dir: Direction)
    requires multiset(a) == multiset(b) && SideOrders(a, market, dir)
    ensures SideOrders(b, market, dir)
  {
    PositivePermutation(a, b);
    forall i | 0 <= i < |b| ensures b[i].market == market && b[i].direction == dir {
      var j := PermutationMember(b, a, i);
    }
  }
}
