/**
  Whether a clearing conserves the base currency: what bids are credited against what the asks
  they bought from give up.
 */
module Conservation {
  import opened Wrappers
  import opened Dec
  import opened Orders
  import opened Curves
  import opened CrossPoint
  import opened Clearance
  import opened Fills
  import opened Matcher
  import opened Clearings
  import opened Quote
  import opened Payouts
  import opened Settlement
  import opened Pool

  /** The base quantity one fill credits: a bid's whole fill coin. */
  function Credits(f: OrderFill): nat {
    if f.order.direction == Bid then f.filled else 0
  }

  /** The base quantity one fill takes off its ask, which keeps everything if it is skipped. */
  function Releases(f: OrderFill, b: Block): nat {
    if f.order.direction == Ask && Paid(f, b).Payout? then f.filled else 0
  }

  function Skips(f: OrderFill, b: Block): nat {
    if f.order.direction == Ask && Paid(f, b).Unpayable? then f.filled else 0
  }

  function BaseCredited(fills: seq<OrderFill>): nat {
    if fills == [] then 0 else Credits(fills[0]) + BaseCredited(fills[1..])
  }

  function BaseReleased(fills: seq<OrderFill>, b: Block): nat {
    if fills == [] then 0 else Releases(fills[0], b) + BaseReleased(fills[1..], b)
  }

  function BaseSkipped(fills: seq<OrderFill>, b: Block): nat {
    if fills == [] then 0 else Skips(fills[0], b) + BaseSkipped(fills[1..], b)
  }

  function QuantityLeft(o: Option<Order>): nat {
    if o.Some? then o.value.quantity else 0
  }

  /** What an ask releases is what its stored order loses. */
  lemma {:induction false} ReleasesIsReduction(l: Ledger, f: OrderFill, b: Block)
    requires f.order.direction == Ask && OrderOf(l, f.order.id) == Some(f.order)
    requires f.filled + f.unfilled == f.order.quantity
    ensures QuantityLeft(Remainder(l, f, b)) + Releases(f, b) == f.order.quantity
  {
    hide Paid;
  }

  lemma {:induction false} SumsConcat(x: seq<OrderFill>, y: seq<OrderFill>, b: Block)
    ensures BaseCredited(x + y) == BaseCredited(x) + BaseCredited(y)
    ensures BaseReleased(x + y, b) == BaseReleased(x, b) + BaseReleased(y, b)
    ensures BaseSkipped(x + y, b) == BaseSkipped(x, b) + BaseSkipped(y, b)
  {
    hide Credits, Releases, Skips;
    if x == [] {
      assert x + y == y;
    } else {
      assert (x + y)[0] == x[0] && (x + y)[1..] == x[1..] + y;
      SumsConcat(x[1..], y, b);
    }
  }

  lemma {:induction false} BidSums(x: seq<OrderFill>, b: Block)
    requires forall i :: 0 <= i < |x| ==> x[i].order.direction == Bid
    ensures BaseCredited(x) == Total(x) && BaseReleased(x, b) == 0 && BaseSkipped(x, b) == 0
  {
    hide Paid;
    if x != [] { BidSums(x[1..], b); }
  }

  lemma {:induction false} AskSums(x: seq<OrderFill>, b: Block)
    requires forall i :: 0 <= i < |x| ==> x[i].order.direction == Ask
    ensures BaseCredited(x) == 0 && BaseReleased(x, b) + BaseSkipped(x, b) == Total(x)
  {
    hide Paid;
    if x != [] { AskSums(x[1..], b); }
  }

  lemma {:induction false} SkippedZeroIff(fills: seq<OrderFill>, b: Block)
    requires forall i :: 0 <= i < |fills| ==> fills[i].filled > 0
    ensures BaseSkipped(fills, b) == 0 <==>
            forall i :: 0 <= i < |fills| && fills[i].order.direction == Ask ==> !Paid(fills[i], b).Unpayable?
  {
    hide Paid;
    if fills != [] {
      SkippedZeroIff(fills[1..], b);
      assert fills == [fills[0]] + fills[1..];
    }
  }

  ghost predicate ResultIn(r: MatcherResult, orders: seq<Order>) {
    Clears(r, BookOf(orders, r.market, Bid), BookOf(orders, r.market, Ask))
  }

  /** The fills of a result are positive, of its market, bids before asks, and add up to the matched volumes. */
  lemma {:induction false} FillSides(r: MatcherResult, orders: seq<Order>) returns (x: seq<OrderFill>, y: seq<OrderFill>)
    requires ResultIn(r, orders)
    ensures r.orderFills == x + y
    ensures r.matchedBidVolume == FromInt(Total(x)) && r.matchedAskVolume == FromInt(Total(y))
    ensures forall i :: 0 <= i < |x| ==> x[i].order.direction == Bid
    ensures forall i :: 0 <= i < |y| ==> y[i].order.direction == Ask
    ensures forall i :: 0 <= i < |r.orderFills| ==>
              && r.orderFills[i].filled > 0 && r.orderFills[i].order.market == r.market
              && r.orderFills[i].clearancePrice == r.state.price
              && r.orderFills[i].filled + r.orderFills[i].unfilled == r.orderFills[i].order.quantity
  {
    hide Run, BookOf, Total, Book, IsCrossPoint, Sorted, Volume, IsStateOf, Reversed;
    var bids, asks := BookOf(orders, r.market, Bid), BookOf(orders, r.market, Ask);
    var sb, sa, c, point :| ClearsAt(r, bids, asks, sb, sa, c, point);
    ClearsFills(r, bids, asks, sb, sa, c, point);
    var s, t := BidSide(r.state), AskSide(r.state);
    x, y := Run(Reversed(sb), s, 0), Run(sa, t, 0);
    FillFacts(x, Reversed(sb), s, bids, orders, r.market);
    FillFacts(y, sa, t, asks, orders, r.market);
  }

  lemma {:induction false} FillFacts(
      fills: seq<OrderFill>, queue: seq<Order>, s: Side, book: seq<Order>, orders: seq<Order>, market: nat)
    requires FillsOf(fills, queue, s) && multiset(queue) == multiset(book) && book == BookOf(orders, market, s.dir)
    ensures forall i :: 0 <= i < |fills| ==>
              && fills[i].filled > 0 && fills[i].order.market == market && fills[i].order.direction == s.dir
              && fills[i].clearancePrice == s.price
              && fills[i].filled + fills[i].unfilled == fills[i].order.quantity
  {
    hide BookOf;
    forall i | 0 <= i < |fills| ensures fills[i].order.market == market && fills[i].order.direction == s.dir {
      FillOrderInQueue(fills, queue, s, book, i);
      BookMember(orders, market, s.dir, fills[i].order);
    }
  }

  /** The base credited is the matched bid volume; the base released, with what is skipped, the matched ask volume. */
  lemma {:induction false} BaseVolumes(r: MatcherResult, orders: seq<Order>, b: Block)
    requires ResultIn(r, orders)
    ensures r.matchedBidVolume == FromInt(BaseCredited(r.orderFills))
    ensures r.matchedAskVolume == FromInt(BaseReleased(r.orderFills, b) + BaseSkipped(r.orderFills, b))
  {
    hide ResultIn, BaseCredited, BaseReleased, BaseSkipped, Total;
    var x, y := FillSides(r, orders);
    SumsConcat(x, y, b);
    BidSums(x, b);
    AskSums(y, b);
  }

  /**
    A balanced clearing conserves the base currency if and only if every ask it fills is worth
    at least one quote unit; otherwise the bids are credited more than the asks give up.
   */
  lemma {:induction false} BaseConservedIff(r: MatcherResult, orders: seq<Order>, b: Block)
    requires ResultIn(r, orders) && r.matchedBidVolume == r.matchedAskVolume && Convertible(b.markets(r.market))
    ensures BaseReleased(r.orderFills, b) <= BaseCredited(r.orderFills)
    ensures BaseCredited(r.orderFills) == BaseReleased(r.orderFills, b) <==>
            forall i :: 0 <= i < |r.orderFills| && r.orderFills[i].order.direction == Ask ==>
              !BelowOneUnit(Worth(r.state.price, r.orderFills[i].filled), b.markets(r.market))
  {
    hide ResultIn, BaseCredited, BaseReleased, BaseSkipped, BelowOneUnit, Worth, PayoutOf, Total;
    var x, y := FillSides(r, orders);
    BaseVolumes(r, orders, b);
    SkippedZeroIff(r.orderFills, b);
    forall i | 0 <= i < |r.orderFills| && r.orderFills[i].order.direction == Ask
      ensures Paid(r.orderFills[i], b).Unpayable? <==>
              BelowOneUnit(Worth(r.state.price, r.orderFills[i].filled), b.markets(r.market))
    {
      SkippedIff(r.orderFills[i], b.markets(r.market));
    }
  }

  // ---- a clearing that does not ----

  const DUST_ASK := Order(0, 7, 0, Ask, 1, 1, 0)
  const DUST_BID := Order(1, 8, 0, Bid, 1, 10, 0)
  const DUST_MARKET := Currencies(0, 1, 1, 0)

  lemma {:induction false} DustCurve() returns (c: seq<SDItem>)
    ensures |c| == 1 && c[0] == SDItem(1, 1, 10) && Book([DUST_ASK], [DUST_BID], c) && IsCrossPoint(c, c[0])
    ensures Volume([DUST_ASK], Ask, 1) == 1 && Volume([DUST_BID], Bid, 1) == 10
  {
    var asks, bids := [DUST_ASK], [DUST_BID];
    c := [SDItem(1, 1, 10)];
    assert asks[1..] == [] && bids[1..] == [];
    assert asks[0].price == 1 && bids[0].price == 1 && c[0].price == 1;
    assert Prices(asks) == {1} && Prices(bids) == {1} && ItemPrices(c) == {1};
    assert Volume(asks, Ask, 1) == 1 && Volume(bids, Bid, 1) == 10;
    assert CurveOf(c, asks, bids);
    assert Crosses(asks, bids) by { assert asks[0].price <= bids[0].price; }
    assert LeastGap(c, c[0]);
  }

  lemma {:induction false} DustClears() returns (r: MatcherResult)
    ensures r.market == 0 && r.state.price == 1 && Clears(r, [DUST_BID], [DUST_ASK])
  {
    hide Run, Total, ProRata, ProRataInvert, MaxBid, MaxAsk, Volume, Book, IsCrossPoint, Reversed;
    var c := DustCurve();
    var bids, asks := [DUST_BID], [DUST_ASK];
    RatioIsZero(1, 10);
    var ratio := ProRata(1, 10);
    var state := ClearanceState(1, ratio, ProRataInvert(ratio), FromInt(MaxBid(1, 10)), FromInt(MaxAsk(1, 10)));
    StateIsWellFormed(state, 1, 1, 10);
    var x, y := Run(Reversed(bids), BidSide(state), 0), Run(asks, AskSide(state), 0);
    r := MatcherResult(0, state, 1, 1, FromInt(Total(x)), FromInt(Total(y)), x + y);
    assert ClearsAt(r, bids, asks, bids, asks, c, c[0]);
  }

  lemma {:induction false} DustBooks()
    ensures BookOf([DUST_ASK, DUST_BID], 0, Bid) == [DUST_BID]
    ensures BookOf([DUST_ASK, DUST_BID], 0, Ask) == [DUST_ASK]
  {
    var none: seq<Order> := [];
    assert none + [DUST_ASK] == [DUST_ASK] && [DUST_ASK] + [DUST_BID] == [DUST_ASK, DUST_BID];
    BookOfAppend(none, DUST_ASK, 0, Bid);
    BookOfAppend(none, DUST_ASK, 0, Ask);
    BookOfAppend([DUST_ASK], DUST_BID, 0, Bid);
    BookOfAppend([DUST_ASK], DUST_BID, 0, Ask);
  }

  lemma {:induction false} NothingReleased(fills: seq<OrderFill>, b: Block)
    requires forall i :: 0 <= i < |fills| && fills[i].order.direction == Ask ==> Paid(fills[i], b).Unpayable?
    ensures BaseReleased(fills, b) == 0
  {
    hide Paid;
    if fills != [] { NothingReleased(fills[1..], b); }
  }

  /**
    One base unit asked and ten bid at price 1, ten of them being worth one quote unit: both
    orders can be posted and they clear one unit, which is credited to the bid while the ask,
    being worth nothing, is skipped and keeps it.
   */
  lemma {:induction false} DustExample(b: Block) returns (r: MatcherResult)
    requires b.markets(0) == DUST_MARKET
    ensures LockCoin(DUST_ASK, DUST_MARKET).Made? && LockCoin(DUST_BID, DUST_MARKET).Made?
    ensures ResultIn(r, [DUST_ASK, DUST_BID])
    ensures r.matchedBidVolume == r.matchedAskVolume == FromInt(1)
    ensures BaseCredited(r.orderFills) == 1 && BaseReleased(r.orderFills, b) == 0
  {
    var orders := [DUST_ASK, DUST_BID];
    hide Clears, BookOf, BaseCredited, BaseReleased, BaseSkipped, PayoutOf, Volume, QuoteCoin, Total, SameVolume;
    assert Pow10(1) == 10 * Pow10(0) == 10;
    QuoteCoinIff(1, 10, DUST_MARKET);
    r := DustClears();
    DustBooks();
    var c := DustCurve();
    ClearingBalances(r, [DUST_BID], [DUST_ASK]);
    BaseVolumes(r, orders, b);
    var x, y := FillSides(r, orders);
    forall i | 0 <= i < |r.orderFills| && r.orderFills[i].order.direction == Ask
      ensures Paid(r.orderFills[i], b).Unpayable?
    {
      FillOrderInMarket(r, orders, i);
      assert r.orderFills[i].order == DUST_ASK;
      SkippedIff(r.orderFills[i], DUST_MARKET);
    }
    NothingReleased(r.orderFills, b);
  }
}
