/**
  The clearing of one book: what its result says about the raw orders, and how far they
  determine it.
 */
module Clearings {
  import opened Dec
  import opened Seqs
  import opened Orders
  import opened Curves
  import opened CrossPoint
  import opened Clearance
  import opened Fills
  import opened Matcher

  /** A result is the clearing of a book at a crossing point of its curve. */
  ghost predicate ClearsAt(
      r: MatcherResult, bids: seq<Order>, asks: seq<Order>,
      sortedBids: seq<Order>, sortedAsks: seq<Order>, c: seq<SDItem>, point: SDItem)
  {
    && multiset(sortedBids) == multiset(bids) && Sorted(Bid, sortedBids)
    && multiset(sortedAsks) == multiset(asks) && Sorted(Ask, sortedAsks)
    && |c| > 0 && Book(asks, bids, c) && IsCrossPoint(c, point) && HasVolumes(point)
    && point.supply == Volume(asks, Ask, point.price)
    && point.demand == Volume(bids, Bid, point.price)
    && ResultOf(r, r.market, sortedBids, sortedAsks, point)
  }

  ghost predicate Clears(r: MatcherResult, bids: seq<Order>, asks: seq<Order>) {
    exists sortedBids, sortedAsks, c, point :: ClearsAt(r, bids, asks, sortedBids, sortedAsks, c, point)
  }

  /** The ratio at a crossing point rounds to zero, and inverting it panics. */
  ghost predicate VanishesAt(bids: seq<Order>, asks: seq<Order>, c: seq<SDItem>, point: SDItem) {
    && |c| > 0 && Book(asks, bids, c) && IsCrossPoint(c, point)
    && 2 * (point.supply * ONE * ONE) < (ONE + 2) * point.demand
  }

  ghost predicate RatioVanishes(bids: seq<Order>, asks: seq<Order>) {
    exists c, point :: VanishesAt(bids, asks, c, point)
  }

  lemma {:induction false} Vanishing(bids: seq<Order>, asks: seq<Order>, c: seq<SDItem>, point: SDItem)
    requires |c| > 0 && Book(asks, bids, c) && IsCrossPoint(c, point)
    requires 2 * (point.supply * ONE * ONE) < (ONE + 2) * point.demand
    ensures RatioVanishes(bids, asks)
  {
    assert VanishesAt(bids, asks, c, point);
  }

  lemma {:induction false} MatchClears(
      r: MatcherResult, bids: seq<Order>, asks: seq<Order>, sb: seq<Order>, sa: seq<Order>, c: seq<SDItem>, point: SDItem)
    requires ClearsAt(r, bids, asks, sb, sa, c, point)
    ensures Clears(r, bids, asks)
  {
  }

  /**
    What a clearing means for the raw orders of its book: at its price both supply and demand
    exist, the two matched volumes differ by rounding only, for books below 10^18 - 1 units both
    are the smaller of the two, and at any size they are equal exactly when the test on supply
    and demand says so.
   */
  lemma {:induction false} ClearingBalances(r: MatcherResult, bids: seq<Order>, asks: seq<Order>)
    requires Clears(r, bids, asks)
    ensures var supply, demand := Volume(asks, Ask, r.state.price), Volume(bids, Bid, r.state.price);
            && supply > 0 && demand > 0
            && Diff(r.matchedBidVolume, r.matchedAskVolume) <= FromInt(1 + (supply + demand) / ONE)
            && (supply + demand <= ONE - 2 ==>
                  r.matchedBidVolume == r.matchedAskVolume == FromInt(Min(supply, demand)))
            && (r.matchedBidVolume == r.matchedAskVolume <==> SameVolume(supply, demand))
  {
    hide *;
    var sb, sa, point := SortedClearing(r, bids, asks);
    MatchBalance(r, r.market, sb, sa, point);
  }

  /** The sorted sides behind a clearing, with the supply and demand of the raw orders. */
  lemma {:induction false} SortedClearing(r: MatcherResult, bids: seq<Order>, asks: seq<Order>)
    returns (sb: seq<Order>, sa: seq<Order>, point: SDItem)
    requires Clears(r, bids, asks)
    ensures Sorted(Bid, sb) && Sorted(Ask, sa) && Positive(sb) && Positive(sa)
    ensures r.state.price == point.price && point.supply > 0 && point.demand > 0 && HasVolumes(point)
    ensures point.supply == Volume(sa, Ask, point.price) == Volume(asks, Ask, point.price)
    ensures point.demand == Volume(sb, Bid, point.price) == Volume(bids, Bid, point.price)
    ensures ResultOf(r, r.market, sb, sa, point)
  {
    var c;
    sb, sa, c, point :| ClearsAt(r, bids, asks, sb, sa, c, point);
    PositivePermutation(bids, sb);
    PositivePermutation(asks, sa);
    hide Run, IsCrossPoint, Sorted, Positive, Volume, Reversed, Clears;
    VolumePermutation(bids, sb, Bid, point.price);
    VolumePermutation(asks, sa, Ask, point.price);
  }

  // ---- the fills of a clearing ----

  lemma {:induction false} ClearsFills(
      r: MatcherResult, bids: seq<Order>, asks: seq<Order>, sb: seq<Order>, sa: seq<Order>, c: seq<SDItem>, point: SDItem)
    requires ClearsAt(r, bids, asks, sb, sa, c, point)
    ensures BidSide(r.state).Valid() && AskSide(r.state).Valid()
    ensures r.orderFills == Run(Reversed(sb), BidSide(r.state), 0) + Run(sa, AskSide(r.state), 0)
    ensures FillsOf(Run(Reversed(sb), BidSide(r.state), 0), Reversed(sb), BidSide(r.state))
    ensures FillsOf(Run(sa, AskSide(r.state), 0), sa, AskSide(r.state))
    ensures multiset(Reversed(sb)) == multiset(bids) && multiset(sa) == multiset(asks)
  {
    PositivePermutation(bids, sb);
    PositivePermutation(asks, sa);
    ReversedContents(sb);
    hide Run, Book, IsCrossPoint, IsStateOf, FillsOf, Sorted, Positive, Volume, Reversed;
    VolumePermutation(bids, sb, Bid, point.price);
    VolumePermutation(asks, sa, Ask, point.price);
    MatchFills(r, r.market, sb, sa, point);
  }

  // ---- when a book panics ----

  lemma {:induction false} VanishingCrosses(bids: seq<Order>, asks: seq<Order>)
    requires RatioVanishes(bids, asks)
    ensures Crosses(asks, bids)
  {
  }

  lemma {:induction false} ClearedCrosses(r: MatcherResult, bids: seq<Order>, asks: seq<Order>)
    requires Clears(r, bids, asks)
    ensures Crosses(asks, bids)
  {
  }

  /** A book that clears is not one whose ratio vanishes: the curve and its crossing volumes are determined. */
  lemma {:induction false} ClearedDoesNotVanish(r: MatcherResult, bids: seq<Order>, asks: seq<Order>)
    requires Clears(r, bids, asks)
    ensures !RatioVanishes(bids, asks)
  {
    hide IsCrossPoint, Run, Sorted, Volume;
    if RatioVanishes(bids, asks) {
      var sb, sa, c, p :| ClearsAt(r, bids, asks, sb, sa, c, p);
      var d, q :| VanishesAt(bids, asks, d, q);
      CurveUnique(c, d, asks, bids);
      CrossPointUnique(asks, bids, c, p, q);
      RatioIsZero(p.supply, p.demand);
    }
  }

  const TINY_ASKS := [Order(0, 0, 0, Ask, 1, 1, 0)]
  const HUGE_BIDS := [Order(1, 0, 0, Bid, 1, 2 * ONE + 5, 0)]

  /** One unit for sale against a little more than 2 * 10^18 wanted at the same price: the end of the block panics. */
  lemma {:induction false} VanishingExample()
    ensures RatioVanishes(HUGE_BIDS, TINY_ASKS)
  {
    var asks, bids, c := TINY_ASKS, HUGE_BIDS, [SDItem(1, 1, 2 * ONE + 5)];
    assert asks[1..] == [] && bids[1..] == [];
    assert asks[0].price == 1 && bids[0].price == 1 && c[0].price == 1;
    assert Prices(asks) == {1} && Prices(bids) == {1} && ItemPrices(c) == {1};
    assert Volume(asks, Ask, 1) == 1 && Volume(bids, Bid, 1) == 2 * ONE + 5;
    assert Crosses(asks, bids) by { assert asks[0].price <= bids[0].price; }
    assert FirstChange(c, 1) >= 1;
    assert LeastGap(c, c[0]);
    assert VanishesAt(bids, asks, c, c[0]);
  }

  // ---- how far a book determines its clearing ----

  function RepricedFills(fills: seq<OrderFill>, price: nat): (r: seq<OrderFill>)
    ensures |r| == |fills|
    ensures forall i :: 0 <= i < |fills| ==> r[i] == fills[i].(clearancePrice := price)
  {
    if fills == [] then [] else [fills[0].(clearancePrice := price)] + RepricedFills(fills[1..], price)
  }

  /** The same clearing at another price: the same ratios, volumes and filled quantities. */
  function Repriced(r: MatcherResult, price: nat): MatcherResult {
    r.(state := r.state.(price := price), orderFills := RepricedFills(r.orderFills, price))
  }

  ghost predicate SameEligible(orders: seq<Order>, dir: Direction, p: nat, q: nat) {
    forall i :: 0 <= i < |orders| ==> (Eligible(orders[i], dir, p) <==> Eligible(orders[i], dir, q))
  }

  /** Two prices with the same volume let the same orders trade. */
  lemma {:induction false} SameVolumeSameEligible(orders: seq<Order>, dir: Direction, p: nat, q: nat)
    requires Positive(orders) && Volume(orders, dir, p) == Volume(orders, dir, q)
    ensures SameEligible(orders, dir, p, q)
  {
    forall i | 0 <= i < |orders| ensures Eligible(orders[i], dir, p) <==> Eligible(orders[i], dir, q) {
      if Eligible(orders[i], dir, p) && !Eligible(orders[i], dir, q) {
        VolumeGrows(orders, dir, q, p, i);
      } else if Eligible(orders[i], dir, q) && !Eligible(orders[i], dir, p) {
        VolumeGrows(orders, dir, p, q, i);
      }
    }
  }

  lemma {:induction false} RunRepriced(queue: seq<Order>, s: Side, t: Side, matched: nat)
    requires s.Valid() && t == s.(price := t.price) && SameEligible(queue, s.dir, s.price, t.price)
    ensures Run(queue, t, matched) == RepricedFills(Run(queue, s, matched), t.price)
    ensures Total(Run(queue, t, matched)) == Total(Run(queue, s, matched))
  {
    if queue != [] && Eligible(queue[0], s.dir, s.price) && matched != s.max {
      ShareRepriced(queue[0], s, t, matched);
      hide Share;
      var q, rest := Share(queue[0], s, matched), queue[1..];
      assert SameEligible(rest, s.dir, s.price, t.price);
      hide SameEligible;
      RunRepriced(rest, s, t, matched + q);
      var f := OrderFill(queue[0], s.price, q, queue[0].quantity - q);
      RepricedCons(f, Run(rest, s, matched + q), t.price);
      TotalCons(f, Run(rest, s, matched + q));
      TotalCons(f.(clearancePrice := t.price), Run(rest, t, matched + q));
      hide RepricedFills, Total, Eligible;
    }
  }

  lemma {:induction false} RepricedCons(f: OrderFill, tail: seq<OrderFill>, price: nat)
    ensures RepricedFills([f] + tail, price) == [f.(clearancePrice := price)] + RepricedFills(tail, price)
  {
    assert ([f] + tail)[1..] == tail;
  }

  lemma {:induction false} TotalCons(f: OrderFill, tail: seq<OrderFill>)
    ensures Total([f] + tail) == f.filled + Total(tail)
  {
    assert ([f] + tail)[1..] == tail;
  }

  lemma {:induction false} ShareRepriced(o: Order, s: Side, t: Side, matched: nat)
    requires s.Valid() && t == s.(price := t.price)
    ensures Share(o, t, matched) == Share(o, s, matched)
  {
    hide Product;
  }

  /** Clearing the same sorted sides at two points with the same volumes. */
  lemma {:induction false} SamePointRepriced(
      r: MatcherResult, s: MatcherResult, bids: seq<Order>, asks: seq<Order>, p: SDItem, q: SDItem)
    requires ResultOf(r, r.market, bids, asks, p) && ResultOf(s, r.market, bids, asks, q) && SameVolumes(p, q)
    requires SameEligible(Reversed(bids), Bid, p.price, q.price) && SameEligible(asks, Ask, p.price, q.price)
    ensures s == Repriced(r, q.price)
    ensures p == q ==> r == s
  {
    hide Run, SameEligible, ProRata, ProRataInvert, MaxBid, MaxAsk, Total, FromInt, RepricedFills;
    assert s.state == r.state.(price := q.price);
    var x, y := Run(Reversed(bids), BidSide(r.state), 0), Run(asks, AskSide(r.state), 0);
    RunRepriced(Reversed(bids), BidSide(r.state), BidSide(s.state), 0);
    RunRepriced(asks, AskSide(r.state), AskSide(s.state), 0);
    RepricedConcat(x, y, q.price);
  }

  lemma {:induction false} RepricedConcat(x: seq<OrderFill>, y: seq<OrderFill>, price: nat)
    ensures RepricedFills(x + y, price) == RepricedFills(x, price) + RepricedFills(y, price)
  {
  }

  /** The one case in which a book leaves the price open. */
  ghost predicate TiedBook(bids: seq<Order>, asks: seq<Order>) {
    exists c :: |c| > 0 && Book(asks, bids, c) && EndIsTied(c)
  }

  /**
    A book with distinct ids determines its clearing: volumes, ratios and every filled
    quantity always, and the price too unless the end of its curve is tied.
   */
  lemma {:induction false} ClearingUnique(r: MatcherResult, s: MatcherResult, bids: seq<Order>, asks: seq<Order>)
    requires Clears(r, bids, asks) && Clears(s, bids, asks) && r.market == s.market
    requires DistinctIds(bids) && DistinctIds(asks)
    ensures s == Repriced(r, s.state.price)
    ensures !TiedBook(bids, asks) ==> r == s
  {
    hide ClearsAt, Repriced, EndIsTied, Book;
    var sb, sa, c, p :| ClearsAt(r, bids, asks, sb, sa, c, p);
    var tb, ta, d, q :| ClearsAt(s, bids, asks, tb, ta, d, q);
    ClearsAtSame(r, s, bids, asks, sb, sa, c, p, tb, ta, d, q);
    SamePointRepriced(r, s, sb, sa, p, q);
  }

  lemma {:induction false} ClearsAtSame(
      r: MatcherResult, s: MatcherResult, bids: seq<Order>, asks: seq<Order>,
      sb: seq<Order>, sa: seq<Order>, c: seq<SDItem>, p: SDItem,
      tb: seq<Order>, ta: seq<Order>, d: seq<SDItem>, q: SDItem)
    requires ClearsAt(r, bids, asks, sb, sa, c, p) && ClearsAt(s, bids, asks, tb, ta, d, q)
    requires DistinctIds(bids) && DistinctIds(asks) && r.market == s.market
    ensures ResultOf(r, r.market, sb, sa, p) && ResultOf(s, r.market, sb, sa, q) && SameVolumes(p, q)
    ensures s.state.price == q.price
    ensures SameEligible(Reversed(sb), Bid, p.price, q.price) && SameEligible(sa, Ask, p.price, q.price)
    ensures |c| > 0 && Book(asks, bids, c) && (!EndIsTied(c) ==> p == q)
  {
    hide Run, IsCrossPoint, Volume, EndIsTied, Reversed, Sorted, DistinctIds, Positive, SameEligible, Crosses;
    CurveUnique(c, d, asks, bids);
    CrossPointUnique(asks, bids, c, p, q);
    DistinctIdsPermutation(bids, sb);
    DistinctIdsPermutation(asks, sa);
    SortedUnique(Bid, sb, tb);
    SortedUnique(Ask, sa, ta);
    ReversedContents(sb);
    EligibleAlike(bids, Reversed(sb), Bid, p.price, q.price);
    EligibleAlike(asks, sa, Ask, p.price, q.price);
  }

  lemma {:induction false} EligibleAlike(orders: seq<Order>, queue: seq<Order>, dir: Direction, p: nat, q: nat)
    requires multiset(orders) == multiset(queue) && Positive(orders) && Volume(orders, dir, p) == Volume(orders, dir, q)
    ensures SameEligible(queue, dir, p, q)
  {
    hide Volume, SameEligible;
    PositivePermutation(orders, queue);
    VolumePermutation(orders, queue, dir, p);
    VolumePermutation(orders, queue, dir, q);
    SameVolumeSameEligible(queue, dir, p, q);
  }

  const TIED_ASKS := [Order(0, 0, 0, Ask, 5, 10, 0)]
  const TIED_BIDS := [Order(1, 0, 0, Bid, 7, 3, 0)]
  const TIED_CURVE := [SDItem(5, 10, 3), SDItem(7, 10, 3)]

  /** Ten units asked at 5 and three bid at 7: the least-gap fallback may clear at 5 or at 7. */
  lemma {:induction false} TiedExample() returns (r: SDItem, s: SDItem)
    ensures Book(TIED_ASKS, TIED_BIDS, TIED_CURVE) && IsCrossPoint(TIED_CURVE, r) && IsCrossPoint(TIED_CURVE, s)
    ensures r.price == 5 && s.price == 7
  {
    var asks, bids, c := TIED_ASKS, TIED_BIDS, TIED_CURVE;
    assert asks[1..] == [] && bids[1..] == [];
    assert asks[0].price == 5 && bids[0].price == 7 && c[0].price == 5 && c[1].price == 7;
    assert Prices(asks) == {5} && Prices(bids) == {7} && ItemPrices(c) == {5, 7};
    assert Book(asks, bids, c);
    assert EndIsTied(c) by { assert FirstChange(c, 1) == FirstChange(c, 2) == 2; }
    hide Book, IsCrossPoint, EndIsTied;
    r, s := TiedEndHasTwo(asks, bids, c);
  }
}
