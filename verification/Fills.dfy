/**
  Turning a clearance state into order fills, for each side of a market.
 */
module Fills {
  import opened Dec
  import opened Orders
  import opened Clearance

  datatype OrderFill = OrderFill(order: Order, clearancePrice: nat, filled: nat, unfilled: nat)

  /** The part of a clearance state one side works with, with its maximum volume as an integer. */
  datatype Side = Side(dir: Direction, price: nat, proRated: bool, ratio: nat, max: nat) {
    ghost predicate Valid() {
      proRated ==> ratio <= ONE
    }
  }

  function BidSide(state: ClearanceState): Side {
    Side(Bid, state.price, state.proRata <= ONE, state.proRata, TruncateInt(state.maxBidVolume))
  }

  function AskSide(state: ClearanceState): Side {
    Side(Ask, state.price, state.proRata > ONE, state.proRataInvert, TruncateInt(state.maxAskVolume))
  }

  /** What the clearance computation guarantees to the fill loops: whole volumes, and an inverse at most one. */
  ghost predicate WellFormed(state: ClearanceState) {
    && state.maxBidVolume == FromInt(TruncateInt(state.maxBidVolume))
    && state.maxAskVolume == FromInt(TruncateInt(state.maxAskVolume))
    && (state.proRata > ONE ==> state.proRataInvert <= ONE)
  }

  lemma {:induction false} StateIsWellFormed(state: ClearanceState, price: nat, supply: nat, demand: nat)
    requires IsStateOf(state, price, supply, demand)
    ensures WellFormed(state)
    ensures BidSide(state).max == MaxBid(supply, demand)
    ensures AskSide(state).max == MaxAsk(supply, demand)
  {
    var bid, ask := MaxBid(supply, demand), MaxAsk(supply, demand);
    TruncateExact(bid);
    TruncateExact(ask);
    QuoSide(ONE, state.proRata);
  }

  // ---- reference definition of a fill run ----

  /** A decimal product rounded up to an integer. */
  function CeilInt(x: nat): nat {
    (x + (ONE - 1)) / ONE
  }

  lemma {:induction false} CeilIsCeilInt(x: nat)
    ensures Ceil(x) == FromInt(CeilInt(x))
    ensures x <= ONE * CeilInt(x) < x + ONE
  {
  }

  lemma {:induction false} CeilAtMost(q: nat, ratio: nat)
    requires ratio <= ONE
    ensures CeilInt(Product(q, ratio)) <= q
  {
    ProductMono(q, ratio, ONE);
    ProductOfConstant(q, ONE);
  }

  /** The share of one order: all of it, or its pro-rata part rounded up and cut at the remaining volume. */
  function Share(o: Order, s: Side, matched: nat): (q: nat)
    requires s.Valid()
    ensures q <= o.quantity
  {
    if !s.proRated then o.quantity
    else
      var part := CeilInt(Product(o.quantity, s.ratio));
      CeilAtMost(o.quantity, s.ratio);
      if matched + part > s.max then (if matched <= s.max then s.max - matched else 0) else part
  }

  function Run(queue: seq<Order>, s: Side, matched: nat): (fills: seq<OrderFill>)
    requires s.Valid()
  {
    if queue == [] || !Eligible(queue[0], s.dir, s.price) || matched == s.max then []
    else
      var q := Share(queue[0], s, matched);
      if q == 0 then Run(queue[1..], s, matched)
      else [OrderFill(queue[0], s.price, q, queue[0].quantity - q)] + Run(queue[1..], s, matched + q)
  }

  function Total(fills: seq<OrderFill>): nat {
    if fills == [] then 0 else fills[0].filled + Total(fills[1..])
  }

  lemma {:induction false} TotalAppend(fills: seq<OrderFill>, f: OrderFill)
    ensures Total(fills + [f]) == Total(fills) + f.filled
  {
    if fills == [] {
      assert [] + [f] == [f];
      assert [f][1..] == [];
    } else {
      assert (fills + [f])[1..] == fills[1..] + [f];
      TotalAppend(fills[1..], f);
    }
  }

  /** A loop that has produced `fills` and still has `rest` to go is on its way to `whole`. */
  ghost predicate Progress(fills: seq<OrderFill>, rest: seq<Order>, s: Side, matched: nat, whole: seq<OrderFill>)
    requires s.Valid()
  {
    && matched == Total(fills)
    && (s.proRated ==> matched <= s.max)
    && fills + Run(rest, s, matched) == whole
  }

  lemma {:induction false} Advance(fills: seq<OrderFill>, rest: seq<Order>, s: Side, matched: nat, whole: seq<OrderFill>)
    requires s.Valid() && Progress(fills, rest, s, matched, whole)
    requires rest != [] && Eligible(rest[0], s.dir, s.price) && matched != s.max
    ensures var q := Share(rest[0], s, matched);
            if q == 0 then Progress(fills, rest[1..], s, matched, whole)
            else Progress(fills + [OrderFill(rest[0], s.price, q, rest[0].quantity - q)], rest[1..], s, matched + q, whole)
  {
    var q := Share(rest[0], s, matched);
    if q != 0 {
      var f := OrderFill(rest[0], s.price, q, rest[0].quantity - q);
      TotalAppend(fills, f);
      var tail := Run(rest[1..], s, matched + q);
      assert fills + ([f] + tail) == fills + [f] + tail;
    }
  }

  lemma {:induction false} ProgressStart(queue: seq<Order>, s: Side)
    requires s.Valid()
    ensures Progress([], queue, s, 0, Run(queue, s, 0))
  {
  }

  /** A loop may stop where the run does. */
  lemma {:induction false} ProgressEnd(fills: seq<OrderFill>, rest: seq<Order>, s: Side, matched: nat, whole: seq<OrderFill>)
    requires s.Valid() && Progress(fills, rest, s, matched, whole)
    requires rest == [] || !Eligible(rest[0], s.dir, s.price) || matched == s.max
    ensures fills == whole && matched == Total(fills)
  {
    assert fills + [] == fills;
  }

  lemma {:induction false} ProgressCapped(fills: seq<OrderFill>, rest: seq<Order>, s: Side, matched: nat, whole: seq<OrderFill>)
    requires s.Valid() && Progress(fills, rest, s, matched, whole)
    ensures s.proRated ==> matched <= s.max
  {
  }

  // ---- the loops of the matcher ----

  function Reversed(orders: seq<Order>): (r: seq<Order>)
    ensures |r| == |orders|
    ensures forall i :: 0 <= i < |r| ==> r[i] == orders[|orders| - 1 - i]
  {
    if orders == [] then [] else [orders[|orders| - 1]] + Reversed(orders[..|orders| - 1])
  }

  lemma {:induction false} BackwardStep(orders: seq<Order>, i: nat)
    requires i < |orders|
    ensures Reversed(orders[..i + 1]) == [orders[i]] + Reversed(orders[..i])
    ensures Reversed(orders[..i + 1])[1..] == Reversed(orders[..i])
  {
    assert orders[..i + 1][..i] == orders[..i];
  }

  /** One step of either loop: the decimal computation of a share. */
  method ShareDec(order: Order, proRated: bool, ratio: nat, max: nat, matchedVolume: nat, ghost s: Side, ghost matched: nat)
    returns (fillQuantity: nat)
    requires s.Valid() && s.proRated == proRated && s.ratio == ratio
    requires max == FromInt(s.max) && matchedVolume == FromInt(matched)
    requires proRated ==> matched <= s.max
    ensures fillQuantity == Share(order, s, matched)
  {
    fillQuantity := order.quantity;
    if proRated {
      var orderQtyDec := FromInt(fillQuantity);
      orderQtyDec := Mul(orderQtyDec, ratio);
      MulInt(order.quantity, ratio);
      orderQtyDec := Ceil(orderQtyDec);
      CeilIsCeilInt(Product(order.quantity, ratio));
      if matchedVolume + orderQtyDec > max {
        orderQtyDec := max - matchedVolume;
        ChopExact(s.max - matched);
      } else {
        ChopExact(CeilInt(Product(order.quantity, ratio)));
      }
      fillQuantity := RoundInt(orderQtyDec);
    }
  }

  /** Bids fill from the end of the sorted list: highest price first, lower id first. */
  method GetBidOrderFills(bids: seq<Order>, state: ClearanceState) returns (fills: seq<OrderFill>, matchedVolume: nat)
    requires WellFormed(state)
    ensures fills == Run(Reversed(bids), BidSide(state), 0)
    ensures matchedVolume == FromInt(Total(fills))
  {
    hide Run, Progress, Total, Share, Reversed, Eligible, TruncateInt;
    ghost var s := BidSide(state);
    ghost var whole := Run(Reversed(bids), s, 0);
    ghost var matched := 0;
    fills, matchedVolume := [], 0;
    var proRataGTOne := state.proRata > ONE;
    var i := |bids| - 1;
    assert bids[..i + 1] == bids;
    ProgressStart(Reversed(bids), s);
    while i >= 0
      invariant -1 <= i < |bids|
      invariant matchedVolume == FromInt(matched)
      invariant Progress(fills, Reversed(bids[..i + 1]), s, matched, whole)
    {
      var order := bids[i];
      BackwardStep(bids, i);
      ProgressCapped(fills, Reversed(bids[..i + 1]), s, matched, whole);
      BidEligible(order, s.price);
      if order.price < state.price || matchedVolume == state.maxBidVolume {
        break;
      }
      var fillQuantity := ShareDec(order, !proRataGTOne, state.proRata, state.maxBidVolume, matchedVolume, s, matched);
      Advance(fills, Reversed(bids[..i + 1]), s, matched, whole);
      i := i - 1;
      if fillQuantity == 0 {
        continue;
      }
      matchedVolume := matchedVolume + FromInt(fillQuantity);
      matched := matched + fillQuantity;
      fills := fills + [OrderFill(order, state.price, fillQuantity, order.quantity - fillQuantity)];
    }
    ProgressEnd(fills, Reversed(bids[..i + 1]), s, matched, whole);
  }

  lemma {:induction false} BidEligible(o: Order, price: nat)
    ensures Eligible(o, Bid, price) <==> o.price >= price
  {
  }

  lemma {:induction false} AskEligible(o: Order, price: nat)
    ensures Eligible(o, Ask, price) <==> o.price <= price
  {
  }

  /** Asks fill from the start of the sorted list: lowest price first, lower id first. */
  method GetAskOrderFills(asks: seq<Order>, state: ClearanceState) returns (fills: seq<OrderFill>, matchedVolume: nat)
    requires WellFormed(state)
    ensures fills == Run(asks, AskSide(state), 0)
    ensures matchedVolume == FromInt(Total(fills))
  {
    hide Run, Progress, Total, Share, Eligible, TruncateInt;
    ghost var s := AskSide(state);
    ghost var whole := Run(asks, s, 0);
    ghost var matched := 0;
    fills, matchedVolume := [], 0;
    var proRataGTOne := state.proRata > ONE;
    var i := 0;
    ProgressStart(asks, s);
    while i < |asks|
      invariant 0 <= i <= |asks|
      invariant matchedVolume == FromInt(matched)
      invariant Progress(fills, asks[i..], s, matched, whole)
    {
      var order := asks[i];
      assert asks[i..][1..] == asks[i + 1..];
      ProgressCapped(fills, asks[i..], s, matched, whole);
      AskEligible(order, s.price);
      if order.price > state.price || matchedVolume == state.maxAskVolume {
        break;
      }
      var fillQuantity := ShareDec(order, proRataGTOne, state.proRataInvert, state.maxAskVolume, matchedVolume, s, matched);
      Advance(fills, asks[i..], s, matched, whole);
      i := i + 1;
      if fillQuantity == 0 {
        continue;
      }
      matchedVolume := matchedVolume + FromInt(fillQuantity);
      matched := matched + fillQuantity;
      fills := fills + [OrderFill(order, state.price, fillQuantity, order.quantity - fillQuantity)];
    }
    ProgressEnd(fills, asks[i..], s, matched, whole);
  }

  // ---- properties of a fill run ----

  /** The orders that trade at the price come first in the queue. */
  ghost predicate EligibleFirst(queue: seq<Order>, dir: Direction, price: nat) {
    forall i, j :: 0 <= i < j < |queue| && Eligible(queue[j], dir, price) ==> Eligible(queue[i], dir, price)
  }

  lemma {:induction false} EligibleTail(queue: seq<Order>, dir: Direction, price: nat)
    requires EligibleFirst(queue, dir, price) && queue != []
    ensures EligibleFirst(queue[1..], dir, price)
    ensures !Eligible(queue[0], dir, price) ==> Volume(queue, dir, price) == 0
  {
    if !Eligible(queue[0], dir, price) {
      VolumeZero(queue, dir, price);
    }
  }

  ghost predicate CanShare(s: Side) {
    s.Valid() && (s.proRated ==> s.ratio > 0 || s.max == 0)
  }

  lemma {:induction false} SharePositive(o: Order, s: Side, matched: nat)
    requires CanShare(s) && o.quantity > 0
    requires s.proRated ==> matched < s.max
    ensures Share(o, s, matched) > 0
  {
    if s.proRated {
      ProductCommutes(o.quantity, s.ratio);
      ProductMono(s.ratio, 1, o.quantity);
      ProductOfConstant(s.ratio, 1);
      CeilIsCeilInt(Product(o.quantity, s.ratio));
    }
  }

  /**
    Fills are a prefix of the queue, without gaps: each order trades at the clearance price,
    its quantity splits into a positive filled part and the rest, and only the last fill can
    get less than its full share.
   */
  lemma {:induction false} RunIsPrefix(queue: seq<Order>, s: Side, matched: nat)
    requires CanShare(s) && Positive(queue)
    requires s.proRated ==> matched <= s.max
    ensures var fills := Run(queue, s, matched);
            && |fills| <= |queue|
            && forall k :: 0 <= k < |fills| ==>
                 && fills[k].order == queue[k] && Eligible(queue[k], s.dir, s.price)
                 && fills[k].clearancePrice == s.price
                 && fills[k].filled > 0 && fills[k].filled + fills[k].unfilled == queue[k].quantity
                 && (!s.proRated ==> fills[k].unfilled == 0)
                 && (s.proRated && k < |fills| - 1 ==> fills[k].filled == CeilInt(Product(queue[k].quantity, s.ratio)))
  {
    if queue != [] && Eligible(queue[0], s.dir, s.price) && matched != s.max {
      SharePositive(queue[0], s, matched);
      var q := Share(queue[0], s, matched);
      RunIsPrefix(queue[1..], s, matched + q);
      assert Run(queue, s, matched)[1..] == Run(queue[1..], s, matched + q);
    }
  }

  /** A side that is not pro-rated fills every order that trades, in full. */
  lemma {:induction false} FullRun(queue: seq<Order>, s: Side, matched: nat)
    requires s.Valid() && !s.proRated && Positive(queue)
    requires EligibleFirst(queue, s.dir, s.price)
    requires matched + Volume(queue, s.dir, s.price) <= s.max
    ensures var fills := Run(queue, s, matched);
            && Total(fills) == Volume(queue, s.dir, s.price)
            && |fills| <= |queue|
            && forall k :: 0 <= k < |queue| ==> (Eligible(queue[k], s.dir, s.price) <==> k < |fills|)
  {
    if queue != [] {
      EligibleTail(queue, s.dir, s.price);
      var q := queue[0].quantity;
      if Eligible(queue[0], s.dir, s.price) {
        FullRun(queue[1..], s, matched + q);
        assert Run(queue, s, matched)[1..] == Run(queue[1..], s, matched + q);
      } else {
        assert forall k :: 0 < k < |queue| ==> !Eligible(queue[k], s.dir, s.price);
      }
    }
  }

  /** A rounded-up share leaves no more to reach than the remaining orders can. */
  lemma {:induction false} ShareReach(room: nat, ratio: nat, quantity: nat, rest: nat, part: nat)
    requires ONE * room < Product(quantity + rest, ratio) + ONE
    requires part == CeilInt(Product(quantity, ratio)) <= room
    ensures ONE * (room - part) < Product(rest, ratio) + ONE
  {
    CeilIsCeilInt(Product(quantity, ratio));
    SumProduct(quantity, rest, ratio);
  }

  /** A pro-rated side clears exactly its maximum, as long as the rounded-up shares can reach it. */
  lemma {:induction false} ProRatedRun(queue: seq<Order>, s: Side, matched: nat)
    requires s.Valid() && s.proRated && matched <= s.max
    requires EligibleFirst(queue, s.dir, s.price)
    requires ONE * (s.max - matched) < Product(Volume(queue, s.dir, s.price), s.ratio) + ONE
    ensures matched + Total(Run(queue, s, matched)) == s.max
  {
    if queue != [] {
      EligibleTail(queue, s.dir, s.price);
    }
    if queue == [] || !Eligible(queue[0], s.dir, s.price) {
      assert Volume(queue, s.dir, s.price) == 0;
    } else if matched != s.max {
      var rest := queue[1..];
      var part := CeilInt(Product(queue[0].quantity, s.ratio));
      var q := Share(queue[0], s, matched);
      if matched + part <= s.max {
        ShareReach(s.max - matched, s.ratio, queue[0].quantity, Volume(rest, s.dir, s.price), part);
        ProRatedRun(rest, s, matched + part);
      } else {
        assert Run(rest, s, s.max) == [];
      }
      if q != 0 {
        assert Run(queue, s, matched)[1..] == Run(rest, s, matched + q);
      }
    }
  }

  /** The maximum of a pro-rated side is within reach. */
  lemma {:induction false} MaxInReach(volume: nat, ratio: nat, max: nat)
    requires max == Chop(Product(volume, ratio))
    ensures ONE * max < Product(volume, ratio) + ONE
  {
    ChopBound(Product(volume, ratio));
  }

  /** The total of the bids is the volume that the clearance arithmetic assigns to that side. */
  lemma {:induction false} MatchedBids(queue: seq<Order>, state: ClearanceState, supply: nat, demand: nat)
    requires IsStateOf(state, state.price, supply, demand)
    requires Positive(queue) && EligibleFirst(queue, Bid, state.price)
    requires demand == Volume(queue, Bid, state.price)
    ensures WellFormed(state)
    ensures Total(Run(queue, BidSide(state), 0)) == ClearedBid(supply, demand)
  {
    StateIsWellFormed(state, state.price, supply, demand);
    if state.proRata > ONE {
      UncappedSide(supply, demand);
      FullRun(queue, BidSide(state), 0);
    } else {
      MaxVolumes(supply, demand);
      MaxInReach(demand, state.proRata, MaxBid(supply, demand));
      ProRatedRun(queue, BidSide(state), 0);
    }
  }

  lemma {:induction false} MatchedAsks(queue: seq<Order>, state: ClearanceState, supply: nat, demand: nat)
    requires IsStateOf(state, state.price, supply, demand)
    requires Positive(queue) && EligibleFirst(queue, Ask, state.price)
    requires supply == Volume(queue, Ask, state.price)
    ensures WellFormed(state)
    ensures Total(Run(queue, AskSide(state), 0)) == ClearedAsk(supply, demand)
  {
    StateIsWellFormed(state, state.price, supply, demand);
    if state.proRata > ONE {
      MaxVolumes(supply, demand);
      MaxInReach(supply, state.proRataInvert, MaxAsk(supply, demand));
      ProRatedRun(queue, AskSide(state), 0);
    } else {
      UncappedSide(supply, demand);
      FullRun(queue, AskSide(state), 0);
    }
  }

  /** Neither side's run can skip an order: a zero ratio only comes with a zero maximum. */
  lemma {:induction false} SidesCanShare(state: ClearanceState, supply: nat, demand: nat)
    requires IsStateOf(state, state.price, supply, demand)
    ensures CanShare(BidSide(state)) && CanShare(AskSide(state))
  {
    StateIsWellFormed(state, state.price, supply, demand);
    MaxVolumes(supply, demand);
    if state.proRataInvert == 0 {
      ProductOfConstant(supply, 0);
    }
  }

  // ---- priority ----

  /** Sorted bids read backwards, and sorted asks read forwards, are price-then-id priority queues. */
  ghost predicate Priority(queue: seq<Order>, dir: Direction) {
    forall i, j :: 0 <= i < j < |queue| ==>
      if queue[i].price == queue[j].price then queue[i].id <= queue[j].id
      else if dir == Bid then queue[i].price > queue[j].price
      else queue[i].price < queue[j].price
  }

  lemma {:induction false} SortedGivesPriority(orders: seq<Order>)
    ensures Sorted(Bid, orders) ==> Priority(Reversed(orders), Bid)
    ensures Sorted(Ask, orders) ==> Priority(orders, Ask)
  {
    if Sorted(Bid, orders) {
      var queue := Reversed(orders);
      forall i, j | 0 <= i < j < |queue|
        ensures if queue[i].price == queue[j].price then queue[i].id <= queue[j].id else queue[i].price > queue[j].price
      {
        assert !Less(Bid, orders[|orders| - 1 - i], orders[|orders| - 1 - j]);
      }
    }
    if Sorted(Ask, orders) {
      forall i, j | 0 <= i < j < |orders|
        ensures if orders[i].price == orders[j].price then orders[i].id <= orders[j].id else orders[i].price < orders[j].price
      {
        assert !Less(Ask, orders[j], orders[i]);
      }
    }
  }

  lemma {:induction false} PriorityEligibleFirst(queue: seq<Order>, dir: Direction, price: nat)
    requires Priority(queue, dir)
    ensures EligibleFirst(queue, dir, price)
  {
  }

  lemma {:induction false} ReversedContents(orders: seq<Order>)
    ensures multiset(Reversed(orders)) == multiset(orders)
  {
    if orders != [] {
      var init := orders[..|orders| - 1];
      ReversedContents(init);
      assert orders == init + [orders[|orders| - 1]];
    }
  }
}
