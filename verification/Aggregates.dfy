/**
  Cumulative aggregates: one entry per distinct price, ascending, holding the volume that
  trades at that price.
 */
module Aggregates {
  import opened Orders

  datatype Aggregate = Aggregate(price: nat, quantity: nat)

  ghost predicate Ascending(aggs: seq<Aggregate>) {
    forall i, j :: 0 <= i < j < |aggs| ==> aggs[i].price < aggs[j].price
  }

  ghost function AggPrices(aggs: seq<Aggregate>): set<nat> {
    set k | 0 <= k < |aggs| :: aggs[k].price
  }

  ghost predicate ExactVolumes(aggs: seq<Aggregate>, orders: seq<Order>, dir: Direction) {
    forall k :: 0 <= k < |aggs| ==> aggs[k].quantity == Volume(orders, dir, aggs[k].price)
  }

  /** `aggs` is the aggregation of `orders`: the order prices, once each, with exact volumes. */
  ghost predicate AggregatesOf(aggs: seq<Aggregate>, orders: seq<Order>, dir: Direction) {
    Ascending(aggs) && AggPrices(aggs) == Prices(orders) && ExactVolumes(aggs, orders, dir)
  }

  /** The matchers sort both sides by ascending price first. */
  ghost predicate PriceSorted(orders: seq<Order>) {
    forall i, j :: 0 <= i < j < |orders| ==> orders[i].price <= orders[j].price
  }

  lemma {:induction false} SortedByPrice(dir: Direction, orders: seq<Order>)
    requires Sorted(dir, orders)
    ensures PriceSorted(orders)
  {
    forall i, j | 0 <= i < j < |orders| ensures orders[i].price <= orders[j].price {
      assert !Less(dir, orders[j], orders[i]);
    }
  }

  lemma {:induction false} ConcatPrices(a: seq<Order>, b: seq<Order>)
    ensures Prices(a + b) == Prices(a) + Prices(b)
  {
    forall p ensures p in Prices(a + b) <==> p in Prices(a) + Prices(b) {
      if p in Prices(a) {
        var i :| 0 <= i < |a| && a[i].price == p;
        assert (a + b)[i].price == p;
      }
      if p in Prices(b) {
        var i :| 0 <= i < |b| && b[i].price == p;
        assert (a + b)[|a| + i].price == p;
      }
    }
  }

  lemma {:induction false} SinglePrice(o: Order)
    ensures Prices([o]) == {o.price}
  {
    assert [o][0].price in Prices([o]);
  }

  /** Overwriting an entry without changing its price, or adding one at either end. */
  lemma {:induction false} SetAggPrices(aggs: seq<Aggregate>, k: nat, a: Aggregate)
    requires k < |aggs| && aggs[k].price == a.price
    ensures AggPrices(aggs[k := a]) == AggPrices(aggs)
  {
    var r := aggs[k := a];
    forall p ensures p in AggPrices(r) <==> p in AggPrices(aggs) {
      if p in AggPrices(aggs) {
        var i :| 0 <= i < |aggs| && aggs[i].price == p;
        assert r[i].price == p;
      }
    }
  }

  lemma {:induction false} EndAggPrices(aggs: seq<Aggregate>, a: Aggregate)
    ensures AggPrices([a] + aggs) == AggPrices(aggs + [a]) == AggPrices(aggs) + {a.price}
  {
    forall p
      ensures p in AggPrices([a] + aggs) <==> p in AggPrices(aggs) + {a.price}
      ensures p in AggPrices(aggs + [a]) <==> p in AggPrices(aggs) + {a.price}
    {
      assert ([a] + aggs)[0].price == a.price;
      assert (aggs + [a])[|aggs|].price == a.price;
      if p in AggPrices(aggs) {
        var i :| 0 <= i < |aggs| && aggs[i].price == p;
        assert ([a] + aggs)[i + 1].price == p;
        assert (aggs + [a])[i].price == p;
      }
    }
  }

  function AddBid(aggs: seq<Aggregate>, o: Order): (r: seq<Aggregate>)
    requires aggs != []
  {
    var a := Aggregate(o.price, aggs[0].quantity + o.quantity);
    if aggs[0].price == o.price then aggs[0 := a] else [a] + aggs
  }

  lemma {:induction false} AddBidPrices(aggs: seq<Aggregate>, o: Order, rest: seq<Order>)
    requires AggPrices(aggs) == Prices(rest) && aggs != []
    ensures AggPrices(AddBid(aggs, o)) == Prices([o] + rest)
  {
    var a := Aggregate(o.price, aggs[0].quantity + o.quantity);
    if aggs[0].price == o.price {
      SetAggPrices(aggs, 0, a);
      assert o.price in AggPrices(aggs);
    } else {
      EndAggPrices(aggs, a);
    }
    SinglePrice(o);
    ConcatPrices([o], rest);
  }

  /** One more bid at or below the lowest price keeps the list an aggregation. */
  lemma {:induction false} AddBidAggregates(aggs: seq<Aggregate>, o: Order, rest: seq<Order>)
    requires AggregatesOf(aggs, rest, Bid) && aggs != []
    requires o.price <= aggs[0].price
    ensures AggregatesOf(AddBid(aggs, o), [o] + rest, Bid)
  {
    AddBidPrices(aggs, o, rest);
    assert ([o] + rest)[1..] == rest;
    forall i | 0 <= i < |rest| ensures rest[i].price >= aggs[0].price {
      assert rest[i].price in AggPrices(aggs);
    }
    VolumeSame(rest, Bid, o.price, aggs[0].price);
  }

  lemma {:induction false} NoAggregates(dir: Direction)
    ensures AggregatesOf([], [], dir)
  {
  }

  lemma {:induction false} SingleAggregate(o: Order, dir: Direction)
    ensures AggregatesOf([Aggregate(o.price, o.quantity)], [o], dir)
  {
    assert [o][1..] == [];
    SinglePrice(o);
    assert [Aggregate(o.price, o.quantity)][0].price in AggPrices([Aggregate(o.price, o.quantity)]);
  }

  lemma {:induction false} BidStep(aggs: seq<Aggregate>, orders: seq<Order>, i: nat)
    requires PriceSorted(orders) && i < |orders| && aggs != [] && AggregatesOf(aggs, orders[i + 1..], Bid)
    ensures AggregatesOf(AddBid(aggs, orders[i]), orders[i..], Bid)
  {
    NextPrice(aggs, orders[i + 1..], 0, orders[i].price);
    AddBidAggregates(aggs, orders[i], orders[i + 1..]);
    hide AggregatesOf, AddBid, PriceSorted;
    assert orders[i..] == [orders[i]] + orders[i + 1..];
  }

  method NewBidOrderAggregates(orders: seq<Order>) returns (aggs: seq<Aggregate>)
    requires PriceSorted(orders)
    ensures AggregatesOf(aggs, orders, Bid)
    ensures |orders| > 0 ==> |aggs| > 0
  {
    hide AggregatesOf, PriceSorted;
    aggs := [];
    NoAggregates(Bid);
    var lastIdx := |orders| - 1;
    if lastIdx < 0 { return; }
    aggs := [Aggregate(orders[lastIdx].price, orders[lastIdx].quantity)];
    SingleAggregate(orders[lastIdx], Bid);
    assert orders[lastIdx..] == [orders[lastIdx]];
    var i := |orders| - 2;
    while i >= 0
      invariant -1 <= i <= |orders| - 2
      invariant AggregatesOf(aggs, orders[i + 1..], Bid)
      invariant |aggs| > 0
    {
      var order := orders[i];
      BidStep(aggs, orders, i);
      if aggs[0].price == order.price {
        aggs := aggs[0 := Aggregate(aggs[0].price, aggs[0].quantity + order.quantity)];
      } else {
        aggs := [Aggregate(order.price, aggs[0].quantity + order.quantity)] + aggs;
      }
      i := i - 1;
    }
    assert orders[0..] == orders;
  }

  function AddAsk(aggs: seq<Aggregate>, o: Order): (r: seq<Aggregate>)
    requires aggs != []
  {
    var last := |aggs| - 1;
    var a := Aggregate(o.price, aggs[last].quantity + o.quantity);
    if aggs[last].price == o.price then aggs[last := a] else aggs + [a]
  }

  lemma {:induction false} AddAskPrices(aggs: seq<Aggregate>, o: Order, init: seq<Order>)
    requires AggPrices(aggs) == Prices(init) && aggs != []
    ensures AggPrices(AddAsk(aggs, o)) == Prices(init + [o])
  {
    var last := |aggs| - 1;
    var a := Aggregate(o.price, aggs[last].quantity + o.quantity);
    if aggs[last].price == o.price {
      SetAggPrices(aggs, last, a);
      assert o.price in AggPrices(aggs);
    } else {
      EndAggPrices(aggs, a);
    }
    SinglePrice(o);
    ConcatPrices(init, [o]);
  }

  /** One more ask at or above the highest price keeps the list an aggregation. */
  lemma {:induction false} AddAskAggregates(aggs: seq<Aggregate>, o: Order, init: seq<Order>)
    requires AggregatesOf(aggs, init, Ask) && aggs != []
    requires aggs[|aggs| - 1].price <= o.price
    ensures AggregatesOf(AddAsk(aggs, o), init + [o], Ask)
  {
    AddAskPrices(aggs, o, init);
    var last := aggs[|aggs| - 1];
    forall i | 0 <= i < |init| ensures init[i].price <= last.price {
      assert init[i].price in AggPrices(aggs);
    }
    VolumeSame(init, Ask, o.price, last.price);
    var r := AddAsk(aggs, o);
    forall k | 0 <= k < |r| ensures r[k].quantity == Volume(init + [o], Ask, r[k].price) {
      VolumeConcat(init, [o], Ask, r[k].price);
      assert [o][1..] == [];
    }
  }

  /** The end of the list nearest the next order, when orders come sorted by price. */
  lemma {:induction false} NextPrice(aggs: seq<Aggregate>, orders: seq<Order>, k: nat, p: nat)
    requires AggPrices(aggs) == Prices(orders) && k < |aggs|
    ensures (forall i :: 0 <= i < |orders| ==> p <= orders[i].price) ==> p <= aggs[k].price
    ensures (forall i :: 0 <= i < |orders| ==> orders[i].price <= p) ==> aggs[k].price <= p
  {
    assert aggs[k].price in Prices(orders);
  }

  lemma {:induction false} AskStep(aggs: seq<Aggregate>, orders: seq<Order>, i: nat)
    requires PriceSorted(orders) && i < |orders| && aggs != [] && AggregatesOf(aggs, orders[..i], Ask)
    ensures AggregatesOf(AddAsk(aggs, orders[i]), orders[..i + 1], Ask)
  {
    NextPrice(aggs, orders[..i], |aggs| - 1, orders[i].price);
    AddAskAggregates(aggs, orders[i], orders[..i]);
    hide AggregatesOf, AddAsk, PriceSorted;
    assert orders[..i + 1] == orders[..i] + [orders[i]];
  }

  method NewAskOrderAggregates(orders: seq<Order>) returns (aggs: seq<Aggregate>)
    requires PriceSorted(orders)
    ensures AggregatesOf(aggs, orders, Ask)
    ensures |orders| > 0 ==> |aggs| > 0
  {
    hide AggregatesOf, PriceSorted;
    aggs := [];
    NoAggregates(Ask);
    if |orders| < 1 { return; }
    aggs := [Aggregate(orders[0].price, orders[0].quantity)];
    SingleAggregate(orders[0], Ask);
    assert orders[..1] == [orders[0]];
    for i := 1 to |orders|
      invariant AggregatesOf(aggs, orders[..i], Ask)
      invariant |aggs| > 0
    {
      var order := orders[i];
      var lastIdx := |aggs| - 1;
      AskStep(aggs, orders, i);
      ghost var next := AddAsk(aggs, order);
      if aggs[lastIdx].price == order.price {
        aggs := aggs[lastIdx := Aggregate(aggs[lastIdx].price, aggs[lastIdx].quantity + order.quantity)];
      } else {
        aggs := aggs + [Aggregate(order.price, aggs[lastIdx].quantity + order.quantity)];
      }
      assert aggs == next;
    }
    assert orders[..|orders|] == orders;
  }

  // ---- reading the aggregates at any price ----

  /** The volume the aggregates show at `price`: the last entry at or below it for asks, the first at or above it for bids. */
  function Step(aggs: seq<Aggregate>, dir: Direction, price: nat): nat {
    if aggs == [] then 0
    else
      match dir
      case Ask =>
        var last := aggs[|aggs| - 1];
        if last.price <= price then last.quantity else Step(aggs[..|aggs| - 1], dir, price)
      case Bid =>
        if aggs[0].price >= price then aggs[0].quantity else Step(aggs[1..], dir, price)
  }

  /** Where Step reads its value: an entry on the right side with nothing in between, or none at all. */
  lemma {:induction false} StepReads(aggs: seq<Aggregate>, dir: Direction, price: nat) returns (k: int)
    requires Ascending(aggs)
    ensures -1 <= k < |aggs|
    ensures k >= 0 ==> Step(aggs, dir, price) == aggs[k].quantity
    ensures k == -1 ==> Step(aggs, dir, price) == 0
    ensures dir == Ask ==> forall i :: 0 <= i < |aggs| ==> (aggs[i].price <= price <==> i <= k)
    ensures dir == Bid ==> forall i :: 0 <= i < |aggs| ==> (aggs[i].price >= price <==> (k >= 0 && i >= k))
  {
    if aggs == [] {
      return -1;
    }
    match dir {
      case Ask =>
        if aggs[|aggs| - 1].price <= price { return |aggs| - 1; }
        k := StepReads(aggs[..|aggs| - 1], dir, price);
        forall i | 0 <= i < |aggs| ensures aggs[i].price <= price <==> i <= k {
          if i < |aggs| - 1 { assert aggs[..|aggs| - 1][i] == aggs[i]; }
        }
      case Bid =>
        if aggs[0].price >= price { return 0; }
        k := StepReads(aggs[1..], dir, price);
        forall i | 0 <= i < |aggs|
          ensures aggs[i].price >= price <==> (k >= 0 && i >= k + 1)
        {
          if i > 0 { assert aggs[1..][i - 1] == aggs[i]; }
        }
        if k >= 0 { k := k + 1; }
    }
  }

  /** At every price, order price or not, the aggregates of some orders show the volume of those orders. */
  lemma {:induction false} StepIsVolume(aggs: seq<Aggregate>, orders: seq<Order>, dir: Direction, price: nat)
    requires AggregatesOf(aggs, orders, dir)
    ensures Step(aggs, dir, price) == Volume(orders, dir, price)
  {
    var k := StepReads(aggs, dir, price);
    if k >= 0 {
      forall i | 0 <= i < |orders|
        ensures Eligible(orders[i], dir, price) <==> Eligible(orders[i], dir, aggs[k].price)
      {
        assert orders[i].price in AggPrices(aggs);
      }
      VolumeSame(orders, dir, price, aggs[k].price);
    } else {
      forall i | 0 <= i < |orders| ensures !Eligible(orders[i], dir, price) {
        assert orders[i].price in AggPrices(aggs);
      }
      VolumeZero(orders, dir, price);
    }
  }

  /** Step only changes across a price of the aggregates. */
  lemma {:induction false} StepSame(aggs: seq<Aggregate>, dir: Direction, p: nat, q: nat)
    requires Ascending(aggs)
    requires forall k :: 0 <= k < |aggs| ==>
               if dir == Ask then (aggs[k].price <= p <==> aggs[k].price <= q)
               else (aggs[k].price >= p <==> aggs[k].price >= q)
    ensures Step(aggs, dir, p) == Step(aggs, dir, q)
  {
    var i := StepReads(aggs, dir, p);
    var j := StepReads(aggs, dir, q);
    if i >= 0 { assert aggs[i].price == aggs[i].price; }
    if j >= 0 { assert aggs[j].price == aggs[j].price; }
  }
}
