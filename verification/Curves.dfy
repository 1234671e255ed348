/**
  The supply-demand curve of a market: building it from the aggregates of both sides.
 */
module Curves {
  import opened Orders
  import opened Aggregates

  /** A curve point: the supply and demand quantities at a price. */
  datatype SDItem = SDItem(price: nat, supply: nat, demand: nat)

  datatype CurveError =
    | NoError
    | EmptySide      // one side has no orders
    | NotSorted      // internal: the aggregates are out of order
    | NotCrossing    // the highest bid is below the lowest ask

  ghost predicate AscendingItems(c: seq<SDItem>) {
    forall i, j :: 0 <= i < j < |c| ==> c[i].price < c[j].price
  }

  ghost function ItemPrices(c: seq<SDItem>): set<nat> {
    set k | 0 <= k < |c| :: c[k].price
  }

  /** One point per distinct price, ascending, with the quantities the aggregates show there. */
  ghost predicate IsCurve(c: seq<SDItem>, asks: seq<Aggregate>, bids: seq<Aggregate>) {
    && AscendingItems(c)
    && ItemPrices(c) == AggPrices(asks) + AggPrices(bids)
    && forall k :: 0 <= k < |c| ==>
         && c[k].supply == Step(asks, Ask, c[k].price)
         && c[k].demand == Step(bids, Bid, c[k].price)
  }

  /** The same, in terms of the orders themselves. */
  ghost predicate CurveOf(c: seq<SDItem>, asks: seq<Order>, bids: seq<Order>) {
    && AscendingItems(c)
    && ItemPrices(c) == Prices(asks) + Prices(bids)
    && forall k :: 0 <= k < |c| ==>
         && c[k].supply == Volume(asks, Ask, c[k].price)
         && c[k].demand == Volume(bids, Bid, c[k].price)
  }

  lemma {:induction false} CurveRefinesOrders(c: seq<SDItem>, askAggs: seq<Aggregate>, bidAggs: seq<Aggregate>, asks: seq<Order>, bids: seq<Order>)
    requires AggregatesOf(askAggs, asks, Ask) && AggregatesOf(bidAggs, bids, Bid)
    requires IsCurve(c, askAggs, bidAggs)
    ensures CurveOf(c, asks, bids)
  {
    forall k | 0 <= k < |c|
      ensures c[k].supply == Volume(asks, Ask, c[k].price)
      ensures c[k].demand == Volume(bids, Bid, c[k].price)
    {
      StepIsVolume(askAggs, asks, Ask, c[k].price);
      StepIsVolume(bidAggs, bids, Bid, c[k].price);
    }
  }

  /** A book has only one curve. */
  lemma {:induction false} CurveUnique(c: seq<SDItem>, d: seq<SDItem>, asks: seq<Order>, bids: seq<Order>)
    requires CurveOf(c, asks, bids) && CurveOf(d, asks, bids)
    ensures c == d
  {
    SamePrices(c, d);
    assert forall k :: 0 <= k < |c| ==> c[k].price == d[k].price ==> c[k] == d[k];
  }

  /** Two ascending lists with the same prices list them alike. */
  lemma {:induction false} SamePrices(c: seq<SDItem>, d: seq<SDItem>)
    requires AscendingItems(c) && AscendingItems(d) && ItemPrices(c) == ItemPrices(d)
    ensures |c| == |d| && forall k :: 0 <= k < |c| ==> c[k].price == d[k].price
  {
    NoPrices(c);
    NoPrices(d);
    if c != [] {
      var m, n := |c| - 1, |d| - 1;
      assert c[m].price in ItemPrices(d) && d[n].price in ItemPrices(c);
      InitPrices(c);
      InitPrices(d);
      SamePrices(c[..m], d[..n]);
      assert c == c[..m] + [c[m]] && d == d[..n] + [d[n]];
    }
  }

  lemma {:induction false} NoPrices(c: seq<SDItem>)
    ensures ItemPrices(c) == {} <==> c == []
  {
    if c != [] { assert c[0].price in ItemPrices(c); }
  }

  lemma {:induction false} InitPrices(c: seq<SDItem>)
    requires AscendingItems(c) && c != []
    ensures ItemPrices(c[..|c| - 1]) == ItemPrices(c) - {c[|c| - 1].price}
    ensures AscendingItems(c[..|c| - 1])
    ensures forall p :: p in ItemPrices(c) ==> p <= c[|c| - 1].price
  {
    var init := c[..|c| - 1];
    forall p | p in ItemPrices(c) && p != c[|c| - 1].price ensures p in ItemPrices(init) {
      var k :| 0 <= k < |c| && c[k].price == p;
      assert init[k].price == p;
    }
    forall p | p in ItemPrices(init) ensures p in ItemPrices(c) && p != c[|c| - 1].price {
      var k :| 0 <= k < |init| && init[k].price == p;
      assert c[k].price == p;
    }
  }

  // ---- merging ----

  /** The quantity entered at exactly `price`; the last entry counts. */
  function At(aggs: seq<Aggregate>, price: nat): nat {
    if aggs == [] then 0
    else if aggs[|aggs| - 1].price == price then aggs[|aggs| - 1].quantity
    else At(aggs[..|aggs| - 1], price)
  }

  /** The curve before back-filling: each side's own entries, zero everywhere else. */
  ghost predicate Merged(c: seq<SDItem>, asks: seq<Aggregate>, bids: seq<Aggregate>) {
    && AscendingItems(c)
    && ItemPrices(c) == AggPrices(asks) + AggPrices(bids)
    && forall k :: 0 <= k < |c| ==> c[k].supply == At(asks, c[k].price) && c[k].demand == At(bids, c[k].price)
  }

  lemma {:induction false} AtAppend(aggs: seq<Aggregate>, a: Aggregate, price: nat)
    ensures At(aggs + [a], price) == if price == a.price then a.quantity else At(aggs, price)
  {
    assert (aggs + [a])[..|aggs|] == aggs;
  }

  lemma {:induction false} AtMissing(aggs: seq<Aggregate>, price: nat)
    requires price !in AggPrices(aggs)
    ensures At(aggs, price) == 0
  {
    if aggs != [] {
      var init := aggs[..|aggs| - 1];
      assert aggs[|aggs| - 1].price in AggPrices(aggs);
      assert AggPrices(init) <= AggPrices(aggs) by {
        forall k | 0 <= k < |init| ensures init[k].price in AggPrices(aggs) {
          assert aggs[k].price in AggPrices(aggs);
        }
      }
      AtMissing(init, price);
    }
  }

  lemma {:induction false} AtIndex(aggs: seq<Aggregate>, k: nat)
    requires Ascending(aggs) && k < |aggs|
    ensures At(aggs, aggs[k].price) == aggs[k].quantity
  {
    if k < |aggs| - 1 {
      assert aggs[..|aggs| - 1][k] == aggs[k];
      AtIndex(aggs[..|aggs| - 1], k);
    }
  }

  /** The asks alone, one point per entry, are a merged curve without bids. */
  lemma {:induction false} AsksMerged(c: seq<SDItem>, asks: seq<Aggregate>)
    requires Ascending(asks) && |c| == |asks|
    requires forall k :: 0 <= k < |c| ==> c[k] == SDItem(asks[k].price, asks[k].quantity, 0)
    ensures Merged(c, asks, [])
  {
    forall k | 0 <= k < |c| ensures c[k].supply == At(asks, c[k].price) {
      AtIndex(asks, k);
    }
    forall p ensures p in ItemPrices(c) <==> p in AggPrices(asks) {
      if p in ItemPrices(c) {
        var k :| 0 <= k < |c| && c[k].price == p;
        assert asks[k].price == p;
      }
      if p in AggPrices(asks) {
        var k :| 0 <= k < |asks| && asks[k].price == p;
        assert c[k].price == p;
      }
    }
    assert AggPrices([]) == {};
  }

  ghost predicate SplitsAt(c: seq<SDItem>, idx: nat, price: nat) {
    && idx <= |c|
    && (forall k :: 0 <= k < idx ==> c[k].price < price)
    && (forall k :: idx <= k < |c| ==> c[k].price >= price)
  }

  lemma {:induction false} MergeExisting(c: seq<SDItem>, asks: seq<Aggregate>, bids: seq<Aggregate>, a: Aggregate, idx: nat)
    requires Merged(c, asks, bids)
    requires idx < |c| && c[idx].price == a.price
    ensures Merged(c[idx := c[idx].(demand := a.quantity)], asks, bids + [a])
  {
    var r := c[idx := c[idx].(demand := a.quantity)];
    forall p ensures p in ItemPrices(r) <==> p in ItemPrices(c) {
      if p in ItemPrices(c) {
        var k :| 0 <= k < |c| && c[k].price == p;
        assert r[k].price == p;
      }
    }
    assert a.price in ItemPrices(c);
    EndAggPrices(bids, a);
    forall k | 0 <= k < |r| ensures r[k].demand == At(bids + [a], r[k].price) {
      AtAppend(bids, a, r[k].price);
    }
  }

  lemma {:induction false} InsertPrices(c: seq<SDItem>, item: SDItem, idx: nat)
    requires idx <= |c|
    ensures ItemPrices(c[..idx] + [item] + c[idx..]) == ItemPrices(c) + {item.price}
  {
    var r := c[..idx] + [item] + c[idx..];
    assert r[idx] == item;
    forall p ensures p in ItemPrices(r) <==> p in ItemPrices(c) + {item.price} {
      if p in ItemPrices(c) {
        var k :| 0 <= k < |c| && c[k].price == p;
        assert r[if k < idx then k else k + 1].price == p;
      }
    }
  }

  lemma {:induction false} MergeNew(c: seq<SDItem>, asks: seq<Aggregate>, bids: seq<Aggregate>, a: Aggregate, idx: nat)
    requires Merged(c, asks, bids)
    requires SplitsAt(c, idx, a.price)
    requires idx < |c| ==> c[idx].price != a.price
    ensures Merged(c[..idx] + [SDItem(a.price, 0, a.quantity)] + c[idx..], asks, bids + [a])
  {
    var item := SDItem(a.price, 0, a.quantity);
    var r := c[..idx] + [item] + c[idx..];
    InsertPrices(c, item, idx);
    EndAggPrices(bids, a);
    assert a.price !in ItemPrices(c);
    AtMissing(asks, a.price);
    hide At, ItemPrices;
    forall k | 0 <= k < |r|
      ensures r[k].supply == At(asks, r[k].price) && r[k].demand == At(bids + [a], r[k].price)
    {
      AtAppend(bids, a, r[k].price);
      assert r[k] == if k < idx then c[k] else if k == idx then item else c[k - 1];
    }
    InsertAscends(c, item, idx);
  }

  lemma {:induction false} InsertAscends(c: seq<SDItem>, item: SDItem, idx: nat)
    requires AscendingItems(c) && SplitsAt(c, idx, item.price)
    requires idx < |c| ==> c[idx].price != item.price
    ensures AscendingItems(c[..idx] + [item] + c[idx..])
  {
  }

  // ---- back-filling ----

  /** The nearest non-zero supply at or before point k (the first point's own, failing that). */
  function FillLeft(c: seq<SDItem>, k: nat): nat
    requires k < |c|
  {
    if c[k].supply != 0 || k == 0 then c[k].supply else FillLeft(c, k - 1)
  }

  /** The nearest non-zero demand at or after point k (the last point's own, failing that). */
  function FillRight(c: seq<SDItem>, k: nat): nat
    requires k < |c|
    decreases |c| - k
  {
    if c[k].demand != 0 || k == |c| - 1 then c[k].demand else FillRight(c, k + 1)
  }

  ghost predicate PositiveAggs(aggs: seq<Aggregate>) {
    forall k :: 0 <= k < |aggs| ==> aggs[k].quantity > 0
  }

  /** At one of its own prices a non-empty entry is what both readings of the aggregates give. */
  lemma {:induction false} AtIsStep(aggs: seq<Aggregate>, dir: Direction, price: nat)
    requires Ascending(aggs) && PositiveAggs(aggs)
    ensures price in AggPrices(aggs) ==> At(aggs, price) == Step(aggs, dir, price) != 0
    ensures price !in AggPrices(aggs) ==> At(aggs, price) == 0
  {
    if price in AggPrices(aggs) {
      var k :| 0 <= k < |aggs| && aggs[k].price == price;
      AtIndex(aggs, k);
      var j := StepReads(aggs, dir, price);
      assert j == k;
    } else {
      AtMissing(aggs, price);
    }
  }

  lemma {:induction false} FillLeftIsStep(c: seq<SDItem>, asks: seq<Aggregate>, bids: seq<Aggregate>, k: nat)
    requires Merged(c, asks, bids) && Ascending(asks) && PositiveAggs(asks)
    requires k < |c|
    ensures FillLeft(c, k) == Step(asks, Ask, c[k].price)
  {
    AtIsStep(asks, Ask, c[k].price);
    if c[k].price !in AggPrices(asks) {
      forall i | 0 <= i < |asks| ensures asks[i].price <= c[k].price <==> k > 0 && asks[i].price <= c[k - 1].price {
        assert asks[i].price in AggPrices(asks);
        assert asks[i].price in ItemPrices(c);
        var m :| 0 <= m < |c| && c[m].price == asks[i].price;
        assert m != k;
      }
      if k == 0 {
        var j := StepReads(asks, Ask, c[k].price);
      } else {
        FillLeftIsStep(c, asks, bids, k - 1);
        StepSame(asks, Ask, c[k].price, c[k - 1].price);
      }
    }
  }

  lemma {:induction false} FillRightIsStep(c: seq<SDItem>, asks: seq<Aggregate>, bids: seq<Aggregate>, k: nat)
    requires Merged(c, asks, bids) && Ascending(bids) && PositiveAggs(bids)
    requires k < |c|
    ensures FillRight(c, k) == Step(bids, Bid, c[k].price)
    decreases |c| - k
  {
    AtIsStep(bids, Bid, c[k].price);
    if c[k].price !in AggPrices(bids) {
      forall i | 0 <= i < |bids|
        ensures bids[i].price >= c[k].price <==> k < |c| - 1 && bids[i].price >= c[k + 1].price
      {
        assert bids[i].price in AggPrices(bids);
        assert bids[i].price in ItemPrices(c);
        var m :| 0 <= m < |c| && c[m].price == bids[i].price;
        assert m != k;
      }
      if k == |c| - 1 {
        var j := StepReads(bids, Bid, c[k].price);
      } else {
        FillRightIsStep(c, asks, bids, k + 1);
        StepSame(bids, Bid, c[k].price, c[k + 1].price);
      }
    }
  }

  ghost predicate Filled(c: seq<SDItem>, r: seq<SDItem>) {
    && |r| == |c|
    && forall k :: 0 <= k < |c| ==> r[k] == SDItem(c[k].price, FillLeft(c, k), FillRight(c, k))
  }

  /** The supplies before i are filled, the rest untouched, and `from` holds the last one filled in. */
  ghost predicate LeftFilled(c: seq<SDItem>, r: seq<SDItem>, i: nat, from: nat) {
    && |r| == |c| && from < i <= |c|
    && r[from].supply == FillLeft(c, i - 1)
    && (forall k :: 0 <= k < i ==> r[k].supply == FillLeft(c, k))
    && (forall k :: i <= k < |c| ==> r[k].supply == c[k].supply)
  }

  /** The demands from i on are filled, the rest untouched, and `from` holds the last one filled in. */
  ghost predicate RightFilled(c: seq<SDItem>, r: seq<SDItem>, i: nat, from: nat) {
    && |r| == |c| && i <= from < |c|
    && r[from].demand == FillRight(c, i)
    && (forall k :: i <= k < |c| ==> r[k].demand == FillRight(c, k))
    && (forall k :: 0 <= k < i ==> r[k].demand == c[k].demand)
  }

  lemma {:induction false} NothingFilled(c: seq<SDItem>)
    requires |c| > 0
    ensures LeftFilled(c, c, 1, 0) && RightFilled(c, c, |c| - 1, |c| - 1)
  {
  }

  lemma {:induction false} LeftStep(c: seq<SDItem>, r: seq<SDItem>, i: nat, from: nat)
    requires LeftFilled(c, r, i, from) && i < |c|
    ensures if r[i].supply == 0 then LeftFilled(c, r[i := r[i].(supply := r[from].supply)], i + 1, from)
            else LeftFilled(c, r, i + 1, i)
  {
  }

  lemma {:induction false} RightStep(c: seq<SDItem>, r: seq<SDItem>, i: nat, from: nat)
    requires RightFilled(c, r, i, from) && 0 < i
    ensures if r[i - 1].demand == 0 then RightFilled(c, r[i - 1 := r[i - 1].(demand := r[from].demand)], i - 1, from)
            else RightFilled(c, r, i - 1, i - 1)
  {
  }

  /** The two directions write different fields. */
  lemma {:induction false} StepsIndependent(c: seq<SDItem>, r: seq<SDItem>, i: nat, from: nat, k: nat, v: nat)
    requires |r| == |c| && k < |c|
    ensures RightFilled(c, r, i, from) ==> RightFilled(c, r[k := r[k].(supply := v)], i, from)
    ensures LeftFilled(c, r, i, from) ==> LeftFilled(c, r[k := r[k].(demand := v)], i, from)
  {
  }

  /** Merging and back-filling in both directions yields the curve. */
  lemma {:induction false} FilledIsCurve(c: seq<SDItem>, r: seq<SDItem>, asks: seq<Aggregate>, bids: seq<Aggregate>)
    requires Merged(c, asks, bids) && Filled(c, r)
    requires Ascending(asks) && PositiveAggs(asks)
    requires Ascending(bids) && PositiveAggs(bids)
    ensures IsCurve(r, asks, bids)
  {
    forall p ensures p in ItemPrices(r) <==> p in ItemPrices(c) {
      if p in ItemPrices(r) {
        var k :| 0 <= k < |r| && r[k].price == p;
        assert c[k].price == p;
      }
      if p in ItemPrices(c) {
        var k :| 0 <= k < |c| && c[k].price == p;
        assert r[k].price == p;
      }
    }
    forall k | 0 <= k < |r|
      ensures r[k].supply == Step(asks, Ask, r[k].price) && r[k].demand == Step(bids, Bid, r[k].price)
    {
      FillLeftIsStep(c, asks, bids, k);
      FillRightIsStep(c, asks, bids, k);
    }
  }

  // ---- the curve object ----

  /** `sort.Search` for the first point at or above a price. */
  method Search(c: seq<SDItem>, price: nat) returns (i: nat)
    ensures i <= |c|
    ensures AscendingItems(c) ==> SplitsAt(c, i, price)
  {
    i := 0;
    var j := |c|;
    while i < j
      invariant i <= j <= |c|
      invariant AscendingItems(c) ==> forall k :: 0 <= k < i ==> c[k].price < price
      invariant AscendingItems(c) ==> forall k :: j <= k < |c| ==> c[k].price >= price
    {
      var h := (i + j) / 2;
      if c[h].price >= price {
        j := h;
      } else {
        i := h + 1;
      }
    }
  }

  class SDCurves {
    var items: seq<SDItem>

    constructor ()
      ensures items == []
    {
      items := [];
    }

    method AddAskOrders(aggs: seq<Aggregate>)
      modifies this
      ensures |items| == |old(items)| + |aggs|
      ensures items[..|old(items)|] == old(items)
      ensures forall k :: 0 <= k < |aggs| ==>
                items[|old(items)| + k] == SDItem(aggs[k].price, aggs[k].quantity, 0)
    {
      for i := 0 to |aggs|
        invariant |items| == |old(items)| + i
        invariant items[..|old(items)|] == old(items)
        invariant forall k :: 0 <= k < i ==>
                    items[|old(items)| + k] == SDItem(aggs[k].price, aggs[k].quantity, 0)
      {
        items := items + [SDItem(aggs[i].price, aggs[i].quantity, 0)];
      }
    }

    /** Asks come first: the bids are merged into a curve that holds the asks only. */
    method AddBidOrders(aggs: seq<Aggregate>, ghost asks: seq<Aggregate>)
      modifies this
      ensures |items| >= |old(items)|
      ensures Merged(old(items), asks, []) ==> Merged(items, asks, aggs)
    {
      ghost var ok := Merged(items, asks, []);
      assert aggs[..0] == [];
      for i := 0 to |aggs|
        invariant |items| >= |old(items)|
        invariant ok ==> Merged(items, asks, aggs[..i])
      {
        var agg := aggs[i];
        var gtePriceIdx := Search(items, agg.price);
        assert aggs[..i + 1] == aggs[..i] + [agg];
        if gtePriceIdx != |items| && items[gtePriceIdx].price == agg.price {
          if ok { MergeExisting(items, asks, aggs[..i], agg, gtePriceIdx); }
          items := items[gtePriceIdx := items[gtePriceIdx].(demand := agg.quantity)];
        } else {
          if ok { MergeNew(items, asks, aggs[..i], agg, gtePriceIdx); }
          items := items[..gtePriceIdx] + [SDItem(agg.price, 0, agg.quantity)] + items[gtePriceIdx..];
        }
      }
      assert aggs[..|aggs|] == aggs;
    }

    /** Two indices walk the points in opposite directions, copying the last quantity seen into empty ones. */
    method FixZeroSupplyDemand()
      requires |items| > 0
      modifies this
      ensures Filled(old(items), items)
    {
      hide FillLeft, FillRight;
      ghost var c := items;
      NothingFilled(c);
      var its := items;
      var n := |its|;
      var askIdx, askFill := 1, 0;
      var bidIdx, bidFill := n - 2, n - 1;
      for i := 1 to n
        invariant |its| == n
        invariant askIdx == i && bidIdx == n - 1 - i
        invariant 0 <= askFill && 0 <= bidFill
        invariant forall k :: 0 <= k < n ==> its[k].price == c[k].price
        invariant LeftFilled(c, its, i, askFill)
        invariant RightFilled(c, its, n - i, bidFill)
      {
        LeftStep(c, its, i, askFill);
        StepsIndependent(c, its, n - i, bidFill, i, its[askFill].supply);
        if its[askIdx].supply == 0 {
          its := its[askIdx := its[askIdx].(supply := its[askFill].supply)];
        } else {
          askFill := askIdx;
        }
        askIdx := askIdx + 1;
        RightStep(c, its, n - i, bidFill);
        StepsIndependent(c, its, i + 1, askFill, n - i - 1, its[bidFill].demand);
        if its[bidIdx].demand == 0 {
          its := its[bidIdx := its[bidIdx].(demand := its[bidFill].demand)];
        } else {
          bidFill := bidIdx;
        }
        bidIdx := bidIdx - 1;
      }
      items := its;
    }
  }

  /** An entry and its predecessor are out of order only if both the price and the quantity say so. */
  predicate OutOfOrder(aggs: seq<Aggregate>, dir: Direction, i: nat)
    requires 0 < i < |aggs|
  {
    && aggs[i].price < aggs[i - 1].price
    && (if dir == Ask then aggs[i].quantity <= aggs[i - 1].quantity else aggs[i].quantity >= aggs[i - 1].quantity)
  }

  ghost predicate PassesSortCheck(aggs: seq<Aggregate>, dir: Direction) {
    forall i :: 0 < i < |aggs| ==> !OutOfOrder(aggs, dir, i)
  }

  /** `sort.SliceIsSorted` with the comparison used for the asks (or, mirrored, the bids). */
  method AggsSorted(aggs: seq<Aggregate>, dir: Direction) returns (sorted: bool)
    ensures sorted <==> PassesSortCheck(aggs, dir)
    ensures Ascending(aggs) ==> sorted
  {
    var i := |aggs| - 1;
    while i > 0
      invariant i <= |aggs| - 1
      invariant forall j :: i < j < |aggs| && 0 < j ==> !OutOfOrder(aggs, dir, j)
    {
      if OutOfOrder(aggs, dir, i) { return false; }
      i := i - 1;
    }
    return true;
  }

  method NewSDCurves(askAggs: seq<Aggregate>, bidAggs: seq<Aggregate>) returns (c: SDCurves, err: CurveError)
    ensures fresh(c)
    ensures err == EmptySide <==> |askAggs| == 0 || |bidAggs| == 0
    ensures err == NotSorted <==>
              && |askAggs| > 0 && |bidAggs| > 0
              && !(PassesSortCheck(askAggs, Ask) && PassesSortCheck(bidAggs, Bid))
    ensures Ascending(askAggs) && Ascending(bidAggs) ==> err != NotSorted
    ensures err == NotCrossing ==> |askAggs| > 0 && |bidAggs| > 0
    ensures |askAggs| > 0 && |bidAggs| > 0 && err != NotSorted ==>
              (err == NotCrossing <==> bidAggs[|bidAggs| - 1].price < askAggs[0].price)
    ensures err == NoError ==> |c.items| > 0
    ensures
      && err == NoError
      && Ascending(askAggs) && PositiveAggs(askAggs)
      && Ascending(bidAggs) && PositiveAggs(bidAggs)
      ==> IsCurve(c.items, askAggs, bidAggs)
  {
    c := new SDCurves();
    if |askAggs| == 0 || |bidAggs| == 0 { return c, EmptySide; }
    var askSorted := AggsSorted(askAggs, Ask);
    if !askSorted { return c, NotSorted; }
    var bidSorted := AggsSorted(bidAggs, Bid);
    if !bidSorted { return c, NotSorted; }
    if bidAggs[|bidAggs| - 1].price < askAggs[0].price { return c, NotCrossing; }

    c.AddAskOrders(askAggs);
    ghost var askItems := c.items;
    if Ascending(askAggs) { AsksMerged(askItems, askAggs); }
    c.AddBidOrders(bidAggs, askAggs);
    ghost var merged := c.items;
    c.FixZeroSupplyDemand();
    if Ascending(askAggs) && PositiveAggs(askAggs) && Ascending(bidAggs) && PositiveAggs(bidAggs) {
      FilledIsCurve(merged, c.items, askAggs, bidAggs);
    }
    err := NoError;
  }
}
