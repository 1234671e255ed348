/**
  The crossing point of a supply-demand curve, and the clearance state at that point.
 */
module CrossPoint {
  import opened Dec
  import opened Seqs
  import Sorting
  import opened Orders
  import opened Curves
  import opened Clearance

  /** The sign of supply minus demand. */
  function Balance(i: SDItem): int {
    if i.supply > i.demand then 1 else if i.supply == i.demand then 0 else -1
  }

  predicate HasVolumes(i: SDItem) {
    i.supply != 0 && i.demand != 0
  }

  function Gap(i: SDItem): nat {
    if i.supply > i.demand then i.supply - i.demand else i.demand - i.supply
  }

  // ---- what the search returns ----

  /** The first index, from `from` on, whose balance differs from its predecessor's; |c| if there is none. */
  ghost function FirstChange(c: seq<SDItem>, from: nat): (i: nat)
    requires 1 <= from
    ensures i < |c| ==> from <= i && Balance(c[i - 1]) != Balance(c[i])
    ensures i <= |c| || i == from
    ensures forall k :: from <= k < i && k < |c| ==> Balance(c[k - 1]) == Balance(c[k])
    decreases |c| - from
  {
    if from >= |c| then from
    else if Balance(c[from - 1]) != Balance(c[from]) then from
    else FirstChange(c, from + 1)
  }

  /** The end of the run of points, from j on, with the quantities of point i (the "corridor"). */
  ghost function CorridorEnd(c: seq<SDItem>, i: nat, j: nat): (e: nat)
    requires i <= j < |c|
    requires c[j].supply == c[i].supply && c[j].demand == c[i].demand
    ensures j <= e < |c|
    ensures c[e].supply == c[i].supply && c[e].demand == c[i].demand
    decreases |c| - j
  {
    if j + 1 < |c| && c[j + 1].supply == c[i].supply && c[j + 1].demand == c[i].demand
    then CorridorEnd(c, i, j + 1)
    else j
  }

  /** The price of crossing point i: the middle of its corridor, rounded down. */
  ghost function CorridorPrice(c: seq<SDItem>, i: nat): nat
    requires i < |c|
  {
    (c[i].price + c[CorridorEnd(c, i, i)].price) / 2
  }

  /** A point of least |supply - demand| among those with volumes; the zero point if there are none. */
  ghost predicate LeastGap(c: seq<SDItem>, r: SDItem) {
    if exists k :: 0 <= k < |c| && HasVolumes(c[k]) then
      && r in c && HasVolumes(r)
      && forall k :: 0 <= k < |c| && HasVolumes(c[k]) ==> Gap(r) <= Gap(c[k])
    else
      r == SDItem(0, 0, 0)
  }

  /** The search result, case by case. */
  ghost predicate IsCrossPoint(c: seq<SDItem>, r: SDItem)
    requires |c| > 0
  {
    var i := FirstChange(c, 1);
    if HasVolumes(c[0]) && Balance(c[0]) == 0 then r == c[0]
    else if i < |c| && HasVolumes(c[i]) then r == SDItem(CorridorPrice(c, i), c[i].supply, c[i].demand)
    else if i < |c| && HasVolumes(c[i - 1]) then r == c[i - 1]
    else LeastGap(c, r)
  }

  // ---- the search ----

  ghost predicate GapSorted(c: seq<SDItem>) {
    forall i, j :: 0 <= i < j < |c| ==> Gap(c[i]) <= Gap(c[j])
  }

  /** `sort.Slice` by gap. */
  method SortByGap(c: seq<SDItem>) returns (r: seq<SDItem>)
    ensures multiset(r) == multiset(c)
    ensures GapSorted(r)
  {
    var less := (a: SDItem, b: SDItem) => Gap(a) < Gap(b);
    r := Sorting.Sort(less, c);
    forall i, j | 0 <= i < j < |r| ensures Gap(r[i]) <= Gap(r[j]) {
      assert !less(r[j], r[i]);
    }
  }

  method FindLeastGap(c: seq<SDItem>) returns (r: SDItem)
    ensures LeastGap(c, r)
  {
    var sorted := SortByGap(c);
    for i := 0 to |sorted|
      invariant forall k :: 0 <= k < i ==> !HasVolumes(sorted[k])
    {
      if HasVolumes(sorted[i]) {
        r := sorted[i];
        var m := PermutationMember(sorted, c, i);
        forall k | 0 <= k < |c| && HasVolumes(c[k]) ensures Gap(r) <= Gap(c[k]) {
          var j := PermutationMember(c, sorted, k);
        }
        assert HasVolumes(c[m]);
        return;
      }
    }
    forall k | 0 <= k < |c| ensures !HasVolumes(c[k]) {
      var j := PermutationMember(c, sorted, k);
    }
    return SDItem(0, 0, 0);
  }

  /** The corridor loop: how far to the right the quantities of point i extend. */
  method CorridorRight(c: seq<SDItem>, i: nat) returns (e: nat)
    requires i < |c|
    ensures e == CorridorEnd(c, i, i)
  {
    e := i;
    while e + 1 < |c| && c[e + 1].supply == c[i].supply && c[e + 1].demand == c[i].demand
      invariant i <= e < |c|
      invariant c[e].supply == c[i].supply && c[e].demand == c[i].demand
      invariant CorridorEnd(c, i, e) == CorridorEnd(c, i, i)
    {
      e := e + 1;
    }
  }

  method GetCrossPoint(c: seq<SDItem>) returns (r: SDItem)
    requires |c| > 0
    ensures IsCrossPoint(c, r)
  {
    if c[0].supply == c[0].demand {
      if HasVolumes(c[0]) { return c[0]; }
    }
    var crossPointIdx, clearancePrice := -1, 0;
    var i := 1;
    while i < |c|
      invariant 1 <= i
      invariant FirstChange(c, i) == FirstChange(c, 1)
    {
      if Balance(c[i - 1]) != Balance(c[i]) {
        crossPointIdx, clearancePrice := i, c[i].price;
        var right := CorridorRight(c, i);
        if right != i {
          clearancePrice := (c[i].price + c[right].price) / 2;
        }
        break;
      }
      i := i + 1;
    }
    if crossPointIdx != -1 {
      var cur, prev := c[crossPointIdx], c[crossPointIdx - 1];
      if HasVolumes(cur) { return SDItem(clearancePrice, cur.supply, cur.demand); }
      if HasVolumes(prev) { return prev; }
    }
    r := FindLeastGap(c);
  }

  // ---- the book behind the curve ----

  /** A book that can trade: positive orders, some bid at or above some ask, and its curve. */
  ghost predicate Book(asks: seq<Order>, bids: seq<Order>, c: seq<SDItem>) {
    && CurveOf(c, asks, bids)
    && Positive(asks) && Positive(bids)
    && Crosses(asks, bids)
  }

  ghost predicate Crosses(asks: seq<Order>, bids: seq<Order>) {
    exists i, j :: 0 <= i < |asks| && 0 <= j < |bids| && asks[i].price <= bids[j].price
  }

  /** Along the curve supply never falls, demand never rises, and so the balance never falls. */
  lemma {:induction false} CurveMonotone(asks: seq<Order>, bids: seq<Order>, c: seq<SDItem>, i: nat, j: nat)
    requires CurveOf(c, asks, bids) && i <= j < |c|
    ensures c[i].supply <= c[j].supply && c[i].demand >= c[j].demand
    ensures Balance(c[i]) <= Balance(c[j])
  {
    assert c[i].price <= c[j].price;
    VolumeMonotone(asks, c[i].price, c[j].price);
    VolumeMonotone(bids, c[i].price, c[j].price);
  }

  /** Every order sits on a point. */
  lemma {:induction false} PointOf(asks: seq<Order>, bids: seq<Order>, c: seq<SDItem>, price: nat) returns (k: nat)
    requires CurveOf(c, asks, bids)
    requires price in Prices(asks) || price in Prices(bids)
    ensures k < |c| && c[k].price == price
  {
    assert price in ItemPrices(c);
    k :| 0 <= k < |c| && c[k].price == price;
  }

  /** No point is empty on both sides. */
  lemma {:induction false} PointHasOrder(asks: seq<Order>, bids: seq<Order>, c: seq<SDItem>, k: nat)
    requires Book(asks, bids, c) && k < |c|
    ensures c[k].price > 0
    ensures c[k].supply > 0 || c[k].demand > 0
    ensures c[k].price in Prices(asks) ==> c[k].supply > 0
    ensures c[k].price in Prices(bids) ==> c[k].demand > 0
  {
    assert c[k].price in ItemPrices(c);
    if c[k].price in Prices(asks) {
      var i :| 0 <= i < |asks| && asks[i].price == c[k].price;
      VolumeAtLeast(asks, Ask, c[k].price, i);
    }
    if c[k].price in Prices(bids) {
      var i :| 0 <= i < |bids| && bids[i].price == c[k].price;
      VolumeAtLeast(bids, Bid, c[k].price, i);
    }
  }

  /** Below point i, or past the last point, no price offers more supply than the point before. */
  lemma {:induction false} SupplyBefore(asks: seq<Order>, bids: seq<Order>, c: seq<SDItem>, i: nat, p: nat)
    requires Book(asks, bids, c) && 0 < i <= |c|
    requires i < |c| ==> p < c[i].price
    ensures Volume(asks, Ask, p) <= c[i - 1].supply
  {
    var q := c[i - 1].price;
    if p <= q {
      VolumeMonotone(asks, p, q);
    } else {
      forall k | 0 <= k < |asks| ensures Eligible(asks[k], Ask, p) <==> Eligible(asks[k], Ask, q) {
        assert asks[k].price in Prices(asks);
        var m := PointOf(asks, bids, c, asks[k].price);
      }
      VolumeSame(asks, Ask, p, q);
    }
  }

  /** From point i on, and everywhere when i is the first point, no price offers more demand than it. */
  lemma {:induction false} DemandFrom(asks: seq<Order>, bids: seq<Order>, c: seq<SDItem>, i: nat, p: nat)
    requires Book(asks, bids, c) && i < |c|
    requires i > 0 ==> c[i].price <= p
    ensures Volume(bids, Bid, p) <= c[i].demand
  {
    var q := c[i].price;
    if q <= p {
      VolumeMonotone(bids, q, p);
    } else {
      forall k | 0 <= k < |bids| ensures Eligible(bids[k], Bid, p) <==> Eligible(bids[k], Bid, q) {
        assert bids[k].price in Prices(bids);
        var m := PointOf(asks, bids, c, bids[k].price);
      }
      VolumeSame(bids, Bid, p, q);
    }
  }

  lemma {:induction false} SameBalance(c: seq<SDItem>, k: nat)
    requires k < |c| && k < FirstChange(c, 1)
    ensures Balance(c[k]) == Balance(c[0])
  {
    if k > 0 { SameBalance(c, k - 1); }
  }

  // ---- the cases of the search, on a trading book ----

  /** If the first point does not balance, the curve starts on one side. */
  lemma {:induction false} StartsUnbalanced(asks: seq<Order>, bids: seq<Order>, c: seq<SDItem>)
    requires Book(asks, bids, c) && |c| > 0
    requires !(HasVolumes(c[0]) && Balance(c[0]) == 0)
    ensures Balance(c[0]) != 0
  {
    PointHasOrder(asks, bids, c, 0);
  }

  /** At a change of balance demand no longer exceeds supply, and it did everywhere before. */
  lemma {:induction false} AtChange(asks: seq<Order>, bids: seq<Order>, c: seq<SDItem>)
    requires Book(asks, bids, c)
    requires FirstChange(c, 1) < |c|
    requires !(HasVolumes(c[0]) && Balance(c[0]) == 0)
    ensures var i := FirstChange(c, 1);
            && (forall k :: 0 <= k < i ==> Balance(c[k]) == -1)
            && Balance(c[i]) >= 0
            && c[i].supply > 0
            && (c[i].demand == 0 ==> HasVolumes(c[i - 1]))
  {
    var i := FirstChange(c, 1);
    StartsUnbalanced(asks, bids, c);
    SameBalance(c, i - 1);
    CurveMonotone(asks, bids, c, i - 1, i);
    forall k | 0 <= k < i ensures Balance(c[k]) == -1 { SameBalance(c, k); }
    PointHasOrder(asks, bids, c, i);
    if c[i].demand == 0 {
      LastBidPoint(asks, bids, c, i);
    }
  }

  /** Where demand has run out, the point before still has supply: some ask is below some bid. */
  lemma {:induction false} LastBidPoint(asks: seq<Order>, bids: seq<Order>, c: seq<SDItem>, i: nat)
    requires Book(asks, bids, c) && 0 < i < |c| && c[i].demand == 0
    ensures c[i - 1].supply > 0
  {
    var a, b :| 0 <= a < |asks| && 0 <= b < |bids| && asks[a].price <= bids[b].price;
    assert bids[b].price in Prices(bids);
    var m := PointOf(asks, bids, c, bids[b].price);
    if m >= i {
      CurveMonotone(asks, bids, c, i, m);
      PointHasOrder(asks, bids, c, m);
    }
    assert c[m].price <= c[i - 1].price;
    VolumeAtLeast(asks, Ask, c[i - 1].price, a);
  }

  /** Without a change of balance one end of the curve has the least gap, and any such point its quantities. */
  lemma {:induction false} NoChange(asks: seq<Order>, bids: seq<Order>, c: seq<SDItem>, r: SDItem)
    requires Book(asks, bids, c) && |c| > 0
    requires !(HasVolumes(c[0]) && Balance(c[0]) == 0)
    requires FirstChange(c, 1) >= |c|
    requires LeastGap(c, r)
    ensures var end := if Balance(c[0]) == 1 then c[0] else c[|c| - 1];
            && r in c && HasVolumes(r)
            && r.supply == end.supply && r.demand == end.demand
  {
    StartsUnbalanced(asks, bids, c);
    var e := if Balance(c[0]) == 1 then 0 else |c| - 1;
    forall k | 0 <= k < |c| ensures Balance(c[k]) == Balance(c[0]) { SameBalance(c, k); }
    EndHasVolumes(asks, bids, c, e);
    var k :| 0 <= k < |c| && c[k] == r;
    if e == 0 {
      CurveMonotone(asks, bids, c, e, k);
    } else {
      CurveMonotone(asks, bids, c, k, e);
    }
  }

  lemma {:induction false} EndHasVolumes(asks: seq<Order>, bids: seq<Order>, c: seq<SDItem>, e: nat)
    requires Book(asks, bids, c) && |c| > 0
    requires (e == 0 && Balance(c[0]) == 1) || (e == |c| - 1 && Balance(c[e]) == -1)
    ensures HasVolumes(c[e])
  {
    var a, b :| 0 <= a < |asks| && 0 <= b < |bids| && asks[a].price <= bids[b].price;
    assert asks[a].price in Prices(asks) && bids[b].price in Prices(bids);
    var i := PointOf(asks, bids, c, asks[a].price);
    var j := PointOf(asks, bids, c, bids[b].price);
    PointHasOrder(asks, bids, c, i);
    PointHasOrder(asks, bids, c, j);
    if e == 0 {
      CurveMonotone(asks, bids, c, 0, j);
    }
    if e == |c| - 1 {
      CurveMonotone(asks, bids, c, i, e);
    }
  }

  // ---- corridors ----

  /** Two neighbours with equal quantities are an ask-only price followed by a bid-only price. */
  lemma {:induction false} Neighbours(asks: seq<Order>, bids: seq<Order>, c: seq<SDItem>, k: nat)
    requires Book(asks, bids, c) && k + 1 < |c|
    requires c[k].supply == c[k + 1].supply && c[k].demand == c[k + 1].demand
    ensures c[k].price !in Prices(bids) && c[k + 1].price !in Prices(asks)
  {
    var p, q := c[k].price, c[k + 1].price;
    if q in Prices(asks) {
      var i :| 0 <= i < |asks| && asks[i].price == q;
      VolumeGrows(asks, Ask, p, q, i);
    }
    if p in Prices(bids) {
      var i :| 0 <= i < |bids| && bids[i].price == p;
      VolumeGrows(bids, Bid, q, p, i);
    }
  }

  /** An order that only trades at q makes the volume there strictly larger. */
  lemma {:induction false} VolumeGrows(orders: seq<Order>, dir: Direction, p: nat, q: nat, i: nat)
    requires i < |orders| && orders[i].quantity > 0
    requires dir == Ask ==> p <= q
    requires dir == Bid ==> p >= q
    requires !Eligible(orders[i], dir, p) && Eligible(orders[i], dir, q)
    ensures Volume(orders, dir, p) < Volume(orders, dir, q)
  {
    if i == 0 {
      if p <= q { VolumeMonotone(orders[1..], p, q); } else { VolumeMonotone(orders[1..], q, p); }
    } else {
      VolumeGrows(orders[1..], dir, p, q, i - 1);
    }
  }

  /** A corridor is at most two adjacent points long. */
  lemma {:induction false} CorridorIsShort(asks: seq<Order>, bids: seq<Order>, c: seq<SDItem>, i: nat)
    requires Book(asks, bids, c) && i < |c|
    ensures CorridorEnd(c, i, i) <= i + 1
  {
    assert i + 1 < |c| ==> c[i + 1].price in ItemPrices(c);
    if i + 2 < |c| && CorridorEnd(c, i, i) > i + 1 {
      assert CorridorEnd(c, i, i) == CorridorEnd(c, i, i + 1) == CorridorEnd(c, i, i + 2);
      Neighbours(asks, bids, c, i);
      Neighbours(asks, bids, c, i + 1);
    }
  }

  /** The corridor price lies in the corridor, so both volumes there are those of the point. */
  lemma {:induction false} CorridorVolumes(asks: seq<Order>, bids: seq<Order>, c: seq<SDItem>, i: nat)
    requires Book(asks, bids, c) && i < |c|
    ensures var p := CorridorPrice(c, i);
            && c[i].price <= p
            && (i + 1 < |c| ==> p < c[i + 1].price)
            && Volume(asks, Ask, p) == c[i].supply
            && Volume(bids, Bid, p) == c[i].demand
  {
    var e := CorridorEnd(c, i, i);
    var p := CorridorPrice(c, i);
    CorridorIsShort(asks, bids, c, i);
    assert c[i].price <= c[e].price;
    VolumeMonotone(asks, c[i].price, p);
    VolumeMonotone(asks, p, c[e].price);
    VolumeMonotone(bids, c[i].price, p);
    VolumeMonotone(bids, p, c[e].price);
  }

  // ---- the theorems ----

  /**
    Totality and soundness: on every trading book the search finds a priced point with both
    volumes non-zero, and those are the supply and demand of the raw orders at that price,
    even when it is no order's price.
   */
  lemma {:induction false} CrossPointSound(asks: seq<Order>, bids: seq<Order>, c: seq<SDItem>, r: SDItem)
    requires Book(asks, bids, c) && |c| > 0
    requires IsCrossPoint(c, r)
    ensures r.price > 0 && HasVolumes(r)
    ensures r.supply == Volume(asks, Ask, r.price)
    ensures r.demand == Volume(bids, Bid, r.price)
  {
    var i := FirstChange(c, 1);
    if HasVolumes(c[0]) && Balance(c[0]) == 0 {
      PointHasOrder(asks, bids, c, 0);
    } else if i < |c| {
      AtChange(asks, bids, c);
      CorridorVolumes(asks, bids, c, i);
      PointHasOrder(asks, bids, c, i);
      PointHasOrder(asks, bids, c, i - 1);
    } else {
      NoChange(asks, bids, c, r);
      var k :| 0 <= k < |c| && c[k] == r;
      PointHasOrder(asks, bids, c, k);
    }
  }

  /** The least-gap fallback decides only when the balance never changes. */
  lemma {:induction false} FallbackOnlyWithoutChange(asks: seq<Order>, bids: seq<Order>, c: seq<SDItem>)
    requires Book(asks, bids, c) && |c| > 0
    requires FirstChange(c, 1) < |c|
    ensures (HasVolumes(c[0]) && Balance(c[0]) == 0)
         || HasVolumes(c[FirstChange(c, 1)])
         || HasVolumes(c[FirstChange(c, 1) - 1])
  {
    if !(HasVolumes(c[0]) && Balance(c[0]) == 0) {
      AtChange(asks, bids, c);
    }
  }

  // ---- how far the curve determines the point ----

  ghost predicate SameVolumes(a: SDItem, b: SDItem) {
    a.supply == b.supply && a.demand == b.demand
  }

  /** The balance never changes, and the end of the curve with the least gap is a corridor of two points. */
  ghost predicate EndIsTied(c: seq<SDItem>)
    requires |c| > 0
  {
    && !(HasVolumes(c[0]) && Balance(c[0]) == 0)
    && FirstChange(c, 1) >= |c| >= 2
    && if Balance(c[0]) == 1 then SameVolumes(c[0], c[1]) else SameVolumes(c[|c| - 2], c[|c| - 1])
  }

  /** The volumes of the crossing point are determined; its price is too, except at a tied end. */
  lemma {:induction false} CrossPointUnique(asks: seq<Order>, bids: seq<Order>, c: seq<SDItem>, r: SDItem, s: SDItem)
    requires Book(asks, bids, c) && |c| > 0 && IsCrossPoint(c, r) && IsCrossPoint(c, s)
    ensures SameVolumes(r, s)
    ensures !EndIsTied(c) ==> r == s
  {
    hide Book, LeastGap;
    if !(HasVolumes(c[0]) && Balance(c[0]) == 0) {
      if FirstChange(c, 1) < |c| {
        FallbackOnlyWithoutChange(asks, bids, c);
      } else {
        NoChange(asks, bids, c, r);
        NoChange(asks, bids, c, s);
        if !EndIsTied(c) {
          AtEnd(asks, bids, c, r);
          AtEnd(asks, bids, c, s);
        }
      }
    }
  }

  /** Without a tie only the end itself has its volumes. */
  lemma {:induction false} AtEnd(asks: seq<Order>, bids: seq<Order>, c: seq<SDItem>, r: SDItem)
    requires Book(asks, bids, c) && |c| > 0 && r in c
    requires FirstChange(c, 1) >= |c| && !(HasVolumes(c[0]) && Balance(c[0]) == 0) && !EndIsTied(c)
    requires SameVolumes(r, if Balance(c[0]) == 1 then c[0] else c[|c| - 1])
    ensures r == if Balance(c[0]) == 1 then c[0] else c[|c| - 1]
  {
    hide Book;
    var k :| 0 <= k < |c| && c[k] == r;
    if Balance(c[0]) == 1 {
      if k > 0 {
        CurveMonotone(asks, bids, c, 0, 1) by { BookHasCurve(asks, bids, c); }
        CurveMonotone(asks, bids, c, 1, k) by { BookHasCurve(asks, bids, c); }
      }
    } else {
      var n := |c| - 1;
      if k < n {
        CurveMonotone(asks, bids, c, k, n - 1) by { BookHasCurve(asks, bids, c); }
        CurveMonotone(asks, bids, c, n - 1, n) by { BookHasCurve(asks, bids, c); }
      }
    }
  }

  lemma {:induction false} BookHasCurve(asks: seq<Order>, bids: seq<Order>, c: seq<SDItem>)
    requires Book(asks, bids, c)
    ensures CurveOf(c, asks, bids)
  {
  }

  /** At a tied end both points are valid results. */
  lemma {:induction false} TiedEndHasTwo(asks: seq<Order>, bids: seq<Order>, c: seq<SDItem>) returns (r: SDItem, s: SDItem)
    requires Book(asks, bids, c) && |c| > 0 && EndIsTied(c)
    ensures r in c && s in c && r.price < s.price && IsCrossPoint(c, r) && IsCrossPoint(c, s)
  {
    var e := if Balance(c[0]) == 1 then 0 else |c| - 1;
    StartsUnbalanced(asks, bids, c);
    forall k | 0 <= k < |c| ensures Balance(c[k]) == Balance(c[0]) { SameBalance(c, k); }
    EndHasVolumes(asks, bids, c, e);
    forall k | 0 <= k < |c| ensures Gap(c[e]) <= Gap(c[k]) {
      if e == 0 { CurveMonotone(asks, bids, c, 0, k); } else { CurveMonotone(asks, bids, c, k, e); }
    }
    r, s := if e == 0 then c[0] else c[e - 1], if e == 0 then c[1] else c[e];
    assert LeastGap(c, r) && LeastGap(c, s);
  }

  function Min(a: nat, b: nat): nat {
    if a <= b then a else b
  }

  /** No price, order price or not, would let more volume trade. */
  ghost predicate Optimal(asks: seq<Order>, bids: seq<Order>, r: SDItem) {
    forall p: nat :: Min(Volume(asks, Ask, p), Volume(bids, Bid, p)) <= Min(r.supply, r.demand)
  }

  /** The balance jumps from demand-heavy to supply-heavy, and the point before the jump trades more. */
  ghost predicate JumpLosesVolume(c: seq<SDItem>)
    requires |c| > 0
  {
    var i := FirstChange(c, 1);
    && i < |c|
    && Balance(c[i - 1]) == -1 && Balance(c[i]) == 1
    && 0 < c[i].demand < c[i - 1].supply
  }

  /** The search maximises the traded volume over all prices, except exactly at such a jump. */
  lemma {:induction false} OptimalIff(asks: seq<Order>, bids: seq<Order>, c: seq<SDItem>, r: SDItem)
    requires Book(asks, bids, c) && |c| > 0
    requires IsCrossPoint(c, r)
    ensures Optimal(asks, bids, r) <==> !JumpLosesVolume(c)
  {
    if JumpLosesVolume(c) {
      var i := FirstChange(c, 1);
      SameBalance(c, i - 1);
      var p := c[i - 1].price;
      assert Min(Volume(asks, Ask, p), Volume(bids, Bid, p)) == c[i - 1].supply;
    } else {
      forall p: nat ensures Min(Volume(asks, Ask, p), Volume(bids, Bid, p)) <= Min(r.supply, r.demand) {
        OptimalAt(asks, bids, c, r, p);
      }
    }
  }

  lemma {:induction false} OptimalAt(asks: seq<Order>, bids: seq<Order>, c: seq<SDItem>, r: SDItem, p: nat)
    requires Book(asks, bids, c) && |c| > 0
    requires IsCrossPoint(c, r) && !JumpLosesVolume(c)
    ensures Min(Volume(asks, Ask, p), Volume(bids, Bid, p)) <= Min(r.supply, r.demand)
  {
    var i := FirstChange(c, 1);
    if HasVolumes(c[0]) && Balance(c[0]) == 0 {
      DemandFrom(asks, bids, c, 0, p);
    } else if i < |c| {
      OptimalAtChange(asks, bids, c, r, p);
    } else {
      NoChange(asks, bids, c, r);
      StartsUnbalanced(asks, bids, c);
      SameBalance(c, |c| - 1);
      SupplyBefore(asks, bids, c, |c|, p);
      DemandFrom(asks, bids, c, 0, p);
    }
  }

  lemma {:induction false} OptimalAtChange(asks: seq<Order>, bids: seq<Order>, c: seq<SDItem>, r: SDItem, p: nat)
    requires Book(asks, bids, c)
    requires FirstChange(c, 1) < |c| && !(HasVolumes(c[0]) && Balance(c[0]) == 0)
    requires IsCrossPoint(c, r) && !JumpLosesVolume(c)
    ensures Min(Volume(asks, Ask, p), Volume(bids, Bid, p)) <= Min(r.supply, r.demand)
  {
    var i := FirstChange(c, 1);
    AtChange(asks, bids, c);
    CurveMonotone(asks, bids, c, i - 1, i);
    if p < c[i].price {
      SupplyBefore(asks, bids, c, i, p);
    } else {
      DemandFrom(asks, bids, c, i, p);
    }
  }

  /** Where the search does lose volume it sits at the lowest point whose supply exceeds demand, or inside its corridor. */
  lemma {:induction false} AtJump(asks: seq<Order>, bids: seq<Order>, c: seq<SDItem>, r: SDItem)
    requires Book(asks, bids, c) && |c| > 0
    requires IsCrossPoint(c, r) && JumpLosesVolume(c)
    ensures var i := FirstChange(c, 1);
            && (forall k :: 0 <= k < i ==> c[k].supply < c[k].demand)
            && c[i].supply > c[i].demand
            && c[i].price <= r.price
            && (i + 1 < |c| ==> r.price < c[i + 1].price)
  {
    var i := FirstChange(c, 1);
    SameBalance(c, i - 1);
    AtChange(asks, bids, c);
    CorridorVolumes(asks, bids, c, i);
    forall k | 0 <= k < i ensures c[k].supply < c[k].demand { SameBalance(c, k); }
  }

  // ---- the clearance state ----

  datatype ClearanceOutcome =
    | Cleared(state: ClearanceState)
    | EmptyCurve     // plain error
    | EmptyPoint     // internal error
    | DivideByZero   // the ratio rounds to zero and its inverse panics

  method GetClearanceState(c: seq<SDItem>) returns (r: ClearanceOutcome, ghost point: SDItem)
    ensures r == EmptyCurve <==> |c| == 0
    ensures |c| > 0 ==> IsCrossPoint(c, point)
    ensures |c| > 0 ==> (r == EmptyPoint <==> point.price == 0 || !HasVolumes(point))
    ensures r == DivideByZero ==> HasVolumes(point) && ProRata(point.supply, point.demand) == 0
    ensures r.Cleared? ==> HasVolumes(point) && IsStateOf(r.state, point.price, point.supply, point.demand)
  {
    if |c| == 0 {
      return EmptyCurve, SDItem(0, 0, 0);
    }
    var crossPoint := GetCrossPoint(c);
    point := crossPoint;
    if crossPoint.price == 0 || crossPoint.supply == 0 || crossPoint.demand == 0 {
      return EmptyPoint, point;
    }
    var demandDec, supplyDec := FromInt(crossPoint.demand), FromInt(crossPoint.supply);
    var proRata := Quo(supplyDec, demandDec);
    if proRata == 0 {
      return DivideByZero, point;
    }
    var proRataInvert := Quo(ONE, proRata);
    var maxBidVolume := FromInt(RoundInt(Mul(demandDec, proRata)));
    var maxAskVolume := FromInt(RoundInt(Mul(supplyDec, proRataInvert)));
    r := Cleared(ClearanceState(crossPoint.price, proRata, proRataInvert, maxBidVolume, maxAskVolume));
  }

  // ---- a book where the search does lose volume ----

  const LOSING_ASKS := [Order(0, 0, 0, Ask, 10, 5, 0), Order(1, 0, 0, Ask, 11, 5, 0)]
  const LOSING_BIDS := [Order(2, 0, 0, Bid, 10, 9, 0), Order(3, 0, 0, Bid, 11, 1, 0)]
  const LOSING_CURVE := [SDItem(10, 5, 10), SDItem(11, 10, 1)]

  /** At price 10 five units could trade; the search clears one unit at price 11. */
  lemma {:induction false} LosingExample(r: SDItem)
    requires IsCrossPoint(LOSING_CURVE, r)
    ensures Book(LOSING_ASKS, LOSING_BIDS, LOSING_CURVE)
    ensures r == SDItem(11, 10, 1)
    ensures Min(Volume(LOSING_ASKS, Ask, 10), Volume(LOSING_BIDS, Bid, 10)) == 5
    ensures !Optimal(LOSING_ASKS, LOSING_BIDS, r)
  {
    var asks, bids, c := LOSING_ASKS, LOSING_BIDS, LOSING_CURVE;
    assert asks[1..] == [asks[1]] && bids[1..] == [bids[1]];
    assert [asks[1]][1..] == [] && [bids[1]][1..] == [];
    assert asks[0].price == 10 && asks[1].price == 11;
    assert bids[0].price == 10 && bids[1].price == 11;
    assert c[0].price == 10 && c[1].price == 11;
    assert Prices(asks) == {10, 11} && Prices(bids) == {10, 11} && ItemPrices(c) == {10, 11};
    assert asks[0].price <= bids[0].price;
    assert FirstChange(c, 1) == 1;
    OptimalIff(asks, bids, c, r);
  }
}
