/**
  Orders, the volume they offer at a price, and the two sort orders of the matcher.
 */
module Orders {
  import opened Seqs
  import Sorting

  datatype Direction = Bid | Ask

  datatype Order = Order(
    id: nat,
    owner: nat,
    market: nat,
    direction: Direction,
    price: nat,
    quantity: nat,
    updatedAt: int)

  /** An order trades at `price`: a bid at or below its limit, an ask at or above it. */
  predicate Eligible(o: Order, dir: Direction, price: nat) {
    match dir
    case Bid => o.price >= price
    case Ask => o.price <= price
  }

  /**
    The simple specification of a market curve: the summed quantity of all orders that
    trade at `price`.  Over asks this is the supply, over bids the demand.
   */
  function Volume(orders: seq<Order>, dir: Direction, price: nat): nat {
    if orders == [] then 0
    else (if Eligible(orders[0], dir, price) then orders[0].quantity else 0) + Volume(orders[1..], dir, price)
  }

  ghost predicate Positive(orders: seq<Order>) {
    forall i :: 0 <= i < |orders| ==> orders[i].price > 0 && orders[i].quantity > 0
  }

  ghost function Prices(orders: seq<Order>): set<nat> {
    set i | 0 <= i < |orders| :: orders[i].price
  }

  // ---- volume ----

  lemma {:induction false} VolumeConcat(a: seq<Order>, b: seq<Order>, dir: Direction, price: nat)
    ensures Volume(a + b, dir, price) == Volume(a, dir, price) + Volume(b, dir, price)
  {
    if a == [] {
      assert a + b == b;
    } else {
      assert (a + b)[0] == a[0];
      assert (a + b)[1..] == a[1..] + b;
      VolumeConcat(a[1..], b, dir, price);
    }
  }

  /** Volume does not depend on the order in which orders are listed. */
  lemma {:induction false} VolumePermutation(a: seq<Order>, b: seq<Order>, dir: Direction, price: nat)
    requires multiset(a) == multiset(b)
    ensures Volume(a, dir, price) == Volume(b, dir, price)
  {
    PermutationLength(a, b);
    if a != [] {
      var k := FindHead(a, b);
      VolumePermutation(a[1..], RemoveAt(b, k), dir, price);
      VolumeConcat(b[..k], b[k + 1..], dir, price);
      VolumeConcat(b[..k], b[k..], dir, price);
      assert b == b[..k] + b[k..];
      assert b[k..][1..] == b[k + 1..];
    }
  }

  lemma {:induction false} VolumeZero(orders: seq<Order>, dir: Direction, price: nat)
    requires forall i :: 0 <= i < |orders| ==> !Eligible(orders[i], dir, price)
    ensures Volume(orders, dir, price) == 0
  {
    if orders != [] { VolumeZero(orders[1..], dir, price); }
  }

  /** The volume of an order that trades at `price` is part of the whole. */
  lemma {:induction false} VolumeAtLeast(orders: seq<Order>, dir: Direction, price: nat, i: nat)
    requires i < |orders| && Eligible(orders[i], dir, price)
    ensures Volume(orders, dir, price) >= orders[i].quantity
  {
    if i > 0 { VolumeAtLeast(orders[1..], dir, price, i - 1); }
  }

  /** Raising the price can only add asks, lowering it can only add bids. */
  lemma {:induction false} VolumeMonotone(orders: seq<Order>, low: nat, high: nat)
    requires low <= high
    ensures Volume(orders, Ask, low) <= Volume(orders, Ask, high)
    ensures Volume(orders, Bid, low) >= Volume(orders, Bid, high)
  {
    if orders != [] { VolumeMonotone(orders[1..], low, high); }
  }

  /** Only an order whose eligibility changes can change the volume. */
  lemma {:induction false} VolumeSame(orders: seq<Order>, dir: Direction, p: nat, q: nat)
    requires forall i :: 0 <= i < |orders| ==> (Eligible(orders[i], dir, p) <==> Eligible(orders[i], dir, q))
    ensures Volume(orders, dir, p) == Volume(orders, dir, q)
  {
    if orders != [] {
      assert Eligible(orders[0], dir, p) <==> Eligible(orders[0], dir, q);
      forall i | 0 <= i < |orders[1..]|
        ensures Eligible(orders[1..][i], dir, p) <==> Eligible(orders[1..][i], dir, q)
      {
        assert orders[1..][i] == orders[i + 1];
      }
      VolumeSame(orders[1..], dir, p, q);
    }
  }

  lemma {:induction false} PositivePermutation(a: seq<Order>, b: seq<Order>)
    requires multiset(a) == multiset(b) && Positive(a)
    ensures Positive(b)
  {
    forall i | 0 <= i < |b| ensures b[i].price > 0 && b[i].quantity > 0 {
      assert b[i] in multiset(a);
    }
  }

  // ---- sorting ----

  /** Both orders rank by ascending price; equal prices by descending id for bids, ascending for asks. */
  predicate Less(dir: Direction, a: Order, b: Order) {
    if a.price == b.price then
      match dir
      case Bid => a.id > b.id
      case Ask => a.id < b.id
    else
      a.price < b.price
  }

  ghost predicate Sorted(dir: Direction, orders: seq<Order>) {
    forall i, j :: 0 <= i < j < |orders| ==> !Less(dir, orders[j], orders[i])
  }

  ghost predicate DistinctIds(orders: seq<Order>) {
    forall i, j :: 0 <= i < j < |orders| ==> orders[i].id != orders[j].id
  }

  lemma {:induction false} SortedTail(dir: Direction, orders: seq<Order>)
    requires Sorted(dir, orders) && orders != []
    ensures Sorted(dir, orders[1..])
  {
    forall i, j | 0 <= i < j < |orders[1..]| ensures !Less(dir, orders[1..][j], orders[1..][i]) {
      assert !Less(dir, orders[j + 1], orders[i + 1]);
    }
  }

  lemma {:induction false} DistinctIdsPermutation(a: seq<Order>, b: seq<Order>)
    requires multiset(a) == multiset(b) && DistinctIds(a)
    ensures DistinctIds(b)
  {
    forall i, j | 0 <= i < j < |b| ensures b[i].id != b[j].id {
      var k, l := PermutationPair(b, a, i, j);
    }
  }

  /**
    With distinct ids a sorted list is the only sorted one of its contents, so it does not
    matter which sorting algorithm produced it.
   */
  lemma {:induction false} SortedUnique(dir: Direction, a: seq<Order>, b: seq<Order>)
    requires multiset(a) == multiset(b)
    requires Sorted(dir, a) && Sorted(dir, b)
    requires DistinctIds(a)
    ensures a == b
  {
    PermutationLength(a, b);
    if a != [] {
      HeadUnique(dir, a, b);
      TailContents(a);
      TailContents(b);
      SortedTail(dir, a);
      SortedTail(dir, b);
      DistinctTail(a);
      hide Sorted, DistinctIds;
      SortedUnique(dir, a[1..], b[1..]);
      assert a == [a[0]] + a[1..] && b == [b[0]] + b[1..];
    }
  }

  lemma {:induction false} DistinctTail(a: seq<Order>)
    requires DistinctIds(a) && a != []
    ensures DistinctIds(a[1..])
  {
    forall k, l | 0 <= k < l < |a[1..]| ensures a[1..][k].id != a[1..][l].id {
      assert a[k + 1].id != a[l + 1].id;
    }
  }

  lemma {:induction false} HeadUnique(dir: Direction, a: seq<Order>, b: seq<Order>)
    requires multiset(a) == multiset(b) && |a| == |b| > 0
    requires Sorted(dir, a) && Sorted(dir, b)
    requires DistinctIds(a)
    ensures a[0] == b[0]
  {
    var i := PermutationMember(a, b, 0);
    var j := PermutationMember(b, a, 0);
    assert !Less(dir, b[i], b[0]);
    assert !Less(dir, a[j], a[0]);
    assert a[j].id == a[0].id;
  }

  /** `sort.Sort` with one of the two orders. */
  method Sort(dir: Direction, orders: seq<Order>) returns (r: seq<Order>)
    ensures Sorted(dir, r)
    ensures multiset(r) == multiset(orders)
  {
    var less := (a: Order, b: Order) => Less(dir, a, b);
    r := Sorting.Sort(less, orders);
    forall i, j | 0 <= i < j < |r| ensures !Less(dir, r[j], r[i]) {
      assert !less(r[j], r[i]);
    }
  }
}
