/**
  The pool of matchers, one per market, and the end-of-block run over all stored orders.
 */
module Pool {
  import opened Dec
  import opened Seqs
  import opened Orders
  import opened Curves
  import opened CrossPoint
  import opened Clearance
  import opened Fills
  import opened Matcher
  import opened Clearings
  import opened ClearingPrices
  import opened Settlement

  // ---- what the pool holds and returns, as values ----

  /** The orders of one market and side, in their original order. */
  function BookOf(orders: seq<Order>, market: nat, dir: Direction): seq<Order> {
    if orders == [] then []
    else
      var last := orders[|orders| - 1];
      BookOf(orders[..|orders| - 1], market, dir) +
      if last.market == market && last.direction == dir then [last] else []
  }

  ghost function Markets(orders: seq<Order>): set<nat> {
    set i | 0 <= i < |orders| :: orders[i].market
  }

  lemma {:induction false} BookOfAppend(orders: seq<Order>, o: Order, market: nat, dir: Direction)
    ensures BookOf(orders + [o], market, dir) ==
            BookOf(orders, market, dir) + if o.market == market && o.direction == dir then [o] else []
  {
    assert (orders + [o])[..|orders|] == orders;
  }

  lemma {:induction false} MarketsAppend(orders: seq<Order>, o: Order)
    ensures Markets(orders + [o]) == Markets(orders) + {o.market}
  {
    var all := orders + [o];
    assert all[|orders|] == o;
    forall m ensures m in Markets(all) <==> m in Markets(orders) + {o.market} {
      if m in Markets(orders) {
        var i :| 0 <= i < |orders| && orders[i].market == m;
        assert all[i].market == m;
      }
    }
  }

  lemma {:induction false} BookMember(orders: seq<Order>, market: nat, dir: Direction, o: Order)
    requires o in BookOf(orders, market, dir)
    ensures o in orders && o.market == market && o.direction == dir
  {
    var init := orders[..|orders| - 1];
    if o in BookOf(init, market, dir) {
      BookMember(init, market, dir, o);
    }
  }

  /** A book misses none of its orders. */
  lemma {:induction false} BookComplete(orders: seq<Order>, i: nat)
    requires i < |orders|
    ensures orders[i] in BookOf(orders, orders[i].market, orders[i].direction)
  {
    if i < |orders| - 1 {
      BookComplete(orders[..|orders| - 1], i);
    }
  }

  lemma {:induction false} BookEmpty(orders: seq<Order>, market: nat, dir: Direction)
    requires market !in Markets(orders)
    ensures BookOf(orders, market, dir) == []
  {
    if orders != [] {
      var init, last := orders[..|orders| - 1], orders[|orders| - 1];
      assert orders == init + [last];
      MarketsAppend(init, last);
      BookEmpty(init, market, dir);
    }
  }

  ghost predicate CrossesIn(orders: seq<Order>, market: nat) {
    Crosses(BookOf(orders, market, Ask), BookOf(orders, market, Bid))
  }

  /** In some market the supply at the crossing point is too small a fraction of the demand. */
  ghost predicate SomeRatioVanishes(orders: seq<Order>) {
    exists m :: m in Markets(orders) && RatioVanishes(BookOf(orders, m, Bid), BookOf(orders, m, Ask))
  }

  ghost predicate SomeResultRefused(results: seq<MatcherResult>, b: Block) {
    exists i :: 0 <= i < |results| && SomeRefused(results[i].orderFills, b)
  }

  /** One result for every market whose book crosses, and no other. */
  ghost predicate ResultsOf(results: seq<MatcherResult>, orders: seq<Order>, markets: set<nat>) {
    && (forall i :: 0 <= i < |results| ==>
          && results[i].market in markets
          && Clears(results[i], BookOf(orders, results[i].market, Bid), BookOf(orders, results[i].market, Ask)))
    && (forall i, j :: 0 <= i < j < |results| ==> results[i].market != results[j].market)
    && (forall m :: m in markets && CrossesIn(orders, m) ==> exists i :: 0 <= i < |results| && results[i].market == m)
  }

  // ---- results of different markets are independent ----

  lemma {:induction false} FillOrderInBook(r: MatcherResult, bids: seq<Order>, asks: seq<Order>, k: nat)
    requires Clears(r, bids, asks) && k < |r.orderFills|
    ensures r.orderFills[k].order in bids || r.orderFills[k].order in asks
  {
    hide Run, ClearsAt, FillsOf;
    var sb, sa, c, point :| ClearsAt(r, bids, asks, sb, sa, c, point);
    ClearsFills(r, bids, asks, sb, sa, c, point);
    var bidFills, askFills := Run(Reversed(sb), BidSide(r.state), 0), Run(sa, AskSide(r.state), 0);
    if k < |bidFills| {
      FillOrderInQueue(bidFills, Reversed(sb), BidSide(r.state), bids, k);
    } else {
      FillOrderInQueue(askFills, sa, AskSide(r.state), asks, k - |bidFills|);
    }
  }

  lemma {:induction false} FillOrderInQueue(fills: seq<OrderFill>, queue: seq<Order>, s: Side, orders: seq<Order>, k: nat)
    requires FillsOf(fills, queue, s) && k < |fills| && multiset(queue) == multiset(orders)
    ensures fills[k].order in orders
  {
    var i := PermutationMember(queue, orders, k);
  }

  lemma {:induction false} FillOrderInMarket(r: MatcherResult, orders: seq<Order>, k: nat)
    requires Clears(r, BookOf(orders, r.market, Bid), BookOf(orders, r.market, Ask)) && k < |r.orderFills|
    ensures r.orderFills[k].order in orders && r.orderFills[k].order.market == r.market
  {
    var o := r.orderFills[k].order;
    FillOrderInBook(r, BookOf(orders, r.market, Bid), BookOf(orders, r.market, Ask), k);
    if o in BookOf(orders, r.market, Bid) {
      BookMember(orders, r.market, Bid, o);
    } else {
      BookMember(orders, r.market, Ask, o);
    }
  }

  lemma {:induction false} MarketsApart(r: MatcherResult, s: MatcherResult, orders: seq<Order>)
    requires DistinctIds(orders) && r.market != s.market
    requires Clears(r, BookOf(orders, r.market, Bid), BookOf(orders, r.market, Ask))
    requires Clears(s, BookOf(orders, s.market, Bid), BookOf(orders, s.market, Ask))
    ensures Apart(r, s)
  {
    hide Clears, BookOf;
    forall i, j | 0 <= i < |r.orderFills| && 0 <= j < |s.orderFills|
      ensures s.orderFills[j].order.id != r.orderFills[i].order.id
    {
      FillOrderInMarket(r, orders, i);
      FillOrderInMarket(s, orders, j);
      var a :| 0 <= a < |orders| && orders[a] == r.orderFills[i].order;
      var b :| 0 <= b < |orders| && orders[b] == s.orderFills[j].order;
      assert a != b;
    }
  }

  lemma {:induction false} ResultsIndependent(results: seq<MatcherResult>, orders: seq<Order>, markets: set<nat>)
    requires ResultsOf(results, orders, markets) && DistinctIds(orders)
    ensures Independent(multiset(results))
  {
    hide Clears, BookOf, Apart;
    forall r, s | r in multiset(results) && s in multiset(results) && r != s ensures Apart(r, s) {
      var i :| 0 <= i < |results| && results[i] == r;
      var j :| 0 <= j < |results| && results[j] == s;
      MarketsApart(r, s, orders);
    }
    forall r | r in multiset(results) ensures multiset(results)[r] == 1 {
      var i :| 0 <= i < |results| && results[i] == r;
      OccursOnce(results, i);
    }
  }

  lemma {:induction false} OccursOnce(results: seq<MatcherResult>, i: nat)
    requires i < |results|
    requires forall i, j :: 0 <= i < j < |results| ==> results[i].market != results[j].market
    ensures multiset(results)[results[i]] == 1
  {
    var r, rest := results[i], RemoveAt(results, i);
    RemoveAtContents(results, i);
    forall j | 0 <= j < |rest| ensures rest[j] != r {
      assert rest[j] == results[if j < i then j else j + 1];
    }
    assert r !in multiset(rest);
  }

  /** No order is filled twice, so that each stored order is settled as its own fill says. */
  lemma {:induction false} ClearingFillsOnce(r: MatcherResult, orders: seq<Order>)
    requires DistinctIds(orders) && Clears(r, BookOf(orders, r.market, Bid), BookOf(orders, r.market, Ask))
    ensures OneFillEach(r.orderFills)
  {
    hide Run, ClearsAt, FillsOf, BookOf, DistinctIds;
    var bids, asks := BookOf(orders, r.market, Bid), BookOf(orders, r.market, Ask);
    var sb, sa, c, point :| ClearsAt(r, bids, asks, sb, sa, c, point);
    ClearsFills(r, bids, asks, sb, sa, c, point);
    BookDistinct(orders, r.market, Bid);
    BookDistinct(orders, r.market, Ask);
    DistinctIdsPermutation(bids, Reversed(sb));
    DistinctIdsPermutation(asks, sa);
    var x, y := Run(Reversed(sb), BidSide(r.state), 0), Run(sa, AskSide(r.state), 0);
    QueueFillsOnce(x, Reversed(sb), BidSide(r.state));
    QueueFillsOnce(y, sa, AskSide(r.state));
    forall i, j | 0 <= i < |x| && 0 <= j < |y| ensures x[i].order.id != y[j].order.id {
      FillOrderInQueue(x, Reversed(sb), BidSide(r.state), bids, i);
      FillOrderInQueue(y, sa, AskSide(r.state), asks, j);
      BookMember(orders, r.market, Bid, x[i].order);
      BookMember(orders, r.market, Ask, y[j].order);
      SameIdSameOrder(orders, x[i].order, y[j].order);
    }
  }

  lemma {:induction false} QueueFillsOnce(fills: seq<OrderFill>, queue: seq<Order>, s: Side)
    requires FillsOf(fills, queue, s) && DistinctIds(queue)
    ensures OneFillEach(fills)
  {
  }

  lemma {:induction false} SameIdSameOrder(orders: seq<Order>, o: Order, p: Order)
    requires DistinctIds(orders) && o in orders && p in orders
    ensures o.id == p.id ==> o == p
  {
  }

  // ---- the stored orders determine the results ----

  lemma {:induction false} BookDistinct(orders: seq<Order>, market: nat, dir: Direction)
    requires DistinctIds(orders)
    ensures DistinctIds(BookOf(orders, market, dir))
  {
    if orders != [] {
      var init, last := orders[..|orders| - 1], orders[|orders| - 1];
      BookDistinct(init, market, dir);
      var book := BookOf(init, market, dir);
      forall i | 0 <= i < |book| ensures book[i].id != last.id {
        BookMember(init, market, dir, book[i]);
      }
    }
  }

  /** No market's price is left open. */
  ghost predicate NoTies(orders: seq<Order>) {
    forall m :: m in Markets(orders) ==> !TiedBook(BookOf(orders, m, Bid), BookOf(orders, m, Ask))
  }

  /** Every result of one execution is a result of the other. */
  lemma {:induction false} ResultShared(x: seq<MatcherResult>, y: seq<MatcherResult>, orders: seq<Order>, i: nat)
    requires ResultsOf(x, orders, Markets(orders)) && ResultsOf(y, orders, Markets(orders))
    requires DistinctIds(orders) && NoTies(orders) && i < |x|
    ensures x[i] in y
  {
    hide Clears, BookOf, Markets, DistinctIds, TiedBook;
    var r := x[i];
    var bids, asks := BookOf(orders, r.market, Bid), BookOf(orders, r.market, Ask);
    ClearedCrosses(r, bids, asks);
    var j :| 0 <= j < |y| && y[j].market == r.market;
    BookDistinct(orders, r.market, Bid);
    BookDistinct(orders, r.market, Ask);
    ClearingUnique(r, y[j], bids, asks);
  }

  /** Two executions on the same stored orders produce the same results, up to their order. */
  lemma {:induction false} ResultsAgree(x: seq<MatcherResult>, y: seq<MatcherResult>, orders: seq<Order>)
    requires ResultsOf(x, orders, Markets(orders)) && ResultsOf(y, orders, Markets(orders))
    requires DistinctIds(orders) && NoTies(orders)
    ensures multiset(x) == multiset(y)
  {
    OneEach(x, orders);
    OneEach(y, orders);
    hide *;
    forall i | 0 <= i < |x| ensures multiset(x)[x[i]] == 1 && x[i] in y {
      OccursOnce(x, i);
      ResultShared(x, y, orders, i);
    }
    forall i | 0 <= i < |y| ensures multiset(y)[y[i]] == 1 && y[i] in x {
      OccursOnce(y, i);
      ResultShared(y, x, orders, i);
    }
    SameElements(x, y);
  }

  lemma {:induction false} OneEach(results: seq<MatcherResult>, orders: seq<Order>)
    requires ResultsOf(results, orders, Markets(orders))
    ensures forall i, j :: 0 <= i < j < |results| ==> results[i].market != results[j].market
  {
  }

  /** And they leave the same balances, stored orders and history. */
  lemma {:induction false} ExecutionsAgree(
      l: Ledger, x: seq<MatcherResult>, y: seq<MatcherResult>, orders: seq<Order>, b: Block)
    requires ResultsOf(x, orders, Markets(orders)) && ResultsOf(y, orders, Markets(orders))
    requires DistinctIds(orders) && NoTies(orders)
    ensures SettleAll(l, x, b) == SettleAll(l, y, b)
  {
    hide *;
    ResultsAgree(x, y, orders);
    ResultsIndependent(x, orders, Markets(orders));
    Confluence(l, x, y, b);
  }

  // ---- the pool ----

  /** A matcher with exactly the orders of one market. */
  ghost predicate HoldsBook(matcher: Matcher, market: nat, orders: seq<Order>)
    reads matcher
  {
    && matcher.marketID == market && matcher.Valid()
    && matcher.bids == BookOf(orders, market, Bid) && matcher.asks == BookOf(orders, market, Ask)
  }

  /** A matcher takes an order with a price and a quantity while its side is not full. */
  ghost predicate Acceptable(orders: seq<Order>, o: Order) {
    o.price > 0 && o.quantity > 0 && |BookOf(orders, o.market, o.direction)| != MAX_INT
  }

  ghost predicate AllAcceptable(orders: seq<Order>, n: nat)
    requires n <= |orders|
  {
    forall i :: 0 <= i < n ==> Acceptable(orders[..i], orders[i])
  }

  /** One market of the pool, in terms of its book. */
  method MatchBook(matcher: Matcher, market: nat, ghost orders: seq<Order>) returns (r: MatchOutcome)
    requires HoldsBook(matcher, market, orders)
    modifies matcher
    ensures r != Internal
    ensures r == NoMatch ==> !Crosses(BookOf(orders, market, Ask), BookOf(orders, market, Bid))
    ensures r == Panicked ==> RatioVanishes(BookOf(orders, market, Bid), BookOf(orders, market, Ask))
    ensures r.Matched? ==>
              && r.result.market == market
              && Clears(r.result, BookOf(orders, market, Bid), BookOf(orders, market, Ask))
    ensures matcher.marketID == market
  {
    hide Clears, RatioVanishes, VanishesAt, BookOf, Book, IsCrossPoint, Volume, ResultOf, Sorted, Crosses;
    ghost var bids, asks, point := matcher.bids, matcher.asks, SDItem(0, 0, 0);
    r, point := matcher.Match();
    match r {
      case Panicked => Vanishing(bids, asks, matcher.curve, point);
      case Matched(result) =>
        MatchClears(result, bids, asks, matcher.bids, matcher.asks, matcher.curve, point);
        ResultMarket(result, market, matcher.bids, matcher.asks, point);
      case _ =>
    }
  }

  lemma {:induction false} ResultMarket(r: MatcherResult, market: nat, bids: seq<Order>, asks: seq<Order>, point: SDItem)
    requires ResultOf(r, market, bids, asks, point)
    ensures r.market == market
  {
  }

  class MatcherPool {
    var pool: map<nat, Matcher>

    constructor ()
      ensures Holds([]) && pool == map[]
    {
      pool := map[];
    }

    /** Exactly these orders have been added, split by market and side. */
    ghost predicate Holds(orders: seq<Order>)
      reads this, pool.Values
    {
      HoldsFor(orders, Markets(orders))
    }

    /** One matcher for each of these markets, with exactly its orders among these. */
    ghost predicate HoldsFor(orders: seq<Order>, markets: set<nat>)
      reads this, pool.Values
    {
      pool.Keys == markets && forall m :: m in pool ==> HoldsBook(pool[m], m, orders)
    }

    /** The matcher of a market, created on demand. */
    method MatcherOf(marketID: nat, ghost orders: seq<Order>) returns (matcher: Matcher)
      requires Holds(orders)
      modifies this
      ensures HoldsFor(orders, Markets(orders) + {marketID}) && pool[marketID] == matcher
      ensures fresh(pool.Values - old(pool.Values))
    {
      hide BookOf, Markets;
      if marketID in pool {
        assert pool.Keys == Markets(orders) + {marketID};
        return pool[marketID];
      }
      matcher := new Matcher(marketID);
      BookEmpty(orders, marketID, Bid);
      BookEmpty(orders, marketID, Ask);
      pool := pool[marketID := matcher];
    }

    /** A refused order leaves at most an empty matcher behind. */
    method AddOrder(order: Order, ghost orders: seq<Order>) returns (r: AddResult)
      requires Holds(orders)
      modifies this, pool.Values
      ensures r == Added ==> Holds(orders + [order])
      ensures r != Added ==> HoldsFor(orders, Markets(orders) + {order.market})
      ensures r == Added <==> Acceptable(orders, order)
      ensures r == ZeroPrice <==> order.price == 0
      ensures r == ZeroQuantity <==> order.price > 0 && order.quantity == 0
      ensures r != WrongMarket
      ensures fresh(pool.Values - old(pool.Values))
    {
      hide BookOf, Markets;
      var marketID := order.market;
      var matcher := MatcherOf(marketID, orders);
      assert forall m :: m in pool && m != marketID ==> pool[m] != matcher;
      label L:
      r := matcher.AddOrder(order);
      forall m | m in pool && m != marketID ensures HoldsBook(pool[m], m, orders) {
        assert unchanged@L(pool[m]);
      }
      MarketsAppend(orders, order);
      forall m | m in pool && r == Added ensures HoldsBook(pool[m], m, orders + [order]) {
        BookOfAppend(orders, order, m, Bid);
        BookOfAppend(orders, order, m, Ask);
      }
    }

    /**
      Matches every market, in whatever order the map yields them. An internal error or a
      division by zero panics: exactly when the ratio of some market vanishes.
     */
    method Process(ghost orders: seq<Order>) returns (results: seq<MatcherResult>, panicked: bool)
      requires Holds(orders)
      modifies pool.Values
      ensures !panicked ==> ResultsOf(results, orders, Markets(orders))
      ensures panicked <==> SomeRatioVanishes(orders)
    {
      hide Clears, SomeRatioVanishes, RatioVanishes, CrossesIn, BookOf, Markets, ResultsOf, Crosses;
      results, panicked := [], false;
      var todo := pool.Keys;
      NoMarkets(orders);
      assert pool.Keys - todo == {};
      while todo != {}
        invariant todo <= pool.Keys == Markets(orders)
        invariant forall m :: m in pool ==> pool[m].marketID == m
        invariant forall m :: m in todo ==> HoldsBook(pool[m], m, orders)
        invariant ResultsOf(results, orders, pool.Keys - todo)
        decreases |todo|
      {
        var m :| m in todo;
        label L:
        var outcome := MatchBook(pool[m], m, orders);
        forall k | k in todo && k != m ensures HoldsBook(pool[k], k, orders) {
          assert unchanged@L(pool[k]);
        }
        assert pool.Keys - (todo - {m}) == pool.Keys - todo + {m};
        match outcome {
          case NoMatch =>
            NoResult(results, orders, pool.Keys - todo, m);
          case Internal =>
            return results, true;
          case Panicked =>
            OneVanishes(orders, m);
            return results, true;
          case Matched(result) =>
            OneMoreResult(results, result, orders, pool.Keys - todo, m);
            results := results + [result];
        }
        todo := todo - {m};
      }
      assert pool.Keys - todo == pool.Keys;
      NoneVanishes(results, orders);
    }
  }

  // ---- steps of the pool ----

  lemma {:induction false} OneVanishes(orders: seq<Order>, m: nat)
    requires m in Markets(orders) && RatioVanishes(BookOf(orders, m, Bid), BookOf(orders, m, Ask))
    ensures SomeRatioVanishes(orders)
  {
  }

  /** When every crossing market has its result, no ratio vanishes. */
  lemma {:induction false} NoneVanishes(results: seq<MatcherResult>, orders: seq<Order>)
    requires ResultsOf(results, orders, Markets(orders))
    ensures !SomeRatioVanishes(orders)
  {
    hide Clears, RatioVanishes, BookOf, Markets;
    forall m | m in Markets(orders) ensures !RatioVanishes(BookOf(orders, m, Bid), BookOf(orders, m, Ask)) {
      if RatioVanishes(BookOf(orders, m, Bid), BookOf(orders, m, Ask)) {
        VanishingCrosses(BookOf(orders, m, Bid), BookOf(orders, m, Ask));
        var i :| 0 <= i < |results| && results[i].market == m;
        ClearedDoesNotVanish(results[i], BookOf(orders, m, Bid), BookOf(orders, m, Ask));
      }
    }
  }

  lemma {:induction false} NoMarkets(orders: seq<Order>)
    ensures ResultsOf([], orders, {})
  {
  }

  lemma {:induction false} NoResult(results: seq<MatcherResult>, orders: seq<Order>, markets: set<nat>, m: nat)
    requires ResultsOf(results, orders, markets) && !Crosses(BookOf(orders, m, Ask), BookOf(orders, m, Bid))
    ensures ResultsOf(results, orders, markets + {m})
  {
    hide Clears, Crosses, BookOf;
  }

  lemma {:induction false} OneMoreResult(results: seq<MatcherResult>, r: MatcherResult, orders: seq<Order>, markets: set<nat>, m: nat)
    requires ResultsOf(results, orders, markets) && m !in markets && r.market == m
    requires Clears(r, BookOf(orders, m, Bid), BookOf(orders, m, Ask))
    ensures ResultsOf(results + [r], orders, markets + {m})
  {
    hide Clears, Crosses, BookOf, CrossesIn;
    var all := results + [r];
    forall k | k in markets + {m} && CrossesIn(orders, k) ensures exists i :: 0 <= i < |all| && all[i].market == k {
      if k == m {
        assert all[|results|].market == m;
      } else {
        var i :| 0 <= i < |results| && results[i].market == k;
        assert all[i].market == k;
      }
    }
  }

  // ---- the end of a block ----

  /** The history item of a market records the sizes of its book and, of the raw orders at its price, what could and did clear. */
  lemma {:induction false} BlockHistory(l: Ledger, results: seq<MatcherResult>, orders: seq<Order>, b: Block, i: nat)
    requires ResultsOf(results, orders, Markets(orders)) && i < |results|
    ensures var m, price, history := results[i].market, results[i].state.price, SettleAll(l, results, b).history;
            var bids, asks := BookOf(orders, m, Bid), BookOf(orders, m, Ask);
            var supply, demand := Volume(asks, Ask, price), Volume(bids, Bid, price);
            && demand != 0 && ProRata(supply, demand) != 0 && (m, b.height) in history
            && history[(m, b.height)] == HistoryItem(
                 m, price, |bids|, |asks|, MaxBid(supply, demand), MaxAsk(supply, demand),
                 ClearedBid(supply, demand), ClearedAsk(supply, demand), b.time, b.height)
  {
    hide Clears, BookOf, Markets, CrossesIn, SettleAll, Volume, ProRata, MaxBid, MaxAsk, ClearedBid, ClearedAsk, TruncateInt;
    var m := results[i].market;
    OneEach(results, orders);
    HistoryOfResult(l, results, b, i);
    ClearingVolumes(results[i], BookOf(orders, m, Bid), BookOf(orders, m, Ask));
  }

  lemma {:induction false} BlockFilledOnce(results: seq<MatcherResult>, orders: seq<Order>)
    requires ResultsOf(results, orders, Markets(orders)) && DistinctIds(orders)
    ensures FilledOnce(results)
  {
    hide Clears, BookOf, Markets, DistinctIds, OneFillEach, Disjoint, CrossesIn;
    forall i | 0 <= i < |results| ensures OneFillEach(results[i].orderFills) {
      ClearingFillsOnce(results[i], orders);
    }
    forall i, j | 0 <= i < j < |results| ensures Disjoint(results[i].orderFills, results[j].orderFills) {
      MarketsApart(results[i], results[j], orders);
    }
  }

  /** Some book of the stored orders has a clearing with a coin that panics. */
  ghost predicate StoredRefused(orders: seq<Order>, b: Block) {
    exists r: MatcherResult ::
      && r.market in Markets(orders) && Clears(r, BookOf(orders, r.market, Bid), BookOf(orders, r.market, Ask))
      && SomeRefused(r.orderFills, b)
  }

  /** Without ties the stored orders decide whether a coin panics. */
  lemma {:induction false} RefusedIff(results: seq<MatcherResult>, orders: seq<Order>, b: Block)
    requires ResultsOf(results, orders, Markets(orders)) && DistinctIds(orders) && NoTies(orders)
    ensures SomeResultRefused(results, b) <==> StoredRefused(orders, b)
  {
    hide Clears, BookOf, Markets, DistinctIds, TiedBook, SomeRefused;
    if r: MatcherResult :|
      && r.market in Markets(orders) && Clears(r, BookOf(orders, r.market, Bid), BookOf(orders, r.market, Ask))
      && SomeRefused(r.orderFills, b)
    {
      var bids, asks := BookOf(orders, r.market, Bid), BookOf(orders, r.market, Ask);
      ClearedCrosses(r, bids, asks);
      var j :| 0 <= j < |results| && results[j].market == r.market;
      BookDistinct(orders, r.market, Bid);
      BookDistinct(orders, r.market, Ask);
      ClearingUnique(r, results[j], bids, asks);
      assert SomeRefused(results[j].orderFills, b);
    }
  }

  /** A list of the orders in the store, each once. */
  ghost predicate Lists(stored: seq<Order>, orders: map<nat, Order>) {
    && DistinctIds(stored)
    && (forall i :: 0 <= i < |stored| ==> stored[i].id in orders && orders[stored[i].id] == stored[i])
    && (forall id :: id in orders ==> orders[id] in stored)
  }

  /** The store iterator; the order in which it yields the orders does not matter. */
  method ReadOrders(orders: map<nat, Order>) returns (stored: seq<Order>)
    requires forall id :: id in orders ==> orders[id].id == id
    ensures Lists(stored, orders)
  {
    stored := [];
    var todo := orders.Keys;
    while todo != {}
      invariant todo <= orders.Keys && DistinctIds(stored)
      invariant forall i :: 0 <= i < |stored| ==>
                  stored[i].id in orders && stored[i].id !in todo && orders[stored[i].id] == stored[i]
      invariant forall id :: id in orders && id !in todo ==> orders[id] in stored
      decreases |todo|
    {
      var id :| id in todo;
      todo := todo - {id};
      stored := stored + [orders[id]];
    }
  }

  /** Fills the pool and matches every market. */
  method MatchAll(stored: seq<Order>) returns (panicked: bool, results: seq<MatcherResult>)
    ensures panicked <==> !AllAcceptable(stored, |stored|) || SomeRatioVanishes(stored)
    ensures !panicked ==> ResultsOf(results, stored, Markets(stored))
  {
    hide ResultsOf, SomeRatioVanishes;
    var matcherPool := new MatcherPool();
    assert stored[..0] == [];
    for i := 0 to |stored|
      invariant fresh(matcherPool) && fresh(matcherPool.pool.Values)
      invariant matcherPool.Holds(stored[..i])
      invariant AllAcceptable(stored, i)
    {
      var r := matcherPool.AddOrder(stored[i], stored[..i]);
      if r != Added {
        return true, [];
      }
      assert stored[..i + 1] == stored[..i] + [stored[i]];
    }
    assert stored[..|stored|] == stored;
    results, panicked := matcherPool.Process(stored);
  }

  method SettleResults(keeper: OrdersKeeper, results: seq<MatcherResult>, b: Block) returns (panicked: bool)
    modifies keeper
    ensures panicked <==> SomeResultRefused(results, b)
    ensures !panicked ==> keeper.View() == SettleAll(old(keeper.View()), results, b)
  {
    hide ApplyResult, SomeRefused;
    for i := 0 to |results|
      invariant SettleAll(keeper.View(), results[i..], b) == SettleAll(old(keeper.View()), results, b)
      invariant forall k :: 0 <= k < i ==> !SomeRefused(results[k].orderFills, b)
    {
      assert results[i..][1..] == results[i + 1..];
      panicked := keeper.ProcessResult(results[i], b);
      if panicked { return; }
    }
    return false;
  }

  /** The state a block leaves is determined: by its results in any order, and without ties by the stored orders. */
  ghost predicate Determined(l: Ledger, l': Ledger, stored: seq<Order>, results: seq<MatcherResult>, b: Block) {
    && (forall order :: multiset(order) == multiset(results) ==> SettleAll(l, order, b) == l')
    && (NoTies(stored) ==>
          forall other :: ResultsOf(other, stored, Markets(stored)) ==> SettleAll(l, other, b) == l')
  }

  lemma {:induction false} BlockDetermined(l: Ledger, stored: seq<Order>, results: seq<MatcherResult>, b: Block)
    requires ResultsOf(results, stored, Markets(stored)) && DistinctIds(stored)
    ensures Determined(l, SettleAll(l, results, b), stored, results, b)
  {
    hide ResultsOf, SettleAll, DistinctIds, NoTies, Markets;
    ResultsIndependent(results, stored, Markets(stored));
    forall order | multiset(order) == multiset(results) ensures SettleAll(l, order, b) == SettleAll(l, results, b) {
      Confluence(l, results, order, b);
    }
    if NoTies(stored) {
      forall other | ResultsOf(other, stored, Markets(stored))
        ensures SettleAll(l, other, b) == SettleAll(l, results, b)
      {
        ExecutionsAgree(l, other, results, stored, b);
      }
    }
  }

  /**
    Matches all stored orders and settles the results. It panics exactly when an order is
    unacceptable, a ratio vanishes or a coin is refused; otherwise every stored order is
    unchanged, removed or reduced as its own fill says, and the state does not depend on the
    order of the results nor, without ties, on anything but the stored orders.
   */
  method EndBlocker(keeper: OrdersKeeper, b: Block)
    returns (panicked: bool, ghost stored: seq<Order>, ghost results: seq<MatcherResult>)
    requires Keyed(keeper.View())
    modifies keeper
    ensures Lists(stored, old(keeper.View()).orders)
    ensures var early := !AllAcceptable(stored, |stored|) || SomeRatioVanishes(stored);
            && (panicked <==> early || SomeResultRefused(results, b))
            && (NoTies(stored) ==> (panicked <==> early || StoredRefused(stored, b)))
            && (early ==> keeper.View() == old(keeper.View()))
            && (!early ==> ResultsOf(results, stored, Markets(stored)))
    ensures !panicked ==>
              && Keyed(keeper.View())
              && keeper.View() == SettleAll(old(keeper.View()), results, b)
              && OrdersSettled(old(keeper.View()), keeper.View(), results, b)
              && Determined(old(keeper.View()), keeper.View(), stored, results, b)
  {
    var list := ReadOrders(keeper.orders);
    stored, results := list, [];
    ghost var l := keeper.View();
    assert DistinctIds(stored);
    hide Lists, DistinctIds, AllAcceptable, SomeRatioVanishes, NoTies, StoredRefused, ResultsOf, Markets, Keyed,
         SettleAll, OrdersSettled, Determined, FilledOnce;
    var matched;
    panicked, matched := MatchAll(list);
    if panicked { return; }
    results := matched;
    if NoTies(stored) { RefusedIff(results, stored, b); }
    hide SomeResultRefused;
    panicked := SettleResults(keeper, matched, b);
    if panicked { return; }
    BlockKeepsKeyed(l, results, b);
    BlockFilledOnce(results, stored);
    BlockSettlesOrders(l, results, b);
    BlockDetermined(l, stored, results, b);
  }
}
