/**
  Settling the results of all markets of a block: crediting accounts, rewriting or deleting
  the stored orders, and recording the history.
 */
module Settlement {
  import opened Wrappers
  import opened Dec
  import opened Seqs
  import opened Orders
  import opened Fills
  import opened Matcher
  import opened Payouts

  datatype HistoryItem = HistoryItem(
    market: nat, price: nat, bidOrdersCount: nat, askOrdersCount: nat,
    bidVolume: nat, askVolume: nat, matchedBidVolume: nat, matchedAskVolume: nat, timestamp: int, height: int)

  /** The state that settlement writes: balances by owner and denom, orders by id, history by market and height. */
  datatype Ledger = Ledger(
    balances: map<(nat, nat), nat>,
    orders: map<nat, Order>,
    history: map<(nat, int), HistoryItem>)

  /** What stays fixed while a block is settled: the markets, the coins the bank accepts, and the block itself. */
  datatype Block = Block(markets: nat -> Currencies, valid: Coin -> bool, height: int, time: int)

  function Paid(f: OrderFill, b: Block): Payout {
    PayoutOf(f, b.markets(f.order.market))
  }

  /** The block panics on a coin that the bank refuses, and on a conversion that panics. */
  predicate Refused(f: OrderFill, b: Block) {
    var fill, refund := FillCoin(f, b.markets(f.order.market)), RefundCoin(f, b.markets(f.order.market));
    || fill.MakingPanics?
    || (fill.Made? && (!b.valid(fill.coin) || refund.MakingPanics? || (refund.Made? && !b.valid(refund.coin))))
  }

  ghost predicate SomeRefused(fills: seq<OrderFill>, b: Block) {
    exists i :: 0 <= i < |fills| && Refused(fills[i], b)
  }

  function Credit(balances: map<(nat, nat), nat>, owner: nat, c: Coin): map<(nat, nat), nat> {
    var k := (owner, c.denom);
    balances[k := (if k in balances then balances[k] else 0) + c.amount]
  }

  function Pay(balances: map<(nat, nat), nat>, owner: nat, fill: Coin, refund: Option<Coin>): map<(nat, nat), nat> {
    var paid := Credit(balances, owner, fill);
    match refund
    case None => paid
    case Some(c) => Credit(paid, owner, c)
  }

  /** A fill whose coin is not made is skipped; otherwise the owner is paid and the order removed or reduced. */
  function ApplyFill(l: Ledger, f: OrderFill, b: Block): Ledger {
    match Paid(f, b)
    case Unpayable => l
    case Payout(fill, refund) =>
      l.(balances := Pay(l.balances, f.order.owner, fill, refund),
         orders := if f.unfilled == 0 then l.orders - {f.order.id}
                   else l.orders[f.order.id := f.order.(quantity := f.unfilled, updatedAt := b.time)])
  }

  function ApplyFills(l: Ledger, fills: seq<OrderFill>, b: Block): Ledger
    decreases |fills|
  {
    if fills == [] then l else ApplyFills(ApplyFill(l, fills[0], b), fills[1..], b)
  }

  function NewHistoryItem(r: MatcherResult, b: Block): HistoryItem {
    HistoryItem(r.market, r.state.price, r.bidOrdersCount, r.askOrdersCount,
                TruncateInt(r.state.maxBidVolume), TruncateInt(r.state.maxAskVolume),
                TruncateInt(r.matchedBidVolume), TruncateInt(r.matchedAskVolume), b.time, b.height)
  }

  function ApplyResult(l: Ledger, r: MatcherResult, b: Block): Ledger {
    var settled := ApplyFills(l, r.orderFills, b);
    settled.(history := settled.history[(r.market, b.height) := NewHistoryItem(r, b)])
  }

  function SettleAll(l: Ledger, results: seq<MatcherResult>, b: Block): Ledger
    decreases |results|
  {
    if results == [] then l else SettleAll(ApplyResult(l, results[0], b), results[1..], b)
  }

  // ---- what settling amounts to ----

  function CoinIn(c: Coin, denom: nat): nat {
    if c.denom == denom then c.amount else 0
  }

  /** What one fill owes an account in one denom: its fill coin and its refund. */
  function Due(f: OrderFill, b: Block, owner: nat, denom: nat): nat {
    if f.order.owner != owner then 0
    else
      match Paid(f, b)
      case Unpayable => 0
      case Payout(fill, refund) => CoinIn(fill, denom) + if refund.Some? then CoinIn(refund.value, denom) else 0
  }

  function TotalDue(fills: seq<OrderFill>, b: Block, owner: nat, denom: nat): nat {
    if fills == [] then 0 else Due(fills[0], b, owner, denom) + TotalDue(fills[1..], b, owner, denom)
  }

  function BlockDue(results: seq<MatcherResult>, b: Block, owner: nat, denom: nat): nat {
    if results == [] then 0
    else TotalDue(results[0].orderFills, b, owner, denom) + BlockDue(results[1..], b, owner, denom)
  }

  function BalanceOf(l: Ledger, owner: nat, denom: nat): nat {
    if (owner, denom) in l.balances then l.balances[(owner, denom)] else 0
  }

  lemma {:induction false} FillPays(l: Ledger, f: OrderFill, b: Block, owner: nat, denom: nat)
    ensures BalanceOf(ApplyFill(l, f, b), owner, denom) == BalanceOf(l, owner, denom) + Due(f, b, owner, denom)
  {
  }

  /** Every balance grows by the coins its owner's fills owe it, and by nothing else. */
  lemma {:induction false} FillsPay(l: Ledger, fills: seq<OrderFill>, b: Block, owner: nat, denom: nat)
    ensures BalanceOf(ApplyFills(l, fills, b), owner, denom)
            == BalanceOf(l, owner, denom) + TotalDue(fills, b, owner, denom)
    decreases |fills|
  {
    hide ApplyFill, Due, BalanceOf;
    if fills != [] {
      FillPays(l, fills[0], b, owner, denom);
      FillsPay(ApplyFill(l, fills[0], b), fills[1..], b, owner, denom);
    }
  }

  /** Over a whole block, too. */
  lemma {:induction false} BlockPays(l: Ledger, results: seq<MatcherResult>, b: Block, owner: nat, denom: nat)
    ensures BalanceOf(SettleAll(l, results, b), owner, denom)
            == BalanceOf(l, owner, denom) + BlockDue(results, b, owner, denom)
    decreases |results|
  {
    hide ApplyFills, TotalDue;
    if results != [] {
      FillsPay(l, results[0].orderFills, b, owner, denom);
      BlockPays(ApplyResult(l, results[0], b), results[1..], b, owner, denom);
    }
  }

  lemma {:induction false} DueIsOwed(f: OrderFill, b: Block, owner: nat, denom: nat)
    requires Convertible(b.markets(f.order.market))
    ensures Due(f, b, owner, denom) == Owed(f, b.markets(f.order.market), owner, denom)
  {
    hide PayoutOf, QuoteAmount, Worth;
    if f.order.direction == Bid {
      BidPaid(f, b.markets(f.order.market));
    } else {
      AskPaid(f, b.markets(f.order.market));
    }
  }

  ghost predicate AllConvertible(b: Block) {
    forall m: nat :: Convertible(b.markets(m))
  }

  function TotalOwed(fills: seq<OrderFill>, b: Block, owner: nat, denom: nat): nat
    requires forall i :: 0 <= i < |fills| ==> Convertible(b.markets(fills[i].order.market))
  {
    if fills == [] then 0
    else Owed(fills[0], b.markets(fills[0].order.market), owner, denom) + TotalOwed(fills[1..], b, owner, denom)
  }

  ghost function BlockOwed(results: seq<MatcherResult>, b: Block, owner: nat, denom: nat): nat
    requires AllConvertible(b)
  {
    if results == [] then 0
    else TotalOwed(results[0].orderFills, b, owner, denom) + BlockOwed(results[1..], b, owner, denom)
  }

  lemma {:induction false} TotalDueIsOwed(fills: seq<OrderFill>, b: Block, owner: nat, denom: nat)
    requires AllConvertible(b)
    ensures TotalDue(fills, b, owner, denom) == TotalOwed(fills, b, owner, denom)
  {
    hide Due, Owed;
    if fills != [] {
      DueIsOwed(fills[0], b, owner, denom);
      TotalDueIsOwed(fills[1..], b, owner, denom);
    }
  }

  /** So over a block each balance grows by the base its bids bought, the worth of its asks' fills and its refunds. */
  lemma {:induction false} BlockPaysOwed(l: Ledger, results: seq<MatcherResult>, b: Block, owner: nat, denom: nat)
    requires AllConvertible(b)
    ensures BalanceOf(SettleAll(l, results, b), owner, denom)
            == BalanceOf(l, owner, denom) + BlockOwed(results, b, owner, denom)
  {
    BlockPays(l, results, b, owner, denom);
    BlockDueIsOwed(results, b, owner, denom);
  }

  lemma {:induction false} BlockDueIsOwed(results: seq<MatcherResult>, b: Block, owner: nat, denom: nat)
    requires AllConvertible(b)
    ensures BlockDue(results, b, owner, denom) == BlockOwed(results, b, owner, denom)
  {
    hide TotalDue, TotalOwed;
    if results != [] {
      TotalDueIsOwed(results[0].orderFills, b, owner, denom);
      BlockDueIsOwed(results[1..], b, owner, denom);
    }
  }

  function OrderOf(l: Ledger, id: nat): Option<Order> {
    if id in l.orders then Some(l.orders[id]) else None
  }

  /** What becomes of a filled order: kept if its fill is skipped, removed when full, reduced otherwise. */
  function Remainder(l: Ledger, f: OrderFill, b: Block): Option<Order> {
    if Paid(f, b).Unpayable? then OrderOf(l, f.order.id)
    else if f.unfilled == 0 then None
    else Some(f.order.(quantity := f.unfilled, updatedAt := b.time))
  }

  /** In plain terms: what is left of a paid order is the order with its unfilled quantity and a new timestamp. */
  lemma {:induction false} PaidRemainder(l: Ledger, f: OrderFill, b: Block)
    requires Paid(f, b).Payout? && f.filled + f.unfilled == f.order.quantity
    ensures var o := Remainder(l, f, b);
            if f.filled == f.order.quantity then o == None
            else o.Some? && o.value.quantity == f.order.quantity - f.filled && o.value.updatedAt == b.time
                 && o.value.(quantity := f.order.quantity, updatedAt := f.order.updatedAt) == f.order
  {
    hide Paid;
  }

  ghost predicate OneFillEach(fills: seq<OrderFill>) {
    forall i, j :: 0 <= i < j < |fills| ==> fills[i].order.id != fills[j].order.id
  }

  lemma {:induction false} OthersKept(l: Ledger, fills: seq<OrderFill>, b: Block, id: nat)
    requires forall i :: 0 <= i < |fills| ==> fills[i].order.id != id
    ensures OrderOf(ApplyFills(l, fills, b), id) == OrderOf(l, id)
    decreases |fills|
  {
    if fills != [] {
      hide Pay, Paid;
      OthersKept(ApplyFill(l, fills[0], b), fills[1..], b, id);
    }
  }

  /** Each filled order is removed or reduced as its own fill says; every other order is unchanged. */
  lemma {:induction false} FillsReduce(l: Ledger, fills: seq<OrderFill>, b: Block, i: nat)
    requires OneFillEach(fills) && i < |fills|
    ensures OrderOf(ApplyFills(l, fills, b), fills[i].order.id) == Remainder(l, fills[i], b)
    decreases |fills|
  {
    hide Pay, Paid;
    var l', rest := ApplyFill(l, fills[0], b), fills[1..];
    if i == 0 {
      OthersKept(l', rest, b, fills[0].order.id);
    } else {
      FillsReduce(l', rest, b, i - 1);
      assert OrderOf(l', fills[i].order.id) == OrderOf(l, fills[i].order.id);
    }
  }

  ghost predicate IsFilled(results: seq<MatcherResult>, id: nat) {
    exists i, k :: 0 <= i < |results| && 0 <= k < |results[i].orderFills| && results[i].orderFills[k].order.id == id
  }

  /** Over a whole block an order without a fill is unchanged. */
  lemma {:induction false} BlockKeepsOthers(l: Ledger, results: seq<MatcherResult>, b: Block, id: nat)
    requires !IsFilled(results, id)
    ensures OrderOf(SettleAll(l, results, b), id) == OrderOf(l, id)
    decreases |results|
  {
    hide ApplyFills;
    if results != [] {
      OthersKept(l, results[0].orderFills, b, id);
      assert forall i :: 0 <= i < |results[1..]| ==> results[1..][i] == results[i + 1];
      BlockKeepsOthers(ApplyResult(l, results[0], b), results[1..], b, id);
    }
  }

  /** No order has two fills, be it in one result or in two. */
  ghost predicate FilledOnce(results: seq<MatcherResult>) {
    && (forall i :: 0 <= i < |results| ==> OneFillEach(results[i].orderFills))
    && (forall i, j :: 0 <= i < j < |results| ==> Disjoint(results[i].orderFills, results[j].orderFills))
  }

  /** And an order with a fill becomes what that fill says, whichever other results are settled around it. */
  lemma {:induction false} BlockReduces(l: Ledger, results: seq<MatcherResult>, b: Block, i: nat, k: nat)
    requires FilledOnce(results) && i < |results| && k < |results[i].orderFills|
    ensures var f := results[i].orderFills[k];
            OrderOf(SettleAll(l, results, b), f.order.id) == Remainder(l, f, b)
    decreases |results|
  {
    hide ApplyFills, Paid;
    var f, rest := results[i].orderFills[k], results[1..];
    var l' := ApplyResult(l, results[0], b);
    if i == 0 {
      FillsReduce(l, results[0].orderFills, b, k);
      assert forall j :: 0 <= j < |rest| ==> OtherOrder(f, rest[j].orderFills);
      BlockKeepsOthers(l', rest, b, f.order.id);
    } else {
      assert Disjoint(results[0].orderFills, results[i].orderFills);
      OthersKept(l, results[0].orderFills, b, f.order.id);
      assert rest[i - 1] == results[i];
      BlockReduces(l', rest, b, i - 1, k);
    }
  }

  lemma {:induction false} HistoryOfOthers(l: Ledger, results: seq<MatcherResult>, b: Block, market: nat)
    requires forall i :: 0 <= i < |results| ==> results[i].market != market
    ensures ((market, b.height) in SettleAll(l, results, b).history) <==> ((market, b.height) in l.history)
    ensures (market, b.height) in l.history ==>
              SettleAll(l, results, b).history[(market, b.height)] == l.history[(market, b.height)]
    decreases |results|
  {
    hide ApplyFills, NewHistoryItem;
    if results != [] {
      FillsIgnoreHistory(l, results[0].orderFills, b, l.history);
      HistoryOfOthers(ApplyResult(l, results[0], b), results[1..], b, market);
    }
  }

  /** Each result leaves its history item under its market and the block's height. */
  lemma {:induction false} HistoryOfResult(l: Ledger, results: seq<MatcherResult>, b: Block, i: nat)
    requires i < |results| && forall j, k :: 0 <= j < k < |results| ==> results[j].market != results[k].market
    ensures var k := (results[i].market, b.height);
            k in SettleAll(l, results, b).history && SettleAll(l, results, b).history[k] == NewHistoryItem(results[i], b)
    decreases |results|
  {
    hide ApplyFills, NewHistoryItem;
    var l', rest := ApplyResult(l, results[0], b), results[1..];
    if i == 0 {
      assert forall j :: 0 <= j < |rest| ==> rest[j] == results[j + 1];
      HistoryOfOthers(l', rest, b, results[0].market);
    } else {
      HistoryOfResult(l', rest, b, i - 1);
    }
  }

  /** Every stored order is unchanged, removed or reduced as its own fill, if it has one, says. */
  ghost predicate OrdersSettled(l: Ledger, l': Ledger, results: seq<MatcherResult>, b: Block) {
    && (forall i, k :: 0 <= i < |results| && 0 <= k < |results[i].orderFills| ==>
          OrderOf(l', results[i].orderFills[k].order.id) == Remainder(l, results[i].orderFills[k], b))
    && (forall id :: !IsFilled(results, id) ==> OrderOf(l', id) == OrderOf(l, id))
  }

  lemma {:induction false} BlockSettlesOrders(l: Ledger, results: seq<MatcherResult>, b: Block)
    requires FilledOnce(results)
    ensures OrdersSettled(l, SettleAll(l, results, b), results, b)
  {
    hide SettleAll, FilledOnce, Remainder, IsFilled, OrderOf;
    var l' := SettleAll(l, results, b);
    forall i, k | 0 <= i < |results| && 0 <= k < |results[i].orderFills|
      ensures OrderOf(l', results[i].orderFills[k].order.id) == Remainder(l, results[i].orderFills[k], b)
    {
      BlockReduces(l, results, b, i, k);
    }
    forall id | !IsFilled(results, id) ensures OrderOf(l', id) == OrderOf(l, id) {
      BlockKeepsOthers(l, results, b, id);
    }
  }

  /** Orders are stored under their own ids. */
  ghost predicate Keyed(l: Ledger) {
    forall id :: id in l.orders ==> l.orders[id].id == id
  }

  lemma {:induction false} FillsKeepKeyed(l: Ledger, fills: seq<OrderFill>, b: Block)
    requires Keyed(l)
    ensures Keyed(ApplyFills(l, fills, b))
    decreases |fills|
  {
    hide Pay, Paid;
    if fills != [] { FillsKeepKeyed(ApplyFill(l, fills[0], b), fills[1..], b); }
  }

  lemma {:induction false} BlockKeepsKeyed(l: Ledger, results: seq<MatcherResult>, b: Block)
    requires Keyed(l)
    ensures Keyed(SettleAll(l, results, b))
    decreases |results|
  {
    hide ApplyFills;
    if results != [] {
      FillsKeepKeyed(l, results[0].orderFills, b);
      BlockKeepsKeyed(ApplyResult(l, results[0], b), results[1..], b);
    }
  }

  // ---- what settling leaves alone, and that it commutes ----

  ghost predicate OtherOrder(f: OrderFill, fills: seq<OrderFill>) {
    forall i :: 0 <= i < |fills| ==> fills[i].order.id != f.order.id
  }

  ghost predicate Disjoint(a: seq<OrderFill>, b: seq<OrderFill>) {
    forall i :: 0 <= i < |a| ==> OtherOrder(a[i], b)
  }

  lemma {:induction false} CreditsCommute(m: map<(nat, nat), nat>, o: nat, c: Coin, p: nat, d: Coin)
    ensures Credit(Credit(m, o, c), p, d) == Credit(Credit(m, p, d), o, c)
  {
  }

  lemma {:induction false} PaysCommute(m: map<(nat, nat), nat>, o: nat, c: Coin, r: Option<Coin>, p: nat, d: Coin, s: Option<Coin>)
    ensures Pay(Pay(m, o, c, r), p, d, s) == Pay(Pay(m, p, d, s), o, c, r)
  {
    hide Credit;
    var c1, d1 := Credit(m, o, c), Credit(m, p, d);
    CreditsCommute(m, o, c, p, d);
    var cd := Credit(c1, p, d);
    if r.Some? {
      CreditsCommute(c1, o, r.value, p, d);
      CreditsCommute(d1, o, c, p, d);
    }
    if s.Some? {
      CreditsCommute(d1, p, s.value, o, c);
    }
    if r.Some? && s.Some? {
      CreditsCommute(cd, o, r.value, p, s.value);
      CreditsCommute(Credit(d1, p, s.value), o, c, o, r.value);
    }
  }

  lemma {:induction false} FillsOfTwoOrdersCommute(l: Ledger, f: OrderFill, g: OrderFill, b: Block)
    requires f.order.id != g.order.id
    ensures ApplyFill(ApplyFill(l, f, b), g, b) == ApplyFill(ApplyFill(l, g, b), f, b)
  {
    hide Pay, Paid;
    var p, q := Paid(f, b), Paid(g, b);
    if p.Payout? && q.Payout? {
      PaysCommute(l.balances, f.order.owner, p.fill, p.refund, g.order.owner, q.fill, q.refund);
      var fg, gf := ApplyFill(ApplyFill(l, f, b), g, b), ApplyFill(ApplyFill(l, g, b), f, b);
      assert fg.orders == gf.orders;
    }
  }

  lemma {:induction false} FillPasses(l: Ledger, f: OrderFill, fills: seq<OrderFill>, b: Block)
    requires OtherOrder(f, fills)
    ensures ApplyFills(ApplyFill(l, f, b), fills, b) == ApplyFill(ApplyFills(l, fills, b), f, b)
    decreases |fills|
  {
    hide ApplyFill;
    if fills != [] {
      FillsOfTwoOrdersCommute(l, f, fills[0], b);
      FillPasses(ApplyFill(l, fills[0], b), f, fills[1..], b);
    }
  }

  lemma {:induction false} FillsCommute(l: Ledger, x: seq<OrderFill>, y: seq<OrderFill>, b: Block)
    requires Disjoint(x, y)
    ensures ApplyFills(ApplyFills(l, x, b), y, b) == ApplyFills(ApplyFills(l, y, b), x, b)
    decreases |x|
  {
    hide ApplyFill;
    if x != [] {
      FillPasses(l, x[0], y, b);
      FillsCommute(ApplyFill(l, x[0], b), x[1..], y, b);
    }
  }

  /** Fills do not read or write the history. */
  lemma {:induction false} FillsIgnoreHistory(l: Ledger, fills: seq<OrderFill>, b: Block, h: map<(nat, int), HistoryItem>)
    ensures ApplyFills(l.(history := h), fills, b) == ApplyFills(l, fills, b).(history := h)
    ensures ApplyFills(l, fills, b).history == l.history
    decreases |fills|
  {
    if fills != [] {
      FillsIgnoreHistory(ApplyFill(l, fills[0], b), fills[1..], b, h);
    }
  }

  /** Two results that touch different markets and different orders. */
  ghost predicate Apart(r: MatcherResult, s: MatcherResult) {
    r.market != s.market && Disjoint(r.orderFills, s.orderFills)
  }

  lemma {:induction false} ResultsCommute(l: Ledger, r: MatcherResult, s: MatcherResult, b: Block)
    requires Apart(r, s)
    ensures ApplyResult(ApplyResult(l, r, b), s, b) == ApplyResult(ApplyResult(l, s, b), r, b)
  {
    hide ApplyFills, NewHistoryItem;
    var x, y := r.orderFills, s.orderFills;
    var lr, ls := ApplyFills(l, x, b), ApplyFills(l, y, b);
    FillsCommute(l, x, y, b);
    FillsIgnoreHistory(l, x, b, l.history);
    FillsIgnoreHistory(l, y, b, l.history);
    FillsIgnoreHistory(lr, y, b, ApplyResult(l, r, b).history);
    FillsIgnoreHistory(ls, x, b, ApplyResult(l, s, b).history);
    FillsIgnoreHistory(lr, y, b, l.history);
    FillsIgnoreHistory(ls, x, b, l.history);
    var i, j := (r.market, b.height), (s.market, b.height);
    assert l.history[i := NewHistoryItem(r, b)][j := NewHistoryItem(s, b)]
        == l.history[j := NewHistoryItem(s, b)][i := NewHistoryItem(r, b)];
  }

  /** Every result once, any two of them apart: a property of the collection, not of its order. */
  ghost predicate Independent(results: multiset<MatcherResult>) {
    && (forall r :: r in results ==> results[r] == 1)
    && (forall r, s :: r in results && s in results && r != s ==> Apart(r, s))
  }

  lemma {:induction false} IndependentRest(results: multiset<MatcherResult>, r: MatcherResult)
    requires Independent(results) && r in results
    ensures Independent(results - multiset{r})
    ensures forall s :: s in results - multiset{r} ==> Apart(s, r)
  {
  }

  /** A result may be settled before the ones listed ahead of it. */
  lemma {:induction false} SettleEarlier(l: Ledger, before: seq<MatcherResult>, r: MatcherResult, after: seq<MatcherResult>, b: Block)
    requires forall i :: 0 <= i < |before| ==> Apart(before[i], r)
    ensures SettleAll(l, before + [r] + after, b) == SettleAll(ApplyResult(l, r, b), before + after, b)
    decreases |before|
  {
    hide ApplyResult, Apart;
    if before == [] {
      assert [] + [r] + after == [r] + after;
      assert ([r] + after)[1..] == after;
      assert [] + after == after;
    } else {
      var list := before + [r] + after;
      assert list[0] == before[0] && list[1..] == before[1..] + [r] + after;
      assert (before + after)[0] == before[0] && (before + after)[1..] == before[1..] + after;
      ResultsCommute(l, before[0], r, b);
      SettleEarlier(ApplyResult(l, before[0], b), before[1..], r, after, b);
    }
  }

  /**
    Confluence: the matcher pool walks a map in no particular order, and every order of the
    same results leaves the same balances, stored orders and history.
   */
  lemma {:induction false} Confluence(l: Ledger, x: seq<MatcherResult>, y: seq<MatcherResult>, b: Block)
    requires multiset(x) == multiset(y) && Independent(multiset(x))
    ensures SettleAll(l, x, b) == SettleAll(l, y, b)
    decreases |x|
  {
    hide ApplyResult, Apart, Independent;
    PermutationLength(x, y);
    if x != [] {
      var k := HeadCanGoFirst(x, y);
      var r := x[0];
      SettleEarlier(l, y[..k], r, y[k + 1..], b);
      assert y == y[..k] + [r] + y[k + 1..];
      Confluence(ApplyResult(l, r, b), x[1..], RemoveAt(y, k), b);
    }
  }

  lemma {:induction false} HeadCanGoFirst(x: seq<MatcherResult>, y: seq<MatcherResult>) returns (k: nat)
    requires multiset(x) == multiset(y) && Independent(multiset(x)) && x != []
    ensures k < |y| && y[k] == x[0]
    ensures forall i :: 0 <= i < k ==> Apart(y[i], x[0])
    ensures multiset(x[1..]) == multiset(RemoveAt(y, k))
    ensures Independent(multiset(x[1..]))
  {
    hide Apart;
    k := FindHead(x, y);
    var rest := RemoveAt(y, k);
    TailContents(x);
    IndependentRest(multiset(x), x[0]);
    hide Independent;
    forall i | 0 <= i < k ensures Apart(y[i], x[0]) {
      assert rest[i] == y[i];
      assert rest[i] in multiset(rest);
    }
  }

  // ---- the keeper that executes fills ----

  class OrdersKeeper {
    var balances: map<(nat, nat), nat>
    var orders: map<nat, Order>
    var history: map<(nat, int), HistoryItem>

    constructor (l: Ledger)
      ensures View() == l
    {
      balances, orders, history := l.balances, l.orders, l.history;
    }

    function View(): Ledger
      reads this
    {
      Ledger(balances, orders, history)
    }

    method ExecuteOrderFills(fills: seq<OrderFill>, b: Block) returns (panicked: bool)
      modifies this`balances, this`orders
      ensures panicked <==> SomeRefused(fills, b)
      ensures !panicked ==> View() == ApplyFills(old(View()), fills, b)
    {
      hide FillCoin, RefundCoin;
      for i := 0 to |fills|
        invariant ApplyFills(View(), fills[i..], b) == ApplyFills(old(View()), fills, b)
        invariant forall k :: 0 <= k < i ==> !Refused(fills[k], b)
      {
        var f := fills[i];
        assert fills[i..][1..] == fills[i + 1..];
        var market := b.markets(f.order.market);
        var fillCoin := FillCoin(f, market);
        if fillCoin.MakingPanics? { return true; }
        if fillCoin.NotMade? {
          continue;
        }
        if !b.valid(fillCoin.coin) { return true; }
        balances := Credit(balances, f.order.owner, fillCoin.coin);
        var refundCoin := RefundCoin(f, market);
        if refundCoin.MakingPanics? { return true; }
        if refundCoin.Made? {
          if !b.valid(refundCoin.coin) { return true; }
          balances := Credit(balances, f.order.owner, refundCoin.coin);
        }
        if f.unfilled == 0 {
          orders := orders - {f.order.id};
        } else {
          orders := orders[f.order.id := f.order.(quantity := f.unfilled, updatedAt := b.time)];
        }
      }
      return false;
    }

    /** One result of the pool: its fills, then its history item. */
    method ProcessResult(r: MatcherResult, b: Block) returns (panicked: bool)
      modifies this
      ensures panicked <==> SomeRefused(r.orderFills, b)
      ensures !panicked ==> View() == ApplyResult(old(View()), r, b)
    {
      FillsIgnoreHistory(View(), r.orderFills, b, history);
      panicked := ExecuteOrderFills(r.orderFills, b);
      if panicked { return; }
      history := history[(r.market, b.height) := NewHistoryItem(r, b)];
    }
  }
}
