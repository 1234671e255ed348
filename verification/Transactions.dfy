/**
  What running one transaction does, on plain stores: the ante handler, then every message in
  turn, under a transaction gas meter and a block gas meter, with errors and panics.
 */
module Transactions {
  import opened Wrappers
  import opened Caches

  type TxBytes = seq<nat>

  datatype Mode = CheckMode | ReCheckMode | SimulateMode | DeliverMode

  datatype Panic = OutOfGas | VMCrashed | OtherPanic

  /** Gas is a 64-bit unsigned number. */
  const MAX_GAS: nat := 0xffff_ffff_ffff_ffff

  datatype Meter = Infinite(consumed: nat) | Finite(limit: nat, consumed: nat) {
    predicate IsOutOfGas() {
      Finite? && consumed >= limit
    }

    function ToLimit(): nat {
      if Finite? && consumed > limit then limit else consumed
    }

    function Limit(): nat {
      if Finite? then limit else 0
    }

    /** The gas is taken even when that panics; a meter that overflows restarts at zero. */
    function Consume(amount: nat): (r: (Meter, Option<Panic>))
      ensures r.1 == None ==> r.0.consumed == consumed + amount && (Finite? ==> r.0.consumed <= limit)
      ensures r.1 == Some(OutOfGas) ==> r.0.IsOutOfGas()
    {
      if consumed + amount > MAX_GAS then (this.(consumed := 0), Some(OtherPanic))
      else
        var m := this.(consumed := consumed + amount);
        (m, if m.Finite? && m.consumed > m.limit then Some(OutOfGas) else None)
    }
  }

  datatype Header = Header(height: int, time: int, info: nat)

  datatype Ctx = Ctx(header: Header, votes: nat, maxGas: Option<int>, mode: Mode, bytes: TxBytes)

  datatype Msg = Msg(route: string, kind: string, payload: nat)

  datatype Tx = Tx(msgs: seq<Msg>, auth: nat)

  datatype Ending<E> = Fine | Failed(err: E) | Panicked(panic: Panic)

  /** The writes are those in the cache the handler was given, however it ended. */
  datatype HandlerResult = HandlerResult(ending: Ending<nat>, writes: Writes, consumed: nat, data: seq<nat>)

  /** `gas` is what the surrounding context's own meter shows; `meter` is set when a new context is returned. */
  datatype AnteResult = AnteResult(ending: Ending<nat>, writes: Writes, gas: nat, meter: Option<Meter>)

  datatype BlockResult = BlockResult(writes: Writes, gas: nat, panics: bool)

  /** The functions the application is built from. */
  datatype Env = Env(
    decode: TxBytes -> Option<Tx>,
    basic: Msg -> bool,
    ante: Option<(Ctx, Tx, Store, nat) -> AnteResult>,
    verify: Msg -> Option<nat>,
    denied: map<string, seq<string>>,
    routes: set<string>,
    handle: (Ctx, Msg, Store, Meter) -> HandlerResult,
    paramsKey: string,
    encodeParams: int -> string,
    initChainer: Option<(Header, Store) -> BlockResult>,
    beginBlocker: Option<(Header, Store, nat) -> BlockResult>,
    endBlocker: Option<(Header, Store, nat) -> BlockResult>,
    haltHeight: nat,    // zero for none
    haltTime: nat)      // in seconds, zero for none

  datatype Err =
    | BlockGasSpent | NoMessages | InvalidMessage(index: nat) | AnteFailed(code: nat) | VerifierFailed(code: nat)
    | MessageDenied(index: nat) | UnknownRoute(index: nat) | MessageFailed(index: nat, code: nat)
    | GasExceeded | PanicRecovered | Undecodable

  /** The check or deliver state: a context with its store and its own, unlimited gas meter. */
  datatype View = View(header: Header, store: Store, gas: nat)

  // ---- messages ----

  datatype MsgsRun = MsgsRun(ending: Ending<Err>, store: Store, consumed: nat, data: seq<nat>)

  predicate Denied(env: Env, msg: Msg) {
    msg.route in env.denied && msg.kind in env.denied[msg.route]
  }

  /** Whether a message reaches its handler. */
  predicate Dispatched(env: Env, msg: Msg) {
    env.verify(msg).None? && !Denied(env, msg) && msg.route in env.routes
  }

  /** The messages from the i-th on; check modes verify one message and execute none. */
  function RunMsgs(env: Env, ctx: Ctx, msgs: seq<Msg>, i: nat, store: Store, meter: Meter, data: seq<nat>): MsgsRun
    requires i <= |msgs|
    decreases |msgs| - i
  {
    if i == |msgs| then MsgsRun(Fine, store, meter.consumed, data)
    else
      var msg := msgs[i];
      if env.verify(msg).Some? then MsgsRun(Failed(VerifierFailed(env.verify(msg).value)), store, meter.consumed, [])
      else if ctx.mode.CheckMode? || ctx.mode.ReCheckMode? then MsgsRun(Fine, store, meter.consumed, data)
      else if Denied(env, msg) then MsgsRun(Failed(MessageDenied(i)), store, meter.consumed, [])
      else if msg.route !in env.routes then MsgsRun(Failed(UnknownRoute(i)), store, meter.consumed, [])
      else
        var r := env.handle(ctx, msg, store, meter);
        var store' := Apply(store, r.writes);
        match r.ending
        case Fine => RunMsgs(env, ctx, msgs, i + 1, store', meter.(consumed := r.consumed), data + r.data)
        case Failed(code) => MsgsRun(Failed(MessageFailed(i, code)), store', r.consumed, [])
        case Panicked(panic) => MsgsRun(Panicked(panic), store', r.consumed, [])
  }

  /** One store and one meter before each message and after the last: every message succeeded. */
  ghost predicate AllSucceed(env: Env, ctx: Ctx, msgs: seq<Msg>, stores: seq<Store>, meters: seq<Meter>) {
    && |stores| == |meters| == |msgs| + 1
    && forall i {:trigger msgs[i]} :: 0 <= i < |msgs| ==>
         && Dispatched(env, msgs[i])
         && var r := env.handle(ctx, msgs[i], stores[i], meters[i]);
            && r.ending.Fine? && stores[i + 1] == Apply(stores[i], r.writes)
            && meters[i + 1] == meters[i].(consumed := r.consumed)
  }

  predicate Executes(mode: Mode) {
    mode.SimulateMode? || mode.DeliverMode?
  }

  /** What the handlers of the messages from the i-th on return, one after the other. */
  ghost function Results(env: Env, ctx: Ctx, msgs: seq<Msg>, i: nat, stores: seq<Store>, meters: seq<Meter>): seq<nat>
    requires i <= |msgs| < |stores| && |msgs| < |meters|
    decreases |msgs| - i
  {
    if i == |msgs| then []
    else env.handle(ctx, msgs[i], stores[i], meters[i]).data + Results(env, ctx, msgs, i + 1, stores, meters)
  }

  /** When all messages succeed, each in turn, so does the whole, and it ends in the last store with all their results. */
  lemma {:induction false} SucceedsForward(
      env: Env, ctx: Ctx, msgs: seq<Msg>, i: nat, stores: seq<Store>, meters: seq<Meter>, data: seq<nat>)
    requires Executes(ctx.mode) && i <= |msgs| && AllSucceed(env, ctx, msgs, stores, meters)
    ensures var r := RunMsgs(env, ctx, msgs, i, stores[i], meters[i], data);
            && r.ending == Fine && r.store == stores[|msgs|] && meters[|msgs|] == meters[i].(consumed := r.consumed)
            && r.data == data + Results(env, ctx, msgs, i, stores, meters)
    decreases |msgs| - i
  {
    if i < |msgs| {
      var r := env.handle(ctx, msgs[i], stores[i], meters[i]);
      SucceedsForward(env, ctx, msgs, i + 1, stores, meters, data + r.data);
      var rest := Results(env, ctx, msgs, i + 1, stores, meters);
      assert data + (r.data + rest) == (data + r.data) + rest;
    } else {
      assert data + [] == data;
    }
  }

  /** When the whole succeeds, so did every message. */
  lemma {:induction false} SucceedsBackward(
      env: Env, ctx: Ctx, msgs: seq<Msg>, i: nat, store: Store, meter: Meter, data: seq<nat>)
    returns (stores: seq<Store>, meters: seq<Meter>)
    requires Executes(ctx.mode) && i <= |msgs| && RunMsgs(env, ctx, msgs, i, store, meter, data).ending == Fine
    ensures AllSucceed(env, ctx, msgs[i..], stores, meters) && stores[0] == store && meters[0] == meter
    ensures var r := RunMsgs(env, ctx, msgs, i, store, meter, data);
            stores[|msgs| - i] == r.store && meters[|msgs| - i] == meter.(consumed := r.consumed)
    decreases |msgs| - i
  {
    if i == |msgs| {
      stores, meters := [store], [meter];
    } else {
      var r := env.handle(ctx, msgs[i], store, meter);
      var stores', meters' :=
        SucceedsBackward(env, ctx, msgs, i + 1, Apply(store, r.writes), meter.(consumed := r.consumed), data + r.data);
      stores, meters := [store] + stores', [meter] + meters';
      assert msgs[i..][1..] == msgs[i + 1..] && stores[1..] == stores' && meters[1..] == meters';
      hide RunMsgs, Apply, AllSucceed;
      SucceedsPrepend(env, ctx, msgs[i..], stores, meters);
    }
  }

  lemma {:induction false} SucceedsPrepend(env: Env, ctx: Ctx, msgs: seq<Msg>, stores: seq<Store>, meters: seq<Meter>)
    requires msgs != [] && |stores| > 1 && |meters| > 1 && Dispatched(env, msgs[0])
    requires AllSucceed(env, ctx, msgs[1..], stores[1..], meters[1..])
    requires var r := env.handle(ctx, msgs[0], stores[0], meters[0]);
             && r.ending.Fine? && stores[1] == Apply(stores[0], r.writes)
             && meters[1] == meters[0].(consumed := r.consumed)
    ensures AllSucceed(env, ctx, msgs, stores, meters)
  {
    hide Apply, Dispatched;
    forall k | 0 < k < |msgs|
      ensures Dispatched(env, msgs[k])
      ensures var h := env.handle(ctx, msgs[k], stores[k], meters[k]);
              && h.ending.Fine? && stores[k + 1] == Apply(stores[k], h.writes)
              && meters[k + 1] == meters[k].(consumed := h.consumed)
    {
      assert msgs[k] == msgs[1..][k - 1] && stores[k] == stores[1..][k - 1] && meters[k] == meters[1..][k - 1];
    }
  }

  /** Messages before the i-th succeed in turn, and the i-th panics having used `gas` in all, up to the limit. */
  ghost predicate PanicsAt(
      env: Env, ctx: Ctx, msgs: seq<Msg>, i: nat, stores: seq<Store>, meters: seq<Meter>, panic: Panic, gas: nat)
  {
    && i < |msgs| && AllSucceed(env, ctx, msgs[..i], stores, meters) && Dispatched(env, msgs[i])
    && var h := env.handle(ctx, msgs[i], stores[i], meters[i]);
       h.ending == Panicked(panic) && gas == meters[i].(consumed := h.consumed).ToLimit()
  }

  /** A run follows the messages that succeed. */
  lemma {:induction false} RunsTo(
      env: Env, ctx: Ctx, msgs: seq<Msg>, i: nat, k: nat, stores: seq<Store>, meters: seq<Meter>, data: seq<nat>)
    returns (data': seq<nat>)
    requires Executes(ctx.mode) && i <= k <= |msgs| && AllSucceed(env, ctx, msgs[..k], stores, meters)
    ensures RunMsgs(env, ctx, msgs, i, stores[i], meters[i], data) == RunMsgs(env, ctx, msgs, k, stores[k], meters[k], data')
    ensures meters[k] == meters[i].(consumed := meters[k].consumed)
    decreases k - i
  {
    data' := data;
    if i < k {
      assert msgs[i] == msgs[..k][i];
      data' := RunsTo(env, ctx, msgs, i + 1, k, stores, meters, data + env.handle(ctx, msgs[i], stores[i], meters[i]).data);
    }
  }

  lemma {:induction false} PanicsForward(
      env: Env, ctx: Ctx, msgs: seq<Msg>, i: nat, stores: seq<Store>, meters: seq<Meter>, panic: Panic, gas: nat)
    requires Executes(ctx.mode) && PanicsAt(env, ctx, msgs, i, stores, meters, panic, gas)
    ensures var r := RunMsgs(env, ctx, msgs, 0, stores[0], meters[0], []);
            r.ending == Panicked(panic) && meters[0].(consumed := r.consumed).ToLimit() == gas
  {
    var data := RunsTo(env, ctx, msgs, 0, i, stores, meters, []);
  }

  /** Why a message is not executed, or fails: the first check that it does not pass. */
  ghost function Refusal(env: Env, ctx: Ctx, msg: Msg, i: nat, store: Store, meter: Meter): Option<Err> {
    if env.verify(msg).Some? then Some(VerifierFailed(env.verify(msg).value))
    else if Denied(env, msg) then Some(MessageDenied(i))
    else if msg.route !in env.routes then Some(UnknownRoute(i))
    else
      match env.handle(ctx, msg, store, meter).ending
      case Failed(code) => Some(MessageFailed(i, code))
      case _ => None
  }

  /** The first message that is refused, after those before it succeeded, decides the error. */
  lemma {:induction false} FailsForward(env: Env, ctx: Ctx, msgs: seq<Msg>, i: nat, stores: seq<Store>, meters: seq<Meter>)
    requires Executes(ctx.mode) && i < |msgs| && AllSucceed(env, ctx, msgs[..i], stores, meters)
    requires Refusal(env, ctx, msgs[i], i, stores[i], meters[i]).Some?
    ensures RunMsgs(env, ctx, msgs, 0, stores[0], meters[0], []).ending
            == Failed(Refusal(env, ctx, msgs[i], i, stores[i], meters[i]).value)
  {
    var data := RunsTo(env, ctx, msgs, 0, i, stores, meters, []);
  }

  lemma {:induction false} PanicsBackward(
      env: Env, ctx: Ctx, msgs: seq<Msg>, i: nat, store: Store, meter: Meter, data: seq<nat>, panic: Panic)
    returns (k: nat, stores: seq<Store>, meters: seq<Meter>)
    requires Executes(ctx.mode) && i <= |msgs| && RunMsgs(env, ctx, msgs, i, store, meter, data).ending == Panicked(panic)
    ensures var r := RunMsgs(env, ctx, msgs, i, store, meter, data);
            PanicsAt(env, ctx, msgs[i..], k, stores, meters, panic, meter.(consumed := r.consumed).ToLimit())
    ensures stores[0] == store && meters[0] == meter
    decreases |msgs| - i
  {
    var h := env.handle(ctx, msgs[i], store, meter);
    if h.ending.Fine? {
      var k', stores', meters' :=
        PanicsBackward(env, ctx, msgs, i + 1, Apply(store, h.writes), meter.(consumed := h.consumed), data + h.data, panic);
      k, stores, meters := k' + 1, [store] + stores', [meter] + meters';
      var rest := msgs[i..];
      assert rest[..k][1..] == msgs[i + 1..][..k'] && stores[1..] == stores' && meters[1..] == meters';
      hide RunMsgs, Apply;
      SucceedsPrepend(env, ctx, rest[..k], stores, meters);
      hide AllSucceed;
      assert rest[k] == msgs[i + 1..][k'];
    } else {
      k, stores, meters := 0, [store], [meter];
    }
  }

  // ---- a transaction without its block gas ----

  datatype Body = Body(ending: Ending<Err>, view: View, meter: Meter, wanted: nat, data: seq<nat>)

  /** The index of the first message that is malformed. */
  function FirstInvalid(env: Env, msgs: seq<Msg>): (i: nat)
    ensures i <= |msgs| && (i < |msgs| ==> !env.basic(msgs[i]))
    ensures forall k :: 0 <= k < i ==> env.basic(msgs[k])
  {
    if msgs == [] then 0 else if !env.basic(msgs[0]) then 0 else FirstInvalid(env, msgs[1..]) + 1
  }

  /** Messages after the ante handler; without a meter of its own the transaction runs on the context's. */
  function RunMessages(env: Env, ctx: Ctx, view: View, tx: Tx, own: Option<Meter>, wanted: nat): Body {
    var meter := if own.Some? then own.value else Infinite(view.gas);
    var r := RunMsgs(env, ctx, tx.msgs, 0, view.store, meter, []);
    var kept := if own.Some? then view else view.(gas := r.consumed);
    Body(
      r.ending,
      if r.ending.Fine? && ctx.mode.DeliverMode? then kept.(store := r.store) else kept,
      meter.(consumed := r.consumed), wanted, r.data)
  }

  function RunBody(env: Env, ctx: Ctx, view: View, tx: Tx): Body {
    if tx.msgs == [] then Body(Failed(NoMessages), view, Infinite(view.gas), 0, [])
    else if FirstInvalid(env, tx.msgs) < |tx.msgs| then
      Body(Failed(InvalidMessage(FirstInvalid(env, tx.msgs))), view, Infinite(view.gas), 0, [])
    else if env.ante.None? then RunMessages(env, ctx, view, tx, None, 0)
    else
      var a := env.ante.value(ctx, tx, view.store, view.gas);
      var view' := view.(gas := a.gas);
      var meter := if a.meter.Some? then a.meter.value else Infinite(a.gas);
      match a.ending
      case Panicked(panic) => Body(Panicked(panic), view', Infinite(a.gas), 0, [])
      case Failed(code) => Body(Failed(AnteFailed(code)), view', meter, meter.Limit(), [])
      case Fine =>
        RunMessages(env, ctx, view'.(store := Apply(view.store, a.writes)), tx, a.meter, meter.Limit())
  }

  lemma {:induction false} BodyKeepsHeader(env: Env, ctx: Ctx, view: View, tx: Tx)
    ensures RunBody(env, ctx, view, tx).view.header == view.header
  {
    hide Apply, RunMsgs;
  }

  // ---- a transaction ----

  datatype Answer = Response(err: Option<Err>, wanted: nat, used: nat, data: seq<nat>) | Crash

  datatype TxRun = TxRun(view: View, block: Option<Meter>, answer: Answer)

  /** The block meter is charged before panics are recovered, so its own panic replaces one under way. */
  function Recovered(ending: Ending<Err>, late: Option<Panic>): Ending<Err> {
    match late
    case Some(panic) => Panicked(panic)
    case None => ending
  }

  function Respond(ending: Ending<Err>, wanted: nat, used: nat, data: seq<nat>): Answer {
    match ending
    case Fine => Response(None, wanted, used, data)
    case Failed(err) => Response(Some(err), wanted, used, [])
    case Panicked(OutOfGas) => Response(Some(GasExceeded), wanted, used, [])
    case Panicked(VMCrashed) => Crash
    case Panicked(OtherPanic) => Response(Some(PanicRecovered), wanted, used, [])
  }

  function RunTx(env: Env, ctx: Ctx, view: View, block: Option<Meter>, tx: Tx): TxRun {
    if ctx.mode.DeliverMode? then
      if block.None? then TxRun(view, block, Crash)
      else if block.value.IsOutOfGas() then
        TxRun(view, block, Response(Some(BlockGasSpent), 0, block.value.consumed, []))
      else
        var body := RunBody(env, ctx, view, tx);
        var (block', late) := block.value.Consume(body.meter.ToLimit());
        TxRun(body.view, Some(block'), Respond(Recovered(body.ending, late), body.wanted, body.meter.consumed, body.data))
    else
      var body := RunBody(env, ctx, view, tx);
      var view' := if ctx.mode.SimulateMode? then body.view.(store := view.store) else body.view;
      TxRun(view', block, Respond(body.ending, body.wanted, body.meter.consumed, body.data))
  }

  // ---- atomicity ----

  predicate WellFormed(env: Env, tx: Tx) {
    tx.msgs != [] && forall i :: 0 <= i < |tx.msgs| ==> env.basic(tx.msgs[i])
  }

  predicate AntePasses(env: Env, ctx: Ctx, view: View, tx: Tx) {
    env.ante.Some? ==> env.ante.value(ctx, tx, view.store, view.gas).ending.Fine?
  }

  function AnteStore(env: Env, ctx: Ctx, view: View, tx: Tx): Store {
    if env.ante.None? then view.store
    else Apply(view.store, env.ante.value(ctx, tx, view.store, view.gas).writes)
  }

  function MsgMeter(env: Env, ctx: Ctx, view: View, tx: Tx): Meter {
    if env.ante.None? then Infinite(view.gas)
    else
      var a := env.ante.value(ctx, tx, view.store, view.gas);
      if a.meter.Some? then a.meter.value else Infinite(a.gas)
  }

  /** Every message succeeds in turn, from what the ante handler left to `after`, using `gas` in all, up to the limit. */
  ghost predicate MessagesPass(env: Env, ctx: Ctx, view: View, tx: Tx, after: Store, gas: nat) {
    exists stores: seq<Store>, meters: seq<Meter> ::
      && AllSucceed(env, ctx, tx.msgs, stores, meters)
      && stores[0] == AnteStore(env, ctx, view, tx) && meters[0] == MsgMeter(env, ctx, view, tx)
      && stores[|tx.msgs|] == after && meters[|tx.msgs|].ToLimit() == gas
  }

  /** The ante handler panics, or some message does after those before it succeeded. */
  ghost predicate Panics(env: Env, ctx: Ctx, view: View, tx: Tx, panic: Panic, gas: nat) {
    if !AntePasses(env, ctx, view, tx) then
      var a := env.ante.value(ctx, tx, view.store, view.gas);
      a.ending == Panicked(panic) && gas == a.gas
    else MessagePanics(env, ctx, view, tx, panic, gas)
  }

  ghost predicate MessagePanics(env: Env, ctx: Ctx, view: View, tx: Tx, panic: Panic, gas: nat) {
    exists i, stores, meters ::
      && PanicsAt(env, ctx, tx.msgs, i, stores, meters, panic, gas)
      && stores[0] == AnteStore(env, ctx, view, tx) && meters[0] == MsgMeter(env, ctx, view, tx)
  }

  lemma {:induction false} FirstInvalidIff(env: Env, tx: Tx)
    ensures WellFormed(env, tx) <==> tx.msgs != [] && FirstInvalid(env, tx.msgs) == |tx.msgs|
  {
  }

  /** The messages' part ends well exactly when every message succeeds. */
  lemma {:induction false} MsgsFineIff(env: Env, ctx: Ctx, view: View, tx: Tx, after: Store, gas: nat)
    requires Executes(ctx.mode)
    ensures var meter := MsgMeter(env, ctx, view, tx);
            var r := RunMsgs(env, ctx, tx.msgs, 0, AnteStore(env, ctx, view, tx), meter, []);
            MessagesPass(env, ctx, view, tx, after, gas) <==>
            r.ending == Fine && r.store == after && meter.(consumed := r.consumed).ToLimit() == gas
  {
    hide AnteStore, MsgMeter;
    var store, meter := AnteStore(env, ctx, view, tx), MsgMeter(env, ctx, view, tx);
    var r := RunMsgs(env, ctx, tx.msgs, 0, store, meter, []);
    if MessagesPass(env, ctx, view, tx, after, gas) {
      var stores: seq<Store>, meters: seq<Meter> :|
        && AllSucceed(env, ctx, tx.msgs, stores, meters)
        && stores[0] == store && meters[0] == meter
        && stores[|tx.msgs|] == after && meters[|tx.msgs|].ToLimit() == gas;
      SucceedsForward(env, ctx, tx.msgs, 0, stores, meters, []);
    }
    if r.ending == Fine && r.store == after && meter.(consumed := r.consumed).ToLimit() == gas {
      var stores, meters := SucceedsBackward(env, ctx, tx.msgs, 0, store, meter, []);
      assert tx.msgs[0..] == tx.msgs;
    }
  }

  /** It ends in a panic exactly when some message panics after those before it succeeded. */
  lemma {:induction false} MsgsPanicIff(env: Env, ctx: Ctx, view: View, tx: Tx, panic: Panic, gas: nat)
    requires Executes(ctx.mode)
    ensures var meter := MsgMeter(env, ctx, view, tx);
            var r := RunMsgs(env, ctx, tx.msgs, 0, AnteStore(env, ctx, view, tx), meter, []);
            MessagePanics(env, ctx, view, tx, panic, gas) <==>
            r.ending == Panicked(panic) && meter.(consumed := r.consumed).ToLimit() == gas
  {
    hide AnteStore, MsgMeter;
    var store, meter := AnteStore(env, ctx, view, tx), MsgMeter(env, ctx, view, tx);
    var r := RunMsgs(env, ctx, tx.msgs, 0, store, meter, []);
    if MessagePanics(env, ctx, view, tx, panic, gas) {
      var i, stores, meters :|
        && PanicsAt(env, ctx, tx.msgs, i, stores, meters, panic, gas)
        && stores[0] == store && meters[0] == meter;
      PanicsForward(env, ctx, tx.msgs, i, stores, meters, panic, gas);
    }
    if r.ending == Panicked(panic) && meter.(consumed := r.consumed).ToLimit() == gas {
      var k, stores, meters := PanicsBackward(env, ctx, tx.msgs, 0, store, meter, [], panic);
      assert tx.msgs[0..] == tx.msgs;
    }
  }

  /** A delivered transaction got as far as its messages. */
  predicate ReachesMessages(env: Env, ctx: Ctx, view: View, block: Option<Meter>, tx: Tx) {
    block.Some? && !block.value.IsOutOfGas() && WellFormed(env, tx) && AntePasses(env, ctx, view, tx)
  }

  /** Charging this much gas takes the block meter past its limit. */
  predicate Trips(block: Meter, gas: nat) {
    block.consumed + gas > MAX_GAS || (block.Finite? && block.consumed + gas > block.limit)
  }

  lemma {:induction false} BodyStore(env: Env, ctx: Ctx, view: View, tx: Tx)
    requires ctx.mode.DeliverMode? && WellFormed(env, tx) && AntePasses(env, ctx, view, tx)
    ensures var meter := MsgMeter(env, ctx, view, tx);
            var r := RunMsgs(env, ctx, tx.msgs, 0, AnteStore(env, ctx, view, tx), meter, []);
            var body := RunBody(env, ctx, view, tx);
            && body.ending == r.ending && body.meter == meter.(consumed := r.consumed)
            && body.view.store == if r.ending.Fine? then r.store else AnteStore(env, ctx, view, tx)
  {
    FirstInvalidIff(env, tx);
    hide RunMsgs, Apply;
  }

  /**
    Atomicity. The store after a delivered transaction is the store before it, or that plus
    the ante handler's writes, or that plus the writes of all messages; and which of the three
    depends only on how far the transaction got, not on the response it was given.
   */
  lemma {:induction false} DeliverAtomic(env: Env, ctx: Ctx, view: View, block: Option<Meter>, tx: Tx)
    requires ctx.mode.DeliverMode?
    ensures var store := RunTx(env, ctx, view, block, tx).view.store;
            && (!ReachesMessages(env, ctx, view, block, tx) ==> store == view.store)
            && (ReachesMessages(env, ctx, view, block, tx) ==>
                  && (forall after, gas :: MessagesPass(env, ctx, view, tx, after, gas) ==> store == after)
                  && ((forall after, gas :: !MessagesPass(env, ctx, view, tx, after, gas))
                      ==> store == AnteStore(env, ctx, view, tx)))
  {
    hide MessagesPass, RunMsgs, AnteStore, MsgMeter;
    if ReachesMessages(env, ctx, view, block, tx) {
      BodyStore(env, ctx, view, tx);
      var meter := MsgMeter(env, ctx, view, tx);
      var r := RunMsgs(env, ctx, tx.msgs, 0, AnteStore(env, ctx, view, tx), meter, []);
      MsgsFineIff(env, ctx, view, tx, r.store, meter.(consumed := r.consumed).ToLimit());
      forall after, gas | MessagesPass(env, ctx, view, tx, after, gas) ensures r.ending == Fine && r.store == after {
        MsgsFineIff(env, ctx, view, tx, after, gas);
      }
    } else {
      FirstInvalidIff(env, tx);
    }
  }

  /** The response is a success exactly when every message passed and the gas they used did not trip the block meter. */
  lemma {:induction false} SuccessIff(env: Env, ctx: Ctx, view: View, block: Option<Meter>, tx: Tx)
    requires ctx.mode.DeliverMode?
    ensures var answer := RunTx(env, ctx, view, block, tx).answer;
            answer.Response? && answer.err == None <==>
            && ReachesMessages(env, ctx, view, block, tx)
            && (exists after, gas :: MessagesPass(env, ctx, view, tx, after, gas) && !Trips(block.value, gas))
  {
    FirstInvalidIff(env, tx);
    if ReachesMessages(env, ctx, view, block, tx) {
      BodyStore(env, ctx, view, tx);
      var meter := MsgMeter(env, ctx, view, tx);
      var r := RunMsgs(env, ctx, tx.msgs, 0, AnteStore(env, ctx, view, tx), meter, []);
      var used := meter.(consumed := r.consumed).ToLimit();
      MsgsFineIff(env, ctx, view, tx, r.store, used);
      assert r.ending.Fine? && !Trips(block.value, used) ==> MessagesPass(env, ctx, view, tx, r.store, used);
      if after, gas :| MessagesPass(env, ctx, view, tx, after, gas) && !Trips(block.value, gas) {
        MsgsFineIff(env, ctx, view, tx, after, gas);
      }
    }
    hide MessagesPass, RunMsgs, AnteStore, MsgMeter, Apply;
  }

  /** An error response does not mean that nothing was written: the message's write stays when the block meter trips. */
  lemma {:induction false} LandedYetRefused() returns (env: Env, ctx: Ctx, view: View, tx: Tx)
    ensures ctx.mode.DeliverMode? && "k" !in view.store
    ensures var r := RunTx(env, ctx, view, Some(Finite(5, 0)), tx);
            r.answer == Response(Some(GasExceeded), 0, 10, []) && "k" in r.view.store && r.block == Some(Finite(5, 10))
  {
    env := Env(
      _ => None, _ => true, None, _ => None, map[], {"bank"},
      (c, m, s, g) => HandlerResult(Fine, map["k" := Some("v")], 10, []),
      "params", _ => "", None, None, None, 0, 0);
    ctx := Ctx(Header(1, 0, 0), 0, Some(5), DeliverMode, []);
    view := View(Header(1, 0, 0), map[], 0);
    tx := Tx([Msg("bank", "send", 0)], 0);
    assert FirstInvalid(env, tx.msgs) == 1 by { assert tx.msgs[1..] == []; }
    var r1 := RunMsgs(env, ctx, tx.msgs, 1, Apply(view.store, map["k" := Some("v")]), Infinite(10), []);
    assert RunMsgs(env, ctx, tx.msgs, 0, view.store, Infinite(0), []) == r1;
  }

  lemma {:induction false} BodyPanicIff(env: Env, ctx: Ctx, view: View, tx: Tx, panic: Panic, gas: nat)
    requires ctx.mode.DeliverMode? && WellFormed(env, tx)
    ensures var body := RunBody(env, ctx, view, tx);
            Panics(env, ctx, view, tx, panic, gas) <==> body.ending == Panicked(panic) && body.meter.ToLimit() == gas
  {
    hide MessagePanics, RunMsgs, Apply;
    FirstInvalidIff(env, tx);
    if AntePasses(env, ctx, view, tx) {
      BodyStore(env, ctx, view, tx);
      MsgsPanicIff(env, ctx, view, tx, panic, gas);
      hide RunBody, AnteStore, MsgMeter;
    }
  }

  /**
    The process dies exactly when the virtual machine crashed, under the ante handler or under
    a message whose predecessors all succeeded, and the gas used until then did not also trip
    the block meter.
   */
  lemma {:induction false} CrashIff(env: Env, ctx: Ctx, view: View, block: Meter, tx: Tx)
    requires ctx.mode.DeliverMode? && !block.IsOutOfGas()
    ensures RunTx(env, ctx, view, Some(block), tx).answer.Crash? <==>
            && WellFormed(env, tx)
            && exists gas :: Panics(env, ctx, view, tx, VMCrashed, gas) && !Trips(block, gas)
  {
    hide Panics;
    FirstInvalidIff(env, tx);
    if WellFormed(env, tx) {
      var body := RunBody(env, ctx, view, tx);
      BodyPanicIff(env, ctx, view, tx, VMCrashed, body.meter.ToLimit());
      if gas :| Panics(env, ctx, view, tx, VMCrashed, gas) && !Trips(block, gas) {
        BodyPanicIff(env, ctx, view, tx, VMCrashed, gas);
      }
      hide RunBody, WellFormed;
    }
  }

  /** A crash that is swallowed: the handler crashed the virtual machine after 10 gas, and 5 were left in the block. */
  lemma {:induction false} CrashSwallowed() returns (env: Env, ctx: Ctx, view: View, tx: Tx)
    ensures ctx.mode.DeliverMode? && WellFormed(env, tx) && Panics(env, ctx, view, tx, VMCrashed, 10)
    ensures RunTx(env, ctx, view, Some(Finite(5, 0)), tx).answer == Response(Some(GasExceeded), 0, 10, [])
  {
    env := Env(
      _ => None, _ => true, None, _ => None, map[], {"vm"},
      (c, m, s, g) => HandlerResult(Panicked(VMCrashed), map[], 10, []),
      "params", _ => "", None, None, None, 0, 0);
    ctx := Ctx(Header(1, 0, 0), 0, Some(5), DeliverMode, []);
    view := View(Header(1, 0, 0), map[], 0);
    tx := Tx([Msg("vm", "execute", 0)], 0);
    assert FirstInvalid(env, tx.msgs) == 1 by { assert tx.msgs[1..] == []; }
    BodyPanicIff(env, ctx, view, tx, VMCrashed, 10);
  }

  // ---- answers ----

  /** A successful transaction is answered with what its handlers returned and the gas of its last meter, and the block is charged for it. */
  lemma {:induction false} SuccessAnswer(
      env: Env, ctx: Ctx, view: View, block: Meter, tx: Tx, stores: seq<Store>, meters: seq<Meter>)
    requires ctx.mode.DeliverMode? && ReachesMessages(env, ctx, view, Some(block), tx)
    requires AllSucceed(env, ctx, tx.msgs, stores, meters)
    requires stores[0] == AnteStore(env, ctx, view, tx) && meters[0] == MsgMeter(env, ctx, view, tx)
    requires !Trips(block, meters[|tx.msgs|].ToLimit())
    ensures var r, last := RunTx(env, ctx, view, Some(block), tx), meters[|tx.msgs|];
            && r.answer == Response(
                 None, if env.ante.None? then 0 else meters[0].Limit(), last.consumed,
                 Results(env, ctx, tx.msgs, 0, stores, meters))
            && r.block == Some(block.(consumed := block.consumed + last.ToLimit()))
            && r.view.store == stores[|tx.msgs|]
            && r.view.gas == (if env.ante.Some? && env.ante.value(ctx, tx, view.store, view.gas).meter.Some?
                              then env.ante.value(ctx, tx, view.store, view.gas).gas else last.consumed)
  {
    SucceedsForward(env, ctx, tx.msgs, 0, stores, meters, []);
    FirstInvalidIff(env, tx);
    var data := Results(env, ctx, tx.msgs, 0, stores, meters);
    assert [] + data == data;
    hide RunMsgs, Apply, AllSucceed, Results, WellFormed;
  }

  /** A transaction that does not reach its messages is answered with the reason, and the block is charged for what it used. */
  lemma {:induction false} RefusedAnswer(env: Env, ctx: Ctx, view: View, block: Meter, tx: Tx)
    requires ctx.mode.DeliverMode?
    ensures var r := RunTx(env, ctx, view, Some(block), tx);
            if block.IsOutOfGas() then
              r.answer == Response(Some(BlockGasSpent), 0, block.consumed, []) && r.block == Some(block)
            else if !WellFormed(env, tx) then
              !Trips(block, view.gas) ==>
                && r.block == Some(block.(consumed := block.consumed + view.gas))
                && r.answer.Response? && r.answer.used == view.gas
                && (if tx.msgs == [] then r.answer.err == Some(NoMessages)
                    else exists i :: 0 <= i < |tx.msgs| && r.answer.err == Some(InvalidMessage(i)) && !env.basic(tx.msgs[i])
                                     && forall k :: 0 <= k < i ==> env.basic(tx.msgs[k]))
            else
              !AntePasses(env, ctx, view, tx) && env.ante.value(ctx, tx, view.store, view.gas).ending.Failed?
              && !Trips(block, MsgMeter(env, ctx, view, tx).ToLimit()) ==>
                var a, meter := env.ante.value(ctx, tx, view.store, view.gas), MsgMeter(env, ctx, view, tx);
                && r.answer == Response(Some(AnteFailed(a.ending.err)), meter.Limit(), meter.consumed, [])
                && r.view == view.(gas := a.gas)
                && r.block == Some(block.(consumed := block.consumed + meter.ToLimit()))
  {
    FirstInvalidIff(env, tx);
    hide RunMessages, Apply;
  }

  /** A recovered panic, by its kind; VMCrashed is not recovered. */
  function Recovery(panic: Panic): Option<Err> {
    match panic
    case OutOfGas => Some(GasExceeded)
    case OtherPanic => Some(PanicRecovered)
    case VMCrashed => None
  }

  /** Which panic a tripping block meter raises: overflow of 64 bits, or else running out of gas. */
  function TripPanic(block: Meter, gas: nat): Panic {
    if block.consumed + gas > MAX_GAS then OtherPanic else OutOfGas
  }

  /** The answer to a panic: the block meter's own if charging it trips, else that of the handler. */
  lemma {:induction false} PanicAnswer(env: Env, ctx: Ctx, view: View, block: Meter, tx: Tx, panic: Panic, gas: nat)
    requires ctx.mode.DeliverMode? && !block.IsOutOfGas() && WellFormed(env, tx)
    requires Panics(env, ctx, view, tx, panic, gas)
    ensures var r := RunTx(env, ctx, view, Some(block), tx);
            var final := if Trips(block, gas) then TripPanic(block, gas) else panic;
            && r.block.Some?
            && r.block.value.consumed == (if block.consumed + gas > MAX_GAS then 0 else block.consumed + gas)
            && if Recovery(final).None? then r.answer.Crash?
               else r.answer.Response? && r.answer.err == Recovery(final) && r.answer.data == []
  {
    BodyPanicIff(env, ctx, view, tx, panic, gas);
    hide RunBody, Panics;
  }

  /** And to messages that all pass but whose gas trips the block meter. */
  lemma {:induction false} TripAnswer(env: Env, ctx: Ctx, view: View, block: Meter, tx: Tx, after: Store, gas: nat)
    requires ctx.mode.DeliverMode? && ReachesMessages(env, ctx, view, Some(block), tx)
    requires MessagesPass(env, ctx, view, tx, after, gas) && Trips(block, gas)
    ensures var r := RunTx(env, ctx, view, Some(block), tx);
            && r.answer.Response? && r.answer.err == Recovery(TripPanic(block, gas)) && r.answer.data == []
            && r.block.Some? && r.block.value.consumed == (if block.consumed + gas > MAX_GAS then 0 else block.consumed + gas)
            && r.view.store == after
  {
    BodyStore(env, ctx, view, tx);
    MsgsFineIff(env, ctx, view, tx, after, gas);
    hide RunBody, RunMsgs, MessagesPass, AntePasses, WellFormed, MsgMeter, AnteStore;
  }

  // ---- outside deliver mode ----

  /** Checking a transaction writes what the ante handler wrote, if it passes, and verifies the first message. */
  lemma {:induction false} CheckEffect(env: Env, ctx: Ctx, view: View, tx: Tx)
    requires ctx.mode.CheckMode? || ctx.mode.ReCheckMode?
    ensures var r, passes := RunTx(env, ctx, view, None, tx), WellFormed(env, tx) && AntePasses(env, ctx, view, tx);
            && r.view.store == (if passes then AnteStore(env, ctx, view, tx) else view.store)
            && r.view.header == view.header
            && (r.answer.Response? && r.answer.err == None <==> passes && env.verify(tx.msgs[0]).None?)
  {
    FirstInvalidIff(env, tx);
    hide Apply;
  }

  /** Simulating one runs all of it and writes nothing. */
  lemma {:induction false} SimulateEffect(env: Env, ctx: Ctx, view: View, tx: Tx)
    requires ctx.mode.SimulateMode?
    ensures var r := RunTx(env, ctx, view, None, tx);
            && r.view.store == view.store && r.view.header == view.header
            && (r.answer.Response? && r.answer.err == None <==>
                  && WellFormed(env, tx) && AntePasses(env, ctx, view, tx)
                  && exists after, gas :: MessagesPass(env, ctx, view, tx, after, gas))
  {
    hide MessagesPass, RunMsgs, Apply;
    FirstInvalidIff(env, tx);
    BodyKeepsHeader(env, ctx, view, tx);
    if WellFormed(env, tx) && AntePasses(env, ctx, view, tx) {
      var meter := MsgMeter(env, ctx, view, tx);
      var r := RunMsgs(env, ctx, tx.msgs, 0, AnteStore(env, ctx, view, tx), meter, []);
      var used := meter.(consumed := r.consumed).ToLimit();
      MsgsFineIff(env, ctx, view, tx, r.store, used);
      if after, gas :| MessagesPass(env, ctx, view, tx, after, gas) {
        MsgsFineIff(env, ctx, view, tx, after, gas);
      }
      assert RunBody(env, ctx, view, tx).ending == r.ending;
    }
  }
}
