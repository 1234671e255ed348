/**
  The application as it is built: a committed multi-store under two write caches, one for
  checking and one for delivering, and further caches for every transaction. Its methods are
  proved against the steps on plain stores.
 */
module BaseApp {
  import opened Wrappers
  import opened Caches
  import opened Transactions
  import opened AppRuns

  /** A context on top of the committed store: what it holds back, and its own unlimited gas meter. */
  datatype Layer = Layer(header: Header, writes: Writes, gas: nat)

  datatype DeliverLayer = DeliverLayer(layer: Layer, block: Option<Meter>)

  function ViewOf(cms: Store, layer: Layer): View {
    View(layer.header, Apply(cms, layer.writes), layer.gas)
  }

  /** What the part of a transaction between the gas guards leaves in the cache it ran on. */
  datatype LayerBody = LayerBody(ending: Ending<Err>, layer: Layer, meter: Meter, wanted: nat, data: seq<nat>)

  ghost function BodyOf(below: Store, b: LayerBody): Body {
    Body(b.ending, ViewOf(below, b.layer), b.meter, b.wanted, b.data)
  }

  method ValidateBasicTxMsgs(env: Env, msgs: seq<Msg>) returns (err: Option<Err>)
    ensures msgs == [] ==> err == Some(NoMessages)
    ensures msgs != [] ==>
              err == if FirstInvalid(env, msgs) < |msgs| then Some(InvalidMessage(FirstInvalid(env, msgs))) else None
  {
    if |msgs| == 0 { return Some(NoMessages); }
    for i := 0 to |msgs|
      invariant forall k :: 0 <= k < i ==> env.basic(msgs[k])
    {
      if !env.basic(msgs[i]) { return Some(InvalidMessage(i)); }
    }
    return None;
  }

  /** The messages run on a cache over `below`; the caller decides whether it is written. */
  method RunMsgsCached(env: Env, ctx: Ctx, msgs: seq<Msg>, below: Store, meter: Meter)
    returns (ending: Ending<Err>, cache: Writes, consumed: nat, data: seq<nat>)
    ensures MsgsRun(ending, Apply(below, cache), consumed, data) == RunMsgs(env, ctx, msgs, 0, below, meter, [])
  {
    hide Apply;
    cache, consumed, data := map[], meter.consumed, [];
    ApplyNothing(below);
    for i := 0 to |msgs|
      invariant RunMsgs(env, ctx, msgs, 0, below, meter, [])
             == RunMsgs(env, ctx, msgs, i, Apply(below, cache), meter.(consumed := consumed), data)
    {
      var msg := msgs[i];
      var refused := env.verify(msg);
      if refused.Some? { return Failed(VerifierFailed(refused.value)), cache, consumed, []; }
      if ctx.mode == CheckMode || ctx.mode == ReCheckMode { break; }
      if msg.route in env.denied && msg.kind in env.denied[msg.route] {
        return Failed(MessageDenied(i)), cache, consumed, [];
      }
      if msg.route !in env.routes { return Failed(UnknownRoute(i)), cache, consumed, []; }
      var r := env.handle(ctx, msg, Apply(below, cache), meter.(consumed := consumed));
      ApplyMerge(below, cache, r.writes);
      cache, consumed := Merge(cache, r.writes), r.consumed;
      match r.ending {
        case Failed(code) => return Failed(MessageFailed(i, code)), cache, consumed, [];
        case Panicked(panic) => return Panicked(panic), cache, consumed, [];
        case Fine => data := data + r.data;
      }
    }
    return Fine, cache, consumed, data;
  }

  /** The messages of a transaction, and the write of their cache into the layer if they all succeed in deliver mode. */
  method RunMessagesCached(env: Env, ctx: Ctx, below: Store, layer: Layer, tx: Tx, own: Option<Meter>, wanted: nat)
    returns (body: LayerBody)
    ensures BodyOf(below, body) == RunMessages(env, ctx, ViewOf(below, layer), tx, own, wanted)
  {
    hide Apply, RunMsgs;
    var meter := if own.Some? then own.value else Infinite(layer.gas);
    var ending, cache, consumed, data := RunMsgsCached(env, ctx, tx.msgs, Apply(below, layer.writes), meter);
    var layer' := if own.Some? then layer else layer.(gas := consumed);
    if ending == Fine && ctx.mode == DeliverMode {
      ApplyMerge(below, layer.writes, cache);
      layer' := layer'.(writes := Merge(layer.writes, cache));
    }
    body := LayerBody(ending, layer', meter.(consumed := consumed), wanted, data);
  }

  /** The ante handler on its own cache, written only if it succeeds; then the messages. */
  method RunBodyCached(env: Env, ctx: Ctx, below: Store, layer: Layer, tx: Tx) returns (body: LayerBody)
    ensures BodyOf(below, body) == RunBody(env, ctx, ViewOf(below, layer), tx)
  {
    hide Apply, RunMsgs, RunMessages;
    var err := ValidateBasicTxMsgs(env, tx.msgs);
    if err.Some? { return LayerBody(Failed(err.value), layer, Infinite(layer.gas), 0, []); }
    var layer', meter, wanted := layer, None, 0;
    if env.ante.Some? {
      var a := env.ante.value(ctx, tx, Apply(below, layer.writes), layer.gas);
      layer' := layer'.(gas := a.gas);
      if a.ending.Panicked? { return LayerBody(Panicked(a.ending.panic), layer', Infinite(a.gas), 0, []); }
      meter := a.meter;
      var current := if meter.Some? then meter.value else Infinite(a.gas);
      wanted := current.Limit();
      if a.ending.Failed? { return LayerBody(Failed(AnteFailed(a.ending.err)), layer', current, wanted, []); }
      ApplyMerge(below, layer.writes, a.writes);
      layer' := layer'.(writes := Merge(layer.writes, a.writes));
    }
    body := RunMessagesCached(env, ctx, below, layer', tx, meter, wanted);
  }

  class BaseApp {
    const env: Env
    var cms: Store
    var version: nat
    var check: Layer
    var deliver: Option<DeliverLayer>
    var votes: nat
    var maxGas: Option<int>

    /** The application with every cache read through. */
    ghost function View(): App
      reads this
    {
      App(
        cms, version, ViewOf(cms, check),
        if deliver.None? then None else Some(Deliver(ViewOf(cms, deliver.value.layer), deliver.value.block)),
        votes, maxGas)
    }

    /** What a method promises: the step's outcome, unless the process dies. */
    ghost predicate Did(outcome: Outcome, died: bool, reply: Option<Answer>)
      reads this
    {
      && (died <==> outcome.Died?)
      && (!died ==> View() == outcome.app && reply == outcome.reply)
    }

    constructor (env: Env, store: Store, version: nat, maxGas: Option<int>)
      ensures this.env == env && View() == InitApp(store, version, maxGas)
    {
      this.env, cms, this.version, votes, this.maxGas := env, store, version, 0, maxGas;
      check, deliver := Layer(Header(0, 0, 0), map[], 0), None;
      ApplyNothing(store);
    }

    method SetCheckState(header: Header)
      modifies this`check
      ensures View() == old(View()).(check := Fresh(header, cms))
    {
      check := Layer(header, map[], 0);
      ApplyNothing(cms);
    }

    method SetDeliverState(header: Header)
      modifies this`deliver
      ensures View() == old(View()).(deliver := Some(Deliver(Fresh(header, cms), None)))
      ensures deliver == Some(DeliverLayer(Layer(header, map[], 0), None))
    {
      deliver := Some(DeliverLayer(Layer(header, map[], 0), None));
      ApplyNothing(cms);
    }

    method InitChain(time: int, info: nat, newMaxGas: Option<int>) returns (died: bool)
      modifies this
      ensures Did(Do(env, old(View()), Step.InitChain(time, info, newMaxGas)), died, None)
    {
      if newMaxGas.Some? {
        maxGas := newMaxGas;
        cms := cms[env.paramsKey := env.encodeParams(newMaxGas.value)];
      }
      var header := Header(0, time, info);
      SetDeliverState(header);
      SetCheckState(header);
      if env.initChainer.None? { return false; }
      var r := env.initChainer.value(header, cms);
      if r.panics { return true; }
      deliver := Some(DeliverLayer(Layer(header, r.writes, r.gas), Some(Infinite(0))));
      return false;
    }

    /**
      None when the configured maximum is below minus one. Otherwise a meter that starts at zero
      and trips exactly when more than a positive maximum is consumed.
     */
    method BlockGasMeter() returns (meter: Option<Meter>)
      ensures meter.None? <==> maxGas.Some? && maxGas.value < -1
      ensures meter.Some? ==>
                forall gas: nat :: gas <= MAX_GAS ==>
                  (meter.value.Consume(gas).1.Some? <==> maxGas.Some? && 0 < maxGas.value < gas)
      ensures meter.Some? ==> meter.value.consumed == 0 && !meter.value.IsOutOfGas()
      ensures meter.Some? ==> (meter.value.Finite? <==> maxGas.Some? && maxGas.value > 0)
      ensures meter.Some? && meter.value.Finite? ==> meter.value.limit == maxGas.value
    {
      if maxGas.None? { return Some(Infinite(0)); }
      if maxGas.value < -1 { return None; }
      if maxGas.value == -1 || maxGas.value == 0 { return Some(Infinite(0)); }
      return Some(Finite(maxGas.value, 0));
    }

    method BeginBlock(header: Header, newVotes: nat) returns (died: bool)
      modifies this
      ensures Did(Do(env, old(View()), Step.BeginBlock(header, newVotes)), died, None)
    {
      hide Apply;
      if header.height < 1 || header.height != version + 1 { return true; }
      if deliver.None? {
        SetDeliverState(header);
      } else {
        deliver := Some(deliver.value.(layer := deliver.value.layer.(header := header)));
      }
      var meter := BlockGasMeter();
      if meter.None? { return true; }
      var layer := deliver.value.layer;
      if env.beginBlocker.Some? {
        var r := env.beginBlocker.value(header, Apply(cms, layer.writes), layer.gas);
        if r.panics { return true; }
        ApplyMerge(cms, layer.writes, r.writes);
        layer := Layer(header, Merge(layer.writes, r.writes), r.gas);
      }
      deliver := Some(DeliverLayer(layer, meter));
      votes := newVotes;
      return false;
    }

    method EndBlock() returns (died: bool)
      modifies this`deliver
      ensures Did(Do(env, old(View()), Step.EndBlock), died, None)
    {
      hide Apply;
      if deliver.None? { return true; }
      var layer := deliver.value.layer;
      if env.endBlocker.Some? {
        var r := env.endBlocker.value(layer.header, Apply(cms, layer.writes), layer.gas);
        if r.panics { return true; }
        ApplyMerge(cms, layer.writes, r.writes);
        deliver := Some(deliver.value.(layer := Layer(layer.header, Merge(layer.writes, r.writes), r.gas)));
      }
      return false;
    }

    /** The node is told to stop after a block at or past the configured height or time; the block is committed first. */
    method Commit() returns (died: bool, halt: bool)
      modifies this
      ensures Did(Do(env, old(View()), Step.Commit), died, None)
      ensures halt <==> old(deliver).Some? && Halts(env, old(deliver).value.layer.header)
    {
      hide Apply;
      if deliver.None? { return true, false; }
      var header := deliver.value.layer.header;
      cms, version := Apply(cms, deliver.value.layer.writes), version + 1;
      SetCheckState(header);
      deliver := None;
      halt := false;
      if env.haltHeight > 0 && header.height >= env.haltHeight {
        halt := true;
      } else if env.haltTime > 0 && header.time >= env.haltTime {
        halt := true;
      }
      return false, halt;
    }

    /** A transaction on the deliver state: refused outright when the block gas is spent. */
    method RunDeliver(bytes: TxBytes, tx: Tx) returns (died: bool, reply: Option<Answer>)
      modifies this`deliver
      ensures Did(RanTx(env, old(View()), DeliverMode, bytes, tx), died, reply)
    {
      hide Apply, RunBody;
      if deliver.None? { return true, None; }
      var layer, block := deliver.value.layer, deliver.value.block;
      var ctx := Ctx(layer.header, votes, maxGas, DeliverMode, bytes);
      if block.None? { return true, None; }
      if block.value.IsOutOfGas() {
        return false, Some(Response(Some(BlockGasSpent), 0, block.value.consumed, []));
      }
      var body := RunBodyCached(env, ctx, cms, layer, tx);
      // deferred: the block meter is charged first, then panics are recovered
      var charged := block.value.Consume(body.meter.ToLimit());
      deliver := Some(DeliverLayer(body.layer, Some(charged.0)));
      var answer := Respond(Recovered(body.ending, charged.1), body.wanted, body.meter.consumed, body.data);
      return answer.Crash?, Some(answer);
    }

    /** A transaction on the check state; a simulation runs on a further cache, which is dropped. */
    method RunCheck(mode: Mode, bytes: TxBytes, tx: Tx) returns (died: bool, reply: Option<Answer>)
      requires mode != DeliverMode
      modifies this`check
      ensures Did(RanTx(env, old(View()), mode, bytes, tx), died, reply)
    {
      hide Apply, RunBody;
      var ctx := Ctx(check.header, votes, maxGas, mode, bytes);
      var body;
      if mode == SimulateMode {
        var below := Apply(cms, check.writes);
        ApplyNothing(below);
        body := RunBodyCached(env, ctx, below, check.(writes := map[]), tx);
        check := check.(gas := body.layer.gas);
        BodyKeepsHeader(env, ctx, ViewOf(cms, old(check)), tx);
      } else {
        body := RunBodyCached(env, ctx, cms, check, tx);
        check := body.layer;
      }
      var answer := Respond(body.ending, body.wanted, body.meter.consumed, body.data);
      return answer.Crash?, Some(answer);
    }

    method DeliverTx(bytes: TxBytes) returns (died: bool, reply: Option<Answer>)
      modifies this`deliver
      ensures Did(Do(env, old(View()), Step.DeliverTx(bytes)), died, reply)
    {
      hide Apply, RanTx;
      var tx := env.decode(bytes);
      if tx.None? { return false, Some(Response(Some(Undecodable), 0, 0, [])); }
      died, reply := RunDeliver(bytes, tx.value);
    }

    method CheckTx(bytes: TxBytes, kind: CheckType) returns (died: bool, reply: Option<Answer>)
      modifies this`check
      ensures Did(Do(env, old(View()), Step.CheckTx(bytes, kind)), died, reply)
    {
      hide Apply, RanTx;
      var tx := env.decode(bytes);
      if tx.None? { return false, Some(Response(Some(Undecodable), 0, 0, [])); }
      match kind {
        case NewTx => died, reply := RunCheck(CheckMode, bytes, tx.value);
        case Recheck => died, reply := RunCheck(ReCheckMode, bytes, tx.value);
        case UnknownType => return true, None;
      }
    }

    method Simulate(bytes: TxBytes) returns (died: bool, reply: Option<Answer>)
      modifies this`check
      ensures Did(Do(env, old(View()), Step.Simulate(bytes)), died, reply)
    {
      hide Apply, RanTx;
      var tx := env.decode(bytes);
      if tx.None? { return false, Some(Response(Some(Undecodable), 0, 0, [])); }
      died, reply := RunCheck(SimulateMode, bytes, tx.value);
    }
  }
}
