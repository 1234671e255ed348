/**
  What a block commits: the state before it, with the writes of its hooks and transactions.
 */
module AppBlocks {
  import opened Wrappers
  import opened Caches
  import opened Transactions
  import opened AppRuns

  // ---- commits ----

  /** A commit makes the deliver state just before it the committed state, under the next version. */
  lemma {:induction false} CommitStores(env: Env, app: App, steps: seq<Step>)
    requires Run(env, app, steps + [Commit]).Trace?
    ensures var mid, r := Run(env, app, steps), Run(env, app, steps + [Commit]);
            && mid.Trace? && mid.app.deliver.Some?
            && var view := mid.app.deliver.value.view;
               && r.app.committed == view.store && r.app.check == View(view.header, view.store, 0)
               && r.app.deliver == None
               && r.commits == mid.commits + [(mid.app.version + 1, view.store)]
  {
    RunConcat(env, app, steps, [Commit]);
    hide RunTx, Apply;
    var mid := Run(env, app, steps).app;
    assert [Commit][1..] == [];
    assert Do(env, mid, Commit) == Committed(mid);
    assert Run(env, mid, [Commit]).app == Do(env, mid, Commit).app;
    assert Run(env, mid, [Commit]).commits == [(mid.version + 1, mid.deliver.value.view.store)];
  }

  /** So every commit of a run shows the deliver state that the steps before it had reached. */
  lemma {:induction false} EachCommit(env: Env, app: App, steps: seq<Step>, k: nat)
    requires Run(env, app, steps).Trace? && k < |steps| && steps[k].Commit?
    ensures var mid, n := Run(env, app, steps[..k]), CountCommits(steps[..k]);
            && mid.Trace? && mid.app.deliver.Some? && n < |Run(env, app, steps).commits|
            && Run(env, app, steps).commits[n] == (app.version + n + 1, mid.app.deliver.value.view.store)
  {
    var x, y := steps[..k + 1], steps[k + 1..];
    assert steps == x + y && x == steps[..k] + [Commit];
    RunConcat(env, app, x, y);
    hide Run, CountCommits;
    CommitStores(env, app, steps[..k]);
    VersionsAdvance(env, app, steps[..k]);
  }

  // ---- hooks ----

  /** The store after a hook that does not panic: with its writes, if there is one. */
  function HookStore(hook: Option<(Header, Store, nat) -> BlockResult>, view: View): Store {
    if hook.None? then view.store else Apply(view.store, hook.value(view.header, view.store, view.gas).writes)
  }

  /** What the context's own meter shows after the hook. */
  function HookGas(hook: Option<(Header, Store, nat) -> BlockResult>, view: View): nat {
    if hook.None? then view.gas else hook.value(view.header, view.store, view.gas).gas
  }

  /** The view in which a block begins: what genesis left, or else the committed state. */
  function Opening(app: App, header: Header): View {
    match app.deliver
    case None => View(header, app.committed, 0)
    case Some(d) => View(header, d.view.store, d.view.gas)
  }

  /** A meter that has consumed nothing and trips past a positive maximum only. */
  ghost predicate FreshMeter(meter: Meter, maxGas: Option<int>) {
    && meter.consumed == 0
    && if maxGas.Some? && maxGas.value > 0 then meter.Finite? && meter.limit == maxGas.value else meter.Infinite?
  }

  lemma {:induction false} BeginLands(env: Env, app: App, header: Header, votes: nat)
    requires Do(env, app, BeginBlock(header, votes)).Next?
    ensures var app' := Do(env, app, BeginBlock(header, votes)).app;
            && app'.deliver.Some?
            && var d := app'.deliver.value;
               && d.view.header == header && d.view.store == HookStore(env.beginBlocker, Opening(app, header))
               && d.view.gas == HookGas(env.beginBlocker, Opening(app, header))
               && d.block.Some? && FreshMeter(d.block.value, app.maxGas)
               && app' == app.(deliver := app'.deliver, votes := votes)
  {
    hide Apply;
  }

  lemma {:induction false} EndLands(env: Env, app: App)
    requires Do(env, app, EndBlock).Next?
    ensures var app' := Do(env, app, EndBlock).app;
            && app.deliver.Some? && app'.deliver.Some?
            && app'.deliver.value.view.store == HookStore(env.endBlocker, app.deliver.value.view)
            && app'.deliver.value.view.gas == HookGas(env.endBlocker, app.deliver.value.view)
            && app'.deliver.value.view.header == app.deliver.value.view.header
            && app'.deliver.value.block == app.deliver.value.block
            && app' == app.(deliver := app'.deliver)
  {
    hide Apply;
  }

  /** Genesis: the parameters go to the committed state at once, the genesis writes to the deliver state. */
  lemma {:induction false} InitChainLands(env: Env, app: App, time: int, info: nat, maxGas: Option<int>)
    requires Do(env, app, InitChain(time, info, maxGas)).Next?
    ensures var app' := Do(env, app, InitChain(time, info, maxGas)).app;
            && app'.committed == (if maxGas.Some? then app.committed[env.paramsKey := env.encodeParams(maxGas.value)]
                                  else app.committed)
            && app'.maxGas == (if maxGas.Some? then maxGas else app.maxGas)
            && app'.check == View(Header(0, time, info), app'.committed, 0)
            && app'.deliver.Some? && app'.deliver.value.view.header == Header(0, time, info)
            && app'.deliver.value.view.store
               == if env.initChainer.None? then app'.committed
                  else Apply(app'.committed, env.initChainer.value(Header(0, time, info), app'.committed).writes)
  {
    hide Apply;
  }

  // ---- transactions ----

  /** What a delivered transaction leaves: the store before it, that with the ante handler's writes, or that with all writes. */
  ghost predicate TxLands(env: Env, ctx: Ctx, d: Deliver, tx: Tx, after: Store) {
    if !ReachesMessages(env, ctx, d.view, d.block, tx) then after == d.view.store
    else if exists store, gas :: MessagesPass(env, ctx, d.view, tx, store, gas)
    then exists gas :: MessagesPass(env, ctx, d.view, tx, after, gas)
    else after == AnteStore(env, ctx, d.view, tx)
  }

  ghost predicate TxStep(env: Env, votes: nat, maxGas: Option<int>, d: Deliver, bytes: TxBytes, d': Deliver) {
    && d'.view.header == d.view.header
    && match env.decode(bytes)
       case None => d' == d
       case Some(tx) => TxLands(env, Ctx(d.view.header, votes, maxGas, DeliverMode, bytes), d, tx, d'.view.store)
  }

  lemma {:induction false} DeliverLands(env: Env, app: App, bytes: TxBytes)
    requires Do(env, app, DeliverTx(bytes)).Next? && app.deliver.Some?
    ensures var app' := Do(env, app, DeliverTx(bytes)).app;
            && app'.deliver.Some? && app' == app.(deliver := app'.deliver)
            && TxStep(env, app.votes, app.maxGas, app.deliver.value, bytes, app'.deliver.value)
  {
    hide RunBody, MessagesPass, AnteStore, ReachesMessages;
    if env.decode(bytes).Some? {
      var tx, d := env.decode(bytes).value, app.deliver.value;
      var ctx := Ctx(d.view.header, app.votes, app.maxGas, DeliverMode, bytes);
      DeliverAtomic(env, ctx, d.view, d.block, tx);
      BodyKeepsHeader(env, ctx, d.view, tx);
      var after := RunTx(env, ctx, d.view, d.block, tx).view.store;
      if store, gas :| MessagesPass(env, ctx, d.view, tx, store, gas) {
        assert ReachesMessages(env, ctx, d.view, d.block, tx) ==> after == store;
      }
    }
  }

  function DeliverSteps(txs: seq<TxBytes>): seq<Step> {
    if txs == [] then [] else [DeliverTx(txs[0])] + DeliverSteps(txs[1..])
  }

  ghost predicate TxSteps(env: Env, votes: nat, maxGas: Option<int>, txs: seq<TxBytes>, delivers: seq<Deliver>) {
    && |delivers| == |txs| + 1
    && forall i {:trigger txs[i]} :: 0 <= i < |txs| ==> TxStep(env, votes, maxGas, delivers[i], txs[i], delivers[i + 1])
  }

  lemma {:induction false} DeliversLand(env: Env, app: App, txs: seq<TxBytes>) returns (delivers: seq<Deliver>)
    requires Run(env, app, DeliverSteps(txs)).Trace? && app.deliver.Some?
    ensures TxSteps(env, app.votes, app.maxGas, txs, delivers) && delivers[0] == app.deliver.value
    ensures Run(env, app, DeliverSteps(txs)).app == app.(deliver := Some(delivers[|txs|]))
    decreases |txs|
  {
    hide Do, TxStep;
    if txs == [] {
      delivers := [app.deliver.value];
    } else {
      var first := Do(env, app, DeliverTx(txs[0]));
      assert DeliverSteps(txs)[1..] == DeliverSteps(txs[1..]);
      DeliverLands(env, app, txs[0]);
      var rest := DeliversLand(env, first.app, txs[1..]);
      delivers := [app.deliver.value] + rest;
      forall i | 0 <= i < |txs| ensures TxStep(env, app.votes, app.maxGas, delivers[i], txs[i], delivers[i + 1]) {
        if i > 0 { assert txs[i] == txs[1..][i - 1]; }
      }
    }
  }

  // ---- whole blocks ----

  function BlockSteps(header: Header, votes: nat, txs: seq<TxBytes>): seq<Step> {
    [BeginBlock(header, votes)] + DeliverSteps(txs) + [EndBlock, Commit]
  }

  /** The begin hook on the opening state, every transaction in order, and the end hook lead to `after`. */
  ghost predicate BlockLeads(
      env: Env, app: App, header: Header, votes: nat, txs: seq<TxBytes>, delivers: seq<Deliver>, after: Store)
  {
    && TxSteps(env, votes, app.maxGas, txs, delivers)
    && delivers[0].view.header == header
    && delivers[0].view.store == HookStore(env.beginBlocker, Opening(app, header))
    && delivers[0].block.Some? && FreshMeter(delivers[0].block.value, app.maxGas)
    && after == HookStore(env.endBlocker, delivers[|txs|].view)
  }

  lemma {:induction false} RunOne(env: Env, app: App, step: Step)
    ensures Run(env, app, [step]).Trace? <==> Do(env, app, step).Next?
    ensures Run(env, app, [step]).Trace? ==> Run(env, app, [step]).app == Do(env, app, step).app
  {
    hide Do;
    assert [step][1..] == [];
  }

  lemma {:induction false} BlockAlone(env: Env, app: App, header: Header, votes: nat, txs: seq<TxBytes>)
    returns (delivers: seq<Deliver>)
    requires Run(env, app, BlockSteps(header, votes, txs)).Trace?
    ensures BlockLeads(env, app, header, votes, txs, delivers, Run(env, app, BlockSteps(header, votes, txs)).app.committed)
  {
    hide Run, Do, TxSteps, HookStore, FreshMeter, Opening;
    var begin, delivered := [BeginBlock(header, votes)], DeliverSteps(txs);
    var steps := begin + delivered + [EndBlock];
    assert BlockSteps(header, votes, txs) == steps + [Commit];
    RunConcat(env, app, steps, [Commit]);
    CommitStores(env, app, steps);
    RunConcat(env, app, begin + delivered, [EndBlock]);
    RunConcat(env, app, begin, delivered);
    RunOne(env, app, BeginBlock(header, votes));
    BeginLands(env, app, header, votes);
    var began := Run(env, app, begin).app;
    delivers := DeliversLand(env, began, txs);
    var ran := Run(env, began, delivered).app;
    RunOne(env, ran, EndBlock);
    EndLands(env, ran);
  }

  /**
    A block, amid any checks and simulations, commits the state before it with the writes of
    the begin hook, of each delivered transaction as far as it got, and of the end hook.
   */
  lemma {:induction false} BlockCommits(env: Env, app: App, header: Header, votes: nat, txs: seq<TxBytes>, steps: seq<Step>)
    returns (delivers: seq<Deliver>)
    requires Run(env, app, steps).Trace? && Consensus(steps) == BlockSteps(header, votes, txs)
    ensures BlockLeads(env, app, header, votes, txs, delivers, Run(env, app, steps).app.committed)
  {
    hide Run, Consensus, BlockLeads, BlockSteps;
    NonInterference(env, app, app, steps);
    delivers := BlockAlone(env, app, header, votes, txs);
  }

  // ---- the check state ----

  /** A check, under its own mode, writes to the check store what the ante handler wrote if it passes. */
  lemma {:induction false} CheckLands(env: Env, app: App, bytes: TxBytes, kind: CheckType, tx: Tx)
    requires !kind.UnknownType? && env.decode(bytes) == Some(tx) && Do(env, app, CheckTx(bytes, kind)).Next?
    ensures var app', reply := Do(env, app, CheckTx(bytes, kind)).app, Do(env, app, CheckTx(bytes, kind)).reply;
            var mode := if kind.NewTx? then CheckMode else ReCheckMode;
            var ctx := Ctx(app.check.header, app.votes, app.maxGas, mode, bytes);
            var passes := WellFormed(env, tx) && AntePasses(env, ctx, app.check, tx);
            && app'.check.store == (if passes then AnteStore(env, ctx, app.check, tx) else app.check.store)
            && app'.check.header == app.check.header
            && reply.Some? && reply.value.Response?
            && (reply.value.err == None <==> passes && env.verify(tx.msgs[0]).None?)
  {
    hide RunTx, AnteStore, AntePasses, WellFormed;
    var mode := if kind.NewTx? then CheckMode else ReCheckMode;
    CheckEffect(env, Ctx(app.check.header, app.votes, app.maxGas, mode, bytes), app.check, tx);
  }
}
