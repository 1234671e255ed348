/**
  The application as Tendermint drives it, on plain stores: blocks of delivered transactions,
  with checks and simulations of transactions at any time in between.
 */
module AppRuns {
  import opened Wrappers
  import opened Caches
  import opened Transactions

  datatype Deliver = Deliver(view: View, block: Option<Meter>)

  datatype App = App(
    committed: Store, version: nat,
    check: View, deliver: Option<Deliver>,
    votes: nat, maxGas: Option<int>)

  datatype CheckType = NewTx | Recheck | UnknownType

  datatype Step =
    | InitChain(time: int, info: nat, newMaxGas: Option<int>)
    | BeginBlock(header: Header, newVotes: nat)
    | DeliverTx(bytes: TxBytes)
    | EndBlock
    | Commit
    | CheckTx(bytes: TxBytes, kind: CheckType)
    | Simulate(bytes: TxBytes)
  {
    /** Steps that only this node takes, for its mempool and its clients. */
    predicate Local() {
      CheckTx? || Simulate?
    }
  }

  /** A panic that is not recovered kills the process. */
  datatype Outcome = Died | Next(app: App, reply: Option<Answer>)

  // ---- the steps ----

  function Fresh(header: Header, store: Store): View {
    View(header, store, 0)
  }

  function InitApp(store: Store, version: nat, maxGas: Option<int>): App {
    App(store, version, Fresh(Header(0, 0, 0), store), None, 0, maxGas)
  }

  function InitChained(env: Env, app: App, time: int, info: nat, newMaxGas: Option<int>): Outcome {
    var store := if newMaxGas.Some? then app.committed[env.paramsKey := env.encodeParams(newMaxGas.value)] else app.committed;
    var header := Header(0, time, info);
    var app' := app.(
      committed := store, maxGas := if newMaxGas.Some? then newMaxGas else app.maxGas, check := Fresh(header, store));
    match env.initChainer
    case None => Next(app'.(deliver := Some(Deliver(Fresh(header, store), None))), None)
    case Some(init) =>
      var r := init(header, store);
      if r.panics then Died
      else Next(app'.(deliver := Some(Deliver(View(header, Apply(store, r.writes), r.gas), Some(Infinite(0))))), None)
  }

  predicate ValidHeight(app: App, height: int) {
    height >= 1 && height == app.version + 1
  }

  /** Zero and minus one stand for no limit; anything lower is invalid. */
  function BlockMeter(maxGas: Option<int>): Option<Meter> {
    if maxGas.None? then Some(Infinite(0))
    else if maxGas.value < -1 then None
    else if maxGas.value <= 0 then Some(Infinite(0))
    else Some(Finite(maxGas.value, 0))
  }

  function BlockHook(hook: Option<(Header, Store, nat) -> BlockResult>, view: View): Option<View> {
    if hook.None? then Some(view)
    else
      var r := hook.value(view.header, view.store, view.gas);
      if r.panics then None else Some(View(view.header, Apply(view.store, r.writes), r.gas))
  }

  function BeganBlock(env: Env, app: App, header: Header, newVotes: nat): Outcome {
    var view := if app.deliver.None? then Fresh(header, app.committed) else app.deliver.value.view.(header := header);
    var meter := BlockMeter(app.maxGas);
    if !ValidHeight(app, header.height) || meter.None? then Died
    else
      var hooked := BlockHook(env.beginBlocker, view);
      if hooked.None? then Died
      else Next(app.(deliver := Some(Deliver(hooked.value, meter)), votes := newVotes), None)
  }

  function EndedBlock(env: Env, app: App): Outcome {
    if app.deliver.None? then Died
    else
      var hooked := BlockHook(env.endBlocker, app.deliver.value.view);
      if hooked.None? then Died
      else Next(app.(deliver := Some(app.deliver.value.(view := hooked.value))), None)
  }

  function Committed(app: App): Outcome {
    if app.deliver.None? then Died
    else
      var view := app.deliver.value.view;
      Next(app.(committed := view.store, version := app.version + 1, check := Fresh(view.header, view.store), deliver := None), None)
  }

  /** Whether the node stops, by configuration, once a block with this header is committed. */
  predicate Halts(env: Env, header: Header) {
    || 0 < env.haltHeight <= header.height
    || 0 < env.haltTime <= header.time
  }

  function TxCtx(app: App, view: View, mode: Mode, bytes: TxBytes): Ctx {
    Ctx(view.header, app.votes, app.maxGas, mode, bytes)
  }

  /** A transaction runs on the deliver state in deliver mode and on the check state otherwise. */
  function RanTx(env: Env, app: App, mode: Mode, bytes: TxBytes, tx: Tx): Outcome {
    if mode.DeliverMode? then
      if app.deliver.None? then Died
      else
        var view := app.deliver.value.view;
        var r := RunTx(env, TxCtx(app, view, mode, bytes), view, app.deliver.value.block, tx);
        if r.answer.Crash? then Died else Next(app.(deliver := Some(Deliver(r.view, r.block))), Some(r.answer))
    else
      var r := RunTx(env, TxCtx(app, app.check, mode, bytes), app.check, None, tx);
      if r.answer.Crash? then Died else Next(app.(check := r.view), Some(r.answer))
  }

  function DecodedTx(env: Env, app: App, mode: Mode, bytes: TxBytes): Outcome {
    match env.decode(bytes)
    case None => Next(app, Some(Response(Some(Undecodable), 0, 0, [])))
    case Some(tx) => RanTx(env, app, mode, bytes, tx)
  }

  function Checked(env: Env, app: App, bytes: TxBytes, kind: CheckType): Outcome {
    match kind
    case NewTx => DecodedTx(env, app, CheckMode, bytes)
    case Recheck => DecodedTx(env, app, ReCheckMode, bytes)
    case UnknownType => if env.decode(bytes).None? then DecodedTx(env, app, CheckMode, bytes) else Died
  }

  function Do(env: Env, app: App, step: Step): Outcome {
    match step
    case InitChain(time, info, newMaxGas) => InitChained(env, app, time, info, newMaxGas)
    case BeginBlock(header, newVotes) => BeganBlock(env, app, header, newVotes)
    case DeliverTx(bytes) => DecodedTx(env, app, DeliverMode, bytes)
    case EndBlock => EndedBlock(env, app)
    case Commit => Committed(app)
    case CheckTx(bytes, kind) => Checked(env, app, bytes, kind)
    case Simulate(bytes) => DecodedTx(env, app, SimulateMode, bytes)
  }

  // ---- runs ----

  /** What a run shows to the network: every committed state, and the reply to every delivered transaction. */
  datatype Trace = Dead | Trace(app: App, commits: seq<(nat, Store)>, replies: seq<Answer>)

  function Run(env: Env, app: App, steps: seq<Step>): Trace
    decreases |steps|
  {
    if steps == [] then Trace(app, [], [])
    else
      var first := Do(env, app, steps[0]);
      if first.Died? then Dead
      else
        var rest := Run(env, first.app, steps[1..]);
        if rest.Dead? then Dead
        else Trace(rest.app, CommitOf(steps[0], first) + rest.commits, ReplyOf(steps[0], first) + rest.replies)
  }

  function CommitOf(step: Step, outcome: Outcome): seq<(nat, Store)>
    requires outcome.Next?
  {
    if step.Commit? then [(outcome.app.version, outcome.app.committed)] else []
  }

  function ReplyOf(step: Step, outcome: Outcome): seq<Answer>
    requires outcome.Next?
  {
    if step.DeliverTx? && outcome.reply.Some? then [outcome.reply.value] else []
  }

  /** The steps without checks and simulations. */
  function Consensus(steps: seq<Step>): seq<Step>
    decreases |steps|
  {
    if steps == [] then [] else (if steps[0].Local() then [] else [steps[0]]) + Consensus(steps[1..])
  }

  /** Two applications that agree on everything but the check state. */
  ghost predicate Agree(a: App, b: App) {
    a == b.(check := a.check)
  }

  /** A check or simulation changes nothing but the check state. */
  lemma {:induction false} LocalStep(env: Env, app: App, step: Step)
    requires step.Local() && Do(env, app, step).Next?
    ensures Agree(Do(env, app, step).app, app)
    ensures step.Simulate? ==> Do(env, app, step).app.check.store == app.check.store
  {
    hide RunBody;
  }

  /** Every other step neither reads the check state nor tells applications that agree apart. */
  lemma {:induction false} ConsensusStep(env: Env, a: App, b: App, step: Step)
    requires Agree(a, b) && !step.Local()
    ensures var x, y := Do(env, a, step), Do(env, b, step);
            && (x.Died? <==> y.Died?)
            && (x.Next? ==> Agree(x.app, y.app) && x.reply == y.reply)
            && (x.Next? && (step.Commit? || step.InitChain?) ==> x.app == y.app)
  {
    hide RunTx, Apply;
  }

  /**
    Non-interference: deleting every check and simulation from a run that does not die leaves
    all committed states and all replies to delivered transactions as they were.
   */
  lemma {:induction false} NonInterference(env: Env, a: App, b: App, steps: seq<Step>)
    requires Agree(a, b) && Run(env, a, steps).Trace?
    ensures var x, y := Run(env, a, steps), Run(env, b, Consensus(steps));
            y.Trace? && x.commits == y.commits && x.replies == y.replies && Agree(x.app, y.app)
    decreases |steps|
  {
    hide Do;
    if steps != [] {
      var x := Do(env, a, steps[0]);
      if steps[0].Local() {
        LocalStep(env, a, steps[0]);
        NonInterference(env, x.app, b, steps[1..]);
        assert Consensus(steps) == Consensus(steps[1..]);
        var rest := Run(env, x.app, steps[1..]);
        assert CommitOf(steps[0], x) + rest.commits == rest.commits;
        assert ReplyOf(steps[0], x) + rest.replies == rest.replies;
      } else {
        ConsensusStep(env, a, b, steps[0]);
        var y := Do(env, b, steps[0]);
        NonInterference(env, x.app, y.app, steps[1..]);
        assert Consensus(steps)[1..] == Consensus(steps[1..]);
      }
    }
  }

  /** Two nodes that agree, and take the same blocks amid any traffic of their own, commit the same states. */
  lemma {:induction false} ReplicasAgree(env: Env, a: App, b: App, steps: seq<Step>, steps': seq<Step>)
    requires Agree(a, b) && Consensus(steps) == Consensus(steps')
    requires Run(env, a, steps).Trace? && Run(env, b, steps').Trace?
    ensures var x, y := Run(env, a, steps), Run(env, b, steps');
            x.commits == y.commits && x.replies == y.replies && Agree(x.app, y.app)
  {
    hide Run, Consensus;
    NonInterference(env, a, b, steps);
    NonInterference(env, b, b, steps');
  }

  // ---- commits and heights ----

  lemma {:induction false} RunConcat(env: Env, app: App, x: seq<Step>, y: seq<Step>)
    ensures var r := Run(env, app, x);
            if r.Dead? then Run(env, app, x + y).Dead?
            else
              var r' := Run(env, r.app, y);
              Run(env, app, x + y) == if r'.Dead? then Dead
                                      else Trace(r'.app, r.commits + r'.commits, r.replies + r'.replies)
    decreases |x|
  {
    hide Do;
    if x == [] {
      assert x + y == y;
    } else {
      assert (x + y)[1..] == x[1..] + y;
      var first := Do(env, app, x[0]);
      hide CommitOf, ReplyOf;
      if first.Next? {
        RunConcat(env, first.app, x[1..], y);
        var r := Run(env, first.app, x[1..]);
        if r.Trace? {
          var r' := Run(env, r.app, y);
          var c, d := CommitOf(x[0], first), ReplyOf(x[0], first);
          assert r'.Trace? ==> c + (r.commits + r'.commits) == (c + r.commits) + r'.commits;
          assert r'.Trace? ==> d + (r.replies + r'.replies) == (d + r.replies) + r'.replies;
        }
      }
    }
  }

  /** After a commit the check state shows the committed state, and the next block starts afresh. */
  lemma {:induction false} CommitResets(env: Env, app: App, steps: seq<Step>)
    requires Run(env, app, steps + [Commit]).Trace?
    ensures var app' := Run(env, app, steps + [Commit]).app;
            app'.check.store == app'.committed && app'.deliver == None
  {
    RunConcat(env, app, steps, [Commit]);
    hide RunTx, Apply;
    var mid := Run(env, app, steps).app;
    assert [Commit][1..] == [];
    assert Do(env, mid, Commit) == Committed(mid);
    assert Run(env, mid, [Commit]).app == Do(env, mid, Commit).app;
  }

  function CountCommits(steps: seq<Step>): nat {
    if steps == [] then 0 else (if steps[0].Commit? then 1 else 0) + CountCommits(steps[1..])
  }

  lemma {:induction false} StepVersion(env: Env, app: App, step: Step)
    requires Do(env, app, step).Next?
    ensures var app' := Do(env, app, step).app;
            && app'.version == app.version + (if step.Commit? then 1 else 0)
            && (!step.Commit? && !step.InitChain? ==> app'.committed == app.committed)
            && (step.BeginBlock? ==> step.header.height == app.version + 1)
  {
    hide RunTx, Apply;
  }

  /** Each commit advances the version by exactly one, whatever happens in between. */
  lemma {:induction false} VersionsAdvance(env: Env, app: App, steps: seq<Step>)
    requires Run(env, app, steps).Trace?
    ensures var r := Run(env, app, steps);
            && |r.commits| == CountCommits(steps) && r.app.version == app.version + |r.commits|
            && forall i :: 0 <= i < |r.commits| ==> r.commits[i].0 == app.version + i + 1
    decreases |steps|
  {
    hide Do;
    if steps != [] {
      StepVersion(env, app, steps[0]);
      VersionsAdvance(env, Do(env, app, steps[0]).app, steps[1..]);
    }
  }

  /** The k-th step, when it begins a block, carries the height just above the last commit. */
  lemma {:induction false} BlockHeights(env: Env, app: App, steps: seq<Step>, k: nat)
    requires Run(env, app, steps).Trace? && k < |steps| && steps[k].BeginBlock?
    ensures steps[k].header.height == app.version + CountCommits(steps[..k]) + 1
  {
    var x, y := steps[..k], steps[k..];
    assert x + y == steps;
    RunConcat(env, app, x, y);
    VersionsAdvance(env, app, x);
    hide Do, CountCommits;
    StepVersion(env, Run(env, app, x).app, steps[k]);
  }

  // ---- block gas ----

  /** Steps between the beginning and the end of a block. */
  predicate InBlock(steps: seq<Step>) {
    forall i :: 0 <= i < |steps| ==> steps[i].DeliverTx? || steps[i].Local()
  }

  ghost predicate Spent(app: App) {
    app.deliver.Some? && app.deliver.value.block.Some? && app.deliver.value.block.value.IsOutOfGas()
  }

  lemma {:induction false} SpentStep(env: Env, app: App, step: Step)
    requires Spent(app) && (step.DeliverTx? || step.Local()) && Do(env, app, step).Next?
    ensures Do(env, app, step).app.deliver == app.deliver
    ensures step.DeliverTx? ==>
              var reply := Do(env, app, step).reply;
              reply.Some? && reply.value.Response? && reply.value.err in {Some(BlockGasSpent), Some(Undecodable)}
  {
    hide RunBody;
  }

  /** Once the block gas is spent, no transaction of the block runs any more: all are refused and change nothing. */
  lemma {:induction false} NothingRunsOnceSpent(env: Env, app: App, steps: seq<Step>)
    requires Spent(app) && InBlock(steps) && Run(env, app, steps).Trace?
    ensures var r := Run(env, app, steps);
            && r.app.deliver == app.deliver
            && forall i :: 0 <= i < |r.replies| ==>
                 r.replies[i].Response? && r.replies[i].err in {Some(BlockGasSpent), Some(Undecodable)}
    decreases |steps|
  {
    hide Do;
    if steps != [] {
      var first := Do(env, app, steps[0]);
      SpentStep(env, app, steps[0]);
      NothingRunsOnceSpent(env, first.app, steps[1..]);
    }
  }
}
