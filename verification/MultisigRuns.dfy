/**
  Whole runs of the multisig protocol: any interleaving of messages, changes made by other
  modules, and ends of blocks.
 */
module MultisigRuns {
  import opened Wrappers
  import opened Multisig

  datatype Step =
    | SubmitStep(sender: Address, msg: Option<Msg>, uniqueID: UniqueID)
    | ConfirmStep(sender: Address, id: nat)
    | RevokeStep(sender: Address, id: nat)
    | OtherStep(app: App)                                            // anything the other modules do
    | EndBlockStep(interval: nat, active: seq<nat>, overdue: seq<nat>)

  datatype Chain = Chain(state: State, height: nat)

  /** Submitting and confirming are reserved to validators; a refused message changes nothing. */
  ghost predicate Next(env: Env, c: Chain, step: Step, c': Chain) {
    match step
    case SubmitStep(sender, msg, uniqueID) =>
      && c'.height == c.height && c.state.lastID >= -1
      && c'.state == if env.isValidator(c.state.app, sender)
                     then Submit(env, c.state, msg, uniqueID, sender, c.height) else c.state
    case ConfirmStep(sender, id) =>
      && c'.height == c.height
      && c'.state == if env.isValidator(c.state.app, sender) then Confirm(c.state, id, sender) else c.state
    case RevokeStep(sender, id) =>
      c'.height == c.height && c'.state == Revoke(c.state, id, sender)
    case OtherStep(app) =>
      c'.height == c.height && c'.state == c.state.(app := app)
    case EndBlockStep(interval, active, overdue) =>
      c'.height == c.height + 1 && EndBlocked(env, c.state, c'.state, c.height, interval, active, overdue)
  }

  ghost predicate IsRun(env: Env, chains: seq<Chain>, steps: seq<Step>) {
    && |chains| == |steps| + 1
    && (exists app :: chains[0].state == Init(app))
    && forall k {:trigger steps[k]} :: 0 <= k < |steps| ==> Next(env, chains[k], steps[k], chains[k + 1])
  }

  // ---- the invariant over runs ----

  lemma {:induction false} LaterHeight(env: Env, s: State, height: nat, later: nat)
    requires Inv(env, s, height) && height <= later
    ensures Inv(env, s, later)
  {
  }

  lemma {:induction false} OtherInv(env: Env, s: State, height: nat, app: App)
    requires Inv(env, s, height)
    ensures Inv(env, s.(app := app), height)
  {
    var s' := s.(app := app);
    EventsKept(env, s, s', height);
    forall e | e in s'.queue ensures QueuedOk(env, s', e) {
      assert QueuedOk(env, s, e);
    }
  }

  lemma {:induction false} NextInv(env: Env, c: Chain, step: Step, c': Chain)
    requires Inv(env, c.state, c.height) && Next(env, c, step, c')
    ensures Inv(env, c'.state, c'.height)
  {
    hide Inv;
    match step
    case SubmitStep(sender, msg, uniqueID) => SubmitInv(env, c.state, c.height, msg, uniqueID, sender);
    case ConfirmStep(sender, id) => ConfirmInv(env, c.state, c.height, id, sender);
    case RevokeStep(sender, id) => RevokeInv(env, c.state, c.height, id, sender);
    case OtherStep(app) => OtherInv(env, c.state, c.height, app);
    case EndBlockStep(interval, active, overdue) =>
      EndBlockInv(env, c.state, c'.state, c.height, interval, active, overdue);
      LaterHeight(env, c'.state, c.height, c'.height);
  }

  /** Every state of every run satisfies the invariant. */
  lemma {:induction false} RunInv(env: Env, chains: seq<Chain>, steps: seq<Step>, k: nat)
    requires IsRun(env, chains, steps) && k < |chains|
    ensures Inv(env, chains[k].state, chains[k].height)
  {
    if k == 0 {
      var app :| chains[0].state == Init(app);
      InitInv(env, app, chains[0].height);
    } else {
      RunInv(env, chains, steps, k - 1);
      NextInv(env, chains[k - 1], steps[k - 1], chains[k]);
    }
  }

  // ---- leaving the queue is final ----

  predicate Queued(s: State, id: nat) {
    id in s.calls && (s.calls[id].height, id) in s.queue
  }

  lemma {:induction false} NextFrozen(env: Env, c: Chain, step: Step, c': Chain, id: nat)
    requires Inv(env, c.state, c.height) && Next(env, c, step, c')
    requires id in c.state.calls && !Queued(c.state, id)
    ensures id in c'.state.calls && !Queued(c'.state, id) && c'.state.calls[id] == c.state.calls[id]
  {
    if step.EndBlockStep? {
      EndBlockFrozen(env, c.state, c'.state, c.height, step.interval, step.active, step.overdue, id);
    } else if step.SubmitStep? {
      assert id != c.state.lastID + 1;
    }
  }

  lemma {:induction false} EndBlockFrozen(
      env: Env, s: State, s': State, height: nat, interval: nat, active: seq<nat>, overdue: seq<nat>, id: nat)
    requires Inv(env, s, height) && EndBlocked(env, s, s', height, interval, active, overdue)
    requires id in s.calls && !Queued(s, id)
    ensures id in s'.calls && !Queued(s', id) && s'.calls[id] == s.calls[id]
  {
    hide Inv;
    EndBlockInv(env, s, s', height, interval, active, overdue);
    ExecuteAllInv(env, s, active, height, interval);
    assert id !in active;
    assert id !in overdue;
  }

  /** Once a call is out of the queue it stays out, and its status never changes again. */
  lemma {:induction false} FrozenForever(env: Env, chains: seq<Chain>, steps: seq<Step>, j: nat, k: nat, id: nat)
    requires IsRun(env, chains, steps) && j <= k < |chains|
    requires id in chains[j].state.calls && !Queued(chains[j].state, id)
    ensures id in chains[k].state.calls && !Queued(chains[k].state, id)
    ensures chains[k].state.calls[id] == chains[j].state.calls[id]
  {
    if j < k {
      FrozenForever(env, chains, steps, j, k - 1, id);
      RunInv(env, chains, steps, k - 1);
      hide Inv, Next;
      NextFrozen(env, chains[k - 1], steps[k - 1], chains[k], id);
    }
  }

  // ---- votes ----

  /** A step that casts a vote of `voter` for a call. */
  ghost predicate CastsVote(step: Step, voter: Address, id: nat, uniqueID: UniqueID) {
    || (step.ConfirmStep? && step.sender == voter && step.id == id)
    || (step.SubmitStep? && step.sender == voter && step.uniqueID == uniqueID)
  }

  lemma {:induction false} NewVote(env: Env, c: Chain, step: Step, c': Chain, id: nat, voter: Address)
    requires Inv(env, c.state, c.height) && Next(env, c, step, c')
    requires voter in VotesOf(c'.state, id) && voter !in VotesOf(c.state, id)
    ensures id in c'.state.calls
    ensures CastsVote(step, voter, id, c'.state.calls[id].uniqueID) && env.isValidator(c.state.app, voter)
  {
    if step.EndBlockStep? {
      hide Inv, EndBlocked;
      EndBlockInv(env, c.state, c'.state, c.height, step.interval, step.active, step.overdue);
    } else if step.RevokeStep? {
      RevokeAddsNone(c.state, step.id, step.sender, id, voter);
      hide Inv, Revoke;
    }
  }

  lemma {:induction false} RevokeAddsNone(s: State, call: nat, sender: Address, id: nat, voter: Address)
    requires VotesOk(s) && voter in VotesOf(Revoke(s, call, sender), id)
    ensures voter in VotesOf(s, id)
  {
    if RevokeStatus(s, call, sender) == Done {
      WithoutOne(s.votes[call], sender);
    }
  }

  lemma {:induction false} NextKeepsCall(env: Env, c: Chain, step: Step, c': Chain, id: nat)
    requires Inv(env, c.state, c.height) && Next(env, c, step, c') && id in c.state.calls
    ensures id in c'.state.calls
    ensures c'.state.calls[id].uniqueID == c.state.calls[id].uniqueID
  {
    if Queued(c.state, id) {
      if step.EndBlockStep? {
        EndBlockKeepsCalls(env, c.state, c'.state, c.height, step.interval, step.active, step.overdue, id);
      }
    } else {
      NextFrozen(env, c, step, c', id);
    }
  }

  lemma {:induction false} ExecuteAllKeeps(env: Env, s: State, ids: seq<nat>, height: nat, interval: nat, id: nat)
    requires AllCalls(s, ids) && id in s.calls
    ensures var s' := ExecuteAll(env, s, ids, height, interval);
            id in s'.calls && s'.calls[id].uniqueID == s.calls[id].uniqueID
    decreases |ids|
  {
    if ids != [] {
      ExecuteAllKeeps(env, Execute(env, s, ids[0], height, interval), ids[1..], height, interval, id);
    }
  }

  lemma {:induction false} RejectAllKeeps(s: State, ids: seq<nat>, height: nat, interval: nat, id: nat)
    requires AllCalls(s, ids) && id in s.calls
    ensures var s' := RejectAll(s, ids, height, interval);
            id in s'.calls && s'.calls[id].uniqueID == s.calls[id].uniqueID
    decreases |ids|
  {
    if ids != [] {
      RejectAllKeeps(Reject(s, ids[0], height, interval), ids[1..], height, interval, id);
    }
  }

  lemma {:induction false} EndBlockKeepsCalls(
      env: Env, s: State, s': State, height: nat, interval: nat, active: seq<nat>, overdue: seq<nat>, id: nat)
    requires EndBlocked(env, s, s', height, interval, active, overdue) && id in s.calls
    ensures id in s'.calls && s'.calls[id].uniqueID == s.calls[id].uniqueID
  {
    ExecuteAllKeeps(env, s, active, height, interval, id);
    if Start(height, interval) > interval {
      RejectAllKeeps(ExecuteAll(env, s, active, height, interval), overdue, height, interval, id);
    }
  }

  /** Every recorded vote was cast, earlier in the run, by an address that was a validator at that moment. */
  lemma {:induction false} VoterWasValidator(env: Env, chains: seq<Chain>, steps: seq<Step>, k: nat, id: nat, voter: Address)
    returns (j: nat)
    requires IsRun(env, chains, steps) && k < |chains|
    requires voter in VotesOf(chains[k].state, id)
    ensures j < k && id in chains[k].state.calls
    ensures CastsVote(steps[j], voter, id, chains[k].state.calls[id].uniqueID)
    ensures env.isValidator(chains[j].state.app, voter)
  {
    hide Inv, Next;
    if k == 0 {
      assert false;
    }
    RunInv(env, chains, steps, k - 1);
    if voter in VotesOf(chains[k - 1].state, id) {
      j := VoterWasValidator(env, chains, steps, k - 1, id, voter);
      NextKeepsCall(env, chains[k - 1], steps[k - 1], chains[k], id);
    } else {
      j := k - 1;
      NewVote(env, chains[k - 1], steps[k - 1], chains[k], id, voter);
    }
  }

  // ---- execution safety ----

  /** A call's effect is committed at most once: no two events of a run are about the same call. */
  lemma {:induction false} ClosedOnce(env: Env, chains: seq<Chain>, steps: seq<Step>, k: nat, i: nat, j: nat)
    requires IsRun(env, chains, steps) && k < |chains|
    requires i < |chains[k].state.events| && j < |chains[k].state.events| && i != j
    ensures chains[k].state.events[i].id != chains[k].state.events[j].id
  {
    RunInv(env, chains, steps, k);
  }

  /**
    An effect was committed only when at least the threshold of distinct addresses, each a
    validator when it voted, held recorded votes; it is the effect of the call's own handler,
    and it came within the interval after the call's submission.
   */
  lemma {:induction false} ExecutionSafe(env: Env, chains: seq<Chain>, steps: seq<Step>, k: nat, i: nat)
    requires IsRun(env, chains, steps) && k < |chains|
    requires i < |chains[k].state.events| && chains[k].state.events[i].Executed?
    ensures var s, e := chains[k].state, chains[k].state.events[i];
            && e.id in s.calls && s.calls[e.id].executed
            && s.calls[e.id].height <= e.height <= s.calls[e.id].height + e.interval
            && env.handler(s.calls[e.id].msg, e.before) == Success(e.after)
            && |VotesOf(s, e.id)| >= env.threshold(e.before) && Distinct(VotesOf(s, e.id))
            && forall voter :: voter in VotesOf(s, e.id) ==>
                 exists j :: 0 <= j < k && CastsVote(steps[j], voter, e.id, s.calls[e.id].uniqueID)
                             && env.isValidator(chains[j].state.app, voter)
  {
    var s, e := chains[k].state, chains[k].state.events[i];
    RunInv(env, chains, steps, k);
    assert EventOk(env, s, e);
    assert Distinct(VotesOf(s, e.id));
    hide Inv, EventOk, Distinct;
    forall voter | voter in VotesOf(s, e.id)
      ensures exists j :: 0 <= j < k && CastsVote(steps[j], voter, e.id, s.calls[e.id].uniqueID)
                          && env.isValidator(chains[j].state.app, voter)
    {
      var j := VoterWasValidator(env, chains, steps, k, e.id, voter);
    }
  }

  /** With a constant interval, a call submitted at h is out of the queue once block max(h + interval, 2 * interval + 1) has ended. */
  lemma {:induction false} OutOfQueueInTime(env: Env, chains: seq<Chain>, steps: seq<Step>, k: nat, id: nat, interval: nat)
    requires IsRun(env, chains, steps) && k < |steps|
    requires steps[k].EndBlockStep? && steps[k].interval == interval
    requires id in chains[k + 1].state.calls
    requires chains[k].height >= chains[k + 1].state.calls[id].height + interval && chains[k].height >= 2 * interval + 1
    ensures !Queued(chains[k + 1].state, id)
  {
    RunInv(env, chains, steps, k);
    hide Inv;
    if Queued(chains[k + 1].state, id) {
      var e := (chains[k + 1].state.calls[id].height, id);
      QueueAfterEndBlock(
        env, chains[k].state, chains[k + 1].state, chains[k].height, interval, steps[k].active, steps[k].overdue, e);
    }
  }

  /** A rejection never comes before the interval has passed since the submission. */
  lemma {:induction false} NeverRejectedEarly(env: Env, chains: seq<Chain>, steps: seq<Step>, k: nat, i: nat)
    requires IsRun(env, chains, steps) && k < |chains|
    requires i < |chains[k].state.events| && chains[k].state.events[i].Rejected?
    ensures var s, e := chains[k].state, chains[k].state.events[i];
            && e.id in s.calls && s.calls[e.id].rejected && !s.calls[e.id].approved
            && e.height >= s.calls[e.id].height + e.interval
  {
    RunInv(env, chains, steps, k);
    assert EventOk(env, chains[k].state, chains[k].state.events[i]);
    assert FlagsOk(chains[k].state.calls[chains[k].state.events[i].id]);
  }
}
