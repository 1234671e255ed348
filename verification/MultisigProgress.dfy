/**
  What the multisig protocol does for its users: accepted votes are recorded and stay, and
  calls that have enough of them are executed.
 */
module MultisigProgress {
  import opened Wrappers
  import opened Bytes
  import opened Multisig
  import opened MultisigRuns

  // ---- one vote ----

  /** The votes of all calls but one are the same. */
  ghost predicate OtherVotesKept(s: State, s': State, id: nat) {
    forall k :: k != id ==> VotesOf(s', k) == VotesOf(s, k)
  }

  /** An accepted confirmation appends one vote to one call; a refused one changes nothing. */
  lemma {:induction false} ConfirmEffect(s: State, id: nat, voter: Address)
    ensures var s', status := Confirm(s, id, voter), ConfirmStatus(s, id, voter);
            && (status == WrongCallId <==> id !in s.calls)
            && (id in s.calls ==>
                  var c := s.calls[id];
                  && (status == AlreadyApproved <==> c.approved)
                  && (status == AlreadyRejected <==> c.rejected && !c.approved)
                  && (status == AlreadyConfirmed <==> c.Open() && voter in VotesOf(s, id))
                  && (status == Done <==> c.Open() && voter !in VotesOf(s, id)))
            && s' == s.(votes := s'.votes)
            && OtherVotesKept(s, s', id)
            && VotesOf(s', id) == (if status == Done then VotesOf(s, id) + [voter] else VotesOf(s, id))
            && (status != Done ==> s' == s)
  {
  }

  lemma {:induction false} WithoutIsSplice(votes: seq<Address>, voter: Address) returns (i: nat)
    requires voter in votes
    ensures i < |votes| && votes[i] == voter && Without(votes, voter) == votes[..i] + votes[i + 1..]
  {
    if votes[0] == voter {
      i := 0;
    } else {
      i := WithoutIsSplice(votes[1..], voter);
      i := i + 1;
    }
  }

  /** An accepted revocation takes that vote out, keeps all others, and unqueues the call if it was the last. */
  lemma {:induction false} RevokeEffect(s: State, id: nat, voter: Address)
    requires VotesOk(s)
    ensures var s', status := Revoke(s, id, voter), RevokeStatus(s, id, voter);
            && (status == Done <==> id in s.calls && s.calls[id].Open() && voter in VotesOf(s, id))
            && (status == NotConfirmed <==> id in s.calls && s.calls[id].Open() && voter !in VotesOf(s, id))
            && s' == s.(votes := s'.votes, queue := s'.queue)
            && OtherVotesKept(s, s', id)
            && (status != Done ==> s' == s)
            && (status == Done ==>
                  && |VotesOf(s', id)| == |VotesOf(s, id)| - 1
                  && (forall a :: a in VotesOf(s', id) <==> a in VotesOf(s, id) && a != voter)
                  && s'.queue == (if |VotesOf(s, id)| == 1 then s.queue - {(s.calls[id].height, id)} else s.queue))
  {
    if RevokeStatus(s, id, voter) == Done {
      WithoutOne(s.votes[id], voter);
      hide Without;
      if |s.votes[id]| == 1 { assert s.votes[id] == [voter]; }
    }
  }

  /** What makes a new call acceptable. */
  predicate Acceptable(env: Env, s: State, msg: Option<Msg>, uniqueID: UniqueID, sender: Address) {
    && msg.Some? && msg.value.route != "" && msg.value.kind != "" && uniqueID != [] && sender != ""
    && msg.value.route in env.routes && env.handler(msg.value, s.app).Success?
  }

  /** A new call is stored under the next id, queued at this height and confirmed by its creator, if it is acceptable. */
  lemma {:induction false} SubmitNew(env: Env, s: State, msg: Option<Msg>, uniqueID: UniqueID, sender: Address, height: nat)
    requires IdsOk(s) && VotesOk(s) && uniqueID !in s.ids
    ensures var s', id: nat := Submit(env, s, msg, uniqueID, sender, height), s.lastID + 1;
            && (SubmitStatus(env, s, msg, uniqueID, sender) == Done <==> Acceptable(env, s, msg, uniqueID, sender))
            && if Acceptable(env, s, msg, uniqueID, sender) then
                 && id !in s.calls
                 && s'.calls == s.calls[id := Call(uniqueID, sender, msg.value, height, false, false, false, false)]
                 && s'.ids == s.ids[uniqueID := id] && s'.lastID == id
                 && s'.queue == s.queue + {(height, id)}
                 && VotesOf(s', id) == [sender] && OtherVotesKept(s, s', id)
                 && s'.app == s.app && s'.events == s.events
               else s' == s
  {
    if Acceptable(env, s, msg, uniqueID, sender) {
      CreatedShape(s, msg.value, uniqueID, sender, height);
      hide IdsOk, VotesOk, Confirm, Create, ConfirmStatus;
    }
  }

  /** A known unique id makes a submission a confirmation, whatever else it carries. */
  lemma {:induction false} SubmitKnown(env: Env, s: State, msg: Option<Msg>, uniqueID: UniqueID, sender: Address, height: nat)
    requires IdsOk(s) && uniqueID in s.ids
    ensures var s', id := Submit(env, s, msg, uniqueID, sender, height), s.ids[uniqueID];
            && SubmitStatus(env, s, msg, uniqueID, sender) == ConfirmStatus(s, id, sender)
            && s' == s.(votes := s'.votes) && OtherVotesKept(s, s', id)
            && VotesOf(s', id)
               == if s.calls[id].Open() && sender !in VotesOf(s, id) then VotesOf(s, id) + [sender] else VotesOf(s, id)
  {
    ConfirmEffect(s, s.ids[uniqueID], sender);
  }

  // ---- votes over runs ----

  ghost predicate Revokes(step: Step, voter: Address, id: nat) {
    step.RevokeStep? && step.sender == voter && step.id == id
  }

  lemma {:induction false} NextKeepsVote(env: Env, c: Chain, step: Step, c': Chain, id: nat, voter: Address)
    requires Inv(env, c.state, c.height) && Next(env, c, step, c')
    requires voter in VotesOf(c.state, id) && !Revokes(step, voter, id)
    ensures voter in VotesOf(c'.state, id)
  {
    hide Inv, EndBlocked, Submit, Confirm, Revoke;
    var s, s' := c.state, c'.state;
    InvFacts(env, s, c.height);
    match step
    case SubmitStep(sender, msg, uniqueID) =>
      if uniqueID in s.ids {
        SubmitKnown(env, s, msg, uniqueID, sender, c.height);
      } else {
        SubmitNew(env, s, msg, uniqueID, sender, c.height);
      }
    case ConfirmStep(sender, k) => ConfirmEffect(s, k, sender);
    case RevokeStep(sender, k) => RevokeEffect(s, k, sender);
    case OtherStep(_) =>
    case EndBlockStep(interval, active, overdue) => EndBlockInv(env, s, s', c.height, interval, active, overdue);
  }

  lemma {:induction false} InvFacts(env: Env, s: State, height: nat)
    requires Inv(env, s, height)
    ensures IdsOk(s) && VotesOk(s) && s.lastID >= -1
  {
  }

  /** A recorded vote stays until its voter revokes it. */
  lemma {:induction false} VoteStays(env: Env, chains: seq<Chain>, steps: seq<Step>, j: nat, k: nat, id: nat, voter: Address)
    requires IsRun(env, chains, steps) && j <= k < |chains|
    requires voter in VotesOf(chains[j].state, id)
    requires forall i :: j <= i < k ==> !Revokes(steps[i], voter, id)
    ensures voter in VotesOf(chains[k].state, id)
  {
    if j < k {
      VoteStays(env, chains, steps, j, k - 1, id, voter);
      RunInv(env, chains, steps, k - 1);
      hide Inv, Next;
      NextKeepsVote(env, chains[k - 1], steps[k - 1], chains[k], id, voter);
    }
  }

  /** A step in which a validator's vote for a call is accepted. */
  ghost predicate Accepted(env: Env, s: State, step: Step, voter: Address, id: nat) {
    && env.isValidator(s.app, voter)
    && match step
       case ConfirmStep(sender, k) => sender == voter && k == id && ConfirmStatus(s, k, sender) == Done
       case SubmitStep(sender, msg, uniqueID) =>
         && sender == voter && SubmitStatus(env, s, msg, uniqueID, sender) == Done
         && id == if uniqueID in s.ids then s.ids[uniqueID] else s.lastID + 1
       case _ => false
  }

  lemma {:induction false} AcceptedRecords(env: Env, c: Chain, step: Step, c': Chain, id: nat, voter: Address)
    requires Inv(env, c.state, c.height) && Next(env, c, step, c') && Accepted(env, c.state, step, voter, id)
    ensures voter in VotesOf(c'.state, id)
  {
    hide Inv, Submit, Confirm, Revoke, ConfirmStatus, SubmitStatus;
    InvFacts(env, c.state, c.height);
    match step
    case ConfirmStep(sender, k) => ConfirmEffect(c.state, k, sender);
    case SubmitStep(sender, msg, uniqueID) =>
      if uniqueID in c.state.ids {
        ConfirmEffect(c.state, c.state.ids[uniqueID], sender);
        SubmitKnown(env, c.state, msg, uniqueID, sender, c.height);
      } else {
        SubmitNew(env, c.state, msg, uniqueID, sender, c.height);
      }
  }

  /** Every accepted vote that its voter has not revoked since is recorded. */
  lemma {:induction false} AcceptedVoteRecorded(
      env: Env, chains: seq<Chain>, steps: seq<Step>, j: nat, k: nat, id: nat, voter: Address)
    requires IsRun(env, chains, steps) && j < k < |chains|
    requires Accepted(env, chains[j].state, steps[j], voter, id)
    requires forall i :: j < i < k ==> !Revokes(steps[i], voter, id)
    ensures voter in VotesOf(chains[k].state, id)
  {
    RunInv(env, chains, steps, j);
    hide Inv, Next, Accepted;
    AcceptedRecords(env, chains[j], steps[j], chains[j + 1], id, voter);
    VoteStays(env, chains, steps, j + 1, k, id, voter);
  }

  /** A revocation by a voter of an open call, validator or not, takes the vote away at once. */
  lemma {:induction false} RevokedIsGone(env: Env, chains: seq<Chain>, steps: seq<Step>, k: nat, id: nat, voter: Address)
    requires IsRun(env, chains, steps) && k < |steps| && Revokes(steps[k], voter, id)
    requires id in chains[k].state.calls && chains[k].state.calls[id].Open()
    ensures voter !in VotesOf(chains[k + 1].state, id)
    ensures OtherVotesKept(chains[k].state, chains[k + 1].state, id)
    ensures forall a :: a in VotesOf(chains[k].state, id) && a != voter ==> a in VotesOf(chains[k + 1].state, id)
  {
    RunInv(env, chains, steps, k);
    InvFacts(env, chains[k].state, chains[k].height);
    hide Inv, Revoke, VotesOf;
    RevokeEffect(chains[k].state, id, voter);
  }

  // ---- enough votes mean execution ----

  /** The other modules' state after the effects announced up to the j-th event. */
  ghost function AppAt(s: State, s': State, j: nat): App
    requires |s.events| <= j <= |s'.events|
  {
    Replay(s.app, s'.events[|s.events|..j])
  }

  lemma {:induction false} AppAtLater(s: State, s1: State, s2: State, j: nat)
    requires EffectsAre(s, s1) && s1.events <= s2.events && |s1.events| <= j <= |s2.events|
    ensures AppAt(s, s2, j) == AppAt(s1, s2, j)
  {
    var x, y := s1.events[|s.events|..], s2.events[|s1.events|..j];
    assert s2.events[|s.events|..j] == x + y;
    ReplayConcat(s.app, x, y);
  }

  /** One round decides by the vote count, as a 16-bit number, and the threshold of the state it sees. */
  lemma {:induction false} RoundOutcome(env: Env, s: State, id: nat, height: nat, interval: nat)
    requires Inv(env, s, height) && id in s.calls && (s.calls[id].height, id) in s.queue
    ensures var s' := Execute(env, s, id, height, interval);
            && id in s'.calls && s'.votes == s.votes && EffectsAre(s, s')
            && (s'.calls[id].approved <==> |VotesOf(s, id)| % 0x1_0000 >= env.threshold(s.app))
            && ((s'.calls[id].height, id) in s'.queue <==> !s'.calls[id].approved)
            && (!s'.calls[id].approved ==> s'.calls[id] == s.calls[id])
            && s'.calls[id].rejected == s.calls[id].rejected == false
  {
    QueuedFacts(env, s, height, (s.calls[id].height, id));
    hide Inv;
    if EnoughVotes(env, s, id) {
      var s' := Execute(env, s, id, height, interval);
      OneEvent(s, s', s'.events[|s.events|]);
    } else {
      assert s.events[|s.events|..] == [];
    }
  }

  /** The outcome of a call in the execution loop; j is the number of events its round saw. */
  lemma {:induction false} ExecuteAllOutcome(env: Env, s: State, ids: seq<nat>, height: nat, interval: nat, id: nat)
    returns (j: nat)
    requires Inv(env, s, height) && Walk(s, ids, Start(height, interval), height) && id in ids
    ensures var s' := ExecuteAll(env, s, ids, height, interval);
            && id in s.calls && id in s'.calls && s.events <= s'.events && |s.events| <= j <= |s'.events|
            && (s'.calls[id].approved <==> |VotesOf(s, id)| % 0x1_0000 >= env.threshold(AppAt(s, s', j)))
            && ((s'.calls[id].height, id) in s'.queue <==> !s'.calls[id].approved)
            && (!s'.calls[id].approved ==> s'.calls[id] == s.calls[id])
            && !s'.calls[id].rejected
    decreases |ids|
  {
    hide Inv, Walk, OnlyCloses, Execute, AppAt, AllCalls;
    var lo := Start(height, interval);
    WalkHead(s, ids, lo, height);
    var s1 := Execute(env, s, ids[0], height, interval);
    var s' := ExecuteAll(env, s, ids, height, interval);
    RoundOutcome(env, s, ids[0], height, interval);
    ExecuteInv(env, s, height, interval, ids[0]);
    ExecuteCloses(env, s, ids[0], height, interval);
    WalkOn(s, s1, ids, lo, height);
    ExecuteAllInv(env, s1, ids[1..], height, interval);
    if ids[0] == id {
      j := |s.events|;
      Untouched(s1, s', ids[1..], id);
      NoEffectsYet(s, s');
    } else {
      Untouched(s, s1, [ids[0]], id);
      j := ExecuteAllOutcome(env, s1, ids[1..], height, interval, id);
      AppAtLater(s, s1, s', j);
    }
  }

  lemma {:induction false} NoEffectsYet(s: State, s': State)
    requires |s.events| <= |s'.events|
    ensures AppAt(s, s', |s.events|) == s.app
  {
    assert s'.events[|s.events|..|s.events|] == [];
  }

  /** Calls that are not walked keep their status, votes and place in the queue. */
  lemma {:induction false} Untouched(s: State, s': State, ids: seq<nat>, id: nat)
    requires OnlyCloses(s, s', ids) && id in s.calls && id !in ids
    ensures id in s'.calls && s'.calls[id] == s.calls[id] && VotesOf(s', id) == VotesOf(s, id)
    ensures (s.calls[id].height, id) in s'.queue <==> (s.calls[id].height, id) in s.queue
    ensures s.events <= s'.events
  {
  }

  lemma {:induction false} ExecuteCloses(env: Env, s: State, id: nat, height: nat, interval: nat)
    requires id in s.calls
    ensures OnlyCloses(s, Execute(env, s, id, height, interval), [id])
  {
  }

  lemma {:induction false} WalkHead(s: State, ids: seq<nat>, lo: nat, hi: nat)
    requires ids != [] && Walk(s, ids, lo, hi)
    ensures AllCalls(s, ids) && ids[0] !in ids[1..]
    ensures ids[0] in s.calls && (s.calls[ids[0]].height, ids[0]) in s.queue && lo <= s.calls[ids[0]].height <= hi
    ensures forall id :: id in ids ==> id in s.calls && (id == ids[0] || id in ids[1..])
  {
    assert ids == [ids[0]] + ids[1..];
  }

  lemma {:induction false} RejectAllOutcome(env: Env, s: State, ids: seq<nat>, height: nat, interval: nat, id: nat)
    requires Inv(env, s, height) && Walk(s, ids, 0, Start(height, interval)) && height >= interval && id in ids
    ensures var s' := RejectAll(s, ids, height, interval);
            && id in s.calls && id in s'.calls && (s'.calls[id].height, id) !in s'.queue
            && s'.calls[id] == s.calls[id].(rejected := true)
    decreases |ids|
  {
    hide Inv, Walk, OnlyCloses, AllCalls;
    WalkHead(s, ids, 0, Start(height, interval));
    var s1 := Reject(s, ids[0], height, interval);
    RejectInv(env, s, height, interval, ids[0]);
    RejectCloses(s, ids[0], height, interval);
    WalkOn(s, s1, ids, 0, Start(height, interval));
    RejectAllInv(env, s1, ids[1..], height, interval);
    if ids[0] == id {
      Untouched(s1, RejectAll(s, ids, height, interval), ids[1..], id);
    } else {
      Untouched(s, s1, [ids[0]], id);
      RejectAllOutcome(env, s1, ids[1..], height, interval, id);
    }
  }

  lemma {:induction false} RejectCloses(s: State, id: nat, height: nat, interval: nat)
    requires id in s.calls
    ensures OnlyCloses(s, Reject(s, id, height, interval), [id])
  {
  }

  /** Overdue: the interval has passed since the submission, and twice the interval since the first block. */
  predicate Overdue(submitted: nat, height: nat, interval: nat) {
    submitted + interval <= height && 2 * interval < height
  }

  /** What the end of a block makes of a queued call, given whether it was confirmed when its turn came. */
  ghost predicate Outcome(c: Call, c': Call, queued: bool, confirmed: bool, height: nat, interval: nat) {
    if confirmed && height <= c.height + interval then
      c'.approved && (c'.executed || c'.failed) && !c'.rejected && !queued
    else if Overdue(c.height, height, interval) then c' == c.(rejected := true) && !queued
    else c' == c && queued
  }

  /**
    Progress: a queued call that is recent enough is closed as executed or failed in this very
    block if its votes reach the threshold of the state that its round sees, after the j-th
    event; otherwise it is rejected if it is overdue, and left as it was if it is not.
   */
  lemma {:induction false} EndBlockOutcome(
      env: Env, s: State, s': State, height: nat, interval: nat, active: seq<nat>, overdue: seq<nat>, id: nat)
    returns (j: nat)
    requires Inv(env, s, height) && EndBlocked(env, s, s', height, interval, active, overdue) && Queued(s, id)
    ensures id in s'.calls && |s.events| <= j <= |s'.events|
    ensures Outcome(
              s.calls[id], s'.calls[id], Queued(s', id),
              |VotesOf(s, id)| % 0x1_0000 >= env.threshold(AppAt(s, s', j)), height, interval)
  {
    var s1 := ExecuteAll(env, s, active, height, interval);
    QueuedHeight(env, s, height, id);
    ActiveScan(s, active, height, interval, id);
    hide Inv, IsScan, Walk, OnlyCloses, AppAt, AllCalls, RejectAll, Reject;
    ExecuteAllInv(env, s, active, height, interval);
    if height <= s.calls[id].height + interval {
      j := ExecuteAllOutcome(env, s, active, height, interval, id);
    } else {
      Untouched(s, s1, active, id);
      j := |s.events|;
    }
    hide ExecuteAll;
    FlagsKept(env, s1, height, id);
    if Start(height, interval) > interval {
      OverdueScan(s1, overdue, height, interval, id);
      RejectAllInv(env, s1, overdue, height, interval);
      EventsGrow(s1, s', overdue);
      AppAtSame(s, s1, s', j);
      if id in overdue {
        RejectAllOutcome(env, s1, overdue, height, interval, id);
      } else {
        Untouched(s1, s', overdue, id);
      }
    }
  }

  lemma {:induction false} EventsGrow(s: State, s': State, ids: seq<nat>)
    requires OnlyCloses(s, s', ids)
    ensures s.events <= s'.events && s'.calls.Keys == s.calls.Keys
  {
  }

  lemma {:induction false} AppAtSame(s: State, s1: State, s2: State, j: nat)
    requires s1.events <= s2.events && |s.events| <= j <= |s1.events|
    ensures AppAt(s, s2, j) == AppAt(s, s1, j)
  {
    assert s2.events[|s.events|..j] == s1.events[|s.events|..j];
  }

  lemma {:induction false} QueuedHeight(env: Env, s: State, height: nat, id: nat)
    requires Inv(env, s, height) && Queued(s, id)
    ensures s.calls[id].height <= height && s.calls[id].Open()
  {
    QueuedFacts(env, s, height, (s.calls[id].height, id));
  }

  lemma {:induction false} FlagsKept(env: Env, s: State, height: nat, id: nat)
    requires Inv(env, s, height) && id in s.calls
    ensures FlagsOk(s.calls[id])
  {
  }

  lemma {:induction false} ActiveScan(s: State, active: seq<nat>, height: nat, interval: nat, id: nat)
    requires IsScan(s, active, Start(height, interval), height) && Queued(s, id) && s.calls[id].height <= height
    ensures Walk(s, active, Start(height, interval), height)
    ensures id in active <==> height <= s.calls[id].height + interval
  {
    assert (s.calls[id].height, id) in s.queue;
  }

  lemma {:induction false} OverdueScan(s: State, overdue: seq<nat>, height: nat, interval: nat, id: nat)
    requires IsScan(s, overdue, 0, Start(height, interval)) && id in s.calls && height >= interval
    ensures Walk(s, overdue, 0, Start(height, interval))
    ensures id in overdue <==> Queued(s, id) && s.calls[id].height + interval <= height
  {
    if Queued(s, id) { assert (s.calls[id].height, id) in s.queue; }
  }

  /** Events say truly when they happened: only the end of a block adds any, with its own height and interval. */
  ghost predicate Dated(events: seq<Event>, from: nat, height: nat, interval: nat) {
    forall i :: from <= i < |events| ==> events[i].height == height && events[i].interval == interval
  }

  lemma {:induction false} ExecuteAllDated(env: Env, s: State, ids: seq<nat>, height: nat, interval: nat, from: nat)
    requires AllCalls(s, ids) && Dated(s.events, from, height, interval)
    ensures Dated(ExecuteAll(env, s, ids, height, interval).events, from, height, interval)
    decreases |ids|
  {
    if ids != [] { ExecuteAllDated(env, Execute(env, s, ids[0], height, interval), ids[1..], height, interval, from); }
  }

  lemma {:induction false} RejectAllDated(s: State, ids: seq<nat>, height: nat, interval: nat, from: nat)
    requires AllCalls(s, ids) && Dated(s.events, from, height, interval)
    ensures Dated(RejectAll(s, ids, height, interval).events, from, height, interval)
    decreases |ids|
  {
    if ids != [] { RejectAllDated(Reject(s, ids[0], height, interval), ids[1..], height, interval, from); }
  }

  lemma {:induction false} EventsDated(env: Env, chains: seq<Chain>, steps: seq<Step>, k: nat)
    requires IsRun(env, chains, steps) && k < |steps|
    ensures var s, s' := chains[k].state, chains[k + 1].state;
            if steps[k].EndBlockStep? then Dated(s'.events, |s.events|, chains[k].height, steps[k].interval)
            else s'.events == s.events
  {
    var s, h := chains[k].state, chains[k].height;
    assert Next(env, chains[k], steps[k], chains[k + 1]);
    match steps[k]
    case EndBlockStep(interval, active, overdue) =>
      ExecuteAllDated(env, s, active, h, interval, |s.events|);
      if Start(h, interval) > interval {
        RejectAllDated(ExecuteAll(env, s, active, h, interval), overdue, h, interval, |s.events|);
      }
    case _ =>
  }

  /** The threshold is the same in every state that the rounds of a block see. */
  ghost predicate SteadyThreshold(env: Env, s: State, s': State, threshold: nat) {
    forall j :: |s.events| <= j <= |s'.events| ==> env.threshold(AppAt(s, s', j)) == threshold
  }

  /** With a steady threshold the outcome of a queued call depends on its votes and its age alone. */
  lemma {:induction false} ConfirmedIff(
      env: Env, chains: seq<Chain>, steps: seq<Step>, k: nat, id: nat, threshold: nat)
    requires IsRun(env, chains, steps) && k < |steps| && steps[k].EndBlockStep? && Queued(chains[k].state, id)
    requires SteadyThreshold(env, chains[k].state, chains[k + 1].state, threshold)
    ensures var s, s', h, interval := chains[k].state, chains[k + 1].state, chains[k].height, steps[k].interval;
            && id in s'.calls
            && Outcome(s.calls[id], s'.calls[id], Queued(s', id), |VotesOf(s, id)| % 0x1_0000 >= threshold, h, interval)
            && (s'.calls[id].approved <==>
                  |VotesOf(s, id)| % 0x1_0000 >= threshold && h <= s.calls[id].height + interval)
  {
    RunInv(env, chains, steps, k);
    QueuedHeight(env, chains[k].state, chains[k].height, id);
    hide Inv, EndBlocked, AppAt;
    var j := EndBlockOutcome(
      env, chains[k].state, chains[k + 1].state, chains[k].height, steps[k].interval, steps[k].active, steps[k].overdue, id);
  }
}
