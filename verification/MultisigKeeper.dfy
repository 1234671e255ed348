/**
  The multisig keeper over its byte-keyed store, its message handlers and the end of a block.
  Every method is proved against the protocol's transitions.
 */
module MultisigKeeper {
  import opened Wrappers
  import opened Bytes
  import opened QueueKeys
  import opened Multisig
  import opened MultisigRuns
  import opened MultisigStore

  class Keeper {
    const env: Env
    var store: Store
    var app: App
    var events: seq<Event>
    ghost var state: State    // what the store represents

    ghost predicate Valid()
      reads this
    {
      Represents(store, state) && HeightsFit(state) && state.app == app && state.events == events
    }

    constructor (env: Env, app: App)
      ensures Valid() && this.env == env && state == Init(app)
    {
      this.env, this.app := env, app;
      store, events, state := map[], [], Init(app);
    }

    // ---- calls ----

    method GetCall(id: nat) returns (call: Option<Call>)
      requires Valid()
      ensures call == if id in state.calls then Some(state.calls[id]) else None
    {
      Read(store, state, CallEntry(id));
      hide Represents;
      var key := KeyOf(CallEntry(id));
      if key !in store { return None; }
      return Some(store[key].call);
    }

    method StoreCall(id: nat, call: Call)
      requires Valid() && call.height <= MAX_HEIGHT
      modifies this`store, this`state
      ensures Valid() && state == old(state).(calls := old(state).calls[id := call])
    {
      ghost var s' := state.(calls := state.calls[id := call]);
      Write(store, state, s', CallEntry(id));
      hide Represents;
      store := store[KeyOf(CallEntry(id)) := CallValue(call)];
      state := s';
    }

    /** The first id is zero. */
    method NextCallID() returns (id: nat)
      requires Valid()
      ensures id == state.lastID + 1
    {
      Read(store, state, LastIdEntry);
      if KeyOf(LastIdEntry) !in store { return 0; }
      return store[KeyOf(LastIdEntry)].id + 1;
    }

    method SetLastCallID(id: nat)
      requires Valid()
      modifies this`store, this`state
      ensures Valid() && state == old(state).(lastID := id)
    {
      ghost var s' := state.(lastID := id);
      Write(store, state, s', LastIdEntry);
      hide Represents;
      store, state := store[KeyOf(LastIdEntry) := IdValue(id)], s';
    }

    method SetCallUniqueIDMatch(uniqueID: UniqueID, id: nat)
      requires Valid()
      modifies this`store, this`state
      ensures Valid() && state == old(state).(ids := old(state).ids[uniqueID := id])
    {
      ghost var s' := state.(ids := state.ids[uniqueID := id]);
      Write(store, state, s', UniqueEntry(uniqueID));
      hide Represents;
      store, state := store[KeyOf(UniqueEntry(uniqueID)) := IdValue(id)], s';
    }

    method CreateCall(id: nat, call: Call)
      requires Valid() && id == state.lastID + 1 && call.height <= MAX_HEIGHT
      requires call.Open() && !call.executed && !call.failed
      modifies this`store, this`state
      ensures Valid() && state == Create(old(state), call.msg, call.uniqueID, call.creator, call.height)
    {
      hide Represents;
      SetLastCallID(id);
      SetCallUniqueIDMatch(call.uniqueID, id);
      StoreCall(id, call);
      AddCallToQueue(id, call.height);
    }

    /** A known unique id is confirmed; a new call is checked, dry-run, stored, queued and confirmed. */
    method SubmitCall(msg: Option<Msg>, uniqueID: UniqueID, sender: Address, height: nat) returns (status: Status)
      requires Valid() && height <= MAX_HEIGHT
      modifies this`store, this`state
      ensures Valid() && state == Submit(env, old(state), msg, uniqueID, sender, height)
      ensures Inv(env, old(state), height) ==> status == SubmitStatus(env, old(state), msg, uniqueID, sender)
    {
      Read(store, state, UniqueEntry(uniqueID));
      hide Represents;
      var key := KeyOf(UniqueEntry(uniqueID));
      if key in store {
        status := ConfirmCall(store[key].id, sender);
        return;
      }
      // a new call and its validity
      if msg.None? { return WrongMsg; }
      if msg.value.route == "" { return WrongRoute; }
      if msg.value.kind == "" { return WrongType; }
      var id := NextCallID();
      if uniqueID == [] { return WrongUniqueId; }
      if sender == "" { return WrongAddress; }
      // the route, and the dry run
      if msg.value.route !in env.routes { return WrongRoute; }
      if env.handler(msg.value, app).Failed? { return HandlerFailed; }
      if Inv(env, state, height) { CreatedShape(state, msg.value, uniqueID, sender, height); }
      hide Inv;
      CreateCall(id, Call(uniqueID, sender, msg.value, height, false, false, false, false));
      status := ConfirmCall(id, sender);
    }

    // ---- votes ----

    method GetVotes(id: nat) returns (votes: Option<seq<Address>>)
      requires Valid()
      ensures votes == if id in state.calls then Some(VotesOf(state, id)) else None
    {
      Read(store, state, CallEntry(id));
      Read(store, state, VotesEntry(id));
      hide Represents;
      if KeyOf(CallEntry(id)) !in store { return None; }
      if KeyOf(VotesEntry(id)) !in store { return Some([]); }
      return Some(store[KeyOf(VotesEntry(id))].votes);
    }

    /** None when the call has no votes at all. */
    method HasVote(id: nat, voter: Address) returns (voted: Option<bool>)
      requires Valid()
      ensures voted.None? <==> id !in state.votes
      ensures voted.Some? ==> (voted.value <==> voter in state.votes[id])
    {
      Read(store, state, VotesEntry(id));
      hide Represents;
      if KeyOf(VotesEntry(id)) !in store { return None; }
      var votes := store[KeyOf(VotesEntry(id))].votes;
      var i := IndexOf(votes, voter);
      return Some(i < |votes|);
    }

    method SetVotes(id: nat, votes: seq<Address>)
      requires Valid()
      modifies this`store, this`state
      ensures Valid() && state == old(state).(votes := old(state).votes[id := votes])
    {
      ghost var s' := state.(votes := state.votes[id := votes]);
      Write(store, state, s', VotesEntry(id));
      hide Represents;
      store, state := store[KeyOf(VotesEntry(id)) := VotesValue(votes)], s';
    }

    method RemoveVotes(id: nat)
      requires Valid()
      modifies this`store, this`state
      ensures Valid() && state == old(state).(votes := old(state).votes - {id})
    {
      ghost var s' := state.(votes := state.votes - {id});
      Delete(store, state, s', VotesEntry(id));
      hide Represents;
      store, state := store - {KeyOf(VotesEntry(id))}, s';
    }

    method ConfirmCall(id: nat, voter: Address) returns (status: Status)
      requires Valid()
      modifies this`store, this`state
      ensures Valid() && state == Confirm(old(state), id, voter)
      ensures status == ConfirmStatus(old(state), id, voter)
    {
      hide Represents;
      var call := GetCall(id);
      if call.None? { return WrongCallId; }
      status := CanBeVoted(call.value);
      if status != Done { return; }
      var voted := HasVote(id, voter);
      if voted == Some(true) { return AlreadyConfirmed; }
      if voted == None {
        assert [] + [voter] == [voter];
        SetVotes(id, [voter]);
        return;
      }
      var votes := GetVotes(id);
      SetVotes(id, votes.value + [voter]);
    }

    method RevokeConfirmation(id: nat, voter: Address) returns (status: Status)
      requires Valid()
      modifies this`store, this`state
      ensures Valid() && state == Revoke(old(state), id, voter)
      ensures status == RevokeStatus(old(state), id, voter)
    {
      hide Represents;
      var call := GetCall(id);
      if call.None? { return WrongCallId; }
      status := CanBeVoted(call.value);
      if status != Done { return; }
      var voted := HasVote(id, voter);
      if voted != Some(true) { return NotConfirmed; }
      var votes := GetVotes(id);
      if |votes.value| == 1 {
        RemoveVotes(id);
        RemoveCallFromQueue(id, call.value.height);
        return;
      }
      var i := IndexOf(votes.value, voter);
      WithoutSplices(votes.value, voter, i);
      SetVotes(id, votes.value[..i] + votes.value[i + 1..]);
    }

    // ---- queue ----

    method AddCallToQueue(id: nat, height: nat)
      requires Valid() && height <= MAX_HEIGHT
      modifies this`store, this`state
      ensures Valid() && state == old(state).(queue := old(state).queue + {(height, id)})
    {
      ghost var s' := state.(queue := state.queue + {(height, id)});
      Write(store, state, s', QueueEntry(id, height));
      hide Represents;
      store, state := store[KeyOf(QueueEntry(id, height)) := IdValue(id)], s';
    }

    method RemoveCallFromQueue(id: nat, height: nat)
      requires Valid() && height <= MAX_HEIGHT
      modifies this`store, this`state
      ensures Valid() && state == old(state).(queue := old(state).queue - {(height, id)})
    {
      ghost var s' := state.(queue := state.queue - {(height, id)});
      Delete(store, state, s', QueueEntry(id, height));
      hide Represents;
      store, state := store - {KeyOf(QueueEntry(id, height))}, s';
    }

    /** The ids stored under a range of keys that holds queue entries only. */
    method QueueIds(start: Key, end: Key, ghost lo: nat, ghost hi: nat) returns (ids: seq<nat>)
      requires Valid() && QueueRange(start, end, lo, hi)
      ensures QueueOk(env, state) ==> IsScan(state, ids, lo, hi)
    {
      hide Represents, QueueRange;
      var keys := Iterate(store, start, end);
      ids := [];
      while |ids| < |keys|
        invariant |ids| <= |keys| && IdsOf(store, keys[..|ids|], ids)
      {
        ghost var e := IteratedEntry(store, state, start, end, keys, lo, hi, |ids|);
        ids := ids + [store[keys[|ids|]].id];
      }
      assert keys[..|ids|] == keys;
      if QueueOk(env, state) {
        IterationIsScan(env, store, state, start, end, keys, ids, lo, hi);
      }
    }

    method QueueIteratorStartEnd(lo: nat, hi: nat) returns (ids: seq<nat>)
      requires Valid() && lo <= MAX_HEIGHT && hi <= MAX_HEIGHT
      ensures QueueOk(env, state) ==> IsScan(state, ids, lo, hi)
    {
      hide *;
      StartEndRange(lo, hi);
      ids := QueueIds(GetPrefixQueueKey(lo), PrefixEnd(GetPrefixQueueKey(hi)), lo, hi);
    }

    method QueueIteratorTill(hi: nat) returns (ids: seq<nat>)
      requires Valid() && hi <= MAX_HEIGHT
      ensures QueueOk(env, state) ==> IsScan(state, ids, 0, hi)
    {
      hide *;
      TillRange(hi);
      ids := QueueIds(QUEUE_PREFIX, PrefixEnd(GetPrefixQueueKey(hi)), 0, hi);
    }

    // ---- messages ----

    method HandleMsgSubmitCall(creator: Address, msg: Option<Msg>, uniqueID: UniqueID, height: nat)
      returns (status: Status)
      requires Valid() && height <= MAX_HEIGHT
      modifies this`store, this`state
      ensures Valid()
      ensures Next(env, Chain(old(state), height), SubmitStep(creator, msg, uniqueID), Chain(state, height))
      ensures Inv(env, old(state), height) ==>
                status == if env.isValidator(app, creator)
                          then SubmitStatus(env, old(state), msg, uniqueID, creator) else NotValidator
    {
      hide Inv, Submit, SubmitStatus;
      if !env.isValidator(app, creator) { return NotValidator; }
      status := SubmitCall(msg, uniqueID, creator, height);
    }

    method HandleMsgConfirmCall(sender: Address, id: nat, ghost height: nat) returns (status: Status)
      requires Valid()
      modifies this`store, this`state
      ensures Valid()
      ensures Next(env, Chain(old(state), height), ConfirmStep(sender, id), Chain(state, height))
      ensures status == if env.isValidator(app, sender) then ConfirmStatus(old(state), id, sender) else NotValidator
    {
      hide Represents;
      if !env.isValidator(app, sender) { return NotValidator; }
      status := ConfirmCall(id, sender);
    }

    /** Revoking is open to any sender: only a recorded vote can be revoked. */
    method HandleMsgRevokeConfirm(sender: Address, id: nat, ghost height: nat) returns (status: Status)
      requires Valid()
      modifies this`store, this`state
      ensures Valid()
      ensures Next(env, Chain(old(state), height), RevokeStep(sender, id), Chain(state, height))
      ensures status == RevokeStatus(old(state), id, sender)
    {
      hide Represents;
      status := RevokeConfirmation(id, sender);
    }

    // ---- the end of a block ----

    /** One round of the execution loop; it panics on a missing call or handler. */
    method ExecuteCall(id: nat, height: nat, interval: nat) returns (panicked: bool)
      requires Valid()
      modifies this
      ensures Valid()
      ensures panicked <==>
                id !in old(state).calls
                || (EnoughVotes(env, old(state), id) && old(state).calls[id].msg.route !in env.routes)
      ensures !panicked ==> state == Execute(env, old(state), id, height, interval)
    {
      hide Represents;
      var votes := GetVotes(id);
      if votes.None? { return true; }
      if |votes.value| % 0x1_0000 >= env.threshold(app) {
        var found := GetCall(id);
        var call := found.value.(approved := true);
        if call.msg.route !in env.routes { return true; }
        match env.handler(call.msg, app) {
          case Failed =>
            call := call.(failed := true);
            Announce(ExecutionFailed(id, height, interval, app));
          case Success(app') =>
            call := call.(executed := true);
            Announce(Executed(id, height, interval, app, app'));
            WriteCache(app');
        }
        StoreCall(id, call);
        RemoveCallFromQueue(id, call.height);
      }
      return false;
    }

    method Announce(e: Event)
      requires Valid()
      modifies this`events, this`state
      ensures Valid() && state == old(state).(events := old(state).events + [e])
    {
      OthersMatterNot(store, state, state.(events := state.events + [e]));
      hide Represents;
      events, state := events + [e], state.(events := state.events + [e]);
    }

    method WriteCache(app': App)
      requires Valid()
      modifies this`app, this`state
      ensures Valid() && state == old(state).(app := app')
    {
      OthersMatterNot(store, state, state.(app := app'));
      hide Represents;
      app, state := app', state.(app := app');
    }

    method RejectCall(id: nat, height: nat, interval: nat) returns (panicked: bool)
      requires Valid()
      modifies this
      ensures Valid()
      ensures panicked <==> id !in old(state).calls
      ensures !panicked ==> state == Reject(old(state), id, height, interval)
    {
      hide Represents;
      var found := GetCall(id);
      if found.None? { return true; }
      var call := found.value.(rejected := true);
      StoreCall(id, call);
      RemoveCallFromQueue(id, call.height);
      Announce(Rejected(id, height, interval));
      return false;
    }

    /** The execution loop: from a state that keeps the protocol's invariant it cannot panic. */
    method ExecuteCalls(ids: seq<nat>, height: nat, interval: nat) returns (panicked: bool)
      requires Valid()
      modifies this
      ensures Valid()
      ensures Inv(env, old(state), height) && Walk(old(state), ids, Start(height, interval), height) ==>
                !panicked && state == ExecuteAll(env, old(state), ids, height, interval)
    {
      hide Represents, Inv, HeightsFit, QueuedOk, AllCalls;
      ghost var good := Inv(env, state, height) && Walk(state, ids, Start(height, interval), height);
      ghost var all := if good then ExecuteAll(env, state, ids, height, interval) else state;
      var k := 0;
      assert ids[0..] == ids;
      while k < |ids|
        invariant k <= |ids| && Valid()
        invariant good ==>
                    && Inv(env, state, height)
                    && Walk(state, ids[k..], Start(height, interval), height)
                    && all == ExecuteAll(env, state, ids[k..], height, interval)
      {
        ghost var s, rest := state, ids[k..];
        assert ids[k] == rest[0] && rest[1..] == ids[k + 1..];
        if good { ExecuteRound(env, s, rest, height, interval); }
        panicked := ExecuteCall(ids[k], height, interval);
        if panicked { return; }
        k := k + 1;
      }
      return false;
    }

    /** The rejection loop. */
    method RejectCalls(ids: seq<nat>, height: nat, interval: nat) returns (panicked: bool)
      requires Valid() && height >= interval
      modifies this
      ensures Valid()
      ensures Inv(env, old(state), height) && Walk(old(state), ids, 0, Start(height, interval)) ==>
                !panicked && state == RejectAll(old(state), ids, height, interval)
    {
      hide Represents, Inv, HeightsFit, QueuedOk, AllCalls;
      ghost var good := Inv(env, state, height) && Walk(state, ids, 0, Start(height, interval));
      ghost var all := if good then RejectAll(state, ids, height, interval) else state;
      var k := 0;
      assert ids[0..] == ids;
      while k < |ids|
        invariant k <= |ids| && Valid()
        invariant good ==>
                    && Inv(env, state, height)
                    && Walk(state, ids[k..], 0, Start(height, interval))
                    && all == RejectAll(state, ids[k..], height, interval)
      {
        ghost var s, rest := state, ids[k..];
        assert ids[k] == rest[0] && rest[1..] == ids[k + 1..];
        if good { RejectRound(env, s, rest, height, interval); }
        panicked := RejectCall(ids[k], height, interval);
        if panicked { return; }
        k := k + 1;
      }
      return false;
    }

    /** The end of a block: no lookup panics, and the new state is what the protocol prescribes. */
    method EndBlocker(height: nat, interval: nat) returns (panicked: bool, ghost active: seq<nat>, ghost overdue: seq<nat>)
      requires Valid() && height <= MAX_HEIGHT
      modifies this
      ensures Valid()
      ensures Inv(env, old(state), height) ==> !panicked
      ensures Inv(env, old(state), height) ==>
                Next(env, Chain(old(state), height), EndBlockStep(interval, active, overdue), Chain(state, height + 1))
    {
      hide *;
      var start := if height - interval < 0 then 0 else height - interval;
      assert start == Start(height, interval) by { StartIs(height, interval); }
      overdue := [];
      var recent := QueueIteratorStartEnd(start, height);
      active := recent;
      ghost var s := state;
      ghost var good := Inv(env, s, height);
      if good {
        ScanIsWalk(env, s, active, height, start, height);
        ExecuteAllInv(env, s, active, height, interval);
      }
      panicked := ExecuteCalls(recent, height, interval);
      if panicked { return; }
      ghost var s1 := state;
      if start > interval {
        var late := QueueIteratorTill(start);
        overdue := late;
        if good { ScanIsWalk(env, s1, late, height, 0, start); }
        panicked := RejectCalls(late, height, interval);
      }
      if good { EndBlockedBy(env, s, s1, state, height, interval, active, overdue); }
    }
  }

  lemma {:induction false} StartIs(height: nat, interval: nat)
    ensures Start(height, interval) == if height - interval < 0 then 0 else height - interval
  {
  }

  lemma {:induction false} EndBlockedBy(
      env: Env, s: State, s1: State, s': State, height: nat, interval: nat, active: seq<nat>, overdue: seq<nat>)
    requires AllCalls(s, active) && IsScan(s, active, Start(height, interval), height)
    requires s1 == ExecuteAll(env, s, active, height, interval)
    requires if Start(height, interval) > interval
             then && AllCalls(s1, overdue) && IsScan(s1, overdue, 0, Start(height, interval))
                  && s' == RejectAll(s1, overdue, height, interval)
             else overdue == [] && s' == s1
    ensures Next(env, Chain(s, height), EndBlockStep(interval, active, overdue), Chain(s', height + 1))
  {
  }

  ghost predicate HeightsFit(s: State) {
    forall id :: id in s.calls ==> s.calls[id].height <= MAX_HEIGHT
  }

  lemma {:induction false} ScanIsWalk(env: Env, s: State, ids: seq<nat>, height: nat, lo: nat, hi: nat)
    requires Inv(env, s, height) && (QueueOk(env, s) ==> IsScan(s, ids, lo, hi))
    ensures Walk(s, ids, lo, hi) && IsScan(s, ids, lo, hi) && AllCalls(s, ids)
  {
  }

  /** One round of the execution loop finds its call and handler, and leaves a state for the rest of the walk. */
  lemma {:induction false} ExecuteRound(env: Env, s: State, ids: seq<nat>, height: nat, interval: nat)
    requires ids != [] && Inv(env, s, height) && Walk(s, ids, Start(height, interval), height)
    ensures ids[0] in s.calls && s.calls[ids[0]].msg.route in env.routes
    ensures var s1 := Execute(env, s, ids[0], height, interval);
            && Inv(env, s1, height) && Walk(s1, ids[1..], Start(height, interval), height)
            && ExecuteAll(env, s, ids, height, interval) == ExecuteAll(env, s1, ids[1..], height, interval)
  {
    hide Inv;
    QueuedFacts(env, s, height, (s.calls[ids[0]].height, ids[0]));
    ExecuteInv(env, s, height, interval, ids[0]);
    WalkOn(s, Execute(env, s, ids[0], height, interval), ids, Start(height, interval), height);
  }

  lemma {:induction false} RejectRound(env: Env, s: State, ids: seq<nat>, height: nat, interval: nat)
    requires ids != [] && Inv(env, s, height) && Walk(s, ids, 0, Start(height, interval)) && height >= interval
    ensures ids[0] in s.calls
    ensures var s1 := Reject(s, ids[0], height, interval);
            && Inv(env, s1, height) && Walk(s1, ids[1..], 0, Start(height, interval))
            && RejectAll(s, ids, height, interval) == RejectAll(s1, ids[1..], height, interval)
  {
    hide Inv;
    RejectInv(env, s, height, interval, ids[0]);
    WalkOn(s, Reject(s, ids[0], height, interval), ids, 0, Start(height, interval));
  }

  method IndexOf(votes: seq<Address>, voter: Address) returns (i: nat)
    ensures i <= |votes| && (i < |votes| ==> votes[i] == voter)
    ensures voter !in votes[..i]
  {
    i := 0;
    while i < |votes| && votes[i] != voter
      invariant i <= |votes| && voter !in votes[..i]
    {
      i := i + 1;
    }
  }

  lemma {:induction false} WithoutSplices(votes: seq<Address>, voter: Address, i: nat)
    requires i < |votes| && votes[i] == voter && voter !in votes[..i]
    ensures Without(votes, voter) == votes[..i] + votes[i + 1..]
  {
    if i > 0 {
      assert votes[0] == votes[..i][0];
      assert votes[1..][..i - 1] == votes[..i][1..];
      WithoutSplices(votes[1..], voter, i - 1);
    }
  }

  lemma {:induction false} OthersMatterNot(store: Store, s: State, s': State)
    requires Represents(store, s) && s' == s.(events := s'.events, app := s'.app)
    ensures Represents(store, s')
  {
    forall e: Entry | Has(s', e) ensures KeyOf(e) in store && store[KeyOf(e)] == ValueOf(s', e) {
      assert Has(s, e);
    }
    forall k | k in store ensures exists e: Entry :: Has(s', e) && KeyOf(e) == k {
      var e: Entry :| Has(s, e) && KeyOf(e) == k;
      assert Has(s', e);
    }
  }
}
