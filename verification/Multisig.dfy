/**
  The multisig call protocol as a state machine: validators submit calls, confirm them and
  revoke confirmations; at the end of every block the queue is walked, confirmed calls are
  executed and overdue calls rejected.
 */
module Multisig {
  import opened Wrappers
  import opened Bytes

  type Address = string

  type UniqueID = Key

  /** The stored state of all other modules. */
  type App = map<string, string>

  datatype Msg = Msg(route: string, kind: string, payload: nat)

  datatype Call = Call(
    uniqueID: UniqueID, creator: Address, msg: Msg, height: nat,
    approved: bool, executed: bool, failed: bool, rejected: bool)
  {
    /** A call that still accepts votes. */
    predicate Open() {
      !approved && !rejected
    }
  }

  datatype Status =
    | Done
    | NotValidator | WrongCallId | WrongMsg | WrongRoute | WrongType | WrongUniqueId | WrongAddress
    | HandlerFailed | AlreadyApproved | AlreadyRejected | AlreadyConfirmed | NotConfirmed

  /** A message handler works on the state of the other modules; a failed one has no effect. */
  datatype HandlerResult = Failed | Success(app: App)

  /** The rest of the application, of which the protocol only sees these functions. */
  datatype Env = Env(
    routes: set<string>,
    handler: (Msg, App) -> HandlerResult,
    threshold: App -> nat,
    isValidator: (App, Address) -> bool)

  /** How a call was closed, as announced by the end of a block. */
  datatype Event =
    | Executed(id: nat, height: nat, interval: nat, before: App, after: App)
    | ExecutionFailed(id: nat, height: nat, interval: nat, before: App)
    | Rejected(id: nat, height: nat, interval: nat)

  datatype State = State(
    calls: map<nat, Call>,
    votes: map<nat, seq<Address>>,
    ids: map<UniqueID, nat>,
    lastID: int,                // -1 before the first call
    queue: set<(nat, nat)>,     // (height, id)
    events: seq<Event>,
    app: App)

  function Init(app: App): State {
    State(map[], map[], map[], -1, {}, [], app)
  }

  // ---- transitions ----

  function VotesOf(s: State, id: nat): seq<Address> {
    if id in s.votes then s.votes[id] else []
  }

  /** Whether a call accepts votes. */
  function CanBeVoted(c: Call): Status {
    if c.approved then AlreadyApproved else if c.rejected then AlreadyRejected else Done
  }

  function ConfirmStatus(s: State, id: nat, voter: Address): Status {
    if id !in s.calls then WrongCallId
    else if CanBeVoted(s.calls[id]) != Done then CanBeVoted(s.calls[id])
    else if voter in VotesOf(s, id) then AlreadyConfirmed
    else Done
  }

  function Confirm(s: State, id: nat, voter: Address): State {
    if ConfirmStatus(s, id, voter) != Done then s
    else s.(votes := s.votes[id := VotesOf(s, id) + [voter]])
  }

  function RevokeStatus(s: State, id: nat, voter: Address): Status {
    if id !in s.calls then WrongCallId
    else if CanBeVoted(s.calls[id]) != Done then CanBeVoted(s.calls[id])
    else if voter !in VotesOf(s, id) then NotConfirmed
    else Done
  }

  /** The votes without the first one of `voter`. */
  function Without(votes: seq<Address>, voter: Address): seq<Address> {
    if votes == [] then [] else if votes[0] == voter then votes[1..] else [votes[0]] + Without(votes[1..], voter)
  }

  /** Revoking the last vote takes the call out of the queue. */
  function Revoke(s: State, id: nat, voter: Address): State {
    if RevokeStatus(s, id, voter) != Done then s
    else if |s.votes[id]| == 1 then
      s.(votes := s.votes - {id}, queue := s.queue - {(s.calls[id].height, id)})
    else s.(votes := s.votes[id := Without(s.votes[id], voter)])
  }

  function SubmitStatus(env: Env, s: State, msg: Option<Msg>, uniqueID: UniqueID, sender: Address): Status {
    if uniqueID in s.ids then ConfirmStatus(s, s.ids[uniqueID], sender)
    else if msg.None? then WrongMsg
    else if msg.value.route == "" then WrongRoute
    else if msg.value.kind == "" then WrongType
    else if uniqueID == [] then WrongUniqueId
    else if sender == "" then WrongAddress
    else if msg.value.route !in env.routes then WrongRoute
    else if env.handler(msg.value, s.app).Failed? then HandlerFailed
    else Done
  }

  function Create(s: State, msg: Msg, uniqueID: UniqueID, sender: Address, height: nat): State
    requires s.lastID >= -1
  {
    var id := s.lastID + 1;
    s.(lastID := id,
       ids := s.ids[uniqueID := id],
       calls := s.calls[id := Call(uniqueID, sender, msg, height, false, false, false, false)],
       queue := s.queue + {(height, id)})
  }

  /** A known unique id is a confirmation; a new one is dry-run, stored, queued and confirmed by its creator. */
  function Submit(env: Env, s: State, msg: Option<Msg>, uniqueID: UniqueID, sender: Address, height: nat): State
    requires s.lastID >= -1
  {
    if SubmitStatus(env, s, msg, uniqueID, sender) != Done then s
    else if uniqueID in s.ids then Confirm(s, s.ids[uniqueID], sender)
    else Confirm(Create(s, msg.value, uniqueID, sender, height), s.lastID + 1, sender)
  }

  /** The vote count is compared as a 16-bit number. */
  predicate EnoughVotes(env: Env, s: State, id: nat) {
    |VotesOf(s, id)| % 0x1_0000 >= env.threshold(s.app)
  }

  /** One queued call of the execution loop: its handler runs on a cache that is written back on success only. */
  function Execute(env: Env, s: State, id: nat, height: nat, interval: nat): State
    requires id in s.calls
  {
    if !EnoughVotes(env, s, id) then s
    else
      var c := s.calls[id];
      var s' := s.(queue := s.queue - {(c.height, id)});
      match env.handler(c.msg, s.app)
      case Failed =>
        s'.(calls := s.calls[id := c.(approved := true, failed := true)],
            events := s.events + [ExecutionFailed(id, height, interval, s.app)])
      case Success(app) =>
        s'.(calls := s.calls[id := c.(approved := true, executed := true)],
            events := s.events + [Executed(id, height, interval, s.app, app)],
            app := app)
  }

  /** One queued call of the rejection loop. */
  function Reject(s: State, id: nat, height: nat, interval: nat): State
    requires id in s.calls
  {
    var c := s.calls[id];
    s.(calls := s.calls[id := c.(rejected := true)],
       queue := s.queue - {(c.height, id)},
       events := s.events + [Rejected(id, height, interval)])
  }

  ghost predicate AllCalls(s: State, ids: seq<nat>) {
    forall i :: 0 <= i < |ids| ==> ids[i] in s.calls
  }

  ghost function ExecuteAll(env: Env, s: State, ids: seq<nat>, height: nat, interval: nat): State
    requires AllCalls(s, ids)
    decreases |ids|
  {
    if ids == [] then s
    else ExecuteAll(env, Execute(env, s, ids[0], height, interval), ids[1..], height, interval)
  }

  ghost function RejectAll(s: State, ids: seq<nat>, height: nat, interval: nat): State
    requires AllCalls(s, ids)
    decreases |ids|
  {
    if ids == [] then s
    else RejectAll(Reject(s, ids[0], height, interval), ids[1..], height, interval)
  }

  /** A scan lists the queued calls of a range of heights, each once, in height order. */
  ghost predicate IsScan(s: State, ids: seq<nat>, lo: nat, hi: nat) {
    && AllCalls(s, ids)
    && (forall i :: 0 <= i < |ids| ==> (s.calls[ids[i]].height, ids[i]) in s.queue && lo <= s.calls[ids[i]].height <= hi)
    && (forall e :: e in s.queue && lo <= e.0 <= hi ==> e.1 in ids)
    && (forall i, j :: 0 <= i < j < |ids| ==> ids[i] != ids[j])
    && (forall i, j :: 0 <= i < j < |ids| ==> s.calls[ids[i]].height <= s.calls[ids[j]].height)
  }

  function Start(height: nat, interval: nat): nat {
    if height >= interval then height - interval else 0
  }

  /** The end of a block: execute what is confirmed and recent enough, then reject what is overdue. */
  ghost predicate EndBlocked(
      env: Env, s: State, s': State, height: nat, interval: nat, active: seq<nat>, overdue: seq<nat>)
  {
    var start := Start(height, interval);
    && IsScan(s, active, start, height)
    && var executed := ExecuteAll(env, s, active, height, interval);
       if start > interval then IsScan(executed, overdue, 0, start) && s' == RejectAll(executed, overdue, height, interval)
       else overdue == [] && s' == executed
  }

  // ---- the invariant ----

  /** Ids are dense, and in bijection with unique ids. */
  ghost predicate IdsOk(s: State) {
    && s.lastID >= -1
    && (forall id: nat :: id in s.calls <==> id <= s.lastID)
    && (forall u :: u in s.ids ==> s.ids[u] in s.calls && s.calls[s.ids[u]].uniqueID == u)
    && (forall id :: id in s.calls ==> s.calls[id].uniqueID in s.ids && s.ids[s.calls[id].uniqueID] == id)
  }

  /** Approved means exactly one of executed and failed; rejected excludes all three. */
  predicate FlagsOk(c: Call) {
    && (c.approved <==> c.executed || c.failed)
    && !(c.executed && c.failed)
    && (c.rejected ==> !c.approved)
  }

  ghost predicate Distinct(votes: seq<Address>) {
    forall i, j :: 0 <= i < j < |votes| ==> votes[i] != votes[j]
  }

  ghost predicate VotesOk(s: State) {
    forall id :: id in s.votes ==> id in s.calls && |s.votes[id]| > 0 && Distinct(s.votes[id])
  }

  /** Queued calls are open, routed, voted for, and queued under their own height. */
  ghost predicate QueuedOk(env: Env, s: State, e: (nat, nat)) {
    && e.1 in s.calls && s.calls[e.1].height == e.0
    && s.calls[e.1].Open() && s.calls[e.1].msg.route in env.routes
    && e.1 in s.votes
  }

  /** An event is about a call it closed, in time, with enough distinct votes, and with the effect of its handler. */
  ghost predicate EventOk(env: Env, s: State, e: Event) {
    && e.id in s.calls
    && var c := s.calls[e.id];
       && c.height <= e.height
       && match e
          case Executed(_, h, interval, before, after) =>
            && c.executed && h <= c.height + interval
            && |VotesOf(s, e.id)| >= env.threshold(before)
            && env.handler(c.msg, before) == Success(after)
          case ExecutionFailed(_, h, interval, before) =>
            && c.failed && h <= c.height + interval
            && |VotesOf(s, e.id)| >= env.threshold(before)
            && env.handler(c.msg, before).Failed?
          case Rejected(_, h, interval) =>
            c.rejected && h >= c.height + interval
  }

  ghost predicate EventsOk(env: Env, s: State) {
    && (forall i :: 0 <= i < |s.events| ==> EventOk(env, s, s.events[i]))
    && (forall i, j :: 0 <= i < j < |s.events| ==> s.events[i].id != s.events[j].id)
    && (forall id :: id in s.calls && !s.calls[id].Open() ==> exists i :: 0 <= i < |s.events| && s.events[i].id == id)
  }

  ghost predicate CallsOk(s: State, height: nat) {
    forall id :: id in s.calls ==> FlagsOk(s.calls[id]) && s.calls[id].height <= height
  }

  ghost predicate QueueOk(env: Env, s: State) {
    forall e :: e in s.queue ==> QueuedOk(env, s, e)
  }

  ghost predicate Inv(env: Env, s: State, height: nat) {
    IdsOk(s) && VotesOk(s) && CallsOk(s, height) && QueueOk(env, s) && EventsOk(env, s)
  }

  lemma {:induction false} InitInv(env: Env, app: App, height: nat)
    ensures Inv(env, Init(app), height)
  {
  }

  // ---- each transition keeps the invariant ----

  /** Steps that close no call and keep the votes of closed calls keep the events right. */
  lemma {:induction false} EventsKept(env: Env, s: State, s': State, height: nat)
    requires EventsOk(env, s) && s'.events == s.events
    requires forall id :: id in s.calls ==> id in s'.calls && s'.calls[id] == s.calls[id]
    requires forall id :: id in s'.calls && id !in s.calls ==> s'.calls[id].Open()
    requires forall id :: id in s.calls && !s.calls[id].Open() ==> VotesOf(s', id) == VotesOf(s, id)
    requires CallsOk(s, height)
    ensures EventsOk(env, s')
  {
    forall i | 0 <= i < |s'.events| ensures EventOk(env, s', s'.events[i]) {
      assert EventOk(env, s, s.events[i]);
    }
  }

  /** A step that only changes votes and queue, and not the votes of closed calls. */
  lemma {:induction false} VotesStepInv(env: Env, s: State, s': State, height: nat)
    requires Inv(env, s, height) && s' == s.(votes := s'.votes, queue := s'.queue)
    requires VotesOk(s') && QueueOk(env, s')
    requires forall id :: id in s.calls && !s.calls[id].Open() ==> VotesOf(s', id) == VotesOf(s, id)
    ensures Inv(env, s', height)
  {
    hide EventsOk, QueueOk, VotesOk;
    EventsKept(env, s, s', height);
  }

  lemma {:induction false} InvParts(env: Env, s: State, height: nat)
    requires Inv(env, s, height)
    ensures VotesOk(s) && QueueOk(env, s)
  {
  }

  lemma {:induction false} ConfirmInv(env: Env, s: State, height: nat, id: nat, voter: Address)
    requires Inv(env, s, height)
    ensures Inv(env, Confirm(s, id, voter), height)
  {
    hide Inv, VotesOk, QueueOk;
    InvParts(env, s, height);
    if ConfirmStatus(s, id, voter) == Done {
      ConfirmQueue(env, s, id, voter);
      ConfirmVotes(s, id, voter);
      VotesStepInv(env, s, Confirm(s, id, voter), height);
    }
  }

  lemma {:induction false} ConfirmVotes(s: State, id: nat, voter: Address)
    requires VotesOk(s)
    ensures VotesOk(Confirm(s, id, voter))
  {
  }

  lemma {:induction false} ConfirmQueue(env: Env, s: State, id: nat, voter: Address)
    requires QueueOk(env, s)
    ensures QueueOk(env, Confirm(s, id, voter))
  {
    var s' := Confirm(s, id, voter);
    forall e | e in s'.queue ensures QueuedOk(env, s', e) {
      assert QueuedOk(env, s, e);
    }
  }

  lemma {:induction false} WithoutOne(votes: seq<Address>, voter: Address)
    requires voter in votes && Distinct(votes)
    ensures |Without(votes, voter)| == |votes| - 1
    ensures Distinct(Without(votes, voter))
    ensures forall a :: a in Without(votes, voter) <==> a in votes && a != voter
  {
    if votes[0] == voter {
      assert votes == [voter] + votes[1..];
    } else {
      var rest := votes[1..];
      assert votes == [votes[0]] + rest;
      WithoutOne(rest, voter);
      var r := Without(votes, voter);
      assert r[1..] == Without(rest, voter);
      forall j | 0 < j < |r| ensures r[j] != r[0] {
        assert r[j] in Without(rest, voter);
      }
    }
  }

  lemma {:induction false} RevokeInv(env: Env, s: State, height: nat, id: nat, voter: Address)
    requires Inv(env, s, height)
    ensures Inv(env, Revoke(s, id, voter), height)
  {
    hide Inv, VotesOk, QueueOk, Without;
    InvParts(env, s, height);
    if RevokeStatus(s, id, voter) == Done {
      RevokeVotes(s, id, voter);
      RevokeQueue(env, s, id, voter);
      VotesStepInv(env, s, Revoke(s, id, voter), height);
    }
  }

  lemma {:induction false} RevokeVotes(s: State, id: nat, voter: Address)
    requires VotesOk(s) && RevokeStatus(s, id, voter) == Done
    ensures VotesOk(Revoke(s, id, voter))
  {
    WithoutOne(s.votes[id], voter);
    hide Without;
  }

  lemma {:induction false} RevokeQueue(env: Env, s: State, id: nat, voter: Address)
    requires QueueOk(env, s) && RevokeStatus(s, id, voter) == Done
    ensures QueueOk(env, Revoke(s, id, voter))
  {
    hide Without;
    var s' := Revoke(s, id, voter);
    forall e | e in s'.queue ensures QueuedOk(env, s', e) {
      assert QueuedOk(env, s, e);
    }
  }

  /** A fresh call, stored and confirmed by its creator, next to what was there. */
  ghost predicate Created(s: State, s': State, id: nat, c: Call, voter: Address) {
    && id == s.lastID + 1 && id !in s.calls && id !in s.votes && c.Open()
    && s' == s.(lastID := id, ids := s.ids[c.uniqueID := id], calls := s.calls[id := c],
                queue := s.queue + {(c.height, id)}, votes := s.votes[id := [voter]])
  }

  lemma {:induction false} CreatedShape(s: State, msg: Msg, uniqueID: UniqueID, sender: Address, height: nat)
    requires IdsOk(s) && VotesOk(s)
    ensures var created := Create(s, msg, uniqueID, sender, height);
            && ConfirmStatus(created, s.lastID + 1, sender) == Done
            && Created(s, Confirm(created, s.lastID + 1, sender), s.lastID + 1,
                       Call(uniqueID, sender, msg, height, false, false, false, false), sender)
  {
    var id: nat := s.lastID + 1;
    assert id !in s.calls && id !in s.votes;
    assert [] + [sender] == [sender];
  }

  /** Creating and confirming a fresh call. */
  lemma {:induction false} CreateInv(env: Env, s: State, height: nat, msg: Msg, uniqueID: UniqueID, sender: Address)
    requires Inv(env, s, height)
    requires uniqueID !in s.ids && msg.route in env.routes
    ensures var created := Create(s, msg, uniqueID, sender, height);
            && ConfirmStatus(created, s.lastID + 1, sender) == Done
            && Inv(env, Confirm(created, s.lastID + 1, sender), height)
  {
    hide EventsOk, QueueOk, IdsOk, VotesOk, Create, Confirm, ConfirmStatus;
    CreatedShape(s, msg, uniqueID, sender, height);
    var id: nat := s.lastID + 1;
    var s' := Confirm(Create(s, msg, uniqueID, sender, height), id, sender);
    CreateIds(s, s', id, s'.calls[id], sender);
    FirstVote(s, s', id, sender);
    CreateQueue(env, s, s', height, id);
    EventsKept(env, s, s', height);
  }

  lemma {:induction false} CreateIds(s: State, s': State, id: nat, c: Call, voter: Address)
    requires IdsOk(s) && Created(s, s', id, c, voter) && c.uniqueID !in s.ids
    ensures IdsOk(s')
  {
  }

  lemma {:induction false} FirstVote(s: State, s': State, id: nat, voter: Address)
    requires VotesOk(s) && s'.votes == s.votes[id := [voter]] && id in s'.calls
    requires forall k :: k in s.calls ==> k in s'.calls
    ensures VotesOk(s')
  {
  }

  lemma {:induction false} CreateQueue(env: Env, s: State, s': State, height: nat, id: nat)
    requires QueueOk(env, s) && id !in s.calls
    requires s'.queue == s.queue + {(height, id)}
    requires forall k :: k in s.calls ==> k in s'.calls && s'.calls[k] == s.calls[k]
    requires forall k :: k in s.votes ==> k in s'.votes
    requires QueuedOk(env, s', (height, id))
    ensures QueueOk(env, s')
  {
    forall e | e in s'.queue ensures QueuedOk(env, s', e) {
      if e in s.queue { assert QueuedOk(env, s, e); }
    }
  }

  lemma {:induction false} SubmitInv(
      env: Env, s: State, height: nat, msg: Option<Msg>, uniqueID: UniqueID, sender: Address)
    requires Inv(env, s, height)
    ensures Inv(env, Submit(env, s, msg, uniqueID, sender, height), height)
  {
    if SubmitStatus(env, s, msg, uniqueID, sender) == Done {
      if uniqueID in s.ids {
        ConfirmInv(env, s, height, s.ids[uniqueID], sender);
      } else {
        CreateInv(env, s, height, msg.value, uniqueID, sender);
      }
    }
  }

  /** A queued call can be closed: it is open, and no event is about it yet. */
  lemma {:induction false} QueuedHasNoEvent(env: Env, s: State, height: nat, id: nat)
    requires Inv(env, s, height) && id in s.calls && (s.calls[id].height, id) in s.queue
    ensures QueuedOk(env, s, (s.calls[id].height, id))
    ensures forall i :: 0 <= i < |s.events| ==> s.events[i].id != id
  {
    forall i | 0 <= i < |s.events| ensures s.events[i].id != id {
      assert EventOk(env, s, s.events[i]);
      assert FlagsOk(s.calls[s.events[i].id]);
    }
  }

  /** Closing one queued call: its flags, its queue entry and one event change, nothing else. */
  lemma {:induction false} CloseInv(env: Env, s: State, s': State, height: nat, id: nat, c': Call, e: Event)
    requires Inv(env, s, height) && id in s.calls && (s.calls[id].height, id) in s.queue
    requires var c := s.calls[id]; c' == c.(approved := c'.approved, executed := c'.executed, failed := c'.failed, rejected := c'.rejected)
    requires FlagsOk(c') && !c'.Open() && e.id == id
    requires s' == s.(calls := s.calls[id := c'], queue := s.queue - {(c'.height, id)}, events := s.events + [e], app := s'.app)
    requires EventOk(env, s', e)
    ensures Inv(env, s', height)
  {
    QueuedHasNoEvent(env, s, height, id);
    CloseQueue(env, s, s', id, c');
    CloseEvents(env, s, s', id, c', e);
    CloseRest(s, s', height, id, c');
    hide EventsOk, EventOk, QueueOk, QueuedOk, IdsOk, VotesOk, CallsOk;
  }

  lemma {:induction false} CloseRest(s: State, s': State, height: nat, id: nat, c': Call)
    requires IdsOk(s) && VotesOk(s) && CallsOk(s, height)
    requires id in s.calls && c'.uniqueID == s.calls[id].uniqueID && c'.height == s.calls[id].height && FlagsOk(c')
    requires s'.lastID == s.lastID && s'.ids == s.ids && s'.calls == s.calls[id := c'] && s'.votes == s.votes
    ensures IdsOk(s') && VotesOk(s') && CallsOk(s', height)
  {
  }

  lemma {:induction false} CloseQueue(env: Env, s: State, s': State, id: nat, c': Call)
    requires QueueOk(env, s) && id in s.calls && c'.height == s.calls[id].height
    requires s'.calls == s.calls[id := c'] && s'.votes == s.votes && s'.queue == s.queue - {(c'.height, id)}
    ensures QueueOk(env, s')
  {
    forall q | q in s'.queue ensures QueuedOk(env, s', q) {
      assert QueuedOk(env, s, q);
      assert q.1 != id;
    }
  }

  lemma {:induction false} CloseEvents(env: Env, s: State, s': State, id: nat, c': Call, e: Event)
    requires EventsOk(env, s) && id in s.calls && e.id == id
    requires forall i :: 0 <= i < |s.events| ==> s.events[i].id != id
    requires s'.calls == s.calls[id := c'] && s'.events == s.events + [e] && s'.votes == s.votes
    requires EventOk(env, s', e)
    ensures EventsOk(env, s')
  {
    forall i | 0 <= i < |s'.events| ensures EventOk(env, s', s'.events[i]) {
      if i < |s.events| { assert EventOk(env, s, s.events[i]); }
    }
    forall k | k in s'.calls && !s'.calls[k].Open() ensures exists i :: 0 <= i < |s'.events| && s'.events[i].id == k {
      if k == id {
        assert s'.events[|s.events|].id == id;
      } else {
        var i :| 0 <= i < |s.events| && s.events[i].id == k;
        assert s'.events[i].id == k;
      }
    }
  }

  lemma {:induction false} ExecuteInv(env: Env, s: State, height: nat, interval: nat, id: nat)
    requires Inv(env, s, height) && id in s.calls && (s.calls[id].height, id) in s.queue
    requires height <= s.calls[id].height + interval
    ensures Inv(env, Execute(env, s, id, height, interval), height)
  {
    QueuedHasNoEvent(env, s, height, id);
    if EnoughVotes(env, s, id) {
      var s' := Execute(env, s, id, height, interval);
      var e := s'.events[|s.events|];
      CloseInv(env, s, s', height, id, s'.calls[id], e);
    }
  }

  lemma {:induction false} RejectInv(env: Env, s: State, height: nat, interval: nat, id: nat)
    requires Inv(env, s, height) && id in s.calls && (s.calls[id].height, id) in s.queue
    requires height >= s.calls[id].height + interval
    ensures Inv(env, Reject(s, id, height, interval), height)
  {
    QueuedHasNoEvent(env, s, height, id);
    var s' := Reject(s, id, height, interval);
    CloseInv(env, s, s', height, id, s'.calls[id], s'.events[|s.events|]);
  }

  /** Closing some calls leaves all the others, and their queue entries, as they were. */
  ghost predicate OnlyCloses(s: State, s': State, ids: seq<nat>) {
    && s'.calls.Keys == s.calls.Keys && s'.votes == s.votes && s'.ids == s.ids && s'.lastID == s.lastID
    && s'.queue <= s.queue
    && (forall id :: id in s.calls ==> s'.calls[id].height == s.calls[id].height)
    && (forall id :: id in s.calls && id !in ids ==> s'.calls[id] == s.calls[id])
    && (forall e :: e in s.queue && e.1 !in ids ==> e in s'.queue)
    && s.events <= s'.events
  }

  /** The calls still to be walked are queued, in range, and each listed once. */
  ghost predicate Walk(s: State, ids: seq<nat>, lo: nat, hi: nat) {
    && AllCalls(s, ids)
    && (forall i :: 0 <= i < |ids| ==> (s.calls[ids[i]].height, ids[i]) in s.queue && lo <= s.calls[ids[i]].height <= hi)
    && (forall i, j :: 0 <= i < j < |ids| ==> ids[i] != ids[j])
  }

  lemma {:induction false} WalkOn(s: State, s': State, ids: seq<nat>, lo: nat, hi: nat)
    requires ids != [] && Walk(s, ids, lo, hi) && OnlyCloses(s, s', [ids[0]])
    ensures Walk(s', ids[1..], lo, hi)
  {
    var rest := ids[1..];
    forall i | 0 <= i < |rest|
      ensures rest[i] in s'.calls && (s'.calls[rest[i]].height, rest[i]) in s'.queue && lo <= s'.calls[rest[i]].height <= hi
    {
      assert rest[i] == ids[i + 1] && ids[0] != ids[i + 1];
    }
    forall i, j | 0 <= i < j < |rest| ensures rest[i] != rest[j] {
      assert ids[i + 1] != ids[j + 1];
    }
  }

  lemma {:induction false} CloseThenRest(s: State, s1: State, s2: State, ids: seq<nat>)
    requires ids != [] && OnlyCloses(s, s1, [ids[0]]) && OnlyCloses(s1, s2, ids[1..])
    ensures OnlyCloses(s, s2, ids)
  {
    assert ids == [ids[0]] + ids[1..];
    assert forall id :: id in ids <==> id == ids[0] || id in ids[1..];
  }

  lemma {:induction false} ExecuteAllInv(env: Env, s: State, ids: seq<nat>, height: nat, interval: nat)
    requires Inv(env, s, height) && Walk(s, ids, Start(height, interval), height)
    ensures Inv(env, ExecuteAll(env, s, ids, height, interval), height)
    ensures OnlyCloses(s, ExecuteAll(env, s, ids, height, interval), ids)
    decreases |ids|
  {
    hide Inv;
    if ids != [] {
      var s1 := Execute(env, s, ids[0], height, interval);
      ExecuteInv(env, s, height, interval, ids[0]);
      WalkOn(s, s1, ids, Start(height, interval), height);
      ExecuteAllInv(env, s1, ids[1..], height, interval);
      CloseThenRest(s, s1, ExecuteAll(env, s, ids, height, interval), ids);
    }
  }

  lemma {:induction false} RejectAllInv(env: Env, s: State, ids: seq<nat>, height: nat, interval: nat)
    requires Inv(env, s, height) && Walk(s, ids, 0, Start(height, interval)) && height >= interval
    ensures Inv(env, RejectAll(s, ids, height, interval), height)
    ensures OnlyCloses(s, RejectAll(s, ids, height, interval), ids)
    ensures forall i :: 0 <= i < |ids| ==> (s.calls[ids[i]].height, ids[i]) !in RejectAll(s, ids, height, interval).queue
    decreases |ids|
  {
    hide Inv;
    if ids != [] {
      var s1 := Reject(s, ids[0], height, interval);
      var s2 := RejectAll(s, ids, height, interval);
      RejectInv(env, s, height, interval, ids[0]);
      WalkOn(s, s1, ids, 0, Start(height, interval));
      RejectAllInv(env, s1, ids[1..], height, interval);
      CloseThenRest(s, s1, s2, ids);
      forall i | 0 <= i < |ids| ensures (s.calls[ids[i]].height, ids[i]) !in s2.queue {
        if i > 0 { assert ids[i] == ids[1..][i - 1]; }
      }
    }
  }

  lemma {:induction false} OnlyClosesBoth(s: State, s1: State, s2: State, x: seq<nat>, y: seq<nat>)
    requires OnlyCloses(s, s1, x) && OnlyCloses(s1, s2, y)
    ensures OnlyCloses(s, s2, x + y)
  {
    assert forall id :: id in x + y <==> id in x || id in y;
  }

  lemma {:induction false} EndBlockInv(
      env: Env, s: State, s': State, height: nat, interval: nat, active: seq<nat>, overdue: seq<nat>)
    requires Inv(env, s, height) && EndBlocked(env, s, s', height, interval, active, overdue)
    ensures Inv(env, s', height)
    ensures OnlyCloses(s, s', active + overdue)
  {
    var s1 := ExecuteAll(env, s, active, height, interval);
    assert Walk(s, active, Start(height, interval), height);
    if Start(height, interval) > interval {
      assert Walk(s1, overdue, 0, Start(height, interval));
    }
    hide Inv, Walk, OnlyCloses, IsScan, ExecuteAll, RejectAll;
    ExecuteAllInv(env, s, active, height, interval);
    if Start(height, interval) > interval {
      RejectAllInv(env, s1, overdue, height, interval);
      OnlyClosesBoth(s, s1, s', active, overdue);
    } else {
      assert active + overdue == active;
    }
  }

  lemma {:induction false} QueuedFacts(env: Env, s: State, height: nat, e: (nat, nat))
    requires Inv(env, s, height) && e in s.queue
    ensures QueuedOk(env, s, e)
  {
  }

  /** Deadlines: a call still queued after the end of a block is not overdue. */
  lemma {:induction false} QueueAfterEndBlock(
      env: Env, s: State, s': State, height: nat, interval: nat, active: seq<nat>, overdue: seq<nat>, e: (nat, nat))
    requires Inv(env, s, height) && EndBlocked(env, s, s', height, interval, active, overdue)
    requires e in s'.queue
    ensures height < e.0 + interval || height < 2 * interval + 1
  {
    hide Inv;
    var s1 := ExecuteAll(env, s, active, height, interval);
    ExecuteAllInv(env, s, active, height, interval);
    if Start(height, interval) > interval {
      RejectAllInv(env, s1, overdue, height, interval);
      QueuedFacts(env, s1, height, e);
      hide ExecuteAll, RejectAll;
    }
  }

  // ---- effects ----

  /** The state of the other modules after the effects announced by some events. */
  ghost function Replay(app: App, events: seq<Event>): App
    decreases |events|
  {
    if events == [] then app
    else Replay(if events[0].Executed? then events[0].after else app, events[1..])
  }

  /** Each handler ran on the state that the effects before it had left. */
  ghost predicate Chained(app: App, events: seq<Event>)
    decreases |events|
  {
    events != [] ==>
    && (!events[0].Rejected? ==> events[0].before == app)
    && Chained(if events[0].Executed? then events[0].after else app, events[1..])
  }

  /** The announced effects are exactly what happened to the other modules. */
  ghost predicate EffectsAre(s: State, s': State) {
    && s.events <= s'.events
    && Chained(s.app, s'.events[|s.events|..])
    && s'.app == Replay(s.app, s'.events[|s.events|..])
  }

  lemma {:induction false} ReplayConcat(app: App, x: seq<Event>, y: seq<Event>)
    ensures Replay(app, x + y) == Replay(Replay(app, x), y)
    ensures Chained(app, x + y) <==> Chained(app, x) && Chained(Replay(app, x), y)
    decreases |x|
  {
    if x == [] {
      assert x + y == y;
    } else {
      assert (x + y)[1..] == x[1..] + y;
      ReplayConcat(if x[0].Executed? then x[0].after else app, x[1..], y);
    }
  }

  lemma {:induction false} EffectsCompose(s: State, s1: State, s2: State)
    requires EffectsAre(s, s1) && EffectsAre(s1, s2)
    ensures EffectsAre(s, s2)
  {
    var x, y := s1.events[|s.events|..], s2.events[|s1.events|..];
    assert s2.events[|s.events|..] == x + y;
    ReplayConcat(s.app, x, y);
  }

  lemma {:induction false} OneEvent(s: State, s': State, e: Event)
    requires s'.events == s.events + [e]
    requires !e.Rejected? ==> e.before == s.app
    requires s'.app == if e.Executed? then e.after else s.app
    ensures EffectsAre(s, s')
  {
    assert s'.events[|s.events|..] == [e];
    assert [e][1..] == [];
  }

  lemma {:induction false} ExecuteAllEffects(env: Env, s: State, ids: seq<nat>, height: nat, interval: nat)
    requires AllCalls(s, ids)
    ensures EffectsAre(s, ExecuteAll(env, s, ids, height, interval))
    decreases |ids|
  {
    if ids == [] {
      assert s.events[|s.events|..] == [];
    } else {
      var s1 := Execute(env, s, ids[0], height, interval);
      if EnoughVotes(env, s, ids[0]) {
        OneEvent(s, s1, s1.events[|s.events|]);
      } else {
        assert s.events[|s.events|..] == [];
      }
      ExecuteAllEffects(env, s1, ids[1..], height, interval);
      EffectsCompose(s, s1, ExecuteAll(env, s, ids, height, interval));
    }
  }

  lemma {:induction false} RejectAllEffects(s: State, ids: seq<nat>, height: nat, interval: nat)
    requires AllCalls(s, ids)
    ensures EffectsAre(s, RejectAll(s, ids, height, interval))
    decreases |ids|
  {
    if ids == [] {
      assert s.events[|s.events|..] == [];
    } else {
      var s1 := Reject(s, ids[0], height, interval);
      OneEvent(s, s1, s1.events[|s.events|]);
      RejectAllEffects(s1, ids[1..], height, interval);
      EffectsCompose(s, s1, RejectAll(s, ids, height, interval));
    }
  }

  /** Only executed calls change other modules at the end of a block: a failed handler commits nothing. */
  lemma {:induction false} EndBlockEffects(
      env: Env, s: State, s': State, height: nat, interval: nat, active: seq<nat>, overdue: seq<nat>)
    requires EndBlocked(env, s, s', height, interval, active, overdue)
    ensures EffectsAre(s, s')
  {
    var s1 := ExecuteAll(env, s, active, height, interval);
    ExecuteAllEffects(env, s, active, height, interval);
    if Start(height, interval) > interval {
      RejectAllEffects(s1, overdue, height, interval);
      EffectsCompose(s, s1, s');
    }
  }
}
