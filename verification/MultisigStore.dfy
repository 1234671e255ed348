/**
  The multisig state as it is stored: one key-value store whose byte keys tell the kinds of
  entries apart, and whose queue is read by iterating over ranges of keys.
 */
module MultisigStore {
  import opened Bytes
  import opened QueueKeys
  import opened Multisig

  datatype Value = CallValue(call: Call) | VotesValue(votes: seq<Address>) | IdValue(id: nat)

  type Store = map<Key, Value>

  ghost predicate Fits(e: Entry) {
    e.QueueEntry? ==> e.height <= MAX_HEIGHT
  }

  ghost predicate Has(s: State, e: Entry) {
    match e
    case CallEntry(id) => id in s.calls
    case VotesEntry(id) => id in s.votes
    case UniqueEntry(u) => u in s.ids
    case LastIdEntry => s.lastID >= 0
    case QueueEntry(id, height) => (height, id) in s.queue
  }

  ghost function ValueOf(s: State, e: Entry): Value
    requires Has(s, e)
  {
    match e
    case CallEntry(id) => CallValue(s.calls[id])
    case VotesEntry(id) => VotesValue(s.votes[id])
    case UniqueEntry(u) => IdValue(s.ids[u])
    case LastIdEntry => IdValue(s.lastID)
    case QueueEntry(id, _) => IdValue(id)
  }

  /** The store holds the entries of the state under their keys, and nothing else. */
  ghost predicate Represents(store: Store, s: State) {
    && s.lastID >= -1
    && (forall q :: q in s.queue ==> q.0 <= MAX_HEIGHT)
    && (forall e: Entry :: Has(s, e) ==> KeyOf(e) in store && store[KeyOf(e)] == ValueOf(s, e))
    && (forall k :: k in store ==> exists e: Entry :: Has(s, e) && KeyOf(e) == k)
  }

  lemma {:induction false} DecimalInjective(a: nat, b: nat)
    requires Decimal(a) == Decimal(b)
    ensures a == b
  {
    DecimalRoundTrip(a);
    DecimalRoundTrip(b);
  }

  /** No two entries of the store share a key, whatever their kinds. */
  lemma {:induction false} KeyOfInjective(e: Entry, e': Entry)
    requires Fits(e) && Fits(e') && KeyOf(e) == KeyOf(e')
    ensures e == e'
  {
    var k := KeyOf(e);
    assert k[0] == if e.QueueEntry? then 0x71 else if e.UniqueEntry? then 0x75 else if e.LastIdEntry? then 0x6C else 0x63;
    assert e.CallEntry? ==> k[4] == 0x3A;
    assert e.VotesEntry? ==> k[4] == 0x56;
    match e
    case CallEntry(id) =>
      assert k[5..] == Decimal(id) && k[5..] == Decimal(e'.id);
      DecimalInjective(id, e'.id);
    case VotesEntry(id) =>
      assert k[10..] == Decimal(id) && k[10..] == Decimal(e'.id);
      DecimalInjective(id, e'.id);
    case UniqueEntry(u) => assert k[9..] == u && k[9..] == e'.uniqueID;
    case LastIdEntry =>
    case QueueEntry(id, height) => QueueKeyInjective(id, height, e'.id, e'.height);
  }

  lemma {:induction false} HasFits(s: State, e: Entry)
    requires Has(s, e) && forall q :: q in s.queue ==> q.0 <= MAX_HEIGHT
    ensures Fits(e)
  {
  }

  /** Looking a key up tells whether the state has the entry, and its value. */
  lemma {:induction false} Read(store: Store, s: State, e: Entry)
    requires Represents(store, s) && Fits(e)
    ensures KeyOf(e) in store <==> Has(s, e)
    ensures Has(s, e) ==> store[KeyOf(e)] == ValueOf(s, e)
  {
    hide KeyOf, Fits;
    if KeyOf(e) in store {
      var x: Entry :| Has(s, x) && KeyOf(x) == KeyOf(e);
      HasFits(s, x);
      KeyOfInjective(x, e);
    }
  }

  /** Two states that agree on every entry but one. */
  ghost predicate SameBut(s: State, s': State, e: Entry) {
    forall x: Entry :: x != e ==> (Has(s', x) <==> Has(s, x)) && (Has(s, x) ==> ValueOf(s', x) == ValueOf(s, x))
  }

  /** Writing one key changes one entry. */
  lemma {:induction false} Write(store: Store, s: State, s': State, e: Entry)
    requires Represents(store, s) && Fits(e) && s'.lastID >= -1
    requires Has(s', e) && SameBut(s, s', e)
    ensures Represents(store[KeyOf(e) := ValueOf(s', e)], s')
  {
    hide KeyOf;
    var store' := store[KeyOf(e) := ValueOf(s', e)];
    FitsKept(s, s', e);
    forall x: Entry | Has(s', x) ensures KeyOf(x) in store' && store'[KeyOf(x)] == ValueOf(s', x) {
      HasFits(s', x);
      if x != e && KeyOf(x) == KeyOf(e) { KeyOfInjective(x, e); }
    }
    forall k | k in store' ensures exists x: Entry :: Has(s', x) && KeyOf(x) == k {
      if k != KeyOf(e) {
        var x: Entry :| Has(s, x) && KeyOf(x) == k;
        assert Has(s', x);
      }
    }
  }

  lemma {:induction false} FitsKept(s: State, s': State, e: Entry)
    requires Fits(e) && SameBut(s, s', e)
    requires forall q :: q in s.queue ==> q.0 <= MAX_HEIGHT
    ensures forall q :: q in s'.queue ==> q.0 <= MAX_HEIGHT
  {
    forall q | q in s'.queue ensures q.0 <= MAX_HEIGHT {
      var x := QueueEntry(q.1, q.0);
      assert Has(s', x);
      if x != e { assert Has(s, x); }
    }
  }

  /** Deleting one key removes one entry, if it was there. */
  lemma {:induction false} Delete(store: Store, s: State, s': State, e: Entry)
    requires Represents(store, s) && Fits(e) && s'.lastID >= -1
    requires !Has(s', e) && SameBut(s, s', e)
    ensures Represents(store - {KeyOf(e)}, s')
  {
    hide KeyOf;
    var store' := store - {KeyOf(e)};
    FitsKept(s, s', e);
    forall x: Entry | Has(s', x) ensures KeyOf(x) in store' && store'[KeyOf(x)] == ValueOf(s', x) {
      HasFits(s', x);
      if KeyOf(x) == KeyOf(e) { KeyOfInjective(x, e); }
    }
    forall k | k in store' ensures exists x: Entry :: Has(s', x) && KeyOf(x) == k {
      var x: Entry :| Has(s, x) && KeyOf(x) == k;
      assert Has(s', x);
    }
  }

  // ---- iteration ----

  /** The keys of a range, in byte order. */
  ghost predicate IsIteration(store: Store, start: Key, end: Key, keys: seq<Key>) {
    && (forall i, j :: 0 <= i < j < |keys| ==> Lt(keys[i], keys[j]))
    && (forall k :: k in keys <==> k in store && InRange(k, start, end))
  }

  method Least(keys: set<Key>) returns (least: Key)
    requires keys != {}
    ensures least in keys
    ensures forall k :: k in keys && k != least ==> Lt(least, k)
  {
    least :| least in keys;
    var rest := keys - {least};
    while rest != {}
      invariant least in keys && rest <= keys - {least}
      invariant forall k :: k in keys && k !in rest && k != least ==> Lt(least, k)
      decreases |rest|
    {
      var k :| k in rest;
      LtTotal(k, least);
      if Lt(k, least) {
        forall x | x in keys && x !in rest && x != least ensures Lt(k, x) { LtTransitive(k, least, x); }
        least := k;
      }
      rest := rest - {k};
    }
  }

  method Iterate(store: Store, start: Key, end: Key) returns (keys: seq<Key>)
    ensures IsIteration(store, start, end, keys)
  {
    hide Lt;
    var rest := set k | k in store && InRange(k, start, end);
    keys := [];
    while rest != {}
      invariant forall i, j :: 0 <= i < j < |keys| ==> Lt(keys[i], keys[j])
      invariant forall i, k :: 0 <= i < |keys| && k in rest ==> Lt(keys[i], k)
      invariant forall k :: k in keys || k in rest <==> k in store && InRange(k, start, end)
      decreases |rest|
    {
      var k := Least(rest);
      rest := rest - {k};
      keys := keys + [k];
    }
  }

  /** The ids found by an iteration over queue keys. */
  ghost predicate IdsOf(store: Store, keys: seq<Key>, ids: seq<nat>) {
    && |ids| == |keys|
    && forall i :: 0 <= i < |keys| ==> keys[i] in store && store[keys[i]] == IdValue(ids[i])
  }

  /** Every key of the range is the key of a queue entry between two heights. */
  ghost predicate QueueRange(start: Key, end: Key, lo: nat, hi: nat) {
    forall e: Entry :: Fits(e) ==> (InRange(KeyOf(e), start, end) <==> e.QueueEntry? && lo <= e.height <= hi)
  }

  lemma {:induction false} IteratedEntry(store: Store, s: State, start: Key, end: Key, keys: seq<Key>, lo: nat, hi: nat, i: nat)
    returns (e: Entry)
    requires Represents(store, s) && QueueRange(start, end, lo, hi)
    requires IsIteration(store, start, end, keys) && i < |keys|
    ensures e.QueueEntry? && (e.height, e.id) in s.queue && lo <= e.height <= hi && e.height <= MAX_HEIGHT
    ensures KeyOf(e) == keys[i] && keys[i] in store && store[keys[i]] == IdValue(e.id)
  {
    hide KeyOf, InRange;
    assert keys[i] in keys;
    e :| Has(s, e) && KeyOf(e) == keys[i];
    HasFits(s, e);
  }

  /** Iterating over the keys of a range of heights scans the queue. */
  lemma {:induction false} IterationIsScan(
      env: Env, store: Store, s: State, start: Key, end: Key, keys: seq<Key>, ids: seq<nat>, lo: nat, hi: nat)
    requires Represents(store, s) && QueueOk(env, s) && QueueRange(start, end, lo, hi)
    requires IsIteration(store, start, end, keys) && IdsOf(store, keys, ids)
    ensures IsScan(s, ids, lo, hi)
  {
    hide KeyOf, InRange, Represents;
    forall i | 0 <= i < |ids|
      ensures ids[i] in s.calls && (s.calls[ids[i]].height, ids[i]) in s.queue && lo <= s.calls[ids[i]].height <= hi
    {
      var e := IteratedEntry(store, s, start, end, keys, lo, hi, i);
      assert QueuedOk(env, s, (e.height, e.id));
    }
    forall i, j | 0 <= i < j < |ids| ensures ids[i] != ids[j] && s.calls[ids[i]].height <= s.calls[ids[j]].height {
      IterationOrdered(env, store, s, start, end, keys, ids, lo, hi, i, j);
    }
    forall q | q in s.queue && lo <= q.0 <= hi ensures q.1 in ids {
      IterationComplete(store, s, start, end, keys, ids, lo, hi, q);
    }
  }

  lemma {:induction false} IterationOrdered(
      env: Env, store: Store, s: State, start: Key, end: Key, keys: seq<Key>, ids: seq<nat>, lo: nat, hi: nat, i: nat, j: nat)
    requires Represents(store, s) && QueueOk(env, s) && QueueRange(start, end, lo, hi)
    requires IsIteration(store, start, end, keys) && IdsOf(store, keys, ids) && i < j < |ids|
    ensures ids[i] in s.calls && ids[j] in s.calls
    ensures ids[i] != ids[j] && s.calls[ids[i]].height <= s.calls[ids[j]].height
  {
    hide InRange, Represents;
    var e := IteratedEntry(store, s, start, end, keys, lo, hi, i);
    var e' := IteratedEntry(store, s, start, end, keys, lo, hi, j);
    assert QueuedOk(env, s, (e.height, e.id)) && QueuedOk(env, s, (e'.height, e'.id));
    assert Lt(keys[i], keys[j]);
    QueueKeyOrder(e.id, e.height, e'.id, e'.height);
    LtIrreflexive(keys[i]);
  }

  lemma {:induction false} IterationComplete(
      store: Store, s: State, start: Key, end: Key, keys: seq<Key>, ids: seq<nat>, lo: nat, hi: nat, q: (nat, nat))
    requires Represents(store, s) && QueueRange(start, end, lo, hi)
    requires IsIteration(store, start, end, keys) && IdsOf(store, keys, ids)
    requires q in s.queue && lo <= q.0 <= hi
    ensures q.1 in ids
  {
    hide KeyOf, InRange;
    var e := QueueEntry(q.1, q.0);
    assert Has(s, e) && Fits(e);
    assert KeyOf(e) in keys;
    var i :| 0 <= i < |keys| && keys[i] == KeyOf(e);
    assert ids[i] == q.1;
  }

  lemma {:induction false} StartEndRange(lo: nat, hi: nat)
    requires lo <= MAX_HEIGHT && hi <= MAX_HEIGHT
    ensures QueueRange(GetPrefixQueueKey(lo), PrefixEnd(GetPrefixQueueKey(hi)), lo, hi)
  {
    hide KeyOf, InRange, GetPrefixQueueKey, PrefixEnd;
    forall e: Entry | Fits(e)
      ensures InRange(KeyOf(e), GetPrefixQueueKey(lo), PrefixEnd(GetPrefixQueueKey(hi))) <==> e.QueueEntry? && lo <= e.height <= hi
    {
      RangeStartEnd(e, lo, hi);
    }
  }

  lemma {:induction false} TillRange(hi: nat)
    requires hi <= MAX_HEIGHT
    ensures QueueRange(QUEUE_PREFIX, PrefixEnd(GetPrefixQueueKey(hi)), 0, hi)
  {
    hide KeyOf, InRange, GetPrefixQueueKey, PrefixEnd, QUEUE_PREFIX;
    forall e: Entry | Fits(e)
      ensures InRange(KeyOf(e), QUEUE_PREFIX, PrefixEnd(GetPrefixQueueKey(hi))) <==> e.QueueEntry? && 0 <= e.height <= hi
    {
      RangeTill(e, hi);
    }
  }
}
