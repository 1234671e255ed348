/**
  The keys of the multisig store, and what byte-order iteration over its queue part returns.
 */
module QueueKeys {
  import opened Bytes

  const CALL_PREFIX: Key := [0x63, 0x61, 0x6C, 0x6C]                                     // "call"
  const VOTES_PREFIX: Key := [0x63, 0x61, 0x6C, 0x6C, 0x56, 0x6F, 0x74, 0x65, 0x73]      // "callVotes"
  const UNIQUE_PREFIX: Key := [0x75, 0x6E, 0x69, 0x71, 0x75, 0x65, 0x49, 0x64]           // "uniqueId"
  const QUEUE_PREFIX: Key := [0x71, 0x75, 0x65, 0x75, 0x65]                              // "queue"
  const LAST_CALL_ID: Key := [0x6C, 0x61, 0x73, 0x74, 0x43, 0x61, 0x6C, 0x6C, 0x49, 0x64] // "lastCallId"

  /** Block heights are non-negative 64-bit signed integers. */
  const MAX_HEIGHT: nat := 0x7fff_ffff_ffff_ffff

  /** Every kind of entry the multisig store holds. */
  datatype Entry =
    | CallEntry(id: nat)
    | VotesEntry(id: nat)
    | UniqueEntry(uniqueID: Key)
    | LastIdEntry
    | QueueEntry(id: nat, height: nat)

  function GetQueueKey(id: nat, height: nat): Key {
    QUEUE_PREFIX + DELIMITER + BigEndian(height, 8) + DELIMITER + Decimal(id)
  }

  function GetPrefixQueueKey(height: nat): Key {
    QUEUE_PREFIX + DELIMITER + BigEndian(height, 8)
  }

  function KeyOf(e: Entry): Key {
    match e
    case CallEntry(id) => CALL_PREFIX + DELIMITER + Decimal(id)
    case VotesEntry(id) => VOTES_PREFIX + DELIMITER + Decimal(id)
    case UniqueEntry(u) => UNIQUE_PREFIX + DELIMITER + u
    case LastIdEntry => LAST_CALL_ID
    case QueueEntry(id, height) => GetQueueKey(id, height)
  }

  /** A store iterator yields the keys from `start` up to but not including `end`; no end means to the last key. */
  predicate InRange(k: Key, start: Key, end: Key) {
    !Lt(k, start) && (end == [] || Lt(k, end))
  }

  // ---- the two queue ranges ----

  lemma {:induction false} HeightFits(h: nat)
    requires h <= MAX_HEIGHT
    ensures h < Pow256(8)
  {
    assert Pow256(4) == 0x1_0000_0000;
    assert Pow256(8) == 256 * (256 * (256 * (256 * Pow256(4))));
  }

  /** Comparing a queue key with the prefix of a height compares the heights. */
  lemma {:induction false} QueueKeyAgainstPrefix(id: nat, h: nat, bound: nat)
    requires h <= MAX_HEIGHT && bound <= MAX_HEIGHT
    ensures Lt(GetQueueKey(id, h), GetPrefixQueueKey(bound)) <==> h < bound
    ensures GetPrefixQueueKey(bound) <= GetQueueKey(id, h) <==> h == bound
  {
    hide Lt, BigEndian, Decimal;
    var head := QUEUE_PREFIX + DELIMITER;
    var p, q, tail := BigEndian(h, 8), BigEndian(bound, 8), DELIMITER + Decimal(id);
    HeightFits(h);
    HeightFits(bound);
    BigEndianOrder(h, bound, 8);
    assert GetQueueKey(id, h) == head + (p + tail);
    assert GetPrefixQueueKey(bound) == head + q;
    hide GetQueueKey, GetPrefixQueueKey;
    LtSamePrefix(head, p + tail, q);
    if h == bound {
      LtExtension(p, tail);
      assert head + (p + tail) == (head + q) + tail;
    } else {
      LtSameLength(p, q, tail, []);
      assert q + [] == q;
      if head + q <= head + (p + tail) { PrefixHeight(head, p, q, tail); }
    }
  }

  lemma {:induction false} PrefixHeight(head: Key, p: Key, q: Key, tail: Key)
    requires |p| == |q| && head + q <= head + (p + tail)
    ensures p == q
  {
    assert p == (head + (p + tail))[|head|..|head| + |p|];
    assert q == (head + q)[|head|..];
  }

  lemma {:induction false} PrefixEndExists(height: nat)
    ensures PrefixEnd(GetPrefixQueueKey(height)) != []
    ensures PrefixEnd(GetPrefixQueueKey(height))[0] >= 0x71
  {
    var p := GetPrefixQueueKey(height);
    assert p[0] == 0x71;
  }

  /** Every other kind of key lies outside the queue part of the store. */
  lemma {:induction false} OtherKeysOutside(e: Entry, start: Key, height: nat)
    requires !e.QueueEntry?
    requires start == QUEUE_PREFIX || exists h :: start == GetPrefixQueueKey(h)
    ensures !InRange(KeyOf(e), start, PrefixEnd(GetPrefixQueueKey(height)))
  {
    var k := KeyOf(e);
    assert start != [] && start[0] == 0x71;
    assert k[0] == 0x63 || k[0] == 0x75 || k[0] == 0x6C;
    if e.UniqueEntry? {
      var p := GetPrefixQueueKey(height);
      PrefixEndExists(height);
      BelowPrefixEnd(p, k);
      assert p[0] == 0x71;
    }
  }

  /** Iterating from one height's prefix to the end of another's yields exactly the queue entries in between. */
  lemma {:induction false} RangeStartEnd(e: Entry, lo: nat, hi: nat)
    requires lo <= MAX_HEIGHT && hi <= MAX_HEIGHT && (e.QueueEntry? ==> e.height <= MAX_HEIGHT)
    ensures InRange(KeyOf(e), GetPrefixQueueKey(lo), PrefixEnd(GetPrefixQueueKey(hi)))
            <==> e.QueueEntry? && lo <= e.height <= hi
  {
    if e.QueueEntry? {
      QueueKeyAgainstPrefix(e.id, e.height, lo);
      QueueKeyAgainstPrefix(e.id, e.height, hi);
      PrefixEndExists(hi);
      BelowPrefixEnd(GetPrefixQueueKey(hi), KeyOf(e));
    } else {
      OtherKeysOutside(e, GetPrefixQueueKey(lo), hi);
    }
  }

  /** Iterating from the bare queue prefix yields exactly the queue entries up to a height. */
  lemma {:induction false} RangeTill(e: Entry, hi: nat)
    requires hi <= MAX_HEIGHT && (e.QueueEntry? ==> e.height <= MAX_HEIGHT)
    ensures InRange(KeyOf(e), QUEUE_PREFIX, PrefixEnd(GetPrefixQueueKey(hi)))
            <==> e.QueueEntry? && e.height <= hi
  {
    if e.QueueEntry? {
      QueueKeyAgainstPrefix(e.id, e.height, hi);
      PrefixEndExists(hi);
      BelowPrefixEnd(GetPrefixQueueKey(hi), KeyOf(e));
      var tail := DELIMITER + BigEndian(e.height, 8) + DELIMITER + Decimal(e.id);
      assert KeyOf(e) == QUEUE_PREFIX + tail;
      LtExtension(QUEUE_PREFIX, tail);
    } else {
      OtherKeysOutside(e, QUEUE_PREFIX, hi);
    }
  }

  /** Byte order of queue keys is height order. */
  lemma {:induction false} QueueKeyOrder(id: nat, h: nat, id': nat, h': nat)
    requires h <= MAX_HEIGHT && h' <= MAX_HEIGHT
    requires Lt(GetQueueKey(id, h), GetQueueKey(id', h'))
    ensures h <= h'
  {
    var head := QUEUE_PREFIX + DELIMITER;
    var p, q, x, y := BigEndian(h, 8), BigEndian(h', 8), DELIMITER + Decimal(id), DELIMITER + Decimal(id');
    HeightFits(h);
    HeightFits(h');
    BigEndianOrder(h, h', 8);
    assert GetQueueKey(id, h) == head + (p + x);
    assert GetQueueKey(id', h') == head + (q + y);
    LtSamePrefix(head, p + x, q + y);
    if h != h' { LtSameLength(p, q, x, y); }
  }

  lemma {:induction false} QueueKeyInjective(id: nat, h: nat, id': nat, h': nat)
    requires h <= MAX_HEIGHT && h' <= MAX_HEIGHT
    requires GetQueueKey(id, h) == GetQueueKey(id', h')
    ensures id == id' && h == h'
  {
    var k := GetQueueKey(id, h);
    assert k[6..14] == BigEndian(h, 8) && k[6..14] == BigEndian(h', 8);
    assert k[15..] == Decimal(id) && k[15..] == Decimal(id');
    HeightFits(h);
    HeightFits(h');
    BigEndianOrder(h, h', 8);
    DecimalRoundTrip(id);
    DecimalRoundTrip(id');
  }

  // ---- parsing ----

  /** The pieces of a key between delimiters. */
  function Split(k: Key): (parts: seq<Key>)
    ensures |parts| > 0
  {
    if k == [] then [[]]
    else
      var rest := Split(k[1..]);
      if k[0] == 0x3A then [[]] + rest
      else [[k[0]] + rest[0]] + rest[1..]
  }

  datatype ParsedKey = ParsedKey(id: nat, height: nat) | Panics

  /** Ids other than digit strings are rejected. */
  function MustParseQueueKey(k: Key): ParsedKey {
    var values := Split(k);
    if |values| != 3 then Panics
    else if values[0] != QUEUE_PREFIX then Panics
    else if |values[1]| < 8 then Panics
    else if values[2] == [] || !AllDigits(values[2]) then Panics
    else ParsedKey(FromDecimal(values[2]), FromBigEndian(values[1][..8]))
  }

  function CountDelimiters(k: Key): nat {
    if k == [] then 0 else (if k[0] == 0x3A then 1 else 0) + CountDelimiters(k[1..])
  }

  lemma {:induction false} SplitCounts(k: Key)
    ensures |Split(k)| == CountDelimiters(k) + 1
  {
    if k != [] { SplitCounts(k[1..]); }
  }

  lemma {:induction false} CountConcat(a: Key, b: Key)
    ensures CountDelimiters(a + b) == CountDelimiters(a) + CountDelimiters(b)
  {
    if a == [] {
      assert a + b == b;
    } else {
      assert (a + b)[1..] == a[1..] + b;
      CountConcat(a[1..], b);
    }
  }

  lemma {:induction false} CountZero(a: Key)
    ensures CountDelimiters(a) == 0 <==> 0x3A !in a
  {
    if a != [] { CountZero(a[1..]); }
  }

  /** A piece without delimiters, then a delimiter. */
  lemma {:induction false} SplitPiece(a: Key, rest: Key)
    requires 0x3A !in a
    ensures Split(a + DELIMITER + rest) == [a] + Split(rest)
  {
    var k := a + DELIMITER + rest;
    if a == [] {
      assert k[1..] == rest;
    } else {
      assert k[1..] == a[1..] + DELIMITER + rest;
      SplitPiece(a[1..], rest);
      assert a == [a[0]] + a[1..];
    }
  }

  lemma {:induction false} SplitLast(a: Key)
    requires 0x3A !in a
    ensures Split(a) == [a]
  {
    if a != [] {
      SplitLast(a[1..]);
      assert a == [a[0]] + a[1..];
    }
  }

  /** Parsing undoes building exactly for the heights whose eight bytes hold no delimiter; otherwise it panics. */
  lemma {:induction false} ParseUndoesQueueKey(id: nat, height: nat)
    requires height <= MAX_HEIGHT
    ensures MustParseQueueKey(GetQueueKey(id, height))
            == if 0x3A in BigEndian(height, 8) then Panics else ParsedKey(id, height)
  {
    hide BigEndian, Decimal, Split;
    var k, h, d := GetQueueKey(id, height), BigEndian(height, 8), Decimal(id);
    assert k == QUEUE_PREFIX + DELIMITER + (h + DELIMITER + d);
    SplitPiece(QUEUE_PREFIX, h + DELIMITER + d);
    if 0x3A in h {
      SplitCounts(h + DELIMITER + d);
      CountConcat(h, DELIMITER + d);
      CountConcat(DELIMITER, d);
      CountZero(h);
      assert h + DELIMITER + d == h + (DELIMITER + d);
      assert CountDelimiters(DELIMITER) == 1 by { assert DELIMITER[1..] == []; }
    } else {
      SplitPiece(h, d);
      SplitLast(d);
      HeightFits(height);
      BigEndianRoundTrip(height, 8);
      DecimalRoundTrip(id);
      assert h[..8] == h;
    }
  }

  lemma {:induction false} SmallHeight(height: nat)
    requires height < 256
    ensures BigEndian(height, 8) == [0, 0, 0, 0, 0, 0, 0, height]
  {
    assert BigEndian(0, 4) == [0, 0, 0, 0];
    assert BigEndian(0, 7) == BigEndian(0, 4) + [0, 0, 0];
  }

  /** The first such height is 58. */
  lemma {:induction false} ParsePanicsExample(id: nat, height: nat)
    requires height <= 58
    ensures MustParseQueueKey(GetQueueKey(id, height)) == if height == 58 then Panics else ParsedKey(id, height)
  {
    SmallHeight(height);
    ParseUndoesQueueKey(id, height);
    hide MustParseQueueKey, GetQueueKey;
  }
}
