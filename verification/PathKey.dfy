/**
  Storage keys of VM values: "vm", the 20-byte address and the path, joined by colons.
 */
module PathKey {
  import opened Bytes

  const VM_KEY: Key := [0x76, 0x6D]  // "vm"
  const ADDRESS_LENGTH := 20

  datatype AccessPath = AccessPath(address: Key, path: Key)

  datatype Parsed = Parsed(accessPath: AccessPath) | Panics

  function GetPathKey(p: AccessPath): Key {
    VM_KEY + DELIMITER + p.address + DELIMITER + p.path
  }

  /** Fixed offsets, not splitting: addresses and paths may hold the delimiter. */
  function MustParsePathKey(key: Key): Parsed {
    if |key| < |VM_KEY| + |DELIMITER| + ADDRESS_LENGTH + |DELIMITER| + 1 then Panics
    else if key[0..2] != VM_KEY then Panics
    else if key[2..3] != DELIMITER then Panics
    else if key[23..24] != DELIMITER then Panics
    else Parsed(AccessPath(key[3..23], key[24..]))
  }

  /** The layout: "vm:", the address, ":" and the path. */
  lemma {:induction false} PathKeyLayout(p: AccessPath)
    requires |p.address| == ADDRESS_LENGTH
    ensures var k := GetPathKey(p);
            && |k| == 24 + |p.path| && k[..3] == [0x76, 0x6D, 0x3A] && k[3..23] == p.address
            && k[23] == 0x3A && k[24..] == p.path
  {
  }

  /** Parsing undoes building exactly for 20-byte addresses and non-empty paths, whatever bytes they hold. */
  lemma {:induction false} ParseUndoesBuild(p: AccessPath)
    ensures MustParsePathKey(GetPathKey(p)) == Parsed(p) <==> |p.address| == ADDRESS_LENGTH && |p.path| > 0
  {
    var key := GetPathKey(p);
    if |p.address| == ADDRESS_LENGTH && |p.path| > 0 {
      assert key[0..2] == VM_KEY;
      assert key[2..3] == DELIMITER;
      assert key[3..23] == p.address;
      assert key[23..24] == DELIMITER;
      assert key[24..] == p.path;
    }
  }

  /** Building undoes parsing: every key the parser accepts is the key of what it returns. */
  lemma {:induction false} BuildUndoesParse(key: Key)
    requires MustParsePathKey(key).Parsed?
    ensures GetPathKey(MustParsePathKey(key).accessPath) == key
  {
    assert key == key[0..2] + key[2..3] + key[3..23] + key[23..24] + key[24..];
  }
}
