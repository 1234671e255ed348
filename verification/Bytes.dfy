/**
  Byte strings as store keys: lexicographic order, prefix ranges, big-endian and decimal
  encodings.
 */
module Bytes {

  type byte = b: int | 0 <= b < 256

  type Key = seq<byte>

  const DELIMITER: Key := [0x3A]

  /** The order in which a store iterates: byte by byte, a proper prefix first. */
  predicate Lt(a: Key, b: Key) {
    if b == [] then false
    else if a == [] then true
    else if a[0] != b[0] then a[0] < b[0]
    else Lt(a[1..], b[1..])
  }

  lemma {:induction false} LtIrreflexive(a: Key)
    ensures !Lt(a, a)
  {
    if a != [] { LtIrreflexive(a[1..]); }
  }

  lemma {:induction false} LtTransitive(a: Key, b: Key, c: Key)
    requires Lt(a, b) && Lt(b, c)
    ensures Lt(a, c)
  {
    if a != [] && a[0] == b[0] == c[0] { LtTransitive(a[1..], b[1..], c[1..]); }
  }

  lemma {:induction false} LtTotal(a: Key, b: Key)
    ensures a == b || Lt(a, b) || Lt(b, a)
  {
    if a != [] && b != [] && a[0] == b[0] {
      LtTotal(a[1..], b[1..]);
      assert a == [a[0]] + a[1..] && b == [b[0]] + b[1..];
    }
  }

  /** A common prefix does not matter. */
  lemma {:induction false} LtSamePrefix(p: Key, a: Key, b: Key)
    ensures Lt(p + a, p + b) <==> Lt(a, b)
  {
    if p == [] {
      assert [] + a == a && [] + b == b;
    } else {
      assert (p + a)[1..] == p[1..] + a && (p + b)[1..] == p[1..] + b;
      LtSamePrefix(p[1..], a, b);
    }
  }

  /** Different strings of one length decide the order whatever follows them. */
  lemma {:induction false} LtSameLength(a: Key, b: Key, x: Key, y: Key)
    requires |a| == |b| && a != b
    ensures Lt(a + x, b + y) <==> Lt(a, b)
  {
    assert (a + x)[1..] == a[1..] + x && (b + y)[1..] == b[1..] + y;
    if a[0] == b[0] {
      assert a == [a[0]] + a[1..] && b == [b[0]] + b[1..];
      LtSameLength(a[1..], b[1..], x, y);
    }
  }

  /** A string is below its proper extensions, and not below its prefixes. */
  lemma {:induction false} LtExtension(a: Key, x: Key)
    ensures Lt(a, a + x) <==> x != []
    ensures !Lt(a + x, a)
  {
    LtSamePrefix(a, [], x);
    LtSamePrefix(a, x, []);
    assert a + [] == a;
  }

  // ---- prefix ranges ----

  /** The end of the range of keys with prefix p: the least key above all of them, empty if there is none. */
  function PrefixEnd(p: Key): Key {
    if p == [] then []
    else
      var end := PrefixEnd(p[1..]);
      if end != [] then [p[0]] + end
      else if p[0] < 255 then [p[0] + 1]
      else []
  }

  lemma {:induction false} NoPrefixEnd(p: Key, k: Key)
    requires PrefixEnd(p) == []
    ensures Lt(k, p) || p <= k
  {
    if p != [] && k != [] && k[0] == p[0] {
      NoPrefixEnd(p[1..], k[1..]);
      assert p == [p[0]] + p[1..] && k == [k[0]] + k[1..];
    }
  }

  /** Below the end of a prefix range lie the keys below the prefix and the keys that start with it. */
  lemma {:induction false} BelowPrefixEnd(p: Key, k: Key)
    requires PrefixEnd(p) != []
    ensures Lt(k, PrefixEnd(p)) <==> Lt(k, p) || p <= k
  {
    var rest := PrefixEnd(p[1..]);
    assert p == [p[0]] + p[1..];
    if k != [] {
      assert k == [k[0]] + k[1..];
      if rest != [] {
        assert PrefixEnd(p)[1..] == rest;
        if k[0] == p[0] { BelowPrefixEnd(p[1..], k[1..]); }
      } else {
        assert PrefixEnd(p)[1..] == [];
        if k[0] == p[0] { NoPrefixEnd(p[1..], k[1..]); }
      }
    }
  }

  // ---- big-endian integers ----

  function Pow256(n: nat): (p: nat)
    ensures p > 0
  {
    if n == 0 then 1 else 256 * Pow256(n - 1)
  }

  /** The n lowest bytes of h, most significant first. */
  function BigEndian(h: nat, n: nat): (k: Key)
    ensures |k| == n
  {
    if n == 0 then [] else BigEndian(h / 256, n - 1) + [h % 256]
  }

  function FromBigEndian(k: Key): nat {
    if k == [] then 0 else 256 * FromBigEndian(k[..|k| - 1]) + k[|k| - 1]
  }

  lemma {:induction false} BigEndianRoundTrip(h: nat, n: nat)
    requires h < Pow256(n)
    ensures FromBigEndian(BigEndian(h, n)) == h
  {
    if n > 0 {
      BigEndianRoundTrip(h / 256, n - 1);
      assert BigEndian(h, n)[..n - 1] == BigEndian(h / 256, n - 1);
    }
  }

  /** On integers that fit, the byte order of the encodings is the numeric order. */
  lemma {:induction false} BigEndianOrder(a: nat, b: nat, n: nat)
    requires a < Pow256(n) && b < Pow256(n)
    ensures Lt(BigEndian(a, n), BigEndian(b, n)) <==> a < b
    ensures BigEndian(a, n) == BigEndian(b, n) <==> a == b
  {
    if n > 0 {
      var p, q := BigEndian(a / 256, n - 1), BigEndian(b / 256, n - 1);
      BigEndianOrder(a / 256, b / 256, n - 1);
      var x, y: Key := [a % 256], [b % 256];
      assert x[1..] == [] && y[1..] == [];
      if a / 256 == b / 256 {
        LtSamePrefix(p, x, y);
        assert (p + x)[n - 1] == a % 256 && (q + y)[n - 1] == b % 256;
      } else {
        LtSameLength(p, q, x, y);
        assert (p + x)[..n - 1] == p && (q + y)[..n - 1] == q;
      }
    }
  }

  // ---- decimal integers ----

  function Decimal(n: nat): (k: Key)
    ensures |k| > 0
    ensures forall i :: 0 <= i < |k| ==> 0x30 <= k[i] <= 0x39
  {
    if n < 10 then [0x30 + n] else Decimal(n / 10) + [0x30 + n % 10]
  }

  predicate AllDigits(k: Key) {
    forall i :: 0 <= i < |k| ==> 0x30 <= k[i] <= 0x39
  }

  function FromDecimal(k: Key): nat
    requires AllDigits(k)
  {
    if k == [] then 0 else 10 * FromDecimal(k[..|k| - 1]) + (k[|k| - 1] - 0x30)
  }

  lemma {:induction false} DecimalRoundTrip(n: nat)
    ensures FromDecimal(Decimal(n)) == n
  {
    var k := Decimal(n);
    if n >= 10 {
      DecimalRoundTrip(n / 10);
      assert k[..|k| - 1] == Decimal(n / 10);
    } else {
      assert k[..0] == [];
    }
  }
}
