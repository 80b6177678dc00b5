/** Trie keys: bytes, nibble strings with an optional terminator, and the compact form stored in
    short nodes. */
module TrieEncoding {
  import opened Common

  const TERMINATOR: Byte := 16

  predicate AllNibbles(s: Bytes) {
    forall i :: 0 <= i < |s| ==> s[i] < 16
  }

  predicate HasTerm(s: Bytes) {
    |s| > 0 && s[|s| - 1] == TERMINATOR
  }

  function Stem(s: Bytes): Bytes {
    if HasTerm(s) then s[..|s| - 1] else s
  }

  /** A nibble string, possibly with the terminator. */
  predicate IsHex(s: Bytes) {
    AllNibbles(Stem(s))
  }

  // ----- Nibbles and bytes -----

  /** Nibble i of a byte string, high half first. */
  function NibbleAt(bytes: Bytes, i: nat): Byte
    requires i < 2 * |bytes|
  {
    if i % 2 == 0 then bytes[i / 2] / 16 else bytes[i / 2] % 16
  }

  function Unpack(bytes: Bytes): (ns: Bytes)
    ensures |ns| == 2 * |bytes|
  {
    seq(2 * |bytes|, i requires 0 <= i < 2 * |bytes| => NibbleAt(bytes, i))
  }

  function Pack(nibbles: Bytes): (bytes: Bytes)
    requires AllNibbles(nibbles) && |nibbles| % 2 == 0
    ensures |bytes| == |nibbles| / 2
  {
    seq(|nibbles| / 2, i requires 0 <= i < |nibbles| / 2 => PairAt(nibbles, i))
  }

  function PairAt(nibbles: Bytes, i: nat): Byte
    requires AllNibbles(nibbles) && 2 * i + 1 < |nibbles|
  {
    nibbles[2 * i] * 16 + nibbles[2 * i + 1]
  }

  lemma PackUnpack(bytes: Bytes)
    ensures AllNibbles(Unpack(bytes)) && Pack(Unpack(bytes)) == bytes
  {
    var ns := Unpack(bytes);
    forall i | 0 <= i < |bytes| ensures PairAt(ns, i) == bytes[i] {
      assert ns[2 * i] == NibbleAt(bytes, 2 * i) && ns[2 * i + 1] == NibbleAt(bytes, 2 * i + 1);
    }
  }

  lemma UnpackPack(nibbles: Bytes)
    requires AllNibbles(nibbles) && |nibbles| % 2 == 0
    ensures Unpack(Pack(nibbles)) == nibbles
  {
    forall i | 0 <= i < |nibbles| ensures NibbleAt(Pack(nibbles), i) == nibbles[i] {
      assert Pack(nibbles)[i / 2] == PairAt(nibbles, i / 2);
    }
  }

  // ----- The four conversions -----

  function FlagByte(term: bool, odd: bool, first: Byte): Byte
    requires first < 16
  {
    (if term then 32 else 0) + (if odd then 16 + first else 0)
  }

  function Compact(hex: Bytes): (compact: Bytes)
    requires IsHex(hex)
  {
    var stem := Stem(hex);
    if |stem| % 2 == 1 then [FlagByte(HasTerm(hex), true, stem[0])] + Pack(stem[1..])
    else [FlagByte(HasTerm(hex), false, 0)] + Pack(stem)
  }

  function Hex(compact: Bytes): Bytes
    requires compact != []
  {
    var base := Unpack(compact);
    var marked := if base[0] >= 2 then base + [TERMINATOR] else base;
    marked[2 - base[0] % 2..]
  }

  function KeyHex(key: Bytes): Bytes {
    Unpack(key) + [TERMINATOR]
  }

  function KeyBytes(hex: Bytes): Bytes
    requires IsHex(hex) && |Stem(hex)| % 2 == 0
  {
    Pack(Stem(hex))
  }

  // ----- As the buffers are filled -----

  /** decodeNibbles into buf[start..] */
  method DecodeNibbles(nibbles: Bytes, buf: array<Byte>, start: nat)
    requires AllNibbles(nibbles) && |nibbles| % 2 == 0 && buf.Length == start + |nibbles| / 2
    modifies buf
    ensures buf[..] == old(buf[..start]) + Pack(nibbles)
  {
    for i := 0 to |nibbles| / 2
      invariant forall k :: 0 <= k < start ==> buf[k] == old(buf[k])
      invariant forall k :: 0 <= k < i ==> buf[start + k] == PairAt(nibbles, k)
    {
      buf[start + i] := PairAt(nibbles, i);
    }
  }

  /** hexToCompact */
  method HexToCompact(hex: Bytes) returns (compact: Bytes)
    requires IsHex(hex)
    ensures compact == Compact(hex)
  {
    var stem := hex;
    var first: Byte := 0;
    if HasTerm(hex) {
      first := 32;
      stem := hex[..|hex| - 1];
    }
    hide Pack, HasTerm;
    var buf := new Byte[|stem| / 2 + 1](_ => 0);
    if |stem| % 2 == 1 {
      first := first + 16 + stem[0];
      stem := stem[1..];
    }
    buf[0] := first;
    assert buf[..1] == [first];
    DecodeNibbles(stem, buf, 1);
    compact := buf[..];
  }

  /** keyBytesToHex */
  method KeyBytesToHex(key: Bytes) returns (hex: Bytes)
    ensures hex == KeyHex(key)
  {
    var l := 2 * |key| + 1;
    var nibbles := new Byte[l](_ => 0);
    for i := 0 to |key|
      invariant forall k :: 0 <= k < 2 * i ==> nibbles[k] == NibbleAt(key, k)
    {
      nibbles[2 * i] := key[i] / 16;
      nibbles[2 * i + 1] := key[i] % 16;
    }
    nibbles[l - 1] := TERMINATOR;
    hex := nibbles[..];
  }

  /** compactToHex */
  method CompactToHex(compact: Bytes) returns (hex: Bytes)
    requires compact != []
    ensures hex == Hex(compact)
  {
    var base := KeyBytesToHex(compact);
    base := base[..|base| - 1];
    assert base == Unpack(compact);
    var chop := 2 - base[0] % 2;
    if base[0] >= 2 {
      base := base + [TERMINATOR];
    }
    hex := base[chop..];
  }

  /** hexToKeyBytes; an odd number of nibbles ends the program. */
  method HexToKeyBytes(hex: Bytes) returns (key: Bytes)
    requires IsHex(hex) && |Stem(hex)| % 2 == 0
    ensures key == KeyBytes(hex)
  {
    var stem := hex;
    if HasTerm(hex) {
      stem := hex[..|hex| - 1];
    }
    var buf := new Byte[|stem| / 2](_ => 0);
    DecodeNibbles(stem, buf, 0);
    key := buf[..];
  }

  // ----- Round trips -----

  /** Every key survives. */
  lemma KeyRoundTrip(key: Bytes)
    ensures IsHex(KeyHex(key)) && |Stem(KeyHex(key))| % 2 == 0 && KeyBytes(KeyHex(key)) == key
  {
    PackUnpack(key);
    assert Stem(KeyHex(key)) == Unpack(key);
  }

  /** Only the last place of a key's nibbles holds the terminator. */
  lemma TerminatorIsLast(key: Bytes, i: nat)
    requires i < |KeyHex(key)|
    ensures KeyHex(key)[i] == TERMINATOR <==> i == |KeyHex(key)| - 1
  {
    hide Unpack, Pack;
    PackUnpack(key);
  }

  /** The terminator keeps keys apart on the way down: no key's nibbles begin another's. */
  lemma KeysArePrefixFree(a: Bytes, b: Bytes)
    requires KeyHex(a) <= KeyHex(b)
    ensures a == b
  {
    var n := |KeyHex(a)| - 1;
    TerminatorIsLast(a, n);
    TerminatorIsLast(b, n);
    KeyRoundTrip(a);
    KeyRoundTrip(b);
    hide KeyHex, KeyBytes;
    assert KeyHex(a) == KeyHex(b);
  }

  /** A flag byte splits into flag and first nibble again. */
  lemma FlagNibbles(term: bool, odd: bool, first: Byte)
    requires first < 16
    ensures var f := FlagByte(term, odd, first);
      f / 16 == (if term then 2 else 0) + (if odd then 1 else 0) && f % 16 == if odd then first else 0
  {
  }

  lemma UnpackCons(b: Byte, rest: Bytes)
    ensures Unpack([b] + rest) == [b / 16, b % 16] + Unpack(rest)
  {
    var all := [b] + rest;
    forall i | 2 <= i < 2 * |all| ensures NibbleAt(all, i) == NibbleAt(rest, i - 2) {
      assert all[i / 2] == rest[i / 2 - 1] && (i - 2) / 2 == i / 2 - 1;
    }
  }

  /** A nibble string put together from a leading odd nibble, pairs and the terminator. */
  function Join(odd: bool, low: Byte, pairs: Bytes, term: bool): Bytes {
    (if odd then [low] else []) + pairs + (if term then [TERMINATOR] else [])
  }

  lemma HexOf(b: Byte, rest: Bytes)
    ensures Hex([b] + rest) == Join(b / 16 % 2 == 1, b % 16, Unpack(rest), b / 16 >= 2)
  {
    hide Unpack;
    UnpackCons(b, rest);
  }

  lemma StemOf(odd: bool, low: Byte, pairs: Bytes, term: bool)
    requires AllNibbles(pairs) && |pairs| % 2 == 0 && low < 16
    ensures var hex := Join(odd, low, pairs, term);
      HasTerm(hex) == term && Stem(hex) == (if odd then [low] else []) + pairs && AllNibbles(Stem(hex))
  {
  }

  lemma CompactOf(odd: bool, low: Byte, pairs: Bytes, term: bool)
    requires AllNibbles(pairs) && |pairs| % 2 == 0 && low < 16
    ensures var hex := Join(odd, low, pairs, term);
      IsHex(hex) && Compact(hex) == [FlagByte(term, odd, low)] + Pack(pairs)
  {
    hide Pack, Join;
    StemOf(odd, low, pairs, term);
    if odd {
      assert ([low] + pairs)[1..] == pairs;
    } else {
      assert [] + pairs == pairs;
    }
  }

  /** Every nibble string survives, with or without the terminator, odd or even. */
  lemma HexRoundTrip(hex: Bytes)
    requires IsHex(hex)
    ensures Compact(hex) != [] && Hex(Compact(hex)) == hex
  {
    var odd, low, pairs, term := Split(hex);
    JoinRoundTrip(odd, low, pairs, term);
  }

  lemma JoinRoundTrip(odd: bool, low: Byte, pairs: Bytes, term: bool)
    requires AllNibbles(pairs) && |pairs| % 2 == 0 && low < 16
    ensures var hex := Join(odd, low, pairs, term);
      IsHex(hex) && Compact(hex) != [] && Hex(Compact(hex)) == hex
  {
    hide Unpack, Pack, Compact, Hex, Join, FlagByte;
    CompactOf(odd, low, pairs, term);
    var f := FlagByte(term, odd, low);
    FlagNibbles(term, odd, low);
    HexOf(f, Pack(pairs));
    UnpackPack(pairs);
    JoinEven(low, pairs, term);
  }

  /** Without an odd nibble the first one does not matter. */
  lemma JoinEven(low: Byte, pairs: Bytes, term: bool)
    ensures Join(false, low, pairs, term) == Join(false, 0, pairs, term)
  {
  }

  lemma Split(hex: Bytes) returns (odd: bool, low: Byte, pairs: Bytes, term: bool)
    requires IsHex(hex)
    ensures AllNibbles(pairs) && |pairs| % 2 == 0 && low < 16 && hex == Join(odd, low, pairs, term)
  {
    var stem := Stem(hex);
    term := HasTerm(hex);
    odd := |stem| % 2 == 1;
    if odd {
      low, pairs := stem[0], stem[1..];
    } else {
      low, pairs := 0, stem;
    }
  }

  /** A compact key: a flag up to 3, and padding zero when the flag says even. */
  predicate WellFormed(compact: Bytes) {
    compact != [] && compact[0] / 16 <= 3 && (compact[0] / 16 % 2 == 0 ==> compact[0] % 16 == 0)
  }

  lemma FlagIsExact(b: Byte)
    ensures FlagByte(b / 16 >= 2, b / 16 % 2 == 1, b % 16) == b <==> WellFormed([b])
  {
  }

  /** Decoding and encoding again gives back exactly the well-formed keys. */
  lemma CompactRoundTrip(compact: Bytes)
    requires compact != []
    ensures IsHex(Hex(compact)) && (Compact(Hex(compact)) == compact <==> WellFormed(compact))
  {
    hide Unpack, Pack, Compact, Hex, FlagByte;
    var b, rest := compact[0], compact[1..];
    assert compact == [b] + rest;
    HexOf(b, rest);
    PackUnpack(rest);
    CompactOf(b / 16 % 2 == 1, b % 16, Unpack(rest), b / 16 >= 2);
    FlagIsExact(b);
  }

  /** An even flag with padding that is not zero does not come back. */
  lemma PaddingIsLost()
    ensures !WellFormed([1]) && Compact(Hex([1])) != [1]
  {
    CompactRoundTrip([1]);
  }
}
