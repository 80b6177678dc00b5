/** The proof-of-relay score: a hash, shifted right by the chain's length and left by the penalty. */
module SigHash {
  import opened Common
  import opened Arith

  // ----- Bits of one byte -----

  predicate LowBit(b: Byte) { b % 2 == 1 }
  predicate TopBit(b: Byte) { b >= 128 }
  function ShiftRight(b: Byte): Byte { b / 2 }
  function ShiftLeft(b: Byte): Byte { 2 * b % 256 }
  function SetTopBit(b: Byte): Byte { if TopBit(b) then b else b + 128 }
  function SetLowBit(b: Byte): Byte { if LowBit(b) then b else b + 1 }

  // ----- Big-endian numbers -----

  function Value(s: Bytes): nat {
    if s == [] then 0 else 256 * Value(s[..|s| - 1]) + s[|s| - 1]
  }

  function Capacity(n: nat): nat {
    if n == 0 then 1 else 256 * Capacity(n - 1)
  }

  function HalvedAt(s: Bytes, i: nat): Byte
    requires i < |s|
  {
    if i > 0 && LowBit(s[i - 1]) then SetTopBit(ShiftRight(s[i])) else ShiftRight(s[i])
  }

  /** One bit to the right, with the carry of the byte before. */
  function Halved(s: Bytes): (r: Bytes)
    ensures |r| == |s|
  {
    seq(|s|, i requires 0 <= i < |s| => HalvedAt(s, i))
  }

  function DoubledAt(s: Bytes, i: nat): Byte
    requires i < |s|
  {
    if i + 1 < |s| && TopBit(s[i + 1]) then SetLowBit(ShiftLeft(s[i])) else ShiftLeft(s[i])
  }

  /** One bit to the left, with the carry of the byte after. */
  function Doubled(s: Bytes): (r: Bytes)
    ensures |r| == |s|
  {
    seq(|s|, i requires 0 <= i < |s| => DoubledAt(s, i))
  }

  /** What rightShiftBytes leaves behind: left shifts stop at the first set top bit. */
  function Shifted(s: Bytes, n: int): (r: Bytes)
    requires |s| > 0
    ensures |r| == |s|
    decreases if n < 0 then -n else n
  {
    if n > 0 then Shifted(Halved(s), n - 1)
    else if n < 0 && !TopBit(s[0]) then Shifted(Doubled(s), n + 1)
    else s
  }

  // ----- The shift, in place -----

  method ShiftRightOnce(b: array<Byte>)
    requires b.Length > 0
    modifies b
    ensures b[..] == Halved(old(b[..]))
  {
    hide ShiftRight, LowBit, SetTopBit;
    ghost var s := b[..];
    b[b.Length - 1] := ShiftRight(b[b.Length - 1]);
    var i := b.Length - 2;
    while i >= 0
      invariant -1 <= i <= b.Length - 2
      invariant forall j :: 0 <= j <= i ==> b[j] == s[j]
      invariant b[i + 1] == ShiftRight(s[i + 1])
      invariant forall j :: i + 1 < j < b.Length ==> b[j] == HalvedAt(s, j)
    {
      if LowBit(b[i]) {
        b[i + 1] := SetTopBit(b[i + 1]);
      }
      b[i] := ShiftRight(b[i]);
      i := i - 1;
    }
  }

  method ShiftLeftOnce(b: array<Byte>)
    requires b.Length > 0
    modifies b
    ensures b[..] == Doubled(old(b[..]))
  {
    hide ShiftLeft, TopBit, SetLowBit;
    ghost var s := b[..];
    b[0] := ShiftLeft(b[0]);
    for i := 1 to b.Length
      invariant forall j :: 0 <= j < i - 1 ==> b[j] == DoubledAt(s, j)
      invariant b[i - 1] == ShiftLeft(s[i - 1])
      invariant forall j :: i <= j < b.Length ==> b[j] == s[j]
    {
      if TopBit(b[i]) {
        b[i - 1] := SetLowBit(b[i - 1]);
      }
      b[i] := ShiftLeft(b[i]);
    }
  }

  /** rightShiftBytes */
  method RightShiftBytes(b: array<Byte>, n: int)
    requires b.Length > 0
    modifies b
    ensures b[..] == Shifted(old(b[..]), n)
  {
    if n > 0 {
      for k := 0 to n
        invariant Shifted(b[..], n - k) == Shifted(old(b[..]), n)
      {
        ShiftRightOnce(b);
      }
    } else if n < 0 {
      for k := 0 to -n
        invariant Shifted(b[..], n + k) == Shifted(old(b[..]), n)
      {
        if TopBit(b[0]) {
          break;
        }
        ShiftLeftOnce(b);
      }
    }
  }

  // ----- What it does to the number -----

  lemma {:induction false} HalvedValue(s: Bytes)
    ensures Value(Halved(s)) == Value(s) / 2
  {
    if s == [] {
    } else {
      var p, x := s[..|s| - 1], s[|s| - 1];
      HalvedValue(p);
      assert Halved(s)[..|s| - 1] == Halved(p);
      LastBit(p);
      HalvedDigit(Value(p), x);
    }
  }

  lemma LastBit(s: Bytes)
    ensures Value(s) % 2 == 1 <==> s != [] && LowBit(s[|s| - 1])
  {
    if s != [] {
      var v, x := Value(s[..|s| - 1]), s[|s| - 1];
      assert Value(s) == 256 * v + x;
      hide Value;
      SameParity(v, x);
    }
  }

  lemma SameParity(v: nat, x: Byte)
    ensures (256 * v + x) % 2 == x % 2
  {
  }

  lemma HalvedDigit(v: nat, x: Byte)
    ensures 256 * (v / 2) + (if v % 2 == 1 then SetTopBit(ShiftRight(x)) else ShiftRight(x)) == (256 * v + x) / 2
  {
  }

  lemma ValueSnoc(p: Bytes, x: Byte)
    ensures Value(p + [x]) == 256 * Value(p) + x
  {
    assert (p + [x])[..|p|] == p;
  }

  /** Doubling byte by byte: the last byte's top bit is carried into the ones before it. */
  lemma DoubledSnoc(p: Bytes, x: Byte)
    requires |p| > 0
    ensures Doubled(p)[|p| - 1] == ShiftLeft(p[|p| - 1])
    ensures var d := Doubled(p);
      Doubled(p + [x]) == d[..|p| - 1] + [if TopBit(x) then SetLowBit(d[|p| - 1]) else d[|p| - 1]] + [ShiftLeft(x)]
  {
    hide TopBit, SetLowBit, ShiftLeft;
    var s, d := p + [x], Doubled(p);
    var last := if TopBit(x) then SetLowBit(d[|p| - 1]) else d[|p| - 1];
    var r := d[..|p| - 1] + [last] + [ShiftLeft(x)];
    forall i | 0 <= i < |s| ensures Doubled(s)[i] == r[i] {
    }
  }

  lemma {:induction false} DoubledValue(s: Bytes)
    requires |s| > 0 && !TopBit(s[0])
    ensures Value(Doubled(s)) == 2 * Value(s)
  {
    hide Value, TopBit, SetLowBit, ShiftLeft, Doubled;
    var p, x := s[..|s| - 1], s[|s| - 1];
    assert s == p + [x];
    if p == [] {
      DoubledByte(x);
      assert s == [x];
    } else {
      DoubledValue(p);
      DoubledLast(p, x);
    }
  }

  function Carry(x: Byte): nat {
    if TopBit(x) then 1 else 0
  }

  /** The last two bytes of a doubled string. */
  lemma DoubledShape(p: Bytes, x: Byte) returns (front: Bytes, last: Byte, carried: Byte)
    requires |p| > 0
    ensures Doubled(p) == front + [last] && carried == last + Carry(x)
    ensures Doubled(p + [x]) == front + [carried] + [ShiftLeft(x)]
  {
    hide TopBit, SetLowBit, ShiftLeft, Doubled;
    DoubledSnoc(p, x);
    CarriedBit(p[|p| - 1], x);
    var d := Doubled(p);
    front, last := d[..|p| - 1], d[|p| - 1];
    carried := if TopBit(x) then SetLowBit(last) else last;
    assert d == front + [last];
  }

  /** The last byte of a doubled number. */
  lemma DoubledLast(p: Bytes, x: Byte)
    requires |p| > 0 && Value(Doubled(p)) == 2 * Value(p)
    ensures Value(Doubled(p + [x])) == 2 * Value(p + [x])
  {
    hide Value, Carry, ShiftLeft, Doubled;
    var front, last, carried := DoubledShape(p, x);
    ValueSnoc(p, x);
    ValueSnoc(front, last);
    ValueTwo(front, carried, ShiftLeft(x));
    ShiftedByte(x);
    LastDigits(Value(front), last, Carry(x), ShiftLeft(x), Value(p), x);
  }

  lemma ValueTwo(p: Bytes, x: Byte, y: Byte)
    ensures Value(p + [x] + [y]) == 256 * (256 * Value(p) + x) + y
  {
    hide Value;
    ValueSnoc(p, x);
    ValueSnoc(p + [x], y);
  }

  lemma ShiftedByte(x: Byte)
    ensures 256 * Carry(x) + ShiftLeft(x) == 2 * x
  {
  }

  lemma LastDigits(front: nat, last: nat, carry: nat, shifted: nat, value: nat, x: nat)
    requires 256 * front + last == 2 * value && 256 * carry + shifted == 2 * x
    ensures 256 * (256 * front + (last + carry)) + shifted == 2 * (256 * value + x)
  {
  }

  lemma ValueOne(x: Byte)
    ensures Value([x]) == x
  {
    var s := [x];
    assert s[..0] == [];
    assert Value(s) == 256 * Value(s[..0]) + s[0];
  }

  lemma DoubledByte(x: Byte)
    requires !TopBit(x)
    ensures Value(Doubled([x])) == 2 * Value([x])
  {
    hide Value;
    assert Doubled([x]) == [ShiftLeft(x)];
    ValueOne(x);
    ValueOne(ShiftLeft(x));
  }

  /** A byte just shifted left has room for the carry. */
  lemma CarriedBit(y: Byte, x: Byte)
    ensures SetLowBit(ShiftLeft(y)) == ShiftLeft(y) + 1
  {
  }

  lemma {:induction false} ValueBelowCapacity(s: Bytes)
    ensures Value(s) < Capacity(|s|)
  {
    if s == [] {
    } else {
      ValueBelowCapacity(s[..|s| - 1]);
    }
  }

  /** The top bit is set exactly when doubling would not fit. */
  lemma {:induction false} TopBitIsFull(s: Bytes)
    requires |s| > 0
    ensures TopBit(s[0]) <==> 2 * Value(s) >= Capacity(|s|)
  {
    if |s| == 1 {
      assert Value(s) == s[0];
      assert Capacity(0) == 1;
      assert Capacity(1) == 256 * Capacity(0);
    } else {
      var p := s[..|s| - 1];
      TopBitIsFull(p);
      CapacityIsEven(|p|);
      assert Value(s) == 256 * Value(p) + s[|s| - 1];
      assert Capacity(|p| + 1) == 256 * Capacity(|p|);
      hide Value, Capacity;
      FullDigit(Value(p), Capacity(|p|), s[|s| - 1]);
    }
  }

  lemma FullDigit(v: nat, c: nat, x: Byte)
    requires c % 2 == 0
    ensures 2 * v >= c <==> 2 * (256 * v + x) >= 256 * c
  {
  }

  lemma CapacityIsEven(n: nat)
    requires n > 0
    ensures Capacity(n) % 2 == 0
  {
  }

  /** Shifting right divides by the power of two. */
  lemma {:induction false} ShiftedRightValue(s: Bytes, n: nat)
    requires |s| > 0
    ensures Value(Shifted(s, n)) == Value(s) / Pow2(n)
    decreases n
  {
    if n == 0 {
    } else {
      HalvedValue(s);
      ShiftedRightValue(Halved(s), n - 1);
      DivTwice(Value(s), Pow2(n - 1));
    }
  }

  /** Shifting left multiplies by the largest power of two, up to the one asked for, that fits. */
  lemma {:induction false} ShiftedLeftValue(s: Bytes, n: int) returns (m: nat)
    requires |s| > 0 && n >= 0
    ensures m <= n && Value(Shifted(s, -n)) == Value(s) * Pow2(m)
    ensures m < n ==> Value(s) * Pow2(m + 1) >= Capacity(|s|)
    decreases n
  {
    hide Value, Doubled, Capacity;
    m := 0;
    TopBitIsFull(s);
    assert Value(s) * Pow2(0) == Value(s);
    MulDouble(Value(s), Pow2(0));
    if n > 0 && !TopBit(s[0]) {
      DoubledValue(s);
      var rest := ShiftedLeftValue(Doubled(s), n - 1);
      MulDouble(Value(s), Pow2(rest));
      MulDouble(Value(s), Pow2(rest + 1));
      m := rest + 1;
    }
  }

  /** One more bit to the right never raises the number, whichever way the shift goes. */
  lemma {:induction false} OneMoreBit(s: Bytes, n: int)
    requires |s| > 0
    ensures Value(Shifted(s, n + 1)) <= Value(Shifted(s, n))
    decreases if n < 0 then -n else n
  {
    hide Value, Halved, Doubled;
    if n > 0 {
      OneMoreBit(Halved(s), n - 1);
    } else if n == 0 {
      HalvedValue(s);
      assert Shifted(s, 1) == Shifted(Halved(s), 0) == Halved(s);
    } else if !TopBit(s[0]) {
      DoubledValue(s);
      if n == -1 {
        assert Shifted(s, -1) == Shifted(Doubled(s), 0) == Doubled(s);
      } else {
        OneMoreBit(Doubled(s), n + 1);
      }
    }
  }

  lemma {:induction false} ShiftedIsMonotone(s: Bytes, n: int, m: int)
    requires |s| > 0 && n <= m
    ensures Value(Shifted(s, m)) <= Value(Shifted(s, n))
    decreases m - n
  {
    hide Value, Shifted;
    if n == m {
    } else {
      ShiftedIsMonotone(s, n, m - 1);
      OneMoreBit(s, m - 1);
    }
  }

  // ----- Comparing -----

  /** bytes.Compare(a, b) < 0 */
  predicate LexLess(a: Bytes, b: Bytes) {
    if b == [] then false
    else if a == [] then true
    else a[0] < b[0] || (a[0] == b[0] && LexLess(a[1..], b[1..]))
  }

  /** The value, read from the front. */
  lemma {:induction false} ValueFromFront(s: Bytes)
    requires |s| > 0
    ensures Value(s) == s[0] * Capacity(|s| - 1) + Value(s[1..])
  {
    if |s| == 1 {
      assert Value(s) == s[0] && Value(s[1..]) == 0 && s[0] * Capacity(0) == s[0];
    } else {
      var p := s[..|s| - 1];
      ValueFromFront(p);
      assert s[1..][..|s| - 2] == p[1..];
      Rescale(s[0], Capacity(|s| - 2));
    }
  }

  /** Byte strings of one length compare as the numbers they are. */
  lemma {:induction false} LexIsValueOrder(a: Bytes, b: Bytes)
    requires |a| == |b|
    ensures LexLess(a, b) <==> Value(a) < Value(b)
    ensures a == b <==> Value(a) == Value(b)
  {
    if a == [] {
    } else {
      hide Value, Capacity;
      var c := Capacity(|a| - 1);
      ValueFromFront(a);
      ValueFromFront(b);
      LexIsValueOrder(a[1..], b[1..]);
      ValueBelowCapacity(a[1..]);
      ValueBelowCapacity(b[1..]);
      if a[0] < b[0] {
        DigitDominates(a[0], b[0], c);
      } else if b[0] < a[0] {
        DigitDominates(b[0], a[0], c);
      } else {
        assert a == [a[0]] + a[1..] && b == [b[0]] + b[1..];
      }
    }
  }

  // ----- The score -----

  /** SigChainBitShiftMaxLength; zero means no limit. */
  function MaxLength(height: nat): nat {
    if height >= 2651000 then 18 else if height >= 2633000 then 16 else if height >= 2543000 then 14 else 0
  }

  /** SigChainBitShiftPerElement */
  function BitsPerElement(height: nat): nat {
    if height >= 2651000 then 8 else 4
  }

  function ShiftBits(length: nat, height: nat, leftShiftBit: int): int {
    var counted := if MaxLength(height) > 0 && length > MaxLength(height) then MaxLength(height) else length;
    BitsPerElement(height) * counted - leftShiftBit
  }

  /** ComputeSignatureHash, on the 32-byte digest of the last relay hash. */
  method ComputeSignatureHash(digest: Bytes, length: nat, height: nat, leftShiftBit: int) returns (sigHash: Bytes)
    requires |digest| == 32
    ensures sigHash == Shifted(digest, ShiftBits(length, height, leftShiftBit))
  {
    var b := new Byte[32](i requires 0 <= i < 32 => digest[i]);
    assert b[..] == digest;
    var counted := length;
    var max := MaxLength(height);
    if max > 0 && counted > max {
      counted := max;
    }
    RightShiftBytes(b, BitsPerElement(height) * counted - leftShiftBit);
    sigHash := b[..];
  }

  /** A longer chain never scores worse and a larger penalty never scores better: at one height, on
      one digest, the signature hashes compare the other way round as byte strings.  Past the limit
      length stops counting. */
  lemma ScoreIsMonotone(digest: Bytes, height: nat, short: nat, long: nat, mild: int, harsh: int)
    requires |digest| == 32 && short <= long && mild <= harsh
    ensures !LexLess(Shifted(digest, ShiftBits(short, height, harsh)), Shifted(digest, ShiftBits(long, height, mild)))
    ensures 0 < MaxLength(height) <= short ==> ShiftBits(short, height, mild) == ShiftBits(long, height, mild)
  {
    hide Shifted, Value, LexLess;
    var n, m := ShiftBits(short, height, harsh), ShiftBits(long, height, mild);
    ShiftedIsMonotone(digest, n, m);
    LexIsValueOrder(Shifted(digest, n), Shifted(digest, m));
  }

  // ----- How much length and penalty count -----

  /** The signature hash of a chain, read as a number: lower is better. */
  function Score(digest: Bytes, length: nat, height: nat, leftShiftBit: int): nat
    requires |digest| > 0
  {
    Value(Shifted(digest, ShiftBits(length, height, leftShiftBit)))
  }

  lemma {:induction false} ShiftedTwice(s: Bytes, n: nat, k: nat)
    requires |s| > 0
    ensures Shifted(s, n + k) == Shifted(Shifted(s, n), k)
    decreases n
  {
    hide Halved, Doubled;
    if n == 0 {
    } else {
      ShiftedTwice(Halved(s), n - 1, k);
    }
  }

  /** Shifting k further divides by 2^k. */
  lemma MoreBits(s: Bytes, n: nat, k: nat)
    requires |s| > 0
    ensures Value(Shifted(s, n + k)) == Value(Shifted(s, n)) / Pow2(k)
  {
    hide Value, Shifted;
    ShiftedTwice(s, n, k);
    ShiftedRightValue(Shifted(s, n), k);
  }

  lemma ElementPowers()
    ensures Pow2(4) == 16 && Pow2(8) == 256
  {
    assert Pow2(1) == 2 && Pow2(2) == 4 && Pow2(3) == 8 && Pow2(5) == 32 && Pow2(6) == 64 && Pow2(7) == 128;
  }

  /** The length at which more elements stop counting, if there is one. */
  predicate Counts(length: nat, height: nat) {
    && (height >= 2651000 ==> length < 18)
    && (2633000 <= height < 2651000 ==> length < 16)
    && (2543000 <= height < 2633000 ==> length < 14)
  }

  lemma NextElementBits(length: nat, height: nat, leftShiftBit: int)
    ensures ShiftBits(length + 1, height, leftShiftBit)
         == ShiftBits(length, height, leftShiftBit) + if !Counts(length, height) then 0 else if height < 2651000 then 4 else 8
  {
  }

  /** While the shift is to the right, each further element divides the score by 256, or by 16 before
      height 2651000; from the limit on it leaves it. */
  lemma NextElement(digest: Bytes, length: nat, height: nat, leftShiftBit: int)
    requires |digest| == 32 && ShiftBits(length, height, leftShiftBit) >= 0
    ensures Score(digest, length + 1, height, leftShiftBit)
         == Score(digest, length, height, leftShiftBit)
          / if !Counts(length, height) then 1 else if height < 2651000 then 16 else 256
  {
    hide Value, Shifted, ShiftBits, Counts, Pow2;
    var bits := ShiftBits(length, height, leftShiftBit);
    NextElementBits(length, height, leftShiftBit);
    ElementPowers();
    MoreBits(digest, bits, 4);
    MoreBits(digest, bits, 8);
  }

  /** Without penalty the whole digest counts at length 0. */
  lemma NoElements(digest: Bytes, height: nat)
    requires |digest| == 32
    ensures ShiftBits(0, height, 0) == 0 && Score(digest, 0, height, 0) == Value(digest)
  {
  }

  /** One bit more of penalty doubles the score up to the bit that is lost: while the shift stays to the
      right, the milder score is the harsher one halved. */
  lemma PenaltyHalves(digest: Bytes, length: nat, height: nat, leftShiftBit: int)
    requires |digest| == 32 && ShiftBits(length, height, leftShiftBit + 1) >= 0
    ensures Score(digest, length, height, leftShiftBit) == Score(digest, length, height, leftShiftBit + 1) / 2
  {
    hide Value, Shifted, MaxLength, BitsPerElement;
    var bits := ShiftBits(length, height, leftShiftBit + 1);
    assert ShiftBits(length, height, leftShiftBit) == bits + 1;
    assert Pow2(1) == 2;
    MoreBits(digest, bits, 1);
  }

  lemma {:induction false} LongerScores(digest: Bytes, height: nat, short: nat, long: nat, leftShiftBit: int)
    requires |digest| == 32 && short < long && Counts(short, height) && ShiftBits(short, height, leftShiftBit) >= 0
    ensures Score(digest, long, height, leftShiftBit) <= Score(digest, short, height, leftShiftBit) / 16
    decreases long
  {
    hide Value, Shifted, ShiftBits, Score, Counts;
    if long == short + 1 {
      NextElement(digest, short, height, leftShiftBit);
    } else {
      LongerScores(digest, height, short, long - 1, leftShiftBit);
      MoreLengthMoreBits(height, short, long - 1, leftShiftBit);
      NextElement(digest, long - 1, height, leftShiftBit);
    }
  }

  lemma MoreLengthMoreBits(height: nat, short: nat, long: nat, leftShiftBit: int)
    requires short <= long
    ensures ShiftBits(short, height, leftShiftBit) <= ShiftBits(long, height, leftShiftBit)
  {
  }

  /** Below the limit a longer chain on one digest wins, unless the score is zero already. */
  lemma LongerWins(digest: Bytes, height: nat, short: nat, long: nat, leftShiftBit: int)
    requires |digest| == 32 && short < long && Counts(short, height) && ShiftBits(short, height, leftShiftBit) >= 0
    ensures LexLess(
        Shifted(digest, ShiftBits(long, height, leftShiftBit)), Shifted(digest, ShiftBits(short, height, leftShiftBit)))
      <==> Score(digest, short, height, leftShiftBit) > 0
  {
    hide Value, Shifted, LexLess, ShiftBits;
    LongerScores(digest, height, short, long, leftShiftBit);
    LexIsValueOrder(
      Shifted(digest, ShiftBits(long, height, leftShiftBit)), Shifted(digest, ShiftBits(short, height, leftShiftBit)));
  }
}
