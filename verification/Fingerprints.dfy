/** The pool's recent transactions: an insertion-ordered map with a count and an XOR fingerprint
    that are maintained step by step. */
module Fingerprints {
  import opened Common

  const HASH_SIZE := 32
  type Hash = s: seq<bv8> | |s| == HASH_SIZE witness Zeros()

  function Zeros(): (s: seq<bv8>)
    ensures |s| == HASH_SIZE && forall i :: 0 <= i < HASH_SIZE ==> s[i] == 0
  {
    seq(HASH_SIZE, (i: nat) => 0)
  }

  const MAX_SYNC_TXN_INTERVAL := 16000

  datatype Entry = Entry(hash: Hash, arriveTime: int)

  /** The fingerprint is None until the first append. */
  datatype Recent = Recent(entries: seq<Entry>, count: int, fingerprint: Option<Hash>)

  const NewRecent := Recent([], 0, None)

  // ----- XOR -----

  function Xor(a: Hash, b: Hash): Hash {
    seq(HASH_SIZE, i requires 0 <= i < HASH_SIZE => a[i] ^ b[i])
  }

  lemma ByteXor(x: bv8, y: bv8, z: bv8)
    ensures (x ^ y) ^ z == (x ^ z) ^ y && (x ^ y) ^ y == x && x ^ 0 == x && x ^ y == y ^ x
  {
  }

  lemma XorLaws(a: Hash, b: Hash, c: Hash)
    ensures Xor(Xor(a, b), c) == Xor(Xor(a, c), b) && Xor(Xor(a, b), b) == a && Xor(a, Zeros()) == a && Xor(a, b) == Xor(b, a)
  {
    forall i | 0 <= i < HASH_SIZE
      ensures (a[i] ^ b[i]) ^ c[i] == (a[i] ^ c[i]) ^ b[i] && (a[i] ^ b[i]) ^ b[i] == a[i] && a[i] ^ 0 == a[i] && a[i] ^ b[i] == b[i] ^ a[i]
    {
      ByteXor(a[i], b[i], c[i]);
    }
  }

  /** The XOR of the hashes present. */
  function XorOf(entries: seq<Entry>): Hash {
    if entries == [] then Zeros() else Xor(XorOf(entries[..|entries| - 1]), entries[|entries| - 1].hash)
  }

  function Cut(entries: seq<Entry>, k: nat): seq<Entry>
    requires k < |entries|
  {
    entries[..k] + entries[k + 1..]
  }

  lemma XorOfSnoc(front: seq<Entry>, e: Entry)
    ensures XorOf(front + [e]) == Xor(XorOf(front), e.hash)
  {
    assert (front + [e])[..|front|] == front;
  }

  /** Taking an entry out takes its hash out. */
  lemma {:induction false} XorOfCut(entries: seq<Entry>, k: nat)
    requires k < |entries|
    ensures XorOf(entries) == Xor(XorOf(Cut(entries, k)), entries[k].hash)
    decreases |entries|
  {
    hide Xor, XorOf;
    var n := |entries| - 1;
    var front, last := entries[..n], entries[n];
    assert entries == front + [last];
    XorOfSnoc(front, last);
    if k < n {
      XorOfCut(front, k);
      assert Cut(entries, k) == Cut(front, k) + [last];
      XorOfSnoc(Cut(front, k), last);
      XorLaws(XorOf(Cut(front, k)), entries[k].hash, last.hash);
    } else {
      assert Cut(entries, k) == front;
    }
  }

  function Hashes(entries: seq<Entry>): (hs: seq<Hash>)
    ensures |hs| == |entries| && forall i :: 0 <= i < |hs| ==> hs[i] == entries[i].hash
  {
    seq(|entries|, i requires 0 <= i < |entries| => entries[i].hash)
  }

  /** The fingerprint depends on the hashes present, not on their order. */
  lemma {:induction false} XorIgnoresOrder(a: seq<Entry>, b: seq<Entry>)
    requires multiset(Hashes(a)) == multiset(Hashes(b))
    ensures XorOf(a) == XorOf(b)
    decreases |a|
  {
    hide Xor;
    assert |a| == |multiset(Hashes(a))| == |multiset(Hashes(b))| == |b|;
    if a == [] {
    } else {
      var n := |a| - 1;
      var h := a[n].hash;
      assert Hashes(a)[n] in multiset(Hashes(b));
      var k :| 0 <= k < |b| && b[k].hash == h;
      assert Cut(a, n) == a[..n];
      HashesOfCut(a, n);
      HashesOfCut(b, k);
      XorIgnoresOrder(a[..n], Cut(b, k));
      XorOfCut(b, k);
    }
  }

  lemma HashesOfCut(entries: seq<Entry>, k: nat)
    requires k < |entries|
    ensures multiset(Hashes(Cut(entries, k))) == multiset(Hashes(entries)) - multiset{entries[k].hash}
  {
    var hs := Hashes(entries);
    assert Hashes(Cut(entries, k)) == hs[..k] + hs[k + 1..];
    assert hs == hs[..k] + [hs[k]] + hs[k + 1..];
  }

  // ----- Operations -----

  function IndexOf(entries: seq<Entry>, hash: Hash): (k: Option<nat>)
    ensures k.Some? ==> k.value < |entries| && entries[k.value].hash == hash
    ensures k.None? <==> forall i :: 0 <= i < |entries| ==> entries[i].hash != hash
  {
    if entries == [] then None
    else if entries[|entries| - 1].hash == hash then Some(|entries| - 1)
    else IndexOf(entries[..|entries| - 1], hash)
  }

  /** updateTwtFingerprint */
  function Toggled(fingerprint: Option<Hash>, hash: Hash): Option<Hash> {
    if fingerprint.None? then Some(hash) else Some(Xor(fingerprint.value, hash))
  }

  /** appendTwt */
  function Appended(r: Recent, hash: Hash, now: int): Recent {
    if IndexOf(r.entries, hash).Some? then r
    else Recent(r.entries + [Entry(hash, now)], r.count + 1, Toggled(r.fingerprint, hash))
  }

  /** removeTwt */
  function Removed(r: Recent, hash: Hash): Recent {
    var k := IndexOf(r.entries, hash);
    if k.None? then r else Recent(Cut(r.entries, k.value), r.count - 1, Toggled(r.fingerprint, hash))
  }

  /** removeFromTwtMap */
  function RemovedAll(r: Recent, hashes: seq<Hash>): Recent
    decreases |hashes|
  {
    if hashes == [] then r else RemovedAll(Removed(r, hashes[0]), hashes[1..])
  }

  predicate Expired(e: Entry, now: int) {
    e.arriveTime < now - MAX_SYNC_TXN_INTERVAL
  }

  /** RemoveExpiredTwt walks from the oldest insertion and stops at the first entry that is not expired. */
  function ExpiredPrefix(entries: seq<Entry>, now: int): (n: nat)
    ensures n <= |entries|
  {
    if entries == [] || !Expired(entries[0], now) then 0 else 1 + ExpiredPrefix(entries[1..], now)
  }

  function AfterExpiry(r: Recent, now: int): Recent {
    var n := ExpiredPrefix(r.entries, now);
    RemovedAll(r, Hashes(r.entries[..n]))
  }

  // ----- What every run keeps -----

  predicate Distinct(entries: seq<Entry>) {
    forall i, j :: 0 <= i < j < |entries| ==> entries[i].hash != entries[j].hash
  }

  /** The count is the size and the fingerprint, once there is one, the XOR of the hashes present. */
  predicate RecentOk(r: Recent) {
    && Distinct(r.entries) && r.count == |r.entries|
    && (r.fingerprint.None? ==> r.entries == [])
    && (r.fingerprint.Some? ==> r.fingerprint.value == XorOf(r.entries))
  }

  lemma AppendedOk(r: Recent, hash: Hash, now: int)
    requires RecentOk(r)
    ensures RecentOk(Appended(r, hash, now))
  {
    hide Xor;
    var after := Appended(r, hash, now);
    if after != r {
      XorOfSnoc(r.entries, Entry(hash, now));
      XorLaws(hash, Zeros(), Zeros());
    }
  }

  lemma RemovedOk(r: Recent, hash: Hash)
    requires RecentOk(r)
    ensures RecentOk(Removed(r, hash))
  {
    hide Xor;
    var k := IndexOf(r.entries, hash);
    if k.Some? {
      XorOfCut(r.entries, k.value);
      XorLaws(XorOf(Cut(r.entries, k.value)), hash, hash);
      CutIsDistinct(r.entries, k.value);
    }
  }

  lemma CutIsDistinct(entries: seq<Entry>, k: nat)
    requires Distinct(entries) && k < |entries|
    ensures Distinct(Cut(entries, k))
  {
    var rest := Cut(entries, k);
    assert forall i :: 0 <= i < |rest| ==> rest[i] == if i < k then entries[i] else entries[i + 1];
  }

  lemma {:induction false} RemovedAllOk(r: Recent, hashes: seq<Hash>)
    requires RecentOk(r)
    ensures RecentOk(RemovedAll(r, hashes))
    decreases |hashes|
  {
    hide RecentOk;
    if hashes == [] {
    } else {
      RemovedOk(r, hashes[0]);
      RemovedAllOk(Removed(r, hashes[0]), hashes[1..]);
    }
  }

  datatype Op =
    | Append(hash: Hash)
    | Remove(hash: Hash)
    | Replace(gone: Hash, come: Hash)
    | RemoveSubmitted(hashes: seq<Hash>)
    | Expire

  /** An operation at a time. */
  function After(r: Recent, op: Op, now: int): Recent {
    match op
    case Append(hash) => Appended(r, hash, now)
    case Remove(hash) => Removed(r, hash)
    case Replace(gone, come) => Appended(Removed(r, gone), come, now)
    case RemoveSubmitted(hashes) => RemovedAll(r, hashes)
    case Expire => AfterExpiry(r, now)
  }

  function Run(ops: seq<(Op, int)>): Recent {
    if ops == [] then NewRecent
    else
      var (op, now) := ops[|ops| - 1];
      After(Run(ops[..|ops| - 1]), op, now)
  }

  /** After any sequence of operations the count is the number of entries and the fingerprint, if any,
      the XOR of their hashes. */
  lemma {:induction false} RunIsOk(ops: seq<(Op, int)>)
    ensures RecentOk(Run(ops))
  {
    hide RecentOk, Appended, Removed, RemovedAll;
    if ops == [] {
      NewIsOk();
    } else {
      var before := Run(ops[..|ops| - 1]);
      var (op, now) := ops[|ops| - 1];
      RunIsOk(ops[..|ops| - 1]);
      match op
      case Append(hash) => AppendedOk(before, hash, now);
      case Remove(hash) => RemovedOk(before, hash);
      case Replace(gone, come) =>
        RemovedOk(before, gone);
        AppendedOk(Removed(before, gone), come, now);
      case RemoveSubmitted(hashes) => RemovedAllOk(before, hashes);
      case Expire => RemovedAllOk(before, Hashes(before.entries[..ExpiredPrefix(before.entries, now)]));
    }
  }

  lemma NewIsOk()
    ensures RecentOk(NewRecent)
  {
  }

  predicate Inserts(op: Op) {
    op.Append? || op.Replace?
  }

  predicate EverInserted(ops: seq<(Op, int)>) {
    exists i :: 0 <= i < |ops| && Inserts(ops[i].0)
  }

  /** Removals neither create nor clear a fingerprint. */
  lemma RemovedKeepsFingerprint(r: Recent, hash: Hash)
    requires RecentOk(r)
    ensures Removed(r, hash).fingerprint.None? <==> r.fingerprint.None?
  {
  }

  lemma {:induction false} RemovedAllKeepsFingerprint(r: Recent, hashes: seq<Hash>)
    requires RecentOk(r)
    ensures RemovedAll(r, hashes).fingerprint.None? <==> r.fingerprint.None?
    decreases |hashes|
  {
    hide RecentOk, Removed;
    if hashes == [] {
    } else {
      RemovedKeepsFingerprint(r, hashes[0]);
      RemovedOk(r, hashes[0]);
      RemovedAllKeepsFingerprint(Removed(r, hashes[0]), hashes[1..]);
    }
  }

  lemma AppendedHasFingerprint(r: Recent, hash: Hash, now: int)
    requires RecentOk(r)
    ensures Appended(r, hash, now).fingerprint.Some?
  {
  }

  lemma AfterFingerprint(r: Recent, op: Op, now: int)
    requires RecentOk(r)
    ensures After(r, op, now).fingerprint.None? <==> r.fingerprint.None? && !Inserts(op)
  {
    hide RecentOk, Appended, Removed, RemovedAll;
    match op
    case Append(hash) => AppendedHasFingerprint(r, hash, now);
    case Remove(hash) => RemovedKeepsFingerprint(r, hash);
    case Replace(gone, come) =>
      RemovedOk(r, gone);
      AppendedHasFingerprint(Removed(r, gone), come, now);
    case RemoveSubmitted(hashes) => RemovedAllKeepsFingerprint(r, hashes);
    case Expire => RemovedAllKeepsFingerprint(r, Hashes(r.entries[..ExpiredPrefix(r.entries, now)]));
  }

  /** There is a fingerprint exactly if some operation has inserted a transaction. */
  lemma {:induction false} FingerprintIffInserted(ops: seq<(Op, int)>)
    ensures Run(ops).fingerprint.Some? <==> EverInserted(ops)
    decreases |ops|
  {
    hide RecentOk, After, Inserts;
    if ops == [] {
    } else {
      var n := |ops| - 1;
      var front := ops[..n];
      FingerprintIffInserted(front);
      RunIsOk(front);
      AfterFingerprint(Run(front), ops[n].0, ops[n].1);
      assert forall i :: 0 <= i < n ==> front[i] == ops[i];
    }
  }

  /** Two pools holding the same transactions, however they came by them, show the same count; they
      show the same fingerprint if and only if both or neither have ever inserted one. */
  lemma {:induction false} SameSetSameFingerprint(a: seq<(Op, int)>, b: seq<(Op, int)>)
    requires multiset(Hashes(Run(a).entries)) == multiset(Hashes(Run(b).entries))
    ensures Run(a).count == Run(b).count
    ensures Run(a).fingerprint == Run(b).fingerprint <==> (EverInserted(a) <==> EverInserted(b))
  {
    hide Run, XorOf, EverInserted;
    RunIsOk(a);
    RunIsOk(b);
    FingerprintIffInserted(a);
    FingerprintIffInserted(b);
    var x, y := Run(a).entries, Run(b).entries;
    assert |x| == |multiset(Hashes(x))| == |multiset(Hashes(y))| == |y|;
    XorIgnoresOrder(x, y);
  }

  /** An emptied pool and a fresh one hold the same and differ: one shows zeros, the other nothing. */
  lemma EmptiedIsNotFresh(hash: Hash)
    ensures Run([]).entries == Run([(Append(hash), 0), (Remove(hash), 0)]).entries == []
    ensures Run([]).fingerprint == None && Run([(Append(hash), 0), (Remove(hash), 0)]).fingerprint == Some(Zeros())
  {
    hide Xor;
    var ops := [(Append(hash), 0), (Remove(hash), 0)];
    assert ops[..1] == [(Append(hash), 0)];
    assert ops[..1][..0] == ops[..0] == [];
    assert Run(ops[..1]) == Recent([Entry(hash, 0)], 1, Some(hash));
    assert |Cut([Entry(hash, 0)], 0)| == 0;
    XorLaws(Zeros(), hash, hash);
    assert IndexOf([Entry(hash, 0)], hash) == Some(0);
    assert Xor(hash, hash) == Zeros() by { XorLaws(hash, Zeros(), hash); }
  }

  // ----- What it holds -----

  predicate Present(r: Recent, hash: Hash) {
    exists e :: e in r.entries && e.hash == hash
  }

  lemma PresentAt(r: Recent, i: nat)
    requires i < |r.entries|
    ensures Present(r, r.entries[i].hash)
  {
    assert r.entries[i] in r.entries;
  }

  lemma AppendedHolds(r: Recent, added: Hash, now: int, hash: Hash)
    ensures Present(Appended(r, added, now), hash) <==> Present(r, hash) || hash == added
  {
    hide Xor;
    var k, after := IndexOf(r.entries, added), Appended(r, added, now);
    if k.Some? {
      PresentAt(r, k.value);
    } else {
      PresentAt(after, |r.entries|);
      assert forall e :: e in r.entries ==> e in after.entries;
    }
  }

  lemma RemovedHolds(r: Recent, gone: Hash, hash: Hash)
    requires Distinct(r.entries)
    ensures Present(Removed(r, gone), hash) <==> Present(r, hash) && hash != gone
  {
    hide Xor;
    var k := IndexOf(r.entries, gone);
    if k.Some? {
      var rest := Cut(r.entries, k.value);
      assert forall i :: 0 <= i < |rest| ==> rest[i] == if i < k.value then r.entries[i] else r.entries[i + 1];
      forall i | 0 <= i < |r.entries| && i != k.value ensures r.entries[i] in rest {
        assert rest[if i < k.value then i else i - 1] == r.entries[i];
      }
    }
  }

  lemma {:induction false} RemovedAllHolds(r: Recent, gone: seq<Hash>, hash: Hash)
    requires RecentOk(r)
    ensures Present(RemovedAll(r, gone), hash) <==> Present(r, hash) && hash !in gone
    decreases |gone|
  {
    hide Present, Removed, XorOf;
    if gone == [] {
    } else {
      RemovedOk(r, gone[0]);
      RemovedHolds(r, gone[0], hash);
      RemovedAllHolds(Removed(r, gone[0]), gone[1..], hash);
    }
  }

  /** What an operation other than expiry makes of the set of transactions held. */
  lemma AfterHolds(r: Recent, op: Op, now: int, hash: Hash)
    requires RecentOk(r) && !op.Expire?
    ensures Present(After(r, op, now), hash) <==>
      match op {
        case Append(added) => Present(r, hash) || hash == added
        case Remove(gone) => Present(r, hash) && hash != gone
        case Replace(gone, come) => (Present(r, hash) && hash != gone) || hash == come
        case RemoveSubmitted(hashes) => Present(r, hash) && hash !in hashes
      }
  {
    hide Present, Appended, Removed, RemovedAll, XorOf;
    match op
    case Append(added) => AppendedHolds(r, added, now, hash);
    case Remove(gone) => RemovedHolds(r, gone, hash);
    case Replace(gone, come) =>
      RemovedHolds(r, gone, hash);
      AppendedHolds(Removed(r, gone), come, now, hash);
    case RemoveSubmitted(hashes) => RemovedAllHolds(r, hashes, hash);
  }

  // ----- Expiry -----

  lemma {:induction false} PrefixIsExpired(entries: seq<Entry>, now: int)
    ensures var n := ExpiredPrefix(entries, now);
      (forall i :: 0 <= i < n ==> Expired(entries[i], now)) && (n < |entries| ==> !Expired(entries[n], now))
  {
    if entries != [] && Expired(entries[0], now) {
      PrefixIsExpired(entries[1..], now);
      var n := ExpiredPrefix(entries[1..], now);
      assert forall i :: 0 < i <= n ==> entries[i] == entries[1..][i - 1];
    }
  }

  /** Removing the hashes of a prefix leaves the suffix. */
  lemma {:induction false} RemovePrefix(r: Recent, n: nat)
    requires RecentOk(r) && n <= |r.entries|
    ensures RemovedAll(r, Hashes(r.entries[..n])).entries == r.entries[n..]
    decreases n
  {
    hide RecentOk, XorOf, Xor;
    if n == 0 {
    } else {
      var h := r.entries[0].hash;
      var rest := Removed(r, h);
      FirstIsFound(r);
      RemovedOk(r, h);
      RemovePrefix(rest, n - 1);
      assert Hashes(r.entries[..n])[1..] == Hashes(rest.entries[..n - 1]);
    }
  }

  lemma FirstIsFound(r: Recent)
    requires RecentOk(r) && r.entries != []
    ensures Removed(r, r.entries[0].hash).entries == r.entries[1..]
  {
    hide XorOf;
    assert IndexOf(r.entries, r.entries[0].hash) == Some(0);
  }

  /** No expired entry sits behind one that is not. */
  predicate ExpiredFirst(entries: seq<Entry>, now: int) {
    forall i, j :: 0 <= i < j < |entries| && Expired(entries[j], now) ==> Expired(entries[i], now)
  }

  /** Expiry drops only expired entries, and all of them exactly when they all come first. */
  lemma {:induction false} ExpiryIsExact(r: Recent, now: int)
    requires RecentOk(r)
    ensures var n := ExpiredPrefix(r.entries, now);
      AfterExpiry(r, now).entries == r.entries[n..] && forall i :: 0 <= i < n ==> Expired(r.entries[i], now)
    ensures (forall e :: e in AfterExpiry(r, now).entries ==> !Expired(e, now)) <==> ExpiredFirst(r.entries, now)
  {
    hide RecentOk, RemovedAll, Expired;
    var n := ExpiredPrefix(r.entries, now);
    PrefixIsExpired(r.entries, now);
    RemovePrefix(r, n);
    var left := r.entries[n..];
    forall j | n <= j < |r.entries| ensures r.entries[j] in left {
      assert left[j - n] == r.entries[j];
    }
  }

  /** With a clock that goes back, an expired entry is kept: it arrived, by the clock, long ago but was
      inserted behind one that is still fresh. */
  lemma {:induction false} ClockBackKeepsExpired(a: Hash, b: Hash)
    requires a != b
    ensures var r := Run([(Append(a), 100000), (Append(b), 0)]);
      Entry(b, 0) in AfterExpiry(r, 100000).entries && Expired(Entry(b, 0), 100000)
  {
    hide Xor;
    var ops := [(Append(a), 100000), (Append(b), 0)];
    assert ops[..1] == [(Append(a), 100000)];
    assert ops[..1][..0] == ops[..0] == [];
    assert Run(ops[..1]).entries == [Entry(a, 100000)];
    var r := Run(ops);
    assert r.entries == [Entry(a, 100000), Entry(b, 0)];
    assert ExpiredPrefix(r.entries, 100000) == 0;
    assert Hashes(r.entries[..0]) == [];
    assert AfterExpiry(r, 100000) == r;
    assert r.entries[1] == Entry(b, 0);
  }

  // ----- The clock -----

  predicate InOrder(entries: seq<Entry>, now: int) {
    && (forall i :: 0 <= i < |entries| ==> entries[i].arriveTime <= now)
    && (forall i, j :: 0 <= i < j < |entries| ==> entries[i].arriveTime <= entries[j].arriveTime)
  }

  predicate ClockAdvances(ops: seq<(Op, int)>) {
    forall i, j :: 0 <= i < j < |ops| ==> ops[i].1 <= ops[j].1
  }

  lemma CutInOrder(entries: seq<Entry>, k: nat, now: int)
    requires InOrder(entries, now) && k < |entries|
    ensures InOrder(Cut(entries, k), now)
  {
    var rest := Cut(entries, k);
    assert forall i :: 0 <= i < |rest| ==> rest[i] == if i < k then entries[i] else entries[i + 1];
  }

  lemma {:induction false} RemovedAllInOrder(r: Recent, hashes: seq<Hash>, now: int)
    requires InOrder(r.entries, now)
    ensures InOrder(RemovedAll(r, hashes).entries, now)
    decreases |hashes|
  {
    hide InOrder;
    if hashes == [] {
    } else {
      RemovedInOrder(r, hashes[0], now);
      RemovedAllInOrder(Removed(r, hashes[0]), hashes[1..], now);
    }
  }

  lemma RemovedInOrder(r: Recent, hash: Hash, now: int)
    requires InOrder(r.entries, now)
    ensures InOrder(Removed(r, hash).entries, now)
  {
    var k := IndexOf(r.entries, hash);
    if k.Some? {
      CutInOrder(r.entries, k.value, now);
    }
  }

  lemma AppendedInOrder(r: Recent, hash: Hash, now: int)
    requires InOrder(r.entries, now)
    ensures InOrder(Appended(r, hash, now).entries, now)
  {
  }

  /** With a clock that never goes back, entries stay in order of arrival. */
  lemma {:induction false} RunInOrder(ops: seq<(Op, int)>)
    requires ClockAdvances(ops) && ops != []
    ensures InOrder(Run(ops).entries, ops[|ops| - 1].1)
  {
    hide Appended, Removed, RemovedAll;
    var n := |ops| - 1;
    var before := Run(ops[..n]);
    var (op, now) := ops[n];
    if n == 0 {
    } else {
      RunInOrder(ops[..n]);
      assert ops[..n][n - 1] == ops[n - 1];
    }
    assert InOrder(before.entries, now);
    match op
    case Append(hash) => AppendedInOrder(before, hash, now);
    case Remove(hash) => RemovedInOrder(before, hash, now);
    case Replace(gone, come) =>
      RemovedInOrder(before, gone, now);
      AppendedInOrder(Removed(before, gone), come, now);
    case RemoveSubmitted(hashes) => RemovedAllInOrder(before, hashes, now);
    case Expire => RemovedAllInOrder(before, Hashes(before.entries[..ExpiredPrefix(before.entries, now)]), now);
  }

  /** With a clock that never goes back, expiry leaves exactly the entries of the last 16 seconds. */
  lemma {:induction false} ExpiryByClock(ops: seq<(Op, int)>, now: int, e: Entry)
    requires ClockAdvances(ops) && (ops == [] || ops[|ops| - 1].1 <= now)
    ensures e in AfterExpiry(Run(ops), now).entries <==> e in Run(ops).entries && e.arriveTime >= now - 16000
  {
    hide AfterExpiry, Run;
    var r := Run(ops);
    RunIsOk(ops);
    assert InOrder(r.entries, now) by {
      if ops == [] { EmptyRun(); } else { RunInOrder(ops); }
    }
    assert ExpiredFirst(r.entries, now);
    ExpiryIsExact(r, now);
    var n := ExpiredPrefix(r.entries, now);
    if e in r.entries && !Expired(e, now) {
      var i :| 0 <= i < |r.entries| && r.entries[i] == e;
      assert n <= i;
      assert r.entries[n..][i - n] == e;
    }
  }

  lemma EmptyRun()
    ensures Run([]).entries == []
  {
  }
}
