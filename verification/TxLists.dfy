/** One account's pending transactions, as a plain sequence: what the pool's guarded operations do,
    and what every run of them keeps. */
module TxLists {
  import opened Common
  import opened Transactions

  datatype ListError = Duplicate | Vetoed | Full | NotContinuous

  predicate DistinctHashes(s: seq<Txn>) {
    forall i, j :: 0 <= i < j < |s| ==> s[i].hash != s[j].hash
  }

  predicate Consecutive(s: seq<Txn>) {
    forall i :: 0 <= i < |s| ==> s[i].nonce == s[0].nonce + i
  }

  /** Nonces are uint64. */
  predicate InRange(s: seq<Txn>) {
    forall i :: 0 <= i < |s| ==> s[i].nonce < TWO_64
  }

  predicate ListOk(s: seq<Txn>) {
    DistinctHashes(s) && Consecutive(s) && InRange(s)
  }

  predicate HasHash(s: seq<Txn>, hash: Uint256) {
    exists i :: 0 <= i < |s| && s[i].hash == hash
  }

  /** The offset lookup of GetByNonce and Replace. */
  function Offset(s: seq<Txn>, nonce: nat): (k: Option<nat>)
    requires ListOk(s)
    ensures k.Some? ==> k.value < |s| && s[k.value].nonce == nonce
  {
    if s == [] || nonce < s[0].nonce || nonce > s[|s| - 1].nonce then None else Some(nonce - s[0].nonce)
  }

  /** The first transaction with the nonce. */
  function Search(s: seq<Txn>, nonce: nat): Option<Txn> {
    if s == [] then None else if s[0].nonce == nonce then Some(s[0]) else Search(s[1..], nonce)
  }

  lemma {:induction false} SearchFinds(s: seq<Txn>, nonce: nat, k: nat)
    requires k < |s| && s[k].nonce == nonce && forall i :: 0 <= i < k ==> s[i].nonce != nonce
    ensures Search(s, nonce) == Some(s[k])
    decreases k
  {
    if k == 0 {
    } else {
      SearchFinds(s[1..], nonce, k - 1);
    }
  }

  lemma {:induction false} SearchFails(s: seq<Txn>, nonce: nat)
    requires forall i :: 0 <= i < |s| ==> s[i].nonce != nonce
    ensures Search(s, nonce) == None
  {
    if s == [] {
    } else {
      SearchFails(s[1..], nonce);
    }
  }

  /** Subtracting nonces finds exactly what a linear search finds. */
  lemma OffsetIsSearch(s: seq<Txn>, nonce: nat)
    requires ListOk(s)
    ensures Search(s, nonce) == if Offset(s, nonce).Some? then Some(s[Offset(s, nonce).value]) else None
  {
    if Offset(s, nonce).Some? {
      SearchFinds(s, nonce, Offset(s, nonce).value);
    } else {
      SearchFails(s, nonce);
    }
  }

  // ----- Operations -----

  /** The nonce processTx expects next; the addition wraps. */
  function Expected(s: seq<Txn>, ledgerNonce: nat): nat {
    if s == [] then ledgerNonce else (s[|s| - 1].nonce + 1) % TWO_64
  }

  /** processTx for an ordinary transaction; vetoed stands for the replacement rule or the block
      validation state refusing it. */
  function Submitted(s: seq<Txn>, cap: nat, t: Txn, ledgerNonce: nat, vetoed: bool): Result<seq<Txn>, ListError>
    requires ListOk(s)
  {
    if HasHash(s, t.hash) then Err(Duplicate)
    else
      var k := Offset(s, t.nonce);
      if k.Some? then if vetoed then Err(Vetoed) else Ok(s[k.value := t])
      else if |s| >= cap then Err(Full)
      else if t.nonce != Expected(s, ledgerNonce) then Err(NotContinuous)
      else if vetoed then Err(Vetoed)
      else Ok(s + [t])
  }

  /** What CleanSubmittedTransactions leaves when a block contained the given nonce: the count it
      pops is cut to 16 bits. */
  function Removed(s: seq<Txn>, nonce: nat): seq<Txn>
    requires ListOk(s)
  {
    var k := Offset(s, nonce);
    if k.None? then s else s[PopCount(k.value)..]
  }

  function PopCount(k: nat): (n: nat)
    ensures n <= k + 1
  {
    (k + 1) % 0x1_0000
  }

  /** Drop: only the last transaction may go; the zero hash stands for whichever it is. */
  function Dropped(s: seq<Txn>, hash: Uint256): seq<Txn> {
    if s != [] && (hash == 0 || s[|s| - 1].hash == hash) then s[..|s| - 1] else s
  }

  // ----- What they keep -----

  predicate AtTop(s: seq<Txn>) {
    s != [] && s[|s| - 1].nonce == TWO_64 - 1
  }

  lemma NoHash(s: seq<Txn>, hash: Uint256, i: nat)
    requires !HasHash(s, hash) && i < |s|
    ensures s[i].hash != hash
  {
  }

  /** A submission keeps the list in order, except exactly when it appends past the largest nonce. */
  lemma SubmittedKeeps(s: seq<Txn>, cap: nat, t: Txn, ledgerNonce: nat, vetoed: bool)
    requires ListOk(s) && t.nonce < TWO_64 && Submitted(s, cap, t, ledgerNonce, vetoed).Ok?
    ensures var r := Submitted(s, cap, t, ledgerNonce, vetoed).value;
      ListOk(r) <==> Offset(s, t.nonce).Some? || !AtTop(s)
  {
    var r := Submitted(s, cap, t, ledgerNonce, vetoed).value;
    forall i | 0 <= i < |s| ensures s[i].hash != t.hash {
      NoHash(s, t.hash, i);
    }
    if |r| == |s| {
      var k := Offset(s, t.nonce).value;
      assert forall i :: 0 <= i < |r| ==> r[i] == if i == k then t else s[i];
    } else {
      assert forall i :: 0 <= i < |s| ==> r[i] == s[i];
      if AtTop(s) {
        assert r[|s|].nonce == 0 && r[0].nonce == s[0].nonce;
      }
    }
  }

  lemma SliceKeeps(s: seq<Txn>, i: nat, j: nat)
    requires ListOk(s) && i <= j <= |s|
    ensures ListOk(s[i..j])
  {
    forall k | 0 <= k < j - i ensures s[i..j][k].nonce == s[i..j][0].nonce + k {
      assert s[i..j][k] == s[i + k] && s[i..j][0] == s[i];
    }
  }

  lemma RemovedKeeps(s: seq<Txn>, nonce: nat)
    requires ListOk(s)
    ensures ListOk(Removed(s, nonce))
  {
    hide ListOk, PopCount;
    var k := Offset(s, nonce);
    if k.Some? {
      var n := PopCount(k.value);
      SliceKeeps(s, n, |s|);
      assert s[n..|s|] == s[n..];
    }
  }

  /** Removing by nonce leaves only later nonces, exactly when fewer than 65536 entries have to go. */
  lemma RemovedIsExact(s: seq<Txn>, nonce: nat)
    requires ListOk(s) && Offset(s, nonce).Some?
    ensures (forall t :: t in Removed(s, nonce) ==> t.nonce > nonce) <==> nonce - s[0].nonce + 1 < 0x1_0000
  {
    var k := Offset(s, nonce).value;
    var n := PopCount(k);
    if k + 1 >= 0x1_0000 {
      assert s[n..][k - n] == s[k];
      assert s[k] in s[n..];
    }
  }

  /** A list of any length from nonce 0. */
  function FromZero(n: nat): seq<Txn> {
    seq(n, i requires 0 <= i < n => Txn(i + 1, 0, TransferAsset(0, 0), i, 0, 1))
  }

  /** When 65536 entries have to go, none goes. */
  lemma FullPopRemovesNothing()
    ensures var s := FromZero(0x1_0000);
      ListOk(s) && Offset(s, 0xFFFF) == Some(0xFFFF) && Removed(s, 0xFFFF) == s
  {
    var s := FromZero(0x1_0000);
    assert s[0].nonce == 0 && s[0xFFFF].nonce == 0xFFFF;
    assert PopCount(0xFFFF) == 0;
  }

  // ----- What they do -----

  lemma {:induction false} SearchAppended(s: seq<Txn>, t: Txn, nonce: nat)
    ensures Search(s + [t], nonce)
         == if Search(s, nonce).Some? then Search(s, nonce) else if nonce == t.nonce then Some(t) else None
  {
    if s == [] {
      assert s + [t] == [t];
    } else {
      assert (s + [t])[1..] == s[1..] + [t];
      SearchAppended(s[1..], t, nonce);
    }
  }

  lemma {:induction false} SearchReplaced(s: seq<Txn>, k: nat, t: Txn, nonce: nat)
    requires k < |s| && s[k].nonce == t.nonce && forall i :: 0 <= i < k ==> s[i].nonce != t.nonce
    ensures Search(s[k := t], nonce) == if nonce == t.nonce then Some(t) else Search(s, nonce)
    decreases k
  {
    if k == 0 {
    } else {
      assert s[k := t][1..] == s[1..][k - 1 := t];
      SearchReplaced(s[1..], k - 1, t, nonce);
    }
  }

  /** A successful submission is what its nonce now finds; every other nonce finds what it did, and the
      list grows exactly when the nonce was not there. */
  lemma SubmittedIsFound(s: seq<Txn>, cap: nat, t: Txn, ledgerNonce: nat, vetoed: bool, nonce: nat)
    requires ListOk(s) && Submitted(s, cap, t, ledgerNonce, vetoed).Ok?
    ensures var r := Submitted(s, cap, t, ledgerNonce, vetoed).value;
      && Search(r, nonce) == (if nonce == t.nonce then Some(t) else Search(s, nonce))
      && |r| == |s| + (if Search(s, t.nonce).Some? then 0 else 1)
  {
    hide HasHash, Expected;
    OffsetIsSearch(s, t.nonce);
    var k := Offset(s, t.nonce);
    if k.Some? {
      SearchReplaced(s, k.value, t, nonce);
    } else {
      SearchAppended(s, t, nonce);
    }
  }

  predicate Known(s: seq<Txn>, hash: Uint256) {
    exists t :: t in s && t.hash == hash
  }

  /** The nonce is the ledger's, or the one |s| after the first. */
  predicate Continues(s: seq<Txn>, nonce: nat, ledgerNonce: nat) {
    nonce == if s == [] then ledgerNonce else (s[0].nonce + |s|) % TWO_64
  }

  /** When a submission succeeds, and which error it gets otherwise. */
  lemma SubmittedOutcome(s: seq<Txn>, cap: nat, t: Txn, ledgerNonce: nat, vetoed: bool)
    requires ListOk(s)
    ensures var r := Submitted(s, cap, t, ledgerNonce, vetoed);
      var found, room, continues := Search(s, t.nonce).Some?, |s| < cap, Continues(s, t.nonce, ledgerNonce);
      && (r.Ok? <==> !Known(s, t.hash) && (found || (room && continues)) && !vetoed)
      && (r == Err(Duplicate) <==> Known(s, t.hash))
      && (r == Err(Full) <==> !Known(s, t.hash) && !found && !room)
      && (r == Err(NotContinuous) <==> !Known(s, t.hash) && !found && room && !continues)
  {
    hide Search, DistinctHashes, InRange;
    OffsetIsSearch(s, t.nonce);
    KnownIsHashed(s, t.hash);
  }

  lemma KnownIsHashed(s: seq<Txn>, hash: Uint256)
    ensures Known(s, hash) <==> HasHash(s, hash)
  {
    if HasHash(s, hash) {
      var i :| 0 <= i < |s| && s[i].hash == hash;
      assert s[i] in s;
    }
  }

  lemma {:induction false} SearchSuffix(s: seq<Txn>, n: nat, nonce: nat)
    requires n <= |s| && forall i :: 0 <= i < n ==> s[i].nonce != nonce
    ensures Search(s[n..], nonce) == Search(s, nonce)
    decreases n
  {
    if n == 0 {
      assert s[0..] == s;
    } else {
      assert s[1..][n - 1..] == s[n..];
      SearchSuffix(s[1..], n - 1, nonce);
    }
  }

  /** Removing a nonce leaves every later one in its place. */
  lemma RemovedKeepsLater(s: seq<Txn>, nonce: nat, later: nat)
    requires ListOk(s) && later > nonce
    ensures Search(Removed(s, nonce), later) == Search(s, later)
  {
    hide DistinctHashes, InRange, Search, PopCount;
    var k := Offset(s, nonce);
    if k.Some? {
      var n := PopCount(k.value);
      forall i | 0 <= i < n ensures s[i].nonce != later {
        assert s[i].nonce == s[0].nonce + i <= s[0].nonce + k.value;
      }
      SearchSuffix(s, n, later);
    }
  }

  lemma SearchPrefix(s: seq<Txn>, nonce: nat)
    requires s != []
    ensures s[|s| - 1].nonce != nonce ==> Search(s[..|s| - 1], nonce) == Search(s, nonce)
  {
    assert s == s[..|s| - 1] + [s[|s| - 1]];
    SearchAppended(s[..|s| - 1], s[|s| - 1], nonce);
  }

  /** A drop that names the last transaction, or none, takes exactly that one; any other takes nothing. */
  lemma DroppedIsLast(s: seq<Txn>, hash: Uint256, nonce: nat)
    requires ListOk(s)
    ensures var named := s != [] && hash in {0, s[|s| - 1].hash};
      && |Dropped(s, hash)| == |s| - (if named then 1 else 0)
      && Search(Dropped(s, hash), nonce) == if named && nonce == s[|s| - 1].nonce then None else Search(s, nonce)
  {
    hide DistinctHashes, InRange, Search;
    if s != [] && hash in {0, s[|s| - 1].hash} {
      SearchPrefix(s, nonce);
      if nonce == s[|s| - 1].nonce {
        SearchFails(s[..|s| - 1], nonce);
      }
    }
  }

  // ----- Runs -----

  datatype Op =
    | Submit(txn: Txn, ledgerNonce: nat, vetoed: bool)
    | Remove(nonce: nat)
    | Drop(hash: Uint256)

  function After(s: seq<Txn>, cap: nat, op: Op): seq<Txn>
    requires ListOk(s)
  {
    match op
    case Submit(t, ledgerNonce, vetoed) =>
      var r := Submitted(s, cap, t, ledgerNonce, vetoed);
      if r.Ok? then r.value else s
    case Remove(nonce) => Removed(s, nonce)
    case Drop(hash) => Dropped(s, hash)
  }

  /** Nonces are uint64. */
  predicate Typed(op: Op) {
    op.Submit? ==> op.txn.nonce < TWO_64
  }

  /** The operation appends after the largest nonce. */
  predicate Wraps(s: seq<Txn>, cap: nat, op: Op)
    requires ListOk(s)
  {
    && op.Submit? && AtTop(s) && Offset(s, op.txn.nonce).None?
    && Submitted(s, cap, op.txn, op.ledgerNonce, op.vetoed).Ok?
  }

  /** Every operation keeps the list within its capacity, and in order exactly when it does not append
      after the largest nonce. */
  lemma AfterKeeps(s: seq<Txn>, cap: nat, op: Op)
    requires ListOk(s) && Typed(op)
    ensures ListOk(After(s, cap, op)) <==> !Wraps(s, cap, op)
    ensures |After(s, cap, op)| <= if |s| > cap then |s| else cap
  {
    hide DistinctHashes, Consecutive, HasHash, InRange;
    match op
    case Submit(t, ledgerNonce, vetoed) =>
      if Submitted(s, cap, t, ledgerNonce, vetoed).Ok? {
        SubmittedKeeps(s, cap, t, ledgerNonce, vetoed);
      }
    case Remove(nonce) =>
      RemovedKeeps(s, nonce);
    case Drop(hash) =>
      if s != [] {
        SliceKeeps(s, 0, |s| - 1);
        assert s[0..|s| - 1] == s[..|s| - 1];
      }
  }

  /** The list after a run, unless some operation appended after the largest nonce. */
  function Run(cap: nat, ops: seq<Op>): (s: Option<seq<Txn>>)
    requires forall i :: 0 <= i < |ops| ==> Typed(ops[i])
    ensures s.Some? ==> ListOk(s.value)
  {
    if ops == [] then Some([])
    else
      var before := Run(cap, ops[..|ops| - 1]);
      if before.None? || Wraps(before.value, cap, ops[|ops| - 1]) then None
      else
        AfterKeeps(before.value, cap, ops[|ops| - 1]);
        Some(After(before.value, cap, ops[|ops| - 1]))
  }

  /** However the operations interleave, as long as none appends after the largest nonce, the list
      never outgrows its capacity and looking up a nonce finds what a search finds. */
  lemma {:induction false} RunIsOrdered(cap: nat, ops: seq<Op>, nonce: nat)
    requires (forall i :: 0 <= i < |ops| ==> Typed(ops[i])) && Run(cap, ops).Some?
    ensures |Run(cap, ops).value| <= cap
    ensures var s := Run(cap, ops).value;
      Search(s, nonce) == if Offset(s, nonce).Some? then Some(s[Offset(s, nonce).value]) else None
  {
    hide After, Wraps, Typed;
    OffsetIsSearch(Run(cap, ops).value, nonce);
    if ops == [] {
    } else {
      var before := ops[..|ops| - 1];
      RunIsOrdered(cap, before, nonce);
      AfterKeeps(Run(cap, before).value, cap, ops[|ops| - 1]);
    }
  }

  /** The operation leaves the transaction alone: another nonce, an earlier one, another hash. */
  predicate Spares(op: Op, t: Txn) {
    match op
    case Submit(other, _, _) => other.nonce != t.nonce
    case Remove(nonce) => nonce < t.nonce
    case Drop(hash) => hash != 0 && hash != t.hash
  }

  lemma AfterSpares(s: seq<Txn>, cap: nat, op: Op, t: Txn)
    requires ListOk(s) && Search(s, t.nonce) == Some(t) && Spares(op, t)
    ensures Search(After(s, cap, op), t.nonce) == Some(t)
  {
    hide ListOk, Search, Submitted, Removed, Dropped;
    match op
    case Submit(other, ledgerNonce, vetoed) =>
      if Submitted(s, cap, other, ledgerNonce, vetoed).Ok? {
        SubmittedIsFound(s, cap, other, ledgerNonce, vetoed, t.nonce);
      }
    case Remove(nonce) =>
      RemovedKeepsLater(s, nonce, t.nonce);
    case Drop(hash) =>
      DroppedIsLast(s, hash, t.nonce);
      if s != [] {
        LastIsFound(s);
      }
  }

  lemma LastIsFound(s: seq<Txn>)
    requires ListOk(s) && s != []
    ensures Search(s, s[|s| - 1].nonce) == Some(s[|s| - 1])
  {
    SearchFinds(s, s[|s| - 1].nonce, |s| - 1);
  }

  /** A submitted transaction stays findable until its nonce is submitted again, cleaned, or dropped. */
  lemma {:induction false} SubmittedStays(cap: nat, ops: seq<Op>, i: nat)
    requires (forall k :: 0 <= k < |ops| ==> Typed(ops[k])) && Run(cap, ops).Some? && i < |ops| && ops[i].Submit?
    requires Run(cap, ops[..i]).Some?
    requires Submitted(Run(cap, ops[..i]).value, cap, ops[i].txn, ops[i].ledgerNonce, ops[i].vetoed).Ok?
    requires forall k :: i < k < |ops| ==> Spares(ops[k], ops[i].txn)
    ensures Search(Run(cap, ops).value, ops[i].txn.nonce) == Some(ops[i].txn)
    decreases |ops|
  {
    hide ListOk, Typed, Search, Submitted, Spares, Wraps;
    var before, op, t := ops[..|ops| - 1], ops[|ops| - 1], ops[i].txn;
    if i == |ops| - 1 {
      SubmittedIsFound(Run(cap, before).value, cap, t, op.ledgerNonce, op.vetoed, t.nonce);
    } else {
      assert before[..i] == ops[..i];
      SubmittedStays(cap, before, i);
      AfterSpares(Run(cap, before).value, cap, op, t);
    }
  }

  /** In particular when the largest nonce is never submitted. */
  lemma {:induction false} RunNeverWraps(cap: nat, ops: seq<Op>)
    requires forall i :: 0 <= i < |ops| ==> Typed(ops[i]) && (ops[i].Submit? ==> ops[i].txn.nonce < TWO_64 - 1)
    ensures Run(cap, ops).Some? && forall t :: t in Run(cap, ops).value ==> t.nonce < TWO_64 - 1
  {
    hide ListOk, HasHash;
    if ops == [] {
    } else {
      RunNeverWraps(cap, ops[..|ops| - 1]);
      var s, op := Run(cap, ops[..|ops| - 1]).value, ops[|ops| - 1];
      assert s != [] ==> s[|s| - 1] in s;
      AfterKeepsNonces(s, cap, op);
    }
  }

  /** So a run that never submits the largest nonce is ordered, whatever else it does. */
  lemma RunBelowTopIsOrdered(cap: nat, ops: seq<Op>, nonce: nat)
    requires forall i :: 0 <= i < |ops| ==> Typed(ops[i]) && (ops[i].Submit? ==> ops[i].txn.nonce < TWO_64 - 1)
    ensures Run(cap, ops).Some? && |Run(cap, ops).value| <= cap && ListOk(Run(cap, ops).value)
    ensures var s := Run(cap, ops).value;
      Search(s, nonce) == if Offset(s, nonce).Some? then Some(s[Offset(s, nonce).value]) else None
  {
    hide Run, Search;
    RunNeverWraps(cap, ops);
    RunIsOrdered(cap, ops, nonce);
  }

  /** Nothing comes into the list but what is submitted. */
  lemma AfterKeepsNonces(s: seq<Txn>, cap: nat, op: Op)
    requires ListOk(s)
    ensures forall t :: t in After(s, cap, op) ==> t in s || (op.Submit? && t == op.txn)
  {
    hide ListOk, HasHash, PopCount, Expected;
    match op
    case Submit(t, ledgerNonce, vetoed) =>
    case Remove(nonce) =>
    case Drop(hash) =>
  }

  /** At the largest nonce the next expected nonce wraps to zero, and the list is out of order. */
  lemma WrapBreaksOrder()
    ensures var top := Txn(1, 0, TransferAsset(0, 0), TWO_64 - 1, 0, 1);
      var next := Txn(2, 0, TransferAsset(0, 0), 0, 0, 1);
      ListOk([top]) && Submitted([top], 2, next, 0, false) == Ok([top, next]) && !ListOk([top, next])
  {
    var top := Txn(1, 0, TransferAsset(0, 0), TWO_64 - 1, 0, 1);
    var next := Txn(2, 0, TransferAsset(0, 0), 0, 0, 1);
    assert [top] + [next] == [top, next];
    assert [top, next][1].nonce != [top, next][0].nonce + 1;
  }
}
