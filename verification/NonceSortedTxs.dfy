/** NonceSortedTxs: the index of hashes and the map of transactions it stands for. */
module NonceLists {
  import opened Common
  import opened Transactions
  import L = TxLists

  type TxMap = map<Uint256, Txn>

  /** Index and map agree; the map holds nothing else. */
  ghost predicate IndexOk(txs: TxMap, idx: seq<Uint256>) {
    && (forall i, j :: 0 <= i < j < |idx| ==> idx[i] != idx[j])
    && (forall i :: 0 <= i < |idx| ==> idx[i] in txs)
    && (forall h :: h in txs ==> h in idx && txs[h].hash == h)
  }

  /** The transactions an index stands for. */
  ghost function Listed(txs: TxMap, idx: seq<Uint256>): (s: seq<Txn>)
    requires IndexOk(txs, idx)
    ensures |s| == |idx| && forall i :: 0 <= i < |idx| ==> s[i] == txs[idx[i]]
  {
    seq(|idx|, i requires 0 <= i < |idx| && idx[i] in txs => txs[idx[i]])
  }

  lemma Appended(txs: TxMap, idx: seq<Uint256>, tx: Txn)
    requires IndexOk(txs, idx) && tx.hash !in txs
    ensures IndexOk(txs[tx.hash := tx], idx + [tx.hash])
    ensures Listed(txs[tx.hash := tx], idx + [tx.hash]) == Listed(txs, idx) + [tx]
  {
    var all := idx + [tx.hash];
    assert all[|idx|] == tx.hash;
    assert forall h :: h in idx ==> h in all;
  }

  lemma AppendedTwice(txs: TxMap, idx: seq<Uint256>, tx: Txn)
    requires IndexOk(txs, idx) && tx.hash in txs
    ensures !IndexOk(txs[tx.hash := tx], idx + [tx.hash])
  {
    var all := idx + [tx.hash];
    var i :| 0 <= i < |idx| && idx[i] == tx.hash;
    assert all[i] == all[|idx|];
  }

  function Elements(s: seq<Uint256>): set<Uint256> {
    set h | h in s
  }

  /** The first n leave. */
  lemma CutFront(txs: TxMap, idx: seq<Uint256>, n: nat)
    requires IndexOk(txs, idx) && n <= |idx|
    ensures IndexOk(txs - Elements(idx[..n]), idx[n..]) && Listed(txs - Elements(idx[..n]), idx[n..]) == Listed(txs, idx)[n..]
  {
    var gone, kept := Elements(idx[..n]), idx[n..];
    forall k | 0 <= k < n ensures idx[k] in gone {
      assert idx[..n][k] == idx[k];
    }
    assert forall k :: n <= k < |idx| ==> kept[k - n] == idx[k];
    assert forall k :: 0 <= k < |kept| ==> kept[k] == idx[n + k];
    assert forall k :: 0 <= k < |kept| ==> kept[k] !in gone;
    forall h | h in txs - gone ensures h in kept {
      var k :| 0 <= k < |idx| && idx[k] == h;
    }
  }

  /** Distinct hashes that are all in the map. */
  ghost predicate AllStored(txs: TxMap, hashes: seq<Uint256>) {
    && (forall i, j :: 0 <= i < j < |hashes| ==> hashes[i] != hashes[j])
    && (forall i :: 0 <= i < |hashes| ==> hashes[i] in txs)
  }

  ghost function Stored(txs: TxMap, hashes: seq<Uint256>): (s: seq<Txn>)
    requires AllStored(txs, hashes)
    ensures |s| == |hashes| && forall i :: 0 <= i < |s| ==> s[i] == txs[hashes[i]]
  {
    seq(|hashes|, i requires 0 <= i < |hashes| && hashes[i] in txs => txs[hashes[i]])
  }

  lemma FrontIsStored(txs: TxMap, idx: seq<Uint256>, n: nat)
    requires IndexOk(txs, idx) && n <= |idx|
    ensures AllStored(txs, idx[..n]) && Stored(txs, idx[..n]) == Listed(txs, idx)[..n]
  {
  }

  /** The last one leaves. */
  lemma CutLast(txs: TxMap, idx: seq<Uint256>)
    requires IndexOk(txs, idx) && idx != []
    ensures var n := |idx| - 1;
      IndexOk(txs - {idx[n]}, idx[..n]) && Listed(txs - {idx[n]}, idx[..n]) == Listed(txs, idx)[..n]
  {
    var n := |idx| - 1;
    forall h | h in txs - {idx[n]} ensures h in idx[..n] {
      var k :| 0 <= k < |idx| && idx[k] == h;
      assert idx[..n][k] == h;
    }
  }

  lemma Overwritten(txs: TxMap, idx: seq<Uint256>, k: nat, tx: Txn)
    requires IndexOk(txs, idx) && k < |idx| && (tx.hash !in txs || idx[k] == tx.hash)
    ensures var after := (txs - {idx[k]})[tx.hash := tx];
      IndexOk(after, idx[k := tx.hash]) && Listed(after, idx[k := tx.hash]) == Listed(txs, idx)[k := tx]
  {
    var after := (txs - {idx[k]})[tx.hash := tx];
    var changed := idx[k := tx.hash];
    assert changed[k] == tx.hash;
    forall h | h in after && h != tx.hash ensures h in changed {
      var i :| 0 <= i < |idx| && idx[i] == h;
      assert changed[i] == h;
    }
  }

  lemma OverwrittenTwice(txs: TxMap, idx: seq<Uint256>, k: nat, tx: Txn)
    requires IndexOk(txs, idx) && k < |idx| && tx.hash in txs && idx[k] != tx.hash
    ensures !IndexOk((txs - {idx[k]})[tx.hash := tx], idx[k := tx.hash])
  {
    var changed := idx[k := tx.hash];
    var i :| 0 <= i < |idx| && idx[i] == tx.hash;
    assert changed[i] == changed[k];
  }

  lemma KeysAreHashes(txs: TxMap, idx: seq<Uint256>, hash: Uint256)
    requires IndexOk(txs, idx)
    ensures hash in txs <==> L.HasHash(Listed(txs, idx), hash)
  {
    var all := Listed(txs, idx);
    if hash in txs {
      var i :| 0 <= i < |idx| && idx[i] == hash;
      assert all[i].hash == hash;
    }
    forall i | 0 <= i < |all| ensures all[i].hash == idx[i] {
      assert txs[idx[i]].hash == idx[i];
    }
  }

  class NonceSortedTxs {
    var txs: map<Uint256, Txn>
    var idx: seq<Uint256>
    const cap: nat

    ghost predicate Indexed()
      reads this
    {
      IndexOk(txs, idx)
    }

    ghost function Contents(): seq<Txn>
      reads this
      requires Indexed()
    {
      Listed(txs, idx)
    }

    ghost predicate Valid()
      reads this
    {
      Indexed() && L.ListOk(Contents())
    }

    constructor (cap: nat)
      ensures Valid() && Contents() == [] && this.cap == cap
    {
      txs, idx, this.cap := map[], [], cap;
    }

    /** The list grows by one, and stays indexed exactly when the hash is new. */
    method Push(tx: Txn)
      requires Indexed()
      modifies this
      ensures idx == old(idx) + [tx.hash] && txs == old(txs)[tx.hash := tx]
      ensures Indexed() <==> tx.hash !in old(txs)
      ensures Indexed() ==> Contents() == old(Contents()) + [tx]
    {
      hide IndexOk, Listed;
      if tx.hash !in txs {
        Appended(txs, idx, tx);
      } else {
        AppendedTwice(txs, idx, tx);
      }
      idx := idx + [tx.hash];
      txs := txs[tx.hash := tx];
    }

    /** The first n transactions leave, in order. */
    method PopN(n: nat) returns (popped: seq<Txn>)
      requires Indexed() && n <= |idx|
      modifies this
      ensures Indexed() && popped == old(Contents())[..n] && Contents() == old(Contents())[n..]
    {
      CutFront(txs, idx, n);
      var hashes := idx[..n];
      FrontIsStored(txs, idx, n);
      hide IndexOk;
      idx := idx[n..];
      popped := TakeOut(hashes);
    }

    /** The transactions with these hashes leave the map. */
    method TakeOut(hashes: seq<Uint256>) returns (taken: seq<Txn>)
      requires AllStored(txs, hashes)
      modifies this`txs
      ensures txs == old(txs) - Elements(hashes)
      ensures taken == Stored(old(txs), hashes)
    {
      taken := [];
      for i := 0 to |hashes|
        invariant txs == old(txs) - Elements(hashes[..i])
        invariant taken == Stored(old(txs), hashes)[..i]
      {
        assert hashes[i] !in hashes[..i];
        taken := taken + [txs[hashes[i]]];
        txs := txs - {hashes[i]};
        assert hashes[..i + 1] == hashes[..i] + [hashes[i]];
      }
      assert hashes[..|hashes|] == hashes;
    }

    /** Drop: the last transaction, if it is the one named. */
    method Drop(hash: Uint256) returns (tx: Option<Txn>)
      requires Indexed()
      modifies this
      ensures Indexed() && Contents() == L.Dropped(old(Contents()), hash)
      ensures tx == if |idx| < |old(idx)| then Some(old(Contents())[|idx|]) else None
    {
      if idx == [] {
        return None;
      }
      var last := idx[|idx| - 1];
      assert last in txs && txs[last].hash == last;
      CutLast(txs, idx);
      hide IndexOk;
      if hash != 0 && last != hash {
        return None;
      }
      tx := Some(txs[last]);
      idx := idx[..|idx| - 1];
      txs := txs - {last};
    }

    /** GetByNonce finds by offset what a search through the list finds. */
    method GetByNonce(nonce: nat) returns (tx: Option<Txn>)
      requires Valid()
      ensures tx == L.Search(Contents(), nonce)
      ensures var k := L.Offset(Contents(), nonce);
        tx == if k.Some? then Some(Contents()[k.value]) else None
    {
      L.OffsetIsSearch(Contents(), nonce);
      if idx == [] || nonce < txs[idx[0]].nonce || nonce > txs[idx[|idx| - 1]].nonce {
        return None;
      }
      var hash := idx[nonce - txs[idx[0]].nonce];
      tx := Some(txs[hash]);
    }

    /** The transaction with the same nonce gives way; the list stays indexed exactly when no other entry
        has the new hash. */
    method Replace(tx: Txn) returns (replaced: bool)
      requires Valid()
      modifies this
      ensures var k := L.Offset(old(Contents()), tx.nonce);
        && (replaced <==> k.Some?)
        && (!replaced ==> idx == old(idx) && txs == old(txs))
        && (replaced ==>
            && idx == old(idx)[k.value := tx.hash] && txs == (old(txs) - {old(idx)[k.value]})[tx.hash := tx]
            && (Indexed() <==> tx.hash !in old(txs) || old(idx)[k.value] == tx.hash)
            && (Indexed() ==> Contents() == old(Contents())[k.value := tx]))
    {
      if idx == [] || tx.nonce < txs[idx[0]].nonce || tx.nonce > txs[idx[|idx| - 1]].nonce {
        return false;
      }
      ghost var all := Contents();
      var k := tx.nonce - txs[idx[0]].nonce;
      assert L.Offset(all, tx.nonce) == Some(k);
      Overwrite(k, tx);
      replaced := true;
    }

    method Overwrite(k: nat, tx: Txn)
      requires Indexed() && k < |idx|
      modifies this
      ensures idx == old(idx)[k := tx.hash] && txs == (old(txs) - {old(idx)[k]})[tx.hash := tx]
      ensures Indexed() <==> tx.hash !in old(txs) || old(idx)[k] == tx.hash
      ensures Indexed() ==> Contents() == old(Contents())[k := tx]
    {
      hide IndexOk, Listed;
      var orig := idx[k];
      if tx.hash !in txs || orig == tx.hash {
        Overwritten(txs, idx, k, tx);
      } else {
        OverwrittenTwice(txs, idx, k, tx);
      }
      idx := idx[k := tx.hash];
      txs := (txs - {orig})[tx.hash := tx];
    }

    /** processTx for an ordinary transaction of this account. */
    method Submit(tx: Txn, ledgerNonce: nat, vetoed: bool) returns (e: Option<L.ListError>)
      requires Valid() && tx.nonce < TWO_64
      modifies this
      ensures Indexed()
      ensures var r := L.Submitted(old(Contents()), cap, tx, ledgerNonce, vetoed);
        if r.Ok? then e.None? && Contents() == r.value else e == Some(r.error) && Contents() == old(Contents())
      ensures Valid() <==> !L.Wraps(old(Contents()), cap, L.Submit(tx, ledgerNonce, vetoed))
    {
      hide L.ListOk, L.Search;
      KeysAreHashes(txs, idx, tx.hash);
      if tx.hash in txs {
        return Some(L.Duplicate);
      }
      ghost var all := Contents();
      if L.Submitted(all, cap, tx, ledgerNonce, vetoed).Ok? {
        L.SubmittedKeeps(all, cap, tx, ledgerNonce, vetoed);
      }
      var found := GetByNonce(tx.nonce);
      if found.Some? {
        if vetoed {
          return Some(L.Vetoed);
        }
        var _ := Replace(tx);
        return None;
      }
      if |idx| >= cap {
        return Some(L.Full);
      }
      var expected := if idx == [] then ledgerNonce else (txs[idx[|idx| - 1]].nonce + 1) % TWO_64;
      if tx.nonce != expected {
        return Some(L.NotContinuous);
      }
      if vetoed {
        return Some(L.Vetoed);
      }
      Push(tx);
      e := None;
    }

    method FirstNonce() returns (nonce: nat)
      requires Indexed() && idx != []
      ensures nonce == Contents()[0].nonce
    {
      nonce := txs[idx[0]].nonce;
    }

    /** What CleanSubmittedTransactions does for a block's transaction of this account. */
    method RemoveUpTo(nonce: nat) returns (removed: seq<Txn>)
      requires Valid()
      modifies this
      ensures Valid() && Contents() == L.Removed(old(Contents()), nonce) && removed + Contents() == old(Contents())
    {
      hide L.ListOk, L.Search, L.PopCount, IndexOk;
      ghost var all := Contents();
      L.RemovedKeeps(all, nonce);
      var found := GetByNonce(nonce);
      if found.None? {
        return [];
      }
      var first := FirstNonce();
      var n := L.PopCount(nonce - first);
      removed := PopN(n);
      assert all[..n] + all[n..] == all;
    }
  }
}
