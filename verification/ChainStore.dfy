/** The part of ChainStore that saves and rolls back blocks, as it updates itself. */
module BlockStore {
  import opened Common
  import opened Transactions
  import opened Ledger
  import opened Persistence

  class ChainStore {
    var db: Database
    var batch: Batch
    var currentBlockHeight: nat
    var currentBlockHash: Uint256
    var statesRoot: Uint256

    ghost function View(): Disk
      reads this
    {
      Disk(db, currentBlockHeight, currentBlockHash, statesRoot)
    }

    constructor (d: Disk)
      ensures View() == d
    {
      db, batch, currentBlockHeight, currentBlockHash, statesRoot := d.db, map[], d.height, d.hash, d.root;
    }

    method NewBatch()
      modifies this`batch
      ensures batch == map[]
    {
      batch := map[];
    }

    method BatchPut(key: Key, value: Value)
      modifies this`batch
      ensures batch == old(batch)[key := Some(value)]
    {
      batch := batch[key := Some(value)];
    }

    method BatchDelete(key: Key)
      modifies this`batch
      ensures batch == old(batch)[key := None]
    {
      batch := batch[key := None];
    }

    /** BatchCommit writes the batch key by key. */
    method BatchCommit()
      modifies this`db
      ensures db == Committed(old(db), batch)
    {
      hide Committed;
      var rest := batch;
      while rest != map[]
        invariant Committed(db, rest) == Committed(old(db), batch)
        decreases |rest|
      {
        var k :| k in rest;
        CommitStep(db, rest, k);
        if rest[k].Some? {
          db := db[k := rest[k].value];
        } else {
          db := db - {k};
        }
        rest := rest - {k};
      }
      CommitNothing(db);
    }

    /** The transaction entries of persist: stops at an unsupported payload. */
    method PutTransactions(b: StoredBlock) returns (e: Option<DiskError>)
      requires batch == map[]
      modifies this`batch
      ensures e.Some? <==> exists i :: 0 <= i < |b.txns| && !b.txns[i].supported
      ensures e.Some? ==> e.value == UnsupportedTxn
      ensures e.None? ==> batch == TxnBatch(b, |b.txns|)
    {
      for i := 0 to |b.txns|
        invariant batch == TxnBatch(b, i)
        invariant forall k :: 0 <= k < i ==> b.txns[k].supported
      {
        BatchPut(TransactionKey(b.txns[i].hash), TxnValue(b.header.height, b.txns[i].hash));
        if !b.txns[i].supported {
          return Some(UnsupportedTxn);
        }
      }
      e := None;
    }

    /** SaveBlock without fast sync; execution is what generateStateRoot and CalcNextDonation give. */
    method SaveBlock(b: StoredBlock, execution: Option<Executed>) returns (e: Option<DiskError>)
      modifies this
      ensures var r := Saved(old(View()), b, execution);
        if r.Ok? then e.None? && View() == r.value else e == Some(r.error) && View() == old(View())
    {
      hide Committed, TxnBatch, RecordsDonation;
      NewBatch();
      e := PutTransactions(b);
      if e.Some? {
        return;
      }
      var h := b.header;
      BatchPut(HeaderKey(h.hash), HeaderValue(h));
      BatchPut(BlockHashKey(h.height), HashValue(h.hash));
      if execution.None? {
        return Some(ExecutionFailed);
      }
      if execution.value.root != h.stateRoot {
        return Some(StateRootMismatch);
      }
      BatchPut(CurrentStateTrie, RootValue(execution.value.root));
      BatchPut(CurrentBlockHashKey, CurrentBlockValue(h.hash, h.height));
      if RecordsDonation(h.height) {
        if execution.value.donation.None? {
          return Some(NoDonationYet);
        }
        BatchPut(DonationKey(h.height), DonationValue(execution.value.donation.value));
      }
      assert batch == PersistBatch(b, execution.value);
      BatchCommit();
      statesRoot := execution.value.root;
      currentBlockHeight, currentBlockHash := h.height, h.hash;
    }

    method DeleteTransactions(b: StoredBlock)
      requires batch == map[]
      modifies this`batch
      ensures batch == TxnDeletes(b, |b.txns|)
    {
      for i := 0 to |b.txns|
        invariant batch == TxnDeletes(b, i)
      {
        BatchDelete(TransactionKey(b.txns[i].hash));
      }
    }

    /** Rollback */
    method Rollback(b: StoredBlock) returns (e: Option<DiskError>)
      modifies this
      ensures var r := RolledBack(old(View()), b);
        if r.Ok? then e.None? && View() == r.value else e == Some(r.error) && View() == old(View())
    {
      hide Committed, TxnDeletes, RecordsDonation;
      NewBatch();
      var h := b.header;
      if h.height == 0 {
        return Some(GenesisBlock);
      }
      DeleteTransactions(b);
      BatchDelete(HeaderKey(h.hash));
      BatchDelete(BlockHashKey(h.height));
      var prev := HeaderOf(db, h.prevHash);
      if prev.None? {
        return Some(NoHeader);
      }
      BatchPut(CurrentStateTrie, RootValue(prev.value.stateRoot));
      BatchPut(CurrentBlockHashKey, CurrentBlockValue(h.prevHash, h.height - 1));
      if RecordsDonation(h.height) {
        BatchDelete(DonationKey(h.height));
      }
      assert batch == RollbackBatch(b, prev.value.stateRoot);
      BatchCommit();
      statesRoot := prev.value.stateRoot;
      currentBlockHeight, currentBlockHash := h.height - 1, h.prevHash;
      e := None;
    }
  }

  lemma CommitNothing(db: Database)
    ensures Committed(db, map[]) == db
  {
  }

  /** Writing one key of a batch first does not change what the batch leaves. */
  lemma CommitStep(db: Database, batch: Batch, k: Key)
    requires k in batch
    ensures var after := if batch[k].Some? then db[k := batch[k].value] else db - {k};
      Committed(after, batch - {k}) == Committed(db, batch)
  {
  }
}
