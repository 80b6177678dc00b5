/** Saving a block and rolling it back, on values: batches of puts and deletes over a key-value
    database, and the chain tip held in memory. */
module Persistence {
  import opened Common
  import opened Transactions
  import opened Ledger

  datatype Header = Header(hash: Uint256, prevHash: Uint256, height: nat, stateRoot: Uint256)

  /** A stored transaction is known by its hash; supported says its payload type is a known one. */
  datatype StoredTxn = StoredTxn(hash: Uint256, supported: bool)

  datatype StoredBlock = StoredBlock(header: Header, txns: seq<StoredTxn>)

  datatype Key =
    | HeaderKey(hash: Uint256)
    | BlockHashKey(height: nat)
    | TransactionKey(hash: Uint256)
    | DonationKey(height: nat)
    | CurrentBlockHashKey
    | CurrentStateTrie

  datatype Value =
    | HeaderValue(header: Header)
    | HashValue(hash: Uint256)
    | TxnValue(height: nat, hash: Uint256)
    | DonationValue(donation: Donation)
    | CurrentBlockValue(hash: Uint256, height: nat)
    | RootValue(root: Uint256)

  type Database = map<Key, Value>

  /** The last write to a key counts; None deletes. */
  type Batch = map<Key, Option<Value>>

  /** The database and what the store keeps in memory: tip height and hash, and the state's root. */
  datatype Disk = Disk(db: Database, height: nat, hash: Uint256, root: Uint256)

  /** What executing the block gives: the state root, and the donation CalcNextDonation would record. */
  datatype Executed = Executed(root: Uint256, donation: Option<Donation>)

  datatype DiskError = UnsupportedTxn | ExecutionFailed | StateRootMismatch | NoDonationYet | GenesisBlock | NoHeader

  function Committed(db: Database, batch: Batch): Database {
    map k | k in db.Keys + batch.Keys && (k in batch ==> batch[k].Some?) :: if k in batch then batch[k].value else db[k]
  }

  // ----- Saving -----

  /** The transaction entries of the first n transactions. */
  function TxnBatch(b: StoredBlock, n: nat): Batch
    requires n <= |b.txns|
  {
    if n == 0 then map[]
    else TxnBatch(b, n - 1)[TransactionKey(b.txns[n - 1].hash) := Some(TxnValue(b.header.height, b.txns[n - 1].hash))]
  }

  predicate RecordsDonationAt(b: StoredBlock) {
    RecordsDonation(b.header.height)
  }

  function PersistBatch(b: StoredBlock, e: Executed): Batch
    requires RecordsDonationAt(b) ==> e.donation.Some?
  {
    var h := b.header;
    var chain := TxnBatch(b, |b.txns|)[HeaderKey(h.hash) := Some(HeaderValue(h))][BlockHashKey(h.height) := Some(HashValue(h.hash))]
      [CurrentStateTrie := Some(RootValue(e.root))][CurrentBlockHashKey := Some(CurrentBlockValue(h.hash, h.height))];
    if RecordsDonationAt(b) then chain[DonationKey(h.height) := Some(DonationValue(e.donation.value))] else chain
  }

  /** persist without fast sync, up to the commit; e is None when execution fails. */
  function PersistError(b: StoredBlock, e: Option<Executed>): Option<DiskError> {
    if exists i :: 0 <= i < |b.txns| && !b.txns[i].supported then Some(UnsupportedTxn)
    else if e.None? then Some(ExecutionFailed)
    else if e.value.root != b.header.stateRoot then Some(StateRootMismatch)
    else if RecordsDonationAt(b) && e.value.donation.None? then Some(NoDonationYet)
    else None
  }

  /** SaveBlock, without the caches and the pruning */
  function Saved(d: Disk, b: StoredBlock, e: Option<Executed>): Result<Disk, DiskError> {
    var error := PersistError(b, e);
    if error.Some? then Err(error.value)
    else Ok(Disk(Committed(d.db, PersistBatch(b, e.value)), b.header.height, b.header.hash, e.value.root))
  }

  // ----- Rolling back -----

  function TxnDeletes(b: StoredBlock, n: nat): Batch
    requires n <= |b.txns|
  {
    if n == 0 then map[] else TxnDeletes(b, n - 1)[TransactionKey(b.txns[n - 1].hash) := None]
  }

  function RollbackBatch(b: StoredBlock, prevRoot: Uint256): Batch
    requires b.header.height > 0
  {
    var h := b.header;
    var chain := TxnDeletes(b, |b.txns|)[HeaderKey(h.hash) := None][BlockHashKey(h.height) := None]
      [CurrentStateTrie := Some(RootValue(prevRoot))][CurrentBlockHashKey := Some(CurrentBlockValue(h.prevHash, h.height - 1))];
    if RecordsDonationAt(b) then chain[DonationKey(h.height) := None] else chain
  }

  function HeaderOf(db: Database, hash: Uint256): Option<Header> {
    if HeaderKey(hash) in db && db[HeaderKey(hash)].HeaderValue? then Some(db[HeaderKey(hash)].header) else None
  }

  /** Rollback, without the caches and the reference counts */
  function RolledBack(d: Disk, b: StoredBlock): Result<Disk, DiskError> {
    if b.header.height == 0 then Err(GenesisBlock)
    else
      var prev := HeaderOf(d.db, b.header.prevHash);
      if prev.None? then Err(NoHeader)
      else
        var root := prev.value.stateRoot;
        Ok(Disk(Committed(d.db, RollbackBatch(b, root)), b.header.height - 1, b.header.prevHash, root))
  }

  // ----- Rollback undoes saving -----

  lemma {:induction false} TxnKeys(b: StoredBlock, n: nat, k: Key)
    requires n <= |b.txns|
    ensures k in TxnBatch(b, n) <==> k in TxnDeletes(b, n)
    ensures k in TxnBatch(b, n) ==> k.TransactionKey? && TxnBatch(b, n)[k].Some? && TxnDeletes(b, n)[k].None?
    decreases n
  {
    if n == 0 {
    } else {
      TxnKeys(b, n - 1, k);
    }
  }

  /** The two batches touch the same keys: rollback deletes what saving put, the two current entries aside. */
  lemma BatchesPair(b: StoredBlock, e: Executed, prevRoot: Uint256, k: Key)
    requires b.header.height > 0 && (RecordsDonationAt(b) ==> e.donation.Some?)
    ensures k in PersistBatch(b, e) <==> k in RollbackBatch(b, prevRoot)
    ensures k in PersistBatch(b, e) ==> PersistBatch(b, e)[k].Some?
    ensures k in PersistBatch(b, e) && k != CurrentStateTrie && k != CurrentBlockHashKey ==> RollbackBatch(b, prevRoot)[k].None?
    ensures CurrentStateTrie in RollbackBatch(b, prevRoot) && CurrentBlockHashKey in RollbackBatch(b, prevRoot)
    ensures RollbackBatch(b, prevRoot)[CurrentStateTrie] == Some(RootValue(prevRoot))
    ensures RollbackBatch(b, prevRoot)[CurrentBlockHashKey] == Some(CurrentBlockValue(b.header.prevHash, b.header.height - 1))
  {
    hide TxnBatch, TxnDeletes, RecordsDonationAt;
    TxnKeys(b, |b.txns|, k);
  }

  /** None of the entries saving the block adds is there yet. */
  predicate Fresh(db: Database, b: StoredBlock, e: Executed)
    requires RecordsDonationAt(b) ==> e.donation.Some?
  {
    forall k :: k in PersistBatch(b, e) && k != CurrentStateTrie && k != CurrentBlockHashKey ==> k !in db
  }

  /** The block extends the tip, and the current entries describe the tip. */
  predicate Extends(d: Disk, b: StoredBlock) {
    && b.header.height == d.height + 1 && b.header.prevHash == d.hash
    && HeaderOf(d.db, d.hash).Some? && HeaderOf(d.db, d.hash).value.stateRoot == d.root
    && CurrentStateTrie in d.db && d.db[CurrentStateTrie] == RootValue(d.root)
    && CurrentBlockHashKey in d.db && d.db[CurrentBlockHashKey] == CurrentBlockValue(d.hash, d.height)
  }

  lemma PrevHeaderStays(d: Disk, b: StoredBlock, e: Executed)
    requires (RecordsDonationAt(b) ==> e.donation.Some?) && Fresh(d.db, b, e) && HeaderOf(d.db, b.header.prevHash).Some?
    ensures HeaderOf(Committed(d.db, PersistBatch(b, e)), b.header.prevHash) == HeaderOf(d.db, b.header.prevHash)
  {
    hide TxnBatch, RecordsDonationAt, PersistBatch;
  }

  /** Rolling back the block just saved restores database, tip and state root. */
  lemma RollbackUndoesSave(d: Disk, b: StoredBlock, e: Executed)
    requires PersistError(b, Some(e)).None? && Fresh(d.db, b, e) && Extends(d, b)
    ensures RolledBack(Saved(d, b, Some(e)).value, b) == Ok(d)
  {
    hide PersistBatch, RollbackBatch, PersistError, RecordsDonationAt;
    DonationReady(b, e);
    PrevHeaderStays(d, b, e);
    var put, undo := PersistBatch(b, e), RollbackBatch(b, d.root);
    var saved := Committed(d.db, put);
    forall k ensures (k in Committed(saved, undo) <==> k in d.db) && (k in d.db ==> Committed(saved, undo)[k] == d.db[k]) {
      BatchesPair(b, e, d.root, k);
    }
    assert Committed(saved, undo) == d.db;
  }

  lemma DonationReady(b: StoredBlock, e: Executed)
    requires PersistError(b, Some(e)).None?
    ensures RecordsDonationAt(b) ==> e.donation.Some?
  {
  }

  /** Saving then rolling back restores everything if and only if the block's own entries are new and
      it extends the tip the database describes. */
  lemma RollbackIsExact(d: Disk, b: StoredBlock, e: Executed)
    requires PersistError(b, Some(e)).None? && b.header.height > 0 && b.header.prevHash != b.header.hash
    ensures RolledBack(Saved(d, b, Some(e)).value, b) == Ok(d) <==> Fresh(d.db, b, e) && Extends(d, b)
  {
    hide PersistBatch, RollbackBatch, PersistError, RecordsDonationAt;
    DonationReady(b, e);
    if Fresh(d.db, b, e) && Extends(d, b) {
      RollbackUndoesSave(d, b, e);
    }
    var saved := Saved(d, b, Some(e)).value;
    if RolledBack(saved, b) == Ok(d) {
      var root := HeaderOf(saved.db, b.header.prevHash).value.stateRoot;
      forall k | k in PersistBatch(b, e) && k != CurrentStateTrie && k != CurrentBlockHashKey ensures k !in d.db {
        BatchesPair(b, e, root, k);
      }
      BatchesPair(b, e, root, CurrentStateTrie);
      OtherHeadersStay(b, e, b.header.prevHash);
    }
  }

  lemma OtherHeadersStay(b: StoredBlock, e: Executed, hash: Uint256)
    requires (RecordsDonationAt(b) ==> e.donation.Some?) && hash != b.header.hash
    ensures HeaderKey(hash) !in PersistBatch(b, e)
  {
    hide TxnBatch, RecordsDonationAt;
    TxnKeys(b, |b.txns|, HeaderKey(hash));
  }

  /** A saved block is the tip the next one extends. */
  lemma SaveMovesTip(d: Disk, b: StoredBlock, e: Executed, next: StoredBlock)
    requires PersistError(b, Some(e)).None?
    requires next.header.height == b.header.height + 1 && next.header.prevHash == b.header.hash
    ensures Extends(Saved(d, b, Some(e)).value, next)
  {
    hide TxnBatch, RecordsDonationAt;
    DonationReady(b, e);
    var put := PersistBatch(b, e);
    assert put[HeaderKey(b.header.hash)] == Some(HeaderValue(b.header));
  }

  // ----- Reading back -----

  /** GetBlockHash */
  function BlockHashAt(db: Database, height: nat): Option<Uint256> {
    if BlockHashKey(height) in db && db[BlockHashKey(height)].HashValue? then Some(db[BlockHashKey(height)].hash) else None
  }

  /** GetHeaderByHeight */
  function HeaderAt(db: Database, height: nat): Option<Header> {
    var hash := BlockHashAt(db, height);
    if hash.Some? then HeaderOf(db, hash.value) else None
  }

  /** getTx, as the height the transaction was stored with; None also when another transaction is there. */
  function TxnHeight(db: Database, hash: Uint256): Option<nat> {
    var k := TransactionKey(hash);
    if k in db && db[k].TxnValue? && db[k].hash == hash then Some(db[k].height) else None
  }

  /** The entry getDonation reads. */
  function DonationAt(db: Database, height: nat): Option<Donation> {
    if DonationKey(height) in db && db[DonationKey(height)].DonationValue? then Some(db[DonationKey(height)].donation) else None
  }

  lemma {:induction false} TxnBatchHolds(b: StoredBlock, n: nat, i: nat)
    requires i < n <= |b.txns|
    ensures var k := TransactionKey(b.txns[i].hash);
      k in TxnBatch(b, n) && TxnBatch(b, n)[k] == Some(TxnValue(b.header.height, b.txns[i].hash))
    decreases n
  {
    if i == n - 1 {
    } else {
      TxnBatchHolds(b, n - 1, i);
    }
  }

  lemma {:induction false} TxnBatchKeys(b: StoredBlock, n: nat, k: Key)
    requires n <= |b.txns| && k in TxnBatch(b, n)
    ensures exists i :: 0 <= i < n && k == TransactionKey(b.txns[i].hash)
    decreases n
  {
    if n == 0 {
    } else if k == TransactionKey(b.txns[n - 1].hash) {
    } else {
      TxnBatchKeys(b, n - 1, k);
    }
  }

  /** The keys saving a block writes. */
  lemma PersistKeys(b: StoredBlock, e: Executed, k: Key)
    requires (RecordsDonationAt(b) ==> e.donation.Some?) && k in PersistBatch(b, e)
    ensures || k == CurrentStateTrie || k == CurrentBlockHashKey || k == HeaderKey(b.header.hash)
            || k == BlockHashKey(b.header.height) || (RecordsDonationAt(b) && k == DonationKey(b.header.height))
            || exists i :: 0 <= i < |b.txns| && k == TransactionKey(b.txns[i].hash)
  {
    hide TxnBatch, RecordsDonationAt;
    if k in TxnBatch(b, |b.txns|) {
      TxnBatchKeys(b, |b.txns|, k);
    }
  }

  lemma PersistHolds(b: StoredBlock, e: Executed)
    requires RecordsDonationAt(b) ==> e.donation.Some?
    ensures var put, h := PersistBatch(b, e), b.header;
      && HeaderKey(h.hash) in put && put[HeaderKey(h.hash)] == Some(HeaderValue(h))
      && BlockHashKey(h.height) in put && put[BlockHashKey(h.height)] == Some(HashValue(h.hash))
      && (RecordsDonationAt(b) ==>
          DonationKey(h.height) in put && put[DonationKey(h.height)] == Some(DonationValue(e.donation.value)))
  {
    hide TxnBatch, RecordsDonationAt;
  }

  lemma PersistHoldsTxn(b: StoredBlock, e: Executed, i: nat)
    requires (RecordsDonationAt(b) ==> e.donation.Some?) && i < |b.txns|
    ensures var put, k := PersistBatch(b, e), TransactionKey(b.txns[i].hash);
      k in put && put[k] == Some(TxnValue(b.header.height, b.txns[i].hash))
  {
    hide TxnBatch, RecordsDonationAt;
    TxnBatchHolds(b, |b.txns|, i);
  }

  /** What is saved is read back: the header by its height, each transaction at that height, the donation
      recorded, and the tip. */
  lemma SavedReadsBack(d: Disk, b: StoredBlock, e: Executed)
    requires Saved(d, b, Some(e)).Ok?
    ensures var after, h := Saved(d, b, Some(e)).value, b.header;
      && BlockHashAt(after.db, h.height) == Some(h.hash) && HeaderAt(after.db, h.height) == Some(h)
      && (forall i :: 0 <= i < |b.txns| ==> TxnHeight(after.db, b.txns[i].hash) == Some(h.height))
      && (RecordsDonation(h.height) ==> DonationAt(after.db, h.height) == e.donation)
      && after.height == h.height && after.hash == h.hash && after.root == h.stateRoot
  {
    hide PersistBatch, RecordsDonation;
    DonationReady(b, e);
    PersistHolds(b, e);
    forall i | 0 <= i < |b.txns|
      ensures TxnHeight(Saved(d, b, Some(e)).value.db, b.txns[i].hash) == Some(b.header.height)
    {
      PersistHoldsTxn(b, e, i);
    }
  }

  /** And nothing else reads differently. */
  lemma SavedKeepsReads(d: Disk, b: StoredBlock, e: Executed, height: nat, hash: Uint256)
    requires Saved(d, b, Some(e)).Ok? && height != b.header.height && hash != b.header.hash
    ensures var after := Saved(d, b, Some(e)).value;
      && BlockHashAt(after.db, height) == BlockHashAt(d.db, height) && HeaderOf(after.db, hash) == HeaderOf(d.db, hash)
      && DonationAt(after.db, height) == DonationAt(d.db, height)
  {
    hide PersistBatch, RecordsDonationAt, PersistError;
    SavedMeansNoError(d, b, e);
    DonationReady(b, e);
    Unwritten(b, e, BlockHashKey(height));
    Unwritten(b, e, HeaderKey(hash));
    Unwritten(b, e, DonationKey(height));
  }

  lemma SavedKeepsTxn(d: Disk, b: StoredBlock, e: Executed, hash: Uint256)
    requires Saved(d, b, Some(e)).Ok? && forall i :: 0 <= i < |b.txns| ==> b.txns[i].hash != hash
    ensures TxnHeight(Saved(d, b, Some(e)).value.db, hash) == TxnHeight(d.db, hash)
  {
    hide PersistBatch, RecordsDonationAt, PersistError;
    SavedMeansNoError(d, b, e);
    DonationReady(b, e);
    Unwritten(b, e, TransactionKey(hash));
  }

  lemma Unwritten(b: StoredBlock, e: Executed, k: Key)
    requires RecordsDonationAt(b) ==> e.donation.Some?
    requires k != CurrentStateTrie && k != CurrentBlockHashKey && k != HeaderKey(b.header.hash)
    requires k != BlockHashKey(b.header.height) && k != DonationKey(b.header.height)
    requires forall i :: 0 <= i < |b.txns| ==> k != TransactionKey(b.txns[i].hash)
    ensures k !in PersistBatch(b, e)
  {
    hide PersistBatch, RecordsDonationAt;
    if k in PersistBatch(b, e) {
      PersistKeys(b, e, k);
    }
  }

  // ----- Any number of blocks -----

  datatype Step = Step(block: StoredBlock, execution: Executed)

  function SavedAll(d: Disk, steps: seq<Step>): Result<Disk, DiskError> {
    if steps == [] then Ok(d)
    else
      var before :- SavedAll(d, steps[..|steps| - 1]);
      Saved(before, steps[|steps| - 1].block, Some(steps[|steps| - 1].execution))
  }

  /** Newest first. */
  function RolledBackAll(d: Disk, steps: seq<Step>): Result<Disk, DiskError>
    decreases |steps|
  {
    if steps == [] then Ok(d)
    else
      var before :- RolledBack(d, steps[|steps| - 1].block);
      RolledBackAll(before, steps[..|steps| - 1])
  }

  /** Each block follows the one before. */
  predicate Linked(steps: seq<Step>) {
    forall i :: 0 < i < |steps| ==>
      var prev, next := steps[i - 1].block.header, steps[i].block.header;
      next.height == prev.height + 1 && next.prevHash == prev.hash
  }

  /** Each block's entries are new when it is saved. */
  predicate FreshRun(d: Disk, steps: seq<Step>) {
    forall i :: 0 <= i < |steps| ==>
      var before, s := SavedAll(d, steps[..i]), steps[i];
      before.Ok? && PersistError(s.block, Some(s.execution)).None? ==> DonationFits(s) && Fresh(before.value.db, s.block, s.execution)
  }

  predicate DonationFits(s: Step) {
    RecordsDonationAt(s.block) ==> s.execution.donation.Some?
  }

  /** Saving any number of linked blocks with new entries and rolling them back newest first leaves the
      database, the tip and the state root as they were. */
  lemma {:induction false} RollbackUndoesRun(d: Disk, steps: seq<Step>)
    requires steps != [] ==> Extends(d, steps[0].block)
    requires Linked(steps) && FreshRun(d, steps) && SavedAll(d, steps).Ok?
    ensures RolledBackAll(SavedAll(d, steps).value, steps) == Ok(d)
    decreases |steps|
  {
    hide Saved, RolledBack, Fresh, PersistError, Extends;
    if steps == [] {
    } else {
      var n := |steps| - 1;
      var front, last := steps[..n], steps[n];
      var before := SavedAll(d, front).value;
      FreshPrefix(d, steps, n);
      RollbackUndoesRun(d, front);
      assert Saved(before, last.block, Some(last.execution)).Ok?;
      SavedMeansNoError(before, last.block, last.execution);
      TipBefore(d, steps);
      RollbackUndoesSave(before, last.block, last.execution);
    }
  }

  lemma SavedMeansNoError(d: Disk, b: StoredBlock, e: Executed)
    requires Saved(d, b, Some(e)).Ok?
    ensures PersistError(b, Some(e)).None?
  {
  }

  lemma FreshPrefix(d: Disk, steps: seq<Step>, n: nat)
    requires FreshRun(d, steps) && Linked(steps) && n <= |steps|
    ensures FreshRun(d, steps[..n]) && Linked(steps[..n])
  {
    hide SavedAll, Fresh, PersistError;
    var front := steps[..n];
    forall i | 0 <= i < n ensures front[..i] == steps[..i] && front[i] == steps[i] {
    }
  }

  /** The last block of a linked run extends the tip left by the others. */
  lemma TipBefore(d: Disk, steps: seq<Step>)
    requires steps != [] && Extends(d, steps[0].block) && Linked(steps) && SavedAll(d, steps[..|steps| - 1]).Ok?
    ensures Extends(SavedAll(d, steps[..|steps| - 1]).value, steps[|steps| - 1].block)
  {
    hide Saved, Extends, PersistError;
    var n := |steps| - 1;
    if n > 0 {
      var s := steps[n - 1];
      assert steps[..n][..n - 1] == steps[..n - 1] && steps[..n][n - 1] == s;
      var before := SavedAll(d, steps[..n - 1]).value;
      SavedMeansNoError(before, s.block, s.execution);
      SaveMovesTip(before, s.block, s.execution, steps[n].block);
    } else {
      assert steps[..0] == [];
    }
  }
}
