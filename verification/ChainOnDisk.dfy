/** The chain of ChainRuns as Persistence stores it: what is executed is what is saved, every entry of an
    accepted block is new, and an accepted chain can be rolled back to genesis. */
module ChainOnDisk {
  import opened Common
  import opened Transactions
  import opened Execution
  import opened Ledger
  import opened BlockCheck
  import opened BlockExecution
  import opened ChainRuns
  import P = Persistence

  /** What executing a block on a store gives persist. */
  function ExecutionOf(rules: Rules, store: Store, b: Block): P.Executed {
    var st, d := ExecuteBlock(store.state, store.net, b, GetDonation(store)), CalcNextDonation(store, b.height);
    P.Executed(if st.Ok? then rules.stateRoot(st.value) else 0, if d.Ok? then Some(d.value) else None)
  }

  /** The block as it is stored. */
  predicate StoredAs(b: Block, sb: P.StoredBlock) {
    && sb.header.height == b.height && sb.header.stateRoot == b.stateRoot && |sb.txns| == |b.txns|
    && forall i :: 0 <= i < |b.txns| ==>
         sb.txns[i].hash == b.txns[i].hash && (sb.txns[i].supported <==> !b.txns[i].payload.Unsupported?)
  }

  lemma AcceptedTxns(rules: Rules, store: Store, b: Block)
    requires b.height > 0 && TransactionCheck(rules, store, b).None?
    ensures forall i :: 0 <= i < |b.txns| ==> !b.txns[i].payload.Unsupported? && b.txns[i].hash !in store.txnHashes
  {
    hide TransactionCheck, Validated, CheckPrefix, ExecuteBlock, Sane, GetNonce, GetBalance;
    AcceptedIsValidated(rules, store, b);
    ValidatedLoop(rules, store, b);
    ValidatedPrefixes(rules, store, b.txns, |b.txns|, b.height);
    forall i | 0 <= i < |b.txns| ensures !b.txns[i].payload.Unsupported? && b.txns[i].hash !in store.txnHashes {
      OneTxnOk(rules, store, b.txns, |b.txns|, i, b.height);
    }
  }

  lemma AcceptedRoot(rules: Rules, store: Store, b: Block)
    requires b.height > 0 && TransactionCheck(rules, store, b).None?
    ensures ExecutionOf(rules, store, b).root == b.stateRoot
  {
    hide ValidationError, ExecuteBlock, CalcNextDonation;
  }

  /** An accepted block goes to disk if and only if the ledger takes it. */
  lemma SavesAlike(rules: Rules, store: Store, b: Block, sb: P.StoredBlock)
    requires b.height > 0 && TransactionCheck(rules, store, b).None? && StoredAs(b, sb)
    ensures P.PersistError(sb, Some(ExecutionOf(rules, store, b))).None? <==> SaveBlock(store, b).Ok?
  {
    hide TransactionCheck, ExecuteBlock, CalcNextDonation, RecordsDonation, Validated;
    AcceptedIsValidated(rules, store, b);
    AcceptedTxns(rules, store, b);
    AcceptedRoot(rules, store, b);
    assert forall i :: 0 <= i < |sb.txns| ==> sb.txns[i].supported;
  }

  // ----- What the disk may hold -----

  /** The disk has the store's height, and entries only for heights, transactions and headers so far. */
  ghost predicate DiskFollows(d: P.Disk, store: Store, headers: set<Uint256>) {
    && d.height == store.height
    && (forall h :: P.TransactionKey(h) in d.db ==> h in store.txnHashes)
    && (forall h: nat :: P.BlockHashKey(h) in d.db ==> h <= d.height)
    && (forall h: nat :: P.DonationKey(h) in d.db ==> h <= d.height)
    && (forall h :: P.HeaderKey(h) in d.db ==> h in headers)
  }

  /** Every entry of an accepted block is new. */
  lemma AcceptedIsFresh(rules: Rules, store: Store, b: Block, sb: P.StoredBlock, d: P.Disk, headers: set<Uint256>)
    requires b.height == store.height + 1 && TransactionCheck(rules, store, b).None? && SaveBlock(store, b).Ok?
    requires StoredAs(b, sb) && DiskFollows(d, store, headers) && sb.header.hash !in headers
    ensures var e := ExecutionOf(rules, store, b);
      P.PersistError(sb, Some(e)).None? && (P.RecordsDonationAt(sb) ==> e.donation.Some?) && P.Fresh(d.db, sb, e)
  {
    hide TransactionCheck, ExecutionOf, P.PersistBatch, P.PersistError, P.RecordsDonationAt, SaveBlock;
    var e := ExecutionOf(rules, store, b);
    SavesAlike(rules, store, b, sb);
    P.DonationReady(sb, e);
    AcceptedTxns(rules, store, b);
    forall k | k in P.PersistBatch(sb, e) && k != P.CurrentStateTrie && k != P.CurrentBlockHashKey ensures k !in d.db {
      P.PersistKeys(sb, e, k);
    }
  }

  /** Saving keeps the disk in step with the ledger. */
  lemma SaveFollows(store: Store, b: Block, sb: P.StoredBlock, d: P.Disk, e: P.Executed, headers: set<Uint256>)
    requires b.height == store.height + 1 && SaveBlock(store, b).Ok? && StoredAs(b, sb)
    requires DiskFollows(d, store, headers) && P.PersistError(sb, Some(e)).None?
    ensures DiskFollows(P.Saved(d, sb, Some(e)).value, SaveBlock(store, b).value, headers + {sb.header.hash})
  {
    hide P.PersistBatch, P.PersistError, P.RecordsDonationAt, SaveBlock;
    P.DonationReady(sb, e);
    SavedHashes(store, b);
    forall k | k in P.PersistBatch(sb, e) ensures k.TransactionKey? ==> k.hash in SaveBlock(store, b).value.txnHashes {
      P.PersistKeys(sb, e, k);
    }
    forall k | k in P.PersistBatch(sb, e)
      ensures (k.BlockHashKey? || k.DonationKey? ==> k.height == b.height) && (k.HeaderKey? ==> k.hash == sb.header.hash)
    {
      P.PersistKeys(sb, e, k);
    }
  }

  lemma SavedHashes(store: Store, b: Block)
    requires SaveBlock(store, b).Ok?
    ensures var next := SaveBlock(store, b).value;
      && next.height == b.height && store.txnHashes <= next.txnHashes
      && forall i :: 0 <= i < |b.txns| ==> b.txns[i].hash in next.txnHashes
  {
    hide ExecuteBlock, CalcNextDonation, RecordsDonation, GetDonation;
  }

  // ----- Whole chains -----

  predicate NamesPrevious(d: P.Disk, sbs: seq<P.StoredBlock>, i: nat)
    requires i < |sbs|
  {
    sbs[i].header.prevHash == if i == 0 then d.hash else sbs[i - 1].header.hash
  }

  /** The blocks as stored from a disk on: each names its predecessor, and no header hash comes twice. */
  predicate StoredChain(d: P.Disk, blocks: seq<Block>, sbs: seq<P.StoredBlock>) {
    && |sbs| == |blocks|
    && (forall i :: 0 <= i < |sbs| ==> StoredAs(blocks[i], sbs[i]) && sbs[i].header.hash != d.hash)
    && (forall i :: 0 <= i < |sbs| ==> NamesPrevious(d, sbs, i))
    && (forall i, j :: 0 <= i < j < |sbs| ==> sbs[i].header.hash != sbs[j].header.hash)
  }

  /** The store a block is executed on; the ledger has one after every block it saved. */
  function StoreBefore(net: Network, genesis: Txn, blocks: seq<Block>): Store {
    var r := StoreAfter(net, genesis, blocks);
    if r.Ok? then r.value else Store(net, 0, EmptyState(), map[], {})
  }

  function StepsOf(rules: Rules, net: Network, genesis: Txn, blocks: seq<Block>, sbs: seq<P.StoredBlock>): seq<P.Step>
    requires |sbs| == |blocks|
  {
    seq(|sbs|, i requires 0 <= i < |sbs| =>
      P.Step(sbs[i], ExecutionOf(rules, StoreBefore(net, genesis, blocks[..i]), blocks[i])))
  }

  lemma StepsGrow(rules: Rules, net: Network, genesis: Txn, blocks: seq<Block>, sbs: seq<P.StoredBlock>)
    requires |sbs| == |blocks| && blocks != []
    ensures var n := |blocks| - 1;
      StepsOf(rules, net, genesis, blocks, sbs)
      == StepsOf(rules, net, genesis, blocks[..n], sbs[..n])
         + [P.Step(sbs[n], ExecutionOf(rules, StoreBefore(net, genesis, blocks[..n]), blocks[n]))]
  {
    hide ExecutionOf, StoreBefore;
    var n := |blocks| - 1;
    assert forall i :: 0 <= i < n ==> blocks[..n][..i] == blocks[..i] && sbs[..n][i] == sbs[i] && blocks[..n][i] == blocks[i];
  }

  function HeadersOf(d: P.Disk, sbs: seq<P.StoredBlock>): set<Uint256> {
    {d.hash} + set i | 0 <= i < |sbs| :: sbs[i].header.hash
  }

  /** The disk after genesis. */
  ghost predicate GenesisDisk(d: P.Disk, genesis: Txn) {
    && d.height == 0 && P.HeaderOf(d.db, d.hash).Some? && P.HeaderOf(d.db, d.hash).value.stateRoot == d.root
    && P.CurrentStateTrie in d.db && d.db[P.CurrentStateTrie] == P.RootValue(d.root)
    && P.CurrentBlockHashKey in d.db && d.db[P.CurrentBlockHashKey] == P.CurrentBlockValue(d.hash, 0)
    && (forall h :: P.TransactionKey(h) in d.db ==> h == genesis.hash)
    && (forall h: nat :: P.BlockHashKey(h) in d.db || P.DonationKey(h) in d.db ==> h == 0)
    && (forall h :: P.HeaderKey(h) in d.db ==> h == d.hash)
  }

  lemma StepSaves(rules: Rules, store: Store, b: Block, sb: P.StoredBlock, d: P.Disk, headers: set<Uint256>)
    requires b.height == store.height + 1 && TransactionCheck(rules, store, b).None? && SaveBlock(store, b).Ok?
    requires StoredAs(b, sb) && DiskFollows(d, store, headers) && sb.header.hash !in headers
    ensures var e := ExecutionOf(rules, store, b);
      && P.PersistError(sb, Some(e)).None? && P.Saved(d, sb, Some(e)).Ok? && P.DonationFits(P.Step(sb, e)) && P.Fresh(d.db, sb, e)
      && P.Saved(d, sb, Some(e)).value.root == b.stateRoot
      && DiskFollows(P.Saved(d, sb, Some(e)).value, SaveBlock(store, b).value, headers + {sb.header.hash})
  {
    hide TransactionCheck, ExecutionOf, P.PersistBatch, P.PersistError, SaveBlock, DiskFollows, P.Fresh;
    AcceptedIsFresh(rules, store, b, sb, d, headers);
    AcceptedRoot(rules, store, b);
    SaveFollows(store, b, sb, d, ExecutionOf(rules, store, b), headers);
  }

  lemma StoredPrefix(d: P.Disk, blocks: seq<Block>, sbs: seq<P.StoredBlock>)
    requires StoredChain(d, blocks, sbs) && blocks != []
    ensures var n := |blocks| - 1;
      StoredChain(d, blocks[..n], sbs[..n]) && StoredAs(blocks[n], sbs[n]) && sbs[n].header.hash !in HeadersOf(d, sbs[..n])
  {
    hide StoredAs;
    var n := |blocks| - 1;
    var front, stored := blocks[..n], sbs[..n];
    forall i | 0 <= i < n ensures stored[i] == sbs[i] && front[i] == blocks[i] {
    }
    forall i | 0 <= i < n
      ensures StoredAs(front[i], stored[i]) && stored[i].header.hash != d.hash && stored[i].header.hash != sbs[n].header.hash
      ensures NamesPrevious(d, stored, i)
    {
      assert stored[i] == sbs[i] && StoredAs(blocks[i], sbs[i]) && sbs[i].header.hash != sbs[n].header.hash;
      assert NamesPrevious(d, sbs, i) && (i > 0 ==> stored[i - 1] == sbs[i - 1]);
    }
    assert forall i, j :: 0 <= i < j < n ==> sbs[i].header.hash != sbs[j].header.hash;
  }

  lemma HeadersGrow(d: P.Disk, sbs: seq<P.StoredBlock>)
    requires sbs != []
    ensures var n := |sbs| - 1; HeadersOf(d, sbs) == HeadersOf(d, sbs[..n]) + {sbs[n].header.hash}
  {
    var n := |sbs| - 1;
    forall h ensures h in HeadersOf(d, sbs) <==> h in HeadersOf(d, sbs[..n]) + {sbs[n].header.hash} {
      if h in HeadersOf(d, sbs) && h != d.hash {
        var i :| 0 <= i < |sbs| && sbs[i].header.hash == h;
        assert i < n ==> sbs[..n][i].header.hash == h;
      }
      if h in HeadersOf(d, sbs[..n]) && h != d.hash {
        var i :| 0 <= i < n && sbs[..n][i].header.hash == h;
        assert sbs[i].header.hash == h;
      }
    }
  }

  /** Everything an accepted chain writes is new when it is written. */
  lemma {:induction false} ChainIsFresh(rules: Rules, net: Network, genesis: Txn, blocks: seq<Block>,
          sbs: seq<P.StoredBlock>, d: P.Disk)
    requires AcceptedChain(rules, net, genesis, blocks) && StoreAfter(net, genesis, blocks).Ok?
    requires GenesisDisk(d, genesis) && StoredChain(d, blocks, sbs)
    ensures |sbs| == |blocks|
    ensures var steps := StepsOf(rules, net, genesis, blocks, sbs);
      && P.SavedAll(d, steps).Ok? && P.FreshRun(d, steps)
      && DiskFollows(P.SavedAll(d, steps).value, StoreAfter(net, genesis, blocks).value, HeadersOf(d, sbs))
      && (blocks != [] ==> P.SavedAll(d, steps).value.root == blocks[|blocks| - 1].stateRoot)
    decreases |blocks|
  {
    hide TransactionCheck, SaveBlock, SaveGenesis, ExecutionOf, P.Saved, P.PersistError, P.Fresh, DiskFollows,
      StoredChain,
      HeadersOf, GenesisDisk, StoredAs, AcceptedChain, StepsOf, P.FreshRun, P.DonationFits;
    StoredLength(d, blocks, sbs);
    if blocks == [] {
      NoSteps(rules, net, genesis, d);
      GenesisFollows(net, genesis, d, sbs);
    } else {
      var n := |blocks| - 1;
      var prev, b, sb := blocks[..n], blocks[n], sbs[n];
      StoredPrefix(d, blocks, sbs);
      HeadersGrow(d, sbs);
      LastAccepted(rules, net, genesis, blocks);
      ChainIsFresh(rules, net, genesis, prev, sbs[..n], d);
      StepsGrow(rules, net, genesis, blocks, sbs);
      var store, steps := StoreAfter(net, genesis, prev).value, StepsOf(rules, net, genesis, prev, sbs[..n]);
      var before, last := P.SavedAll(d, steps).value, P.Step(sb, ExecutionOf(rules, store, b));
      StepSaves(rules, store, b, sb, before, HeadersOf(d, sbs[..n]));
      FreshLonger(d, steps, last);
    }
  }

  lemma NoSteps(rules: Rules, net: Network, genesis: Txn, d: P.Disk)
    ensures StepsOf(rules, net, genesis, [], []) == [] && P.FreshRun(d, []) && P.SavedAll(d, []) == Ok(d)
  {
  }

  lemma StoredLength(d: P.Disk, blocks: seq<Block>, sbs: seq<P.StoredBlock>)
    requires StoredChain(d, blocks, sbs)
    ensures |sbs| == |blocks|
  {
    hide StoredAs;
  }

  lemma GenesisFollows(net: Network, genesis: Txn, d: P.Disk, sbs: seq<P.StoredBlock>)
    requires GenesisDisk(d, genesis) && SaveGenesis(net, genesis).Ok? && sbs == []
    ensures DiskFollows(d, SaveGenesis(net, genesis).value, HeadersOf(d, sbs))
  {
    hide ExecuteGenesis;
  }

  lemma FreshLonger(d: P.Disk, steps: seq<P.Step>, last: P.Step)
    requires P.FreshRun(d, steps) && P.SavedAll(d, steps).Ok? && P.DonationFits(last)
    requires P.Fresh(P.SavedAll(d, steps).value.db, last.block, last.execution)
    ensures P.FreshRun(d, steps + [last])
    ensures P.SavedAll(d, steps + [last]) == P.Saved(P.SavedAll(d, steps).value, last.block, Some(last.execution))
  {
    hide P.Saved, P.PersistError, P.Fresh, P.DonationFits;
    var all := steps + [last];
    assert all[..|steps|] == steps;
    forall i | 0 <= i < |steps| ensures all[..i] == steps[..i] && all[i] == steps[i] {
    }
  }

  /** Every accepted chain goes to disk block by block, ends at the state root of its last block, and can be
      rolled back newest first to exactly the disk after genesis. */
  lemma {:induction false} ChainRollsBack(rules: Rules, net: Network, genesis: Txn, blocks: seq<Block>,
          sbs: seq<P.StoredBlock>, d: P.Disk)
    requires AcceptedChain(rules, net, genesis, blocks) && GenesisDisk(d, genesis) && StoredChain(d, blocks, sbs)
    ensures StoreAfter(net, genesis, blocks).Ok?
    ensures var steps := StepsOf(rules, net, genesis, blocks, sbs);
      && P.SavedAll(d, steps).Ok? && P.SavedAll(d, steps).value.height == StoreAfter(net, genesis, blocks).value.height
      && (blocks != [] ==> P.SavedAll(d, steps).value.root == blocks[|blocks| - 1].stateRoot)
      && P.RolledBackAll(P.SavedAll(d, steps).value, steps) == Ok(d)
  {
    hide AcceptedChain, StoreAfter, P.SavedAll, P.RolledBackAll, P.FreshRun, StoredAs, ExecutionOf, StoreBefore,
      DiskFollows;
    ChainIsStored(rules, net, genesis, blocks);
    ChainIsFresh(rules, net, genesis, blocks, sbs, d);
    HeightsCount(rules, net, genesis, blocks);
    SameHeight(P.SavedAll(d, StepsOf(rules, net, genesis, blocks, sbs)).value, StoreAfter(net, genesis, blocks).value,
      HeadersOf(d, sbs));
    var steps := StepsOf(rules, net, genesis, blocks, sbs);
    LinkedSteps(d, blocks, sbs, steps);
    FirstExtends(d, genesis, blocks, sbs);
    P.RollbackUndoesRun(d, steps);
  }

  lemma FirstExtends(d: P.Disk, genesis: Txn, blocks: seq<Block>, sbs: seq<P.StoredBlock>)
    requires GenesisDisk(d, genesis) && StoredChain(d, blocks, sbs) && (blocks != [] ==> blocks[0].height == 1)
    ensures sbs != [] ==> P.Extends(d, sbs[0])
  {
    if sbs != [] {
      assert StoredAs(blocks[0], sbs[0]) && NamesPrevious(d, sbs, 0);
    }
  }

  lemma SameHeight(d: P.Disk, store: Store, headers: set<Uint256>)
    requires DiskFollows(d, store, headers)
    ensures d.height == store.height
  {
  }

  lemma LinkedSteps(d: P.Disk, blocks: seq<Block>, sbs: seq<P.StoredBlock>, steps: seq<P.Step>)
    requires StoredChain(d, blocks, sbs) && |steps| == |sbs| && forall i :: 0 <= i < |sbs| ==> steps[i].block == sbs[i]
    requires forall i :: 0 <= i < |blocks| ==> blocks[i].height == i + 1
    ensures P.Linked(steps)
  {
    forall i | 0 < i < |steps|
      ensures steps[i].block.header.height == steps[i - 1].block.header.height + 1
        && steps[i].block.header.prevHash == steps[i - 1].block.header.hash
    {
      assert StoredAs(blocks[i], sbs[i]) && StoredAs(blocks[i - 1], sbs[i - 1]) && NamesPrevious(d, sbs, i);
    }
  }

  // ----- Reading a chain back -----

  /** Block i of the chain, its transactions and its donation are found on the disk. */
  ghost predicate Found(d: P.Disk, store: Store, b: Block, sb: P.StoredBlock, height: nat) {
    && P.BlockHashAt(d.db, height) == Some(sb.header.hash) && P.HeaderOf(d.db, sb.header.hash) == Some(sb.header)
    && (forall t :: t in b.txns ==> P.TxnHeight(d.db, t.hash) == Some(height))
    && (RecordsDonation(height) ==> height in store.donations && P.DonationAt(d.db, height) == Some(store.donations[height]))
  }

  lemma SavedIsFound(rules: Rules, store: Store, b: Block, sb: P.StoredBlock, d: P.Disk)
    requires b.height > 0 && TransactionCheck(rules, store, b).None? && SaveBlock(store, b).Ok? && StoredAs(b, sb)
    requires P.Saved(d, sb, Some(ExecutionOf(rules, store, b))).Ok?
    ensures Found(P.Saved(d, sb, Some(ExecutionOf(rules, store, b))).value, SaveBlock(store, b).value, b, sb, b.height)
  {
    hide TransactionCheck, P.Saved, SaveBlock, RecordsDonation;
    var e := ExecutionOf(rules, store, b);
    P.SavedReadsBack(d, sb, e);
    RecordedDonation(rules, store, b);
    forall t | t in b.txns ensures P.TxnHeight(P.Saved(d, sb, Some(e)).value.db, t.hash) == Some(b.height) {
      var i :| 0 <= i < |b.txns| && b.txns[i] == t;
      assert sb.txns[i].hash == t.hash;
    }
  }

  lemma RecordedDonation(rules: Rules, store: Store, b: Block)
    requires SaveBlock(store, b).Ok?
    ensures var next := SaveBlock(store, b).value;
      && (RecordsDonation(b.height) ==>
          b.height in next.donations && ExecutionOf(rules, store, b).donation == Some(next.donations[b.height]))
      && forall h: nat :: h != b.height && h in store.donations ==> h in next.donations && next.donations[h] == store.donations[h]
  {
    hide ExecuteBlock, CalcNextDonation, RecordsDonation, GetDonation;
  }

  /** A later block hides nothing of an earlier one. */
  lemma StaysFound(rules: Rules, store: Store, last: Block, sb: P.StoredBlock, d: P.Disk, headers: set<Uint256>,
          b: Block, earlier: P.StoredBlock, height: nat)
    requires last.height == store.height + 1 && TransactionCheck(rules, store, last).None? && SaveBlock(store, last).Ok?
    requires StoredAs(last, sb) && DiskFollows(d, store, headers) && earlier.header.hash != sb.header.hash
    requires P.Saved(d, sb, Some(ExecutionOf(rules, store, last))).Ok?
    requires Found(d, store, b, earlier, height) && height < last.height
    ensures Found(P.Saved(d, sb, Some(ExecutionOf(rules, store, last))).value, SaveBlock(store, last).value, b, earlier, height)
  {
    hide TransactionCheck, P.Saved, SaveBlock, RecordsDonation, ExecutionOf;
    var e := ExecutionOf(rules, store, last);
    AcceptedTxns(rules, store, last);
    RecordedDonation(rules, store, last);
    P.SavedKeepsReads(d, sb, e, height, earlier.header.hash);
    forall t | t in b.txns ensures P.TxnHeight(P.Saved(d, sb, Some(e)).value.db, t.hash) == Some(height) {
      assert P.TransactionKey(t.hash) in d.db;
      P.SavedKeepsTxn(d, sb, e, t.hash);
    }
  }

  /** Every block of an accepted chain is found on its disk: its height leads to its header, each of its
      transactions is stored with that height, and so is the donation recorded there. */
  lemma {:induction false} ChainReadsBack(rules: Rules, net: Network, genesis: Txn, blocks: seq<Block>,
          sbs: seq<P.StoredBlock>, d: P.Disk, i: nat)
    requires AcceptedChain(rules, net, genesis, blocks) && StoreAfter(net, genesis, blocks).Ok?
    requires GenesisDisk(d, genesis) && StoredChain(d, blocks, sbs) && i < |blocks|
    ensures |sbs| == |blocks| && P.SavedAll(d, StepsOf(rules, net, genesis, blocks, sbs)).Ok?
    ensures Found(P.SavedAll(d, StepsOf(rules, net, genesis, blocks, sbs)).value,
      StoreAfter(net, genesis, blocks).value, blocks[i], sbs[i], i + 1)
    decreases |blocks|
  {
    hide TransactionCheck, SaveBlock, SaveGenesis, ExecutionOf, P.Saved, P.PersistError, P.Fresh, DiskFollows,
      StoredChain, HeadersOf, GenesisDisk, StoredAs, AcceptedChain, StepsOf, P.FreshRun, P.DonationFits, Found;
    var n := |blocks| - 1;
    StoredLength(d, blocks, sbs);
    var prev, b, sb := blocks[..n], blocks[n], sbs[n];
    StoredPrefix(d, blocks, sbs);
    LastAccepted(rules, net, genesis, blocks);
    ChainIsFresh(rules, net, genesis, prev, sbs[..n], d);
    StepsGrow(rules, net, genesis, blocks, sbs);
    HeightsCount(rules, net, genesis, blocks);
    var store, steps := StoreAfter(net, genesis, prev).value, StepsOf(rules, net, genesis, prev, sbs[..n]);
    var before, last := P.SavedAll(d, steps).value, P.Step(sb, ExecutionOf(rules, store, b));
    StepSaves(rules, store, b, sb, before, HeadersOf(d, sbs[..n]));
    FreshLonger(d, steps, last);
    if i == n {
      SavedIsFound(rules, store, b, sb, before);
    } else {
      ChainReadsBack(rules, net, genesis, prev, sbs[..n], d, i);
      OtherHeader(d, blocks, sbs, i);
      StaysFound(rules, store, b, sb, before, HeadersOf(d, sbs[..n]), blocks[i], sbs[i], i + 1);
    }
  }

  lemma OtherHeader(d: P.Disk, blocks: seq<Block>, sbs: seq<P.StoredBlock>, i: nat)
    requires StoredChain(d, blocks, sbs) && i < |sbs| - 1
    ensures sbs[i].header.hash != sbs[|sbs| - 1].header.hash
  {
    hide StoredAs;
  }
}
