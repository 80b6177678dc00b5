/** Over every accepted chain, the expiry indexes of nano-pay channels and subscriptions are exact. */
module ExpiryRuns {
  import opened Common
  import opened Transactions
  import opened Accounts
  import opened Rewards
  import opened Execution
  import opened Ledger
  import opened BlockCheck
  import opened BlockFacts
  import opened BlockExecution
  import opened ChainRuns
  import ET = ExpiryTables

  /** Channel balances, staged or committed, are not negative. */
  ghost predicate ChannelsNonNegative(t: ET.Table<ChannelId, int>) {
    && t.zero == 0
    && (forall id :: id in t.trie ==> t.trie[id].data >= 0)
    && (forall id :: id in t.overlay && t.overlay[id].Some? ==> t.overlay[id].value.data >= 0)
  }

  /** Both tables have exact indexes and no record that expires at height or before. */
  ghost predicate IndexesExact(st: State, height: nat) {
    && ET.Agree(st.nanoPay) && ET.AllExpireAfter(st.nanoPay, height)
    && ET.Agree(st.pubSub) && ET.AllExpireAfter(st.pubSub, height)
  }

  /** The tables while the block above height executes. */
  ghost predicate TablesOk(st: State, height: nat) {
    && IndexesExact(st, height) && ChannelsNonNegative(st.nanoPay)
    && ET.Pending(st.nanoPay) && ET.Pending(st.pubSub)
  }

  /** A subscription's expiry is a uint32. */
  predicate ExpiryFits(txn: Txn, height: nat) {
    txn.payload.Subscribe? ==> height + txn.payload.duration < 0x1_0000_0000
  }

  predicate ExpiriesFit(b: Block) {
    forall i :: 0 <= i < |b.txns| ==> ExpiryFits(b.txns[i], b.height)
  }

  /** Which tables a transaction touches. */
  lemma SpendTables(st: State, net: Network, txn: Txn, totalFee: int, genesis: bool, height: nat,
          donation: Result<int, LedgerError>)
    requires Spend(st, net, txn, totalFee, genesis, height, donation).Ok?
    ensures var st', p := Spend(st, net, txn, totalFee, genesis, height, donation).value, txn.payload;
      && st'.nanoPay == (if p.NanoPay? then ET.Claim(st.nanoPay, Channel(txn), p.amount, p.nanoPayExpiration) else st.nanoPay)
      && st'.pubSub == (if p.Subscribe? then ET.Subscribe(st.pubSub, SubId(p.topic, p.bucket, p.subscriber, p.identifier),
                                              ET.PubSub(p.subscriber, p.identifier, p.meta), ExpiryOf(height, p.duration))
                        else if p.Unsubscribe? then ET.Unsubscribe(st.pubSub, SubId(p.topic, 0, p.subscriber, p.identifier))
                        else st.pubSub)
  {
    hide ChargeFee, BumpNonce, Move, Credit, Debit, IncreaseTotalSupply, RewardAt, ET.Claim, ET.Subscribe,
      ET.Unsubscribe, ExpiryOf, SubId, Channel;
  }

  lemma ClaimNonNegative(t: ET.Table<ChannelId, int>, id: ChannelId, balance: int, expiresAt: nat)
    requires ChannelsNonNegative(t) && balance >= 0
    ensures ChannelsNonNegative(ET.Claim(t, id, balance, expiresAt))
  {
  }

  /** One checked transaction keeps both indexes exact. */
  lemma SpendKeepsTables(rules: Rules, store: Store, i: nat, st: State, txn: Txn, totalFee: int, height: nat,
          donation: Result<int, LedgerError>)
    requires 0 < height && ExpiryFits(txn, height) && ChannelsNonNegative(store.state.nanoPay)
    requires TxnOk(rules, store, i, txn, height) && TablesOk(st, height - 1)
    requires Spend(st, store.net, txn, totalFee, false, height, donation).Ok?
    ensures TablesOk(Spend(st, store.net, txn, totalFee, false, height, donation).value, height - 1)
  {
    hide Spend, ET.Claim, ET.Subscribe, ET.Unsubscribe, ET.Live, ET.Agree, ET.Pending, SubId, Channel;
    SpendTables(st, store.net, txn, totalFee, false, height, donation);
    var p := txn.payload;
    if p.NanoPay? {
      assert p.amount > ChannelBalance(store, Channel(txn)) >= 0;
      ET.ClaimAgrees(st.nanoPay, Channel(txn), p.amount, p.nanoPayExpiration);
      ClaimNonNegative(st.nanoPay, Channel(txn), p.amount, p.nanoPayExpiration);
    } else if p.Subscribe? {
      assert ExpiryOf(height, p.duration) == height + p.duration;
      ET.SubscribeAgrees(st.pubSub, SubId(p.topic, p.bucket, p.subscriber, p.identifier),
                         ET.PubSub(p.subscriber, p.identifier, p.meta), ExpiryOf(height, p.duration));
    } else if p.Unsubscribe? {
      ET.UnsubscribeAgrees(st.pubSub, SubId(p.topic, 0, p.subscriber, p.identifier));
    }
  }

  lemma {:induction false} PrefixKeepsTables(rules: Rules, store: Store, b: Block, n: nat)
    requires 0 < b.height && ExpiriesFit(b) && Validated(rules, store, b) && n <= |b.txns|
    requires TablesOk(store.state, b.height - 1)
    requires SpendPrefix(store.state, store.net, b.txns, n, TotalFee(b.txns), b.height, GetDonation(store)).Ok?
    ensures TablesOk(SpendPrefix(store.state, store.net, b.txns, n, TotalFee(b.txns), b.height, GetDonation(store)).value, b.height - 1)
  {
    hide Spend, Validated, TotalFee, GetDonation, TxnOk, CheckPrefix, AllTxnsOk, ET.Agree, ET.Pending,
      ET.AllExpireAfter;
    if n == 0 {
    } else {
      PrefixKeepsTables(rules, store, b, n - 1);
      var st := SpendPrefix(store.state, store.net, b.txns, n - 1, TotalFee(b.txns), b.height, GetDonation(store)).value;
      ValidatedLoop(rules, store, b);
      ValidatedPrefixes(rules, store, b.txns, |b.txns|, b.height);
      OneTxnOk(rules, store, b.txns, |b.txns|, n - 1, b.height);
      SpendKeepsTables(rules, store, n - 1, st, b.txns[n - 1], TotalFee(b.txns), b.height, GetDonation(store));
    }
  }

  lemma FlushNonNegative(t: ET.Table<ChannelId, int>, height: nat)
    requires ChannelsNonNegative(t)
    ensures ChannelsNonNegative(ET.Finalize(ET.Cleanup(t, height)))
  {
  }

  /** The end of the block: cleanup, then commit. */
  lemma EndOfBlockKeepsTables(st: State, height: nat)
    requires height > 0 && TablesOk(st, height - 1)
    ensures TablesOk(FinalizeState(CleanupState(st, height)), height)
  {
    hide ET.Live, ET.Due, ET.Cleanup, ET.Finalize, ChannelsNonNegative, ET.Agree, ET.Pending;
    ET.CleanupAgrees(st.nanoPay, height);
    ET.CleanupAgrees(st.pubSub, height);
    ET.FinalizeKeeps(ET.Cleanup(st.nanoPay, height));
    ET.FinalizeKeeps(ET.Cleanup(st.pubSub, height));
    FlushNonNegative(st.nanoPay, height);
    AfterCleanup(st.nanoPay, ET.Cleanup(st.nanoPay, height), height);
    AfterCleanup(st.pubSub, ET.Cleanup(st.pubSub, height), height);
  }

  lemma AfterCleanup<Id(!new), V>(t: ET.Table<Id, V>, t': ET.Table<Id, V>, height: nat)
    requires height > 0 && ET.AllExpireAfter(t, height - 1)
    requires forall id :: ET.Live(t', id) == (if ET.LiveUntil(t, id, height) then None else ET.Live(t, id))
    ensures ET.AllExpireAfter(t', height)
  {
    hide ET.Live;
  }

  /** Expiry-index agreement: after every block of an accepted chain, an id is live with expiry e
      exactly when it is in the cleanup set of height e, and every live record expires later. */
  lemma {:induction false} ExpiryIndexAgrees(rules: Rules, net: Network, genesis: Txn, blocks: seq<Block>)
    requires AcceptedChain(rules, net, genesis, blocks) && forall i :: 0 <= i < |blocks| ==> ExpiriesFit(blocks[i])
    ensures StoreAfter(net, genesis, blocks).value.height == |blocks|
    ensures TablesOk(StoreAfter(net, genesis, blocks).value.state, |blocks|)
  {
    hide TransactionCheck, SaveBlock, SaveGenesis, TablesOk, ExecuteBlock, ExpiriesFit;
    if blocks == [] {
      GenesisTables(net, genesis);
    } else {
      var prev, b := blocks[..|blocks| - 1], blocks[|blocks| - 1];
      ExpiryIndexAgrees(rules, net, genesis, prev);
      var store := StoreAfter(net, genesis, prev).value;
      AcceptedIsValidated(rules, store, b);
      SavedStore(store, b);
      BlockKeepsTables(rules, store, b);
    }
  }

  lemma BlockKeepsTables(rules: Rules, store: Store, b: Block)
    requires 0 < b.height && ExpiriesFit(b) && Validated(rules, store, b) && TablesOk(store.state, b.height - 1)
    requires ExecuteBlock(store.state, store.net, b, GetDonation(store)).Ok?
    ensures TablesOk(ExecuteBlock(store.state, store.net, b, GetDonation(store)).value, b.height)
  {
    hide Validated, TablesOk, ExpiriesFit, TotalFee, GetDonation, SpendPrefix, FinalizeState, CleanupState;
    PrefixKeepsTables(rules, store, b, |b.txns|);
    var st := SpendPrefix(store.state, store.net, b.txns, |b.txns|, TotalFee(b.txns), b.height, GetDonation(store)).value;
    EndOfBlockKeepsTables(st, b.height);
  }

  lemma GenesisTables(net: Network, coinbase: Txn)
    requires GenesisOk(net, coinbase)
    requires SaveGenesis(net, coinbase).Ok?
    ensures TablesOk(SaveGenesis(net, coinbase).value.state, 0) && SaveGenesis(net, coinbase).value.height == 0
  {
    hide ChargeFee, BumpNonce, Credit, TotalFee;
    var st := SaveGenesis(net, coinbase).value.state;
    assert st.nanoPay == ET.Finalize(EmptyState().nanoPay) && st.pubSub == ET.Finalize(EmptyState().pubSub);
    ET.FinalizeKeeps(EmptyState().nanoPay);
    ET.FinalizeKeeps(EmptyState().pubSub);
  }

  /** Expiry heights are uint32: a subscription expires after the block that holds it exactly when the
      sum does not wrap. */
  lemma ExpiryIsLater(height: nat, duration: nat)
    requires height < 0x1_0000_0000 && 0 < duration < 0x1_0000_0000
    ensures ExpiryOf(height, duration) > height <==> height + duration < 0x1_0000_0000
    ensures height + duration < 0x1_0000_0000 ==> ExpiryOf(height, duration) == height + duration
  {
    if height + duration >= 0x1_0000_0000 {
      assert (height + duration) % 0x1_0000_0000 == height + duration - 0x1_0000_0000;
    }
  }

  /** Up to MAX_HEIGHT every validated block meets that. */
  lemma ShortChainsFit(rules: Rules, store: Store, b: Block)
    requires 0 < b.height <= MAX_HEIGHT && Validated(rules, store, b)
    ensures ExpiriesFit(b)
  {
    hide Validated, CheckPrefix, AllTxnsOk;
    ValidatedLoop(rules, store, b);
    ValidatedPrefixes(rules, store, b.txns, |b.txns|, b.height);
    forall i | 0 <= i < |b.txns| ensures ExpiryFits(b.txns[i], b.height) {
      OneTxnOk(rules, store, b.txns, |b.txns|, i, b.height);
    }
  }
}
