/** The chain can always go on: the donation each block draws stays covered, and a block of one
    coinbase is always acceptable. */
module ChainProgress {
  import opened Common
  import opened Arith
  import opened Transactions
  import opened Accounts
  import opened Rewards
  import opened Execution
  import opened Ledger
  import opened BlockCheck
  import opened BlockFacts
  import opened SpendFacts
  import opened BlockExecution
  import opened ChainRuns

  /** The donation is known and covered, and the next one can be recorded if it has to be. */
  predicate DonationReady(store: Store) {
    && GetDonation(store).Ok? && 0 <= GetDonation(store).value <= GetBalance(store, store.net.donationAddress)
    && (RecordsDonation(store.height + 1) ==> CalcNextDonation(store, store.height + 1).Ok?)
  }

  /** The rules outside the model do not object to coinbases. */
  ghost predicate AllowsCoinbases(rules: Rules) {
    forall t: Txn, height: nat :: t.payload.Coinbase? ==> rules.wellFormed(t, height)
  }

  function EmptyBlock(rules: Rules, store: Store, hash: Uint256): Block
    requires GetDonation(store).Ok?
  {
    var b := CoinbaseBlock(store, hash, GetDonation(store).value, 0, 0);
    var after := ExecuteBlock(store.state, store.net, b, GetDonation(store));
    if after.Ok? then b.(stateRoot := rules.stateRoot(after.value)) else b
  }

  /** The root a header claims plays no part in execution. */
  lemma RootDoesNotMatter(store: Store, b: Block, root: Uint256)
    ensures ExecuteBlock(store.state, store.net, b.(stateRoot := root), GetDonation(store))
         == ExecuteBlock(store.state, store.net, b, GetDonation(store))
  {
    hide GetDonation, SpendPrefix, CleanupState, FinalizeState, TotalFee;
  }

  lemma EmptyBlockIsAccepted(rules: Rules, store: Store, hash: Uint256)
    requires SupplyOk(store) && DonationReady(store) && AllowsCoinbases(rules) && hash !in store.txnHashes
    requires CheckAmount(RewardAt(store.height + 1) + GetDonation(store).value)
    ensures TransactionCheck(rules, store, EmptyBlock(rules, store, hash)).None?
    ensures SaveBlock(store, EmptyBlock(rules, store, hash)).Ok?
  {
    hide ExecuteBlock, GetDonation, StoreOk, GetBalance, Validated, RewardAt, RecordsDonation, CalcNextDonation;
    var d := GetDonation(store).value;
    var draft := CoinbaseBlock(store, hash, d, 0, 0);
    var b := EmptyBlock(rules, store, hash);
    assert b == CoinbaseBlock(store, hash, d, 0, b.stateRoot);
    CoinbaseBlockIsValidated(rules, store, hash, 0, b.stateRoot);
    assert OrderlyBlock(b);
    ZeroFeeCoinbaseExecutes(rules, store, b);
    RootDoesNotMatter(store, draft, b.stateRoot);
    assert Validated(rules, store, b) && b.winnerHash == 0;
    AcceptedIfExecutes(rules, store, b);
  }

  lemma AcceptedIfExecutes(rules: Rules, store: Store, b: Block)
    requires b.height > 0 && Validated(rules, store, b) && b.winnerHash == 0
    requires ExecuteBlock(store.state, store.net, b, GetDonation(store)).Ok?
    requires b.stateRoot == rules.stateRoot(ExecuteBlock(store.state, store.net, b, GetDonation(store)).value)
    ensures TransactionCheck(rules, store, b).None?
  {
    hide ExecuteBlock, GetDonation, ValidationError;
  }

  /** A chain whose donation is ready can be extended. */
  lemma ChainCanGrow(rules: Rules, net: Network, genesis: Txn, blocks: seq<Block>, hash: Uint256)
    requires AcceptedChain(rules, net, genesis, blocks) && AllowsCoinbases(rules)
    requires forall i :: 0 <= i < |blocks| ==> ChargesAllFees(blocks[i]) && OrderlyBlock(blocks[i])
    requires var store := StoreAfter(net, genesis, blocks).value;
      DonationReady(store) && hash !in store.txnHashes && CheckAmount(RewardAt(store.height + 1) + GetDonation(store).value)
    ensures var b := EmptyBlock(rules, StoreAfter(net, genesis, blocks).value, hash);
      AcceptedChain(rules, net, genesis, blocks + [b]) && ChargesAllFees(b) && OrderlyBlock(b)
  {
    hide CheckAmount, RewardAt, TransactionCheck, SaveBlock, SaveGenesis, SupplyOk, Held, GetDonation, ExecuteBlock,
      RecordsDonation, GetBalance;
    var store := StoreAfter(net, genesis, blocks).value;
    ChargedSupply(rules, net, genesis, blocks);
    EmptyBlockIsAccepted(rules, store, hash);
    var b := EmptyBlock(rules, store, hash);
    assert (blocks + [b])[..|blocks|] == blocks;
  }

  // ----- The donation stays covered -----

  predicate ZeroFeeCoinbase(b: Block) {
    b.txns != [] ==> b.txns[0].fee == 0
  }

  /** How many blocks, from the next on, draw the donation recorded for the interval. */
  function Remaining(height: nat): (r: nat)
    ensures 1 <= r <= REWARD_ADJUST_INTERVAL
  {
    REWARD_ADJUST_INTERVAL - height % REWARD_ADJUST_INTERVAL
  }

  function IntervalStart(height: nat): nat {
    height / REWARD_ADJUST_INTERVAL * REWARD_ADJUST_INTERVAL
  }

  /** What r blocks draw at d each, and two donations more. */
  function Reserve(r: nat, d: int): int {
    (r + 2) * d
  }

  /** The share of the account that is recorded for an interval. */
  function ShareOf(balance: int): int {
    balance / 2 / REWARD_ADJUST_INTERVAL
  }

  /** While donations are delayed, the account holds what the rest of the interval will draw and two
      donations more. */
  predicate DonationsCovered(store: Store) {
    !DonationNoDelay(store.height + 1) ==>
      var start := IntervalStart(store.height);
      && start in store.donations && store.donations[start].height == start && store.donations[start].amount >= 0
      && Reserve(Remaining(store.height), store.donations[start].amount) <= GetBalance(store, store.net.donationAddress)
  }

  lemma NextInterval(height: nat)
    ensures IntervalStart(height) == height - height % REWARD_ADJUST_INTERVAL
    ensures (height + 1) % REWARD_ADJUST_INTERVAL != 0 ==>
      IntervalStart(height + 1) == IntervalStart(height) && Remaining(height + 1) == Remaining(height) - 1
    ensures (height + 1) % REWARD_ADJUST_INTERVAL == 0 ==>
      IntervalStart(height + 1) == height + 1 == IntervalStart(height) + REWARD_ADJUST_INTERVAL
      && Remaining(height) == 1 && Remaining(height + 1) == REWARD_ADJUST_INTERVAL
  {
    var n := REWARD_ADJUST_INTERVAL;
    var q, r := height / n, height % n;
    DivMod(height, n);
    DivMod(height + 1, n);
    if r + 1 < n {
      DivUnique(height + 1, n, q, r + 1);
    } else {
      Distribute(q, 1, n);
      DivUnique(height + 1, n, q + 1, 0);
    }
  }

  /** The share recorded next leaves the same slack, after the last draw of the old one. */
  lemma NextShare(balance: nat, donation: nat)
    requires 3 * donation <= balance
    ensures (REWARD_ADJUST_INTERVAL + 2) * (balance / 2 / REWARD_ADJUST_INTERVAL) <= balance - donation
  {
    var n, share := REWARD_ADJUST_INTERVAL, balance / 2 / REWARD_ADJUST_INTERVAL;
    DivMod(balance / 2, n);
    Scale(6, n, share);
    Distribute(n, 2, share);
  }

  lemma {:induction false} DonorSpendsNothing(rules: Rules, store: Store, txns: seq<Txn>, n: nat, height: nat)
    requires n <= |txns| && AllTxnsOk(rules, store, txns, n, height) && (txns != [] ==> txns[0].fee == 0)
    ensures Spent(store, txns, n, store.net.donationAddress) == 0
    decreases n
  {
    if n == 0 {
    } else {
      DonorSpendsNothing(rules, store, txns, n - 1, height);
      assert TxnOk(rules, store, n - 1, txns[n - 1], height);
    }
  }

  /** A block whose coinbase is free takes the donation from the donation account and nothing else. */
  lemma OnlyDonationDrawn(rules: Rules, store: Store, b: Block)
    requires StoreOk(store) && b.height > 0 && TransactionCheck(rules, store, b).None? && ZeroFeeCoinbase(b)
    requires SaveBlock(store, b).Ok? && OrderlyBlock(b)
    ensures GetDonation(store).Ok?
    ensures GetBalance(SaveBlock(store, b).value, store.net.donationAddress)
         >= GetBalance(store, store.net.donationAddress) - GetDonation(store).value
  {
    hide StoreOk, Validated, TransactionCheck, GetDonation, TotalFee, AllTxnsOk, CheckPrefix, SpendPrefix, RewardAt,
      Sound, Held,
      ChannelsFollow, AssetsFollow, Funded, Distinct, TxnOk, CalcNextDonation;
    AcceptedIsValidated(rules, store, b);
    ValidatedCoinbase(rules, store, b);
    ValidatedExecutes(rules, store, b);
    ExecutesPrefix(rules, store, b, |b.txns|);
    ValidatedLoop(rules, store, b);
    ValidatedPrefixes(rules, store, b.txns, |b.txns|, b.height);
    DonorSpendsNothing(rules, store, b.txns, |b.txns|, b.height);
  }

  lemma SavedDonations(store: Store, b: Block)
    requires SaveBlock(store, b).Ok?
    ensures var next := SaveBlock(store, b).value;
      && next.net == store.net && next.height == b.height
      && (RecordsDonation(b.height) ==> CalcNextDonation(store, b.height).Ok?)
      && next.donations == if RecordsDonation(b.height) then store.donations[b.height := CalcNextDonation(store, b.height).value] else store.donations
  {
    hide ExecuteBlock, CalcNextDonation, RecordsDonation, GetDonation;
  }

  lemma RecordedShare(store: Store, height: nat)
    requires CalcNextDonation(store, height).Ok? && height > 0 && GetBalance(store, store.net.donationAddress) >= 0
    ensures CalcNextDonation(store, height).value
         == Donation(height, ShareOf(GetBalance(store, store.net.donationAddress)))
  {
    hide GetBalance;
  }

  /** While donations are delayed: what is recorded for the interval, and what covers it. */
  lemma CoveredDelayed(store: Store)
    requires DonationsCovered(store) && !DonationNoDelay(store.height + 1)
    ensures var start := IntervalStart(store.height);
      && start in store.donations && store.donations[start].height == start && store.donations[start].amount >= 0
      && Reserve(Remaining(store.height), store.donations[start].amount) <= GetBalance(store, store.net.donationAddress)
      && GetDonation(store) == Ok(store.donations[start].amount)
  {
    DelayedDonation(store);
  }

  /** And the other way round. */
  lemma CoveredFrom(store: Store, d: int)
    requires IntervalStart(store.height) in store.donations
    requires store.donations[IntervalStart(store.height)] == Donation(IntervalStart(store.height), d) && d >= 0
    requires Reserve(Remaining(store.height), d) <= GetBalance(store, store.net.donationAddress)
    ensures DonationsCovered(store)
  {
    hide GetBalance, IntervalStart, Remaining, Reserve;
  }

  /** A step inside an interval: one donation less to come, and at most one drawn. */
  lemma CoverInside(r: nat, d: int, balance: int, next: int)
    requires r >= 1 && Reserve(r, d) <= balance && balance - d <= next
    ensures Reserve(r - 1, d) <= next
  {
    Distribute(r + 2, 1, d);
  }

  /** The step that records the next share. */
  lemma CoverRecorded(d: int, balance: int, next: int)
    requires d >= 0 && Reserve(1, d) <= balance && balance - d <= next
    ensures Reserve(REWARD_ADJUST_INTERVAL, ShareOf(balance)) <= next && ShareOf(balance) >= 0
  {
    NextShare(balance, d);
  }

  lemma DelayEnds(height: nat)
    requires !DonationNoDelay(height + 1)
    ensures !DonationNoDelay(height)
  {
  }

  /** How the interval goes on, while donations are delayed. */
  lemma StepsAlong(height: nat)
    requires !DonationNoDelay(height + 1)
    ensures RecordsDonation(height + 1) ==>
      IntervalStart(height + 1) == height + 1 && Remaining(height) == 1 && Remaining(height + 1) == REWARD_ADJUST_INTERVAL
    ensures !RecordsDonation(height + 1) ==>
      IntervalStart(height + 1) == IntervalStart(height) && Remaining(height + 1) == Remaining(height) - 1
  {
    hide IntervalStart, Remaining;
    NextInterval(height);
  }

  lemma NoDelayIsCovered(store: Store)
    requires DonationNoDelay(store.height + 1)
    ensures DonationsCovered(store)
  {
  }

  /** Every accepted block with a free coinbase and registration fees in range leaves the donations covered. */
  lemma CoverStep(rules: Rules, store: Store, b: Block)
    requires StoreOk(store) && b.height == store.height + 1 && TransactionCheck(rules, store, b).None? && ZeroFeeCoinbase(b)
    requires SaveBlock(store, b).Ok? && OrderlyBlock(b) && DonationsCovered(store)
    ensures DonationsCovered(SaveBlock(store, b).value)
  {
    hide StoreOk, TransactionCheck, GetBalance, Remaining, IntervalStart, SaveBlock, CalcNextDonation, GetDonation,
      DonationsCovered, RecordsDonation, OrderlyBlock, ZeroFeeCoinbase, DonationNoDelay, Reserve, ShareOf;
    SavedDonations(store, b);
    var next, donor := SaveBlock(store, b).value, store.net.donationAddress;
    if DonationNoDelay(b.height + 1) {
      NoDelayIsCovered(next);
    } else {
      DelayEnds(b.height);
      CoveredDelayed(store);
      OnlyDonationDrawn(rules, store, b);
      HeldBounds(store);
      StepsAlong(store.height);
      var d := store.donations[IntervalStart(store.height)].amount;
      if RecordsDonation(b.height) {
        RecordedShare(store, b.height);
        CoverRecorded(d, GetBalance(store, donor), GetBalance(next, donor));
        CoveredFrom(next, ShareOf(GetBalance(store, donor)));
      } else {
        CoverInside(Remaining(store.height), d, GetBalance(store, donor), GetBalance(next, donor));
        CoveredFrom(next, d);
      }
    }
  }

  lemma DelayedDonation(store: Store)
    requires !DonationNoDelay(store.height + 1) && IntervalStart(store.height) in store.donations
    ensures GetDonation(store) == Ok(store.donations[IntervalStart(store.height)].amount)
  {
  }

  lemma {:induction false} DonationsStayCovered(rules: Rules, net: Network, genesis: Txn, blocks: seq<Block>)
    requires AcceptedChain(rules, net, genesis, blocks)
    requires forall i :: 0 <= i < |blocks| ==> ChargesAllFees(blocks[i]) && OrderlyBlock(blocks[i]) && ZeroFeeCoinbase(blocks[i])
    ensures DonationsCovered(StoreAfter(net, genesis, blocks).value)
    decreases |blocks|
  {
    hide TransactionCheck, SaveBlock, SaveGenesis, ChargesAllFees, ZeroFeeCoinbase, DonationsCovered, GetBalance,
      StoreOk, Held, OrderlyBlock;
    if blocks == [] {
      ChargedSupply(rules, net, genesis, []);
      GenesisIsCovered(net, genesis);
    } else {
      var prev, b := blocks[..|blocks| - 1], blocks[|blocks| - 1];
      DonationsStayCovered(rules, net, genesis, prev);
      ChargedSupply(rules, net, genesis, prev);
      CoverStep(rules, StoreAfter(net, genesis, prev).value, b);
    }
  }

  lemma GenesisIsCovered(net: Network, genesis: Txn)
    requires SaveGenesis(net, genesis).Ok? && GetBalance(SaveGenesis(net, genesis).value, net.donationAddress) >= 0
    ensures DonationsCovered(SaveGenesis(net, genesis).value)
  {
    hide ExecuteGenesis, GetBalance;
    NextInterval(0);
    assert SaveGenesis(net, genesis).value.donations == map[0 := Donation(0, 0)];
  }

  // ----- Progress -----

  lemma RewardInRange(height: nat)
    requires height > 0
    ensures 0 <= RewardAt(height) <= TOTAL_MINING_REWARDS
  {
    MinedIsCapped(height);
    hide RewardAt;
    assert Mined(height) == Mined(height - 1) + RewardAt(height);
  }

  /** Covered donations are ready to be drawn, before and after donations lose their delay. */
  lemma CoveredIsReady(store: Store)
    requires DonationsCovered(store) && 0 <= GetBalance(store, store.net.donationAddress) <= MAX_SUPPLY
    ensures DonationReady(store) && CheckAmount(RewardAt(store.height + 1) + GetDonation(store).value)
  {
    hide GetBalance, RewardAt;
    RewardInRange(store.height + 1);
    NextInterval(store.height);
    if !DonationNoDelay(store.height + 1) {
      DelayedDonation(store);
      var d := store.donations[IntervalStart(store.height)].amount;
      Scale(3, Remaining(store.height) + 2, d);
    }
  }

  /** An accepted chain of blocks with free coinbases, all of whose fees are charged and whose registration
      fees are in range. */
  predicate HealthyChain(rules: Rules, net: Network, genesis: Txn, blocks: seq<Block>) {
    && AcceptedChain(rules, net, genesis, blocks)
    && forall i :: 0 <= i < |blocks| ==> ChargesAllFees(blocks[i]) && OrderlyBlock(blocks[i]) && ZeroFeeCoinbase(blocks[i])
  }

  lemma HealthyIsStored(rules: Rules, net: Network, genesis: Txn, blocks: seq<Block>)
    requires HealthyChain(rules, net, genesis, blocks)
    ensures StoreAfter(net, genesis, blocks).Ok?
  {
    hide StoreAfter;
  }

  /** The chain never gets stuck: every healthy chain can be extended and stays healthy, so it can be
      extended again and again. */
  lemma ChainNeverStuck(rules: Rules, net: Network, genesis: Txn, blocks: seq<Block>) returns (b: Block)
    requires HealthyChain(rules, net, genesis, blocks) && AllowsCoinbases(rules)
    ensures HealthyChain(rules, net, genesis, blocks + [b]) && |b.txns| == 1
  {
    hide AcceptedChain, ChargesAllFees, SupplyOk, StoreAfter, GetBalance, GetDonation, Mined, Held, CheckAmount,
      RecordsDonation,
      DonationsCovered, ExecuteBlock, RewardAt, AllowsCoinbases, CalcNextDonation;
    HealthyIsStored(rules, net, genesis, blocks);
    var store := StoreAfter(net, genesis, blocks).value;
    var hash := UnusedHash(store.txnHashes);
    ChargedSupply(rules, net, genesis, blocks);
    DonationsStayCovered(rules, net, genesis, blocks);
    CoveredIsReady(store);
    ChainCanGrow(rules, net, genesis, blocks, hash);
    b := EmptyBlock(rules, store, hash);
    assert ZeroFeeCoinbase(b);
  }

  lemma {:induction false} UnusedHash(used: set<Uint256>) returns (hash: Uint256)
    ensures forall h :: h in used ==> h < hash
    decreases |used|
  {
    hash := 0;
    if used != {} {
      var h :| h in used;
      var rest := UnusedHash(used - {h});
      hash := if rest > h then rest else h + 1;
      forall x | x in used ensures x < hash {
        assert x == h || x in used - {h};
      }
    }
  }

  /** There are healthy chains of every length. */
  lemma {:induction false} HealthyChains(rules: Rules, net: Network, genesis: Txn, n: nat) returns (blocks: seq<Block>)
    requires GenesisOk(net, genesis) && AllowsCoinbases(rules)
    ensures |blocks| == n && HealthyChain(rules, net, genesis, blocks)
    decreases n
  {
    hide HealthyChain, AllowsCoinbases;
    if n == 0 {
      blocks := [];
      GenesisIsHealthy(rules, net, genesis);
    } else {
      var shorter := HealthyChains(rules, net, genesis, n - 1);
      var b := ChainNeverStuck(rules, net, genesis, shorter);
      blocks := shorter + [b];
    }
  }

  lemma GenesisIsHealthy(rules: Rules, net: Network, genesis: Txn)
    requires GenesisOk(net, genesis)
    ensures HealthyChain(rules, net, genesis, [])
  {
    hide SaveGenesis, SupplyOk;
    GenesisSupply(net, genesis);
  }

  // ----- How much is donated -----

  /** The share of an account that is paid out: as many whole parts of it as there are. */
  predicate IsShare(d: int, balance: int, num: nat, den: nat) {
    d * den <= balance * num < (d + 1) * den
  }

  lemma ShareExact(balance: nat, num: nat, den: nat)
    requires den > 0
    ensures IsShare(balance * num / den, balance, num, den)
  {
    DivMod(balance * num, den);
    Distribute(balance * num / den, 1, den);
  }

  lemma HalfShare(balance: nat)
    ensures IsShare(ShareOf(balance), balance, 1, 2 * REWARD_ADJUST_INTERVAL)
  {
    DivTwice(balance, REWARD_ADJUST_INTERVAL);
    ShareExact(balance, 1, 2 * REWARD_ADJUST_INTERVAL);
  }

  /** From height 3030000 on every block is paid 11/25000000 of the donation account. */
  lemma DonatesShare(store: Store)
    requires store.height + 1 >= 3030000 && 0 <= GetBalance(store, store.net.donationAddress) <= LEDGER_LIMIT
    ensures GetDonation(store).Ok?
    ensures IsShare(GetDonation(store).value, GetBalance(store, store.net.donationAddress), 11, 25000000)
  {
    hide GetBalance, IsShare;
    ShareExact(GetBalance(store, store.net.donationAddress), 11, 25000000);
  }

  /** Before, at each multiple of 1576800 (a year of blocks) half of the account as it was before that block
      is recorded, to be paid out over as many blocks. */
  lemma {:induction false} RecordsYearlyShare(rules: Rules, net: Network, genesis: Txn, blocks: seq<Block>, i: nat)
    requires AcceptedChain(rules, net, genesis, blocks) && 0 < i <= |blocks| && i % 1576800 == 0 && i < 3030000
    requires StoreAfter(net, genesis, blocks[..i - 1]).Ok?
    requires GetBalance(StoreAfter(net, genesis, blocks[..i - 1]).value, net.donationAddress) >= 0
    ensures StoreAfter(net, genesis, blocks).Ok? && i in StoreAfter(net, genesis, blocks).value.donations
    ensures var before, d := StoreAfter(net, genesis, blocks[..i - 1]).value, StoreAfter(net, genesis, blocks).value.donations[i];
      d.height == i && IsShare(d.amount, GetBalance(before, net.donationAddress), 1, 3153600)
    decreases |blocks|
  {
    hide TransactionCheck, SaveBlock, SaveGenesis, GetBalance, CalcNextDonation, IsShare, ShareOf;
    ChainIsStored(rules, net, genesis, blocks);
    HeightsCount(rules, net, genesis, blocks);
    var n := |blocks| - 1;
    var store := StoreAfter(net, genesis, blocks[..n]).value;
    HeightsCount(rules, net, genesis, blocks[..n]);
    SavedDonations(store, blocks[n]);
    if i == |blocks| {
      RecordedShare(store, i);
      HalfShare(GetBalance(store, net.donationAddress));
    } else {
      assert blocks[..n][..i - 1] == blocks[..i - 1];
      RecordsYearlyShare(rules, net, genesis, blocks[..n], i);
    }
  }

  /** And that is what every block of the following year is paid. */
  lemma DonatesRecorded(store: Store, start: nat)
    requires start % 1576800 == 0 && start <= store.height < start + 1576800 && store.height + 1 < 3030000
    ensures GetDonation(store) == if start in store.donations then Ok(store.donations[start].amount) else Err(NoDonation)
  {
    DivMod(start, REWARD_ADJUST_INTERVAL);
    DivUnique(store.height, REWARD_ADJUST_INTERVAL, start / REWARD_ADJUST_INTERVAL, store.height - start);
  }
}
