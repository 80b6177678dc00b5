/** Inputs on which promises fail: accepted chains that show what the exact conditions are for. */
module Counterexamples {
  import opened Common
  import opened Arith
  import opened Transactions
  import opened Accounts
  import opened Rewards
  import opened Execution
  import opened Ledger
  import opened BlockValidation
  import opened BlockCheck
  import opened BlockFacts
  import opened SpendFacts
  import opened BlockExecution
  import opened ChainRuns
  import opened ChainProgress
  import Merkle
  import ET = ExpiryTables

  /** The rules outside the model object to nothing. */
  ghost predicate Permissive(rules: Rules) {
    forall t: Txn, height: nat :: rules.wellFormed(t, height)
  }

  // ----- A block of a coinbase and one more transaction -----

  function PairTxns(store: Store, hash: Uint256, t: Txn): seq<Txn>
    requires GetDonation(store).Ok?
  {
    CoinbaseBlock(store, hash, GetDonation(store).value, 0, 0).txns + [t]
  }

  function PairBlock(rules: Rules, store: Store, hash: Uint256, t: Txn): Block
    requires GetDonation(store).Ok?
  {
    var draft := Block(store.height + 1, rules.pairHash(hash, t.hash), 0, 0, PairTxns(store, hash, t));
    var after := ExecuteBlock(store.state, store.net, draft, GetDonation(store));
    if after.Ok? then draft.(stateRoot := rules.stateRoot(after.value)) else draft
  }

  /** A transfer or a first payment on a channel that its sender can afford. */
  predicate Affordable(store: Store, t: Txn) {
    && t.sender != store.net.donationAddress && t.size == 1 && t.hash !in store.txnHashes && CheckAmount(t.fee)
    && t.nonce == GetNonce(store, t.sender)
    && match t.payload {
      case TransferAsset(_, amount) => CheckAmount(amount) && amount + t.fee <= GetBalance(store, t.sender)
      case NanoPay(_, _, amount, txnExpiration, expiration) =>
        && store.height + 1 <= txnExpiration <= expiration && CheckAmount(amount)
        && ChannelBalance(store, Channel(t)) < amount && ClaimOf(store, t) + t.fee <= GetBalance(store, t.sender)
      case _ => false
    }
  }

  lemma AffordablePasses(rules: Rules, store: Store, c: CheckState, t: Txn)
    requires Permissive(rules) && Affordable(store, t)
    requires t.hash !in c.bvs.txnlist && c.bvs.totalAmount == map[] && c.bvs.nanoPayAmount == map[]
    requires c.bvs.nanoPays == {} && c.nonces == map[]
    ensures CheckTxn(rules, store, c, 1, t, store.height + 1).Ok?
  {
    hide GetBalance, GetNonce, Admit, ChannelBalance;
    assert VerifyTransaction(rules, store, t, store.height + 1);
    assert VerifyError(c.bvs, store, rules.maxSubscriptions, t, store.height + 1).None?;
    assert VerifyWithLedger(rules, store, t, store.height + 1);
  }

  /** What the coinbase leaves in the validation state. */
  lemma CoinbaseBooksNothing(store: Store, t: Txn)
    requires t.payload.Coinbase? && t.fee == 0
    ensures var b := Admit(NewBvs, store, t);
      b.txnlist == {t.hash} && b.totalAmount == map[] && b.nanoPayAmount == map[] && b.nanoPays == {}
  {
  }

  lemma CoinbaseStep(rules: Rules, store: Store, t: Txn, height: nat)
    requires t.payload.Coinbase? && height > 0 && CheckTxn(rules, store, NewCheck, 0, t, height).Ok?
    ensures CheckTxn(rules, store, NewCheck, 0, t, height) == Ok(CheckState(Admit(NewBvs, store, t), map[]))
  {
    hide Admit, VerifyTransaction, VerifyWithLedger, VerifyError, ExpectedNonce;
    assert !Ordinary(t);
  }

  lemma FirstPasses(rules: Rules, store: Store, txns: seq<Txn>, height: nat)
    requires txns != [] && height > 0 && txns[0].payload.Coinbase?
    requires CheckPrefix(rules, store, [txns[0]], 1, height).Ok?
    ensures CheckPrefix(rules, store, txns, 1, height) == Ok(CheckState(Admit(NewBvs, store, txns[0]), map[]))
  {
    hide Admit, CheckTxn;
    var one := [txns[0]];
    assert CheckPrefix(rules, store, one, 0, height) == Ok(NewCheck) == CheckPrefix(rules, store, txns, 0, height);
    assert CheckPrefix(rules, store, one, 1, height) == CheckTxn(rules, store, NewCheck, 0, txns[0], height);
    assert CheckPrefix(rules, store, txns, 1, height) == CheckTxn(rules, store, NewCheck, 0, txns[0], height);
    CoinbaseStep(rules, store, txns[0], height);
  }

  lemma PairRoot(rules: Rules, store: Store, hash: Uint256, t: Txn)
    requires GetDonation(store).Ok?
    ensures var txns := PairTxns(store, hash, t);
      TotalSize(txns) == 1 + t.size && Merkle.Root(rules.pairHash, TxnHashes(txns)) == rules.pairHash(hash, t.hash)
  {
    var txns := PairTxns(store, hash, t);
    var one := [txns[0]];
    assert |txns| == 2 && txns[..1] == one && one[..0] == [];
    assert TotalSize(one) == TotalSize(one[..0]) + 1;
    assert TxnHashes(txns) == [hash, t.hash];
    var up := Merkle.LevelUp(rules.pairHash, [hash, t.hash]);
    assert up == [rules.pairHash(hash, t.hash)];
    assert Merkle.Root(rules.pairHash, up) == up[0];
  }

  /** What the second transaction of a block is checked against. */
  function AfterCoinbase(store: Store, hash: Uint256): CheckState
    requires GetDonation(store).Ok?
  {
    CheckState(Admit(NewBvs, store, CoinbaseBlock(store, hash, GetDonation(store).value, 0, 0).txns[0]), map[])
  }

  /** A coinbase and a transaction that passes after it make a validated block. */
  lemma PairBlockIsValidated(rules: Rules, store: Store, hash: Uint256, t: Txn)
    requires SupplyOk(store) && DonationReady(store) && AllowsCoinbases(rules) && hash !in store.txnHashes && t.size == 1
    requires CheckAmount(RewardAt(store.height + 1) + GetDonation(store).value)
    requires CheckTxn(rules, store, AfterCoinbase(store, hash), 1, t, store.height + 1).Ok?
    ensures Validated(rules, store, PairBlock(rules, store, hash, t))
  {
    hide ExecuteBlock, GetDonation, StoreOk, GetBalance, RewardAt, RecordsDonation, CalcNextDonation, Admit, CheckTxn,
      TotalSize, Merkle.Root;
    var txns, height := PairTxns(store, hash, t), store.height + 1;
    var one := CoinbaseBlock(store, hash, GetDonation(store).value, 0, 0);
    CoinbaseBlockIsValidated(rules, store, hash, 0, 0);
    ValidatedLoop(rules, store, one);
    assert one.txns == [txns[0]];
    FirstPasses(rules, store, txns, height);
    assert CheckPrefix(rules, store, txns, 2, height).Ok?;
    PairRoot(rules, store, hash, t);
  }

  /** And if it executes and the store can be saved, an accepted one. */
  lemma PairBlockIsSaved(rules: Rules, store: Store, hash: Uint256, t: Txn)
    requires DonationReady(store) && Validated(rules, store, PairBlock(rules, store, hash, t))
    requires ExecuteBlock(store.state, store.net, PairBlock(rules, store, hash, t), GetDonation(store)).Ok?
    ensures TransactionCheck(rules, store, PairBlock(rules, store, hash, t)).None?
    ensures SaveBlock(store, PairBlock(rules, store, hash, t)).Ok?
  {
    hide ExecuteBlock, GetDonation, GetBalance, RewardAt, RecordsDonation, CalcNextDonation, Validated, PairTxns;
    var b := PairBlock(rules, store, hash, t);
    RootDoesNotMatter(store, Block(store.height + 1, rules.pairHash(hash, t.hash), 0, 0, PairTxns(store, hash, t)),
      b.stateRoot);
    AcceptedIfExecutes(rules, store, b);
  }

  /** A coinbase and an affordable transaction make an accepted block. */
  lemma PairBlockIsAccepted(rules: Rules, store: Store, hash: Uint256, t: Txn)
    requires SupplyOk(store) && DonationReady(store) && Permissive(rules) && hash !in store.txnHashes && hash != t.hash
    requires CheckAmount(RewardAt(store.height + 1) + GetDonation(store).value) && Affordable(store, t)
    ensures TransactionCheck(rules, store, PairBlock(rules, store, hash, t)).None?
    ensures SaveBlock(store, PairBlock(rules, store, hash, t)).Ok?
  {
    hide ExecuteBlock, GetDonation, StoreOk, GetBalance, RewardAt, RecordsDonation, CalcNextDonation, Affordable, Admit,
      CheckTxn, Validated, RegistrationInRange;
    CoinbaseBooksNothing(store, PairTxns(store, hash, t)[0]);
    AffordablePasses(rules, store, AfterCoinbase(store, hash), t);
    AffordableSize(store, t);
    PairBlockIsValidated(rules, store, hash, t);
    AffordableIsOrderly(store, t);
    var b := PairBlock(rules, store, hash, t);
    assert RegistrationInRange(b.txns[0]) by { CoinbaseInRange(b.txns[0]); }
    assert OrderlyBlock(b);
    ZeroFeeCoinbaseExecutes(rules, store, b);
    PairBlockIsSaved(rules, store, hash, t);
  }

  lemma CoinbaseInRange(t: Txn)
    requires t.payload.Coinbase?
    ensures RegistrationInRange(t)
  {
  }

  lemma AffordableIsOrderly(store: Store, t: Txn)
    requires Affordable(store, t)
    ensures RegistrationInRange(t)
  {
  }

  lemma AffordableSize(store: Store, t: Txn)
    requires Affordable(store, t)
    ensures t.size == 1
  {
  }

  // ----- After genesis -----

  /** The issue address holds the initial issue and has sent nothing. */
  lemma GenesisHoldings(net: Network, genesis: Txn)
    requires GenesisOk(net, genesis) && net.issueAddress != net.donationAddress
    ensures SaveGenesis(net, genesis).Ok?
    ensures var store := SaveGenesis(net, genesis).value;
      && GetBalance(store, net.issueAddress) == INITIAL_ISSUE_AMOUNT && GetNonce(store, net.issueAddress) == 0
      && store.net == net && store.height == 0 && store.txnHashes == {genesis.hash}
      && store.donations == map[0 := Donation(0, 0)] && store.state.nanoPay.zero == 0
      && forall ch :: ET.Peek(store.state.nanoPay, ch).data == 0
  {
    assert TotalFee([genesis]) == 0 by { assert [genesis][..0] == []; }
  }

  /** A nano-pay of one unit with a fee of one unit, from the issue address. */
  function FeePayment(net: Network, hash: Uint256): Txn {
    Txn(hash, net.issueAddress, NanoPay(net.donationAddress, 0, 1, 1, 1), 0, 1, 1)
  }

  /** Below the height at which nano-pay fees are charged, one block is enough: it is accepted, and
      afterwards more is held than was ever issued. */
  lemma UnchargedFeeBreaksSupply(rules: Rules, net: Network, genesis: Txn) returns (b: Block)
    requires GenesisOk(net, genesis) && net.issueAddress != net.donationAddress && Permissive(rules)
    ensures AcceptedChain(rules, net, genesis, [b]) && !ChargesAllFees(b)
    ensures !SupplyOk(StoreAfter(net, genesis, [b]).value)
  {
    hide SaveBlock, SaveGenesis, ExecuteBlock, TransactionCheck, GetDonation, RewardAt, Held, StoreOk, GetBalance,
      GetNonce;
    GenesisSupply(net, genesis);
    GenesisHoldings(net, genesis);
    var store := SaveGenesis(net, genesis).value;
    var hash, t := genesis.hash + 1, FeePayment(net, genesis.hash + 2);
    assert StoreAfter(net, genesis, []) == Ok(store) && AcceptedChain(rules, net, genesis, []);
    GenesisReady(net, genesis);
    ChargedSupply(rules, net, genesis, []);
    RewardInRange(1);
    PairBlockIsAccepted(rules, store, hash, t);
    b := PairBlock(rules, store, hash, t);
    assert b.txns[1] == t;
    assert [b][..0] == [];
    SupplyStep(rules, store, b);
  }

  lemma GenesisReady(net: Network, genesis: Txn)
    requires SaveGenesis(net, genesis).Ok? && SaveGenesis(net, genesis).value.height == 0
    requires SaveGenesis(net, genesis).value.donations == map[0 := Donation(0, 0)]
    ensures GetDonation(SaveGenesis(net, genesis).value) == Ok(0) && !RecordsDonation(1)
  {
    hide SaveGenesis;
  }

  // ----- A validated block that cannot execute -----

  const GIFT := 10000000000

  /** A transfer to the donation address, from the issue address. */
  function Gift(net: Network, hash: Uint256): Txn {
    Txn(hash, net.issueAddress, TransferAsset(net.donationAddress, GIFT), 0, 0, 1)
  }

  /** A healthy chain in the first interval, whose donation account holds the gift. */
  ghost predicate Endowed(rules: Rules, net: Network, genesis: Txn, blocks: seq<Block>) {
    && HealthyChain(rules, net, genesis, blocks) && StoreAfter(net, genesis, blocks).Ok?
    && var store := StoreAfter(net, genesis, blocks).value;
      store.donations == map[0 := Donation(0, 0)] && GetBalance(store, net.donationAddress) >= GIFT
  }

  lemma GiftArrives(rules: Rules, net: Network, genesis: Txn) returns (blocks: seq<Block>)
    requires GenesisOk(net, genesis) && net.issueAddress != net.donationAddress && Permissive(rules)
    ensures |blocks| == 1 && Endowed(rules, net, genesis, blocks)
  {
    hide SaveBlock, SaveGenesis, ExecuteBlock, TransactionCheck, GetDonation, RewardAt, Held, StoreOk, GetBalance,
      GetNonce,
      RecordsDonation;
    GenesisSupply(net, genesis);
    GenesisHoldings(net, genesis);
    var store := SaveGenesis(net, genesis).value;
    var hash, t := genesis.hash + 1, Gift(net, genesis.hash + 2);
    assert StoreAfter(net, genesis, []) == Ok(store) && AcceptedChain(rules, net, genesis, []);
    GenesisReady(net, genesis);
    ChargedSupply(rules, net, genesis, []);
    RewardInRange(1);
    PairBlockIsAccepted(rules, store, hash, t);
    var b := PairBlock(rules, store, hash, t);
    assert b.txns[1] == t && b.txns[0].fee == 0;
    blocks := [b];
    assert blocks[..0] == [];
    SavedDonations(store, b);
    GiftIsHeld(rules, store, b, t);
  }

  lemma GiftIsHeld(rules: Rules, store: Store, b: Block, t: Txn)
    requires SupplyOk(store) && b.height == store.height + 1 && |b.txns| == 2 && ZeroFeeCoinbase(b)
    requires TransactionCheck(rules, store, b).None? && SaveBlock(store, b).Ok? && GetDonation(store) == Ok(0)
    requires b.txns[1] == t && t == Gift(store.net, t.hash) && store.net.issueAddress != store.net.donationAddress
    ensures GetBalance(SaveBlock(store, b).value, store.net.donationAddress) >= GIFT
  {
    hide StoreOk, Validated, TransactionCheck, GetDonation, TotalFee, Sound, Held, Bal, ChannelsFollow, AssetsFollow,
      CalcNextDonation, Spend, Funded, Distinct, RewardAt, Charged, ExecuteBlock, SaveBlock;
    var donor := store.net.donationAddress;
    AcceptedIsValidated(rules, store, b);
    ValidatedLoop(rules, store, b);
    ValidatedPrefixes(rules, store, b.txns, 2, b.height);
    assert AllTxnsOk(rules, store, b.txns, 2, b.height);
    OneTxnOk(rules, store, b.txns, 2, 1, b.height);
    OneTxnOk(rules, store, b.txns, 2, 0, b.height);
    HeldBounds(store);
    ValidatedCoinbase(rules, store, b);
    ExecutesPrefix(rules, store, b, 1);
    var st := SpendPrefix(store.state, store.net, b.txns, 1, TotalFee(b.txns), b.height, GetDonation(store)).value;
    SecondEffect(rules, store, b, t, st);
  }

  lemma SecondEffect(rules: Rules, store: Store, b: Block, t: Txn, st: State)
    requires StoreOk(store) && |b.txns| == 2 && b.height > 0 && GetDonation(store) == Ok(0) && SaveBlock(store, b).Ok?
    requires SpendPrefix(store.state, store.net, b.txns, 1, TotalFee(b.txns), b.height, GetDonation(store)) == Ok(st)
    requires Follows(store, b.txns, 1, b.height, TotalFee(b.txns), 0, st) && TxnOk(rules, store, 1, t, b.height)
    requires b.txns[1] == t && t == Gift(store.net, t.hash) && store.net.issueAddress != store.net.donationAddress
    requires b.txns[0].payload.Coinbase? && b.txns[0].sender == store.net.donationAddress && b.txns[0].fee == 0
    requires GetBalance(store, store.net.donationAddress) >= 0
    ensures GetBalance(SaveBlock(store, b).value, store.net.donationAddress) >= GIFT
  {
    hide StoreOk, TotalFee, Sound, Held, Bal, ChannelsFollow, CalcNextDonation, Spend, RewardAt, Charged, GetDonation,
      RecordsDonation, CleanupState, FinalizeState;
    var net := store.net;
    assert Spent(store, b.txns, 1, net.donationAddress) == 0 && Spent(store, b.txns, 1, t.sender) == 0;
    TxnFacts(st, net, t, TotalFee(b.txns), b.height, GetDonation(store));
    var st2 := Spend(st, net, t, TotalFee(b.txns), false, b.height, GetDonation(store)).value;
    assert SpendPrefix(store.state, net, b.txns, 2, TotalFee(b.txns), b.height, GetDonation(store)) == Ok(st2);
    SavedBalance(store, b, st2, net.donationAddress);
  }

  lemma SavedBalance(store: Store, b: Block, spent: State, addr: Uint160)
    requires SaveBlock(store, b).Ok?
    requires SpendPrefix(store.state, store.net, b.txns, |b.txns|, TotalFee(b.txns), b.height, GetDonation(store)) == Ok(spent)
    ensures GetBalance(SaveBlock(store, b).value, addr) == Bal(store.net, spent.accounts, addr)
  {
    hide SpendPrefix, TotalFee, GetDonation, CalcNextDonation, RecordsDonation, BalanceOf;
  }

  /** While the first interval lasts nothing is drawn, so the gift stays. */
  lemma {:induction false} GiftStays(rules: Rules, net: Network, genesis: Txn, n: nat) returns (blocks: seq<Block>)
    requires GenesisOk(net, genesis) && net.issueAddress != net.donationAddress && Permissive(rules)
    requires 1 <= n < REWARD_ADJUST_INTERVAL
    ensures |blocks| == n && Endowed(rules, net, genesis, blocks)
    decreases n
  {
    hide HealthyChain, StoreAfter, GetBalance;
    if n == 1 {
      blocks := GiftArrives(rules, net, genesis);
    } else {
      var shorter := GiftStays(rules, net, genesis, n - 1);
      var b := Extended(rules, net, genesis, shorter);
      blocks := shorter + [b];
      EndowedGrows(rules, net, genesis, shorter, b);
    }
  }

  lemma Extended(rules: Rules, net: Network, genesis: Txn, blocks: seq<Block>) returns (b: Block)
    requires HealthyChain(rules, net, genesis, blocks) && Permissive(rules)
    ensures HealthyChain(rules, net, genesis, blocks + [b])
  {
    hide HealthyChain;
    b := ChainNeverStuck(rules, net, genesis, blocks);
  }

  /** The last block of a healthy chain, on the store before it. */
  lemma HealthyStep(rules: Rules, net: Network, genesis: Txn, blocks: seq<Block>, b: Block)
    requires HealthyChain(rules, net, genesis, blocks) && HealthyChain(rules, net, genesis, blocks + [b])
    ensures StoreAfter(net, genesis, blocks).Ok? && StoreAfter(net, genesis, blocks + [b]).Ok?
    ensures var store := StoreAfter(net, genesis, blocks).value;
      && SupplyOk(store) && store.net == net && store.height == |blocks| && DonationsCovered(store)
      && 0 <= GetBalance(store, net.donationAddress) <= MAX_SUPPLY
      && b.height == store.height + 1 && TransactionCheck(rules, store, b).None? && ZeroFeeCoinbase(b) && OrderlyBlock(b)
      && SaveBlock(store, b) == StoreAfter(net, genesis, blocks + [b])
  {
    hide SaveBlock, SaveGenesis, TransactionCheck, ChargesAllFees, ZeroFeeCoinbase, SupplyOk, Held, Mined,
      DonationsCovered, GetBalance, OrderlyBlock;
    var all := blocks + [b];
    assert all[..|blocks|] == blocks && all[|blocks|] == b;
    ChargedSupply(rules, net, genesis, blocks);
    DonationsStayCovered(rules, net, genesis, blocks);
  }

  lemma EndowedGrows(rules: Rules, net: Network, genesis: Txn, blocks: seq<Block>, b: Block)
    requires Endowed(rules, net, genesis, blocks) && HealthyChain(rules, net, genesis, blocks + [b])
    requires 0 < |blocks| + 1 < REWARD_ADJUST_INTERVAL
    ensures Endowed(rules, net, genesis, blocks + [b])
  {
    hide HealthyChain, StoreAfter, SaveBlock, TransactionCheck, ZeroFeeCoinbase, SupplyOk, StoreOk, DonationsCovered,
      GetBalance,
      CalcNextDonation, Held, Mined;
    HealthyStep(rules, net, genesis, blocks, b);
    var store := StoreAfter(net, genesis, blocks).value;
    assert StoreOk(store) by { SupplyIsStore(store); }
    FirstInterval(store);
    OnlyDonationDrawn(rules, store, b);
    SavedDonations(store, b);
  }

  lemma SupplyIsStore(store: Store)
    requires SupplyOk(store)
    ensures StoreOk(store)
  {
  }

  lemma FirstInterval(store: Store)
    requires store.donations == map[0 := Donation(0, 0)] && store.height + 1 < REWARD_ADJUST_INTERVAL
    ensures GetDonation(store) == Ok(0) && !RecordsDonation(store.height + 1)
  {
    DivUnique(store.height, REWARD_ADJUST_INTERVAL, 0, store.height);
    DivUnique(store.height + 1, REWARD_ADJUST_INTERVAL, 0, store.height + 1);
  }

  lemma LastOfFirstInterval(store: Store)
    requires store.donations == map[0 := Donation(0, 0)] && store.height + 1 == REWARD_ADJUST_INTERVAL
    requires GetBalance(store, store.net.donationAddress) >= GIFT
    ensures GetDonation(store) == Ok(0) && RecordsDonation(store.height + 1)
    ensures CalcNextDonation(store, store.height + 1).Ok? && CalcNextDonation(store, store.height + 1).value.amount > 0
  {
    hide GetBalance;
    DivUnique(store.height, REWARD_ADJUST_INTERVAL, 0, store.height);
    RecordedShare(store, store.height + 1);
  }

  /** Reachable: an accepted chain with free coinbases, after which a block passes every check and
      cannot be executed. */
  lemma FeeHeavyCoinbaseExists(rules: Rules, net: Network, genesis: Txn) returns (blocks: seq<Block>, stuck: Block)
    requires GenesisOk(net, genesis) && net.issueAddress != net.donationAddress && Permissive(rules)
    ensures HealthyChain(rules, net, genesis, blocks) && StoreAfter(net, genesis, blocks).Ok?
    ensures ValidatedButStuck(rules, StoreAfter(net, genesis, blocks).value, stuck)
  {
    hide HealthyChain, StoreAfter, SaveBlock, TransactionCheck, ZeroFeeCoinbase, SupplyOk, StoreOk, DonationsCovered,
      GetBalance,
      CalcNextDonation, Held, Mined, ValidatedButStuck, GetDonation, RewardAt, CheckAmount;
    var n := REWARD_ADJUST_INTERVAL - 1;
    var shorter := GiftStays(rules, net, genesis, n);
    var b := Extended(rules, net, genesis, shorter);
    blocks := shorter + [b];
    HealthyStep(rules, net, genesis, shorter, b);
    var before := StoreAfter(net, genesis, shorter).value;
    LastOfFirstInterval(before);
    SavedDonations(before, b);
    var next := Extended(rules, net, genesis, blocks);
    HealthyStep(rules, net, genesis, blocks, next);
    var store := StoreAfter(net, genesis, blocks).value;
    CoveredIsReady(store);
    SupplyIsStore(store);
    NextInterval(before.height);
    DelayedDonation(store);
    var hash := UnusedHash(store.txnHashes);
    FeeHeavyCoinbaseFails(rules, store, hash);
    stuck := CoinbaseBlock(store, hash, GetDonation(store).value, GetBalance(store, net.donationAddress), 0);
  }
}
