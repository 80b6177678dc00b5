/** What registration fees out of range do.  Below height 7500 a name's registration fee may be any int64.
    At every one of those heights there is an accepted block that no block can follow, and a validated
    block that cannot be executed; from height 7500 on every validated block is orderly. */
module LegacyNames {
  import opened Common
  import opened Transactions
  import opened Accounts
  import opened Rewards
  import opened Execution
  import opened Ledger
  import opened BlockValidation
  import opened BlockCheck
  import opened BlockFacts
  import opened SpendFacts
  import opened BlockExecution
  import opened BvsExactness
  import opened ChainRuns
  import opened ChainProgress
  import opened Counterexamples

  /** The rules outside the model, name history included, object to nothing. */
  ghost predicate Lenient(rules: Rules) {
    Permissive(rules) && forall t: Txn, height: nat :: rules.history(t, height)
  }

  /** A registration of a new name. */
  function Registration(store: Store, hash: Uint256, sender: Uint160, registrationFee: int, fee: int): Txn {
    Txn(hash, sender, RegisterName("", "", registrationFee), GetNonce(store, sender), fee, 1)
  }

  /** At legacy heights a registration passes after the coinbase when its sender holds the transaction fee
      and the sum of the two fees, as int64, is not positive. */
  lemma RegistrationPasses(rules: Rules, store: Store, c: CheckState, t: Txn)
    requires Lenient(rules) && store.height + 1 < 7500 && t.payload.RegisterName?
    requires t == Registration(store, t.hash, t.sender, t.payload.registrationFee, t.fee)
    requires t.sender != store.net.donationAddress && t.hash !in store.txnHashes && t.hash !in c.bvs.txnlist
    requires c.bvs.registeredNames == {} && c.bvs.nameRegistrants == {} && c.nonces == map[]
    requires -TWO_63 <= t.payload.registrationFee < TWO_63 && Owed(t) <= 0
    requires CheckAmount(t.fee) && t.fee <= GetBalance(store, t.sender)
    ensures CheckTxn(rules, store, c, 1, t, store.height + 1).Ok?
  {
    hide GetBalance, GetNonce, Admit, Wrap64, Owed;
    assert VerifyTransaction(rules, store, t, store.height + 1);
    assert VerifyError(c.bvs, store, rules.maxSubscriptions, t, store.height + 1).None?;
    assert VerifyWithLedger(rules, store, t, store.height + 1);
  }

  lemma CoinbaseNamesNothing(store: Store, t: Txn)
    requires t.payload.Coinbase?
    ensures var b := Admit(NewBvs, store, t);
      b.txnlist == {t.hash} && b.registeredNames == {} && b.nameRegistrants == {}
  {
  }

  // ----- A quiet chain -----

  /** A healthy chain below height 7500 on which the issue address still holds something. */
  ghost predicate Quiet(rules: Rules, net: Network, genesis: Txn, blocks: seq<Block>) {
    && HealthyChain(rules, net, genesis, blocks) && StoreAfter(net, genesis, blocks).Ok?
    && var store := StoreAfter(net, genesis, blocks).value;
      store.donations == map[0 := Donation(0, 0)] && GetBalance(store, net.issueAddress) >= 1
  }

  /** A block of one coinbase takes nothing from anyone but the donation account. */
  lemma OthersKeep(rules: Rules, store: Store, b: Block, s: Uint160)
    requires StoreOk(store) && b.height > 0 && TransactionCheck(rules, store, b).None? && OrderlyBlock(b)
    requires SaveBlock(store, b).Ok? && |b.txns| == 1 && s != store.net.donationAddress
    ensures GetBalance(SaveBlock(store, b).value, s) >= GetBalance(store, s)
  {
    hide StoreOk, Validated, TransactionCheck, GetDonation, TotalFee, CheckPrefix, SpendPrefix, RewardAt, Sound, Held,
      ChannelsFollow, AssetsFollow, Funded, Distinct, CalcNextDonation, VerifyWithLedger, OrderlyBlock;
    AcceptedIsValidated(rules, store, b);
    ValidatedCoinbase(rules, store, b);
    ValidatedExecutes(rules, store, b);
    ExecutesPrefix(rules, store, b, 1);
    assert Spent(store, b.txns, 1, s) == 0;
  }

  lemma GenesisIsQuiet(rules: Rules, net: Network, genesis: Txn)
    requires GenesisOk(net, genesis) && net.issueAddress != net.donationAddress
    ensures Quiet(rules, net, genesis, [])
  {
    hide HealthyChain, SaveGenesis, GetBalance;
    GenesisIsHealthy(rules, net, genesis);
    GenesisHoldings(net, genesis);
  }

  lemma QuietGrows(rules: Rules, net: Network, genesis: Txn, blocks: seq<Block>, b: Block)
    requires Quiet(rules, net, genesis, blocks) && HealthyChain(rules, net, genesis, blocks + [b]) && |b.txns| == 1
    requires |blocks| + 1 < 7500 && net.issueAddress != net.donationAddress
    ensures Quiet(rules, net, genesis, blocks + [b])
  {
    hide HealthyChain, StoreAfter, SaveBlock, TransactionCheck, ZeroFeeCoinbase, SupplyOk, StoreOk, DonationsCovered,
      GetBalance, CalcNextDonation, Held, Mined, OrderlyBlock;
    HealthyStep(rules, net, genesis, blocks, b);
    var store := StoreAfter(net, genesis, blocks).value;
    SupplyIsStore(store);
    FirstInterval(store);
    SavedDonations(store, b);
    OthersKeep(rules, store, b, net.issueAddress);
  }

  lemma {:induction false} QuietChain(rules: Rules, net: Network, genesis: Txn, n: nat) returns (blocks: seq<Block>)
    requires GenesisOk(net, genesis) && net.issueAddress != net.donationAddress && Permissive(rules) && n < 7500
    ensures |blocks| == n && Quiet(rules, net, genesis, blocks)
    decreases n
  {
    hide HealthyChain, StoreAfter, GetBalance;
    if n == 0 {
      blocks := [];
      GenesisIsQuiet(rules, net, genesis);
    } else {
      var shorter := QuietChain(rules, net, genesis, n - 1);
      var b := ChainNeverStuck(rules, net, genesis, shorter);
      blocks := shorter + [b];
      QuietGrows(rules, net, genesis, shorter, b);
    }
  }

  /** What a quiet chain leaves for the next block. */
  lemma QuietStore(rules: Rules, net: Network, genesis: Txn, blocks: seq<Block>)
    requires Quiet(rules, net, genesis, blocks) && |blocks| + 1 < 7500 && Permissive(rules)
    ensures var store := StoreAfter(net, genesis, blocks).value;
      && SupplyOk(store) && store.net == net && store.height == |blocks| && GetDonation(store) == Ok(0)
      && !RecordsDonation(store.height + 1) && DonationReady(store) && AllowsCoinbases(rules)
      && CheckAmount(RewardAt(store.height + 1) + 0) && AcceptedChain(rules, net, genesis, blocks)
      && forall s :: 0 <= GetBalance(store, s) <= MAX_SUPPLY
  {
    hide StoreAfter, AcceptedChain, SupplyOk, GetBalance, Held, Mined, ChargesAllFees, OrderlyBlock, ZeroFeeCoinbase,
      DonationsCovered, RecordsDonation, CalcNextDonation, GetDonation, RewardAt;
    ChargedSupply(rules, net, genesis, blocks);
    var store := StoreAfter(net, genesis, blocks).value;
    FirstInterval(store);
    RewardInRange(store.height + 1);
  }

  // ----- A validated block that cannot execute -----

  /** The two fees overflow, so neither is checked against the balance in the block. */
  function Overflowing(store: Store, hash: Uint256): Txn {
    Registration(store, hash, store.net.issueAddress, TWO_63 - 1, 1)
  }

  /** At every height below 7500: a block with a free coinbase passes every check and cannot be executed. */
  lemma ValidatedFails(rules: Rules, net: Network, genesis: Txn, height: nat) returns (blocks: seq<Block>, b: Block)
    requires GenesisOk(net, genesis) && net.issueAddress != net.donationAddress && Lenient(rules) && 1 <= height < 7500
    ensures |blocks| == height - 1 && HealthyChain(rules, net, genesis, blocks) && StoreAfter(net, genesis, blocks).Ok?
    ensures b.height == height && b.txns != [] && b.txns[0].fee == 0
    ensures ValidatedButStuck(rules, StoreAfter(net, genesis, blocks).value, b)
  {
    hide HealthyChain, StoreAfter, SupplyOk, GetBalance, GetDonation, Validated, RewardAt, ExecuteBlock, Overflowing,
      RecordsDonation, AcceptedChain, CheckTxn;
    blocks := QuietChain(rules, net, genesis, height - 1);
    QuietStore(rules, net, genesis, blocks);
    var store := StoreAfter(net, genesis, blocks).value;
    var hash := UnusedHash(store.txnHashes);
    var t := Overflowing(store, hash + 1);
    OverflowingPasses(rules, store, hash);
    PairBlockIsValidated(rules, store, hash, t);
    b := PairBlock(rules, store, hash, t);
    OverflowingFails(rules, store, hash, b);
  }

  lemma OverflowingPasses(rules: Rules, store: Store, hash: Uint256)
    requires Lenient(rules) && store.height + 1 < 7500 && GetDonation(store).Ok?
    requires store.net.issueAddress != store.net.donationAddress && GetBalance(store, store.net.issueAddress) >= 1
    requires forall h :: h in store.txnHashes ==> h < hash
    ensures CheckTxn(rules, store, AfterCoinbase(store, hash), 1, Overflowing(store, hash + 1), store.height + 1).Ok?
    ensures Overflowing(store, hash + 1).size == 1
  {
    hide GetBalance, GetNonce, Admit, CheckTxn, GetDonation, RewardAt;
    var t := Overflowing(store, hash + 1);
    CoinbaseNamesNothing(store, CoinbaseBlock(store, hash, GetDonation(store).value, 0, 0).txns[0]);
    SumWraps(t);
    RegistrationPasses(rules, store, AfterCoinbase(store, hash), t);
  }

  /** The debit of the registration fee fails. */
  lemma OverflowingFails(rules: Rules, store: Store, hash: Uint256, b: Block)
    requires SupplyOk(store) && GetDonation(store) == Ok(0) && forall s :: 0 <= GetBalance(store, s) <= MAX_SUPPLY
    requires b == PairBlock(rules, store, hash, Overflowing(store, hash + 1)) && Validated(rules, store, b)
    requires CheckAmount(RewardAt(store.height + 1) + 0)
    ensures ExecuteBlock(store.state, store.net, b, GetDonation(store)).Err?
  {
    hide GetDonation, TotalFee, Spend, RewardAt, SupplyOk, GetBalance, Validated;
    var t, net := Overflowing(store, hash + 1), store.net;
    assert |b.txns| == 2 && b.txns[1] == t;
    assert SpendPrefix(store.state, net, b.txns, 0, TotalFee(b.txns), b.height, GetDonation(store)) == Ok(store.state);
    var first := SpendPrefix(store.state, net, b.txns, 1, TotalFee(b.txns), b.height, GetDonation(store));
    assert first == Spend(store.state, net, b.txns[0], TotalFee(b.txns), false, b.height, GetDonation(store));
    if first.Ok? {
      PairFees(rules, store, hash, t);
      CoinbaseLeaves(store, b, first.value, t.sender);
      HugeDebitFails(first.value, net, t, TotalFee(b.txns), b.height, GetDonation(store));
    }
  }

  /** After the coinbase of a block with small fees no account is near the int64 limit. */
  lemma CoinbaseLeaves(store: Store, b: Block, st: State, s: Uint160)
    requires SupplyOk(store) && GetDonation(store) == Ok(0) && b.height == store.height + 1 && b.txns != []
    requires b.txns[0].payload.Coinbase? && b.txns[0].fee == 0 && b.txns[0].payload.amount == RewardAt(b.height)
    requires CheckAmount(RewardAt(b.height)) && 0 <= TotalFee(b.txns) <= INITIAL_ISSUE_AMOUNT
    requires Spend(store.state, store.net, b.txns[0], TotalFee(b.txns), false, b.height, GetDonation(store)) == Ok(st)
    ensures Bal(store.net, st.accounts, s) == GetBalance(store, s)
      + (if s == b.txns[0].payload.recipient then RewardAt(b.height) + TotalFee(b.txns) else 0)
    ensures Sound(store.net, st.accounts) && st.nanoPay == store.state.nanoPay && st.assets.Keys == store.state.assets.Keys
  {
    hide GetDonation, TotalFee, Spend, RewardAt, Held, BalanceOf;
    CoinbaseFacts(store.state, store.net, b.txns[0], TotalFee(b.txns), b.height, 0);
    CoinbaseEffect(store.state, store.net, b.txns[0], TotalFee(b.txns), b.height, 0, s);
  }

  lemma PairFees(rules: Rules, store: Store, hash: Uint256, t: Txn)
    requires GetDonation(store).Ok? && 0 <= t.fee <= MAX_SUPPLY
    ensures TotalFee(PairBlock(rules, store, hash, t).txns) == t.fee
  {
    hide GetDonation, RewardAt, ExecuteBlock, Wrap64;
    var txns := PairTxns(store, hash, t);
    assert |txns| == 2 && txns[..1][..0] == [] && txns[..1][0].fee == 0;
    assert TotalFee(txns[..1]) == 0;
  }

  lemma HugeDebitFails(st: State, net: Network, t: Txn, totalFee: int, height: nat, donation: Result<int, LedgerError>)
    requires Sound(net, st.accounts) && t.payload.RegisterName? && t.payload.registrationFee > HEADROOM && t.fee >= 0
    ensures Spend(st, net, t, totalFee, false, height, donation).Err?
  {
    hide ChargeFee, BumpNonce, Credit, Held, BalanceOf, Total, Solvent;
    ChargeFacts(net, st.accounts, t, height);
    var charged := ChargeFee(st.accounts, net, t, height);
    if charged.Ok? {
      BumpFacts(net, charged.value, t);
      BalanceBelow(net, BumpNonce(charged.value, t), t.sender);
    }
  }

  lemma BalanceBelow(net: Network, accounts: AccountMap, s: Uint160)
    requires Sound(net, accounts)
    ensures 0 <= Bal(net, accounts, s) <= HEADROOM
  {
    BalanceWithinTotal(accounts, net.nknAsset, s);
  }

  // ----- An accepted block that nothing can follow -----

  /** A registration that takes more from the donation account than it can hold after the coinbase. */
  function Draining(store: Store, hash: Uint256): Txn {
    var all := GetBalance(store, store.net.donationAddress) + RewardAt(store.height + 1);
    Registration(store, hash, store.net.issueAddress, -(all + 1), 0)
  }

  lemma DrainingPasses(rules: Rules, store: Store, hash: Uint256)
    requires Lenient(rules) && store.height + 1 < 7500 && GetDonation(store).Ok?
    requires store.net.issueAddress != store.net.donationAddress && forall s :: 0 <= GetBalance(store, s) <= MAX_SUPPLY
    requires CheckAmount(RewardAt(store.height + 1) + 0) && forall h :: h in store.txnHashes ==> h < hash
    ensures CheckTxn(rules, store, AfterCoinbase(store, hash), 1, Draining(store, hash + 1), store.height + 1).Ok?
  {
    hide GetBalance, GetNonce, Admit, CheckTxn, GetDonation, RewardAt;
    var t := Draining(store, hash + 1);
    CoinbaseNamesNothing(store, CoinbaseBlock(store, hash, GetDonation(store).value, 0, 0).txns[0]);
    SumWraps(t);
    RegistrationPasses(rules, store, AfterCoinbase(store, hash), t);
  }

  /** Moving a negative value pays the sender from the payee, whatever the payee holds. */
  lemma NegativeMove(net: Network, accounts: AccountMap, from: Uint160, to: Uint160, x: int)
    requires x >= 0 && from != to && 0 <= Bal(net, accounts, from) && Bal(net, accounts, from) + x < TWO_63
    requires 0 <= Bal(net, accounts, to) < TWO_63 && x < TWO_63
    ensures Move(accounts, net, from, to, -x).Ok?
    ensures Bal(net, Move(accounts, net, from, to, -x).value, to) == Bal(net, accounts, to) - x
  {
    hide Wrap64;
  }

  /** Executing the registration succeeds and leaves the donation account in debt. */
  lemma DrainingExecutes(st: State, net: Network, t: Txn, x: int, totalFee: int, height: nat,
          donation: Result<int, LedgerError>)
    requires x >= 0 && Sound(net, st.accounts) && t.payload.RegisterName? && t.payload.registrationFee == -x && t.fee == 0
    requires t.sender != net.donationAddress && Bal(net, st.accounts, net.donationAddress) < x <= HEADROOM
    ensures Spend(st, net, t, totalFee, false, height, donation).Ok?
    ensures Bal(net, Spend(st, net, t, totalFee, false, height, donation).value.accounts, net.donationAddress) < 0
  {
    hide ChargeFee, BumpNonce, Move, Held, BalanceOf, Total, Solvent;
    assert Charged(t, height) == 0;
    BalanceBelow(net, st.accounts, t.sender);
    ChargeFacts(net, st.accounts, t, height);
    var charged := ChargeFee(st.accounts, net, t, height).value;
    BumpFacts(net, charged, t);
    var bumped := BumpNonce(charged, t);
    BalanceBelow(net, bumped, t.sender);
    BalanceBelow(net, bumped, net.donationAddress);
    NegativeMove(net, bumped, t.sender, net.donationAddress, x);
  }

  /** The block of a coinbase and the draining registration executes, and the account is in debt. */
  lemma DrainingBlock(rules: Rules, store: Store, hash: Uint256, b: Block)
    requires SupplyOk(store) && GetDonation(store) == Ok(0) && forall s :: 0 <= GetBalance(store, s) <= MAX_SUPPLY
    requires b == PairBlock(rules, store, hash, Draining(store, hash + 1)) && CheckAmount(RewardAt(store.height + 1) + 0)
    requires store.net.issueAddress != store.net.donationAddress && Validated(rules, store, b)
    ensures ExecuteBlock(store.state, store.net, b, GetDonation(store)).Ok?
    ensures var st := ExecuteBlock(store.state, store.net, b, GetDonation(store)).value;
      BalanceOf(st.accounts, store.net.donationAddress, store.net.nknAsset) < 0
  {
    hide GetDonation, TotalFee, Spend, RewardAt, SupplyOk, GetBalance, Validated, BalanceOf;
    var t, net := Draining(store, hash + 1), store.net;
    assert |b.txns| == 2 && b.txns[1] == t;
    PairFees(rules, store, hash, t);
    CoinbaseRuns(store, b);
    assert SpendPrefix(store.state, net, b.txns, 0, TotalFee(b.txns), b.height, GetDonation(store)) == Ok(store.state);
    var first := SpendPrefix(store.state, net, b.txns, 1, TotalFee(b.txns), b.height, GetDonation(store));
    assert first == Spend(store.state, net, b.txns[0], TotalFee(b.txns), false, b.height, GetDonation(store));
    CoinbaseLeaves(store, b, first.value, net.donationAddress);
    DrainingExecutes(first.value, net, t, -t.payload.registrationFee, TotalFee(b.txns), b.height, GetDonation(store));
    var spent := Spend(first.value, net, t, TotalFee(b.txns), false, b.height, GetDonation(store)).value;
    FlushKeepsMoney(spent, b.height);
  }

  lemma FlushKeepsMoney(st: State, height: nat)
    ensures FinalizeState(CleanupState(st, height)).accounts == st.accounts
  {
  }

  /** A free coinbase that draws nothing executes. */
  lemma CoinbaseRuns(store: Store, b: Block)
    requires SupplyOk(store) && GetDonation(store) == Ok(0) && b.height == store.height + 1 && b.txns != []
    requires b.txns[0].payload.Coinbase? && b.txns[0].fee == 0 && b.txns[0].payload.amount == RewardAt(b.height)
    requires CheckAmount(RewardAt(b.height)) && 0 <= TotalFee(b.txns) <= INITIAL_ISSUE_AMOUNT
    requires 0 <= GetBalance(store, b.txns[0].sender)
    ensures Spend(store.state, store.net, b.txns[0], TotalFee(b.txns), false, b.height, GetDonation(store)).Ok?
  {
    hide GetDonation, TotalFee, Spend, RewardAt, Held, BalanceOf;
    CoinbaseFacts(store.state, store.net, b.txns[0], TotalFee(b.txns), b.height, 0);
  }

  /** An accepted block's donation was covered. */
  lemma AcceptedIsCovered(rules: Rules, store: Store, b: Block)
    requires b.height > 0 && TransactionCheck(rules, store, b).None?
    ensures GetDonation(store).Ok? && GetDonation(store).value <= GetBalance(store, store.net.donationAddress)
  {
    hide GetDonation, GetBalance, Validated, TransactionCheck, ExecuteBlock, RewardAt;
    AcceptedIsValidated(rules, store, b);
    ValidatedCoinbase(rules, store, b);
    assert PayloadFitsLedger(rules, store, b.txns[0], b.height);
  }

  /** While the donation account is in debt and the donation due is not negative, no block is acceptable. */
  lemma NothingFollows(rules: Rules, store: Store, b: Block)
    requires b.height > 0 && GetDonation(store).Ok? && GetBalance(store, store.net.donationAddress) < GetDonation(store).value
    ensures TransactionCheck(rules, store, b).Some?
  {
    hide GetDonation, GetBalance, TransactionCheck;
    if TransactionCheck(rules, store, b).None? {
      AcceptedIsCovered(rules, store, b);
    }
  }

  /** At every height below 7500: an accepted block that leaves the donation account in debt, after which
      the chain cannot be extended. */
  lemma RegistrationStopsChain(rules: Rules, net: Network, genesis: Txn, height: nat) returns (blocks: seq<Block>,
          b: Block)
    requires GenesisOk(net, genesis) && net.issueAddress != net.donationAddress && Lenient(rules) && 1 <= height < 7500
    ensures |blocks| == height - 1 && HealthyChain(rules, net, genesis, blocks)
    ensures AcceptedChain(rules, net, genesis, blocks + [b]) && ChargesAllFees(b) && ZeroFeeCoinbase(b)
    ensures GetBalance(StoreAfter(net, genesis, blocks + [b]).value, net.donationAddress) < 0
    ensures forall next: Block :: !AcceptedChain(rules, net, genesis, blocks + [b] + [next])
  {
    hide HealthyChain, StoreAfter, SupplyOk, GetBalance, GetDonation, Validated, RewardAt, ExecuteBlock, Draining,
      RecordsDonation, AcceptedChain, CheckTxn, ChargesAllFees, ZeroFeeCoinbase, SaveBlock, TransactionCheck;
    blocks := QuietChain(rules, net, genesis, height - 1);
    QuietStore(rules, net, genesis, blocks);
    var store := StoreAfter(net, genesis, blocks).value;
    var hash := UnusedHash(store.txnHashes);
    DrainingPasses(rules, store, hash);
    var t := Draining(store, hash + 1);
    DrainingShape(store, hash + 1);
    PairBlockIsValidated(rules, store, hash, t);
    b := PairBlock(rules, store, hash, t);
    DrainingBlock(rules, store, hash, b);
    PairBlockIsSaved(rules, store, hash, t);
    PairCharges(rules, store, hash, t);
    ChainGrows(rules, net, genesis, blocks, b);
    DebtStays(store, b);
    var after := StoreAfter(net, genesis, blocks + [b]).value;
    forall next: Block ensures !AcceptedChain(rules, net, genesis, blocks + [b] + [next]) {
      CannotFollow(rules, net, genesis, blocks + [b], next);
    }
  }

  lemma DrainingShape(store: Store, hash: Uint256)
    ensures Draining(store, hash).size == 1 && !Draining(store, hash).payload.NanoPay? && Draining(store, hash).fee == 0
  {
  }

  lemma PairCharges(rules: Rules, store: Store, hash: Uint256, t: Txn)
    requires GetDonation(store).Ok? && !t.payload.NanoPay?
    ensures ChargesAllFees(PairBlock(rules, store, hash, t)) && ZeroFeeCoinbase(PairBlock(rules, store, hash, t))
    ensures PairBlock(rules, store, hash, t).height == store.height + 1
  {
    hide GetDonation, RewardAt, ExecuteBlock;
  }

  lemma ChainGrows(rules: Rules, net: Network, genesis: Txn, blocks: seq<Block>, b: Block)
    requires AcceptedChain(rules, net, genesis, blocks) && StoreAfter(net, genesis, blocks).Ok?
    requires var store := StoreAfter(net, genesis, blocks).value;
      b.height == store.height + 1 && TransactionCheck(rules, store, b).None? && SaveBlock(store, b).Ok?
    ensures AcceptedChain(rules, net, genesis, blocks + [b])
    ensures StoreAfter(net, genesis, blocks + [b]) == SaveBlock(StoreAfter(net, genesis, blocks).value, b)
  {
    hide TransactionCheck, SaveBlock, SaveGenesis;
    assert (blocks + [b])[..|blocks|] == blocks;
  }

  /** The saved store: the debt, and a donation that is still zero. */
  lemma DebtStays(store: Store, b: Block)
    requires SaveBlock(store, b).Ok? && b.height == store.height + 1 < 7500 && store.donations == map[0 := Donation(0, 0)]
    requires var st := ExecuteBlock(store.state, store.net, b, GetDonation(store));
      st.Ok? && BalanceOf(st.value.accounts, store.net.donationAddress, store.net.nknAsset) < 0
    ensures var next := SaveBlock(store, b).value;
      GetBalance(next, next.net.donationAddress) < 0 && GetDonation(next) == Ok(0) && next.net == store.net
  {
    hide ExecuteBlock, GetDonation, SaveBlock, CalcNextDonation, RecordsDonation, BalanceOf;
    SavedStore(store, b);
    SavedDonations(store, b);
    FirstInterval(store);
    FirstInterval(SaveBlock(store, b).value);
  }

  lemma CannotFollow(rules: Rules, net: Network, genesis: Txn, blocks: seq<Block>, next: Block)
    requires StoreAfter(net, genesis, blocks).Ok?
    requires var store := StoreAfter(net, genesis, blocks).value;
      store.net == net && GetBalance(store, net.donationAddress) < 0 && GetDonation(store) == Ok(0)
    ensures !AcceptedChain(rules, net, genesis, blocks + [next])
  {
    hide TransactionCheck, SaveBlock, SaveGenesis, GetBalance, GetDonation;
    assert (blocks + [next])[..|blocks|] == blocks;
    var store := StoreAfter(net, genesis, blocks).value;
    if next.height > 0 {
      NothingFollows(rules, store, next);
    }
  }

  // ----- Fees the validation state cannot take back -----

  /** A registration whose negative fee hides its transaction fee is accepted and cannot be cleaned. */
  lemma HiddenFeeIsInconsistent(store: Store, max: nat, height: nat)
    requires height > 0
    ensures var t := Txn(1, 0, RegisterName("", "", -2), 0, 1, 1);
      VerifyError(NewBvs, store, max, t, height).None? && CleanOne(Admit(NewBvs, store, t), t) == Err(Inconsistent)
  {
    hide GetBalance;
    var t := Txn(1, 0, RegisterName("", "", -2), 0, 1, 1);
    assert Owed(t) == -1;
    FirstBooking(store, t);
    ForgetKeepsTotals(Admit(NewBvs, store, t).(txnlist := Admit(NewBvs, store, t).txnlist - {t.hash}), t);
  }
}
