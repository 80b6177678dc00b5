/** Validated blocks execute, and executing them conserves NKN. */
module BlockExecution {
  import opened Common
  import opened Sums
  import opened Transactions
  import opened Accounts
  import opened Rewards
  import opened Execution
  import opened Ledger
  import opened BlockValidation
  import opened BlockCheck
  import opened BlockFacts
  import opened SpendFacts
  import ET = ExpiryTables

  /** A committed store: nobody owes NKN, the supply is in range, donations are not negative. */
  ghost predicate StoreOk(store: Store) {
    && Solvent(store.state.accounts, store.net.nknAsset)
    && Held(store.net, store.state.accounts) <= LEDGER_LIMIT
    && store.net.nknAsset in store.state.assets
    && 0 < store.state.assets[store.net.nknAsset] <= MAX_SUPPLY
    && (forall h :: h in store.donations ==> store.donations[h].amount >= 0)
  }

  lemma DonationFacts(store: Store)
    requires StoreOk(store) && GetDonation(store).Ok?
    ensures GetDonation(store).value >= 0
  {
    BalanceWithinTotal(store.state.accounts, store.net.nknAsset, store.net.donationAddress);
  }

  lemma StoreInRange(store: Store)
    requires StoreOk(store)
    ensures BalancesInRange(store)
  {
    hide Held;
    forall s ensures GetBalance(store, s) <= LEDGER_LIMIT {
      BalanceWithinTotal(store.state.accounts, store.net.nknAsset, s);
      assert Held(store.net, store.state.accounts) == Total(store.state.accounts, store.net.nknAsset) by { HeldIsTotal(store); }
    }
  }

  lemma HeldIsTotal(store: Store)
    ensures Held(store.net, store.state.accounts) == Total(store.state.accounts, store.net.nknAsset)
  {
  }

  /** No registration fee of the block is out of range. */
  predicate OrderlyBlock(b: Block) {
    Orderly(b.txns, |b.txns|)
  }

  // ----- Fees -----

  function FeeSum(txns: seq<Txn>, n: nat): int
    requires n <= |txns|
  {
    if n == 0 then 0 else FeeSum(txns, n - 1) + txns[n - 1].fee
  }

  function ChargedSum(txns: seq<Txn>, n: nat, height: nat): int
    requires n <= |txns|
  {
    if n == 0 then 0 else ChargedSum(txns, n - 1, height) + Charged(txns[n - 1], height)
  }

  /** Fees that are paid to the miner but taken from nobody. */
  function Uncharged(txns: seq<Txn>, height: nat): int {
    FeeSum(txns, |txns|) - ChargedSum(txns, |txns|, height)
  }

  /** Each account's balance less what the first n transactions take from it. */
  function Residual(store: Store, txns: seq<Txn>, n: nat): map<Uint160, int>
    requires n <= |txns|
  {
    if n == 0 then Holdings(store.state.accounts, store.net.nknAsset)
    else
      var r, t := Residual(store, txns, n - 1), txns[n - 1];
      r[t.sender := Get(r, t.sender) - Weight(store, t)]
  }

  lemma {:induction false} ResidualFacts(rules: Rules, store: Store, txns: seq<Txn>, n: nat, height: nat)
    requires n <= |txns| && AllTxnsOk(rules, store, txns, n, height) && Orderly(txns, n)
    ensures forall s :: Get(Residual(store, txns, n), s) == GetBalance(store, s) - Spent(store, txns, n, s)
    ensures 0 <= FeeSum(txns, n)
    ensures Sum(Residual(store, txns, n)) + FeeSum(txns, n) <= Held(store.net, store.state.accounts)
  {
    hide TxnOk, Weight, Held, RegistrationInRange;
    if n == 0 {
      assert Held(store.net, store.state.accounts) == Sum(Residual(store, txns, 0)) by { HeldIsSum(store); }
    } else {
      ResidualFacts(rules, store, txns, n - 1, height);
      var r, t := Residual(store, txns, n - 1), txns[n - 1];
      SumSet(r, t.sender, Get(r, t.sender) - Weight(store, t));
      WeightCoversFee(rules, store, n - 1, t, height);
    }
  }

  lemma HeldIsSum(store: Store)
    ensures Held(store.net, store.state.accounts) == Sum(Holdings(store.state.accounts, store.net.nknAsset))
  {
  }

  lemma WeightCoversFee(rules: Rules, store: Store, i: nat, txn: Txn, height: nat)
    requires TxnOk(rules, store, i, txn, height) && RegistrationInRange(txn)
    ensures 0 <= txn.fee <= Weight(store, txn)
  {
    WeightNonNegative(rules, store, i, txn, height);
  }

  /** A funded block's fees never exceed the coins in circulation, so summing them as int64 is exact. */
  lemma FeesWithinHoldings(rules: Rules, store: Store, txns: seq<Txn>, n: nat, height: nat)
    requires n <= |txns| && StoreOk(store) && AllTxnsOk(rules, store, txns, n, height) && Orderly(txns, n) && Funded(store, txns, n)
    ensures 0 <= FeeSum(txns, n) <= Held(store.net, store.state.accounts)
  {
    hide TxnOk, Held;
    ResidualFacts(rules, store, txns, n, height);
    var r := Residual(store, txns, n);
    forall s | s in r ensures r[s] >= 0 {
      BalanceWithinTotal(store.state.accounts, store.net.nknAsset, s);
      assert Get(r, s) == GetBalance(store, s) - Spent(store, txns, n, s);
    }
    SumBounds(r, 0);
  }

  lemma {:induction false} TotalFeeIsExact(txns: seq<Txn>, n: nat, bound: int)
    requires n <= |txns| && bound < TWO_63
    requires forall i :: 0 <= i <= n ==> 0 <= FeeSum(txns, i) <= bound
    ensures TotalFee(txns[..n]) == FeeSum(txns, n)
  {
    if n == 0 {
    } else {
      TotalFeeIsExact(txns, n - 1, bound);
      assert txns[..n][..n - 1] == txns[..n - 1];
    }
  }

  // ----- Execution of a prefix -----

  /** What the coinbase takes from the donation account beyond its fee. */
  function Drawn(store: Store, n: nat, donation: int, s: Uint160): int {
    if n > 0 && s == store.net.donationAddress then donation else 0
  }

  /** Channels that no executed transaction used still hold what the store says. */
  ghost predicate ChannelsFollow(store: Store, txns: seq<Txn>, n: nat, st: State)
    requires n <= |txns|
  {
    forall ch :: (forall i :: 0 <= i < n && txns[i].payload.NanoPay? ==> Channel(txns[i]) != ch)
      ==> ET.Peek(st.nanoPay, ch) == ET.Peek(store.state.nanoPay, ch)
  }

  /** Only issues of the block have created assets, and NKN has grown by the reward. */
  ghost predicate AssetsFollow(store: Store, txns: seq<Txn>, n: nat, height: nat, st: State)
    requires n <= |txns| && height > 0
  {
    && (forall a :: a in st.assets ==> a in store.state.assets || exists i :: 0 <= i < n && txns[i].hash == a)
    && store.net.nknAsset in store.state.assets && store.net.nknAsset in st.assets
    && st.assets[store.net.nknAsset] == store.state.assets[store.net.nknAsset] + if n > 0 then RewardAt(height) else 0
  }

  /** No account holds less than the checks reserved for it. */
  ghost predicate BalancesFollow(store: Store, txns: seq<Txn>, n: nat, donation: int, st: State)
    requires n <= |txns|
  {
    forall s :: Bal(store.net, st.accounts, s) >= GetBalance(store, s) - Spent(store, txns, n, s) - Drawn(store, n, donation, s)
  }

  /** The state after n transactions of a validated block, measured against the store. */
  ghost predicate Follows(store: Store, txns: seq<Txn>, n: nat, height: nat, totalFee: int, donation: int, st: State)
    requires n <= |txns| && height > 0
  {
    && Sound(store.net, st.accounts)
    && Held(store.net, st.accounts) == Held(store.net, store.state.accounts) - ChargedSum(txns, n, height)
                                       + (if n > 0 then RewardAt(height) + totalFee else 0)
    && BalancesFollow(store, txns, n, donation, st)
    && ChannelsFollow(store, txns, n, st)
    && AssetsFollow(store, txns, n, height, st)
  }

  lemma UntouchedChannel(store: Store, txns: seq<Txn>, n: nat, st: State)
    requires n < |txns| && Distinct(txns, n + 1) && ChannelsFollow(store, txns, n, st)
    ensures Due(st, txns[n]) == Amount(txns[n]) + ClaimOf(store, txns[n])
  {
  }

  /** The assets a validated issue would create are new. */
  lemma NewAsset(rules: Rules, store: Store, txns: seq<Txn>, n: nat, height: nat, st: State)
    requires n < |txns| && height > 0 && Distinct(txns, n + 1)
    requires TxnOk(rules, store, n, txns[n], height) && AssetsFollow(store, txns, n, height, st)
    ensures txns[n].payload.IssueAsset? ==> txns[n].hash !in st.assets
  {
    if txns[n].payload.IssueAsset? {
      assert PayloadFitsLedger(rules, store, txns[n], height);
    }
  }

  /** The sender's executed balance still covers a funded transaction. */
  lemma StillCovered(rules: Rules, store: Store, txns: seq<Txn>, n: nat, height: nat, donation: int, st: State)
    requires n < |txns| && Sound(store.net, st.accounts)
    requires TxnOk(rules, store, n, txns[n], height) && RegistrationInRange(txns[n]) && !txns[n].payload.Coinbase?
    requires Funded(store, txns, n) && Funded(store, txns, n + 1) && BalancesFollow(store, txns, n, donation, st)
    ensures Weight(store, txns[n]) <= Bal(store.net, st.accounts, txns[n].sender)
  {
    hide VerifyWithLedger, Weight;
    var s := txns[n].sender;
    assert s != store.net.donationAddress;
    BalanceWithinTotal(st.accounts, store.net.nknAsset, s);
    assert Spent(store, txns, n + 1, s) == Spent(store, txns, n, s) + Weight(store, txns[n]);
  }

  /** The coinbase step. */
  lemma FollowCoinbase(rules: Rules, store: Store, txns: seq<Txn>, height: nat, totalFee: int, donation: int)
    requires txns != [] && height > 0 && StoreOk(store) && TxnOk(rules, store, 0, txns[0], height) && txns[0].payload.Coinbase?
    requires donation >= 0 && txns[0].payload.amount == RewardAt(height) + donation
    requires 0 <= totalFee <= Held(store.net, store.state.accounts)
    ensures Spend(store.state, store.net, txns[0], totalFee, false, height, Ok(donation)).Ok?
      <==> txns[0].fee + donation <= GetBalance(store, store.net.donationAddress)
    ensures Spend(store.state, store.net, txns[0], totalFee, false, height, Ok(donation)).Ok? ==>
      Follows(store, txns, 1, height, totalFee, donation, Spend(store.state, store.net, txns[0], totalFee, false, height, Ok(donation)).value)
  {
    hide Spend, VerifyWithLedger, Held, RewardAt, Bal;
    var txn := txns[0];
    assert Sound(store.net, store.state.accounts);
    CoinbaseFacts(store.state, store.net, txn, totalFee, height, donation);
    assert ChargedSum(txns, 1, height) == txn.fee;
    assert forall s :: Spent(store, txns, 1, s) == if s == txn.sender then txn.fee else 0;
    assert forall s :: Bal(store.net, store.state.accounts, s) == GetBalance(store, s) by { BalIsBalance(store); }
  }

  lemma BalIsBalance(store: Store)
    ensures forall s :: Bal(store.net, store.state.accounts, s) == GetBalance(store, s)
  {
  }

  /** A later transaction executes, and what it does to balances and assets. */
  lemma TxnExecutes(rules: Rules, store: Store, txns: seq<Txn>, n: nat, height: nat, totalFee: int, donation: int,
          st: State)
    requires 0 < n < |txns| && height > 0 && StoreOk(store)
    requires TxnOk(rules, store, n, txns[n], height) && RegistrationInRange(txns[n]) && Distinct(txns, n + 1)
    requires Funded(store, txns, n) && Funded(store, txns, n + 1)
    requires Follows(store, txns, n, height, totalFee, donation, st)
    ensures Spend(st, store.net, txns[n], totalFee, false, height, Ok(donation)).Ok?
    ensures Due(st, txns[n]) == Amount(txns[n]) + ClaimOf(store, txns[n]) >= 0 && txns[n].fee >= 0
    ensures txns[n].payload.IssueAsset? ==> txns[n].hash !in st.assets
    ensures var st', txn := Spend(st, store.net, txns[n], totalFee, false, height, Ok(donation)).value, txns[n];
      && Sound(store.net, st'.accounts) && Held(store.net, st'.accounts) == Held(store.net, st.accounts) - Charged(txn, height)
      && (forall s :: Bal(store.net, st'.accounts, s) == Bal(store.net, st.accounts, s)
            - (if s == txn.sender then Charged(txn, height) + Due(st, txn) else 0)
            + (if Payee(store.net, txn) == Some(s) then Due(st, txn) else 0))
      && st'.assets == (if txn.payload.IssueAsset? then st.assets[txn.hash := txn.payload.totalSupply] else st.assets)
  {
    hide Spend, TxnOk, Held, RewardAt, Bal, Sound, Due, Amount, ClaimOf, Funded, Distinct, FeeCharged, Channel,
      RegistrationInRange, Owed;
    hide ChannelsFollow, AssetsFollow, BalancesFollow;
    var txn := txns[n];
    WeightNonNegative(rules, store, n, txn, height);
    NotCoinbase(rules, store, n, txn, height);
    UntouchedChannel(store, txns, n, st);
    NewAsset(rules, store, txns, n, height, st);
    StillCovered(rules, store, txns, n, height, donation, st);
    assert store.net.nknAsset in st.assets by { AssetsKeepNkn(store, txns, n, height, st); }
    assert Weight(store, txn) == Due(st, txn) + txn.fee;
    TxnFacts(st, store.net, txn, totalFee, height, Ok(donation));
  }

  /** Every later step. */
  lemma FollowTxn(rules: Rules, store: Store, txns: seq<Txn>, n: nat, height: nat, totalFee: int, donation: int,
          st: State)
    requires 0 < n < |txns| && height > 0 && StoreOk(store)
    requires TxnOk(rules, store, n, txns[n], height) && RegistrationInRange(txns[n]) && Distinct(txns, n + 1)
    requires Funded(store, txns, n) && Funded(store, txns, n + 1)
    requires Follows(store, txns, n, height, totalFee, donation, st)
    ensures Spend(st, store.net, txns[n], totalFee, false, height, Ok(donation)).Ok?
    ensures Follows(store, txns, n + 1, height, totalFee, donation, Spend(st, store.net, txns[n], totalFee, false, height, Ok(donation)).value)
  {
    hide Spend, TxnOk, Held, RewardAt, Bal, Sound, Due, Amount, ClaimOf, Funded, Distinct, FeeCharged, Channel,
      RegistrationInRange, Owed;
    hide ChannelsFollow, AssetsFollow, BalancesFollow;
    TxnExecutes(rules, store, txns, n, height, totalFee, donation, st);
    var st' := Spend(st, store.net, txns[n], totalFee, false, height, Ok(donation)).value;
    BalancesStep(store, txns, n, donation, st, st');
    ChannelsStep(store, txns, n, height, totalFee, donation, st);
    AssetsStep(store, txns, n, height, st, st');
  }

  lemma NotCoinbase(rules: Rules, store: Store, n: nat, txn: Txn, height: nat)
    requires n > 0 && TxnOk(rules, store, n, txn, height)
    ensures !txn.payload.Coinbase? && !txn.payload.Unsupported?
  {
  }

  lemma AssetsKeepNkn(store: Store, txns: seq<Txn>, n: nat, height: nat, st: State)
    requires n <= |txns| && height > 0 && AssetsFollow(store, txns, n, height, st)
    ensures store.net.nknAsset in st.assets
  {
  }

  lemma BalancesStep(store: Store, txns: seq<Txn>, n: nat, donation: int, st: State, st': State)
    requires 0 < n < |txns| && BalancesFollow(store, txns, n, donation, st)
    requires forall s :: Bal(store.net, st'.accounts, s) >= Bal(store.net, st.accounts, s) - if s == txns[n].sender then Weight(store, txns[n]) else 0
    ensures BalancesFollow(store, txns, n + 1, donation, st')
  {
    hide Bal, Weight, GetBalance;
    assert forall s :: Spent(store, txns, n + 1, s) == Spent(store, txns, n, s) + if txns[n].sender == s then Weight(store, txns[n]) else 0;
  }

  lemma ChannelsStep(store: Store, txns: seq<Txn>, n: nat, height: nat, totalFee: int, donation: int, st: State)
    requires n < |txns| && ChannelsFollow(store, txns, n, st)
    requires Spend(st, store.net, txns[n], totalFee, false, height, Ok(donation)).Ok?
    ensures ChannelsFollow(store, txns, n + 1, Spend(st, store.net, txns[n], totalFee, false, height, Ok(donation)).value)
  {
    hide Spend, ET.Peek, ET.Claim, Channel;
    ChannelFrame(st, store.net, txns[n], totalFee, false, height, Ok(donation));
  }

  lemma AssetsStep(store: Store, txns: seq<Txn>, n: nat, height: nat, st: State, st': State)
    requires 0 < n < |txns| && height > 0 && AssetsFollow(store, txns, n, height, st)
    requires txns[n].payload.IssueAsset? ==> txns[n].hash !in st.assets
    requires st'.assets == if txns[n].payload.IssueAsset? then st.assets[txns[n].hash := txns[n].payload.totalSupply] else st.assets
    ensures AssetsFollow(store, txns, n + 1, height, st')
  {
    hide RewardAt;
  }

  /** A transaction that passes the checks against the ledger executes on it alone, and a registration does
      once its fee is checked there too, from height 980000 on. */
  lemma AloneExecutes(rules: Rules, store: Store, txn: Txn, height: nat, totalFee: int,
          donation: Result<int, LedgerError>)
    requires height > 0 && StoreOk(store) && !txn.payload.Coinbase? && (txn.payload.RegisterName? ==> height >= 980000)
    requires VerifyTransaction(rules, store, txn, height) && VerifyWithLedger(rules, store, txn, height)
    ensures Spend(store.state, store.net, txn, totalFee, false, height, donation).Ok?
  {
    hide Spend, Held, SubscribersCount, AlreadySubscribed, Wrap64;
    var st := store.state;
    assert Due(st, txn) == LedgerAmount(store, txn, height) >= 0;
    BalIsBalance(store);
    assert Sound(store.net, st.accounts);
    TxnFacts(st, store.net, txn, totalFee, height, donation);
  }

  // ----- The theorems -----

  /** Facts about every prefix of a validated block. */
  lemma {:induction false} ValidatedPrefixes(rules: Rules, store: Store, txns: seq<Txn>, n: nat, height: nat)
    requires n <= |txns| && height > 0 && CheckPrefix(rules, store, txns, n, height).Ok?
    ensures forall i :: 0 <= i <= n ==> AllTxnsOk(rules, store, txns, i, height) && Distinct(txns, i)
    ensures Orderly(txns, n) && BalancesInRange(store) ==> forall i :: 0 <= i <= n ==> Orderly(txns, i) && Funded(store, txns, i)
  {
    hide CheckTxn, AllTxnsOk, Distinct, Funded, Mirrors, Knows, BalancesInRange, RegistrationInRange;
    PrefixFacts(rules, store, txns, n, height);
    if n == 0 {
    } else {
      ValidatedPrefixes(rules, store, txns, n - 1, height);
    }
  }

  lemma ValidatedLoop(rules: Rules, store: Store, b: Block)
    requires b.height > 0 && Validated(rules, store, b)
    ensures b.txns != [] && CheckPrefix(rules, store, b.txns, |b.txns|, b.height).Ok?
  {
    hide CheckPrefix;
  }

  /** The fee total a validated block is executed with. */
  lemma ValidatedFees(rules: Rules, store: Store, b: Block)
    requires b.height > 0 && StoreOk(store) && Validated(rules, store, b) && OrderlyBlock(b)
    ensures TotalFee(b.txns) == FeeSum(b.txns, |b.txns|)
    ensures 0 <= TotalFee(b.txns) <= Held(store.net, store.state.accounts)
  {
    hide AllTxnsOk, Distinct, Funded, Held, CheckPrefix, BalancesInRange, Orderly;
    StoreInRange(store);
    ValidatedPrefixes(rules, store, b.txns, |b.txns|, b.height);
    forall i | 0 <= i <= |b.txns| ensures 0 <= FeeSum(b.txns, i) <= LEDGER_LIMIT {
      FeesWithinHoldings(rules, store, b.txns, i, b.height);
    }
    FeesWithinHoldings(rules, store, b.txns, |b.txns|, b.height);
    TotalFeeIsExact(b.txns, |b.txns|, LEDGER_LIMIT);
    assert b.txns[..|b.txns|] == b.txns;
  }

  /** The coinbase of a validated block. */
  lemma ValidatedCoinbase(rules: Rules, store: Store, b: Block)
    requires b.height > 0 && Validated(rules, store, b)
    ensures b.txns != [] && b.txns[0].payload.Coinbase? && TxnOk(rules, store, 0, b.txns[0], b.height)
    ensures GetDonation(store).Ok? && b.txns[0].payload.amount == RewardAt(b.height) + GetDonation(store).value
  {
    ValidatedPrefixes(rules, store, b.txns, |b.txns|, b.height);
    assert AllTxnsOk(rules, store, b.txns, |b.txns|, b.height);
    FirstChecked(rules, store, b.txns, |b.txns|, b.height);
  }

  lemma {:induction false} FirstChecked(rules: Rules, store: Store, txns: seq<Txn>, n: nat, height: nat)
    requires 0 < n <= |txns| && height > 0 && CheckPrefix(rules, store, txns, n, height).Ok?
    ensures VerifyError(NewBvs, store, rules.maxSubscriptions, txns[0], height).None?
  {
    if n > 1 {
      hide CheckTxn;
      FirstChecked(rules, store, txns, n - 1, height);
    } else {
      assert CheckPrefix(rules, store, txns, 0, height) == Ok(NewCheck);
    }
  }

  lemma {:induction false} ExecutesPrefix(rules: Rules, store: Store, b: Block, n: nat)
    requires b.height > 0 && StoreOk(store) && Validated(rules, store, b) && OrderlyBlock(b) && 0 < n <= |b.txns|
    requires GetDonation(store).Ok? && b.txns[0].fee + GetDonation(store).value <= GetBalance(store, store.net.donationAddress)
    ensures SpendPrefix(store.state, store.net, b.txns, n, TotalFee(b.txns), b.height, GetDonation(store)).Ok?
    ensures Follows(store, b.txns, n, b.height, TotalFee(b.txns), GetDonation(store).value,
                    SpendPrefix(store.state, store.net, b.txns, n, TotalFee(b.txns), b.height, GetDonation(store)).value)
  {
    hide Spend, Follows, AllTxnsOk, Distinct, Funded, TxnOk, StoreOk, TotalFee, GetDonation, Validated, CheckPrefix,
      BalancesInRange, RegistrationInRange;
    var d := GetDonation(store).value;
    if n == 1 {
      ValidatedFees(rules, store, b);
      ValidatedCoinbase(rules, store, b);
      DonationFacts(store);
      FollowCoinbase(rules, store, b.txns, b.height, TotalFee(b.txns), d);
      assert SpendPrefix(store.state, store.net, b.txns, 0, TotalFee(b.txns), b.height, GetDonation(store)) == Ok(store.state);
    } else {
      ExecutesPrefix(rules, store, b, n - 1);
      ValidatedLoop(rules, store, b);
      StoreInRange(store);
      ValidatedPrefixes(rules, store, b.txns, |b.txns|, b.height);
      var st := SpendPrefix(store.state, store.net, b.txns, n - 1, TotalFee(b.txns), b.height, GetDonation(store)).value;
      OneTxnOk(rules, store, b.txns, n, n - 1, b.height);
      FollowTxn(rules, store, b.txns, n - 1, b.height, TotalFee(b.txns), d, st);
    }
  }

  lemma OneTxnOk(rules: Rules, store: Store, txns: seq<Txn>, n: nat, i: nat, height: nat)
    requires i < n <= |txns| && AllTxnsOk(rules, store, txns, n, height)
    ensures TxnOk(rules, store, i, txns[i], height)
  {
  }

  /** Validated implies executable, exactly: a validated block executes only if the donation account can
      pay the coinbase's fee on top of the donation, and if no registration fee is out of range that is
      all it takes.  Every other subtraction then succeeds. */
  lemma ValidatedExecutes(rules: Rules, store: Store, b: Block)
    requires b.height > 0 && StoreOk(store) && Validated(rules, store, b)
    ensures GetDonation(store).Ok?
    ensures var covered := b.txns[0].fee + GetDonation(store).value <= GetBalance(store, store.net.donationAddress);
      && (ExecuteBlock(store.state, store.net, b, GetDonation(store)).Ok? ==> covered)
      && (OrderlyBlock(b) ==> (ExecuteBlock(store.state, store.net, b, GetDonation(store)).Ok? <==> covered))
  {
    hide Spend, Follows, StoreOk, TotalFee, GetDonation, Validated, CleanupState, FinalizeState, TxnOk, OrderlyBlock;
    ValidatedCoinbase(rules, store, b);
    if b.txns[0].fee + GetDonation(store).value > GetBalance(store, store.net.donationAddress) {
      UncoveredFails(rules, store, b);
    } else if OrderlyBlock(b) {
      ExecutesPrefix(rules, store, b, |b.txns|);
    }
  }

  lemma UncoveredFails(rules: Rules, store: Store, b: Block)
    requires b.height > 0 && StoreOk(store) && Validated(rules, store, b) && GetDonation(store).Ok? && b.txns != []
    requires b.txns[0].fee + GetDonation(store).value > GetBalance(store, store.net.donationAddress)
    ensures SpendPrefix(store.state, store.net, b.txns, |b.txns|, TotalFee(b.txns), b.height, GetDonation(store)).Err?
  {
    hide Spend, TotalFee, GetDonation, Validated, VerifyWithLedger, Held, Bal;
    ValidatedCoinbase(rules, store, b);
    DonationFacts(store);
    var t := b.txns[0];
    assert t.sender == store.net.donationAddress && CheckAmount(t.fee);
    assert Bal(store.net, store.state.accounts, t.sender) == GetBalance(store, t.sender) by { BalIsBalance(store); }
    CoinbaseUncovered(store.state, store.net, t, TotalFee(b.txns), b.height, GetDonation(store).value);
    FirstFails(store, b.txns, |b.txns|, TotalFee(b.txns), b.height, GetDonation(store));
  }

  /** A prefix that fails at the first transaction stays failed. */
  lemma {:induction false} FirstFails(store: Store, txns: seq<Txn>, n: nat, totalFee: int, height: nat,
          donation: Result<int, LedgerError>)
    requires 0 < n <= |txns| && Spend(store.state, store.net, txns[0], totalFee, false, height, donation).Err?
    ensures SpendPrefix(store.state, store.net, txns, n, totalFee, height, donation).Err?
  {
    hide Spend;
    if n > 1 {
      FirstFails(store, txns, n - 1, totalFee, height, donation);
    } else {
      assert SpendPrefix(store.state, store.net, txns, 0, totalFee, height, donation) == Ok(store.state);
    }
  }

  /** A zero-fee coinbase is all it takes: the donation itself was checked. */
  lemma ZeroFeeCoinbaseExecutes(rules: Rules, store: Store, b: Block)
    requires b.height > 0 && StoreOk(store) && Validated(rules, store, b) && OrderlyBlock(b) && b.txns[0].fee == 0
    ensures ExecuteBlock(store.state, store.net, b, GetDonation(store)).Ok?
  {
    hide ExecuteBlock, StoreOk, GetDonation, Validated, GetBalance;
    ValidatedExecutes(rules, store, b);
    ValidatedCoinbase(rules, store, b);
    assert PayloadFitsLedger(rules, store, b.txns[0], b.height);
  }

  /** Conservation, exactly: executing a validated block adds to the NKN in circulation the mining
      reward and whatever nano-pay fees were paid out without being charged, and to the recorded
      supply the mining reward. */
  lemma ExecutionConserves(rules: Rules, store: Store, b: Block)
    requires b.height > 0 && StoreOk(store) && Validated(rules, store, b) && OrderlyBlock(b)
    requires ExecuteBlock(store.state, store.net, b, GetDonation(store)).Ok?
    ensures var st := ExecuteBlock(store.state, store.net, b, GetDonation(store)).value;
      && Held(store.net, st.accounts) == Held(store.net, store.state.accounts) + RewardAt(b.height) + Uncharged(b.txns, b.height)
      && Solvent(st.accounts, store.net.nknAsset)
      && store.net.nknAsset in st.assets
      && st.assets[store.net.nknAsset] == store.state.assets[store.net.nknAsset] + RewardAt(b.height)
  {
    hide Spend, StoreOk, TotalFee, GetDonation, Validated, Held, RewardAt, SpendPrefix, TxnOk, BalancesFollow,
      ChannelsFollow;
    ValidatedExecutes(rules, store, b);
    ValidatedCoinbase(rules, store, b);
    ExecutesPrefix(rules, store, b, |b.txns|);
    ValidatedFees(rules, store, b);
  }

  /** Fees go uncharged only for nano-pays below the ChargeNanoPayTxnFee height. */
  lemma {:induction false} UnchargedIsNanoPay(txns: seq<Txn>, n: nat, height: nat)
    requires n <= |txns| && forall i :: 0 <= i < n ==> txns[i].fee >= 0
    ensures FeeSum(txns, n) >= ChargedSum(txns, n, height)
    ensures FeeSum(txns, n) == ChargedSum(txns, n, height) <==>
      ChargeNanoPayTxnFee(height) || forall i :: 0 <= i < n && txns[i].payload.NanoPay? ==> txns[i].fee == 0
  {
    if n == 0 {
    } else {
      UnchargedIsNanoPay(txns, n - 1, height);
      assert Charged(txns[n - 1], height) ==
        if txns[n - 1].payload.NanoPay? && !ChargeNanoPayTxnFee(height) then 0 else txns[n - 1].fee;
    }
  }

  /** A block of one coinbase with the amount it must have. */
  function CoinbaseBlock(store: Store, hash: Uint256, donation: int, fee: int, stateRoot: Uint256): Block {
    var amount := RewardAt(store.height + 1) + donation;
    var nonce := GetNonce(store, store.net.donationAddress);
    Block(store.height + 1, hash, stateRoot, 0, [Txn(hash, store.net.donationAddress, Coinbase(0, amount), nonce, fee, 1)])
  }

  /** It passes every check before execution when the donation account covers the donation and, on
      its own, the fee. */
  lemma CoinbaseBlockIsValidated(rules: Rules, store: Store, hash: Uint256, fee: int, stateRoot: Uint256)
    requires StoreOk(store) && GetDonation(store).Ok? && hash !in store.txnHashes
    requires 0 <= GetDonation(store).value <= GetBalance(store, store.net.donationAddress)
    requires 0 <= fee <= GetBalance(store, store.net.donationAddress) && CheckAmount(fee)
    requires CheckAmount(RewardAt(store.height + 1) + GetDonation(store).value)
    requires rules.wellFormed(CoinbaseBlock(store, hash, GetDonation(store).value, fee, stateRoot).txns[0], store.height + 1)
    ensures Validated(rules, store, CoinbaseBlock(store, hash, GetDonation(store).value, fee, stateRoot))
  {
    hide RewardAt, Admit, GetDonation;
    var b := CoinbaseBlock(store, hash, GetDonation(store).value, fee, stateRoot);
    var t := b.txns[0];
    HeldBounds(store);
    assert VerifyTransaction(rules, store, t, b.height);
    assert VerifyError(NewBvs, store, rules.maxSubscriptions, t, b.height).None?;
    assert VerifyWithLedger(rules, store, t, b.height);
    assert CheckPrefix(rules, store, b.txns, 1, b.height).Ok? by {
      assert CheckPrefix(rules, store, b.txns, 0, b.height) == Ok(NewCheck);
    }
    assert TotalSize(b.txns) == 1 by {
      assert b.txns[..0] == [];
    }
  }

  predicate ValidatedButStuck(rules: Rules, store: Store, b: Block) {
    b.height > 0 && Validated(rules, store, b) && ExecuteBlock(store.state, store.net, b, GetDonation(store)).Err?
  }

  /** Validated does not imply executable: whatever the store, when a donation is due and the donation
      account covers it, a coinbase whose fee is the whole account passes every check and then fails
      to execute. */
  lemma FeeHeavyCoinbaseFails(rules: Rules, store: Store, hash: Uint256)
    requires StoreOk(store) && GetDonation(store).Ok? && hash !in store.txnHashes
    requires 0 < GetDonation(store).value <= GetBalance(store, store.net.donationAddress) <= MAX_SUPPLY
    requires CheckAmount(RewardAt(store.height + 1) + GetDonation(store).value)
    requires forall t: Txn :: t.payload.Coinbase? ==> rules.wellFormed(t, store.height + 1)
    ensures var fee := GetBalance(store, store.net.donationAddress);
      ValidatedButStuck(rules, store, CoinbaseBlock(store, hash, GetDonation(store).value, fee, 0))
  {
    hide RewardAt, ExecuteBlock, GetDonation, StoreOk, GetBalance, Validated;
    var fee := GetBalance(store, store.net.donationAddress);
    CoinbaseBlockIsValidated(rules, store, hash, fee, 0);
    ValidatedExecutes(rules, store, CoinbaseBlock(store, hash, GetDonation(store).value, fee, 0));
  }

  lemma HeldBounds(store: Store)
    requires StoreOk(store)
    ensures 0 <= GetBalance(store, store.net.donationAddress) <= LEDGER_LIMIT
  {
    BalanceWithinTotal(store.state.accounts, store.net.nknAsset, store.net.donationAddress);
  }
}
