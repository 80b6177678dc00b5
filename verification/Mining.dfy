/** BuildBlock: any block a proposer assembles passes the validator's checks. */
module Mining {
  import opened Common
  import opened Transactions
  import opened Accounts
  import opened Rewards
  import opened Execution
  import opened Ledger
  import opened BlockValidation
  import opened BlockCheck
  import opened BlockFacts
  import opened BlockExecution
  import opened NonceRuns
  import opened Collector
  import opened ValidationState
  import opened StateDatabase
  import Merkle

  /** The node's own limits; zero means no limit, except that the block size is always limited. */
  datatype MiningConfig = MiningConfig(
    numTxnPerBlock: nat, numLowFeeTxnPerBlock: nat, lowFeeTxnSizePerBlock: nat, isLowFee: Txn -> bool)

  /** uint32 addition. */
  function Add32(x: nat, y: nat): nat {
    (x + y) % 0x1_0000_0000
  }

  predicate IsBlockFull(cfg: MiningConfig, count: nat, size: nat) {
    (cfg.numTxnPerBlock > 0 && count > cfg.numTxnPerBlock) || size > MAX_BLOCK_SIZE
  }

  predicate IsLowFeeTxnFull(cfg: MiningConfig, count: nat, size: nat) {
    || (cfg.numLowFeeTxnPerBlock > 0 && count > cfg.numLowFeeTxnPerBlock)
    || (cfg.lowFeeTxnSizePerBlock > 0 && size > cfg.lowFeeTxnSizePerBlock)
  }

  // ----- What the builder may assume -----

  /** A pool list: ordinary transactions with consecutive nonces from the ledger nonce, then
      nano-pays. */
  predicate PoolList(store: Store, a: Uint160, list: seq<Txn>) {
    forall i :: 0 <= i < |list| ==>
      && (Ordinary(list[i]) || list[i].payload.NanoPay?)
      && (Ordinary(list[i]) ==> list[i].nonce == (GetNonce(store, a) + i) % TWO_64)
      && (Ordinary(list[i]) ==> forall j :: 0 <= j < i ==> Ordinary(list[j]))
  }

  /** The lists GetAllTransactionLists returns, none of whose transactions is in head. */
  predicate PoolOk(store: Store, lists: TxnLists, head: seq<Txn>) {
    && ListsOk(lists)
    && (forall a :: a in lists ==> PoolList(store, a, lists[a]))
    && (forall a, t, h :: a in lists && t in lists[a] && h in head ==> t.hash != h.hash)
  }

  /** The coinbase made by CreateCoinbaseTransaction. */
  predicate CoinbaseOk(rules: Rules, store: Store, txn: Txn, height: nat)
    requires height > 0
  {
    && txn.payload.Coinbase? && txn.fee == 0 && txn.sender == store.net.donationAddress
    && txn.nonce == GetNonce(store, txn.sender)
    && GetDonation(store).Ok? && txn.payload.amount == RewardAt(height) + GetDonation(store).value
    && txn.hash !in store.txnHashes
    && VerifyTransaction(rules, store, txn, height)
  }

  /** The winning signature chain transaction, when it is not on the chain yet. */
  predicate SigChainOk(rules: Rules, store: Store, txn: Txn, height: nat) {
    && txn.payload.SigChainTxn? && txn.fee == 0 && txn.hash !in store.txnHashes
    && VerifyTransaction(rules, store, txn, height)
  }

  /** The transactions a block starts with. */
  predicate HeadOk(rules: Rules, store: Store, head: seq<Txn>, height: nat)
    requires height > 0
  {
    && 1 <= |head| <= 2 && CoinbaseOk(rules, store, head[0], height)
    && (|head| == 2 ==> SigChainOk(rules, store, head[1], height) && head[1].hash != head[0].hash)
    && TotalSize(head) <= MAX_BLOCK_SIZE
  }

  /** The donation the coinbase draws is there. */
  predicate DonationCovered(store: Store) {
    GetDonation(store).Ok? && GetBalance(store, store.net.donationAddress) >= GetDonation(store).value
  }

  // ----- The validator's view of the builder's state -----

  /** The validator's state knows the head's hashes; otherwise it is the builder's. */
  function WithHead(b: Bvs, head: seq<Txn>): Bvs {
    b.(txnlist := b.txnlist + set t | t in head :: t.hash)
  }

  lemma VerifyWithHead(b: Bvs, head: seq<Txn>, store: Store, max: nat, txn: Txn, height: nat)
    requires height > 0 && forall h :: h in head ==> txn.hash != h.hash
    ensures VerifyError(WithHead(b, head), store, max, txn, height) == VerifyError(b, store, max, txn, height)
    ensures Admit(WithHead(b, head), store, txn) == WithHead(Admit(b, store, txn), head)
  {
    hide SubscribersCount, IsSubscribed, ChannelBalance, GetDonation, GetBalance, RewardAt, AddCounts;
    assert Admit(WithHead(b, head), store, txn).txnlist == WithHead(Admit(b, store, txn), head).txnlist;
  }

  lemma AdmitSigChain(b: Bvs, store: Store, txn: Txn)
    requires Clean?(b) && (txn.payload.SigChainTxn? || txn.payload.Coinbase?) && txn.fee == 0 && b.subscriptionCount == map[]
    ensures Admit(b, store, txn) == b.(txnlist := b.txnlist + {txn.hash})
  {
    assert AddCounts(map[], map[]) == map[];
  }

  /** The head passes the validator's loop as soon as the donation is covered. */
  lemma HeadChecks(rules: Rules, store: Store, head: seq<Txn>, height: nat)
    requires height > 0 && StoreOk(store) && HeadOk(rules, store, head, height) && DonationCovered(store)
    ensures CheckPrefix(rules, store, head, |head|, height).Ok?
    ensures CheckPrefix(rules, store, head, |head|, height).value.bvs == WithHead(NewBvs, head)
  {
    hide Admit, StoreOk, GetDonation, RewardAt, Sane;
    var c0 := CheckPrefix(rules, store, head, 0, height);
    assert c0 == Ok(NewCheck);
    CoinbaseChecks(rules, store, head[0], height);
    AdmitSigChain(NewBvs, store, head[0]);
    var c1 := CheckPrefix(rules, store, head, 1, height);
    assert c1.Ok? && c1.value.bvs == NewBvs.(txnlist := {head[0].hash});
    if |head| == 1 {
      assert WithHead(NewBvs, head).txnlist == {head[0].hash};
    } else {
      SigChainChecks(rules, store, c1.value, head[1], height);
      AdmitSigChain(c1.value.bvs, store, head[1]);
      assert WithHead(NewBvs, head).txnlist == {head[0].hash, head[1].hash};
    }
  }

  lemma CoinbaseChecks(rules: Rules, store: Store, txn: Txn, height: nat)
    requires height > 0 && StoreOk(store) && CoinbaseOk(rules, store, txn, height) && DonationCovered(store)
    ensures CheckTxn(rules, store, NewCheck, 0, txn, height) == Ok(CheckState(Admit(NewBvs, store, txn), map[]))
  {
    hide Admit, GetDonation, RewardAt, Sane;
    BalanceWithinTotal(store.state.accounts, store.net.nknAsset, txn.sender);
    assert VerifyError(NewBvs, store, rules.maxSubscriptions, txn, height).None?;
    assert VerifyWithLedger(rules, store, txn, height);
  }

  lemma SigChainChecks(rules: Rules, store: Store, c: CheckState, txn: Txn, height: nat)
    requires height > 0 && StoreOk(store) && SigChainOk(rules, store, txn, height) && txn.hash !in c.bvs.txnlist
    ensures CheckTxn(rules, store, c, 1, txn, height) == Ok(CheckState(Admit(c.bvs, store, txn), c.nonces))
  {
    hide Admit, Sane;
    BalanceWithinTotal(store.state.accounts, store.net.nknAsset, txn.sender);
  }

  // ----- Prefixes of the account lists -----

  /** The transactions of sender a, in order. */
  function Of(txns: seq<Txn>, a: Uint160): seq<Txn> {
    if txns == [] then []
    else
      var t := txns[|txns| - 1];
      Of(txns[..|txns| - 1], a) + if t.sender == a then [t] else []
  }

  function OrdinaryCount(txns: seq<Txn>): nat {
    if txns == [] then 0
    else OrdinaryCount(txns[..|txns| - 1]) + if Ordinary(txns[|txns| - 1]) then 1 else 0
  }

  /** Every account has contributed exactly the first taken[a] transactions of its list. */
  ghost predicate TakesPrefixes(lists: TxnLists, taken: map<Uint160, nat>, picked: seq<Txn>) {
    && taken.Keys == lists.Keys
    && (forall a :: a in lists ==> taken[a] <= |lists[a]| && Of(picked, a) == lists[a][..taken[a]])
    && (forall a :: a !in lists ==> Of(picked, a) == [])
  }

  lemma TakeNext(lists: TxnLists, taken: map<Uint160, nat>, picked: seq<Txn>, t: Txn)
    requires TakesPrefixes(lists, taken, picked) && t.sender in lists
    requires taken[t.sender] < |lists[t.sender]| && t == lists[t.sender][taken[t.sender]]
    ensures TakesPrefixes(lists, taken[t.sender := taken[t.sender] + 1], picked + [t])
  {
    assert (picked + [t])[..|picked|] == picked;
    forall a ensures Of(picked + [t], a) == Of(picked, a) + if t.sender == a then [t] else [] {
    }
    var k := taken[t.sender];
    assert lists[t.sender][..k + 1] == lists[t.sender][..k] + [t];
  }

  lemma {:induction false} NoncesAreCounted(txns: seq<Txn>, n: nat, a: Uint160)
    requires n <= |txns|
    ensures |NoncesIn(txns, n, a)| == OrdinaryCount(Of(txns[..n], a))
  {
    if n == 0 {
    } else {
      NoncesAreCounted(txns, n - 1, a);
      assert txns[..n][..n - 1] == txns[..n - 1];
      var before, t := Of(txns[..n - 1], a), txns[n - 1];
      if t.sender == a {
        assert (before + [t])[..|before|] == before;
      } else {
        assert before + [] == before;
      }
    }
  }

  lemma {:induction false} AllOrdinary(txns: seq<Txn>)
    requires forall i :: 0 <= i < |txns| ==> Ordinary(txns[i])
    ensures OrdinaryCount(txns) == |txns|
  {
    if txns == [] {
    } else {
      AllOrdinary(txns[..|txns| - 1]);
    }
  }

  lemma {:induction false} OfConcat(xs: seq<Txn>, ys: seq<Txn>, a: Uint160)
    ensures Of(xs + ys, a) == Of(xs, a) + Of(ys, a)
  {
    if ys == [] {
      assert xs + ys == xs;
    } else {
      OfConcat(xs, ys[..|ys| - 1], a);
      assert (xs + ys)[..|xs + ys| - 1] == xs + ys[..|ys| - 1];
    }
  }

  /** The head of a block consumes no nonce. */
  lemma {:induction false} HeadHasNoNonces(head: seq<Txn>, n: nat, a: Uint160)
    requires n <= |head| && forall t :: t in head ==> !Ordinary(t)
    ensures NoncesIn(head, n, a) == []
  {
    if n == 0 {
    } else {
      HeadHasNoNonces(head, n - 1, a);
    }
  }

  lemma {:induction false} CountConcat(xs: seq<Txn>, ys: seq<Txn>)
    ensures OrdinaryCount(xs + ys) == OrdinaryCount(xs) + OrdinaryCount(ys)
  {
    if ys == [] {
      assert xs + ys == xs;
    } else {
      CountConcat(xs, ys[..|ys| - 1]);
      assert (xs + ys)[..|xs + ys| - 1] == xs + ys[..|ys| - 1];
    }
  }

  /** How many nonces of a are used so far. */
  lemma UsedNonces(head: seq<Txn>, picked: seq<Txn>, a: Uint160)
    requires forall t :: t in head ==> !Ordinary(t)
    ensures |NoncesIn(head + picked, |head + picked|, a)| == OrdinaryCount(Of(picked, a))
  {
    NoncesAreCounted(head + picked, |head + picked|, a);
    assert (head + picked)[..|head + picked|] == head + picked;
    OfConcat(head, picked, a);
    CountConcat(Of(head, a), Of(picked, a));
    NoncesAreCounted(head, |head|, a);
    assert head[..|head|] == head;
    HeadHasNoNonces(head, |head|, a);
  }

  // ----- One iteration -----

  lemma {:induction false} PrefixOnly(rules: Rules, store: Store, xs: seq<Txn>, ys: seq<Txn>, n: nat, height: nat)
    requires height > 0 && n <= |xs| && n <= |ys| && xs[..n] == ys[..n]
    ensures CheckPrefix(rules, store, xs, n, height) == CheckPrefix(rules, store, ys, n, height)
  {
    hide CheckTxn;
    if n == 0 {
    } else {
      assert xs[..n - 1] == xs[..n][..n - 1] && ys[..n - 1] == ys[..n][..n - 1];
      PrefixOnly(rules, store, xs, ys, n - 1, height);
      assert xs[n - 1] == xs[..n][n - 1] && ys[n - 1] == ys[..n][n - 1];
    }
  }

  /** The validator would accept what the builder has assembled, and its state is the builder's. */
  ghost predicate ValidatorAgrees(rules: Rules, store: Store, head: seq<Txn>, picked: seq<Txn>, bvs: Bvs, height: nat)
    requires height > 0
  {
    var c := CheckPrefix(rules, store, head + picked, |head + picked|, height);
    c.Ok? && c.value.bvs == WithHead(bvs, head)
  }

  ghost predicate NoncesInRange(store: Store) {
    forall a :: GetNonce(store, a) < TWO_64
  }

  /** The next transaction of an account's list has the nonce the validator expects. */
  lemma NextNonce(rules: Rules, store: Store, head: seq<Txn>, picked: seq<Txn>, lists: TxnLists,
          taken: map<Uint160, nat>, t: Txn, height: nat)
    requires height > 0 && NoncesInRange(store) && (forall h :: h in head ==> !Ordinary(h))
    requires CheckPrefix(rules, store, head + picked, |head + picked|, height).Ok?
    requires TakesPrefixes(lists, taken, picked) && t.sender in lists && PoolList(store, t.sender, lists[t.sender])
    requires taken[t.sender] < |lists[t.sender]| && t == lists[t.sender][taken[t.sender]]
    requires Ordinary(t) && t.sender != store.net.donationAddress
    ensures ExpectedNonce(store, CheckPrefix(rules, store, head + picked, |head + picked|, height).value.nonces, t.sender) == t.nonce
  {
    hide CheckPrefix, ExpectedNonce, GetNonce, Ordinary;
    var a, k := t.sender, taken[t.sender];
    BlockContinues(rules, store, head + picked, |head + picked|, height, a, GetNonce(store, a));
    UsedNonces(head, picked, a);
    AllOrdinary(lists[a][..k]);
  }

  lemma CountsAll(lists: TxnLists, taken: map<Uint160, nat>, picked: seq<Txn>, a: Uint160)
    requires TakesPrefixes(lists, taken, picked) && a in lists
    ensures a in taken
  {
  }

  /** What the pool promises of one of its transactions. */
  lemma PoolFacts(store: Store, lists: TxnLists, head: seq<Txn>, a: Uint160, k: nat)
    requires PoolOk(store, lists, head) && a in lists && k < |lists[a]|
    ensures PoolList(store, a, lists[a]) && (Ordinary(lists[a][k]) || lists[a][k].payload.NanoPay?)
    ensures forall h :: h in head ==> lists[a][k].hash != h.hash
  {
    hide ListsOk, GetNonce, Ordinary;
    assert lists[a][k] in lists[a];
  }

  /** One more transaction is one more step of the validator's loop. */
  lemma CheckAppended(rules: Rules, store: Store, txns: seq<Txn>, t: Txn, height: nat)
    requires height > 0 && CheckPrefix(rules, store, txns, |txns|, height).Ok?
    ensures CheckPrefix(rules, store, txns + [t], |txns| + 1, height)
         == CheckTxn(rules, store, CheckPrefix(rules, store, txns, |txns|, height).value, |txns|, t, height)
  {
    hide CheckTxn;
    assert (txns + [t])[..|txns|] == txns[..|txns|] && (txns + [t])[|txns|] == t;
    PrefixOnly(rules, store, txns + [t], txns, |txns|, height);
  }

  /** The conditions under which the loop takes a transaction. */
  lemma CheckTxnAccepts(rules: Rules, store: Store, c: CheckState, i: nat, t: Txn, height: nat)
    requires height > 0 && i > 0 && !t.payload.Coinbase?
    requires VerifyTransaction(rules, store, t, height) && VerifyWithLedger(rules, store, t, height)
    requires VerifyError(c.bvs, store, rules.maxSubscriptions, t, height).None?
    requires Ordinary(t) ==> ExpectedNonce(store, c.nonces, t.sender) == t.nonce
    ensures CheckTxn(rules, store, c, i, t, height).Ok?
    ensures CheckTxn(rules, store, c, i, t, height).value.bvs == Admit(c.bvs, store, t)
  {
    hide VerifyTransaction, VerifyWithLedger, VerifyError, Admit, ExpectedNonce, Ordinary;
  }

  /** What the builder's checks accept, the validator accepts after the same transactions. */
  lemma BuilderStep(rules: Rules, store: Store, head: seq<Txn>, picked: seq<Txn>, lists: TxnLists,
          taken: map<Uint160, nat>, bvs: Bvs, t: Txn, height: nat)
    requires height > 0 && NoncesInRange(store) && (forall h :: h in head ==> !Ordinary(h)) && head != []
    requires PoolOk(store, lists, head) && TakesPrefixes(lists, taken, picked)
    requires ValidatorAgrees(rules, store, head, picked, bvs, height)
    requires t.sender in lists && taken[t.sender] < |lists[t.sender]| && t == lists[t.sender][taken[t.sender]]
    requires VerifyTransaction(rules, store, t, height) && VerifyWithLedger(rules, store, t, height)
    requires VerifyError(bvs, store, rules.maxSubscriptions, t, height).None?
    ensures ValidatorAgrees(rules, store, head, picked + [t], Admit(bvs, store, t), height)
  {
    hide VerifyTransaction, VerifyWithLedger, VerifyError, Admit, ExpectedNonce, PoolOk, TakesPrefixes, PoolList,
      NoncesInRange, WithHead, Ordinary, CheckTxn, CheckPrefix;
    var txns := head + picked;
    assert head + (picked + [t]) == txns + [t];
    CountsAll(lists, taken, picked, t.sender);
    PoolFacts(store, lists, head, t.sender, taken[t.sender]);
    PoolTxn(rules, store, t, height);
    VerifyWithHead(bvs, head, store, rules.maxSubscriptions, t, height);
    if Ordinary(t) {
      NextNonce(rules, store, head, picked, lists, taken, t, height);
    }
    var c := CheckPrefix(rules, store, txns, |txns|, height).value;
    CheckTxnAccepts(rules, store, c, |txns|, t, height);
    CheckAppended(rules, store, txns, t, height);
  }

  lemma PoolTxn(rules: Rules, store: Store, t: Txn, height: nat)
    requires VerifyTransaction(rules, store, t, height) && (Ordinary(t) || t.payload.NanoPay?)
    ensures !t.payload.Coinbase? && t.sender != store.net.donationAddress && t.size <= MAX_BLOCK_SIZE
  {
  }

  // ----- BuildBlock -----

  /** Who proposes the next block: the signer of a transaction, or somebody else. */
  datatype Winner = NoWinnerTxn | WinnerTxn(hash: Uint256)

  /** The transactions a block starts with: the coinbase, and the winning signature chain if the
      chain does not hold it yet. */
  function HeadOf(store: Store, coinbase: Txn, winner: Winner, sigChain: Option<Txn>): seq<Txn> {
    if winner.WinnerTxn? && winner.hash !in store.txnHashes && sigChain.Some? then [coinbase, sigChain.value] else [coinbase]
  }

  /** A block whose coinbase costs nothing executes only if the donation was covered. */
  lemma ExecutedDonation(store: Store, b: Block)
    requires b.txns != [] && b.txns[0].payload.Coinbase? && b.txns[0].fee == 0 && b.txns[0].sender == store.net.donationAddress
    requires ExecuteBlock(store.state, store.net, b, GetDonation(store)).Ok?
    ensures DonationCovered(store)
  {
    hide GetDonation, TotalFee;
    if !DonationCovered(store) {
      assert Spend(store.state, store.net, b.txns[0], TotalFee(b.txns), false, b.height, GetDonation(store)).Err? by {
        BumpKeepsBalance(store.state.accounts, b.txns[0], store.net.nknAsset);
      }
      FirstFails(store, b.txns, |b.txns|, TotalFee(b.txns), b.height, GetDonation(store));
    }
  }

  lemma BumpKeepsBalance(accounts: AccountMap, txn: Txn, asset: Uint256)
    ensures forall a :: BalanceOf(BumpNonce(accounts, txn), a, asset) == BalanceOf(accounts, a, asset)
  {
  }

  lemma SizeOfAppend(txns: seq<Txn>, t: Txn)
    ensures TotalSize(txns + [t]) == TotalSize(txns) + t.size
  {
    assert (txns + [t])[..|txns|] == txns;
  }

  lemma HeadNotOrdinary(rules: Rules, store: Store, head: seq<Txn>, height: nat)
    requires height > 0 && HeadOk(rules, store, head, height)
    ensures forall h :: h in head ==> !Ordinary(h)
  {
    hide GetDonation, RewardAt, Sane;
  }

  /** The builder's validation state after taking these transactions. */
  function AdmitAll(store: Store, txns: seq<Txn>): Bvs {
    if txns == [] then NewBvs else Admit(AdmitAll(store, txns[..|txns| - 1]), store, txns[|txns| - 1])
  }

  /** What the builder's loop keeps. */
  ghost predicate Building(rules: Rules, store: Store, lists: TxnLists, taken: map<Uint160, nat>,
                           head: seq<Txn>, picked: seq<Txn>, bvs: Bvs, count: nat, size: nat, height: nat)
    requires height > 0
  {
    && TakesPrefixes(lists, taken, picked) && Clean?(bvs) && bvs == AdmitAll(store, picked)
    && (DonationCovered(store) ==> ValidatorAgrees(rules, store, head, picked, bvs, height))
    && count == |head + picked| <= MAX_NUM_TXN_PER_BLOCK
    && size == TotalSize(head + picked) <= MAX_BLOCK_SIZE
  }

  lemma BuildingStarts(rules: Rules, store: Store, lists: TxnLists, taken: map<Uint160, nat>,
          head: seq<Txn>, height: nat)
    requires height > 0 && StoreOk(store) && HeadOk(rules, store, head, height) && taken == map a | a in lists :: 0
    ensures Building(rules, store, lists, taken, head, [], NewBvs, |head|, TotalSize(head), height)
  {
    hide StoreOk, DonationCovered, CheckPrefix;
    assert head + [] == head;
    if DonationCovered(store) {
      HeadChecks(rules, store, head, height);
    }
  }

  /** The counters do not wrap, and what fits the node's limits fits a block's. */
  lemma StillFits(cfg: MiningConfig, head: seq<Txn>, picked: seq<Txn>, t: Txn)
    requires 1 <= cfg.numTxnPerBlock <= MAX_NUM_TXN_PER_BLOCK && t.size <= MAX_BLOCK_SIZE
    requires |head + picked| <= MAX_NUM_TXN_PER_BLOCK && TotalSize(head + picked) <= MAX_BLOCK_SIZE
    requires !IsBlockFull(cfg, Add32(|head + picked|, 1), Add32(TotalSize(head + picked), t.size))
    ensures |head + picked| + 1 == |head + (picked + [t])| <= MAX_NUM_TXN_PER_BLOCK
    ensures Add32(TotalSize(head + picked), t.size) == TotalSize(head + (picked + [t])) <= MAX_BLOCK_SIZE
  {
    hide TotalSize;
    assert head + (picked + [t]) == head + picked + [t];
    SizeOfAppend(head + picked, t);
  }

  lemma ContextFacts(rules: Rules, store: Store, cfg: MiningConfig, lists: TxnLists, head: seq<Txn>, height: nat)
    requires height > 0 && Context(rules, store, cfg, lists, head, height)
    ensures NoncesInRange(store) && PoolOk(store, lists, head) && 1 <= cfg.numTxnPerBlock <= MAX_NUM_TXN_PER_BLOCK
    ensures head != [] && forall h :: h in head ==> !Ordinary(h)
  {
    hide StoreOk, NoncesInRange, PoolOk, CoinbaseOk, SigChainOk, TotalSize;
    HeadNotOrdinary(rules, store, head, height);
  }

  lemma PassesFacts(rules: Rules, store: Store, bvs: Bvs, t: Txn, height: nat)
    requires height > 0 && Passes(rules, store, bvs, t, height)
    ensures VerifyTransaction(rules, store, t, height) && VerifyWithLedger(rules, store, t, height)
    ensures VerifyError(bvs, store, rules.maxSubscriptions, t, height).None?
    ensures t.size <= MAX_BLOCK_SIZE
  {
    hide VerifyWithLedger, VerifyError;
    SaneSize(rules, store, t, height);
  }

  lemma AdmitAppended(store: Store, picked: seq<Txn>, t: Txn)
    ensures AdmitAll(store, picked + [t]) == Admit(AdmitAll(store, picked), store, t)
  {
    hide Admit;
    assert (picked + [t])[..|picked|] == picked;
  }

  /** One transaction more. */
  lemma BuildingContinues(rules: Rules, store: Store, cfg: MiningConfig, lists: TxnLists, taken: map<Uint160, nat>,
                          head: seq<Txn>, picked: seq<Txn>, bvs: Bvs, count: nat, size: nat, t: Txn, height: nat)
    requires height > 0 && Context(rules, store, cfg, lists, head, height)
    requires Building(rules, store, lists, taken, head, picked, bvs, count, size, height)
    requires t.sender in lists && t.sender in taken && taken[t.sender] < |lists[t.sender]| && t == lists[t.sender][taken[t.sender]]
    requires Passes(rules, store, bvs, t, height)
    requires !IsBlockFull(cfg, Add32(count, 1), Add32(size, t.size))
    ensures Building(rules, store, lists, taken[t.sender := taken[t.sender] + 1], head, picked + [t], Admit(bvs, store, t),
                     count + 1, Add32(size, t.size), height)
    ensures Commit(Verify(bvs, store, rules.maxSubscriptions, t, height)) == Admit(bvs, store, t)
  {
    hide DonationCovered, VerifyTransaction, VerifyError, Verify, Commit, Admit, AdmitAll, VerifyWithLedger,
      ValidatorAgrees,
      TakesPrefixes, PoolOk, NoncesInRange, Context, Passes, TotalSize, IsBlockFull, Add32, Clean?, Ordinary;
    ContextFacts(rules, store, cfg, lists, head, height);
    PassesFacts(rules, store, bvs, t, height);
    VerifyCommit(bvs, store, rules.maxSubscriptions, t, height);
    AdmitIsClean(bvs, store, t);
    AdmitAppended(store, picked, t);
    StillFits(cfg, head, picked, t);
    TakeNext(lists, taken, picked, t);
    if DonationCovered(store) {
      BuilderStep(rules, store, head, picked, lists, taken, bvs, t, height);
    }
  }

  lemma SaneSize(rules: Rules, store: Store, t: Txn, height: nat)
    requires VerifyTransaction(rules, store, t, height)
    ensures t.size <= MAX_BLOCK_SIZE
  {
  }

  /** The three checks a transaction goes through, the last against what the block already holds. */
  predicate Passes(rules: Rules, store: Store, bvs: Bvs, t: Txn, height: nat)
    requires height > 0
  {
    && VerifyTransaction(rules, store, t, height) && VerifyWithLedger(rules, store, t, height)
    && VerifyError(bvs, store, rules.maxSubscriptions, t, height).None?
  }

  /** One offer: it is used, or its account is given up at this its first invalid transaction. */
  method Consider(rules: Rules, store: Store, collection: TxnCollection, bvs: BlockValidationState, txn: Txn,
          height: nat) returns (used: bool)
    requires height > 0 && collection.Valid() && collection.tops != [] && txn == collection.tops[0] && Clean?(bvs.View())
    modifies collection, bvs
    ensures collection.Valid() && Remaining(collection.txns, collection.tops) < old(Remaining(collection.txns, collection.tops))
    ensures !used ==> bvs.View() == old(bvs.View()) && !Passes(rules, store, bvs.View(), txn, height)
    ensures !used ==> collection.taken == old(collection.taken) && collection.dropped == old(collection.dropped) + {txn.sender}
    ensures used ==> Passes(rules, store, old(bvs.View()), txn, height) && bvs.View() == Admit(old(bvs.View()), store, txn)
    ensures used ==> collection.dropped == old(collection.dropped) && txn.sender in old(collection.taken)
    ensures used ==> collection.taken == old(collection.taken)[txn.sender := old(collection.taken)[txn.sender] + 1]
  {
    hide VerifyTransaction, VerifyWithLedger, VerifyError, Admit, Commit, Verify, Reset, Remaining, ListsOk,
      Sorts, Offers, Descending;
    if !VerifyTransaction(rules, store, txn, height) || !VerifyWithLedger(rules, store, txn, height) {
      collection.Pop();
      return false;
    }
    ghost var before := bvs.View();
    var e := bvs.VerifyTransactionWithBlock(store, rules.maxSubscriptions, txn, height);
    if e.Some? {
      VerifyReset(before, store, rules.maxSubscriptions, txn, height);
      bvs.Reset();
      collection.Pop();
      return false;
    }
    VerifyCommit(before, store, rules.maxSubscriptions, txn, height);
    collection.Update();
    bvs.Commit();
    used := true;
  }

  /** Everything the builder takes for granted. */
  ghost predicate Context(rules: Rules, store: Store, cfg: MiningConfig, lists: TxnLists, head: seq<Txn>, height: nat) {
    && height > 0 && StoreOk(store) && NoncesInRange(store)
    && 1 <= cfg.numTxnPerBlock <= MAX_NUM_TXN_PER_BLOCK
    && HeadOk(rules, store, head, height) && PoolOk(store, lists, head)
  }

  // ----- What is left behind -----

  /** What the builder chose: the transactions taken, how many of each list, the accounts given up,
      and the transaction it stopped at, if any. */
  datatype Selection = Selection(picked: seq<Txn>, taken: map<Uint160, nat>, dropped: set<Uint160>, stop: Option<Txn>)

  /** The transaction failed a check after some of the picked transactions. */
  ghost predicate Refused(rules: Rules, store: Store, picked: seq<Txn>, t: Txn, height: nat)
    requires height > 0
  {
    exists k :: 0 <= k <= |picked| && !Passes(rules, store, AdmitAll(store, picked[..k]), t, height)
  }

  /** An account is given up only at a transaction that was refused. */
  ghost predicate GaveUp(rules: Rules, store: Store, lists: TxnLists, sel: Selection, height: nat)
    requires height > 0
  {
    forall a :: a in sel.dropped ==>
      a in lists && a in sel.taken && sel.taken[a] < |lists[a]| && Refused(rules, store, sel.picked, lists[a][sel.taken[a]], height)
  }

  function LowFees(cfg: MiningConfig, txns: seq<Txn>): seq<Txn> {
    if txns == [] then []
    else
      var t := txns[|txns| - 1];
      LowFees(cfg, txns[..|txns| - 1]) + if cfg.isLowFee(t) then [t] else []
  }

  /** One more transaction would exceed a limit: on how many or how much, of all or of the low-fee ones.
      Sizes are uint32. */
  predicate Full(cfg: MiningConfig, head: seq<Txn>, picked: seq<Txn>, t: Txn) {
    var txns, low := head + picked, LowFees(cfg, picked);
    || |txns| + 1 > cfg.numTxnPerBlock
    || (TotalSize(txns) + t.size) % 0x1_0000_0000 > MAX_BLOCK_SIZE
    || (cfg.isLowFee(t) && 0 < cfg.numLowFeeTxnPerBlock <= |low|)
    || (cfg.isLowFee(t) && 0 < cfg.lowFeeTxnSizePerBlock < (TotalSize(low) + t.size) % 0x1_0000_0000)
  }

  /** The picked transactions respect the node's limits. */
  predicate WithinLimits(cfg: MiningConfig, head: seq<Txn>, picked: seq<Txn>) {
    && (picked != [] ==> |head + picked| <= cfg.numTxnPerBlock)
    && (cfg.numLowFeeTxnPerBlock > 0 ==> |LowFees(cfg, picked)| <= cfg.numLowFeeTxnPerBlock)
    && (cfg.lowFeeTxnSizePerBlock > 0 ==> TotalSize(LowFees(cfg, picked)) <= cfg.lowFeeTxnSizePerBlock)
  }

  lemma StaysWithin(cfg: MiningConfig, head: seq<Txn>, picked: seq<Txn>, t: Txn, low: nat, lowSize: nat)
    requires WithinLimits(cfg, head, picked) && LowFeeCounters(cfg, picked, low, lowSize) && 1 <= cfg.numTxnPerBlock
    requires |head + (picked + [t])| <= MAX_NUM_TXN_PER_BLOCK && TotalSize(head + (picked + [t])) <= MAX_BLOCK_SIZE
    requires !IsBlockFull(cfg, Add32(|head + picked|, 1), Add32(TotalSize(head + picked), t.size))
    requires !(cfg.isLowFee(t) && IsLowFeeTxnFull(cfg, Add32(low, 1), Add32(lowSize, t.size)))
    ensures WithinLimits(cfg, head, picked + [t])
  {
    hide LowFees, TotalSize;
    CountLowFee(cfg, head, picked, low, lowSize, t);
  }

  /** The builder stops when no account is active, or at the best offer when that does not fit. */
  ghost predicate Stops(cfg: MiningConfig, less: (Txn, Txn) -> bool, lists: TxnLists, head: seq<Txn>, sel: Selection) {
    && sel.taken.Keys == lists.Keys
    && (sel.stop.None? ==> forall a :: !Active(lists, sel.taken, sel.dropped, a))
    && (sel.stop.Some? ==>
          && BestOffer(less, lists, sel.taken, sel.dropped, sel.stop.value)
          && Full(cfg, head, sel.picked, sel.stop.value))
  }

  /** The limits hold, and nothing is left behind without a reason. */
  ghost predicate Greedy(rules: Rules, store: Store, cfg: MiningConfig, less: (Txn, Txn) -> bool, lists: TxnLists,
                         head: seq<Txn>, sel: Selection, height: nat)
    requires height > 0
  {
    && TakesPrefixes(lists, sel.taken, sel.picked) && GaveUp(rules, store, lists, sel, height)
    && WithinLimits(cfg, head, sel.picked) && Stops(cfg, less, lists, head, sel)
  }

  /** A refused offer is a reason to give its account up. */
  lemma GiveUp(rules: Rules, store: Store, lists: TxnLists, sel: Selection, t: Txn, height: nat)
    requires height > 0 && GaveUp(rules, store, lists, sel, height) && !Passes(rules, store, AdmitAll(store, sel.picked), t, height)
    requires t.sender in lists && t.sender in sel.taken && sel.taken[t.sender] < |lists[t.sender]| && t == lists[t.sender][sel.taken[t.sender]]
    ensures GaveUp(rules, store, lists, sel.(dropped := sel.dropped + {t.sender}), height)
  {
    hide Passes, AdmitAll;
    assert sel.picked[..|sel.picked|] == sel.picked;
  }

  /** Taking an offer leaves the accounts given up as they are. */
  lemma KeepGivenUp(rules: Rules, store: Store, lists: TxnLists, sel: Selection, t: Txn, height: nat)
    requires height > 0 && GaveUp(rules, store, lists, sel, height) && t.sender !in sel.dropped && t.sender in sel.taken
    ensures GaveUp(rules, store, lists, sel.(picked := sel.picked + [t], taken := sel.taken[t.sender := sel.taken[t.sender] + 1]), height)
  {
    hide Passes, AdmitAll;
    forall a | a in sel.dropped ensures Refused(rules, store, sel.picked + [t], lists[a][sel.taken[a]], height) {
      var k :| 0 <= k <= |sel.picked| && !Passes(rules, store, AdmitAll(store, sel.picked[..k]), lists[a][sel.taken[a]], height);
      assert (sel.picked + [t])[..k] == sel.picked[..k];
    }
  }

  /** The counters of low-fee transactions do not wrap. */
  lemma {:induction false} LowFeesAreFew(cfg: MiningConfig, head: seq<Txn>, txns: seq<Txn>)
    ensures |LowFees(cfg, txns)| <= |head + txns| && TotalSize(LowFees(cfg, txns)) <= TotalSize(head + txns)
  {
    if txns == [] {
      assert head + txns == head;
    } else {
      var init, t := txns[..|txns| - 1], txns[|txns| - 1];
      LowFeesAreFew(cfg, head, init);
      assert head + txns == head + init + [t];
      SizeOfAppend(head + init, t);
      SizeOfAppend(LowFees(cfg, init), t);
      assert LowFees(cfg, init) + [] == LowFees(cfg, init);
    }
  }

  lemma LowFeeAppended(cfg: MiningConfig, txns: seq<Txn>, t: Txn)
    ensures LowFees(cfg, txns + [t]) == LowFees(cfg, txns) + if cfg.isLowFee(t) then [t] else []
  {
    assert (txns + [t])[..|txns|] == txns;
  }

  /** The counters of low-fee transactions after one more. */
  predicate LowFeeCounters(cfg: MiningConfig, picked: seq<Txn>, count: nat, size: nat) {
    count == |LowFees(cfg, picked)| && size == TotalSize(LowFees(cfg, picked))
  }

  lemma CountLowFee(cfg: MiningConfig, head: seq<Txn>, picked: seq<Txn>, count: nat, size: nat, t: Txn)
    requires LowFeeCounters(cfg, picked, count, size)
    requires |head + (picked + [t])| <= MAX_NUM_TXN_PER_BLOCK && TotalSize(head + (picked + [t])) <= MAX_BLOCK_SIZE
    ensures cfg.isLowFee(t) ==> LowFeeCounters(cfg, picked + [t], Add32(count, 1), Add32(size, t.size))
    ensures !cfg.isLowFee(t) ==> LowFeeCounters(cfg, picked + [t], count, size)
  {
    LowFeeAppended(cfg, picked, t);
    LowFeesAreFew(cfg, head, picked + [t]);
    SizeOfAppend(LowFees(cfg, picked), t);
    assert LowFees(cfg, picked) + [] == LowFees(cfg, picked);
  }

  // ----- The loop -----

  lemma NothingGivenUp(rules: Rules, store: Store, cfg: MiningConfig, lists: TxnLists, head: seq<Txn>, sel: Selection,
          height: nat)
    requires height > 0 && sel.dropped == {}
    ensures GaveUp(rules, store, lists, sel, height) && LowFeeCounters(cfg, [], 0, 0) && WithinLimits(cfg, head, [])
  {
  }

  /** What is offered first is the next transaction of an active account. */
  lemma FirstOffer(c: TxnCollection)
    requires c.Valid() && c.tops != []
    ensures var t := c.tops[0];
      && t.sender in c.lists && t.sender in c.taken && t.sender !in c.dropped
      && c.taken[t.sender] < |c.lists[t.sender]| && t == c.lists[t.sender][c.taken[t.sender]]
  {
    assert c.tops[0] in c.tops;
  }

  lemma StopsAt(cfg: MiningConfig, c: TxnCollection, head: seq<Txn>, picked: seq<Txn>, stop: Option<Txn>, low: nat,
          lowSize: nat)
    requires c.Valid() && LowFeeCounters(cfg, picked, low, lowSize)
    requires |head + picked| <= MAX_NUM_TXN_PER_BLOCK && 1 <= cfg.numTxnPerBlock
    requires stop.None? ==> forall a :: !Active(c.lists, c.taken, c.dropped, a)
    requires stop.Some? ==> BestOffer(c.less, c.lists, c.taken, c.dropped, stop.value)
    requires stop.Some? ==>
      || IsBlockFull(cfg, Add32(|head + picked|, 1), Add32(TotalSize(head + picked), stop.value.size))
      || (cfg.isLowFee(stop.value) && IsLowFeeTxnFull(cfg, Add32(low, 1), Add32(lowSize, stop.value.size)))
    ensures Stops(cfg, c.less, c.lists, head, Selection(picked, c.taken, c.dropped, stop))
  {
    hide BestOffer, Active, LowFees, TotalSize;
    LowFeesAreFew(cfg, head, picked);
  }

  lemma BuildingFits(rules: Rules, store: Store, lists: TxnLists, taken: map<Uint160, nat>,
                     head: seq<Txn>, picked: seq<Txn>, bvs: Bvs, count: nat, size: nat, height: nat)
    requires height > 0 && Building(rules, store, lists, taken, head, picked, bvs, count, size, height)
    ensures |head + picked| <= MAX_NUM_TXN_PER_BLOCK && TotalSize(head + picked) <= MAX_BLOCK_SIZE
  {
    hide TakesPrefixes, DonationCovered, ValidatorAgrees, AdmitAll, TotalSize;
  }

  lemma IsGreedy(rules: Rules, store: Store, cfg: MiningConfig, less: (Txn, Txn) -> bool, lists: TxnLists,
                 head: seq<Txn>, sel: Selection, bvs: Bvs, count: nat, size: nat, height: nat)
    requires height > 0 && Building(rules, store, lists, sel.taken, head, sel.picked, bvs, count, size, height)
    requires GaveUp(rules, store, lists, sel.(stop := None), height) && Stops(cfg, less, lists, head, sel)
    requires WithinLimits(cfg, head, sel.picked)
    ensures Greedy(rules, store, cfg, less, lists, head, sel, height)
  {
    hide TakesPrefixes, DonationCovered, ValidatorAgrees, AdmitAll, TotalSize, Refused, Stops, WithinLimits;
  }

  /** The loop of BuildBlock: consider the best offer while it fits. */
  method FillBlock(rules: Rules, store: Store, cfg: MiningConfig, collection: TxnCollection,
          bvs: BlockValidationState, head: seq<Txn>, height: nat)
    returns (txnList: seq<Txn>, ghost sel: Selection)
    requires height > 0 && Context(rules, store, cfg, collection.lists, head, height) && collection.Valid() && collection.dropped == {}
    requires Building(rules, store, collection.lists, collection.taken, head, [], bvs.View(), |head|, TotalSize(head), height)
    modifies collection, bvs
    ensures txnList == head + sel.picked && sel.taken == collection.taken
    ensures Building(rules, store, collection.lists, sel.taken, head, sel.picked, bvs.View(), |txnList|, TotalSize(txnList), height)
    ensures Greedy(rules, store, cfg, collection.less, collection.lists, head, sel, height)
  {
    hide *;
    ghost var picked: seq<Txn> := [];
    txnList := head;
    var totalTxCount: nat, totalTxSize: nat := |head|, TotalSize(head);
    var lowFeeTxCount: nat, lowFeeTxSize: nat := 0, 0;
    ghost var stop: Option<Txn> := None;
    NothingGivenUp(rules, store, cfg, collection.lists, head,
      Selection([], collection.taken, collection.dropped, None), height);
    ContextFacts(rules, store, cfg, collection.lists, head, height);
    while true
      invariant txnList == head + picked && collection.Valid() && stop.None?
      invariant Building(rules, store, collection.lists, collection.taken, head, picked, bvs.View(), totalTxCount, totalTxSize, height)
      invariant LowFeeCounters(cfg, picked, lowFeeTxCount, lowFeeTxSize) && WithinLimits(cfg, head, picked)
      invariant GaveUp(rules, store, collection.lists, Selection(picked, collection.taken, collection.dropped, None), height)
      decreases Remaining(collection.txns, collection.tops)
    {
      RemainingNonNegative(collection.txns, collection.tops);
      BuildingFits(rules, store, collection.lists, collection.taken, head, picked, bvs.View(), totalTxCount,
        totalTxSize, height);
      BuildingFacts(rules, store, collection.lists, collection.taken, head, picked, bvs.View(), totalTxCount,
        totalTxSize, height);
      var offer := collection.Peek();
      if offer.None? {
        StopsAt(cfg, collection, head, picked, stop, lowFeeTxCount, lowFeeTxSize);
        break;
      }
      var txn := offer.value;
      if IsBlockFull(cfg, Add32(totalTxCount, 1), Add32(totalTxSize, txn.size)) {
        stop := offer;
        StopsAt(cfg, collection, head, picked, stop, lowFeeTxCount, lowFeeTxSize);
        break;
      }
      if cfg.isLowFee(txn) && IsLowFeeTxnFull(cfg, Add32(lowFeeTxCount, 1), Add32(lowFeeTxSize, txn.size)) {
        stop := offer;
        StopsAt(cfg, collection, head, picked, stop, lowFeeTxCount, lowFeeTxSize);
        break;
      }
      ghost var before, takenBefore, selBefore := bvs.View(), collection.taken, Selection(picked, collection.taken, collection.dropped, None);
      FirstOffer(collection);
      var used := Consider(rules, store, collection, bvs, txn, height);
      if used {
        BuildingContinues(rules, store, cfg, collection.lists, takenBefore, head, picked, before, totalTxCount,
          totalTxSize, txn, height);
        KeepGivenUp(rules, store, collection.lists, selBefore, txn, height);
        BuildingFits(rules, store, collection.lists, collection.taken, head, picked + [txn], bvs.View(),
          totalTxCount + 1, Add32(totalTxSize, txn.size), height);
        CountLowFee(cfg, head, picked, lowFeeTxCount, lowFeeTxSize, txn);
        StaysWithin(cfg, head, picked, txn, lowFeeTxCount, lowFeeTxSize);
        txnList := txnList + [txn];
        picked := picked + [txn];
        totalTxCount, totalTxSize := totalTxCount + 1, Add32(totalTxSize, txn.size);
        if cfg.isLowFee(txn) {
          lowFeeTxCount, lowFeeTxSize := Add32(lowFeeTxCount, 1), Add32(lowFeeTxSize, txn.size);
        }
      } else {
        GiveUp(rules, store, collection.lists, selBefore, txn, height);
      }
    }
    BuildingFacts(rules, store, collection.lists, collection.taken, head, picked, bvs.View(), totalTxCount,
      totalTxSize, height);
    sel := Selection(picked, collection.taken, collection.dropped, stop);
    IsGreedy(rules, store, cfg, collection.less, collection.lists, head, sel, bvs.View(), totalTxCount, totalTxSize,
      height);
  }

  method PickTxns(rules: Rules, store: Store, cfg: MiningConfig, lists: TxnLists, sort: seq<Txn> -> seq<Txn>,
          ghost less: (Txn, Txn) -> bool, head: seq<Txn>, height: nat)
    returns (txnList: seq<Txn>, ghost sel: Selection)
    requires height > 0 && Context(rules, store, cfg, lists, head, height) && Sorts(sort, less)
    ensures txnList == head + sel.picked && Greedy(rules, store, cfg, less, lists, head, sel, height)
    ensures |txnList| <= MAX_NUM_TXN_PER_BLOCK && TotalSize(txnList) <= MAX_BLOCK_SIZE
    ensures DonationCovered(store) ==> CheckPrefix(rules, store, txnList, |txnList|, height).Ok?
  {
    assert ListsOk(lists);
    ghost var taken := map a | a in lists :: 0;
    BuildingStarts(rules, store, lists, taken, head, height);
    hide *;
    var collection := new TxnCollection(lists, sort, less);
    var bvs := new BlockValidationState();
    txnList, sel := FillBlock(rules, store, cfg, collection, bvs, head, height);
    BuildingEnds(rules, store, lists, sel.taken, head, sel.picked, bvs.View(), |txnList|, TotalSize(txnList),
      height);
  }

  lemma BuildingFacts(rules: Rules, store: Store, lists: TxnLists, taken: map<Uint160, nat>,
                      head: seq<Txn>, picked: seq<Txn>, bvs: Bvs, count: nat, size: nat, height: nat)
    requires height > 0 && Building(rules, store, lists, taken, head, picked, bvs, count, size, height)
    ensures Clean?(bvs) && bvs == AdmitAll(store, picked) && count == |head + picked| && size == TotalSize(head + picked)
  {
  }

  lemma BuildingEnds(rules: Rules, store: Store, lists: TxnLists, taken: map<Uint160, nat>,
                     head: seq<Txn>, picked: seq<Txn>, bvs: Bvs, count: nat, size: nat, height: nat)
    requires height > 0 && Building(rules, store, lists, taken, head, picked, bvs, count, size, height)
    ensures TakesPrefixes(lists, taken, picked)
    ensures |head + picked| <= MAX_NUM_TXN_PER_BLOCK && TotalSize(head + picked) <= MAX_BLOCK_SIZE
    ensures DonationCovered(store) ==> CheckPrefix(rules, store, head + picked, |head + picked|, height).Ok?
  {
    hide CheckPrefix, TakesPrefixes, DonationCovered, WithHead;
  }

  /** A block assembled from the picked transactions, with the roots it commits to. */
  lemma AssembledIsAccepted(rules: Rules, store: Store, head: seq<Txn>, b: Block)
    requires b.height > 0 && HeadOk(rules, store, head, b.height) && head <= b.txns
    requires |b.txns| <= MAX_NUM_TXN_PER_BLOCK && TotalSize(b.txns) <= MAX_BLOCK_SIZE
    requires DonationCovered(store) ==> CheckPrefix(rules, store, b.txns, |b.txns|, b.height).Ok?
    requires b.transactionsRoot == Merkle.Root(rules.pairHash, TxnHashes(b.txns))
    requires b.winnerHash == 0 || b.winnerHash in store.txnHashes || (|head| == 2 && head[1].hash == b.winnerHash)
    requires ExecuteBlock(store.state, store.net, b, GetDonation(store)).Ok?
    requires b.stateRoot == rules.stateRoot(ExecuteBlock(store.state, store.net, b, GetDonation(store)).value)
    ensures DonationCovered(store) && TransactionCheck(rules, store, b).None?
  {
    hide CheckPrefix, TotalSize, DonationCovered, ExecuteBlock, Sane, GetDonation, RewardAt, Merkle.Root;
    assert b.txns[0] == head[0];
    ExecutedDonation(store, b);
    if |head| == 2 {
      assert b.txns[1] == head[1] && TxnHashes(b.txns)[1] == head[1].hash;
    }
  }

  /** No pool list holds a registration fee out of range. */
  predicate OrderlyLists(lists: TxnLists) {
    forall a, t :: a in lists && t in lists[a] ==> RegistrationInRange(t)
  }

  lemma {:induction false} AmongItsOwn(txns: seq<Txn>, i: nat)
    requires i < |txns|
    ensures txns[i] in Of(txns, txns[i].sender)
  {
    var n := |txns| - 1;
    if i == n {
    } else {
      AmongItsOwn(txns[..n], i);
    }
  }

  /** Whatever is picked comes from a list. */
  lemma PickedFromLists(lists: TxnLists, taken: map<Uint160, nat>, picked: seq<Txn>, i: nat)
    requires TakesPrefixes(lists, taken, picked) && i < |picked|
    ensures picked[i].sender in lists && picked[i] in lists[picked[i].sender]
  {
    hide Of;
    AmongItsOwn(picked, i);
    assert Of(picked, picked[i].sender) != [];
  }

  /** A block built late enough, or from orderly lists, is orderly. */
  lemma BuiltIsOrderly(rules: Rules, store: Store, lists: TxnLists, taken: map<Uint160, nat>, head: seq<Txn>,
          picked: seq<Txn>, height: nat)
    requires height > 0 && HeadOk(rules, store, head, height) && TakesPrefixes(lists, taken, picked)
    requires CheckPrefix(rules, store, head + picked, |head + picked|, height).Ok?
    requires height >= 7500 || OrderlyLists(lists)
    ensures Orderly(head + picked, |head + picked|)
  {
    hide CheckPrefix, TakesPrefixes, RegistrationInRange, HeadOk;
    var txns := head + picked;
    if height >= 7500 {
      ValidatedPrefixes(rules, store, txns, |txns|, height);
      LateIsOrderly(rules, store, txns, |txns|, height);
    } else {
      forall i | 0 <= i < |txns| ensures RegistrationInRange(txns[i]) {
        if i < |head| {
          HeadInRange(rules, store, head, height, i);
        } else {
          PickedFromLists(lists, taken, picked, i - |head|);
        }
      }
    }
  }

  lemma HeadInRange(rules: Rules, store: Store, head: seq<Txn>, height: nat, i: nat)
    requires height > 0 && HeadOk(rules, store, head, height) && i < |head|
    ensures RegistrationInRange(head[i])
  {
    hide GetDonation, RewardAt, Sane;
  }

  /** And it executes as soon as the donation is covered. */
  lemma AssembledExecutes(rules: Rules, store: Store, head: seq<Txn>, b: Block)
    requires b.height > 0 && StoreOk(store) && HeadOk(rules, store, head, b.height) && head <= b.txns
    requires |b.txns| <= MAX_NUM_TXN_PER_BLOCK && TotalSize(b.txns) <= MAX_BLOCK_SIZE
    requires CheckPrefix(rules, store, b.txns, |b.txns|, b.height).Ok? && OrderlyBlock(b)
    requires b.transactionsRoot == Merkle.Root(rules.pairHash, TxnHashes(b.txns))
    ensures ExecuteBlock(store.state, store.net, b, GetDonation(store)).Ok?
  {
    hide CheckPrefix, TotalSize, StoreOk, ExecuteBlock, Sane, GetDonation, RewardAt, Merkle.Root;
    assert b.txns[0] == head[0];
    ZeroFeeCoinbaseExecutes(rules, store, b);
  }

  /** The winning transaction has to go into the block and is not at hand. */
  predicate WinnerMissing(store: Store, winner: Winner, sigChain: Option<Txn>) {
    winner.WinnerTxn? && winner.hash !in store.txnHashes && sigChain.None?
  }

  /** Proposer/validator agreement: whatever the pool offers and in whatever fee order, a block that
      BuildBlock returns passes TransactionCheck in full.  It returns none if the winning transaction is
      missing or the donation is not covered, and only then if the pool holds no registration fee out of
      range or such registrations are no longer allowed. It takes a prefix of every account's list, in order,
      and leaves nothing behind without a reason. */
  method BuildBlock(rules: Rules, store: Store, cfg: MiningConfig, lists: TxnLists, sort: seq<Txn> -> seq<Txn>,
                    ghost less: (Txn, Txn) -> bool, coinbase: Txn, winner: Winner, sigChain: Option<Txn>)
    returns (r: Option<Block>, ghost sel: Selection)
    requires Context(rules, store, cfg, lists, HeadOf(store, coinbase, winner, sigChain), store.height + 1)
    requires Committed(store.state) && Sorts(sort, less)
    requires winner.WinnerTxn? && sigChain.Some? ==> sigChain.value.hash == winner.hash
    ensures WinnerMissing(store, winner, sigChain) || !DonationCovered(store) ==> r.None?
    ensures store.height + 1 >= 7500 || OrderlyLists(lists) ==>
      (r.None? <==> WinnerMissing(store, winner, sigChain) || !DonationCovered(store))
    ensures r.Some? ==> r.value.height == store.height + 1 && TransactionCheck(rules, store, r.value).None?
    ensures r.Some? ==> r.value.txns == HeadOf(store, coinbase, winner, sigChain) + sel.picked
    ensures r.Some? ==> Greedy(rules, store, cfg, less, lists, HeadOf(store, coinbase, winner, sigChain), sel, store.height + 1)
  {
    hide Sorts, StoreOk, NoncesInRange, HeadOk, PoolOk, Greedy, CheckPrefix, TotalSize, DonationCovered, OrderlyLists,
      TakesPrefixes, ExecuteBlock, GetDonation, TransactionCheck, Merkle.Root;
    sel := Selection([], map[], {}, None);
    var height := store.height + 1;
    var head := [coinbase];
    if winner.WinnerTxn? && winner.hash !in store.txnHashes {
      if sigChain.None? {
        return None, sel;
      }
      head := head + [sigChain.value];
    }
    assert head == HeadOf(store, coinbase, winner, sigChain);
    var txnList;
    txnList, sel := PickTxns(rules, store, cfg, lists, sort, less, head, height);
    var txnRoot := Merkle.ComputeRoot(rules.pairHash, TxnHashes(txnList));
    var b := Block(height, txnRoot.value, 0, if winner.WinnerTxn? then winner.hash else 0, txnList);
    if DonationCovered(store) && (height >= 7500 || OrderlyLists(lists)) {
      GreedyPrefixes(rules, store, cfg, less, lists, head, sel, height);
      BuiltIsOrderly(rules, store, lists, sel.taken, head, sel.picked, height);
      AssembledExecutes(rules, store, head, b);
    }
    var states := new StateDB(store.state);
    assert states.View() == store.state;
    var e := states.GenerateStateRoot(store.net, b, GetDonation(store));
    if e.Some? {
      return None, sel;
    }
    var built := b.(stateRoot := rules.stateRoot(states.View()));
    SameExecution(store, b, built);
    AssembledIsAccepted(rules, store, head, built);
    r := Some(built);
  }

  lemma GreedyPrefixes(rules: Rules, store: Store, cfg: MiningConfig, less: (Txn, Txn) -> bool, lists: TxnLists,
          head: seq<Txn>, sel: Selection, height: nat)
    requires height > 0 && Greedy(rules, store, cfg, less, lists, head, sel, height)
    ensures TakesPrefixes(lists, sel.taken, sel.picked)
  {
    hide TakesPrefixes, GaveUp, Stops, WithinLimits;
  }

  lemma SameExecution(store: Store, b: Block, b': Block)
    requires b.txns == b'.txns && b.height == b'.height
    ensures ExecuteBlock(store.state, store.net, b, GetDonation(store)) == ExecuteBlock(store.state, store.net, b', GetDonation(store))
  {
  }
}
