/** Nonce discipline: over every accepted chain, an account's ordinary transactions execute in nonce
    order, each exactly when the stored nonce is its own. */
module NonceRuns {
  import opened Common
  import opened Transactions
  import opened Accounts
  import opened Rewards
  import opened Execution
  import opened Ledger
  import opened BlockValidation
  import opened BlockCheck
  import opened BlockExecution
  import opened ChainRuns
  import ET = ExpiryTables
  import opened Arith

  /** Executing a transaction advances exactly one nonce, or none. */
  lemma SpendNonces(st: State, net: Network, txn: Txn, totalFee: int, genesis: bool, height: nat,
          donation: Result<int, LedgerError>)
    requires Spend(st, net, txn, totalFee, genesis, height, donation).Ok?
    ensures var st' := Spend(st, net, txn, totalFee, genesis, height, donation).value;
      forall s :: NonceOf(st'.accounts, s) ==
        if s == txn.sender && !txn.payload.NanoPay? && !txn.payload.SigChainTxn?
        then (NonceOf(st.accounts, s) + 1) % TWO_64 else NonceOf(st.accounts, s)
  {
    hide SetBalance, NonceOf, BalanceOf, ET.Claim, ET.Subscribe, ET.Unsubscribe, IncreaseTotalSupply, RewardAt,
      BumpNonce, Wrap64, FeeCharged;
    var charged := ChargeFee(st.accounts, net, txn, height).value;
    ChargeNonces(st.accounts, net, txn, height);
    BumpNonces(charged, txn);
    var bumped := BumpNonce(charged, txn);
    match txn.payload {
      case Coinbase(recipient, amount) =>
        if genesis {
          CreditNonces(bumped, recipient, net.nknAsset, Wrap64(amount + totalFee));
        } else {
          DebitNonces(bumped, txn.sender, net.nknAsset, donation.value);
          CreditNonces(Debit(bumped, txn.sender, net.nknAsset, donation.value).value, recipient, net.nknAsset,
            Wrap64(amount + totalFee));
        }
      case TransferAsset(recipient, amount) => MoveNonces(bumped, net, txn.sender, recipient, amount);
      case RegisterName(_, _, fee) => MoveNonces(bumped, net, txn.sender, net.donationAddress, fee);
      case GenerateID(_, fee) => MoveNonces(bumped, net, txn.sender, net.donationAddress, fee);
      case NanoPay(recipient, _, amount, _, _) =>
        MoveNonces(bumped, net, txn.sender, recipient, amount - ET.Peek(st.nanoPay, Channel(txn)).data);
      case IssueAsset(totalSupply) => CreditNonces(bumped, txn.sender, txn.hash, totalSupply);
      case _ =>
    }
  }

  lemma ChargeNonces(accounts: AccountMap, net: Network, txn: Txn, height: nat)
    requires ChargeFee(accounts, net, txn, height).Ok?
    ensures forall s :: NonceOf(ChargeFee(accounts, net, txn, height).value, s) == NonceOf(accounts, s)
  {
  }

  lemma BumpNonces(accounts: AccountMap, txn: Txn)
    ensures var after := BumpNonce(accounts, txn);
      forall s :: NonceOf(after, s) ==
        if s == txn.sender && !txn.payload.NanoPay? && !txn.payload.SigChainTxn?
        then (NonceOf(accounts, s) + 1) % TWO_64 else NonceOf(accounts, s)
  {
  }

  lemma CreditNonces(accounts: AccountMap, a: Uint160, asset: Uint256, v: int)
    ensures forall s :: NonceOf(Credit(accounts, a, asset, v), s) == NonceOf(accounts, s)
  {
  }

  lemma DebitNonces(accounts: AccountMap, a: Uint160, asset: Uint256, v: int)
    requires Debit(accounts, a, asset, v).Ok?
    ensures forall s :: NonceOf(Debit(accounts, a, asset, v).value, s) == NonceOf(accounts, s)
  {
  }

  lemma MoveNonces(accounts: AccountMap, net: Network, from: Uint160, to: Uint160, v: int)
    requires Move(accounts, net, from, to, v).Ok?
    ensures forall s :: NonceOf(Move(accounts, net, from, to, v).value, s) == NonceOf(accounts, s)
  {
    hide SetBalance, NonceOf, BalanceOf;
    var debited := Debit(accounts, from, net.nknAsset, v).value;
    DebitNonces(accounts, from, net.nknAsset, v);
    CreditNonces(debited, to, net.nknAsset, v);
  }

  // ----- One block -----

  /** The stored nonces and the nonces the checks expect next agree, the donation account aside. */
  ghost predicate NoncesFollow(store: Store, nonces: map<Uint160, nat>, st: State) {
    forall a :: a != store.net.donationAddress ==> NonceOf(st.accounts, a) == ExpectedNonce(store, nonces, a)
  }

  lemma CheckedNonce(rules: Rules, store: Store, c: CheckState, i: nat, txn: Txn, height: nat)
    requires height > 0 && CheckTxn(rules, store, c, i, txn, height).Ok?
    ensures var c' := CheckTxn(rules, store, c, i, txn, height).value;
      && (Ordinary(txn) ==> txn.sender != store.net.donationAddress && txn.nonce == ExpectedNonce(store, c.nonces, txn.sender))
      && (Ordinary(txn) ==> c'.nonces == c.nonces[txn.sender := (txn.nonce + 1) % TWO_64])
      && (!Ordinary(txn) ==> c'.nonces == c.nonces)
      && (txn.payload.Coinbase? ==> i == 0 && txn.sender == store.net.donationAddress)
  {
    hide VerifyError, VerifyWithLedger, Admit, ExpectedNonce;
  }

  lemma {:induction false} NoncePrefix(rules: Rules, store: Store, b: Block, n: nat)
    requires b.height > 0 && n <= |b.txns|
    requires CheckPrefix(rules, store, b.txns, n, b.height).Ok?
    requires SpendPrefix(store.state, store.net, b.txns, n, TotalFee(b.txns), b.height, GetDonation(store)).Ok?
    ensures NoncesFollow(store, CheckPrefix(rules, store, b.txns, n, b.height).value.nonces,
                         SpendPrefix(store.state, store.net, b.txns, n, TotalFee(b.txns), b.height, GetDonation(store)).value)
  {
    hide Spend, CheckTxn, TotalFee, GetDonation, NonceOf;
    if n == 0 {
    } else {
      NoncePrefix(rules, store, b, n - 1);
      var st := SpendPrefix(store.state, store.net, b.txns, n - 1, TotalFee(b.txns), b.height, GetDonation(store)).value;
      var c := CheckPrefix(rules, store, b.txns, n - 1, b.height).value;
      CheckedNonce(rules, store, c, n - 1, b.txns[n - 1], b.height);
      SpendNonces(st, store.net, b.txns[n - 1], TotalFee(b.txns), false, b.height, GetDonation(store));
    }
  }

  lemma {:induction false} PrefixesOk(rules: Rules, store: Store, b: Block, i: nat, n: nat)
    requires b.height > 0 && i <= n <= |b.txns|
    requires CheckPrefix(rules, store, b.txns, n, b.height).Ok?
    requires SpendPrefix(store.state, store.net, b.txns, n, TotalFee(b.txns), b.height, GetDonation(store)).Ok?
    ensures CheckPrefix(rules, store, b.txns, i, b.height).Ok?
    ensures SpendPrefix(store.state, store.net, b.txns, i, TotalFee(b.txns), b.height, GetDonation(store)).Ok?
    decreases n
  {
    hide Spend, CheckTxn, TotalFee, GetDonation;
    if i == n {
    } else {
      PrefixesOk(rules, store, b, i, n - 1);
    }
  }

  /** Every ordinary transaction of an accepted block executes when the stored nonce is its own. */
  lemma ExecutesAtItsNonce(rules: Rules, store: Store, b: Block, i: nat)
    requires b.height > 0 && TransactionCheck(rules, store, b).None? && i < |b.txns| && Ordinary(b.txns[i])
    ensures var before := SpendPrefix(store.state, store.net, b.txns, i, TotalFee(b.txns), b.height, GetDonation(store));
      before.Ok? && NonceOf(before.value.accounts, b.txns[i].sender) == b.txns[i].nonce
  {
    hide Spend, CheckTxn, TotalFee, GetDonation, Validated, NonceOf, ExpectedNonce, FinalizeState, CleanupState,
      Ordinary;
    AcceptedIsValidated(rules, store, b);
    ValidatedLoop(rules, store, b);
    PrefixesOk(rules, store, b, i, |b.txns|);
    PrefixesOk(rules, store, b, i + 1, |b.txns|);
    NoncePrefix(rules, store, b, i);
    CheckedNonce(rules, store, CheckPrefix(rules, store, b.txns, i, b.height).value, i, b.txns[i], b.height);
  }

  // ----- Whole chains -----

  /** The nonces of a's ordinary transactions among the first n, in order. */
  function NoncesIn(txns: seq<Txn>, n: nat, a: Uint160): seq<nat>
    requires n <= |txns|
  {
    if n == 0 then []
    else NoncesIn(txns, n - 1, a) + if Ordinary(txns[n - 1]) && txns[n - 1].sender == a then [txns[n - 1].nonce] else []
  }

  /** The nonces a's ordinary transactions executed with, over a chain. */
  function History(blocks: seq<Block>, a: Uint160): seq<nat> {
    if blocks == [] then []
    else
      var b := blocks[|blocks| - 1];
      History(blocks[..|blocks| - 1], a) + NoncesIn(b.txns, |b.txns|, a)
  }

  /** Consecutive nonces from m on, as uint64. */
  predicate Continues(ns: seq<nat>, m: nat) {
    forall k :: 0 <= k < |ns| ==> ns[k] == (m + k) % TWO_64
  }

  lemma ContinuesWith(ns: seq<nat>, m: nat, nonce: nat)
    requires Continues(ns, m) && nonce == (m + |ns|) % TWO_64
    ensures Continues(ns + [nonce], m) && (nonce + 1) % TWO_64 == (m + |ns + [nonce]|) % TWO_64
  {
    ModSucc(m + |ns|, TWO_64);
  }

  /** Inside a block the nonces continue where the chain stopped. */
  lemma {:induction false} BlockContinues(rules: Rules, store: Store, txns: seq<Txn>, n: nat, height: nat,
          a: Uint160, m: nat)
    requires height > 0 && n <= |txns| && a != store.net.donationAddress
    requires CheckPrefix(rules, store, txns, n, height).Ok? && GetNonce(store, a) == m % TWO_64
    ensures Continues(NoncesIn(txns, n, a), m)
    ensures ExpectedNonce(store, CheckPrefix(rules, store, txns, n, height).value.nonces, a) == (m + |NoncesIn(txns, n, a)|) % TWO_64
  {
    hide CheckTxn, Continues, Ordinary, GetNonce;
    if n == 0 {
      assert Continues([], m) by { NothingContinues(m); }
    } else {
      BlockContinues(rules, store, txns, n - 1, height, a, m);
      var c, before := CheckPrefix(rules, store, txns, n - 1, height).value, NoncesIn(txns, n - 1, a);
      CheckedNonce(rules, store, c, n - 1, txns[n - 1], height);
      if Ordinary(txns[n - 1]) && txns[n - 1].sender == a {
        ContinuesWith(before, m, txns[n - 1].nonce);
      } else {
        assert NoncesIn(txns, n, a) == before;
      }
    }
  }

  lemma NothingContinues(m: nat)
    ensures Continues([], m)
  {
  }

  lemma FinalNonces(rules: Rules, store: Store, b: Block, a: Uint160)
    requires b.height > 0 && TransactionCheck(rules, store, b).None? && a != store.net.donationAddress
    ensures CheckPrefix(rules, store, b.txns, |b.txns|, b.height).Ok?
    ensures ExecuteBlock(store.state, store.net, b, GetDonation(store)).Ok?
    ensures NonceOf(ExecuteBlock(store.state, store.net, b, GetDonation(store)).value.accounts, a)
         == ExpectedNonce(store, CheckPrefix(rules, store, b.txns, |b.txns|, b.height).value.nonces, a)
  {
    hide CheckPrefix, TotalFee, GetDonation, Validated, NonceOf, ExpectedNonce, TransactionCheck;
    AcceptedIsValidated(rules, store, b);
    ValidatedLoop(rules, store, b);
    NoncePrefix(rules, store, b, |b.txns|);
  }

  /** Over every accepted chain, the k-th ordinary transaction of an account carries nonce k (as a
      uint64), and the stored nonce counts them. */
  lemma {:induction false} NonceDiscipline(rules: Rules, net: Network, genesis: Txn, blocks: seq<Block>, a: Uint160)
    requires AcceptedChain(rules, net, genesis, blocks) && a != net.donationAddress
    ensures StoreAfter(net, genesis, blocks).value.net == net
    ensures GetNonce(StoreAfter(net, genesis, blocks).value, a) == |History(blocks, a)| % TWO_64
    ensures forall k :: 0 <= k < |History(blocks, a)| ==> History(blocks, a)[k] == k % TWO_64
  {
    hide TransactionCheck, SaveBlock, SaveGenesis, ExecuteBlock, CheckPrefix, NoncesIn, NonceOf, ExpectedNonce;
    if blocks == [] {
      GenesisNonces(net, genesis, a);
    } else {
      var prev, b := blocks[..|blocks| - 1], blocks[|blocks| - 1];
      NonceDiscipline(rules, net, genesis, prev, a);
      var store := StoreAfter(net, genesis, prev).value;
      SavedStore(store, b);
      FinalNonces(rules, store, b, a);
      BlockContinues(rules, store, b.txns, |b.txns|, b.height, a, |History(prev, a)|);
    }
  }

  // ----- The donation account -----

  /** In a block, only the coinbase advances the nonce of the donation account. */
  lemma {:induction false} DonationPrefix(rules: Rules, store: Store, b: Block, n: nat)
    requires b.height > 0 && 0 < n <= |b.txns| && b.txns[0].payload.Coinbase?
    requires CheckPrefix(rules, store, b.txns, n, b.height).Ok?
    requires SpendPrefix(store.state, store.net, b.txns, n, TotalFee(b.txns), b.height, GetDonation(store)).Ok?
    ensures NonceOf(SpendPrefix(store.state, store.net, b.txns, n, TotalFee(b.txns), b.height, GetDonation(store)).value.accounts,
                    store.net.donationAddress) == (GetNonce(store, store.net.donationAddress) + 1) % TWO_64
  {
    hide Spend, CheckTxn, TotalFee, GetDonation, NonceOf;
    var st := SpendPrefix(store.state, store.net, b.txns, n - 1, TotalFee(b.txns), b.height, GetDonation(store)).value;
    var c := CheckPrefix(rules, store, b.txns, n - 1, b.height).value;
    CheckedNonce(rules, store, c, n - 1, b.txns[n - 1], b.height);
    SpendNonces(st, store.net, b.txns[n - 1], TotalFee(b.txns), false, b.height, GetDonation(store));
    if n == 1 {
      assert st == store.state;
    } else {
      DonationPrefix(rules, store, b, n - 1);
    }
  }

  lemma DonationBlock(rules: Rules, store: Store, b: Block)
    requires b.height > 0 && TransactionCheck(rules, store, b).None?
    ensures ExecuteBlock(store.state, store.net, b, GetDonation(store)).Ok?
    ensures NonceOf(ExecuteBlock(store.state, store.net, b, GetDonation(store)).value.accounts, store.net.donationAddress)
         == (GetNonce(store, store.net.donationAddress) + 1) % TWO_64
  {
    hide CheckPrefix, TotalFee, GetDonation, Validated, NonceOf, TransactionCheck;
    AcceptedIsValidated(rules, store, b);
    ValidatedLoop(rules, store, b);
    ValidatedCoinbase(rules, store, b);
    DonationPrefix(rules, store, b, |b.txns|);
  }

  /** The nonce of the donation account counts the coinbases, that of genesis included. */
  lemma {:induction false} DonationNonce(rules: Rules, net: Network, genesis: Txn, blocks: seq<Block>)
    requires AcceptedChain(rules, net, genesis, blocks)
    ensures StoreAfter(net, genesis, blocks).value.net == net
    ensures GetNonce(StoreAfter(net, genesis, blocks).value, net.donationAddress) == (|blocks| + 1) % TWO_64
  {
    hide TransactionCheck, SaveBlock, SaveGenesis, ExecuteBlock, NonceOf;
    if blocks == [] {
      GenesisNonces(net, genesis, net.donationAddress);
    } else {
      var prev, b := blocks[..|blocks| - 1], blocks[|blocks| - 1];
      DonationNonce(rules, net, genesis, prev);
      var store := StoreAfter(net, genesis, prev).value;
      SavedStore(store, b);
      DonationBlock(rules, store, b);
      ModSucc(|blocks|, TWO_64);
    }
  }

  lemma GenesisNonces(net: Network, coinbase: Txn, a: Uint160)
    requires GenesisOk(net, coinbase) && SaveGenesis(net, coinbase).Ok?
    ensures SaveGenesis(net, coinbase).value.net == net
    ensures GetNonce(SaveGenesis(net, coinbase).value, a) == (if a == net.donationAddress then 1 else 0) % TWO_64
  {
    hide Credit, Spend, TotalFee;
    var issued := EmptyState().(
      assets := map[net.nknAsset := INITIAL_ISSUE_AMOUNT][net.gasAsset := 0],
      accounts := Credit(map[], net.issueAddress, net.nknAsset, INITIAL_ISSUE_AMOUNT));
    CreditNonces(map[], net.issueAddress, net.nknAsset, INITIAL_ISSUE_AMOUNT);
    assert NonceOf(issued.accounts, a) == 0;
    SpendNonces(issued, net, coinbase, TotalFee([coinbase]), true, 0, Ok(0));
    FinalizeKeepsMoney(Spend(issued, net, coinbase, TotalFee([coinbase]), true, 0, Ok(0)).value);
  }

  /** No (account, nonce) pair executes twice: two executions of one account with the same nonce are
      at least 2^64 transactions apart. */
  lemma NoReplay(rules: Rules, net: Network, genesis: Txn, blocks: seq<Block>, a: Uint160, j: nat, k: nat)
    requires AcceptedChain(rules, net, genesis, blocks) && a != net.donationAddress
    requires j < k < |History(blocks, a)| && History(blocks, a)[j] == History(blocks, a)[k]
    ensures k - j >= TWO_64
  {
    hide AcceptedChain, History;
    NonceDiscipline(rules, net, genesis, blocks, a);
    SameRemainder(j, k, TWO_64);
  }
}
