/** Issued assets: over every accepted chain, each asset but the chain's own coin is recorded and held
    exactly as the transaction that issued it says. */
module AssetHistory {
  import opened Common
  import opened Transactions
  import opened Accounts
  import opened Execution
  import opened Ledger
  import opened BlockCheck
  import opened Acceptance
  import opened ChainRuns
  import Merkle
  import ET = ExpiryTables

  datatype Issue = Issue(holder: Uint160, supply: int)

  type Issues = map<Uint256, Issue>

  /** What the blocks have issued, read off their transactions. */
  function IssuedWith(m: Issues, t: Txn): Issues {
    if t.payload.IssueAsset? then m[t.hash := Issue(t.sender, t.payload.totalSupply)] else m
  }

  function IssuedPrefix(m: Issues, txns: seq<Txn>, n: nat): Issues
    requires n <= |txns|
  {
    if n == 0 then m else IssuedWith(IssuedPrefix(m, txns, n - 1), txns[n - 1])
  }

  function IssuedAfter(blocks: seq<Block>): Issues {
    if blocks == [] then map[]
    else
      var b := blocks[|blocks| - 1];
      IssuedPrefix(IssuedAfter(blocks[..|blocks| - 1]), b.txns, |b.txns|)
  }

  /** The whole supply of an asset is its issuer's; balances are int64. */
  function HeldOf(m: Issues, a: Uint160, x: Uint256): int {
    if x in m && m[x].holder == a then Wrap64(m[x].supply) else 0
  }

  ghost predicate Recorded(net: Network, st: State, m: Issues) {
    && net.nknAsset in st.assets && net.gasAsset in st.assets && net.gasAsset !in m && net.nknAsset !in m
    && (forall x :: x != net.nknAsset && x != net.gasAsset ==>
          (x in st.assets <==> x in m) && (x in m ==> st.assets[x] == m[x].supply))
    && (forall a, x :: x != net.nknAsset ==> BalanceOf(st.accounts, a, x) == HeldOf(m, a, x))
  }

  // ----- One transaction -----

  /** Accounts that differ in the chain's own coin and nonces at most. */
  ghost predicate SameForeign(net: Network, before: AccountMap, after: AccountMap) {
    forall a, x :: x != net.nknAsset ==> BalanceOf(after, a, x) == BalanceOf(before, a, x)
  }

  lemma DebitForeign(net: Network, accounts: AccountMap, a: Uint160, value: int)
    requires Debit(accounts, a, net.nknAsset, value).Ok?
    ensures SameForeign(net, accounts, Debit(accounts, a, net.nknAsset, value).value)
  {
    hide BalanceOf, SetBalance;
    SetBalanceFrame(accounts, a, net.nknAsset, Wrap64(BalanceOf(accounts, a, net.nknAsset) - value));
  }

  lemma CreditForeign(net: Network, accounts: AccountMap, a: Uint160, value: int)
    ensures SameForeign(net, accounts, Credit(accounts, a, net.nknAsset, value))
  {
    hide BalanceOf, SetBalance;
    SetBalanceFrame(accounts, a, net.nknAsset, Wrap64(BalanceOf(accounts, a, net.nknAsset) + value));
  }

  lemma MoveForeign(net: Network, accounts: AccountMap, from: Uint160, to: Uint160, value: int)
    requires Move(accounts, net, from, to, value).Ok?
    ensures SameForeign(net, accounts, Move(accounts, net, from, to, value).value)
  {
    hide BalanceOf, Credit, Debit;
    DebitForeign(net, accounts, from, value);
    CreditForeign(net, Debit(accounts, from, net.nknAsset, value).value, to, value);
  }

  lemma ChargeForeign(net: Network, accounts: AccountMap, txn: Txn, height: nat)
    requires ChargeFee(accounts, net, txn, height).Ok?
    ensures SameForeign(net, accounts, BumpNonce(ChargeFee(accounts, net, txn, height).value, txn))
  {
    hide Debit;
    if FeeCharged(txn, height) {
      DebitForeign(net, accounts, txn.sender, txn.fee);
    }
  }

  /** Assets other than the chain's own coin. */
  ghost predicate SameAssets(net: Network, before: map<Uint256, int>, after: map<Uint256, int>) {
    after.Keys == before.Keys && forall x :: x in before && x != net.nknAsset ==> after[x] == before[x]
  }

  lemma PayloadForeign(st: State, net: Network, txn: Txn, totalFee: int, height: nat,
          donation: Result<int, LedgerError>)
    requires SpendPayload(st, net, txn, totalFee, false, height, donation).Ok? && !txn.payload.IssueAsset?
    ensures var st' := SpendPayload(st, net, txn, totalFee, false, height, donation).value;
      SameForeign(net, st.accounts, st'.accounts) && SameAssets(net, st.assets, st'.assets)
  {
    hide Move, Debit, Credit, BalanceOf, SubId, ExpiryOf;
    var p := txn.payload;
    if p.Coinbase? {
      DebitForeign(net, st.accounts, txn.sender, donation.value);
      CreditForeign(net, Debit(st.accounts, txn.sender, net.nknAsset, donation.value).value, p.recipient,
        Wrap64(p.amount + totalFee));
    } else if p.TransferAsset? {
      MoveForeign(net, st.accounts, txn.sender, p.recipient, p.amount);
    } else if p.RegisterName? || p.GenerateID? {
      MoveForeign(net, st.accounts, txn.sender, net.donationAddress, p.registrationFee);
    } else if p.NanoPay? {
      MoveForeign(net, st.accounts, txn.sender, p.recipient, p.amount - ClaimedSoFar(st, txn));
    }
  }

  function ClaimedSoFar(st: State, txn: Txn): int
    requires txn.payload.NanoPay?
  {
    ET.Peek(st.nanoPay, Channel(txn)).data
  }

  lemma IssueForeign(st: State, net: Network, txn: Txn, totalFee: int, height: nat, donation: Result<int, LedgerError>,
          m: Issues)
    requires SpendPayload(st, net, txn, totalFee, false, height, donation).Ok? && txn.payload.IssueAsset?
    requires Recorded(net, st, m)
    ensures Recorded(net, SpendPayload(st, net, txn, totalFee, false, height, donation).value, IssuedWith(m, txn))
  {
    hide BalanceOf, SetBalance;
    var x, supply := txn.hash, txn.payload.totalSupply;
    assert x !in st.assets;
    assert BalanceOf(st.accounts, txn.sender, x) == 0;
    SetBalanceFrame(st.accounts, txn.sender, x, Wrap64(BalanceOf(st.accounts, txn.sender, x) + supply));
  }

  lemma SpendRecords(st: State, net: Network, txn: Txn, totalFee: int, height: nat, donation: Result<int, LedgerError>,
          m: Issues)
    requires Spend(st, net, txn, totalFee, false, height, donation).Ok? && Recorded(net, st, m)
    ensures Recorded(net, Spend(st, net, txn, totalFee, false, height, donation).value, IssuedWith(m, txn))
  {
    hide SpendPayload, ChargeFee, BumpNonce, BalanceOf, HeldOf;
    ChargeForeign(net, st.accounts, txn, height);
    var charged := st.(accounts := BumpNonce(ChargeFee(st.accounts, net, txn, height).value, txn));
    assert Recorded(net, charged, m);
    if txn.payload.IssueAsset? {
      IssueForeign(charged, net, txn, totalFee, height, donation, m);
    } else {
      PayloadForeign(charged, net, txn, totalFee, height, donation);
    }
  }

  // ----- Blocks and chains -----

  lemma {:induction false} PrefixRecords(st: State, net: Network, txns: seq<Txn>, n: nat, totalFee: int, height: nat,
          donation: Result<int, LedgerError>, m: Issues)
    requires n <= |txns| && SpendPrefix(st, net, txns, n, totalFee, height, donation).Ok? && Recorded(net, st, m)
    ensures Recorded(net, SpendPrefix(st, net, txns, n, totalFee, height, donation).value, IssuedPrefix(m, txns, n))
    decreases n
  {
    hide Spend, Recorded, IssuedWith;
    if n == 0 {
    } else {
      PrefixRecords(st, net, txns, n - 1, totalFee, height, donation, m);
      SpendRecords(SpendPrefix(st, net, txns, n - 1, totalFee, height, donation).value, net, txns[n - 1], totalFee,
        height, donation, IssuedPrefix(m, txns, n - 1));
    }
  }

  lemma BlockRecords(st: State, net: Network, b: Block, donation: Result<int, LedgerError>, m: Issues)
    requires ExecuteBlock(st, net, b, donation).Ok? && Recorded(net, st, m)
    ensures Recorded(net, ExecuteBlock(st, net, b, donation).value, IssuedPrefix(m, b.txns, |b.txns|))
  {
    hide SpendPrefix, TotalFee, BalanceOf, HeldOf, IssuedPrefix;
    PrefixRecords(st, net, b.txns, |b.txns|, TotalFee(b.txns), b.height, donation, m);
  }

  lemma GenesisRecords(net: Network, coinbase: Txn)
    requires GenesisOk(net, coinbase) && SaveGenesis(net, coinbase).Ok?
    ensures Recorded(net, SaveGenesis(net, coinbase).value.state, map[])
  {
    hide BalanceOf, SetBalance, Wrap64;
    var issued := Credit(map[], net.issueAddress, net.nknAsset, INITIAL_ISSUE_AMOUNT);
    NothingForeign(net);
    CreditForeign(net, map[], net.issueAddress, INITIAL_ISSUE_AMOUNT);
    ChargeForeign(net, issued, coinbase, 0);
    var charged := BumpNonce(ChargeFee(issued, net, coinbase, 0).value, coinbase);
    CreditForeign(net, charged, coinbase.payload.recipient, Wrap64(coinbase.payload.amount + TotalFee([coinbase])));
  }

  lemma NothingForeign(net: Network)
    ensures forall a, x :: BalanceOf(map[], a, x) == 0
  {
  }

  /** Every asset issued on an accepted chain is recorded with the supply its transaction names, all of it is
      the issuer's, and nothing else of it is held by anybody. */
  lemma {:induction false} IssuesStand(rules: Rules, net: Network, genesis: Txn, blocks: seq<Block>)
    requires AcceptedChain(rules, net, genesis, blocks)
    ensures StoreAfter(net, genesis, blocks).Ok?
    ensures Recorded(net, StoreAfter(net, genesis, blocks).value.state, IssuedAfter(blocks))
    decreases |blocks|
  {
    hide TransactionCheck, SaveBlock, SaveGenesis, Recorded, ExecuteBlock;
    ChainIsStored(rules, net, genesis, blocks);
    if blocks == [] {
      GenesisRecords(net, genesis);
    } else {
      var prev, b := blocks[..|blocks| - 1], blocks[|blocks| - 1];
      IssuesStand(rules, net, genesis, prev);
      HeightsCount(rules, net, genesis, prev);
      var store := StoreAfter(net, genesis, prev).value;
      SavedStore(store, b);
      BlockRecords(store.state, net, b, GetDonation(store), IssuedAfter(prev));
    }
  }

  lemma {:induction false} PrefixSupplies(rules: Rules, store: Store, b: Block, n: nat, m: Issues)
    requires b.height > 0 && n <= |b.txns| && forall i :: 0 <= i < |b.txns| ==> Admissible(rules, store, b.txns, i, b.height)
    requires forall x :: x in m ==> m[x].supply >= 0
    ensures forall x :: x in IssuedPrefix(m, b.txns, n) ==> IssuedPrefix(m, b.txns, n)[x].supply >= 0
    decreases n
  {
    hide PayloadFits, NonceFits, Wants, Seen;
    if n == 0 {
    } else {
      PrefixSupplies(rules, store, b, n - 1, m);
      assert Admissible(rules, store, b.txns, n - 1, b.height);
    }
  }

  /** And no supply is negative. */
  lemma {:induction false} SuppliesNonNegative(rules: Rules, net: Network, genesis: Txn, blocks: seq<Block>)
    requires AcceptedChain(rules, net, genesis, blocks)
    ensures forall x :: x in IssuedAfter(blocks) ==> IssuedAfter(blocks)[x].supply >= 0
    decreases |blocks|
  {
    hide TransactionCheck, SaveBlock, SaveGenesis, Admissible, IssuedPrefix, WinnerKnown, Executes, TotalSize,
      Merkle.RootMatches;
    if blocks == [] {
    } else {
      var prev, b := blocks[..|blocks| - 1], blocks[|blocks| - 1];
      SuppliesNonNegative(rules, net, genesis, prev);
      AcceptedGuarantees(rules, StoreAfter(net, genesis, prev).value, b);
      PrefixSupplies(rules, StoreAfter(net, genesis, prev).value, b, |b.txns|, IssuedAfter(prev));
    }
  }
}
