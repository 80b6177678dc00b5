/** Balances against the chain that made them: after every accepted chain each account holds exactly what a
    plain reading of the blocks gives it. */
module LedgerHistory {
  import opened Common
  import opened Transactions
  import opened Accounts
  import opened Rewards
  import opened Execution
  import opened Ledger
  import opened BlockValidation
  import opened BlockCheck
  import opened BlockFacts
  import opened SpendFacts
  import opened BlockExecution
  import opened ChainRuns
  import opened ExpiryRuns
  import opened ExpiryHistory
  import ET = ExpiryTables

  // ----- A plain reading of the blocks -----

  /** Nano-pay fees are only taken from height 1072500 on. */
  function FeeTaken(t: Txn, height: nat): int {
    if t.payload.NanoPay? && height < 1072500 then 0 else t.fee
  }

  /** What a nano-pay's channel had paid out before the block. */
  function PaidBefore(m: Channels, t: Txn): int
    requires t.payload.NanoPay?
  {
    var ch := ChannelId(t.sender, t.payload.recipient, t.payload.id);
    if ch in m then m[ch].amount else 0
  }

  /** What a transaction other than a coinbase hands over. */
  function Handed(t: Txn, m: Channels): int {
    match t.payload
    case TransferAsset(_, amount) => amount
    case RegisterName(_, _, fee) => fee
    case GenerateID(_, fee) => fee
    case NanoPay(_, _, amount, _, _) => amount - PaidBefore(m, t)
    case _ => 0
  }

  /** How a transaction changes the balance of a: a coinbase pays out the reward, the donation it takes from
      its sender, and the fees of the whole block. */
  function Flow(net: Network, t: Txn, m: Channels, height: nat, fees: int, a: Uint160): int
    requires height > 0
  {
    if t.payload.Coinbase? then
      (if a == t.payload.recipient then t.payload.amount + fees else 0)
      - (if a == t.sender then t.fee + t.payload.amount - RewardAt(height) else 0)
    else
      (if Payee(net, t) == Some(a) then Handed(t, m) else 0) - (if a == t.sender then FeeTaken(t, height) + Handed(t, m) else 0)
  }

  function Flows(net: Network, txns: seq<Txn>, n: nat, m: Channels, height: nat, fees: int, a: Uint160): int
    requires n <= |txns| && height > 0
  {
    if n == 0 then 0
    else Flows(net, txns, n - 1, m, height, fees, a) + Flow(net, txns[n - 1], m, height, fees, a)
  }

  /** The initial issue of 700 million, and everything the blocks moved. */
  function BalanceAfter(net: Network, blocks: seq<Block>, a: Uint160): int
    requires forall i :: 0 <= i < |blocks| ==> blocks[i].height > 0
  {
    if blocks == [] then if a == net.issueAddress then 700000000 * 100000000 else 0
    else
      var prev, b := blocks[..|blocks| - 1], blocks[|blocks| - 1];
      BalanceAfter(net, prev, a) + Flows(net, b.txns, |b.txns|, ChannelsAfter(prev), b.height, FeeSum(b.txns, |b.txns|), a)
  }

  // ----- Blocks follow it -----

  lemma PaidIsPeeked(store: Store, m: Channels, t: Txn)
    requires ShowsChannels(store.state.nanoPay, m) && store.state.nanoPay.overlay == map[] && store.state.nanoPay.zero == 0
    ensures Amount(t) + ClaimOf(store, t) == Handed(t, m)
  {
    if t.payload.NanoPay? {
      assert ET.Live(store.state.nanoPay, Channel(t)) == ClaimEntry(m, Channel(t));
    }
  }

  lemma FeeTakenIsCharged(t: Txn, height: nat)
    ensures FeeTaken(t, height) == Charged(t, height)
  {
  }

  lemma FirstFlow(rules: Rules, store: Store, b: Block, m: Channels, a: Uint160)
    requires b.height > 0 && StoreOk(store) && Validated(rules, store, b) && OrderlyBlock(b) && b.txns != []
    requires SpendPrefix(store.state, store.net, b.txns, 1, TotalFee(b.txns), b.height, GetDonation(store)).Ok?
    ensures Bal(store.net, SpendPrefix(store.state, store.net, b.txns, 1, TotalFee(b.txns), b.height, GetDonation(store)).value.accounts, a)
         == GetBalance(store, a) + Flows(store.net, b.txns, 1, m, b.height, FeeSum(b.txns, |b.txns|), a)
  {
    hide Spend, Held, RewardAt, Bal, Validated, TotalFee, GetDonation, VerifyWithLedger, StoreOk, OrderlyBlock, FeeSum;
    ValidatedFees(rules, store, b);
    ValidatedCoinbase(rules, store, b);
    DonationFacts(store);
    SoundStore(store);
    assert SpendPrefix(store.state, store.net, b.txns, 0, TotalFee(b.txns), b.height, GetDonation(store)) == Ok(store.state);
    CoinbaseEffect(store.state, store.net, b.txns[0], TotalFee(b.txns), b.height, GetDonation(store).value, a);
    BalIsBalance(store);
    var t := b.txns[0];
    assert Flows(store.net, b.txns, 1, m, b.height, FeeSum(b.txns, |b.txns|), a)
        == Flow(store.net, t, m, b.height, FeeSum(b.txns, |b.txns|), a);
  }

  lemma SoundStore(store: Store)
    requires StoreOk(store)
    ensures Sound(store.net, store.state.accounts) && Held(store.net, store.state.accounts) <= LEDGER_LIMIT
  {
  }

  lemma LaterFlow(rules: Rules, store: Store, b: Block, n: nat, m: Channels, st: State, a: Uint160)
    requires 0 < n < |b.txns| && b.height > 0 && StoreOk(store) && Validated(rules, store, b) && OrderlyBlock(b)
    requires GetDonation(store).Ok? && Follows(store, b.txns, n, b.height, TotalFee(b.txns), GetDonation(store).value, st)
    requires ShowsChannels(store.state.nanoPay, m) && store.state.nanoPay.overlay == map[] && store.state.nanoPay.zero == 0
    ensures Spend(st, store.net, b.txns[n], TotalFee(b.txns), false, b.height, GetDonation(store)).Ok?
    ensures Bal(store.net, Spend(st, store.net, b.txns[n], TotalFee(b.txns), false, b.height, GetDonation(store)).value.accounts, a)
         == Bal(store.net, st.accounts, a) + Flow(store.net, b.txns[n], m, b.height, FeeSum(b.txns, |b.txns|), a)
  {
    hide Spend, Follows, AllTxnsOk, Distinct, Funded, TxnOk, StoreOk, TotalFee, GetDonation, Validated, CheckPrefix,
      BalancesInRange, RegistrationInRange, Bal, Held, Sound, Due, Amount, ClaimOf, Handed, FeeTaken, FeeSum, Payee,
      ShowsChannels;
    ValidatedLoop(rules, store, b);
    StoreInRange(store);
    ValidatedPrefixes(rules, store, b.txns, |b.txns|, b.height);
    OneTxnOk(rules, store, b.txns, n + 1, n, b.height);
    TxnExecutes(rules, store, b.txns, n, b.height, TotalFee(b.txns), GetDonation(store).value, st);
    NotCoinbase(rules, store, n, b.txns[n], b.height);
    PaidIsPeeked(store, m, b.txns[n]);
    FeeTakenIsCharged(b.txns[n], b.height);
  }

  lemma {:induction false} PrefixFlows(rules: Rules, store: Store, b: Block, n: nat, m: Channels, a: Uint160)
    requires b.height > 0 && StoreOk(store) && Validated(rules, store, b) && OrderlyBlock(b) && 0 < n <= |b.txns|
    requires GetDonation(store).Ok? && b.txns[0].fee + GetDonation(store).value <= GetBalance(store, store.net.donationAddress)
    requires ShowsChannels(store.state.nanoPay, m) && store.state.nanoPay.overlay == map[] && store.state.nanoPay.zero == 0
    ensures SpendPrefix(store.state, store.net, b.txns, n, TotalFee(b.txns), b.height, GetDonation(store)).Ok?
    ensures Bal(store.net, SpendPrefix(store.state, store.net, b.txns, n, TotalFee(b.txns), b.height, GetDonation(store)).value.accounts, a)
         == GetBalance(store, a) + Flows(store.net, b.txns, n, m, b.height, FeeSum(b.txns, |b.txns|), a)
    decreases n
  {
    hide Spend, Follows, StoreOk, TotalFee, GetDonation, Validated, Bal, Flow, FeeSum, OrderlyBlock, ShowsChannels;
    ExecutesPrefix(rules, store, b, n);
    if n == 1 {
      FirstFlow(rules, store, b, m, a);
    } else {
      PrefixFlows(rules, store, b, n - 1, m, a);
      ExecutesPrefix(rules, store, b, n - 1);
      var st := SpendPrefix(store.state, store.net, b.txns, n - 1, TotalFee(b.txns), b.height, GetDonation(store)).value;
      LaterFlow(rules, store, b, n - 1, m, st, a);
    }
  }

  lemma BlockFlows(rules: Rules, store: Store, b: Block, m: Channels, a: Uint160)
    requires b.height > 0 && StoreOk(store) && TransactionCheck(rules, store, b).None? && OrderlyBlock(b)
    requires ShowsChannels(store.state.nanoPay, m) && store.state.nanoPay.overlay == map[] && store.state.nanoPay.zero == 0
    requires SaveBlock(store, b).Ok?
    ensures GetBalance(SaveBlock(store, b).value, a)
         == GetBalance(store, a) + Flows(store.net, b.txns, |b.txns|, m, b.height, FeeSum(b.txns, |b.txns|), a)
  {
    hide StoreOk, TotalFee, GetDonation, Validated, Flows, FeeSum, OrderlyBlock, ShowsChannels, TransactionCheck,
      SpendPrefix, TxnOk, CalcNextDonation;
    AcceptedIsValidated(rules, store, b);
    ValidatedCoinbase(rules, store, b);
    ValidatedExecutes(rules, store, b);
    PrefixFlows(rules, store, b, |b.txns|, m, a);
  }

  // ----- Whole chains -----

  lemma GenesisAccounts(net: Network, coinbase: Txn)
    requires GenesisOk(net, coinbase) && SaveGenesis(net, coinbase).Ok?
    ensures TotalFee([coinbase]) == 0
    ensures var issued := Credit(map[], net.issueAddress, net.nknAsset, INITIAL_ISSUE_AMOUNT);
      SaveGenesis(net, coinbase).value.state.accounts
      == Credit(BumpNonce(issued, coinbase), coinbase.payload.recipient, net.nknAsset, 0)
  {
    hide Credit, Debit, BumpNonce;
    assert [coinbase][..0] == [];
  }

  lemma GenesisBalance(net: Network, coinbase: Txn, a: Uint160)
    requires GenesisOk(net, coinbase) && SaveGenesis(net, coinbase).Ok?
    ensures GetBalance(SaveGenesis(net, coinbase).value, a) == BalanceAfter(net, [], a)
  {
    hide BalanceOf, SetBalance, SaveGenesis, BumpNonce, Held, Sound;
    GenesisAccounts(net, coinbase);
    GenesisHeight(net, coinbase);
    var issued := Credit(map[], net.issueAddress, net.nknAsset, INITIAL_ISSUE_AMOUNT);
    NothingYet(net);
    SetBalanceFrame(map[], net.issueAddress, net.nknAsset, INITIAL_ISSUE_AMOUNT);
    BumpFacts(net, issued, coinbase);
    var charged, to := BumpNonce(issued, coinbase), coinbase.payload.recipient;
    assert Bal(net, charged, to) == Bal(net, issued, to);
    assert 0 <= BalanceOf(charged, to, net.nknAsset) <= INITIAL_ISSUE_AMOUNT;
    assert Credit(charged, to, net.nknAsset, 0) == SetBalance(charged, to, net.nknAsset, BalanceOf(charged, to, net.nknAsset));
    assert Bal(net, charged, a) == Bal(net, issued, a) == BalanceAfter(net, [], a);
    SetBalanceFrame(charged, to, net.nknAsset, BalanceOf(charged, to, net.nknAsset));
  }

  lemma NothingYet(net: Network)
    ensures forall a :: BalanceOf(map[], a, net.nknAsset) == 0
  {
  }

  /** Every balance of an accepted chain with registration fees in range and fees within bounds is what the
      blocks add up to. */
  lemma {:induction false} BalancesAddUp(rules: Rules, net: Network, genesis: Txn, blocks: seq<Block>, a: Uint160)
    requires AcceptedChain(rules, net, genesis, blocks) && OrderlyChain(blocks)
    requires INITIAL_ISSUE_AMOUNT + Mined(|blocks|) + UnchargedTotal(blocks) <= LEDGER_LIMIT
    requires forall i :: 0 <= i < |blocks| ==> ExpiriesFit(blocks[i])
    ensures StoreAfter(net, genesis, blocks).Ok? && forall i :: 0 <= i < |blocks| ==> blocks[i].height > 0
    ensures GetBalance(StoreAfter(net, genesis, blocks).value, a) == BalanceAfter(net, blocks, a)
    decreases |blocks|
  {
    hide TransactionCheck, SaveBlock, SaveGenesis, GetBalance, OrderlyBlock, ExpiriesFit, Flows, FeeSum, Mined,
      UnchargedTotal, Shows, TablesOk;
    HeightsCount(rules, net, genesis, blocks);
    if blocks == [] {
      GenesisBalance(net, genesis, a);
    } else {
      var prev, b := blocks[..|blocks| - 1], blocks[|blocks| - 1];
      LastAccepted(rules, net, genesis, blocks);
      BoundShrinks(rules, net, genesis, blocks);
      BalancesAddUp(rules, net, genesis, prev, a);
      HeightsCount(rules, net, genesis, prev);
      TablesShowHistory(rules, net, genesis, prev);
      ExpiryIndexAgrees(rules, net, genesis, prev);
      SupplyConserved(rules, net, genesis, prev);
      var store := StoreAfter(net, genesis, prev).value;
      ChannelTable(store.state, |prev|, SubsAfter(prev), ChannelsAfter(prev));
      BlockFlows(rules, store, b, ChannelsAfter(prev), a);
    }
  }

  lemma ChannelTable(st: State, height: nat, subs: Subs, channels: Channels)
    requires TablesOk(st, height) && Shows(st, subs, channels)
    ensures st.nanoPay.zero == 0 && ShowsChannels(st.nanoPay, channels)
  {
    hide IndexesExact;
  }

  lemma BoundShrinks(rules: Rules, net: Network, genesis: Txn, blocks: seq<Block>)
    requires blocks != [] && AcceptedChain(rules, net, genesis, blocks)
    requires INITIAL_ISSUE_AMOUNT + Mined(|blocks|) + UnchargedTotal(blocks) <= LEDGER_LIMIT
    ensures INITIAL_ISSUE_AMOUNT + Mined(|blocks| - 1) + UnchargedTotal(blocks[..|blocks| - 1]) <= LEDGER_LIMIT
  {
    hide RewardAt, TransactionCheck, Uncharged, SaveBlock, SaveGenesis;
    LastAccepted(rules, net, genesis, blocks);
    var b := blocks[|blocks| - 1];
    NoFeeLostAccepted(rules, StoreAfter(net, genesis, blocks[..|blocks| - 1]).value, b);
  }
}
