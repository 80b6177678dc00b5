/** Whole runs of the chain: what holds after genesis and any number of accepted blocks. */
module ChainRuns {
  import opened Common
  import opened Transactions
  import opened Accounts
  import opened Rewards
  import opened Execution
  import opened Ledger
  import opened BlockCheck
  import opened BlockFacts
  import opened SpendFacts
  import opened Acceptance
  import opened BlockExecution

  /** The genesis coinbase pays nothing and costs nothing. */
  predicate GenesisOk(net: Network, coinbase: Txn) {
    && coinbase.payload.Coinbase? && coinbase.payload.amount == 0 && coinbase.fee == 0
    && coinbase.sender == net.donationAddress && net.gasAsset != net.nknAsset
  }

  /** The store after genesis and the blocks, in order. */
  function StoreAfter(net: Network, genesis: Txn, blocks: seq<Block>): Result<Store, LedgerError> {
    if blocks == [] then SaveGenesis(net, genesis)
    else
      var store :- StoreAfter(net, genesis, blocks[..|blocks| - 1]);
      SaveBlock(store, blocks[|blocks| - 1])
  }

  /** Every block was accepted by TransactionCheck on the store its predecessors left. */
  predicate AcceptedChain(rules: Rules, net: Network, genesis: Txn, blocks: seq<Block>) {
    && GenesisOk(net, genesis)
    && StoreAfter(net, genesis, blocks).Ok?
    && (blocks != [] ==>
        var b, prev := blocks[|blocks| - 1], blocks[..|blocks| - 1];
        && AcceptedChain(rules, net, genesis, prev)
        && b.height == StoreAfter(net, genesis, prev).value.height + 1
        && TransactionCheck(rules, StoreAfter(net, genesis, prev).value, b).None?)
  }

  lemma ChainIsStored(rules: Rules, net: Network, genesis: Txn, blocks: seq<Block>)
    requires AcceptedChain(rules, net, genesis, blocks)
    ensures StoreAfter(net, genesis, blocks).Ok?
  {
    hide StoreAfter, TransactionCheck;
  }

  /** Nano-pay fees are charged, or there are none. */
  predicate ChargesAllFees(b: Block) {
    ChargeNanoPayTxnFee(b.height) || forall i :: 0 <= i < |b.txns| && b.txns[i].payload.NanoPay? ==> b.txns[i].fee == 0
  }

  lemma AcceptedIsValidated(rules: Rules, store: Store, b: Block)
    requires b.height > 0 && TransactionCheck(rules, store, b).None?
    ensures Validated(rules, store, b) && ExecuteBlock(store.state, store.net, b, GetDonation(store)).Ok?
  {
    hide ValidationError, ExecuteBlock;
  }

  lemma SavedStore(store: Store, b: Block)
    requires SaveBlock(store, b).Ok?
    ensures var next := SaveBlock(store, b).value;
      && ExecuteBlock(store.state, store.net, b, GetDonation(store)) == Ok(next.state)
      && next.net == store.net && next.height == b.height
  {
    hide ExecuteBlock, CalcNextDonation;
  }

  // ----- Blocks in their places -----

  /** The last block of an accepted chain, on the store before it. */
  lemma LastAccepted(rules: Rules, net: Network, genesis: Txn, blocks: seq<Block>)
    requires AcceptedChain(rules, net, genesis, blocks) && blocks != []
    ensures var prev, b := blocks[..|blocks| - 1], blocks[|blocks| - 1];
      && AcceptedChain(rules, net, genesis, prev) && StoreAfter(net, genesis, prev).Ok?
      && b.height == StoreAfter(net, genesis, prev).value.height + 1
      && TransactionCheck(rules, StoreAfter(net, genesis, prev).value, b).None?
      && SaveBlock(StoreAfter(net, genesis, prev).value, b) == StoreAfter(net, genesis, blocks)
  {
    hide TransactionCheck, SaveBlock, SaveGenesis;
  }

  /** Block i of an accepted chain has height i + 1. */
  lemma {:induction false} HeightsCount(rules: Rules, net: Network, genesis: Txn, blocks: seq<Block>)
    requires AcceptedChain(rules, net, genesis, blocks)
    ensures StoreAfter(net, genesis, blocks).Ok? && StoreAfter(net, genesis, blocks).value.height == |blocks|
    ensures StoreAfter(net, genesis, blocks).value.net == net
    ensures forall i :: 0 <= i < |blocks| ==> blocks[i].height == i + 1
    decreases |blocks|
  {
    hide TransactionCheck, SaveBlock, SaveGenesis, AcceptedChain, ExecuteBlock;
    ChainIsStored(rules, net, genesis, blocks);
    if blocks == [] {
      GenesisHeight(net, genesis);
    } else {
      var prev, b := blocks[..|blocks| - 1], blocks[|blocks| - 1];
      LastAccepted(rules, net, genesis, blocks);
      HeightsCount(rules, net, genesis, prev);
      SavedStore(StoreAfter(net, genesis, prev).value, b);
      forall i | 0 <= i < |blocks| ensures blocks[i].height == i + 1 {
        assert i < |prev| ==> prev[i] == blocks[i];
      }
    }
  }

  lemma GenesisHeight(net: Network, genesis: Txn)
    requires SaveGenesis(net, genesis).Ok?
    ensures SaveGenesis(net, genesis).value.height == 0 && SaveGenesis(net, genesis).value.net == net
  {
    hide ExecuteGenesis;
  }

  // ----- Supply -----

  /** NKN in circulation, the recorded supply and the schedule agree. */
  ghost predicate SupplyOk(store: Store) {
    && StoreOk(store)
    && Held(store.net, store.state.accounts) == store.state.assets[store.net.nknAsset]
                                             == INITIAL_ISSUE_AMOUNT + Mined(store.height)
  }

  lemma DonationsStayNonNegative(store: Store, b: Block)
    requires StoreOk(store) && SaveBlock(store, b).Ok?
    ensures forall h :: h in SaveBlock(store, b).value.donations ==> SaveBlock(store, b).value.donations[h].amount >= 0
  {
    hide ExecuteBlock;
    BalanceWithinTotal(store.state.accounts, store.net.nknAsset, store.net.donationAddress);
  }

  lemma NoFeeLost(rules: Rules, store: Store, b: Block)
    requires b.height > 0 && Validated(rules, store, b)
    ensures Uncharged(b.txns, b.height) >= 0
    ensures Uncharged(b.txns, b.height) == 0 <==> ChargesAllFees(b)
  {
    hide Validated, CheckPrefix, TxnOk;
    ValidatedLoop(rules, store, b);
    ValidatedPrefixes(rules, store, b.txns, |b.txns|, b.height);
    forall i | 0 <= i < |b.txns| ensures b.txns[i].fee >= 0 {
      OneTxnOk(rules, store, b.txns, |b.txns|, i, b.height);
      FeeInRange(rules, store, i, b.txns[i], b.height);
    }
    UnchargedIsNanoPay(b.txns, |b.txns|, b.height);
  }

  /** One accepted block keeps circulation and recorded supply in step exactly when it charges every
      fee it pays out. */
  lemma SupplyStep(rules: Rules, store: Store, b: Block)
    requires SupplyOk(store) && b.height == store.height + 1 && OrderlyBlock(b)
    requires TransactionCheck(rules, store, b).None? && SaveBlock(store, b).Ok?
    ensures SupplyOk(SaveBlock(store, b).value) <==> ChargesAllFees(b)
  {
    hide StoreOk, Held, Mined, RewardAt, TransactionCheck, SaveBlock, ExecuteBlock, Validated, Uncharged,
      ChargesAllFees, Solvent, OrderlyBlock;
    var next := SaveBlock(store, b).value;
    AcceptedIsValidated(rules, store, b);
    SavedStore(store, b);
    ExecutionConserves(rules, store, b);
    NoFeeLost(rules, store, b);
    SupplyArithmetic(store, b);
    DonationsStayNonNegative(store, b);
    if ChargesAllFees(b) {
      MinedIsCapped(next.height);
      StoreOkFrom(next);
    }
  }

  lemma SupplyArithmetic(store: Store, b: Block)
    requires b.height == store.height + 1
    ensures Mined(b.height) == Mined(store.height) + RewardAt(b.height)
  {
  }

  lemma StoreOkFrom(store: Store)
    requires Solvent(store.state.accounts, store.net.nknAsset) && Held(store.net, store.state.accounts) <= LEDGER_LIMIT
    requires store.net.nknAsset in store.state.assets && 0 < store.state.assets[store.net.nknAsset] <= MAX_SUPPLY
    requires forall h :: h in store.donations ==> store.donations[h].amount >= 0
    ensures StoreOk(store)
  {
  }

  lemma GenesisSupply(net: Network, coinbase: Txn)
    requires GenesisOk(net, coinbase)
    ensures SaveGenesis(net, coinbase).Ok? && SupplyOk(SaveGenesis(net, coinbase).value)
    ensures SaveGenesis(net, coinbase).value.height == 0 && SaveGenesis(net, coinbase).value.net == net
  {
    hide Credit, BumpNonce, FinalizeState, Solvent, Total, BalanceOf, SetBalance;
    var empty: AccountMap := map[];
    assert Solvent(empty, net.nknAsset) && Total(empty, net.nknAsset) == 0 by { NothingHeld(net.nknAsset); }
    CreditTotal(empty, net.issueAddress, net.nknAsset, INITIAL_ISSUE_AMOUNT);
    var issued := Credit(empty, net.issueAddress, net.nknAsset, INITIAL_ISSUE_AMOUNT);
    BumpFacts(net, issued, coinbase);
    var bumped := BumpNonce(issued, coinbase);
    CreditTotal(bumped, coinbase.payload.recipient, net.nknAsset, 0);
    assert TotalFee([coinbase]) == 0 by { assert [coinbase][..0] == []; }
    assert Mined(0) == 0;
    var spent := EmptyState().(accounts := Credit(bumped, coinbase.payload.recipient, net.nknAsset, 0),
                               assets := map[net.nknAsset := INITIAL_ISSUE_AMOUNT][net.gasAsset := 0]);
    assert ExecuteGenesis(net, coinbase) == Ok(FinalizeState(spent));
    FinalizeKeepsMoney(spent);
    StoreOkFrom(SaveGenesis(net, coinbase).value);
  }

  lemma NothingHeld(asset: Uint256)
    ensures Solvent(map[], asset) && Total(map[], asset) == 0
  {
    assert Holdings(map[], asset) == map[];
  }

  lemma FinalizeKeepsMoney(st: State)
    ensures FinalizeState(st).accounts == st.accounts && FinalizeState(st).assets == st.assets
  {
  }

  /** All fees a chain has paid out without taking them from anyone. */
  function UnchargedTotal(blocks: seq<Block>): int {
    if blocks == [] then 0
    else UnchargedTotal(blocks[..|blocks| - 1]) + Uncharged(blocks[|blocks| - 1].txns, blocks[|blocks| - 1].height)
  }

  ghost predicate AllCharged(blocks: seq<Block>) {
    forall i :: 0 <= i < |blocks| ==> ChargesAllFees(blocks[i])
  }

  /** Below height 7500 a registration fee may be out of range; here none is. */
  ghost predicate OrderlyChain(blocks: seq<Block>) {
    forall i :: 0 <= i < |blocks| ==> OrderlyBlock(blocks[i])
  }

  lemma LateBlockIsOrderly(rules: Rules, store: Store, b: Block)
    requires b.height >= 7500 && Validated(rules, store, b)
    ensures OrderlyBlock(b)
  {
    hide Validated, CheckPrefix, AllTxnsOk, Orderly;
    ValidatedLoop(rules, store, b);
    ValidatedPrefixes(rules, store, b.txns, |b.txns|, b.height);
    LateIsOrderly(rules, store, b.txns, |b.txns|, b.height);
  }

  /** What a chain holds and has recorded. */
  ghost predicate Circulates(net: Network, store: Store, blocks: seq<Block>) {
    && store.height == |blocks| && store.net == net && StoreOk(store)
    && Held(net, store.state.accounts) == INITIAL_ISSUE_AMOUNT + Mined(|blocks|) + UnchargedTotal(blocks)
    && store.state.assets[net.nknAsset] == INITIAL_ISSUE_AMOUNT + Mined(|blocks|)
  }

  lemma {:induction false} UnchargedFacts(rules: Rules, net: Network, genesis: Txn, blocks: seq<Block>)
    requires AcceptedChain(rules, net, genesis, blocks)
    ensures UnchargedTotal(blocks) >= 0 && (UnchargedTotal(blocks) == 0 <==> AllCharged(blocks))
    decreases |blocks|
  {
    hide TransactionCheck, SaveBlock, SaveGenesis, ChargesAllFees, Validated, Uncharged, ExecuteBlock;
    if blocks == [] {
    } else {
      var prev, b := blocks[..|blocks| - 1], blocks[|blocks| - 1];
      UnchargedFacts(rules, net, genesis, prev);
      var store := StoreAfter(net, genesis, prev).value;
      AcceptedIsValidated(rules, store, b);
      NoFeeLost(rules, store, b);
      assert forall i :: 0 <= i < |prev| ==> prev[i] == blocks[i];
    }
  }

  lemma CirculationStep(rules: Rules, net: Network, store: Store, blocks: seq<Block>, b: Block)
    requires Circulates(net, store, blocks) && b.height == store.height + 1 && OrderlyBlock(b)
    requires TransactionCheck(rules, store, b).None? && SaveBlock(store, b).Ok?
    requires INITIAL_ISSUE_AMOUNT + Mined(|blocks| + 1) + UnchargedTotal(blocks + [b]) <= LEDGER_LIMIT
    ensures Circulates(net, SaveBlock(store, b).value, blocks + [b])
  {
    hide StoreOk, Held, Mined, RewardAt, TransactionCheck, SaveBlock, ExecuteBlock, Validated, Uncharged, Solvent,
      OrderlyBlock;
    AcceptedIsValidated(rules, store, b);
    SavedStore(store, b);
    ExecutionConserves(rules, store, b);
    SupplyArithmetic(store, b);
    DonationsStayNonNegative(store, b);
    assert (blocks + [b])[..|blocks|] == blocks;
    MinedIsCapped(b.height);
    StoreOkFrom(SaveBlock(store, b).value);
  }

  /** Supply, exactly: without registration fees out of range, and as long as what a chain issued and paid
      out uncharged stays so low that no sum or product of balances can wrap, the NKN held by all accounts is the initial issue, all rewards and all uncharged fees, the recorded
      supply is the issue and the rewards, and the two agree if and only if every block charged every
      fee it paid out. */
  lemma {:induction false} SupplyConserved(rules: Rules, net: Network, genesis: Txn, blocks: seq<Block>)
    requires AcceptedChain(rules, net, genesis, blocks)
    requires OrderlyChain(blocks) && INITIAL_ISSUE_AMOUNT + Mined(|blocks|) + UnchargedTotal(blocks) <= LEDGER_LIMIT
    ensures Circulates(net, StoreAfter(net, genesis, blocks).value, blocks)
    ensures SupplyOk(StoreAfter(net, genesis, blocks).value) <==> AllCharged(blocks)
    decreases |blocks|
  {
    hide TransactionCheck, SaveBlock, SaveGenesis, ChargesAllFees, StoreOk, Held, RewardAt, Uncharged, OrderlyBlock;
    UnchargedFacts(rules, net, genesis, blocks);
    if blocks == [] {
      GenesisSupply(net, genesis);
    } else {
      var prev, b := blocks[..|blocks| - 1], blocks[|blocks| - 1];
      assert blocks == prev + [b];
      var store := StoreAfter(net, genesis, prev).value;
      NoFeeLostAccepted(rules, store, b);
      SupplyConserved(rules, net, genesis, prev);
      CirculationStep(rules, net, store, prev, b);
    }
  }

  lemma NoFeeLostAccepted(rules: Rules, store: Store, b: Block)
    requires b.height > 0 && TransactionCheck(rules, store, b).None?
    ensures Uncharged(b.txns, b.height) >= 0
  {
    hide TransactionCheck, Validated, ExecuteBlock, Uncharged;
    AcceptedIsValidated(rules, store, b);
    NoFeeLost(rules, store, b);
  }

  /** So no balance of such a chain is negative, and none ever comes near the int64 range. */
  lemma BalancesStayInRange(rules: Rules, net: Network, genesis: Txn, blocks: seq<Block>, addr: Uint160)
    requires AcceptedChain(rules, net, genesis, blocks)
    requires OrderlyChain(blocks) && INITIAL_ISSUE_AMOUNT + Mined(|blocks|) + UnchargedTotal(blocks) <= LEDGER_LIMIT
    ensures 0 <= GetBalance(StoreAfter(net, genesis, blocks).value, addr)
              <= INITIAL_ISSUE_AMOUNT + Mined(|blocks|) + UnchargedTotal(blocks) < TWO_63
  {
    hide TransactionCheck, SaveBlock, SaveGenesis, Mined, UnchargedTotal, AcceptedChain, StoreAfter;
    ChainIsStored(rules, net, genesis, blocks);
    SupplyConserved(rules, net, genesis, blocks);
    BalanceWithinTotal(StoreAfter(net, genesis, blocks).value.state.accounts, net.nknAsset, addr);
  }

  /** The chains that charge all fees never leave the 10^9 coins. */
  lemma ChargedSupply(rules: Rules, net: Network, genesis: Txn, blocks: seq<Block>)
    requires AcceptedChain(rules, net, genesis, blocks)
    requires forall i :: 0 <= i < |blocks| ==> ChargesAllFees(blocks[i]) && OrderlyBlock(blocks[i])
    ensures var store := StoreAfter(net, genesis, blocks).value;
      && store.height == |blocks| && store.net == net && SupplyOk(store)
      && Held(net, store.state.accounts) == INITIAL_ISSUE_AMOUNT + Mined(|blocks|) <= MAX_SUPPLY
    ensures forall addr :: 0 <= GetBalance(StoreAfter(net, genesis, blocks).value, addr) <= MAX_SUPPLY
  {
    hide TransactionCheck, SaveBlock, SaveGenesis, ChargesAllFees, Mined, UnchargedTotal, AcceptedChain, StoreAfter,
      GetBalance, Held, OrderlyBlock;
    ChainIsStored(rules, net, genesis, blocks);
    UnchargedFacts(rules, net, genesis, blocks);
    MinedIsCapped(|blocks|);
    SupplyConserved(rules, net, genesis, blocks);
    forall addr ensures 0 <= GetBalance(StoreAfter(net, genesis, blocks).value, addr) <= MAX_SUPPLY {
      BalancesStayInRange(rules, net, genesis, blocks, addr);
    }
  }

  /** What extends a chain: on one with registration fees in range and fees within bounds, a block in range
      is accepted and saved if and only if it comes next, has the right shape, each transaction fits the ones
      before it, the winner is known, and it executes to the root it names. */
  lemma ChainExtends(rules: Rules, net: Network, genesis: Txn, blocks: seq<Block>, b: Block)
    requires AcceptedChain(rules, net, genesis, blocks) && OrderlyChain(blocks) && OrderlyBlock(b)
    requires INITIAL_ISSUE_AMOUNT + Mined(|blocks|) + UnchargedTotal(blocks) <= LEDGER_LIMIT
    ensures StoreAfter(net, genesis, blocks).Ok?
    ensures var store := StoreAfter(net, genesis, blocks).value;
      AcceptedChain(rules, net, genesis, blocks + [b]) <==>
        && b.height == |blocks| + 1 && WellShaped(rules, b) && AllFit(rules, store, b.txns, |b.txns|, b.height)
        && WinnerKnown(store, b) && Executes(rules, store, b) && SaveBlock(store, b).Ok?
  {
    hide TransactionCheck, SaveBlock, SaveGenesis, Mined, UnchargedTotal, OrderlyChain, WellShaped, AllFit,
      WinnerKnown, Executes, GetBalance;
    HeightsCount(rules, net, genesis, blocks);
    var store := StoreAfter(net, genesis, blocks).value;
    forall s ensures GetBalance(store, s) <= LEDGER_LIMIT {
      BalancesStayInRange(rules, net, genesis, blocks, s);
    }
    assert (blocks + [b])[..|blocks|] == blocks;
    if b.height == |blocks| + 1 {
      AcceptedExactly(rules, store, b);
    }
  }
}
