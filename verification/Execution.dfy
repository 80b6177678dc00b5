/** Block execution: what spendTransaction and generateStateRoot do to the state. */
module Execution {
  import opened Common
  import opened Transactions
  import opened Accounts
  import opened Rewards
  import ET = ExpiryTables

  /** Names and node IDs are not part of the state modelled here. */
  datatype State = State(
    accounts: AccountMap,
    assets: map<Uint256, int>,
    nanoPay: ET.Table<ChannelId, int>,
    pubSub: ET.Table<PubSubId, ET.PubSub>)

  /** The fee a transaction is charged when it executes, if any. */
  predicate FeeCharged(txn: Txn, height: nat) {
    match txn.payload
    case NanoPay(_, _, _, _, _) => ChargeNanoPayTxnFee(height) && txn.fee != 0
    case Coinbase(_, _) => txn.fee != 0
    case SigChainTxn => txn.fee != 0
    case _ => true
  }

  function ChargeFee(accounts: AccountMap, net: Network, txn: Txn, height: nat): Result<AccountMap, LedgerError> {
    if FeeCharged(txn, height) then Debit(accounts, txn.sender, net.nknAsset, txn.fee) else Ok(accounts)
  }

  function BumpNonce(accounts: AccountMap, txn: Txn): AccountMap {
    if txn.payload.NanoPay? || txn.payload.SigChainTxn? then accounts else IncrNonce(accounts, txn.sender)
  }

  /** A debit of one account followed by a credit of another. */
  function Move(accounts: AccountMap, net: Network, from: Uint160, to: Uint160,
          value: int): Result<AccountMap, LedgerError> {
    var debited :- Debit(accounts, from, net.nknAsset, value);
    Ok(Credit(debited, to, net.nknAsset, value))
  }

  function IncreaseTotalSupply(assets: map<Uint256, int>, asset: Uint256,
          amount: int): Result<map<Uint256, int>, LedgerError> {
    if asset !in assets then Err(NoSuchAsset)
    else
      var supply := Wrap64(assets[asset] + amount);
      if supply <= 0 then Err(SupplyOverflow) else Ok(assets[asset := supply])
  }

  /** The donation (the coinbase sender's share) is only drawn outside the genesis block, and new
      supply is only recorded above height 0. */
  function SpendCoinbase(st: State, net: Network, txn: Txn, totalFee: int, genesis: bool, height: nat,
                         donation: Result<int, LedgerError>): Result<State, LedgerError>
    requires txn.payload.Coinbase?
  {
    var drawn :- if genesis then Ok(st.accounts)
                 else if donation.Err? then Err(donation.error)
                 else Debit(st.accounts, txn.sender, net.nknAsset, donation.value);
    var paid := Credit(drawn, txn.payload.recipient, net.nknAsset, Wrap64(txn.payload.amount + totalFee));
    if height == 0 then Ok(st.(accounts := paid))
    else
      var assets :- IncreaseTotalSupply(st.assets, net.nknAsset, RewardAt(height));
      Ok(st.(accounts := paid, assets := assets))
  }

  function ExpiryOf(height: nat, duration: nat): nat {
    (height + duration) % 0x1_0000_0000
  }

  /** The part of spendTransaction that depends on the payload. */
  function SpendPayload(st: State, net: Network, txn: Txn, totalFee: int, genesis: bool, height: nat,
                        donation: Result<int, LedgerError>): Result<State, LedgerError>
  {
    match txn.payload
    case Coinbase(_, _) => SpendCoinbase(st, net, txn, totalFee, genesis, height, donation)
    case TransferAsset(recipient, amount) =>
      var accounts :- Move(st.accounts, net, txn.sender, recipient, amount);
      Ok(st.(accounts := accounts))
    case RegisterName(_, _, fee) =>
      var accounts :- Move(st.accounts, net, txn.sender, net.donationAddress, fee);
      Ok(st.(accounts := accounts))
    case GenerateID(_, fee) =>
      var accounts :- Move(st.accounts, net, txn.sender, net.donationAddress, fee);
      Ok(st.(accounts := accounts))
    case NanoPay(recipient, _, amount, _, expiration) =>
      var claim := amount - ET.Peek(st.nanoPay, Channel(txn)).data;
      var accounts :- Move(st.accounts, net, txn.sender, recipient, claim);
      Ok(st.(accounts := accounts, nanoPay := ET.Claim(st.nanoPay, Channel(txn), amount, expiration)))
    case Subscribe(topic, bucket, subscriber, identifier, meta, duration) =>
      Ok(st.(pubSub := ET.Subscribe(st.pubSub, SubId(topic, bucket, subscriber, identifier),
                                    ET.PubSub(subscriber, identifier, meta), ExpiryOf(height, duration))))
    case Unsubscribe(topic, subscriber, identifier) =>
      Ok(st.(pubSub := ET.Unsubscribe(st.pubSub, SubId(topic, 0, subscriber, identifier))))
    case IssueAsset(totalSupply) =>
      if txn.hash in st.assets then Err(AssetExists)
      else
        Ok(st.(assets := st.assets[txn.hash := totalSupply],
               accounts := Credit(st.accounts, txn.sender, txn.hash, totalSupply)))
    case Unsupported => Err(UnsupportedPayload)
    case _ => Ok(st)
  }

  /** spendTransaction */
  function Spend(st: State, net: Network, txn: Txn, totalFee: int, genesis: bool, height: nat,
                 donation: Result<int, LedgerError>): Result<State, LedgerError>
  {
    if txn.payload.Unsupported? then Err(UnsupportedPayload)
    else
      var charged :- ChargeFee(st.accounts, net, txn, height);
      SpendPayload(st.(accounts := BumpNonce(charged, txn)), net, txn, totalFee, genesis, height, donation)
  }

  /** totalFee, summed as int64. */
  function TotalFee(txns: seq<Txn>): int {
    if txns == [] then 0 else Wrap64(TotalFee(txns[..|txns| - 1]) + txns[|txns| - 1].fee)
  }

  /** The state after the first n transactions of a block above genesis. */
  function SpendPrefix(st: State, net: Network, txns: seq<Txn>, n: nat, totalFee: int, height: nat,
                       donation: Result<int, LedgerError>): Result<State, LedgerError>
    requires n <= |txns|
  {
    if n == 0 then Ok(st)
    else
      var before :- SpendPrefix(st, net, txns, n - 1, totalFee, height, donation);
      Spend(before, net, txns[n - 1], totalFee, false, height, donation)
  }

  function CleanupState(st: State, height: nat): State {
    st.(nanoPay := ET.Cleanup(st.nanoPay, height), pubSub := ET.Cleanup(st.pubSub, height))
  }

  function FinalizeState(st: State): State {
    st.(nanoPay := ET.Finalize(st.nanoPay), pubSub := ET.Finalize(st.pubSub))
  }

  /** generateStateRoot for a block above genesis, up to and including the commit. */
  function ExecuteBlock(st: State, net: Network, b: Block,
          donation: Result<int, LedgerError>): Result<State, LedgerError> {
    var spent :- SpendPrefix(st, net, b.txns, |b.txns|, TotalFee(b.txns), b.height, donation);
    Ok(FinalizeState(CleanupState(spent, b.height)))
  }

  function EmptyState(): State {
    State(map[], map[], ET.Table(0, map[], map[], map[], map[]), ET.Table(ET.NoPubSub, map[], map[], map[], map[]))
  }

  /** generateStateRoot for the genesis block: the initial issue, then its one coinbase. */
  function ExecuteGenesis(net: Network, coinbase: Txn): Result<State, LedgerError> {
    var issued := EmptyState().(
      assets := map[net.nknAsset := INITIAL_ISSUE_AMOUNT],
      accounts := Credit(map[], net.issueAddress, net.nknAsset, INITIAL_ISSUE_AMOUNT));
    if net.gasAsset in issued.assets then Err(AssetExists)
    else
      var st :- Spend(issued.(assets := issued.assets[net.gasAsset := 0]), net, coinbase,
                      TotalFee([coinbase]), true, 0, Ok(0));
      Ok(FinalizeState(st))
  }
}
