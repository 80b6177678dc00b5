/** The store a candidate block is checked against: the last committed state and its history. */
module Ledger {
  import opened Common
  import opened Transactions
  import opened Accounts
  import opened Rewards
  import opened Execution
  import ET = ExpiryTables

  datatype Donation = Donation(height: nat, amount: int)

  /** height is the current block height; txnHashes the transactions persisted so far. */
  datatype Store = Store(net: Network, height: nat, state: State, donations: map<nat, Donation>, txnHashes: set<Uint256>)

  function GetBalance(store: Store, addr: Uint160): int {
    BalanceOf(store.state.accounts, addr, store.net.nknAsset)
  }

  /** Every balance is in range. */
  ghost predicate BalancesInRange(store: Store) {
    forall s :: GetBalance(store, s) <= LEDGER_LIMIT
  }

  function GetNonce(store: Store, addr: Uint160): nat {
    NonceOf(store.state.accounts, addr)
  }

  function ChannelBalance(store: Store, channel: ChannelId): int {
    ET.Peek(store.state.nanoPay, channel).data
  }

  predicate IsSubscribed(store: Store, id: PubSubId) {
    !ET.Empty(store.state.pubSub.zero, ET.Peek(store.state.pubSub, id))
  }

  /** GetSubscribersCount iterates the trie only. */
  function SubscribersCount(store: Store, topic: string, bucket: nat): nat {
    |set id | id in store.state.pubSub.trie && id.lowerTopic == ToLower(topic) && id.bucket == bucket|
  }

  /** getDonation: a fixed share of the donation account, or the share recorded for the interval. */
  function GetDonation(store: Store): Result<int, LedgerError> {
    if DonationNoDelay(store.height + 1) then
      Ok(GoDiv(Wrap64(GetBalance(store, store.net.donationAddress) * 11), 25000000))
    else
      var interval := store.height / REWARD_ADJUST_INTERVAL * REWARD_ADJUST_INTERVAL;
      if interval in store.donations then Ok(store.donations[interval].amount) else Err(NoDonation)
  }

  /** Go's integer division truncates toward zero. */
  function GoDiv(x: int, d: nat): int
    requires d > 0
  {
    if x >= 0 then x / d else -(-x / d)
  }

  /** CalcNextDonation_legacy: the balance is the one before the block being persisted. */
  function CalcNextDonation(store: Store, height: nat): Result<Donation, LedgerError> {
    if height == 0 then Ok(Donation(0, 0))
    else
      var interval := store.height / REWARD_ADJUST_INTERVAL * REWARD_ADJUST_INTERVAL;
      if DonationNoDelay(store.height + 1) || interval !in store.donations
         || store.donations[interval].height + REWARD_ADJUST_INTERVAL != height then Err(NoDonation)
      else
        var half := GoDiv(GetBalance(store, store.net.donationAddress), 2);
        Ok(Donation(height, GoDiv(half, REWARD_ADJUST_INTERVAL)))
  }

  predicate RecordsDonation(height: nat) {
    height % REWARD_ADJUST_INTERVAL == 0 && !DonationNoDelay(height)
  }

  /** SaveBlock for a block already checked: the committed state, its transactions and, at interval
      boundaries, the next donation. */
  function SaveBlock(store: Store, b: Block): Result<Store, LedgerError> {
    var state :- ExecuteBlock(store.state, store.net, b, GetDonation(store));
    var donations :- if !RecordsDonation(b.height) then Ok(store.donations)
                     else
                       var d := CalcNextDonation(store, b.height);
                       if d.Err? then Err(d.error) else Ok(store.donations[b.height := d.value]);
    Ok(Store(store.net, b.height, state, donations, store.txnHashes + set t | t in b.txns :: t.hash))
  }

  /** The store after the genesis block with its one coinbase. */
  function SaveGenesis(net: Network, coinbase: Txn): Result<Store, LedgerError> {
    var state :- ExecuteGenesis(net, coinbase);
    Ok(Store(net, 0, state, map[0 := Donation(0, 0)], {coinbase.hash}))
  }
}
