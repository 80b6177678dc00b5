/** StateDB and the executor that mutates it, proved against Execution. */
module StateDatabase {
  import opened Common
  import opened Sums
  import opened Transactions
  import opened Accounts
  import opened Rewards
  import opened Execution
  import opened StateTables
  import ET = ExpiryTables

  /** A committed state: nothing is overlaid. */
  predicate Committed(st: State) {
    && st.nanoPay.overlay == map[] && st.nanoPay.cleanup == map[]
    && st.pubSub.overlay == map[] && st.pubSub.cleanup == map[]
  }

  class StateDB {
    var accounts: AccountMap
    var assets: map<Uint256, int>
    const nanoPay: StateTable<ChannelId, int>
    const pubSub: StateTable<PubSubId, ET.PubSub>

    function View(): State
      reads this, nanoPay, pubSub
    {
      State(accounts, assets, nanoPay.View(), pubSub.View())
    }

    /** NewStateDB opens the state committed under a root: nothing is overlaid yet. */
    constructor (st: State)
      ensures fresh(nanoPay) && fresh(pubSub)
      ensures View() == st.(nanoPay := st.nanoPay.(overlay := map[], cleanup := map[]),
                            pubSub := st.pubSub.(overlay := map[], cleanup := map[]))
    {
      accounts, assets := st.accounts, st.assets;
      nanoPay := new StateTable(st.nanoPay);
      pubSub := new StateTable(st.pubSub);
    }

    method AddBalance(addr: Uint160, asset: Uint256, value: int)
      modifies this`accounts
      ensures accounts == Credit(old(accounts), addr, asset, value)
    {
      var acc := GetOrNew(accounts, addr);
      var amount := Get(acc.balances, asset);
      accounts := accounts[addr := acc.(balances := acc.balances[asset := Wrap64(amount + value)])];
    }

    method SubtractBalance(addr: Uint160, asset: Uint256, value: int) returns (e: Option<LedgerError>)
      modifies this`accounts
      ensures e.None? <==> Debit(old(accounts), addr, asset, value).Ok?
      ensures e.None? ==> accounts == Debit(old(accounts), addr, asset, value).value
      ensures e.Some? ==> e.value == Debit(old(accounts), addr, asset, value).error
      ensures e.Some? ==> accounts == old(accounts)[addr := GetOrNew(old(accounts), addr)]
    {
      var acc := GetOrNew(accounts, addr);
      accounts := accounts[addr := acc];
      var amount := Get(acc.balances, asset);
      if amount < value {
        return Some(InsufficientFunds);
      }
      accounts := accounts[addr := acc.(balances := acc.balances[asset := Wrap64(amount - value)])];
      e := None;
    }

    method Transfer(net: Network, from: Uint160, to: Uint160, value: int) returns (e: Option<LedgerError>)
      modifies this`accounts
      ensures e.None? <==> Move(old(accounts), net, from, to, value).Ok?
      ensures e.None? ==> accounts == Move(old(accounts), net, from, to, value).value
      ensures e.Some? ==> e.value == Move(old(accounts), net, from, to, value).error
      ensures e.Some? ==> accounts == old(accounts)[from := GetOrNew(old(accounts), from)]
    {
      hide Credit, Debit;
      e := SubtractBalance(from, net.nknAsset, value);
      if e.Some? {
        return;
      }
      AddBalance(to, net.nknAsset, value);
    }

    method IncreaseSupply(asset: Uint256, amount: int) returns (e: Option<LedgerError>)
      modifies this`assets
      ensures e.None? <==> IncreaseTotalSupply(old(assets), asset, amount).Ok?
      ensures e.None? ==> assets == IncreaseTotalSupply(old(assets), asset, amount).value
      ensures e.Some? ==> e.value == IncreaseTotalSupply(old(assets), asset, amount).error && assets == old(assets)
    {
      if asset !in assets {
        return Some(NoSuchAsset);
      }
      var supply := Wrap64(assets[asset] + amount);
      if supply <= 0 {
        return Some(SupplyOverflow);
      }
      assets := assets[asset := supply];
      e := None;
    }

    method PayCoinbase(net: Network, txn: Txn, totalFee: int, genesis: bool, height: nat,
            donation: Result<int, LedgerError>)
      returns (e: Option<LedgerError>)
      requires txn.payload.Coinbase?
      modifies this
      ensures e.None? <==> SpendCoinbase(old(View()), net, txn, totalFee, genesis, height, donation).Ok?
      ensures e.None? ==> View() == SpendCoinbase(old(View()), net, txn, totalFee, genesis, height, donation).value
      ensures e.Some? ==> e.value == SpendCoinbase(old(View()), net, txn, totalFee, genesis, height, donation).error
    {
      hide Credit, Debit, IncreaseTotalSupply, RewardAt;
      if !genesis {
        if donation.Err? {
          return Some(donation.error);
        }
        e := SubtractBalance(txn.sender, net.nknAsset, donation.value);
        if e.Some? {
          return;
        }
      }
      AddBalance(txn.payload.recipient, net.nknAsset, Wrap64(txn.payload.amount + totalFee));
      e := None;
      if height != 0 {
        e := IncreaseSupply(net.nknAsset, RewardAt(height));
      }
    }

    /** Transfers, registrations and issues. */
    method SpendMoney(net: Network, txn: Txn, ghost totalFee: int, ghost genesis: bool, ghost height: nat,
            ghost donation: Result<int, LedgerError>)
      returns (e: Option<LedgerError>)
      requires txn.payload.TransferAsset? || txn.payload.RegisterName? || txn.payload.GenerateID? || txn.payload.IssueAsset?
      modifies this
      ensures e.None? <==> SpendPayload(old(View()), net, txn, totalFee, genesis, height, donation).Ok?
      ensures e.None? ==> View() == SpendPayload(old(View()), net, txn, totalFee, genesis, height, donation).value
      ensures e.Some? ==> e.value == SpendPayload(old(View()), net, txn, totalFee, genesis, height, donation).error
    {
      hide Credit, Move;
      match txn.payload {
        case TransferAsset(recipient, amount) =>
          e := Transfer(net, txn.sender, recipient, amount);
        case RegisterName(_, _, fee) =>
          e := Transfer(net, txn.sender, net.donationAddress, fee);
        case GenerateID(_, fee) =>
          e := Transfer(net, txn.sender, net.donationAddress, fee);
        case IssueAsset(totalSupply) =>
          if txn.hash in assets {
            return Some(AssetExists);
          }
          assets := assets[txn.hash := totalSupply];
          AddBalance(txn.sender, txn.hash, totalSupply);
          e := None;
      }
    }

    /** A nano-pay claims the difference to the channel's balance, then records the new balance. */
    method SpendNanoPay(net: Network, txn: Txn, ghost totalFee: int, ghost genesis: bool, ghost height: nat,
            ghost donation: Result<int, LedgerError>)
      returns (e: Option<LedgerError>)
      requires txn.payload.NanoPay?
      modifies this, nanoPay
      ensures e.None? <==> SpendPayload(old(View()), net, txn, totalFee, genesis, height, donation).Ok?
      ensures e.None? ==> View() == SpendPayload(old(View()), net, txn, totalFee, genesis, height, donation).value
      ensures e.Some? ==> e.value == SpendPayload(old(View()), net, txn, totalFee, genesis, height, donation).error
    {
      hide Move, ET.SetNanoPay, ET.Load, ET.Peek, Channel;
      var channel := nanoPay.Get(Channel(txn));
      e := Transfer(net, txn.sender, txn.payload.recipient, txn.payload.amount - channel.data);
      if e.Some? {
        return;
      }
      nanoPay.SetNanoPay(Channel(txn), txn.payload.amount, txn.payload.nanoPayExpiration);
    }

    method SpendSubscription(txn: Txn, height: nat, ghost net: Network, ghost totalFee: int, ghost genesis: bool,
            ghost donation: Result<int, LedgerError>)
      requires txn.payload.Subscribe? || txn.payload.Unsubscribe?
      modifies pubSub
      ensures Ok(View()) == SpendPayload(old(View()), net, txn, totalFee, genesis, height, donation)
    {
      hide ET.Subscribe, ET.Unsubscribe, SubId;
      var p := txn.payload;
      if p.Subscribe? {
        SubscribeIn(pubSub, SubId(p.topic, p.bucket, p.subscriber, p.identifier),
                    ET.PubSub(p.subscriber, p.identifier, p.meta), ExpiryOf(height, p.duration));
      } else {
        pubSub.Unsubscribe(SubId(p.topic, 0, p.subscriber, p.identifier));
      }
    }

    /** The last switch of spendTransaction. */
    method SpendByPayload(net: Network, txn: Txn, totalFee: int, genesis: bool, height: nat,
            donation: Result<int, LedgerError>)
      returns (e: Option<LedgerError>)
      requires !txn.payload.Unsupported?
      modifies this, nanoPay, pubSub
      ensures e.None? <==> SpendPayload(old(View()), net, txn, totalFee, genesis, height, donation).Ok?
      ensures e.None? ==> View() == SpendPayload(old(View()), net, txn, totalFee, genesis, height, donation).value
      ensures e.Some? ==> e.value == SpendPayload(old(View()), net, txn, totalFee, genesis, height, donation).error
    {
      hide Move, Credit, SpendCoinbase, ET.Subscribe, ET.Unsubscribe, ET.Claim, ET.Peek;
      var p := txn.payload;
      e := None;
      if p.Coinbase? {
        e := PayCoinbase(net, txn, totalFee, genesis, height, donation);
      } else if p.TransferAsset? || p.RegisterName? || p.GenerateID? || p.IssueAsset? {
        e := SpendMoney(net, txn, totalFee, genesis, height, donation);
      } else if p.NanoPay? {
        e := SpendNanoPay(net, txn, totalFee, genesis, height, donation);
      } else if p.Subscribe? || p.Unsubscribe? {
        SpendSubscription(txn, height, net, totalFee, genesis, donation);
      }
    }

    /** spendTransaction */
    method SpendTransaction(net: Network, txn: Txn, totalFee: int, genesis: bool, height: nat,
            donation: Result<int, LedgerError>)
      returns (e: Option<LedgerError>)
      modifies this, nanoPay, pubSub
      ensures e.None? <==> Spend(old(View()), net, txn, totalFee, genesis, height, donation).Ok?
      ensures e.None? ==> View() == Spend(old(View()), net, txn, totalFee, genesis, height, donation).value
      ensures e.Some? ==> e.value == Spend(old(View()), net, txn, totalFee, genesis, height, donation).error
    {
      hide Debit, SpendPayload, IncrNonce;
      var p := txn.payload;
      if p.Unsupported? {
        return Some(UnsupportedPayload);
      }
      if FeeCharged(txn, height) {
        e := SubtractBalance(txn.sender, net.nknAsset, txn.fee);
        if e.Some? {
          return;
        }
      }
      if !p.NanoPay? && !p.SigChainTxn? {
        accounts := IncrNonce(accounts, txn.sender);
      }
      e := SpendByPayload(net, txn, totalFee, genesis, height, donation);
    }

    /** generateStateRoot for a block above genesis, from a database with nothing overlaid. */
    method GenerateStateRoot(net: Network, b: Block,
            donation: Result<int, LedgerError>) returns (e: Option<LedgerError>)
      modifies this, nanoPay, pubSub
      ensures e.None? <==> ExecuteBlock(old(View()), net, b, donation).Ok?
      ensures e.None? ==> View() == ExecuteBlock(old(View()), net, b, donation).value
      ensures e.Some? ==> e.value == ExecuteBlock(old(View()), net, b, donation).error
    {
      hide Spend, ET.Cleanup, ET.Finalize;
      ghost var st := View();
      var totalFee := 0;
      for i := 0 to |b.txns|
        invariant totalFee == TotalFee(b.txns[..i])
      {
        assert b.txns[..i + 1][..i] == b.txns[..i];
        totalFee := Wrap64(totalFee + b.txns[i].fee);
      }
      assert b.txns[..|b.txns|] == b.txns;
      for i := 0 to |b.txns|
        invariant SpendPrefix(st, net, b.txns, i, totalFee, b.height, donation) == Ok(View())
      {
        e := SpendTransaction(net, b.txns[i], totalFee, false, b.height, donation);
        if e.Some? {
          PrefixStaysFailed(st, net, b.txns, i + 1, |b.txns|, totalFee, b.height, donation);
          return;
        }
      }
      nanoPay.CleanupExpired(b.height);
      pubSub.CleanupExpired(b.height);
      nanoPay.FinalizeCommit();
      pubSub.FinalizeCommit();
      e := None;
    }
  }

  lemma {:induction false} PrefixStaysFailed(st: State, net: Network, txns: seq<Txn>, i: nat, n: nat, totalFee: int,
          height: nat, donation: Result<int, LedgerError>)
    requires i <= n <= |txns| && SpendPrefix(st, net, txns, i, totalFee, height, donation).Err?
    ensures SpendPrefix(st, net, txns, n, totalFee, height, donation) == SpendPrefix(st, net, txns, i, totalFee, height, donation)
    decreases n
  {
    hide Spend;
    if i == n {
    } else {
      PrefixStaysFailed(st, net, txns, i, n - 1, totalFee, height, donation);
    }
  }
}
