/** BlockValidationState as the node holds it: maps changed in place, closures staged and committed.
    Every method is proved against BlockValidation and BvsExactness. */
module ValidationState {
  import opened Common
  import opened Sums
  import opened Transactions
  import opened Rewards
  import opened Ledger
  import opened BlockValidation
  import opened BvsExactness

  class BlockValidationState {
    var txnlist: set<Uint256>
    var totalAmount: map<Uint160, int>
    var registeredNames: set<string>
    var nameRegistrants: set<string>
    var generateIDs: set<string>
    var subscriptions: map<SubscriptionKey, SubscriptionInfo>
    var subscriptionCount: map<string, int>
    var subscriptionCountChange: map<string, int>
    var nanoPays: set<ChannelId>
    var nanoPayAmount: map<Uint160, int>
    var nanoPayPayloads: map<Uint256, ChannelPayment>
    var changes: seq<Change>

    function View(): Bvs
      reads this
    {
      Bvs(txnlist, totalAmount, registeredNames, nameRegistrants, generateIDs, subscriptions, subscriptionCount,
          subscriptionCountChange, nanoPays, nanoPayAmount, nanoPayPayloads, changes)
    }

    constructor ()
      ensures View() == NewBvs
    {
      txnlist, totalAmount, registeredNames, nameRegistrants, generateIDs := {}, map[], {}, {}, {};
      subscriptions, subscriptionCount, subscriptionCountChange := map[], map[], map[];
      nanoPays, nanoPayAmount, nanoPayPayloads, changes := {}, map[], map[], [];
    }

    /** The name payloads of the switch. */
    method VerifyName(ghost store: Store, ghost maxSubscriptions: nat, txn: Txn,
            height: nat) returns (e: Option<BvsError>)
      requires height > 0 && (txn.payload.RegisterName? || txn.payload.DeleteName?)
      ensures e == PayloadError(View(), store, maxSubscriptions, txn, height)
    {
      if txn.payload.name in registeredNames {
        return Some(DuplicateName);
      }
      if LegacyNameService(height) {
        if txn.payload.registrant in nameRegistrants {
          return Some(DuplicateRegistrant);
        }
      }
      e := None;
    }

    /** The subscription payloads of the switch.  The count change is staged here, not in a closure. */
    method VerifySubscription(store: Store, maxSubscriptions: nat, txn: Txn,
            ghost height: nat) returns (e: Option<BvsError>)
      requires height > 0 && (txn.payload.Subscribe? || txn.payload.Unsubscribe?)
      modifies this`subscriptionCountChange
      ensures e == PayloadError(old(View()), store, maxSubscriptions, txn, height)
      ensures View() == if e.None? then CountChanged(old(View()), store, txn) else old(View())
    {
      hide AlreadySubscribed, SubscribersCount, SubscriptionKeyOf;
      var p := txn.payload;
      if SubscriptionKeyOf(txn) in subscriptions {
        return Some(DuplicateSubscription);
      }
      var subscribed := AlreadySubscribed(store, txn);
      if p.Unsubscribe? {
        if !subscribed {
          return Some(NotSubscribed);
        }
        subscriptionCountChange := Add(subscriptionCountChange, p.topic, -1);
      } else if !subscribed {
        if maxSubscriptions > 0 {
          var count := SubscribersCount(store, p.topic, p.bucket);
          if count + Get(subscriptionCount, p.topic) + Get(subscriptionCountChange, p.topic) >= maxSubscriptions {
            return Some(SubscriptionLimit);
          }
        }
        subscriptionCountChange := Add(subscriptionCountChange, p.topic, 1);
      }
      e := None;
    }

    /** The nano-pay payload of the switch. */
    method VerifyNanoPay(store: Store, ghost maxSubscriptions: nat, txn: Txn,
            height: nat) returns (e: Option<BvsError>, npAmount: int)
      requires height > 0 && txn.payload.NanoPay?
      ensures e == PayloadError(View(), store, maxSubscriptions, txn, height)
      ensures e.None? ==> npAmount == ClaimOf(store, txn) > 0
    {
      hide ChannelBalance, Channel;
      var p := txn.payload;
      npAmount := 0;
      if height > p.txnExpiration {
        return Some(NanoPayTxnExpired), npAmount;
      }
      if height > p.nanoPayExpiration {
        return Some(NanoPayExpired), npAmount;
      }
      if Channel(txn) in nanoPays {
        return Some(DuplicateChannel), npAmount;
      }
      var channelBalance := ChannelBalance(store, Channel(txn));
      if p.amount <= channelBalance {
        return Some(InvalidNanoPayAmount), npAmount;
      }
      e, npAmount := None, p.amount - channelBalance;
    }

    /** The payload switch: the first error, or what the payload takes from the sender. */
    method VerifyPayload(store: Store, maxSubscriptions: nat, txn: Txn,
            height: nat) returns (e: Option<BvsError>, amount: int, npAmount: int)
      requires height > 0
      modifies this`subscriptionCountChange
      ensures e == PayloadError(old(View()), store, maxSubscriptions, txn, height)
      ensures e.None? ==> amount == Amount(txn) && npAmount == ClaimOf(store, txn)
      ensures View() == if e.None? then CountChanged(old(View()), store, txn) else old(View())
    {
      hide AlreadySubscribed, SubscribersCount, ChannelBalance, Channel, SubscriptionKeyOf, GetDonation, RewardAt, Add;
      e, amount, npAmount := None, 0, 0;
      match txn.payload {
        case Coinbase(_, reward) =>
          var donation := GetDonation(store);
          if donation.Err? {
            e := Some(DonationUnknown);
          } else if reward != RewardAt(height) + donation.value {
            e := Some(WrongReward);
          }
        case TransferAsset(_, value) =>
          amount := value;
        case RegisterName(_, _, fee) =>
          e := VerifyName(store, maxSubscriptions, txn, height);
          amount := fee;
        case DeleteName(_, _) =>
          e := VerifyName(store, maxSubscriptions, txn, height);
        case Subscribe(_, _, _, _, _, _) =>
          e := VerifySubscription(store, maxSubscriptions, txn, height);
        case Unsubscribe(_, _, _) =>
          e := VerifySubscription(store, maxSubscriptions, txn, height);
        case GenerateID(publicKey, fee) =>
          amount := fee;
          if publicKey in generateIDs {
            e := Some(DuplicateGenerateID);
          }
        case NanoPay(_, _, _, _, _) =>
          e, npAmount := VerifyNanoPay(store, maxSubscriptions, txn, height);
        case Unsupported =>
          e := Some(UnpackError);
        case _ =>
      }
    }

    /** VerifyTransactionWithBlock */
    method VerifyTransactionWithBlock(store: Store, maxSubscriptions: nat, txn: Txn,
            height: nat) returns (e: Option<BvsError>)
      requires height > 0
      modifies this`subscriptionCountChange, this`changes
      ensures e == VerifyError(old(View()), store, maxSubscriptions, txn, height)
      ensures View() == Verify(old(View()), store, maxSubscriptions, txn, height)
    {
      hide PayloadError, CountChanged, ClaimOf, Amount, GetBalance, StagedChange, Get, Wrap64;
      if txn.hash in txnlist {
        return Some(DuplicateTxn);
      }
      ghost var before := View();
      var amount, npAmount;
      e, amount, npAmount := VerifyPayload(store, maxSubscriptions, txn, height);
      if e.Some? {
        return;
      }
      CountsOnly(before, store, txn);
      var owed := Wrap64(amount + txn.fee);
      if owed + npAmount > 0 {
        var balance := GetBalance(store, txn.sender);
        if balance < Wrap64(Get(totalAmount, txn.sender) + Get(nanoPayAmount, txn.sender) + owed) + npAmount {
          return Some(NotSufficientFunds);
        }
      }
      changes := changes + [StagedChange(store, txn)];
    }

    /** The closure that books the amounts. */
    method BookAmounts(c: Change)
      modifies this`totalAmount, this`nanoPayAmount
      ensures totalAmount == Apply(old(View()), c).totalAmount && nanoPayAmount == Apply(old(View()), c).nanoPayAmount
    {
      hide Add, Amount;
      var owed := Wrap64(Amount(c.txn) + c.txn.fee);
      if owed + c.claim > 0 {
        totalAmount := Add64(totalAmount, c.txn.sender, owed);
        nanoPayAmount := Add(nanoPayAmount, c.txn.sender, c.claim);
      }
    }

    /** The closures of name and ID payloads. */
    method BookNames(c: Change)
      modifies this`registeredNames, this`nameRegistrants, this`generateIDs
      ensures registeredNames == Apply(old(View()), c).registeredNames && nameRegistrants == Apply(old(View()), c).nameRegistrants
      ensures generateIDs == Apply(old(View()), c).generateIDs
    {
      hide Add, Amount;
      var p := c.txn.payload;
      if p.RegisterName? || p.DeleteName? {
        registeredNames := registeredNames + {p.name};
        nameRegistrants := nameRegistrants + {p.registrant};
      } else if p.TransferName? {
        registeredNames := registeredNames + {p.name};
      } else if p.GenerateID? {
        generateIDs := generateIDs + {p.publicKey};
      }
    }

    /** The closures of subscription and nano-pay payloads. */
    method BookChannels(c: Change)
      modifies this`subscriptions, this`nanoPays, this`nanoPayPayloads
      ensures subscriptions == Apply(old(View()), c).subscriptions
      ensures nanoPays == Apply(old(View()), c).nanoPays && nanoPayPayloads == Apply(old(View()), c).nanoPayPayloads
    {
      hide Add, Amount, SubscriptionKeyOf, Channel;
      var p := c.txn.payload;
      if p.Subscribe? {
        subscriptions := subscriptions[SubscriptionKeyOf(c.txn) := SubscriptionInfo(c.isNew, p.meta)];
      } else if p.Unsubscribe? {
        subscriptions := subscriptions[SubscriptionKeyOf(c.txn) := SubscriptionInfo(false, "")];
      } else if p.NanoPay? {
        nanoPays := nanoPays + {Channel(c.txn)};
        nanoPayPayloads := nanoPayPayloads[c.txn.hash := ChannelPayment(Channel(c.txn), p.amount)];
      }
    }

    /** Runs the closures staged for one transaction, last deferred first. */
    method RunChange(c: Change)
      modifies this
      ensures View() == Apply(old(View()), c)
    {
      hide Add, Amount, SubscriptionKeyOf, Channel;
      BookAmounts(c);
      BookNames(c);
      BookChannels(c);
      txnlist := txnlist + {c.txn.hash};
    }

    method Reset()
      modifies this`changes, this`subscriptionCountChange
      ensures View() == BlockValidation.Reset(old(View()))
    {
      changes := [];
      subscriptionCountChange := map[];
    }

    /** The staged counts are added topic by topic, in whatever order the map yields them. */
    method CommitCounts()
      modifies this`subscriptionCount
      ensures subscriptionCount == AddCounts(old(subscriptionCount), subscriptionCountChange)
    {
      hide AddCounts, Add;
      var todo := subscriptionCountChange;
      while todo != map[]
        invariant AddCounts(subscriptionCount, todo) == AddCounts(old(subscriptionCount), subscriptionCountChange)
        decreases |todo|
      {
        var topic :| topic in todo;
        AddCountsStep(subscriptionCount, todo, topic);
        subscriptionCount := Add(subscriptionCount, topic, todo[topic]);
        todo := todo - {topic};
      }
      AddNoCounts(subscriptionCount);
    }

    method Commit()
      modifies this
      ensures View() == BlockValidation.Commit(old(View()))
    {
      hide Apply, AddCounts;
      ghost var b := View();
      var i := 0;
      while i < |changes|
        invariant 0 <= i <= |changes| && changes == b.changes
        invariant ApplyAll(View(), changes[i..]) == ApplyAll(b, b.changes)
        invariant subscriptionCountChange == b.subscriptionCountChange
      {
        assert changes[i..][0] == changes[i] && changes[i..][1..] == changes[i + 1..];
        ApplyKeepsStaging(View(), changes[i]);
        RunChange(changes[i]);
        i := i + 1;
      }
      assert ApplyAll(View(), []) == View();
      CommitCounts();
      Reset();
    }

    /** What cleaning one transaction drops, its amounts aside. */
    method DropTxn(txn: Txn)
      modifies this
      ensures View() == Forget(old(View()), txn)
    {
      hide Add, Take, SubscriptionKeyOf, Channel;
      var p := txn.payload;
      if p.RegisterName? || p.DeleteName? {
        registeredNames := registeredNames - {p.name};
        nameRegistrants := nameRegistrants - {p.registrant};
      } else if p.TransferName? {
        registeredNames := registeredNames - {p.name};
      } else if p.GenerateID? {
        generateIDs := generateIDs - {p.publicKey};
      } else if p.NanoPay? {
        nanoPays := nanoPays - {Channel(txn)};
        nanoPayPayloads := nanoPayPayloads - {txn.hash};
      } else if p.Subscribe? || p.Unsubscribe? {
        var key := SubscriptionKeyOf(txn);
        if key in subscriptions {
          var info := subscriptions[key];
          subscriptions := subscriptions - {key};
          if p.Unsubscribe? {
            subscriptionCount := Add(subscriptionCount, p.topic, 1);
          } else if info.isNew {
            subscriptionCount := Take(subscriptionCount, p.topic, 1);
          }
        }
      }
    }

    /** One iteration of the cleaning loop. */
    method CleanTxn(txn: Txn) returns (e: Option<BvsError>)
      modifies this
      ensures e.None? <==> CleanOne(old(View()), txn).Ok?
      ensures e.None? ==> View() == CleanOne(old(View()), txn).value
      ensures e.Some? ==> e.value == CleanOne(old(View()), txn).error
    {
      hide Forget, Take64, Amount, Wrap64;
      if txn.hash !in txnlist {
        return None;
      }
      txnlist := txnlist - {txn.hash};
      if txn.payload.Unsupported? {
        return Some(UnpackError);
      }
      DropTxn(txn);
      var amount, fee := Amount(txn), txn.fee;
      if amount > 0 || fee > 0 {
        var owed := Wrap64(amount + fee);
        if txn.sender in totalAmount && totalAmount[txn.sender] >= owed {
          totalAmount := Take64(totalAmount, txn.sender, owed);
        } else {
          return Some(Inconsistent);
        }
      }
      e := None;
    }

    /** The nano-pay sums are recomputed from the payloads kept. */
    method RebuildClaims(store: Store) returns (e: Option<BvsError>)
      modifies this`nanoPayAmount
      ensures e.None? <==> AllClaimsPositive(store, nanoPayPayloads)
      ensures e.None? ==> nanoPayAmount == Rebuilt(store, nanoPayPayloads)
      ensures e.Some? ==> e.value == Inconsistent
    {
      hide Rebuilding, Rebuilt, ChannelBalance, Add;
      nanoPayAmount := map[];
      var rest := nanoPayPayloads;
      RebuildStart(store, nanoPayPayloads);
      while rest != map[]
        invariant Rebuilding(store, nanoPayPayloads, rest, nanoPayAmount)
        decreases |rest|
      {
        var h :| h in rest;
        var p := rest[h];
        RebuildStep(store, nanoPayPayloads, rest, nanoPayAmount, h);
        if p.amount <= ChannelBalance(store, p.channel) {
          return Some(Inconsistent);
        }
        nanoPayAmount := Add(nanoPayAmount, p.channel.sender, p.amount - ChannelBalance(store, p.channel));
        rest := rest - {h};
      }
      RebuildDone(store, nanoPayPayloads, nanoPayAmount);
      e := None;
    }

    /** CleanSubmittedTransactions */
    method CleanSubmittedTransactions(store: Store, txns: seq<Txn>) returns (e: Option<BvsError>)
      modifies this
      ensures e.None? <==> CleanSubmitted(old(View()), store, txns).Ok?
      ensures e.None? ==> View() == CleanSubmitted(old(View()), store, txns).value
      ensures e.Some? ==> e.value == CleanSubmitted(old(View()), store, txns).error
    {
      hide CleanOne, Rebuilt, AllClaimsPositive;
      ghost var b := View();
      var i := 0;
      while i < |txns|
        invariant 0 <= i <= |txns|
        invariant CleanLoop(View(), txns[i..]) == CleanLoop(b, txns)
      {
        assert txns[i..][0] == txns[i] && txns[i..][1..] == txns[i + 1..];
        e := CleanTxn(txns[i]);
        if e.Some? {
          return;
        }
        i := i + 1;
      }
      assert CleanLoop(View(), []) == Ok(View());
      if |nanoPayAmount| > 0 {
        e := RebuildClaims(store);
      } else {
        e := None;
      }
    }
  }

  lemma CountsOnly(b: Bvs, store: Store, txn: Txn)
    ensures CountChanged(b, store, txn) == b.(subscriptionCountChange := CountChanged(b, store, txn).subscriptionCountChange)
  {
  }

  /** The payloads not in rest have been booked in amounts. */
  ghost predicate Rebuilding(store: Store, payloads: map<Uint256, ChannelPayment>,
          rest: map<Uint256, ChannelPayment>, amounts: map<Uint160, int>) {
    && rest.Keys <= payloads.Keys && (forall h :: h in rest ==> rest[h] == payloads[h])
    && (forall h :: h in payloads && h !in rest ==> payloads[h].channel.sender in amounts)
    && (forall h :: h in payloads && h !in rest ==> payloads[h].amount > ChannelBalance(store, payloads[h].channel))
    && (forall s :: s in amounts ==> exists h :: h in payloads && payloads[h].channel.sender == s)
    && (forall s :: Get(amounts, s) + Claimed(store, rest, s) == Claimed(store, payloads, s))
  }

  lemma RebuildStart(store: Store, payloads: map<Uint256, ChannelPayment>)
    ensures Rebuilding(store, payloads, payloads, map[])
  {
    hide Claimed, ChannelBalance;
  }

  lemma RebuildStep(store: Store, payloads: map<Uint256, ChannelPayment>, rest: map<Uint256, ChannelPayment>,
          amounts: map<Uint160, int>, h: Uint256)
    requires Rebuilding(store, payloads, rest, amounts) && h in rest
    ensures h in payloads && rest[h] == payloads[h]
    ensures rest[h].amount > ChannelBalance(store, rest[h].channel) ==>
      Rebuilding(store, payloads, rest - {h}, Add(amounts, rest[h].channel.sender, rest[h].amount - ChannelBalance(store, rest[h].channel)))
  {
    hide Claimed, ChannelBalance;
    var p := rest[h];
    InsertClaim(store, rest - {h}, h, p);
    assert (rest - {h})[h := p] == rest;
    GetAdd(amounts, p.channel.sender, p.amount - ChannelBalance(store, p.channel));
  }

  lemma RebuildDone(store: Store, payloads: map<Uint256, ChannelPayment>, amounts: map<Uint160, int>)
    requires Rebuilding(store, payloads, map[], amounts)
    ensures AllClaimsPositive(store, payloads) && amounts == Rebuilt(store, payloads)
  {
    hide Claimed, ChannelBalance;
    NoClaims(store);
    assert amounts.Keys == Rebuilt(store, payloads).Keys;
  }

  lemma ApplyKeepsStaging(b: Bvs, c: Change)
    ensures Apply(b, c).changes == b.changes && Apply(b, c).subscriptionCountChange == b.subscriptionCountChange
  {
  }

  lemma AddCountsStep(count: map<string, int>, change: map<string, int>, topic: string)
    requires topic in change
    ensures AddCounts(Add(count, topic, change[topic]), change - {topic}) == AddCounts(count, change)
  {
  }

  lemma AddNoCounts(count: map<string, int>)
    ensures AddCounts(count, map[]) == count
  {
  }
}
