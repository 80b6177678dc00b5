/** The validation state under verify+commit, verify+reset and clean, with the ledger fixed: its sums
    are exactly those of the transactions still committed. */
module BvsExactness {
  import opened Common
  import opened Sums
  import opened Transactions
  import opened Ledger
  import opened BlockValidation

  // ----- CleanSubmittedTransactions on values -----

  predicate HasSubscription(txn: Txn) {
    txn.payload.Subscribe? || txn.payload.Unsubscribe?
  }

  /** Subtract and drop the key when nothing is left. */
  function Take<K>(m: map<K, int>, k: K, v: int): map<K, int> {
    if Get(m, k) - v == 0 then m - {k} else m[k := Get(m, k) - v]
  }

  /** The same for an int64. */
  function Take64<K>(m: map<K, int>, k: K, v: int): map<K, int> {
    if Wrap64(Get(m, k) - v) == 0 then m - {k} else m[k := Wrap64(Get(m, k) - v)]
  }

  predicate Subscribed(b: Bvs, txn: Txn) {
    HasSubscription(txn) && SubscriptionKeyOf(txn) in b.subscriptions
  }

  /** The names, IDs, subscriptions and channels of one cleaned transaction. */
  function Forget(b: Bvs, txn: Txn): Bvs {
    var p := txn.payload;
    b.(
      registeredNames := b.registeredNames - (if p.RegisterName? || p.DeleteName? || p.TransferName? then {p.name} else {}),
      nameRegistrants := b.nameRegistrants - (if p.RegisterName? || p.DeleteName? then {p.registrant} else {}),
      generateIDs := b.generateIDs - (if p.GenerateID? then {p.publicKey} else {}),
      subscriptions := if Subscribed(b, txn) then b.subscriptions - {SubscriptionKeyOf(txn)} else b.subscriptions,
      subscriptionCount :=
        if !Subscribed(b, txn) then b.subscriptionCount
        else if p.Unsubscribe? then Add(b.subscriptionCount, p.topic, 1)
        else if b.subscriptions[SubscriptionKeyOf(txn)].isNew then Take(b.subscriptionCount, p.topic, 1)
        else b.subscriptionCount,
      nanoPays := b.nanoPays - (if p.NanoPay? then {Channel(txn)} else {}),
      nanoPayPayloads := if p.NanoPay? then b.nanoPayPayloads - {txn.hash} else b.nanoPayPayloads)
  }

  /** One iteration of the loop, for a transaction the state knows. */
  function CleanOne(b: Bvs, txn: Txn): Result<Bvs, BvsError> {
    if txn.hash !in b.txnlist then Ok(b)
    else if txn.payload.Unsupported? then Err(UnpackError)
    else
      var b1 := Forget(b.(txnlist := b.txnlist - {txn.hash}), txn);
      if Amount(txn) <= 0 && txn.fee <= 0 then Ok(b1)
      else if txn.sender in b1.totalAmount && b1.totalAmount[txn.sender] >= Owed(txn) then
        Ok(b1.(totalAmount := Take64(b1.totalAmount, txn.sender, Owed(txn))))
      else Err(Inconsistent)
  }

  function CleanLoop(b: Bvs, txns: seq<Txn>): Result<Bvs, BvsError>
    decreases |txns|
  {
    if txns == [] then Ok(b)
    else
      var b1 :- CleanOne(b, txns[0]);
      CleanLoop(b1, txns[1..])
  }

  /** The claims of one sender among the payloads kept. */
  function ClaimMap(store: Store, payloads: map<Uint256, ChannelPayment>, s: Uint160): map<Uint256, int> {
    map h | h in payloads && payloads[h].channel.sender == s :: payloads[h].amount - ChannelBalance(store, payloads[h].channel)
  }

  ghost function Claimed(store: Store, payloads: map<Uint256, ChannelPayment>, s: Uint160): int {
    Sum(ClaimMap(store, payloads, s))
  }

  predicate AllClaimsPositive(store: Store, payloads: map<Uint256, ChannelPayment>) {
    forall h :: h in payloads ==> payloads[h].amount > ChannelBalance(store, payloads[h].channel)
  }

  /** The nano-pay sums recomputed from the payloads kept. */
  ghost function Rebuilt(store: Store, payloads: map<Uint256, ChannelPayment>): map<Uint160, int> {
    map h | h in payloads :: payloads[h].channel.sender := Claimed(store, payloads, payloads[h].channel.sender)
  }

  /** CleanSubmittedTransactions */
  ghost function CleanSubmitted(b: Bvs, store: Store, txns: seq<Txn>): Result<Bvs, BvsError> {
    var b1 :- CleanLoop(b, txns);
    if b1.nanoPayAmount == map[] then Ok(b1)
    else if !AllClaimsPositive(store, b1.nanoPayPayloads) then Err(Inconsistent)
    else Ok(b1.(nanoPayAmount := Rebuilt(store, b1.nanoPayPayloads)))
  }

  // ----- What the state should say about the committed transactions -----

  /** What the state books for a transaction besides claims: amount and fee, unless they are no cost. */
  function Booked(txn: Txn): (v: int)
    ensures v >= 0
  {
    if Amount(txn) + txn.fee > 0 then Amount(txn) + txn.fee else 0
  }

  function SpentMap(committed: map<Uint256, Txn>, s: Uint160): map<Uint256, int> {
    map h | h in committed :: if committed[h].sender == s then Booked(committed[h]) else 0
  }

  /** Amounts and fees of s's committed transactions. */
  ghost function SpentBy(committed: map<Uint256, Txn>, s: Uint160): int {
    Sum(SpentMap(committed, s))
  }

  function DeltaMap(store: Store, committed: map<Uint256, Txn>, topic: string): map<Uint256, int> {
    map h | h in committed :: if HasSubscription(committed[h]) && committed[h].payload.topic == topic then CountDelta(store, committed[h]) else 0
  }

  /** New subscribes minus unsubscribes of a topic. */
  ghost function NewSubscribers(store: Store, committed: map<Uint256, Txn>, topic: string): int {
    Sum(DeltaMap(store, committed, topic))
  }

  function Payments(committed: map<Uint256, Txn>): map<Uint256, ChannelPayment> {
    map h | h in committed && committed[h].payload.NanoPay? :: ChannelPayment(Channel(committed[h]), committed[h].payload.amount)
  }

  /** What VerifyTransaction makes sure of, legacy registration fees aside: a fee in range, and an amount
      that neither overflows nor hides the fee. */
  predicate Payable(txn: Txn) {
    && !txn.payload.Unsupported? && CheckAmount(txn.fee) && -TWO_63 <= Amount(txn)
    && (if Amount(txn) + txn.fee > 0 then Amount(txn) <= LEDGER_LIMIT else txn.fee == 0)
  }

  /** Everything that passes VerifyTransaction with a registration fee in range is payable. */
  lemma OrderlyIsPayable(net: Network, txn: Txn, height: nat)
    requires Sane(net, txn, height) && RegistrationInRange(txn)
    ensures Payable(txn)
  {
  }

  /** A payable transaction's sum does not wrap. */
  lemma PayableFacts(txn: Txn)
    requires Payable(txn)
    ensures 0 <= Booked(txn) && -TWO_63 <= Owed(txn) <= LEDGER_LIMIT + MAX_SUPPLY
    ensures Owed(txn) == Amount(txn) + txn.fee && (Booked(txn) == 0 || Booked(txn) == Owed(txn))
    ensures Booked(txn) == 0 ==> Owed(txn) <= 0
    ensures !(Amount(txn) <= 0 && txn.fee <= 0) ==> Booked(txn) > 0
    ensures txn.payload.NanoPay? ==> Owed(txn) == Booked(txn) == txn.fee
  {
    hide Wrap64;
  }

  /** Every committed subscribe or unsubscribe has its own key, marked new when it adds to the count. */
  ghost predicate SubscriptionsIndexed(subs: map<SubscriptionKey, SubscriptionInfo>, store: Store,
          committed: map<Uint256, Txn>) {
    && (forall h :: h in committed && HasSubscription(committed[h]) ==>
          && SubscriptionKeyOf(committed[h]) in subs
          && (subs[SubscriptionKeyOf(committed[h])].isNew <==> CountDelta(store, committed[h]) == 1))
    && (forall h, k :: h in committed && k in committed && h != k && HasSubscription(committed[h]) && HasSubscription(committed[k])
          ==> SubscriptionKeyOf(committed[h]) != SubscriptionKeyOf(committed[k]))
  }

  ghost predicate PaymentsIndexed(payloads: map<Uint256, ChannelPayment>, store: Store, committed: map<Uint256, Txn>) {
    payloads == Payments(committed) && AllClaimsPositive(store, payloads)
  }

  ghost predicate Listed(b: Bvs, committed: map<Uint256, Txn>) {
    && Clean?(b) && b.txnlist == committed.Keys
    && (forall h :: h in committed ==> committed[h].hash == h && Payable(committed[h]))
  }

  /** The committed transactions and the indexes that recognise them. */
  ghost predicate Indexed(b: Bvs, store: Store, committed: map<Uint256, Txn>) {
    && Listed(b, committed)
    && PaymentsIndexed(b.nanoPayPayloads, store, committed)
    && SubscriptionsIndexed(b.subscriptions, store, committed)
  }

  /** The sums. */
  ghost predicate SumsExact(b: Bvs, store: Store, committed: map<Uint256, Txn>) {
    && (forall s :: Get(b.totalAmount, s) == SpentBy(committed, s))
    && (forall s :: Get(b.nanoPayAmount, s) == Claimed(store, b.nanoPayPayloads, s))
    && (forall t :: Get(b.subscriptionCount, t) == NewSubscribers(store, committed, t))
  }

  /** Nobody's committed spending exceeds their balance. */
  ghost predicate WithinBalances(store: Store, b: Bvs) {
    forall s :: var total := Get(b.totalAmount, s) + Get(b.nanoPayAmount, s); total > 0 ==> total <= GetBalance(store, s)
  }

  ghost predicate Exact(b: Bvs, store: Store, committed: map<Uint256, Txn>) {
    Indexed(b, store, committed) && SumsExact(b, store, committed) && WithinBalances(store, b)
  }

  // ----- How the sums move -----

  lemma InsertSums(store: Store, committed: map<Uint256, Txn>, txn: Txn)
    requires txn.hash !in committed
    ensures forall s :: SpentBy(committed[txn.hash := txn], s)
                     == SpentBy(committed, s) + if txn.sender == s then Booked(txn) else 0
    ensures forall t :: NewSubscribers(store, committed[txn.hash := txn], t)
                     == NewSubscribers(store, committed, t) + if HasSubscription(txn) && txn.payload.topic == t then CountDelta(store, txn) else 0
  {
    hide Sum, Booked, CountDelta;
    var after := committed[txn.hash := txn];
    forall s ensures SpentBy(after, s) == SpentBy(committed, s) + if txn.sender == s then Booked(txn) else 0 {
      var v := if txn.sender == s then Booked(txn) else 0;
      assert SpentMap(after, s) == SpentMap(committed, s)[txn.hash := v];
      SumSet(SpentMap(committed, s), txn.hash, v);
    }
    forall t ensures NewSubscribers(store, after, t) == NewSubscribers(store, committed, t)
                     + if HasSubscription(txn) && txn.payload.topic == t then CountDelta(store, txn) else 0 {
      var v := if HasSubscription(txn) && txn.payload.topic == t then CountDelta(store, txn) else 0;
      assert DeltaMap(store, after, t) == DeltaMap(store, committed, t)[txn.hash := v];
      SumSet(DeltaMap(store, committed, t), txn.hash, v);
    }
  }

  lemma InsertClaim(store: Store, payloads: map<Uint256, ChannelPayment>, h: Uint256, p: ChannelPayment)
    requires h !in payloads
    ensures forall s :: Claimed(store, payloads[h := p], s)
                     == Claimed(store, payloads, s) + if p.channel.sender == s then p.amount - ChannelBalance(store, p.channel) else 0
  {
    hide Sum, ChannelBalance;
    forall s ensures Claimed(store, payloads[h := p], s)
                     == Claimed(store, payloads, s) + if p.channel.sender == s then p.amount - ChannelBalance(store, p.channel) else 0 {
      if p.channel.sender == s {
        var v := p.amount - ChannelBalance(store, p.channel);
        assert ClaimMap(store, payloads[h := p], s) == ClaimMap(store, payloads, s)[h := v];
        SumSet(ClaimMap(store, payloads, s), h, v);
      } else {
        assert ClaimMap(store, payloads[h := p], s) == ClaimMap(store, payloads, s);
      }
    }
  }

  /** Removing is inserting read backwards. */
  lemma RemoveSums(store: Store, committed: map<Uint256, Txn>, h: Uint256)
    requires h in committed && committed[h].hash == h
    ensures var txn := committed[h];
      && (forall s :: SpentBy(committed - {h}, s) == SpentBy(committed, s) - if txn.sender == s then Booked(txn) else 0)
      && (forall t :: NewSubscribers(store, committed - {h}, t)
                   == NewSubscribers(store, committed, t) - if HasSubscription(txn) && txn.payload.topic == t then CountDelta(store, txn) else 0)
  {
    hide SpentBy, NewSubscribers, Booked, CountDelta;
    InsertSums(store, committed - {h}, committed[h]);
    assert (committed - {h})[h := committed[h]] == committed;
  }

  lemma SpentCovers(committed: map<Uint256, Txn>, h: Uint256)
    requires h in committed
    ensures 0 <= Booked(committed[h]) <= SpentBy(committed, committed[h].sender)
  {
    SumBounds(SpentMap(committed, committed[h].sender), h);
  }

  lemma ClaimedNonNegative(store: Store, payloads: map<Uint256, ChannelPayment>, s: Uint160)
    requires AllClaimsPositive(store, payloads)
    ensures 0 <= Claimed(store, payloads, s)
  {
    SumBounds(ClaimMap(store, payloads, s), 0);
  }

  lemma SpentNonNegative(committed: map<Uint256, Txn>, s: Uint160)
    ensures 0 <= SpentBy(committed, s)
  {
    SumBounds(SpentMap(committed, s), 0);
  }

  lemma GetTake<K(!new)>(m: map<K, int>, k: K, v: int)
    ensures forall j :: Get(Take(m, k, v), j) == Get(m, j) - if j == k then v else 0
  {
  }

  lemma GetTake64<K(!new)>(m: map<K, int>, k: K, v: int)
    requires -TWO_63 <= Get(m, k) - v < TWO_63
    ensures forall j :: Get(Take64(m, k, v), j) == Get(m, j) - if j == k then v else 0
  {
    hide Wrap64;
  }

  lemma GetAddCounts(count: map<string, int>, change: map<string, int>)
    ensures forall t :: Get(AddCounts(count, change), t) == Get(count, t) + Get(change, t)
  {
  }

  // ----- Verify and commit -----

  /** What a successful check of a payable transaction guarantees. */
  lemma VerifiedPayable(b: Bvs, store: Store, max: nat, txn: Txn, height: nat)
    requires height > 0 && Payable(txn) && VerifyError(b, store, max, txn, height).None?
    ensures txn.hash !in b.txnlist && !FundsMissing(b, store, txn)
    ensures txn.payload.NanoPay? ==> ClaimOf(store, txn) > 0
    ensures HasSubscription(txn) ==> SubscriptionKeyOf(txn) !in b.subscriptions
    ensures ClaimOf(store, txn) >= 0 && (ClaimOf(store, txn) > 0 ==> txn.payload.NanoPay?)
  {
  }

  lemma InsertSubscription(subs: map<SubscriptionKey, SubscriptionInfo>, store: Store, committed: map<Uint256, Txn>,
          txn: Txn, info: SubscriptionInfo)
    requires SubscriptionsIndexed(subs, store, committed) && HasSubscription(txn)
    requires SubscriptionKeyOf(txn) !in subs && (info.isNew <==> CountDelta(store, txn) == 1)
    ensures SubscriptionsIndexed(subs[SubscriptionKeyOf(txn) := info], store, committed[txn.hash := txn])
  {
    hide SubscriptionKeyOf, CountDelta;
  }

  lemma InsertPayment(payloads: map<Uint256, ChannelPayment>, store: Store, committed: map<Uint256, Txn>, txn: Txn)
    requires PaymentsIndexed(payloads, store, committed) && txn.hash !in committed
    requires txn.payload.NanoPay? ==> ClaimOf(store, txn) > 0
    ensures PaymentsIndexed(if txn.payload.NanoPay? then payloads[txn.hash := ChannelPayment(Channel(txn), txn.payload.amount)] else payloads,
                            store, committed[txn.hash := txn])
  {
    hide ChannelBalance;
    var after := if txn.payload.NanoPay? then payloads[txn.hash := ChannelPayment(Channel(txn), txn.payload.amount)] else payloads;
    assert after == Payments(committed[txn.hash := txn]);
  }

  lemma AdmitIndexed(b: Bvs, store: Store, txn: Txn, committed: map<Uint256, Txn>)
    requires Indexed(b, store, committed) && Payable(txn) && txn.hash !in b.txnlist
    requires txn.payload.NanoPay? ==> ClaimOf(store, txn) > 0
    requires HasSubscription(txn) ==> SubscriptionKeyOf(txn) !in b.subscriptions
    ensures Indexed(Admit(b, store, txn), store, committed[txn.hash := txn])
  {
    hide AddCounts, Amount, IsSubscribed, PaymentsIndexed, Payable, ClaimOf;
    var b' := Admit(b, store, txn);
    InsertPayment(b.nanoPayPayloads, store, committed, txn);
    if HasSubscription(txn) {
      InsertSubscription(b.subscriptions, store, committed, txn, b'.subscriptions[SubscriptionKeyOf(txn)]);
    }
  }

  lemma AdmitCounts(b: Bvs, store: Store, txn: Txn)
    ensures var b' := Admit(b, store, txn);
      forall t :: Get(b'.subscriptionCount, t) == Get(b.subscriptionCount, t)
                  + if HasSubscription(txn) && txn.payload.topic == t then CountDelta(store, txn) else 0
  {
    hide Owed, ClaimOf, AddCounts, CountDelta, Add64, Add, SubscriptionKeyOf, AlreadySubscribed, Channel;
    CountedTxn(store, txn);
    GetAddCounts(b.subscriptionCount, StagedCount(store, txn));
  }

  lemma AdmitSums(b: Bvs, store: Store, txn: Txn, committed: map<Uint256, Txn>)
    requires SumsExact(b, store, committed) && b.nanoPayPayloads == Payments(committed)
    requires txn.hash !in committed && Payable(txn)
    requires ClaimOf(store, txn) >= 0 && (ClaimOf(store, txn) > 0 ==> txn.payload.NanoPay?)
    requires 0 <= Get(b.totalAmount, txn.sender) <= LEDGER_LIMIT
    ensures SumsExact(Admit(b, store, txn), store, committed[txn.hash := txn])
  {
    hide SpentBy, NewSubscribers, Claimed, ClaimOf, CountDelta, Admit, Payable, Owed, Booked, Get;
    PayableFacts(txn);
    InsertSums(store, committed, txn);
    AdmitMoney(b, store, txn);
    AdmitCounts(b, store, txn);
    AdmitClaims(b, store, txn, committed);
  }

  lemma CountedTxn(store: Store, txn: Txn)
    ensures CountDelta(store, txn) != 0 ==> HasSubscription(txn)
  {
  }

  lemma AdmitClaims(b: Bvs, store: Store, txn: Txn, committed: map<Uint256, Txn>)
    requires b.nanoPayPayloads == Payments(committed) && txn.hash !in committed
    ensures forall s :: Claimed(store, Admit(b, store, txn).nanoPayPayloads, s)
                     == Claimed(store, b.nanoPayPayloads, s) + if s == txn.sender then ClaimOf(store, txn) else 0
  {
    hide Claimed, ChannelBalance, AddCounts, CountDelta, AlreadySubscribed, Amount;
    if txn.payload.NanoPay? {
      InsertClaim(store, b.nanoPayPayloads, txn.hash, ChannelPayment(Channel(txn), txn.payload.amount));
    }
  }

  lemma AdmitWithin(b: Bvs, store: Store, txn: Txn)
    requires WithinBalances(store, b) && Clean?(b) && !FundsMissing(b, store, txn) && Payable(txn) && ClaimOf(store, txn) >= 0
    requires 0 <= Get(b.totalAmount, txn.sender) && 0 <= Get(b.nanoPayAmount, txn.sender)
    requires Get(b.totalAmount, txn.sender) + Get(b.nanoPayAmount, txn.sender) <= LEDGER_LIMIT
    ensures WithinBalances(store, Admit(b, store, txn))
  {
    hide ClaimOf, GetBalance, Admit, Payable, Owed, Booked, Wrap64, Get;
    PayableFacts(txn);
    AdmitMoney(b, store, txn);
  }

  /** The sums of an exact state stay far below the int64 limit. */
  lemma ExactInRange(b: Bvs, store: Store, committed: map<Uint256, Txn>, s: Uint160)
    requires Exact(b, store, committed) && BalancesInRange(store)
    ensures 0 <= Get(b.totalAmount, s) && 0 <= Get(b.nanoPayAmount, s)
    ensures Get(b.totalAmount, s) + Get(b.nanoPayAmount, s) <= LEDGER_LIMIT
  {
    hide SpentBy, Claimed, Get, GetBalance, Payable, SubscriptionsIndexed, Payments, AllClaimsPositive;
    SpentNonNegative(committed, s);
    ClaimedNonNegative(store, b.nanoPayPayloads, s);
  }

  lemma CommitExact(b: Bvs, store: Store, max: nat, txn: Txn, height: nat, committed: map<Uint256, Txn>)
    requires Exact(b, store, committed) && height > 0 && Payable(txn) && BalancesInRange(store)
    requires VerifyError(b, store, max, txn, height).None?
    ensures Exact(Commit(Verify(b, store, max, txn, height)), store, committed[txn.hash := txn])
  {
    hide VerifyError, Verify, Commit, Admit, SumsExact, WithinBalances, Payable;
    VerifiedPayable(b, store, max, txn, height);
    VerifyCommit(b, store, max, txn, height);
    ExactInRange(b, store, committed, txn.sender);
    AdmitIndexed(b, store, txn, committed);
    AdmitSums(b, store, txn, committed);
    AdmitWithin(b, store, txn);
  }

  // ----- Clean -----

  /** What the loop of CleanSubmittedTransactions keeps: everything but the nano-pay sums, which are
      rebuilt afterwards. */
  ghost predicate CleanInvariant(b: Bvs, store: Store, committed: map<Uint256, Txn>) {
    && Indexed(b, store, committed)
    && (forall s :: Get(b.totalAmount, s) == SpentBy(committed, s) < TWO_63)
    && (forall t :: Get(b.subscriptionCount, t) == NewSubscribers(store, committed, t))
  }

  lemma RemoveSubscription(subs: map<SubscriptionKey, SubscriptionInfo>, store: Store, committed: map<Uint256, Txn>,
          h: Uint256)
    requires SubscriptionsIndexed(subs, store, committed) && h in committed
    ensures SubscriptionsIndexed(if HasSubscription(committed[h]) then subs - {SubscriptionKeyOf(committed[h])} else subs, store, committed - {h})
  {
    hide SubscriptionKeyOf, CountDelta;
  }

  lemma RemovePayment(payloads: map<Uint256, ChannelPayment>, store: Store, committed: map<Uint256, Txn>, h: Uint256)
    requires PaymentsIndexed(payloads, store, committed) && h in committed
    ensures PaymentsIndexed(if committed[h].payload.NanoPay? then payloads - {h} else payloads, store, committed - {h})
  {
    hide ChannelBalance;
    assert (if committed[h].payload.NanoPay? then payloads - {h} else payloads) == Payments(committed - {h});
  }

  /** What cleaning one committed transaction changes. */
  lemma ForgetEffect(b: Bvs, store: Store, committed: map<Uint256, Txn>, txn: Txn)
    requires SubscriptionsIndexed(b.subscriptions, store, committed) && txn.hash in committed && committed[txn.hash] == txn
    ensures var b' := Forget(b, txn);
      && b'.subscriptions == (if HasSubscription(txn) then b.subscriptions - {SubscriptionKeyOf(txn)} else b.subscriptions)
      && (forall t :: Get(b'.subscriptionCount, t) == Get(b.subscriptionCount, t)
                      - if HasSubscription(txn) && txn.payload.topic == t then CountDelta(store, txn) else 0)
  {
    hide AlreadySubscribed, SubscriptionKeyOf, Take, Add, SubscriptionsIndexed, Get, Channel;
    if HasSubscription(txn) {
      IndexedKey(b.subscriptions, store, committed, txn.hash);
      GetTake(b.subscriptionCount, txn.payload.topic, 1);
      GetAdd(b.subscriptionCount, txn.payload.topic, 1);
    }
  }

  lemma IndexedKey(subs: map<SubscriptionKey, SubscriptionInfo>, store: Store, committed: map<Uint256, Txn>, h: Uint256)
    requires SubscriptionsIndexed(subs, store, committed) && h in committed && HasSubscription(committed[h])
    ensures SubscriptionKeyOf(committed[h]) in subs
    ensures subs[SubscriptionKeyOf(committed[h])].isNew <==> CountDelta(store, committed[h]) == 1
  {
    hide SubscriptionKeyOf, CountDelta;
  }

  lemma ForgetIndexed(b: Bvs, store: Store, committed: map<Uint256, Txn>, txn: Txn)
    requires Indexed(b, store, committed) && txn.hash in committed && committed[txn.hash] == txn
    ensures Indexed(Forget(b.(txnlist := b.txnlist - {txn.hash}), txn), store, committed - {txn.hash})
  {
    hide SubscriptionsIndexed, PaymentsIndexed, Payable, CountDelta, SubscriptionKeyOf, Take, Add, Channel, Get;
    ForgetEffect(b.(txnlist := b.txnlist - {txn.hash}), store, committed, txn);
    RemoveSubscription(b.subscriptions, store, committed, txn.hash);
    RemovePayment(b.nanoPayPayloads, store, committed, txn.hash);
  }

  lemma RemoveClaim(store: Store, committed: map<Uint256, Txn>, h: Uint256, s: Uint160)
    requires h in committed && AllClaimsPositive(store, Payments(committed))
    ensures Claimed(store, Payments(committed - {h}), s) <= Claimed(store, Payments(committed), s)
  {
    var before, after := Payments(committed), Payments(committed - {h});
    if committed[h].payload.NanoPay? {
      assert after[h := before[h]] == before;
      InsertClaim(store, after, h, before[h]);
    } else {
      assert after == before;
    }
  }

  /** Cleaning a transaction the state has booked forgets it and takes back what it booked. */
  lemma CleanedOne(b: Bvs, txn: Txn)
    requires txn.hash in b.txnlist && Payable(txn) && Booked(txn) <= Get(b.totalAmount, txn.sender) < TWO_63
    ensures CleanOne(b, txn).Ok?
    ensures var b1, b2 := Forget(b.(txnlist := b.txnlist - {txn.hash}), txn), CleanOne(b, txn).value;
      && b2 == b1.(totalAmount := b2.totalAmount) && b2.nanoPayAmount == b.nanoPayAmount
      && (forall s :: Get(b2.totalAmount, s) == Get(b.totalAmount, s) - if s == txn.sender then Booked(txn) else 0)
  {
    hide Amount, SubscriptionKeyOf, Channel, Add, Take64, Booked, Owed;
    PayableFacts(txn);
    if Booked(txn) > 0 {
      GetTake64(b.totalAmount, txn.sender, Owed(txn));
    }
  }

  lemma IndexedIgnoresTotals(b: Bvs, b': Bvs, store: Store, committed: map<Uint256, Txn>)
    requires Indexed(b, store, committed) && b' == b.(totalAmount := b'.totalAmount)
    ensures Indexed(b', store, committed)
  {
    hide PaymentsIndexed, SubscriptionsIndexed, Payable;
  }

  lemma IndexedTxn(b: Bvs, store: Store, committed: map<Uint256, Txn>, h: Uint256)
    requires Indexed(b, store, committed)
    ensures h in b.txnlist <==> h in committed
    ensures SubscriptionsIndexed(b.subscriptions, store, committed)
    ensures forall k :: k in committed ==> committed[k].hash == k && Payable(committed[k])
  {
    hide PaymentsIndexed, SubscriptionsIndexed, Payable;
  }

  lemma CleanOneExact(b: Bvs, store: Store, committed: map<Uint256, Txn>, txn: Txn)
    requires CleanInvariant(b, store, committed)
    requires txn.hash in committed ==> committed[txn.hash] == txn
    ensures CleanOne(b, txn).Ok? && CleanOne(b, txn).value.nanoPayAmount == b.nanoPayAmount
    ensures CleanInvariant(CleanOne(b, txn).value, store, committed - {txn.hash})
    ensures forall s :: Get(CleanOne(b, txn).value.totalAmount, s) <= Get(b.totalAmount, s)
  {
    hide Booked, SpentBy, NewSubscribers, CountDelta, Indexed, Forget, CleanOne, SubscriptionsIndexed, Get;
    IndexedTxn(b, store, committed, txn.hash);
    if txn.hash in committed {
      SpentCovers(committed, txn.hash);
      CleanedOne(b, txn);
      ForgetIndexed(b, store, committed, txn);
      ForgetEffect(b.(txnlist := b.txnlist - {txn.hash}), store, committed, txn);
      RemoveSums(store, committed, txn.hash);
      IndexedIgnoresTotals(Forget(b.(txnlist := b.txnlist - {txn.hash}), txn), CleanOne(b, txn).value, store,
        committed - {txn.hash});
    } else {
      assert committed - {txn.hash} == committed;
      NotListed(b, txn);
    }
  }

  lemma NotListed(b: Bvs, txn: Txn)
    requires txn.hash !in b.txnlist
    ensures CleanOne(b, txn) == Ok(b)
  {
  }

  /** The hashes of a list. */
  function HashSet(txns: seq<Txn>): set<Uint256> {
    set t | t in txns :: t.hash
  }

  /** A list cleaned from the state identifies its transactions by hash. */
  predicate Recognised(committed: map<Uint256, Txn>, txns: seq<Txn>) {
    forall t :: t in txns && t.hash in committed ==> committed[t.hash] == t
  }

  lemma {:induction false} CleanLoopExact(b: Bvs, store: Store, committed: map<Uint256, Txn>, txns: seq<Txn>)
    requires CleanInvariant(b, store, committed) && Recognised(committed, txns)
    ensures CleanLoop(b, txns).Ok? && CleanLoop(b, txns).value.nanoPayAmount == b.nanoPayAmount
    ensures CleanInvariant(CleanLoop(b, txns).value, store, committed - HashSet(txns))
    ensures forall s :: Get(CleanLoop(b, txns).value.totalAmount, s) <= Get(b.totalAmount, s)
    ensures forall s :: Claimed(store, Payments(committed - HashSet(txns)), s) <= Claimed(store, Payments(committed), s)
    decreases |txns|
  {
    hide CleanOne, CleanInvariant, Claimed, Payments;
    if txns == [] {
      assert committed - HashSet(txns) == committed;
    } else {
      CleanOneExact(b, store, committed, txns[0]);
      forall s ensures Claimed(store, Payments(committed - {txns[0].hash}), s) <= Claimed(store, Payments(committed), s) {
        if txns[0].hash in committed {
          PositiveClaims(b, store, committed);
          RemoveClaim(store, committed, txns[0].hash, s);
        } else {
          assert committed - {txns[0].hash} == committed;
        }
      }
      CleanLoopExact(CleanOne(b, txns[0]).value, store, committed - {txns[0].hash}, txns[1..]);
      assert HashSet(txns) == {txns[0].hash} + HashSet(txns[1..]);
      assert committed - {txns[0].hash} - HashSet(txns[1..]) == committed - HashSet(txns);
    }
  }

  lemma PositiveClaims(b: Bvs, store: Store, committed: map<Uint256, Txn>)
    requires CleanInvariant(b, store, committed)
    ensures AllClaimsPositive(store, Payments(committed)) && b.nanoPayPayloads == Payments(committed)
  {
    hide SpentBy, NewSubscribers, AllClaimsPositive, Payments, SubscriptionsIndexed;
  }

  /** The rebuilt map holds every sender's claims. */
  lemma RebuiltClaims(store: Store, payloads: map<Uint256, ChannelPayment>)
    ensures forall s :: Get(Rebuilt(store, payloads), s) == Claimed(store, payloads, s)
  {
    hide ChannelBalance;
    forall s ensures Get(Rebuilt(store, payloads), s) == Claimed(store, payloads, s) {
      if s !in Rebuilt(store, payloads) {
        assert ClaimMap(store, payloads, s) == map[];
      }
    }
  }

  /** With all claims positive, sums that are all zero mean there is no payment. */
  lemma ZeroClaims(store: Store, payloads: map<Uint256, ChannelPayment>)
    requires AllClaimsPositive(store, payloads) && forall s :: Claimed(store, payloads, s) == 0
    ensures payloads == map[]
  {
    hide ChannelBalance;
    forall h | h in payloads ensures false {
      assert Claimed(store, payloads, payloads[h].channel.sender) == 0;
      SumBounds(ClaimMap(store, payloads, payloads[h].channel.sender), h);
    }
    assert payloads == map[];
  }

  /** Cleaning with the ledger unchanged never reports an inconsistency, and leaves the state exact
      for the transactions that remain. */
  lemma CleanExact(b: Bvs, store: Store, committed: map<Uint256, Txn>, txns: seq<Txn>)
    requires Exact(b, store, committed) && Recognised(committed, txns) && BalancesInRange(store)
    ensures CleanSubmitted(b, store, txns).Ok?
    ensures Exact(CleanSubmitted(b, store, txns).value, store, committed - HashSet(txns))
  {
    hide CleanInvariant, Claimed, AllClaimsPositive, CleanLoop, Payments, Rebuilt, WithinBalances;
    ExactSplit(b, store, committed);
    CleanLoopExact(b, store, committed, txns);
    var b1, after := CleanLoop(b, txns).value, committed - HashSet(txns);
    PositiveClaims(b1, store, after);
    PositiveClaims(b, store, committed);
    var amounts := if b1.nanoPayAmount == map[] then map[] else Rebuilt(store, b1.nanoPayPayloads);
    if b1.nanoPayAmount == map[] {
      assert forall s :: Claimed(store, b.nanoPayPayloads, s) == 0;
      ZeroClaims(store, b.nanoPayPayloads);
      NoPayments(committed, after);
      NoClaims(store);
    } else {
      RebuiltClaims(store, b1.nanoPayPayloads);
    }
    ExactJoin(b1, store, after, amounts, b);
  }

  lemma ExactSplit(b: Bvs, store: Store, committed: map<Uint256, Txn>)
    requires Exact(b, store, committed) && BalancesInRange(store)
    ensures CleanInvariant(b, store, committed) && WithinBalances(store, b)
    ensures forall s :: Get(b.nanoPayAmount, s) == Claimed(store, b.nanoPayPayloads, s)
  {
    hide Indexed, SpentBy, NewSubscribers, Claimed, WithinBalances, BalancesInRange, Get;
    forall s ensures Get(b.totalAmount, s) < TWO_63 {
      ExactInRange(b, store, committed, s);
    }
  }

  lemma ExactJoin(b1: Bvs, store: Store, after: map<Uint256, Txn>, amounts: map<Uint160, int>, b: Bvs)
    requires CleanInvariant(b1, store, after) && WithinBalances(store, b)
    requires forall s :: Get(amounts, s) == Claimed(store, b1.nanoPayPayloads, s)
    requires forall s :: Get(b1.totalAmount, s) <= Get(b.totalAmount, s) && Get(amounts, s) <= Get(b.nanoPayAmount, s)
    ensures Exact(b1.(nanoPayAmount := amounts), store, after)
  {
    hide SpentBy, NewSubscribers, Claimed, GetBalance, PaymentsIndexed, SubscriptionsIndexed, Payable, Get;
    var b2 := b1.(nanoPayAmount := amounts);
    assert Indexed(b2, store, after);
    assert SumsExact(b2, store, after);
    assert forall s :: Get(b2.totalAmount, s) + Get(b2.nanoPayAmount, s) <= Get(b.totalAmount, s) + Get(b.nanoPayAmount, s);
  }

  lemma NoPayments(committed: map<Uint256, Txn>, fewer: map<Uint256, Txn>)
    requires Payments(committed) == map[] && fewer.Keys <= committed.Keys && forall h :: h in fewer ==> fewer[h] == committed[h]
    ensures Payments(fewer) == map[]
  {
    forall h | h in Payments(fewer) ensures h in Payments(committed) {
    }
  }

  lemma NoClaims(store: Store)
    ensures forall s :: Claimed(store, map[], s) == 0
  {
    forall s ensures Claimed(store, map[], s) == 0 {
      assert ClaimMap(store, map[], s) == map[];
    }
  }

  // ----- Which transactions can be taken back -----

  /** Committing one transaction to an empty state and cleaning it gives the empty sums back. */
  ghost predicate TakenBack(store: Store, txn: Txn) {
    var r := CleanOne(Admit(NewBvs, store, txn), txn);
    r.Ok? && forall s :: Get(r.value.totalAmount, s) == 0
  }

  /** What is booked for the first transaction of an empty state. */
  lemma FirstBooking(store: Store, txn: Txn)
    ensures var b := Admit(NewBvs, store, txn);
      && txn.hash in b.txnlist
      && b.totalAmount == if Owed(txn) + ClaimOf(store, txn) > 0 then map[txn.sender := Owed(txn)] else map[]
  {
    hide ClaimOf, AddCounts, CountDelta, Add, SubscriptionKeyOf, AlreadySubscribed, Channel;
  }

  /** A transaction the state accepts can be taken back if and only if it is payable: legacy registration
      fees that overflow the sum, or that are negative and hide the transaction fee, cannot. */
  lemma TakenBackIffPayable(store: Store, max: nat, txn: Txn, height: nat)
    requires height > 0 && BalancesInRange(store) && VerifyError(NewBvs, store, max, txn, height).None?
    requires CheckAmount(txn.fee) && -TWO_63 <= Amount(txn) < TWO_63
    ensures TakenBack(store, txn) <==> Payable(txn)
  {
    hide VerifyError, Admit, Wrap64, Forget, GetBalance, Amount;
    FirstBooking(store, txn);
    FirstVerified(store, max, txn, height);
    ForgetKeepsTotals(Admit(NewBvs, store, txn).(txnlist := Admit(NewBvs, store, txn).txnlist - {txn.hash}), txn);
    SumWraps(txn);
  }

  lemma SumWraps(txn: Txn)
    requires CheckAmount(txn.fee) && -TWO_63 <= Amount(txn) < TWO_63
    ensures Owed(txn) == if Amount(txn) + txn.fee < TWO_63 then Amount(txn) + txn.fee else Amount(txn) + txn.fee - TWO_64
  {
    hide Amount;
  }

  lemma ForgetKeepsTotals(b: Bvs, txn: Txn)
    ensures Forget(b, txn).totalAmount == b.totalAmount
  {
  }

  lemma FirstVerified(store: Store, max: nat, txn: Txn, height: nat)
    requires height > 0 && VerifyError(NewBvs, store, max, txn, height).None?
    ensures !txn.payload.Unsupported? && ClaimOf(store, txn) >= 0
    ensures txn.payload.NanoPay? ==> Amount(txn) == 0
    ensures ClaimOf(store, txn) > 0 ==> txn.payload.NanoPay?
    ensures Owed(txn) + ClaimOf(store, txn) > 0 ==> Owed(txn) + ClaimOf(store, txn) <= GetBalance(store, txn.sender)
  {
    hide Wrap64, GetBalance, ChannelBalance, SubscribersCount, AlreadySubscribed, GetDonation, SubscriptionKeyOf;
  }

  // ----- Runs -----

  /** A client of the state offers a transaction, which is verified and then committed or (on
      failure, or when the caller gives up) reset; or it cleans submitted transactions. */
  datatype Step = Offer(txn: Txn, commit: bool) | CleanUp(txns: seq<Txn>)

  ghost function Run(store: Store, max: nat, height: nat, steps: seq<Step>): Result<Bvs, BvsError>
    requires height > 0
  {
    if steps == [] then Ok(NewBvs)
    else
      var b :- Run(store, max, height, steps[..|steps| - 1]);
      match steps[|steps| - 1]
      case Offer(txn, commit) =>
        var v := Verify(b, store, max, txn, height);
        Ok(if commit && VerifyError(b, store, max, txn, height).None? then Commit(v) else Reset(v))
      case CleanUp(txns) => CleanSubmitted(b, store, txns)
  }

  /** The transactions a run has committed and not cleaned. */
  ghost function StillCommitted(store: Store, max: nat, height: nat, steps: seq<Step>): map<Uint256, Txn>
    requires height > 0 && Run(store, max, height, steps).Ok?
  {
    if steps == [] then map[]
    else
      var b := Run(store, max, height, steps[..|steps| - 1]).value;
      var before := StillCommitted(store, max, height, steps[..|steps| - 1]);
      match steps[|steps| - 1]
      case Offer(txn, commit) =>
        if commit && VerifyError(b, store, max, txn, height).None? then before[txn.hash := txn] else before
      case CleanUp(txns) => before - HashSet(txns)
  }

  /** Every transaction of the run is payable and known by its hash. */
  predicate WellBehaved(byHash: map<Uint256, Txn>, steps: seq<Step>) {
    forall step :: step in steps ==>
      match step
      case Offer(txn, _) => Payable(txn) && txn.hash in byHash && byHash[txn.hash] == txn
      case CleanUp(txns) => forall t :: t in txns ==> t.hash in byHash && byHash[t.hash] == t
  }

  /** Validation-state exactness: after any sequence of steps no clean has reported inconsistency, the
      sums are exactly those of the transactions still committed, and no sender's total exceeds its
      balance. */
  lemma {:induction false} RunIsExact(store: Store, max: nat, height: nat, steps: seq<Step>, byHash: map<Uint256, Txn>)
    requires height > 0 && WellBehaved(byHash, steps) && BalancesInRange(store)
    ensures Run(store, max, height, steps).Ok?
    ensures Exact(Run(store, max, height, steps).value, store, StillCommitted(store, max, height, steps))
    ensures forall h :: h in StillCommitted(store, max, height, steps) ==> h in byHash && byHash[h] == StillCommitted(store, max, height, steps)[h]
  {
    hide Exact, Verify, VerifyError, Commit, Reset, CleanSubmitted, Payable, BalancesInRange;
    if steps == [] {
      EmptyIsExact(store);
    } else {
      var prev, step := steps[..|steps| - 1], steps[|steps| - 1];
      assert step in steps && forall x :: x in prev ==> x in steps;
      RunIsExact(store, max, height, prev, byHash);
      var b, before := Run(store, max, height, prev).value, StillCommitted(store, max, height, prev);
      match step {
        case Offer(txn, commit) =>
          if commit && VerifyError(b, store, max, txn, height).None? {
            CommitExact(b, store, max, txn, height, before);
          } else {
            ExactIsClean(b, store, before);
            VerifyReset(b, store, max, txn, height);
          }
        case CleanUp(txns) =>
          CleanExact(b, store, before, txns);
      }
    }
  }

  /** What a sender's transactions take in all: amounts, fees and nano-pay claims. */
  ghost function DueFrom(store: Store, committed: map<Uint256, Txn>, s: Uint160): int {
    SpentBy(committed, s) + Claimed(store, Payments(committed), s)
  }

  /** No overspending: on a ledger without debts, the transactions still committed after any run take
      from nobody more than they have. */
  lemma RunIsAffordable(store: Store, max: nat, height: nat, steps: seq<Step>, byHash: map<Uint256, Txn>, s: Uint160)
    requires height > 0 && WellBehaved(byHash, steps) && BalancesInRange(store) && GetBalance(store, s) >= 0
    ensures Run(store, max, height, steps).Ok?
    ensures 0 <= DueFrom(store, StillCommitted(store, max, height, steps), s) <= GetBalance(store, s)
  {
    hide SpentBy, Claimed, GetBalance, Payable, Run, StillCommitted, Get, SubscriptionsIndexed, Payments,
      AllClaimsPositive;
    RunIsExact(store, max, height, steps, byHash);
    var b, committed := Run(store, max, height, steps).value, StillCommitted(store, max, height, steps);
    ClaimedNonNegative(store, Payments(committed), s);
    SpentNonNegative(committed, s);
    assert Get(b.totalAmount, s) + Get(b.nanoPayAmount, s) == DueFrom(store, committed, s);
  }

  lemma ExactIsClean(b: Bvs, store: Store, committed: map<Uint256, Txn>)
    requires Exact(b, store, committed)
    ensures Clean?(b)
  {
  }

  lemma EmptyIsExact(store: Store)
    ensures Exact(NewBvs, store, map[])
  {
    NoClaims(store);
    assert Payments(map[]) == map[];
    forall s ensures SpentBy(map[], s) == 0 {
      assert SpentMap(map[], s) == map[];
    }
    forall t ensures NewSubscribers(store, map[], t) == 0 {
      assert DeltaMap(store, map[], t) == map[];
    }
  }
}
