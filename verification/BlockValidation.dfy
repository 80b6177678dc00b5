/** BlockValidationState on values: what verifying, committing, resetting and cleaning compute. */
module BlockValidation {
  import opened Common
  import opened Sums
  import opened Transactions
  import opened Rewards
  import opened Ledger

  datatype BvsError =
    | DuplicateTxn | UnpackError | WrongReward | DonationUnknown | DuplicateName | DuplicateRegistrant
    | DuplicateSubscription | SubscriptionLimit | NotSubscribed | DuplicateGenerateID
    | NanoPayTxnExpired | NanoPayExpired | DuplicateChannel | InvalidNanoPayAmount
    | NotSufficientFunds | Inconsistent

  datatype SubscriptionInfo = SubscriptionInfo(isNew: bool, meta: string)

  /** The fields of a nano-pay payload that the state keeps. */
  datatype ChannelPayment = ChannelPayment(channel: ChannelId, amount: int)

  /** The closures one successful check stages, with the values they captured. */
  datatype Change = Change(txn: Txn, claim: int, isNew: bool)

  datatype Bvs = Bvs(
    txnlist: set<Uint256>,
    totalAmount: map<Uint160, int>,
    registeredNames: set<string>,
    nameRegistrants: set<string>,
    generateIDs: set<string>,
    subscriptions: map<SubscriptionKey, SubscriptionInfo>,
    subscriptionCount: map<string, int>,
    subscriptionCountChange: map<string, int>,
    nanoPays: set<ChannelId>,
    nanoPayAmount: map<Uint160, int>,
    nanoPayPayloads: map<Uint256, ChannelPayment>,
    changes: seq<Change>)

  const NewBvs := Bvs({}, map[], {}, {}, {}, map[], map[], map[], {}, map[], map[], [])

  function Add<K>(m: map<K, int>, k: K, v: int): map<K, int> {
    m[k := Get(m, k) + v]
  }

  /** The same for an int64. */
  function Add64<K>(m: map<K, int>, k: K, v: int): map<K, int> {
    m[k := Wrap64(Get(m, k) + v)]
  }

  // ----- One transaction -----

  function SubscriptionKeyOf(txn: Txn): SubscriptionKey
    requires txn.payload.Subscribe? || txn.payload.Unsubscribe?
  {
    var p := txn.payload;
    SubscriptionKey(p.topic, if p.Subscribe? then p.bucket else 0, p.subscriber, p.identifier)
  }

  predicate AlreadySubscribed(store: Store, txn: Txn)
    requires txn.payload.Subscribe? || txn.payload.Unsubscribe?
  {
    var k := SubscriptionKeyOf(txn);
    IsSubscribed(store, SubId(k.topic, k.bucket, k.subscriber, k.identifier))
  }

  /** What the payload takes from the sender, the fee and nano-pay claims aside. */
  function Amount(txn: Txn): int {
    match txn.payload
    case TransferAsset(_, amount) => amount
    case RegisterName(_, _, fee) => fee
    case GenerateID(_, fee) => fee
    case _ => 0
  }

  /** Amount and fee together, as int64: a legacy registration fee can make the sum wrap. */
  function Owed(txn: Txn): int {
    Wrap64(Amount(txn) + txn.fee)
  }

  /** What a nano-pay takes from the sender beyond the channel's committed balance. */
  function ClaimOf(store: Store, txn: Txn): int {
    if txn.payload.NanoPay? then txn.payload.amount - ChannelBalance(store, Channel(txn)) else 0
  }

  /** The change of the topic's subscription count. */
  function CountDelta(store: Store, txn: Txn): int {
    match txn.payload
    case Subscribe(_, _, _, _, _, _) => if AlreadySubscribed(store, txn) then 0 else 1
    case Unsubscribe(_, _, _) => -1
    case _ => 0
  }

  function PayloadError(b: Bvs, store: Store, maxSubscriptions: nat, txn: Txn, height: nat): Option<BvsError>
    requires height > 0
  {
    match txn.payload
    case Coinbase(_, amount) =>
      var donation := GetDonation(store);
      if donation.Err? then Some(DonationUnknown)
      else if amount != RewardAt(height) + donation.value then Some(WrongReward) else None
    case RegisterName(name, registrant, _) =>
      if name in b.registeredNames then Some(DuplicateName)
      else if LegacyNameService(height) && registrant in b.nameRegistrants then Some(DuplicateRegistrant) else None
    case DeleteName(name, registrant) =>
      if name in b.registeredNames then Some(DuplicateName)
      else if LegacyNameService(height) && registrant in b.nameRegistrants then Some(DuplicateRegistrant) else None
    case Subscribe(topic, bucket, _, _, _, _) =>
      if SubscriptionKeyOf(txn) in b.subscriptions then Some(DuplicateSubscription)
      else if !AlreadySubscribed(store, txn) && maxSubscriptions > 0
           && SubscribersCount(store, topic, bucket) + Get(b.subscriptionCount, topic)
              + Get(b.subscriptionCountChange, topic) >= maxSubscriptions then Some(SubscriptionLimit)
      else None
    case Unsubscribe(_, _, _) =>
      if SubscriptionKeyOf(txn) in b.subscriptions then Some(DuplicateSubscription)
      else if !AlreadySubscribed(store, txn) then Some(NotSubscribed) else None
    case GenerateID(publicKey, _) =>
      if publicKey in b.generateIDs then Some(DuplicateGenerateID) else None
    case NanoPay(_, _, amount, txnExpiration, expiration) =>
      if height > txnExpiration then Some(NanoPayTxnExpired)
      else if height > expiration then Some(NanoPayExpired)
      else if Channel(txn) in b.nanoPays then Some(DuplicateChannel)
      else if amount <= ChannelBalance(store, Channel(txn)) then Some(InvalidNanoPayAmount) else None
    case Unsupported => Some(UnpackError)
    case _ => None
  }

  /** The sender's ledger balance must cover what the state already holds against it, and this. */
  predicate FundsMissing(b: Bvs, store: Store, txn: Txn) {
    && Owed(txn) + ClaimOf(store, txn) > 0
    && GetBalance(store, txn.sender)
       < Wrap64(Get(b.totalAmount, txn.sender) + Get(b.nanoPayAmount, txn.sender) + Owed(txn)) + ClaimOf(store, txn)
  }

  function StagedChange(store: Store, txn: Txn): Change {
    Change(txn, ClaimOf(store, txn), txn.payload.Subscribe? && !AlreadySubscribed(store, txn))
  }

  function CountChanged(b: Bvs, store: Store, txn: Txn): Bvs {
    if CountDelta(store, txn) == 0 then b
    else b.(subscriptionCountChange := Add(b.subscriptionCountChange, txn.payload.topic, CountDelta(store, txn)))
  }

  function VerifyError(b: Bvs, store: Store, maxSubscriptions: nat, txn: Txn, height: nat): Option<BvsError>
    requires height > 0
  {
    if txn.hash in b.txnlist then Some(DuplicateTxn)
    else
      var e := PayloadError(b, store, maxSubscriptions, txn, height);
      if e.Some? then e
      else if FundsMissing(b, store, txn) then Some(NotSufficientFunds) else None
  }

  /** VerifyTransactionWithBlock.  The count change is staged before the funds are checked, so it
      survives a failed check until Reset. */
  function Verify(b: Bvs, store: Store, maxSubscriptions: nat, txn: Txn, height: nat): Bvs
    requires height > 0
  {
    if txn.hash in b.txnlist || PayloadError(b, store, maxSubscriptions, txn, height).Some? then b
    else
      var counted := CountChanged(b, store, txn);
      if FundsMissing(b, store, txn) then counted
      else counted.(changes := b.changes + [StagedChange(store, txn)])
  }

  function Reset(b: Bvs): Bvs {
    b.(changes := [], subscriptionCountChange := map[])
  }

  /** Running the closures of one transaction. */
  function Apply(b: Bvs, c: Change): Bvs {
    var p, sender := c.txn.payload, c.txn.sender;
    var spends := Owed(c.txn) + c.claim > 0;
    b.(
      txnlist := b.txnlist + {c.txn.hash},
      totalAmount := if spends then Add64(b.totalAmount, sender, Owed(c.txn)) else b.totalAmount,
      nanoPayAmount := if spends then Add(b.nanoPayAmount, sender, c.claim) else b.nanoPayAmount,
      registeredNames := b.registeredNames + (if p.RegisterName? || p.DeleteName? || p.TransferName? then {p.name} else {}),
      nameRegistrants := b.nameRegistrants + (if p.RegisterName? || p.DeleteName? then {p.registrant} else {}),
      generateIDs := b.generateIDs + (if p.GenerateID? then {p.publicKey} else {}),
      subscriptions :=
        if p.Subscribe? then b.subscriptions[SubscriptionKeyOf(c.txn) := SubscriptionInfo(c.isNew, p.meta)]
        else if p.Unsubscribe? then b.subscriptions[SubscriptionKeyOf(c.txn) := SubscriptionInfo(false, "")]
        else b.subscriptions,
      nanoPays := b.nanoPays + (if p.NanoPay? then {Channel(c.txn)} else {}),
      nanoPayPayloads :=
        if p.NanoPay? then b.nanoPayPayloads[c.txn.hash := ChannelPayment(Channel(c.txn), p.amount)] else b.nanoPayPayloads)
  }

  function ApplyAll(b: Bvs, cs: seq<Change>): Bvs
    decreases |cs|
  {
    if cs == [] then b else ApplyAll(Apply(b, cs[0]), cs[1..])
  }

  /** The counts after every staged topic change. */
  function AddCounts(count: map<string, int>, change: map<string, int>): map<string, int> {
    map t | t in count.Keys + change.Keys :: Get(count, t) + Get(change, t)
  }

  function Commit(b: Bvs): Bvs {
    var applied := ApplyAll(b, b.changes);
    Reset(applied.(subscriptionCount := AddCounts(applied.subscriptionCount, applied.subscriptionCountChange)))
  }

  predicate Clean?(b: Bvs) {
    b.changes == [] && b.subscriptionCountChange == map[]
  }

  /** The count change one transaction stages on a state with nothing staged. */
  function StagedCount(store: Store, txn: Txn): map<string, int> {
    if CountDelta(store, txn) == 0 then map[] else map[txn.payload.topic := CountDelta(store, txn)]
  }

  /** What one verified and committed transaction makes of a state with nothing staged. */
  function Admit(b: Bvs, store: Store, txn: Txn): Bvs {
    Apply(b, StagedChange(store, txn)).(subscriptionCount := AddCounts(b.subscriptionCount, StagedCount(store, txn)))
  }

  lemma GetAdd<K(!new)>(m: map<K, int>, k: K, v: int)
    ensures forall j :: Get(Add(m, k, v), j) == Get(m, j) + if j == k then v else 0
  {
  }

  lemma GetAdd64<K(!new)>(m: map<K, int>, k: K, v: int)
    requires -TWO_63 <= Get(m, k) + v < TWO_63
    ensures forall j :: Get(Add64(m, k, v), j) == Get(m, j) + if j == k then v else 0
  {
    hide Wrap64;
  }

  /** What admitting a transaction adds to the two money sums. */
  lemma AdmitMoney(b: Bvs, store: Store, txn: Txn)
    requires -TWO_63 <= Get(b.totalAmount, txn.sender) + Owed(txn) < TWO_63
    ensures var b', spends := Admit(b, store, txn), Owed(txn) + ClaimOf(store, txn) > 0;
      && (forall s :: Get(b'.totalAmount, s) == Get(b.totalAmount, s) + if s == txn.sender && spends then Owed(txn) else 0)
      && (forall s :: Get(b'.nanoPayAmount, s)
                   == Get(b.nanoPayAmount, s) + if s == txn.sender && spends then ClaimOf(store, txn) else 0)
  {
    hide Owed, ClaimOf, AddCounts, CountDelta, Add64, Add, SubscriptionKeyOf, AlreadySubscribed, Channel;
    GetAdd64(b.totalAmount, txn.sender, Owed(txn));
    GetAdd(b.nanoPayAmount, txn.sender, ClaimOf(store, txn));
  }

  lemma AdmitIsClean(b: Bvs, store: Store, t: Txn)
    requires Clean?(b)
    ensures Clean?(Admit(b, store, t))
  {
  }

  lemma VerifyStages(b: Bvs, store: Store, maxSubscriptions: nat, txn: Txn, height: nat)
    requires Clean?(b) && height > 0 && VerifyError(b, store, maxSubscriptions, txn, height).None?
    ensures Verify(b, store, maxSubscriptions, txn, height)
         == b.(changes := [StagedChange(store, txn)], subscriptionCountChange := StagedCount(store, txn))
  {
    hide PayloadError, FundsMissing, StagedChange;
  }

  lemma ApplyIgnoresStaged(b: Bvs, c: Change, changes: seq<Change>, counts: map<string, int>)
    ensures Apply(b.(changes := changes, subscriptionCountChange := counts), c)
         == Apply(b, c).(changes := changes, subscriptionCountChange := counts)
    ensures Apply(b, c).changes == b.changes && Apply(b, c).subscriptionCountChange == b.subscriptionCountChange
    ensures Apply(b, c).subscriptionCount == b.subscriptionCount
  {
    hide Add;
  }

  /** Verifying successfully from a clean state and committing admits the transaction. */
  lemma VerifyCommit(b: Bvs, store: Store, maxSubscriptions: nat, txn: Txn, height: nat)
    requires Clean?(b) && height > 0 && VerifyError(b, store, maxSubscriptions, txn, height).None?
    ensures Commit(Verify(b, store, maxSubscriptions, txn, height)) == Admit(b, store, txn)
  {
    VerifyStages(b, store, maxSubscriptions, txn, height);
    hide Verify, VerifyError, Apply, AddCounts, StagedChange, StagedCount;
    var c, counts := StagedChange(store, txn), StagedCount(store, txn);
    var v := b.(changes := [c], subscriptionCountChange := counts);
    ApplyIgnoresStaged(b, c, [c], counts);
    assert v.changes[1..] == [];
    assert ApplyAll(v, v.changes) == Apply(v, c);
  }

  /** Verifying, failing and resetting leaves no trace. */
  lemma VerifyReset(b: Bvs, store: Store, maxSubscriptions: nat, txn: Txn, height: nat)
    requires Clean?(b) && height > 0
    ensures Reset(Verify(b, store, maxSubscriptions, txn, height)) == b
  {
    hide PayloadError, FundsMissing, StagedChange, CountDelta, Add;
    var staged := [StagedChange(store, txn)];
    ResetForgets(b, b.changes, b.subscriptionCountChange);
    ResetForgets(b, b.changes, CountChanged(b, store, txn).subscriptionCountChange);
    ResetForgets(b, b.changes + staged, CountChanged(b, store, txn).subscriptionCountChange);
  }

  lemma ResetForgets(b: Bvs, changes: seq<Change>, counts: map<string, int>)
    requires Clean?(b)
    ensures Reset(b.(changes := changes, subscriptionCountChange := counts)) == b
  {
  }
}
