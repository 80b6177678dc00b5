/** What TransactionCheck accepts, said of the block alone: the running validation state and nonce map
    refine a check of each transaction against the ones before it. */
module Acceptance {
  import opened Common
  import opened Sums
  import opened Transactions
  import opened Execution
  import opened Rewards
  import opened Ledger
  import opened BlockValidation
  import opened BlockCheck
  import opened BlockFacts
  import opened Arith
  import Merkle

  // ----- What transactions of one block may not share -----

  datatype Mark =
    | HashMark(hash: Uint256)
    | NameMark(name: string)
    | RegistrantMark(registrant: string)
    | IdMark(publicKey: string)
    | SubscriptionMark(key: SubscriptionKey)
    | ChannelMark(channel: ChannelId)

  /** The marks a transaction leaves. */
  predicate Leaves(t: Txn, m: Mark) {
    var p := t.payload;
    match m
    case HashMark(hash) => t.hash == hash
    case NameMark(name) => (p.RegisterName? || p.TransferName? || p.DeleteName?) && p.name == name
    case RegistrantMark(registrant) => (p.RegisterName? || p.DeleteName?) && p.registrant == registrant
    case IdMark(publicKey) => p.GenerateID? && p.publicKey == publicKey
    case SubscriptionMark(key) => (p.Subscribe? || p.Unsubscribe?) && SubscriptionKeyOf(t) == key
    case ChannelMark(channel) => p.NanoPay? && Channel(t) == channel
  }

  /** The marks a transaction must not find: all of its own, but a transfer may follow on a name, and a
      registrant may come again once the legacy name service has ended. */
  predicate Wants(t: Txn, height: nat, m: Mark) {
    Leaves(t, m) && (m.NameMark? ==> !t.payload.TransferName?) && (m.RegistrantMark? ==> LegacyNameService(height))
  }

  predicate Seen(txns: seq<Txn>, n: nat, m: Mark)
    requires n <= |txns|
  {
    exists j :: 0 <= j < n && Leaves(txns[j], m)
  }

  /** New subscriptions less cancelled ones of a topic, among the first n transactions. */
  function TopicDelta(store: Store, txns: seq<Txn>, n: nat, topic: string): int
    requires n <= |txns|
  {
    if n == 0 then 0
    else
      var p := txns[n - 1].payload;
      TopicDelta(store, txns, n - 1, topic)
      + (if p.Subscribe? && p.topic == topic && !AlreadySubscribed(store, txns[n - 1]) then 1
         else if p.Unsubscribe? && p.topic == topic then -1 else 0)
  }

  /** How many of the first n transactions consume a nonce of a. */
  function OrdinaryBy(txns: seq<Txn>, n: nat, a: Uint160): nat
    requires n <= |txns|
  {
    if n == 0 then 0
    else OrdinaryBy(txns, n - 1, a) + if Ordinary(txns[n - 1]) && txns[n - 1].sender == a then 1 else 0
  }

  // ----- One transaction among the others -----

  function NextNonce(store: Store, txns: seq<Txn>, n: nat, a: Uint160): nat
    requires n <= |txns|
  {
    var used := OrdinaryBy(txns, n, a);
    if used == 0 then GetNonce(store, a) else (GetNonce(store, a) + used) % TWO_64
  }

  predicate NonceFits(store: Store, txns: seq<Txn>, i: nat)
    requires i < |txns|
  {
    var t := txns[i];
    && (Ordinary(t) || t.payload.Coinbase? ==> t.nonce >= GetNonce(store, t.sender))
    && (Ordinary(t) ==> t.nonce == NextNonce(store, txns, i, t.sender))
  }

  /** The ledger knows the donation and the donation account holds it; the coinbase pays reward and donation. */
  predicate CoinbaseFits(store: Store, amount: int, height: nat)
    requires height > 0
  {
    && GetDonation(store).Ok? && amount == RewardAt(height) + GetDonation(store).value
    && GetDonation(store).value <= GetBalance(store, store.net.donationAddress)
  }

  /** A new subscriber finds room, in the ledger and counting the block so far. */
  predicate HasRoom(rules: Rules, store: Store, txns: seq<Txn>, i: nat, topic: string, bucket: nat)
    requires i <= |txns|
  {
    var count := SubscribersCount(store, topic, bucket);
    rules.maxSubscriptions == 0
    || (count < rules.maxSubscriptions && count + TopicDelta(store, txns, i, topic) < rules.maxSubscriptions)
  }

  predicate PayloadFits(rules: Rules, store: Store, txns: seq<Txn>, i: nat, height: nat)
    requires i < |txns| && height > 0
  {
    var t := txns[i];
    match t.payload
    case Coinbase(_, amount) => i == 0 && CoinbaseFits(store, amount, height)
    case Subscribe(topic, bucket, _, _, _, _) => AlreadySubscribed(store, t) || HasRoom(rules, store, txns, i, topic, bucket)
    case Unsubscribe(_, _, _) => AlreadySubscribed(store, t)
    case NanoPay(_, _, amount, txnExpiration, expiration) =>
      height <= txnExpiration && height <= expiration && ChannelBalance(store, Channel(t)) < amount
    case IssueAsset(_) => t.hash !in store.state.assets
    case Unsupported => false
    case TransferAsset(_, _) => true
    case SigChainTxn => true
    case _ => rules.history(t, height)
  }

  /** Everything but the money. */
  ghost predicate Admissible(rules: Rules, store: Store, txns: seq<Txn>, i: nat, height: nat)
    requires i < |txns| && height > 0
  {
    && VerifyTransaction(rules, store, txns[i], height)
    && txns[i].hash !in store.txnHashes && NonceFits(store, txns, i)
    && (forall m :: Wants(txns[i], height, m) ==> !Seen(txns, i, m))
    && PayloadFits(rules, store, txns, i, height)
  }

  /** The sender can pay for this and everything before it. */
  predicate Affordable(store: Store, txns: seq<Txn>, i: nat)
    requires i < |txns|
  {
    Spent(store, txns, i, txns[i].sender) + Weight(store, txns[i]) <= GetBalance(store, txns[i].sender)
  }

  ghost predicate AllFit(rules: Rules, store: Store, txns: seq<Txn>, n: nat, height: nat)
    requires n <= |txns| && height > 0
  {
    forall i :: 0 <= i < n ==> Admissible(rules, store, txns, i, height) && Affordable(store, txns, i)
  }

  // ----- What the validation state knows of them -----

  predicate Marked(b: Bvs, m: Mark) {
    match m
    case HashMark(hash) => hash in b.txnlist
    case NameMark(name) => name in b.registeredNames
    case RegistrantMark(registrant) => registrant in b.nameRegistrants
    case IdMark(publicKey) => publicKey in b.generateIDs
    case SubscriptionMark(key) => key in b.subscriptions
    case ChannelMark(channel) => channel in b.nanoPays
  }

  lemma AdmitMarks(b: Bvs, store: Store, t: Txn, m: Mark)
    ensures Marked(Admit(b, store, t), m) <==> Marked(b, m) || Leaves(t, m)
  {
    hide AddCounts, StagedCount, Add64, Add, Owed, ClaimOf, AlreadySubscribed, SubscriptionKeyOf;
  }

  lemma AdmitCounts(b: Bvs, store: Store, t: Txn, topic: string)
    ensures Get(Admit(b, store, t).subscriptionCount, topic)
         == Get(b.subscriptionCount, topic)
          + (if t.payload.Subscribe? && t.payload.topic == topic && !AlreadySubscribed(store, t) then 1
             else if t.payload.Unsubscribe? && t.payload.topic == topic then -1 else 0)
  {
    hide AlreadySubscribed, Apply, StagedChange;
  }

  ghost predicate Tracks(store: Store, c: CheckState, txns: seq<Txn>, n: nat)
    requires n <= |txns|
  {
    && Clean?(c.bvs)
    && (forall m :: Marked(c.bvs, m) <==> Seen(txns, n, m))
    && (forall topic :: Get(c.bvs.subscriptionCount, topic) == TopicDelta(store, txns, n, topic))
    && (forall a :: ExpectedNonce(store, c.nonces, a) == NextNonce(store, txns, n, a))
    && (forall a :: a in c.nonces <==> OrdinaryBy(txns, n, a) > 0)
  }

  lemma SeenStep(txns: seq<Txn>, n: nat, m: Mark)
    requires 0 < n <= |txns|
    ensures Seen(txns, n, m) <==> Seen(txns, n - 1, m) || Leaves(txns[n - 1], m)
  {
    hide Leaves;
  }

  lemma NonceStep(store: Store, c: CheckState, c': CheckState, txns: seq<Txn>, n: nat)
    requires 0 < n <= |txns| && Tracks(store, c, txns, n - 1)
    requires c'.nonces == if Ordinary(txns[n - 1])
      then c.nonces[txns[n - 1].sender := (ExpectedNonce(store, c.nonces, txns[n - 1].sender) + 1) % TWO_64] else c.nonces
    ensures forall a :: a in c'.nonces <==> OrdinaryBy(txns, n, a) > 0
    ensures forall a :: ExpectedNonce(store, c'.nonces, a) == NextNonce(store, txns, n, a)
  {
    hide Ordinary, GetNonce, Seen, TopicDelta, Marked;
    forall a ensures ExpectedNonce(store, c'.nonces, a) == NextNonce(store, txns, n, a) {
      var used := OrdinaryBy(txns, n - 1, a);
      assert ExpectedNonce(store, c.nonces, a) == NextNonce(store, txns, n - 1, a);
      if used > 0 {
        ModAdd(GetNonce(store, a) + used, TWO_64);
      }
    }
  }

  lemma ModAdd(x: nat, d: nat)
    requires d > 1
    ensures (x % d + 1) % d == (x + 1) % d
  {
    ModSucc(x, d);
    if x % d + 1 == d {
      DivUnique(x % d + 1, d, 1, 0);
    } else {
      DivUnique(x % d + 1, d, 0, x % d + 1);
    }
  }

  lemma TracksStep(rules: Rules, store: Store, c: CheckState, txns: seq<Txn>, n: nat, height: nat)
    requires 0 < n <= |txns| && height > 0 && Tracks(store, c, txns, n - 1)
    requires CheckTxn(rules, store, c, n - 1, txns[n - 1], height).Ok?
    ensures Tracks(store, CheckTxn(rules, store, c, n - 1, txns[n - 1], height).value, txns, n)
  {
    hide Admit, Marked, Seen, AlreadySubscribed, VerifyError, VerifyTransaction, VerifyWithLedger, ExpectedNonce,
      NextNonce, OrdinaryBy, Get;
    var t, c' := txns[n - 1], CheckTxn(rules, store, c, n - 1, txns[n - 1], height).value;
    forall m ensures Marked(c'.bvs, m) <==> Seen(txns, n, m) {
      AdmitMarks(c.bvs, store, t, m);
      SeenStep(txns, n, m);
    }
    forall topic ensures Get(c'.bvs.subscriptionCount, topic) == TopicDelta(store, txns, n, topic) {
      AdmitCounts(c.bvs, store, t, topic);
    }
    NonceStep(store, c, c', txns, n);
    AdmitIsClean(c.bvs, store, t);
  }

  lemma {:induction false} PrefixTracks(rules: Rules, store: Store, txns: seq<Txn>, n: nat, height: nat)
    requires n <= |txns| && height > 0 && CheckPrefix(rules, store, txns, n, height).Ok?
    ensures Tracks(store, CheckPrefix(rules, store, txns, n, height).value, txns, n)
  {
    hide CheckTxn, GetNonce;
    if n == 0 {
    } else {
      hide Tracks;
      PrefixTracks(rules, store, txns, n - 1, height);
      TracksStep(rules, store, CheckPrefix(rules, store, txns, n - 1, height).value, txns, n, height);
    }
  }

  // ----- The two checks agree -----

  /** The state's and the ledger's checks of one transaction, money aside. */
  predicate Passes(rules: Rules, store: Store, c: CheckState, i: nat, t: Txn, height: nat)
    requires height > 0
  {
    && !(i != 0 && t.payload.Coinbase?) && VerifyTransaction(rules, store, t, height)
    && t.hash !in c.bvs.txnlist && PayloadError(c.bvs, store, rules.maxSubscriptions, t, height).None?
    && t.hash !in store.txnHashes
    && (!t.payload.NanoPay? && !t.payload.SigChainTxn? ==> t.nonce >= GetNonce(store, t.sender))
    && PayloadFitsLedger(rules, store, t, height)
    && (Ordinary(t) ==> t.nonce == ExpectedNonce(store, c.nonces, t.sender))
  }

  predicate Pays(store: Store, b: Bvs, t: Txn, height: nat) {
    !FundsMissing(b, store, t) && GetBalance(store, t.sender) >= LedgerAmount(store, t, height) + t.fee
  }

  lemma CheckSplits(rules: Rules, store: Store, c: CheckState, i: nat, t: Txn, height: nat)
    requires height > 0
    ensures CheckTxn(rules, store, c, i, t, height).Ok? <==> Passes(rules, store, c, i, t, height) && Pays(store, c.bvs, t, height)
  {
    hide PayloadError, PayloadFitsLedger, FundsMissing, LedgerAmount, GetBalance, GetNonce, Admit, VerifyTransaction,
      ExpectedNonce;
  }

  /** The marks a payload's own check looks for, the hash aside. */
  predicate PayloadFree(b: Bvs, t: Txn, height: nat) {
    match t.payload
    case RegisterName(name, registrant, _) =>
      name !in b.registeredNames && (LegacyNameService(height) ==> registrant !in b.nameRegistrants)
    case DeleteName(name, registrant) =>
      name !in b.registeredNames && (LegacyNameService(height) ==> registrant !in b.nameRegistrants)
    case Subscribe(_, _, _, _, _, _) => SubscriptionKeyOf(t) !in b.subscriptions
    case Unsubscribe(_, _, _) => SubscriptionKeyOf(t) !in b.subscriptions
    case GenerateID(publicKey, _) => publicKey !in b.generateIDs
    case NanoPay(_, _, _, _, _) => Channel(t) !in b.nanoPays
    case _ => true
  }

  lemma FreeIsUnmarked(b: Bvs, t: Txn, height: nat)
    ensures t.hash !in b.txnlist && PayloadFree(b, t, height) <==> forall m :: Wants(t, height, m) ==> !Marked(b, m)
  {
    hide SubscriptionKeyOf, Channel, LegacyNameService;
    if forall m :: Wants(t, height, m) ==> !Marked(b, m) {
      var p := t.payload;
      assert Wants(t, height, HashMark(t.hash));
      if p.RegisterName? || p.DeleteName? {
        assert Wants(t, height, NameMark(p.name));
        assert LegacyNameService(height) ==> Wants(t, height, RegistrantMark(p.registrant));
      } else if p.GenerateID? {
        assert Wants(t, height, IdMark(p.publicKey));
      } else if p.Subscribe? || p.Unsubscribe? {
        assert Wants(t, height, SubscriptionMark(SubscriptionKeyOf(t)));
      } else if p.NanoPay? {
        assert Wants(t, height, ChannelMark(Channel(t)));
      }
    }
  }

  lemma PayloadAgrees(rules: Rules, store: Store, b: Bvs, txns: seq<Txn>, i: nat, height: nat)
    requires i < |txns| && height > 0 && Clean?(b)
    requires forall topic :: Get(b.subscriptionCount, topic) == TopicDelta(store, txns, i, topic)
    ensures var t := txns[i];
      !(i != 0 && t.payload.Coinbase?) && PayloadError(b, store, rules.maxSubscriptions, t, height).None?
      && PayloadFitsLedger(rules, store, t, height)
      <==> PayloadFree(b, t, height) && PayloadFits(rules, store, txns, i, height)
  {
    hide GetDonation, GetBalance, AlreadySubscribed, SubscribersCount, TopicDelta, SubscriptionKeyOf, Channel,
      ChannelBalance, LegacyNameService;
  }

  lemma PassesIsAdmissible(rules: Rules, store: Store, c: CheckState, txns: seq<Txn>, i: nat, height: nat)
    requires i < |txns| && height > 0 && Tracks(store, c, txns, i)
    ensures Passes(rules, store, c, i, txns[i], height) <==> Admissible(rules, store, txns, i, height)
  {
    hide PayloadError, PayloadFitsLedger, PayloadFits, PayloadFree, VerifyTransaction, ExpectedNonce, NextNonce,
      GetNonce, Wants, Marked, Seen;
    PayloadAgrees(rules, store, c.bvs, txns, i, height);
    FreeIsUnmarked(c.bvs, txns[i], height);
  }

  lemma PaysIsAffordable(rules: Rules, store: Store, c: CheckState, txns: seq<Txn>, i: nat, height: nat)
    requires i < |txns| && height > 0 && BalancesInRange(store) && RegistrationInRange(txns[i])
    requires Mirrors(store, c.bvs, txns, i) && Funded(store, txns, i)
    requires VerifyTransaction(rules, store, txns[i], height) && PayloadFitsLedger(rules, store, txns[i], height)
    ensures Pays(store, c.bvs, txns[i], height) <==> Affordable(store, txns, i)
  {
    hide Spent, GetBalance, Get, Wrap64, PayloadFitsLedger, Amount, Owed, ClaimOf, LedgerAmount, VerifyTransaction;
    var t := txns[i];
    MoneyFacts(rules, store, t, height);
    assert Get(c.bvs.totalAmount, t.sender) + Get(c.bvs.nanoPayAmount, t.sender) == Spent(store, txns, i, t.sender);
    NoWrap(Spent(store, txns, i, t.sender) + Owed(t));
  }

  lemma NoWrap(x: int)
    requires 0 <= x < TWO_63
    ensures Wrap64(x) == x
  {
  }

  lemma MoneyFacts(rules: Rules, store: Store, t: Txn, height: nat)
    requires VerifyTransaction(rules, store, t, height) && PayloadFitsLedger(rules, store, t, height) && RegistrationInRange(t)
    ensures 0 <= Amount(t) <= MAX_SUPPLY && 0 <= t.fee <= MAX_SUPPLY && ClaimOf(store, t) >= 0
    ensures Owed(t) == Amount(t) + t.fee && 0 <= LedgerAmount(store, t, height) <= Amount(t) + ClaimOf(store, t)
  {
    hide Wrap64, GetDonation, SubscribersCount, AlreadySubscribed, ChannelBalance;
    NoWrap(Amount(t) + t.fee);
  }

  /** The loop's running sums and sets decide exactly what comparing each transaction with the ones before
      it decides. */
  lemma {:induction false} LoopIsSimple(rules: Rules, store: Store, txns: seq<Txn>, n: nat, height: nat)
    requires n <= |txns| && height > 0
    ensures CheckPrefix(rules, store, txns, n, height).Ok? ==>
      forall i :: 0 <= i < n ==> Admissible(rules, store, txns, i, height)
    ensures Orderly(txns, n) && BalancesInRange(store) ==>
      (CheckPrefix(rules, store, txns, n, height).Ok? <==> AllFit(rules, store, txns, n, height))
  {
    hide CheckTxn, Admissible, Affordable, BalancesInRange, Mirrors, Funded, Tracks, Passes, Pays, RegistrationInRange;
    if n == 0 {
    } else {
      LoopIsSimple(rules, store, txns, n - 1, height);
      if CheckPrefix(rules, store, txns, n - 1, height).Ok? {
        var c := CheckPrefix(rules, store, txns, n - 1, height).value;
        PrefixTracks(rules, store, txns, n - 1, height);
        CheckSplits(rules, store, c, n - 1, txns[n - 1], height);
        PassesIsAdmissible(rules, store, c, txns, n - 1, height);
        if Orderly(txns, n) && BalancesInRange(store) {
          PrefixFacts(rules, store, txns, n - 1, height);
          if Passes(rules, store, c, n - 1, txns[n - 1], height) {
            PassesFits(rules, store, c, n - 1, txns[n - 1], height);
            PaysIsAffordable(rules, store, c, txns, n - 1, height);
          }
        }
      }
    }
  }

  lemma PassesFits(rules: Rules, store: Store, c: CheckState, i: nat, t: Txn, height: nat)
    requires height > 0 && Passes(rules, store, c, i, t, height)
    ensures VerifyTransaction(rules, store, t, height) && PayloadFitsLedger(rules, store, t, height)
  {
  }

  // ----- The whole block -----

  /** At least one and at most 4096 transactions of at most 1 MiB, the first a coinbase, under their root. */
  predicate WellShaped(rules: Rules, b: Block) {
    && 1 <= |b.txns| <= 4096 && TotalSize(b.txns) <= 1048576 && b.txns[0].payload.Coinbase?
    && Merkle.Root(rules.pairHash, TxnHashes(b.txns)) == b.transactionsRoot
  }

  /** No winner, or one that is in the block or on the chain. */
  predicate WinnerKnown(store: Store, b: Block) {
    b.winnerHash == 0 || b.winnerHash in store.txnHashes || exists t :: t in b.txns && t.hash == b.winnerHash
  }

  /** The block executes to the state whose root it names. */
  predicate Executes(rules: Rules, store: Store, b: Block) {
    var st := ExecuteBlock(store.state, store.net, b, GetDonation(store));
    st.Ok? && rules.stateRoot(st.value) == b.stateRoot
  }

  lemma WinnerIsFound(store: Store, b: Block)
    ensures WinnerKnown(store, b) <==>
      b.winnerHash == 0 || b.winnerHash in TxnHashes(b.txns) || b.winnerHash in store.txnHashes
  {
    var hashes := TxnHashes(b.txns);
    if b.winnerHash in hashes {
      var i :| 0 <= i < |hashes| && hashes[i] == b.winnerHash;
      assert b.txns[i] in b.txns && b.txns[i].hash == b.winnerHash;
    }
    forall t | t in b.txns && t.hash == b.winnerHash ensures b.winnerHash in hashes {
      var i :| 0 <= i < |b.txns| && b.txns[i] == t;
      assert hashes[i] == t.hash;
    }
  }

  lemma CheckIsParts(rules: Rules, store: Store, b: Block)
    requires b.height > 0
    ensures TransactionCheck(rules, store, b).None? <==>
      && WellShaped(rules, b) && CheckPrefix(rules, store, b.txns, |b.txns|, b.height).Ok?
      && WinnerKnown(store, b) && Executes(rules, store, b)
  {
    hide CheckPrefix, ExecuteBlock, GetDonation, TotalSize, Merkle.Root, WinnerKnown;
    WinnerIsFound(store, b);
  }

  /** Exactly which blocks are accepted: every amount and registration fee and every balance in range,
      the check passes if and only if each part of the block fits. */
  lemma AcceptedExactly(rules: Rules, store: Store, b: Block)
    requires b.height > 0 && Orderly(b.txns, |b.txns|) && BalancesInRange(store)
    ensures TransactionCheck(rules, store, b).None? <==>
      && WellShaped(rules, b) && AllFit(rules, store, b.txns, |b.txns|, b.height)
      && WinnerKnown(store, b) && Executes(rules, store, b)
  {
    hide TransactionCheck, WellShaped, WinnerKnown, Executes, AllFit, CheckPrefix, Orderly, BalancesInRange;
    CheckIsParts(rules, store, b);
    LoopIsSimple(rules, store, b.txns, |b.txns|, b.height);
  }

  /** What acceptance guarantees of every block: the root is that of its transactions and binds them, one
      coinbase leads, the limits hold, and the winner is known. */
  lemma AcceptedGuarantees(rules: Rules, store: Store, b: Block)
    requires b.height > 0 && TransactionCheck(rules, store, b).None?
    ensures Merkle.RootMatches(rules.pairHash, TxnHashes(b.txns), b.transactionsRoot)
    ensures 1 <= |b.txns| <= 4096 && TotalSize(b.txns) <= 1048576
    ensures forall i :: 0 <= i < |b.txns| ==> (b.txns[i].payload.Coinbase? <==> i == 0)
    ensures forall i :: 0 <= i < |b.txns| ==> Admissible(rules, store, b.txns, i, b.height)
    ensures WinnerKnown(store, b) && Executes(rules, store, b)
  {
    hide TransactionCheck, WinnerKnown, Executes, CheckPrefix, Merkle.Root, TotalSize, PayloadFits, VerifyTransaction,
      NonceFits, Wants, Leaves;
    CheckIsParts(rules, store, b);
    LoopIsSimple(rules, store, b.txns, |b.txns|, b.height);
    PrefixFacts(rules, store, b.txns, |b.txns|, b.height);
    assert Merkle.NoDuplicates(TxnHashes(b.txns));
    forall i | 0 < i < |b.txns| ensures !b.txns[i].payload.Coinbase? {
      assert Admissible(rules, store, b.txns, i, b.height);
      OnlyFirst(rules, store, b.txns, i, b.height);
    }
  }

  lemma OnlyFirst(rules: Rules, store: Store, txns: seq<Txn>, i: nat, height: nat)
    requires 0 < i < |txns| && height > 0 && PayloadFits(rules, store, txns, i, height)
    ensures !txns[i].payload.Coinbase?
  {
    hide CoinbaseFits, HasRoom, AlreadySubscribed;
  }

  /** A nano-pay that fits is in time for its block, its channel lasts at least as long as it may be used, and
      it claims a positive amount within the supply. */
  lemma NanoPayFits(rules: Rules, store: Store, txns: seq<Txn>, i: nat, height: nat)
    requires i < |txns| && height > 0 && Admissible(rules, store, txns, i, height) && txns[i].payload.NanoPay?
    ensures height <= txns[i].payload.txnExpiration <= txns[i].payload.nanoPayExpiration
    ensures ChannelBalance(store, Channel(txns[i])) < txns[i].payload.amount <= 100000000000000000
  {
    hide NonceFits, Wants, Seen;
  }

  /** Two accepted blocks with one transactions root hold the same transactions, whatever chains they
      were accepted on. */
  lemma OneRootOneBlock(rules: Rules, store: Store, b: Block, store': Store, b': Block)
    requires b.height > 0 && TransactionCheck(rules, store, b).None?
    requires b'.height > 0 && TransactionCheck(rules, store', b').None? && b.transactionsRoot == b'.transactionsRoot
    requires Merkle.Injective(rules.pairHash) && Merkle.AllAtLevel(rules.pairHash, TxnHashes(b.txns), 0)
    requires Merkle.AllAtLevel(rules.pairHash, TxnHashes(b'.txns), 0)
    ensures |b.txns| == |b'.txns| && forall i :: 0 <= i < |b.txns| ==> b.txns[i].hash == b'.txns[i].hash
  {
    hide TransactionCheck, Merkle.RootMatches, Merkle.Injective, Merkle.AllAtLevel, Admissible, Executes, TotalSize;
    AcceptedGuarantees(rules, store, b);
    AcceptedGuarantees(rules, store', b');
    Merkle.RootBinds(rules.pairHash, TxnHashes(b.txns), TxnHashes(b'.txns), b.transactionsRoot);
    forall i | 0 <= i < |b.txns| ensures b.txns[i].hash == b'.txns[i].hash {
      assert TxnHashes(b.txns)[i] == b.txns[i].hash && TxnHashes(b'.txns)[i] == b'.txns[i].hash;
    }
  }
}
