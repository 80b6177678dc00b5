/** What a prefix of a block that passed TransactionCheck's loop is known to satisfy. */
module BlockFacts {
  import opened Common
  import opened Sums
  import opened Transactions
  import opened Ledger
  import opened BlockValidation
  import opened BlockCheck

  /** Everything a transaction is checked to be able to pay. */
  function Weight(store: Store, txn: Txn): int {
    Amount(txn) + ClaimOf(store, txn) + txn.fee
  }

  /** What the first n transactions take from s. */
  function Spent(store: Store, txns: seq<Txn>, n: nat, s: Uint160): int
    requires n <= |txns|
  {
    if n == 0 then 0
    else Spent(store, txns, n - 1, s) + if txns[n - 1].sender == s then Weight(store, txns[n - 1]) else 0
  }

  /** What the loop has established about each transaction on its own. */
  predicate TxnOk(rules: Rules, store: Store, i: nat, txn: Txn, height: nat) {
    && VerifyTransaction(rules, store, txn, height)
    && VerifyWithLedger(rules, store, txn, height)
    && (txn.payload.Coinbase? ==> i == 0)
  }

  predicate AllTxnsOk(rules: Rules, store: Store, txns: seq<Txn>, n: nat, height: nat)
    requires n <= |txns|
  {
    forall i :: 0 <= i < n ==> TxnOk(rules, store, i, txns[i], height)
  }

  /** No two transactions of the prefix share a hash, nor two nano-pays a channel. */
  predicate Distinct(txns: seq<Txn>, n: nat)
    requires n <= |txns|
  {
    forall i, j :: 0 <= i < j < n ==>
      && txns[i].hash != txns[j].hash
      && (txns[i].payload.NanoPay? && txns[j].payload.NanoPay? ==> Channel(txns[i]) != Channel(txns[j]))
  }

  /** The funds check: nobody has spent more than their balance. */
  ghost predicate Funded(store: Store, txns: seq<Txn>, n: nat)
    requires n <= |txns|
  {
    forall s :: 0 <= Spent(store, txns, n, s) && (Spent(store, txns, n, s) > 0 ==> Spent(store, txns, n, s) <= GetBalance(store, s))
  }

  /** No registration fee among the first n transactions is out of range. */
  predicate Orderly(txns: seq<Txn>, n: nat)
    requires n <= |txns|
  {
    forall i :: 0 <= i < n ==> RegistrationInRange(txns[i])
  }

  /** What the validation state remembers of the prefix. */
  ghost predicate Knows(b: Bvs, txns: seq<Txn>, n: nat)
    requires n <= |txns|
  {
    && Clean?(b)
    && (forall i :: 0 <= i < n ==> txns[i].hash in b.txnlist)
    && (forall i :: 0 <= i < n && txns[i].payload.NanoPay? ==> Channel(txns[i]) in b.nanoPays)
  }

  /** How its sums mirror the prefix. */
  ghost predicate Mirrors(store: Store, b: Bvs, txns: seq<Txn>, n: nat)
    requires n <= |txns|
  {
    forall s ::
      && 0 <= Get(b.totalAmount, s) && 0 <= Get(b.nanoPayAmount, s)
      && Get(b.totalAmount, s) + Get(b.nanoPayAmount, s) == Spent(store, txns, n, s)
  }

  lemma AdmitKnows(b: Bvs, store: Store, txn: Txn)
    requires Clean?(b)
    ensures var b' := Admit(b, store, txn);
      && Clean?(b') && b'.txnlist == b.txnlist + {txn.hash}
      && b'.nanoPays == b.nanoPays + if txn.payload.NanoPay? then {Channel(txn)} else {}
  {
    hide CountDelta, AddCounts, SubscriptionKeyOf, AlreadySubscribed, Add64, Add, Owed;
  }

  /** What a passed prefix guarantees of every block: checked and distinct transactions.  Without a
      registration fee out of range, and balances in range, also that nobody spends more than they have. */
  lemma {:induction false} PrefixFacts(rules: Rules, store: Store, txns: seq<Txn>, n: nat, height: nat)
    requires n <= |txns| && height > 0
    requires CheckPrefix(rules, store, txns, n, height).Ok?
    ensures Knows(CheckPrefix(rules, store, txns, n, height).value.bvs, txns, n)
    ensures AllTxnsOk(rules, store, txns, n, height) && Distinct(txns, n)
    ensures Orderly(txns, n) && BalancesInRange(store) ==>
      Mirrors(store, CheckPrefix(rules, store, txns, n, height).value.bvs, txns, n) && Funded(store, txns, n)
  {
    hide CheckTxn, TxnOk, BalancesInRange, RegistrationInRange;
    if n == 0 {
    } else {
      PrefixFacts(rules, store, txns, n - 1, height);
      var c := CheckPrefix(rules, store, txns, n - 1, height).value;
      StepKnows(rules, store, c, txns, n, height);
      if Orderly(txns, n) && BalancesInRange(store) {
        StepFunds(rules, store, c, txns, n, height);
      }
    }
  }

  lemma StepKnows(rules: Rules, store: Store, c: CheckState, txns: seq<Txn>, n: nat, height: nat)
    requires 0 < n <= |txns| && height > 0
    requires CheckTxn(rules, store, c, n - 1, txns[n - 1], height).Ok?
    requires Knows(c.bvs, txns, n - 1) && AllTxnsOk(rules, store, txns, n - 1, height) && Distinct(txns, n - 1)
    ensures Knows(CheckTxn(rules, store, c, n - 1, txns[n - 1], height).value.bvs, txns, n)
    ensures AllTxnsOk(rules, store, txns, n, height) && Distinct(txns, n)
  {
    hide CheckTxn, VerifyError, TxnOk, Admit, Channel, FundsMissing;
    var txn := txns[n - 1];
    CheckedFacts(rules, store, c, n - 1, txn, height);
    AdmitKnows(c.bvs, store, txn);
    VerifiedFacts(c.bvs, store, rules.maxSubscriptions, txn, height);
  }

  lemma StepFunds(rules: Rules, store: Store, c: CheckState, txns: seq<Txn>, n: nat, height: nat)
    requires 0 < n <= |txns| && height > 0 && BalancesInRange(store) && RegistrationInRange(txns[n - 1])
    requires CheckTxn(rules, store, c, n - 1, txns[n - 1], height).Ok?
    requires Mirrors(store, c.bvs, txns, n - 1) && Funded(store, txns, n - 1)
    ensures Mirrors(store, CheckTxn(rules, store, c, n - 1, txns[n - 1], height).value.bvs, txns, n)
    ensures Funded(store, txns, n)
  {
    hide CheckTxn, VerifyError, TxnOk, Admit, ClaimOf, Amount, Owed, Get, GetBalance, RegistrationInRange, Wrap64;
    var txn := txns[n - 1];
    CheckedFacts(rules, store, c, n - 1, txn, height);
    WeightNonNegative(rules, store, n - 1, txn, height);
    VerifiedFacts(c.bvs, store, rules.maxSubscriptions, txn, height);
    assert Spent(store, txns, n - 1, txn.sender) <= LEDGER_LIMIT;
    AdmitMoney(c.bvs, store, txn);
  }

  lemma CheckedFacts(rules: Rules, store: Store, c: CheckState, i: nat, txn: Txn, height: nat)
    requires height > 0 && CheckTxn(rules, store, c, i, txn, height).Ok?
    ensures TxnOk(rules, store, i, txn, height)
    ensures VerifyError(c.bvs, store, rules.maxSubscriptions, txn, height).None?
    ensures CheckTxn(rules, store, c, i, txn, height).value.bvs == Admit(c.bvs, store, txn)
  {
    hide VerifyWithLedger, Sane, VerifyError, Admit;
  }

  lemma VerifiedFacts(b: Bvs, store: Store, max: nat, txn: Txn, height: nat)
    requires height > 0 && VerifyError(b, store, max, txn, height).None?
    ensures txn.hash !in b.txnlist && !FundsMissing(b, store, txn)
    ensures txn.payload.NanoPay? ==> Channel(txn) !in b.nanoPays
  {
  }

  lemma WeightNonNegative(rules: Rules, store: Store, i: nat, txn: Txn, height: nat)
    requires TxnOk(rules, store, i, txn, height) && RegistrationInRange(txn)
    ensures CheckAmount(txn.fee) && CheckAmount(Amount(txn)) && ClaimOf(store, txn) >= 0
    ensures Owed(txn) == Amount(txn) + txn.fee
    ensures txn.payload.NanoPay? ==> ClaimOf(store, txn) > 0
  {
    hide Wrap64;
  }

  lemma FeeInRange(rules: Rules, store: Store, i: nat, txn: Txn, height: nat)
    requires TxnOk(rules, store, i, txn, height)
    ensures CheckAmount(txn.fee)
  {
    hide VerifyWithLedger;
  }

  /** Where legacy registrations are not allowed every checked fee is in range. */
  lemma LateIsOrderly(rules: Rules, store: Store, txns: seq<Txn>, n: nat, height: nat)
    requires n <= |txns| && AllTxnsOk(rules, store, txns, n, height) && height >= 7500
    ensures Orderly(txns, n)
  {
    hide VerifyWithLedger;
    forall i | 0 <= i < n ensures RegistrationInRange(txns[i]) {
      assert TxnOk(rules, store, i, txns[i], height);
    }
  }
}
