/** The sets of the validation state under the same runs: hashes, names, registrants, IDs, subscriptions and
    channels are those of the transactions still committed, transfers of names aside. */
module BvsMarks {
  import opened Common
  import opened Transactions
  import opened Ledger
  import opened BlockValidation
  import opened Acceptance
  import opened BvsExactness

  ghost predicate LeftBy(committed: map<Uint256, Txn>, m: Mark) {
    exists h :: h in committed && Leaves(committed[h], m)
  }

  /** Registrants are looked up only while the legacy name service lasts. */
  predicate Consulted(height: nat, m: Mark) {
    m.RegistrantMark? ==> LegacyNameService(height)
  }

  ghost predicate MarksExact(b: Bvs, committed: map<Uint256, Txn>, height: nat) {
    forall m :: Consulted(height, m) ==> (Marked(b, m) <==> LeftBy(committed, m))
  }

  /** No two transactions leave the same mark. */
  ghost predicate Apart(committed: map<Uint256, Txn>, height: nat) {
    forall h, k, m :: h in committed && k in committed && Consulted(height, m) ==>
      (Leaves(committed[h], m) && Leaves(committed[k], m) ==> h == k)
  }

  // ----- Taking marks back -----

  lemma ForgetMarks(b: Bvs, t: Txn, m: Mark)
    ensures Marked(Forget(b.(txnlist := b.txnlist - {t.hash}), t), m) <==> Marked(b, m) && !Leaves(t, m)
  {
    hide Add, Take, SubscriptionKeyOf, Channel;
  }

  lemma CleanOneMarks(b: Bvs, t: Txn, m: Mark)
    requires CleanOne(b, t).Ok?
    ensures Marked(CleanOne(b, t).value, m) <==> Marked(b, m) && !(t.hash in b.txnlist && Leaves(t, m))
  {
    hide Forget, Take64, Owed, Amount, Leaves;
    ForgetMarks(b, t, m);
  }

  lemma CleanOneList(b: Bvs, t: Txn)
    requires CleanOne(b, t).Ok?
    ensures CleanOne(b, t).value.txnlist == b.txnlist - {t.hash}
  {
    hide Take64, Owed, Amount, Add, Take, SubscriptionKeyOf, Channel;
  }

  /** Some transaction of the list that the state knows leaves the mark. */
  ghost predicate Dropped(txnlist: set<Uint256>, txns: seq<Txn>, m: Mark) {
    exists t :: t in txns && t.hash in txnlist && Leaves(t, m)
  }

  /** Cleaning takes back exactly the marks of the transactions it cleans. */
  lemma {:induction false} CleanLoopMarks(b: Bvs, txns: seq<Txn>, byHash: map<Uint256, Txn>, m: Mark)
    requires CleanLoop(b, txns).Ok? && forall t :: t in txns ==> t.hash in byHash && byHash[t.hash] == t
    ensures Marked(CleanLoop(b, txns).value, m) <==> Marked(b, m) && !Dropped(b.txnlist, txns, m)
    decreases |txns|
  {
    hide CleanOne, Marked, Leaves;
    if txns == [] {
    } else {
      var t, rest := txns[0], txns[1..];
      var b1 := CleanOne(b, t).value;
      CleanOneMarks(b, t, m);
      CleanOneList(b, t);
      assert forall u :: u in rest ==> u in txns;
      CleanLoopMarks(b1, rest, byHash, m);
      forall u | u in txns && u.hash in b.txnlist && Leaves(u, m) ensures (t.hash in b.txnlist && Leaves(t, m)) || Dropped(b1.txnlist, rest, m) {
        if u.hash == t.hash {
          assert u == t;
        } else {
          assert u in rest && u.hash in b1.txnlist;
        }
      }
    }
  }

  lemma CleanSubmittedMarks(b: Bvs, store: Store, txns: seq<Txn>, byHash: map<Uint256, Txn>, m: Mark)
    requires CleanSubmitted(b, store, txns).Ok? && forall t :: t in txns ==> t.hash in byHash && byHash[t.hash] == t
    ensures Marked(CleanSubmitted(b, store, txns).value, m) <==> Marked(b, m) && !Dropped(b.txnlist, txns, m)
  {
    hide CleanLoop, Rebuilt, Leaves;
    CleanLoopMarks(b, txns, byHash, m);
  }

  /** Whether a transaction that stays shares a mark with one that goes. */
  ghost predicate Shared(committed: map<Uint256, Txn>, gone: set<Uint256>, height: nat) {
    exists h, k, m :: h in committed && k in committed && h !in gone && k in gone && Consulted(height, m)
      && Leaves(committed[h], m) && Leaves(committed[k], m)
  }

  lemma DroppedIsGone(b: Bvs, store: Store, committed: map<Uint256, Txn>, txns: seq<Txn>, m: Mark)
    requires Exact(b, store, committed) && Recognised(committed, txns)
    ensures Dropped(b.txnlist, txns, m) <==> exists k :: k in committed && k in HashSet(txns) && Leaves(committed[k], m)
  {
    hide Leaves, SumsExact, WithinBalances, PaymentsIndexed, SubscriptionsIndexed, Payable;
    forall t | t in txns && t.hash in b.txnlist && Leaves(t, m)
      ensures t.hash in committed && t.hash in HashSet(txns) && Leaves(committed[t.hash], m)
    {
    }
  }

  /** The exact condition: a clean leaves the marks exact if and only if no transaction that stays shares one
      with a transaction that goes. */
  lemma CleanKeepsMarksIff(b: Bvs, store: Store, committed: map<Uint256, Txn>, txns: seq<Txn>,
          byHash: map<Uint256, Txn>,
          height: nat)
    requires Exact(b, store, committed) && MarksExact(b, committed, height) && Recognised(committed, txns)
    requires CleanSubmitted(b, store, txns).Ok? && forall t :: t in txns ==> t.hash in byHash && byHash[t.hash] == t
    ensures MarksExact(CleanSubmitted(b, store, txns).value, committed - HashSet(txns), height)
      <==> !Shared(committed, HashSet(txns), height)
  {
    hide Exact, CleanSubmitted, Marked, Leaves, Consulted, HashSet;
    var gone, after := HashSet(txns), CleanSubmitted(b, store, txns).value;
    forall m ensures Marked(after, m) <==>
      Marked(b, m) && !exists k :: k in committed && k in gone && Leaves(committed[k], m)
    {
      CleanSubmittedMarks(b, store, txns, byHash, m);
      DroppedIsGone(b, store, committed, txns, m);
    }
    if Shared(committed, gone, height) {
      var h, k, m :| h in committed && k in committed && h !in gone && k in gone && Consulted(height, m)
        && Leaves(committed[h], m) && Leaves(committed[k], m);
      assert h in committed - gone && Leaves((committed - gone)[h], m);
    } else {
      forall m | Consulted(height, m) ensures Marked(after, m) <==> LeftBy(committed - gone, m) {
        StaysLeft(committed, gone, m, height);
      }
    }
  }

  lemma StaysLeft(committed: map<Uint256, Txn>, gone: set<Uint256>, m: Mark, height: nat)
    requires !Shared(committed, gone, height) && Consulted(height, m)
    ensures LeftBy(committed - gone, m) <==>
      LeftBy(committed, m) && !exists k :: k in committed && k in gone && Leaves(committed[k], m)
  {
    hide Leaves, Consulted;
    if LeftBy(committed - gone, m) {
      var h :| h in committed - gone && Leaves((committed - gone)[h], m);
      assert h in committed && Leaves(committed[h], m);
    }
    if LeftBy(committed, m) && !exists k :: k in committed && k in gone && Leaves(committed[k], m) {
      var h :| h in committed && Leaves(committed[h], m);
      assert h in committed - gone && Leaves((committed - gone)[h], m);
    }
  }

  // ----- Runs -----

  lemma VerifiedIsNew(b: Bvs, store: Store, max: nat, t: Txn, height: nat, m: Mark)
    requires height > 0 && VerifyError(b, store, max, t, height).None? && Wants(t, height, m)
    ensures !Marked(b, m)
  {
    hide FundsMissing, SubscribersCount, AlreadySubscribed, GetDonation, ChannelBalance;
    assert PayloadFree(b, t, height);
    FreeIsUnmarked(b, t, height);
  }

  lemma AdmitKeepsMarks(b: Bvs, store: Store, max: nat, t: Txn, height: nat, committed: map<Uint256, Txn>)
    requires height > 0 && VerifyError(b, store, max, t, height).None? && !t.payload.TransferName? && t.hash !in committed
    requires MarksExact(b, committed, height) && Apart(committed, height)
    ensures MarksExact(Admit(b, store, t), committed[t.hash := t], height) && Apart(committed[t.hash := t], height)
  {
    hide VerifyError, Admit, Marked, Leaves;
    var after := committed[t.hash := t];
    forall m | Consulted(height, m)
      ensures Marked(Admit(b, store, t), m) <==> LeftBy(after, m)
      ensures Leaves(t, m) ==> !LeftBy(committed, m)
    {
      AdmitMarks(b, store, t, m);
      if Leaves(t, m) {
        VerifiedIsNew(b, store, max, t, height, m);
        assert t.hash in after && Leaves(after[t.hash], m);
      }
      if LeftBy(committed, m) {
        var h :| h in committed && Leaves(committed[h], m);
        assert h in after && Leaves(after[h], m);
      }
    }
  }

  predicate NoTransfers(steps: seq<Step>) {
    forall step :: step in steps && step.Offer? ==> !step.txn.payload.TransferName?
  }

  /** After any run in which no name is transferred, the sets are exactly what the transactions still committed
      leave, and no two of them leave the same. */
  lemma {:induction false} RunMarksExact(store: Store, max: nat, height: nat, steps: seq<Step>,
          byHash: map<Uint256, Txn>)
    requires height > 0 && WellBehaved(byHash, steps) && BalancesInRange(store) && NoTransfers(steps)
    ensures Run(store, max, height, steps).Ok?
    ensures MarksExact(Run(store, max, height, steps).value, StillCommitted(store, max, height, steps), height)
    ensures Apart(StillCommitted(store, max, height, steps), height)
    decreases |steps|
  {
    hide Exact, Verify, VerifyError, Commit, Reset, CleanSubmitted, Payable, BalancesInRange, MarksExact, Apart;
    RunIsExact(store, max, height, steps, byHash);
    if steps == [] {
      NothingMarked(height);
    } else {
      var prev, step := steps[..|steps| - 1], steps[|steps| - 1];
      assert step in steps && forall x :: x in prev ==> x in steps;
      RunMarksExact(store, max, height, prev, byHash);
      RunIsExact(store, max, height, prev, byHash);
      var b, before := Run(store, max, height, prev).value, StillCommitted(store, max, height, prev);
      ExactIsClean(b, store, before);
      match step {
        case Offer(t, commit) =>
          if commit && VerifyError(b, store, max, t, height).None? {
            VerifyCommit(b, store, max, t, height);
            NotYetCommitted(b, store, max, t, height, before);
            AdmitKeepsMarks(b, store, max, t, height, before);
          } else {
            VerifyReset(b, store, max, t, height);
          }
        case CleanUp(txns) =>
          NothingShared(before, HashSet(txns), height);
          CleanKeepsMarksIff(b, store, before, txns, byHash, height);
          StillApart(before, HashSet(txns), height);
      }
    }
  }

  lemma NothingMarked(height: nat)
    ensures MarksExact(NewBvs, map[], height) && Apart(map[], height)
  {
  }

  lemma NotYetCommitted(b: Bvs, store: Store, max: nat, t: Txn, height: nat, committed: map<Uint256, Txn>)
    requires height > 0 && VerifyError(b, store, max, t, height).None? && Exact(b, store, committed)
    ensures t.hash !in committed
  {
    hide SumsExact, WithinBalances, PaymentsIndexed, SubscriptionsIndexed, Payable, PayloadError, FundsMissing;
  }

  lemma NothingShared(committed: map<Uint256, Txn>, gone: set<Uint256>, height: nat)
    requires Apart(committed, height)
    ensures !Shared(committed, gone, height)
  {
    hide Leaves, Consulted;
  }

  lemma StillApart(committed: map<Uint256, Txn>, gone: set<Uint256>, height: nat)
    requires Apart(committed, height)
    ensures Apart(committed - gone, height)
  {
    hide Leaves, Consulted;
  }

  /** With transfers it fails: cleaning the transfer of a name forgets the name although its registration is
      still committed, and another registration of it is then accepted. */
  lemma TransferForgetsName(store: Store, max: nat)
    requires GetBalance(store, 1) >= 0
    ensures var register, transfer := Txn(1, 1, RegisterName("n", "r", 0), 0, 0, 1), Txn(2, 2, TransferName("n", "s"), 0, 0, 1);
      var again := Txn(3, 1, RegisterName("n", "r", 0), 1, 0, 1);
      var b := Admit(Admit(NewBvs, store, register), store, transfer);
      && VerifyError(NewBvs, store, max, register, 1000000).None?
      && VerifyError(Admit(NewBvs, store, register), store, max, transfer, 1000000).None?
      && VerifyError(b, store, max, again, 1000000) == Some(DuplicateName)
      && CleanOne(b, transfer).Ok? && register.hash in CleanOne(b, transfer).value.txnlist
      && VerifyError(CleanOne(b, transfer).value, store, max, again, 1000000).None?
  {
    hide GetBalance, Wrap64;
  }
}
