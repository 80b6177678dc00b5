/** The subscription limit: counted by topic as written, kept by lower-cased topic.  It holds over every
    accepted chain whose blocks spell a topic one way, and two spellings in one block exceed it. */
module SubscriptionLimit {
  import opened Sums
  import opened Transactions
  import opened Ledger
  import opened BlockValidation
  import opened BlockCheck
  import opened Acceptance
  import opened ChainRuns
  import opened ExpiryRuns
  import opened ExpiryHistory
  import Merkle
  import ET = ExpiryTables

  // ----- Counting -----

  function Members(m: Subs, lower: string, bucket: nat): set<PubSubId> {
    set id | id in m && id.lowerTopic == lower && id.bucket == bucket
  }

  lemma CountWith(m: Subs, id: PubSubId, sub: Sub, lower: string, bucket: nat)
    ensures |Members(m[id := sub], lower, bucket)| == |Members(m, lower, bucket)|
      + if id.lowerTopic == lower && id.bucket == bucket && id !in m then 1 else 0
  {
    var before, after := Members(m, lower, bucket), Members(m[id := sub], lower, bucket);
    var added := if id.lowerTopic == lower && id.bucket == bucket then {id} else {};
    forall x ensures x in after <==> x in before + added {
    }
    assert after == before + added && (id in before <==> added == {id} && id in m);
    hide Members;
  }

  lemma CountWithout(m: Subs, id: PubSubId, lower: string, bucket: nat)
    ensures |Members(m - {id}, lower, bucket)| == |Members(m, lower, bucket)|
      - if id.lowerTopic == lower && id.bucket == bucket && id in m then 1 else 0
  {
    var before, after := Members(m, lower, bucket), Members(m - {id}, lower, bucket);
    forall x ensures x in after <==> x in before - {id} {
    }
    assert after == before - {id};
    hide Members;
  }

  lemma CountFewer(m: Subs, m': Subs, lower: string, bucket: nat)
    requires m'.Keys <= m.Keys
    ensures |Members(m', lower, bucket)| <= |Members(m, lower, bucket)|
  {
    SubsetCount(Members(m', lower, bucket), Members(m, lower, bucket));
  }

  lemma SubsetCount<T>(a: set<T>, b: set<T>)
    requires a <= b
    ensures |a| <= |b|
  {
    assert b == a + (b - a);
    assert |b| == |a| + |b - a|;
  }

  // ----- One block -----

  predicate About(t: Txn, lower: string) {
    (t.payload.Subscribe? || t.payload.Unsubscribe?) && ToLower(t.payload.topic) == lower
  }

  /** The transactions spell the topic one way.  There are other buckets only before height 245000, and there
      they leave them alone. */
  predicate OneSpelling(b: Block, topic: string) {
    forall i :: 0 <= i < |b.txns| && About(b.txns[i], ToLower(topic)) ==>
      && b.txns[i].payload.topic == topic
      && (b.height < 245000 && b.txns[i].payload.Subscribe? ==> b.txns[i].payload.bucket == 0)
  }

  /** The transactions spell the topic one way, and subscribe to its first bucket. */
  predicate FirstBucketOnly(txns: seq<Txn>, topic: string) {
    forall i :: 0 <= i < |txns| && About(txns[i], ToLower(topic)) ==>
      txns[i].payload.topic == topic && (txns[i].payload.Subscribe? ==> txns[i].payload.bucket == 0)
  }

  /** The subscription a transaction is about. */
  function Subject(t: Txn): PubSubId
    requires t.payload.Subscribe? || t.payload.Unsubscribe?
  {
    var k := SubscriptionKeyOf(t);
    PubSubId(ToLower(k.topic), k.bucket, k.subscriber, k.identifier)
  }

  /** The store's subscriptions are those of m. */
  ghost predicate SubscribedAs(store: Store, m: Subs) {
    forall id :: IsSubscribed(store, id) <==> id in m
  }

  /** What is not the subject of an earlier transaction is as it was. */
  lemma {:induction false} Untouched(m: Subs, txns: seq<Txn>, n: nat, height: nat, id: PubSubId)
    requires n <= |txns|
    requires forall j :: 0 <= j < n && (txns[j].payload.Subscribe? || txns[j].payload.Unsubscribe?) ==> Subject(txns[j]) != id
    ensures id in SubsPrefix(m, txns, n, height) <==> id in m
  {
    hide ToLower;
    if n == 0 {
    } else {
      Untouched(m, txns, n - 1, height, id);
    }
  }

  /** Distinct keys of one spelling are distinct subjects. */
  lemma FreshSubject(rules: Rules, store: Store, txns: seq<Txn>, i: nat, height: nat, topic: string)
    requires i < |txns| && height > 0 && Admissible(rules, store, txns, i, height) && FirstBucketOnly(txns, topic)
    requires About(txns[i], ToLower(topic))
    ensures forall j :: 0 <= j < i && (txns[j].payload.Subscribe? || txns[j].payload.Unsubscribe?) ==>
      Subject(txns[j]) != Subject(txns[i])
  {
    hide PayloadFits, NonceFits, VerifyTransaction;
    var key := SubscriptionKeyOf(txns[i]);
    assert Wants(txns[i], height, SubscriptionMark(key));
    forall j | 0 <= j < i && (txns[j].payload.Subscribe? || txns[j].payload.Unsubscribe?)
      ensures Subject(txns[j]) != Subject(txns[i])
    {
      assert !Leaves(txns[j], SubscriptionMark(key));
    }
  }

  lemma AlreadyIsMember(store: Store, m: Subs, t: Txn)
    requires SubscribedAs(store, m) && (t.payload.Subscribe? || t.payload.Unsubscribe?)
    ensures AlreadySubscribed(store, t) <==> Subject(t) in m
  {
    hide IsSubscribed, ToLower;
  }

  /** Counting the block so far counts its live subscriptions. */
  lemma {:induction false} DeltaCounts(rules: Rules, store: Store, m: Subs, txns: seq<Txn>, n: nat, height: nat,
          topic: string)
    requires n <= |txns| && height > 0 && SubscribedAs(store, m) && FirstBucketOnly(txns, topic)
    requires forall i :: 0 <= i < n ==> Admissible(rules, store, txns, i, height)
    ensures |Members(SubsPrefix(m, txns, n, height), ToLower(topic), 0)|
         == |Members(m, ToLower(topic), 0)| + TopicDelta(store, txns, n, topic)
    decreases n
  {
    hide Admissible, ToLower, AlreadySubscribed, SubscribedAs, Members;
    if n == 0 {
    } else {
      DeltaCounts(rules, store, m, txns, n - 1, height, topic);
      var before, t := SubsPrefix(m, txns, n - 1, height), txns[n - 1];
      if t.payload.Subscribe? || t.payload.Unsubscribe? {
        AlreadyIsMember(store, m, t);
        if t.payload.Subscribe? {
          CountWith(before, Subject(t), Sub(t.payload.meta, height + t.payload.duration), ToLower(topic), 0);
        } else {
          CountWithout(before, Subject(t), ToLower(topic), 0);
        }
        if About(t, ToLower(topic)) {
          FreshSubject(rules, store, txns, n - 1, height, topic);
          Untouched(m, txns, n - 1, height, Subject(t));
          CancelsOwn(rules, store, txns, n - 1, height);
        }
      }
    }
  }

  lemma CancelsOwn(rules: Rules, store: Store, txns: seq<Txn>, i: nat, height: nat)
    requires i < |txns| && height > 0 && Admissible(rules, store, txns, i, height)
    ensures txns[i].payload.Unsubscribe? ==> AlreadySubscribed(store, txns[i])
    ensures txns[i].payload.Subscribe? && !AlreadySubscribed(store, txns[i]) ==>
      HasRoom(rules, store, txns, i, txns[i].payload.topic, txns[i].payload.bucket)
  {
    hide AlreadySubscribed, HasRoom, NonceFits, VerifyTransaction, Wants;
  }

  /** Within a block the limit is kept after every transaction. */
  lemma {:induction false} BlockKeepsLimit(rules: Rules, store: Store, m: Subs, txns: seq<Txn>, n: nat, height: nat,
          topic: string)
    requires n <= |txns| && height > 0 && SubscribedAs(store, m) && FirstBucketOnly(txns, topic)
    requires forall i :: 0 <= i < n ==> Admissible(rules, store, txns, i, height)
    requires |Members(m, ToLower(topic), 0)| <= rules.maxSubscriptions && rules.maxSubscriptions > 0
    requires SubscribersCount(store, topic, 0) == |Members(m, ToLower(topic), 0)|
    ensures |Members(SubsPrefix(m, txns, n, height), ToLower(topic), 0)| <= rules.maxSubscriptions
    decreases n
  {
    hide Admissible, ToLower, AlreadySubscribed, SubscribedAs, Members, SubscribersCount;
    if n == 0 {
    } else {
      BlockKeepsLimit(rules, store, m, txns, n - 1, height, topic);
      DeltaCounts(rules, store, m, txns, n - 1, height, topic);
      DeltaCounts(rules, store, m, txns, n, height, topic);
      CancelsOwn(rules, store, txns, n - 1, height);
    }
  }

  // ----- Whole chains -----

  lemma ShownSubscriptions(store: Store, subs: Subs, channels: Channels)
    requires Shows(store.state, subs, channels) && Flushed(store.state)
    ensures SubscribedAs(store, subs)
  {
    TrieIsLive(store.state, subs, channels);
    forall id ensures IsSubscribed(store, id) <==> id in subs {
      assert ET.Live(store.state.pubSub, id) == SubEntry(subs, id);
    }
  }

  lemma NobodyYet(lower: string)
    ensures Members(map[], lower, 0) == {}
  {
  }

  lemma NoOtherBucket(rules: Rules, store: Store, b: Block, topic: string)
    requires b.height > 0 && OneSpelling(b, topic)
    requires forall i :: 0 <= i < |b.txns| ==> Admissible(rules, store, b.txns, i, b.height)
    ensures FirstBucketOnly(b.txns, topic)
  {
    hide ToLower, PayloadFits, NonceFits, Wants, Seen;
    forall i | 0 <= i < |b.txns| && b.txns[i].payload.Subscribe? ensures b.height >= 245000 ==> b.txns[i].payload.bucket == 0 {
      assert Admissible(rules, store, b.txns, i, b.height);
    }
  }

  /** One more accepted block. */
  lemma LimitStep(rules: Rules, store: Store, b: Block, subs: Subs, channels: Channels, topic: string)
    requires b.height > 0 && TransactionCheck(rules, store, b).None? && OneSpelling(b, topic)
    requires Shows(store.state, subs, channels) && Flushed(store.state) && rules.maxSubscriptions > 0
    requires SubscribersCount(store, topic, 0) == |Members(subs, ToLower(topic), 0)| <= rules.maxSubscriptions
    ensures |Members(SubsPrefix(subs, b.txns, |b.txns|, b.height), ToLower(topic), 0)| <= rules.maxSubscriptions
  {
    hide FirstBucketOnly, OneSpelling, ToLower, Members, SubscribersCount, Shows, Flushed, TransactionCheck,
      Admissible, Executes,
      WinnerKnown, TotalSize, Merkle.RootMatches, SubscribedAs, SubsPrefix;
    ShownSubscriptions(store, subs, channels);
    AcceptedGuarantees(rules, store, b);
    NoOtherBucket(rules, store, b, topic);
    BlockKeepsLimit(rules, store, subs, b.txns, |b.txns|, b.height, topic);
  }

  /** The limit holds on every accepted chain whose blocks spell the topic one way. */
  lemma {:induction false} LimitHolds(rules: Rules, net: Network, genesis: Txn, blocks: seq<Block>, topic: string)
    requires AcceptedChain(rules, net, genesis, blocks) && rules.maxSubscriptions > 0
    requires forall i :: 0 <= i < |blocks| ==> ExpiriesFit(blocks[i]) && OneSpelling(blocks[i], topic)
    ensures StoreAfter(net, genesis, blocks).Ok?
    ensures |Members(SubsAfter(blocks), ToLower(topic), 0)| <= rules.maxSubscriptions
    ensures SubscribersCount(StoreAfter(net, genesis, blocks).value, topic, 0) <= rules.maxSubscriptions
    decreases |blocks|
  {
    hide AcceptedChain, StoreAfter, ExpiriesFit, OneSpelling, ToLower, Members, SubscribersCount, Shows, Flushed,
      TransactionCheck, SaveBlock;
    CountsLiveSubscribers(rules, net, genesis, blocks, topic, 0);
    CountIsMembers(SubsAfter(blocks), topic);
    if blocks == [] {
      NobodyYet(ToLower(topic));
    } else {
      var n := |blocks| - 1;
      var prev, b := blocks[..n], blocks[n];
      LastAccepted(rules, net, genesis, blocks);
      LimitHolds(rules, net, genesis, prev, topic);
      TablesShowHistory(rules, net, genesis, prev);
      CountsLiveSubscribers(rules, net, genesis, prev, topic, 0);
      CountIsMembers(SubsAfter(prev), topic);
      LimitStep(rules, StoreAfter(net, genesis, prev).value, b, SubsAfter(prev), ChannelsAfter(prev), topic);
      CountFewer(SubsPrefix(SubsAfter(prev), b.txns, |b.txns|, b.height), SubsAfter(blocks), ToLower(topic), 0);
    }
  }

  lemma CountIsMembers(m: Subs, topic: string)
    ensures Members(m, ToLower(topic), 0) == set id | id in m && id.lowerTopic == ToLower(topic) && id.bucket == 0
  {
  }

  const LowerCase := Txn(1, 1, Subscribe("a", 0, "s", "", "", 1), 0, 0, 1)
  const UpperCase := Txn(2, 2, Subscribe("A", 0, "t", "", "", 1), 0, 0, 1)

  /** A free subscription with a new key and room by its own spelling passes the state's check. */
  lemma SubscribeVerifies(b: Bvs, store: Store, max: nat, t: Txn, height: nat)
    requires height > 0 && t.payload.Subscribe? && t.fee == 0 && t.hash !in b.txnlist && SubscriptionKeyOf(t) !in b.subscriptions
    requires SubscribersCount(store, t.payload.topic, t.payload.bucket) + Get(b.subscriptionCount, t.payload.topic)
      + Get(b.subscriptionCountChange, t.payload.topic) < max
    ensures VerifyError(b, store, max, t, height).None?
  {
    hide GetBalance, SubscribersCount, IsSubscribed;
  }

  /** Two spellings of one topic: each alone respects a limit of one, and both are accepted. */
  lemma SpellingsExceedLimit(store: Store)
    requires SubscribersCount(store, "a", 0) == SubscribersCount(store, "A", 0) == 0
    ensures VerifyError(NewBvs, store, 1, LowerCase, 1).None?
    ensures VerifyError(Admit(NewBvs, store, LowerCase), store, 1, UpperCase, 1).None?
    ensures |Members(SubsPrefix(map[], [LowerCase, UpperCase], 2, 1), "a", 0)| == 2
  {
    hide SubscribersCount, VerifyError, Members, SubsPrefix, Admit, Marked, AlreadySubscribed;
    var b, key := Admit(NewBvs, store, LowerCase), SubscriptionKeyOf(UpperCase);
    SubscribeVerifies(NewBvs, store, 1, LowerCase, 1);
    AdmitIsClean(NewBvs, store, LowerCase);
    AdmitCounts(NewBvs, store, LowerCase, "A");
    AdmitMarks(NewBvs, store, LowerCase, HashMark(2));
    AdmitMarks(NewBvs, store, LowerCase, SubscriptionMark(key));
    NotMarked(b, key);
    assert "a" != "A";
    SubscribeVerifies(b, store, 1, UpperCase, 1);
    BothLive();
  }

  lemma NotMarked(b: Bvs, key: SubscriptionKey)
    ensures Marked(b, HashMark(2)) <==> 2 in b.txnlist
    ensures Marked(b, SubscriptionMark(key)) <==> key in b.subscriptions
    ensures !Marked(NewBvs, HashMark(2)) && !Marked(NewBvs, SubscriptionMark(key))
  {
  }

  lemma BothLive()
    ensures |Members(SubsPrefix(map[], [LowerCase, UpperCase], 2, 1), "a", 0)| == 2
  {
    var txns := [LowerCase, UpperCase];
    assert ToLower("a") == "a" && ToLower("A") == "a";
    var one, two := PubSubId("a", 0, "s", ""), PubSubId("a", 0, "t", "");
    assert SubsPrefix(map[], txns, 1, 1) == map[one := Sub("", 2)];
    assert SubsPrefix(map[], txns, 2, 1) == map[one := Sub("", 2), two := Sub("", 2)];
    assert Members(map[one := Sub("", 2), two := Sub("", 2)], "a", 0) == {one, two};
  }
}
