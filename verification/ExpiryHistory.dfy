/** The expiring tables against the chain that made them: overlays, tries and cleanup indexes hold exactly
    the subscriptions and channel claims a plain reading of the blocks leaves alive. */
module ExpiryHistory {
  import opened Common
  import opened Transactions
  import opened Accounts
  import opened Execution
  import opened Ledger
  import opened BlockCheck
  import opened BlockFacts
  import opened BlockExecution
  import opened ChainRuns
  import opened ExpiryRuns
  import ET = ExpiryTables

  // ----- A plain reading of the blocks -----

  datatype Sub = Sub(meta: string, expiresAt: nat)

  type Subs = map<PubSubId, Sub>

  datatype Claims = Claims(amount: int, expiresAt: nat)

  type Channels = map<ChannelId, Claims>

  /** A subscription starts or renews, with new meta data; an unsubscription ends it. */
  function SubsWith(m: Subs, t: Txn, height: nat): Subs {
    match t.payload
    case Subscribe(topic, bucket, subscriber, identifier, meta, duration) =>
      m[PubSubId(ToLower(topic), bucket, subscriber, identifier) := Sub(meta, height + duration)]
    case Unsubscribe(topic, subscriber, identifier) => m - {PubSubId(ToLower(topic), 0, subscriber, identifier)}
    case _ => m
  }

  /** A nano-pay sets what its channel has claimed, and when that ends. */
  function ChannelsWith(m: Channels, t: Txn): Channels {
    if t.payload.NanoPay? then
      m[ChannelId(t.sender, t.payload.recipient, t.payload.id) := Claims(t.payload.amount, t.payload.nanoPayExpiration)]
    else m
  }

  function SubsPrefix(m: Subs, txns: seq<Txn>, n: nat, height: nat): Subs
    requires n <= |txns|
  {
    if n == 0 then m else SubsWith(SubsPrefix(m, txns, n - 1, height), txns[n - 1], height)
  }

  function ChannelsPrefix(m: Channels, txns: seq<Txn>, n: nat): Channels
    requires n <= |txns|
  {
    if n == 0 then m else ChannelsWith(ChannelsPrefix(m, txns, n - 1), txns[n - 1])
  }

  /** What is alive after the blocks: at the end of a block whatever does not outlive it goes. */
  function SubsAfter(blocks: seq<Block>): Subs {
    if blocks == [] then map[]
    else
      var b := blocks[|blocks| - 1];
      var m := SubsPrefix(SubsAfter(blocks[..|blocks| - 1]), b.txns, |b.txns|, b.height);
      map id | id in m && m[id].expiresAt > b.height :: m[id]
  }

  function ChannelsAfter(blocks: seq<Block>): Channels {
    if blocks == [] then map[]
    else
      var b := blocks[|blocks| - 1];
      var m := ChannelsPrefix(ChannelsAfter(blocks[..|blocks| - 1]), b.txns, |b.txns|);
      map id | id in m && m[id].expiresAt > b.height :: m[id]
  }

  // ----- The tables show it -----

  function SubEntry(m: Subs, id: PubSubId): Option<ET.Entry<ET.PubSub>> {
    if id in m then Some(ET.Entry(ET.PubSub(id.subscriber, id.identifier, m[id].meta), m[id].expiresAt)) else None
  }

  function ClaimEntry(m: Channels, id: ChannelId): Option<ET.Entry<int>> {
    if id in m then Some(ET.Entry(m[id].amount, m[id].expiresAt)) else None
  }

  predicate OwnEntry(zero: ET.PubSub, id: PubSubId, e: ET.Entry<ET.PubSub>) {
    ET.Empty(zero, e) || (e.data.subscriber == id.subscriber && e.data.identifier == id.identifier)
  }

  /** Every record stored for an id, staged, committed or hidden, is of its subscriber and identifier, and
      no committed one is empty. */
  ghost predicate OwnData(t: ET.Table<PubSubId, ET.PubSub>) {
    && (forall id :: id in t.trie ==> OwnEntry(t.zero, id, t.trie[id]) && !ET.Empty(t.zero, t.trie[id]))
    && (forall id :: id in t.overlay && t.overlay[id].Some? ==> OwnEntry(t.zero, id, t.overlay[id].value))
  }

  ghost predicate ShowsSubs(t: ET.Table<PubSubId, ET.PubSub>, m: Subs) {
    OwnData(t) && forall id :: ET.Live(t, id) == SubEntry(m, id)
  }

  ghost predicate ShowsChannels(t: ET.Table<ChannelId, int>, m: Channels) {
    forall id :: ET.Live(t, id) == ClaimEntry(m, id)
  }

  // ----- Step by step -----

  /** Setting one id's record in the overlay. */
  lemma OverlayShows(t: ET.Table<PubSubId, ET.PubSub>, t': ET.Table<PubSubId, ET.PubSub>, m: Subs, m': Subs,
          id: PubSubId,
          x: Option<ET.Entry<ET.PubSub>>)
    requires ShowsSubs(t, m) && t'.trie == t.trie && t'.zero == t.zero && t'.overlay == t.overlay[id := x]
    requires x.Some? ==> OwnEntry(t.zero, id, x.value)
    requires SubEntry(m', id) == (if x.Some? && !ET.Empty(t.zero, x.value) then x else None)
    requires forall j :: j != id ==> SubEntry(m', j) == SubEntry(m, j)
    ensures ShowsSubs(t', m')
  {
    hide OwnEntry, SubEntry, ET.Empty;
    forall j ensures ET.Live(t', j) == SubEntry(m', j) {
      assert ET.Live(t, j) == SubEntry(m, j);
    }
    forall j | j in t'.overlay && t'.overlay[j].Some? ensures OwnEntry(t'.zero, j, t'.overlay[j].value) {
      assert j != id ==> j in t.overlay && t'.overlay[j] == t.overlay[j];
    }
  }

  lemma PeekIsOwn(t: ET.Table<PubSubId, ET.PubSub>, id: PubSubId)
    requires OwnData(t)
    ensures OwnEntry(t.zero, id, ET.Peek(t, id))
  {
  }

  lemma SubscribeStages(t: ET.Table<PubSubId, ET.PubSub>, id: PubSubId, meta: string, expiresAt: nat)
    requires OwnEntry(t.zero, id, ET.Peek(t, id))
    ensures var t' := ET.Subscribe(t, id, ET.PubSub(id.subscriber, id.identifier, meta), expiresAt);
      && t'.trie == t.trie && t'.zero == t.zero
      && t'.overlay == t.overlay[id := Some(ET.Entry(ET.PubSub(id.subscriber, id.identifier, meta), expiresAt))]
  {
    hide ET.PeekCleanup, ET.Peek;
  }

  lemma SubscribeShows(t: ET.Table<PubSubId, ET.PubSub>, m: Subs, id: PubSubId, meta: string, expiresAt: nat)
    requires ShowsSubs(t, m) && expiresAt > 0
    ensures ShowsSubs(ET.Subscribe(t, id, ET.PubSub(id.subscriber, id.identifier, meta), expiresAt),
      m[id := Sub(meta, expiresAt)])
  {
    hide ET.Live, ET.Subscribe, ET.Peek, OwnData;
    var t' := ET.Subscribe(t, id, ET.PubSub(id.subscriber, id.identifier, meta), expiresAt);
    PeekIsOwn(t, id);
    SubscribeStages(t, id, meta, expiresAt);
    OverlayShows(t, t', m, m[id := Sub(meta, expiresAt)], id,
      Some(ET.Entry(ET.PubSub(id.subscriber, id.identifier, meta), expiresAt)));
  }

  lemma UnsubscribeShows(t: ET.Table<PubSubId, ET.PubSub>, m: Subs, id: PubSubId)
    requires ShowsSubs(t, m)
    ensures ShowsSubs(ET.Unsubscribe(t, id), m - {id})
  {
    hide ET.Live, ET.PeekCleanup, OwnData, ET.Peek;
    var t' := ET.Unsubscribe(t, id);
    var x := if ET.Empty(t.zero, ET.Peek(t, id)) then Some(ET.Peek(t, id)) else None;
    PeekIsOwn(t, id);
    assert t'.overlay == t.overlay[id := x];
    OverlayShows(t, t', m, m - {id}, id, x);
  }

  lemma SpendShows(st: State, net: Network, t: Txn, totalFee: int, height: nat, donation: Result<int, LedgerError>,
          subs: Subs, channels: Channels)
    requires Spend(st, net, t, totalFee, false, height, donation).Ok? && ExpiryFits(t, height) && height > 0
    requires t.payload.NanoPay? ==> t.payload.amount > 0
    requires ShowsSubs(st.pubSub, subs) && ShowsChannels(st.nanoPay, channels) && st.nanoPay.zero == 0
    ensures var st' := Spend(st, net, t, totalFee, false, height, donation).value;
      ShowsSubs(st'.pubSub, SubsWith(subs, t, height)) && ShowsChannels(st'.nanoPay, ChannelsWith(channels, t))
  {
    hide Spend, ShowsSubs, ET.Claim, ET.Subscribe, ET.Unsubscribe, ET.Live, ToLower;
    SpendTables(st, net, t, totalFee, false, height, donation);
    var p := t.payload;
    if p.Subscribe? {
      SubscribeShows(st.pubSub, subs, SubId(p.topic, p.bucket, p.subscriber, p.identifier), p.meta,
        height + p.duration);
    } else if p.Unsubscribe? {
      UnsubscribeShows(st.pubSub, subs, SubId(p.topic, 0, p.subscriber, p.identifier));
    } else if p.NanoPay? {
      ET.ClaimLives(st.nanoPay, Channel(t), p.amount, p.nanoPayExpiration);
    }
  }

  /** Nothing is staged: every record is in a trie. */
  predicate Flushed(st: State) {
    st.nanoPay.overlay == map[] && st.pubSub.overlay == map[]
  }

  /** Both tables while a block executes. */
  ghost predicate Shows(st: State, subs: Subs, channels: Channels) {
    ShowsSubs(st.pubSub, subs) && ShowsChannels(st.nanoPay, channels)
  }

  lemma {:induction false} PrefixShows(rules: Rules, store: Store, b: Block, n: nat, subs: Subs, channels: Channels)
    requires 0 < b.height && ExpiriesFit(b) && Validated(rules, store, b) && n <= |b.txns|
    requires TablesOk(store.state, b.height - 1) && Shows(store.state, subs, channels)
    requires SpendPrefix(store.state, store.net, b.txns, n, TotalFee(b.txns), b.height, GetDonation(store)).Ok?
    ensures Shows(SpendPrefix(store.state, store.net, b.txns, n, TotalFee(b.txns), b.height, GetDonation(store)).value,
      SubsPrefix(subs, b.txns, n, b.height), ChannelsPrefix(channels, b.txns, n))
  {
    hide Spend, Validated, TotalFee, GetDonation, TxnOk, CheckPrefix, AllTxnsOk, ShowsSubs, ShowsChannels, SubsWith,
      ChannelsWith, TablesOk;
    if n == 0 {
    } else {
      PrefixShows(rules, store, b, n - 1, subs, channels);
      PrefixKeepsTables(rules, store, b, n - 1);
      var st := SpendPrefix(store.state, store.net, b.txns, n - 1, TotalFee(b.txns), b.height, GetDonation(store)).value;
      ValidatedLoop(rules, store, b);
      ValidatedPrefixes(rules, store, b.txns, |b.txns|, b.height);
      OneTxnOk(rules, store, b.txns, |b.txns|, n - 1, b.height);
      PositiveClaim(rules, store, n - 1, b.txns[n - 1], b.height, st);
      SpendShows(st, store.net, b.txns[n - 1], TotalFee(b.txns), b.height, GetDonation(store),
        SubsPrefix(subs, b.txns, n - 1, b.height), ChannelsPrefix(channels, b.txns, n - 1));
    }
  }

  lemma PositiveClaim(rules: Rules, store: Store, i: nat, t: Txn, height: nat, st: State)
    requires TxnOk(rules, store, i, t, height) && height > 0 && TablesOk(store.state, height - 1) && TablesOk(st, height - 1)
    ensures (t.payload.NanoPay? ==> t.payload.amount > 0) && st.nanoPay.zero == 0
  {
    hide VerifyTransaction, IndexesExact;
  }

  /** Cleaning up and committing drops exactly what does not outlive the block. */
  lemma EndShows(st: State, height: nat, subs: Subs, channels: Channels)
    requires height > 0 && TablesOk(st, height - 1) && Shows(st, subs, channels)
    ensures Flushed(FinalizeState(CleanupState(st, height)))
    ensures Shows(FinalizeState(CleanupState(st, height)),
      map id | id in subs && subs[id].expiresAt > height :: subs[id],
      map id | id in channels && channels[id].expiresAt > height :: channels[id])
  {
    hide ET.Live, ET.Due, ET.Cleanup, ET.Finalize, ET.Agree, ET.Pending, OwnData, ChannelsNonNegative;
    ET.CleanupAgrees(st.nanoPay, height);
    ET.CleanupAgrees(st.pubSub, height);
    ET.FinalizeKeeps(ET.Cleanup(st.nanoPay, height));
    ET.FinalizeKeeps(ET.Cleanup(st.pubSub, height));
    EndOwn(st.pubSub, height);
  }

  lemma EndOwn(t: ET.Table<PubSubId, ET.PubSub>, height: nat)
    requires OwnData(t)
    ensures OwnData(ET.Finalize(ET.Cleanup(t, height))) && ET.Finalize(ET.Cleanup(t, height)).overlay == map[]
  {
    hide OwnEntry, ET.PeekCleanup, ET.Finalize;
    assert OwnData(ET.Cleanup(t, height));
    FinalizeOwn(ET.Cleanup(t, height));
  }

  lemma FinalizeOwn(t: ET.Table<PubSubId, ET.PubSub>)
    requires OwnData(t)
    ensures OwnData(ET.Finalize(t)) && ET.Finalize(t).overlay == map[]
  {
    hide OwnEntry, ET.Empty;
    var kept := ET.KeptRecords(t);
    forall id | id in kept && kept[id].Some? ensures OwnEntry(t.zero, id, kept[id].value) && !ET.Empty(t.zero, kept[id].value) {
    }
    hide ET.KeptRecords;
  }

  // ----- Whole chains -----

  /** After every accepted chain the tables hold exactly the live subscriptions and claims of its blocks. */
  lemma {:induction false} TablesShowHistory(rules: Rules, net: Network, genesis: Txn, blocks: seq<Block>)
    requires AcceptedChain(rules, net, genesis, blocks) && forall i :: 0 <= i < |blocks| ==> ExpiriesFit(blocks[i])
    ensures StoreAfter(net, genesis, blocks).Ok? && Flushed(StoreAfter(net, genesis, blocks).value.state)
    ensures Shows(StoreAfter(net, genesis, blocks).value.state, SubsAfter(blocks), ChannelsAfter(blocks))
  {
    hide TransactionCheck, SaveBlock, SaveGenesis, TablesOk, ExecuteBlock, ExpiriesFit, Shows, Flushed;
    ChainIsStored(rules, net, genesis, blocks);
    if blocks == [] {
      GenesisShows(net, genesis);
    } else {
      var prev, b := blocks[..|blocks| - 1], blocks[|blocks| - 1];
      TablesShowHistory(rules, net, genesis, prev);
      ExpiryIndexAgrees(rules, net, genesis, prev);
      var store := StoreAfter(net, genesis, prev).value;
      AcceptedIsValidated(rules, store, b);
      SavedStore(store, b);
      BlockShows(rules, store, b, SubsAfter(prev), ChannelsAfter(prev));
    }
  }

  /** So the subscribers the ledger counts against the limit are the live ones of the topic and bucket. */
  lemma CountsLiveSubscribers(rules: Rules, net: Network, genesis: Txn, blocks: seq<Block>, topic: string, bucket: nat)
    requires AcceptedChain(rules, net, genesis, blocks) && forall i :: 0 <= i < |blocks| ==> ExpiriesFit(blocks[i])
    ensures StoreAfter(net, genesis, blocks).Ok?
    ensures SubscribersCount(StoreAfter(net, genesis, blocks).value, topic, bucket)
         == |set id | id in SubsAfter(blocks) && id.lowerTopic == ToLower(topic) && id.bucket == bucket|
  {
    hide AcceptedChain, StoreAfter, ExpiriesFit, Shows, SubsAfter, ToLower;
    TablesShowHistory(rules, net, genesis, blocks);
    var store := StoreAfter(net, genesis, blocks).value;
    TrieIsLive(store.state, SubsAfter(blocks), ChannelsAfter(blocks));
    var counted := set id | id in store.state.pubSub.trie && id.lowerTopic == ToLower(topic) && id.bucket == bucket;
    assert counted == set id | id in SubsAfter(blocks) && id.lowerTopic == ToLower(topic) && id.bucket == bucket;
  }

  lemma TrieIsLive(st: State, subs: Subs, channels: Channels)
    requires Shows(st, subs, channels) && Flushed(st)
    ensures st.pubSub.trie.Keys == subs.Keys
  {
    forall id ensures id in st.pubSub.trie <==> id in subs {
      assert ET.Live(st.pubSub, id) == SubEntry(subs, id);
    }
  }

  lemma BlockShows(rules: Rules, store: Store, b: Block, subs: Subs, channels: Channels)
    requires 0 < b.height && ExpiriesFit(b) && Validated(rules, store, b) && TablesOk(store.state, b.height - 1)
    requires Shows(store.state, subs, channels) && ExecuteBlock(store.state, store.net, b, GetDonation(store)).Ok?
    ensures Flushed(ExecuteBlock(store.state, store.net, b, GetDonation(store)).value)
    ensures var m, c := SubsPrefix(subs, b.txns, |b.txns|, b.height), ChannelsPrefix(channels, b.txns, |b.txns|);
      Shows(ExecuteBlock(store.state, store.net, b, GetDonation(store)).value,
        map id | id in m && m[id].expiresAt > b.height :: m[id], map id | id in c && c[id].expiresAt > b.height :: c[id])
  {
    hide Validated, TablesOk, ExpiriesFit, TotalFee, GetDonation, SpendPrefix, FinalizeState, CleanupState, Shows;
    PrefixShows(rules, store, b, |b.txns|, subs, channels);
    PrefixKeepsTables(rules, store, b, |b.txns|);
    var st := SpendPrefix(store.state, store.net, b.txns, |b.txns|, TotalFee(b.txns), b.height, GetDonation(store)).value;
    EndShows(st, b.height, SubsPrefix(subs, b.txns, |b.txns|, b.height), ChannelsPrefix(channels, b.txns, |b.txns|));
  }

  lemma GenesisShows(net: Network, coinbase: Txn)
    requires GenesisOk(net, coinbase) && SaveGenesis(net, coinbase).Ok?
    ensures Shows(SaveGenesis(net, coinbase).value.state, map[], map[])
    ensures Flushed(SaveGenesis(net, coinbase).value.state)
  {
    hide ChargeFee, BumpNonce, Credit, TotalFee;
    var st := SaveGenesis(net, coinbase).value.state;
    assert st.nanoPay == ET.Finalize(EmptyState().nanoPay) && st.pubSub == ET.Finalize(EmptyState().pubSub);
    ET.FinalizeKeeps(EmptyState().nanoPay);
    ET.FinalizeKeeps(EmptyState().pubSub);
  }
}
