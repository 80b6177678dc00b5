/** The state tables that expire: nano-pay channels and pub/sub subscriptions.

    Both keep a primary table (id -> record with an expiry height) and a cleanup index
    (height -> ids to drop after that block).  Each table is a trie overlaid by the entries touched
    since the last commit; a nil stored in the overlay hides the trie's entry until the overlay is
    flushed.  Record data is `zero` with expiry 0 when there is no record. */
module ExpiryTables {
  import opened Common

  datatype Entry<+V> = Entry(data: V, expiresAt: nat)

  datatype Table<Id, V> = Table(
    zero: V,
    overlay: map<Id, Option<Entry<V>>>,
    cleanup: map<nat, Option<set<Id>>>,
    trie: map<Id, Entry<V>>,
    cleanupTrie: map<nat, set<Id>>)

  predicate Empty<V(==)>(zero: V, e: Entry<V>) {
    e.data == zero && e.expiresAt == 0
  }

  /** What getNanoPay and getPubSub return: a nil in the overlay falls through to the trie. */
  function Peek<Id, V>(t: Table<Id, V>, id: Id): Entry<V> {
    if id in t.overlay && t.overlay[id].Some? then t.overlay[id].value
    else if id in t.trie then t.trie[id]
    else Entry(t.zero, 0)
  }

  /** They also leave the record in the overlay. */
  function Load<Id, V>(t: Table<Id, V>, id: Id): Table<Id, V> {
    t.(overlay := t.overlay[id := Some(Peek(t, id))])
  }

  function PeekCleanup<Id, V>(t: Table<Id, V>, height: nat): set<Id> {
    if height in t.cleanup && t.cleanup[height].Some? then t.cleanup[height].value
    else if height in t.cleanupTrie then t.cleanupTrie[height]
    else {}
  }

  function SetCleanup<Id, V>(t: Table<Id, V>, height: nat, ids: set<Id>): Table<Id, V> {
    t.(cleanup := t.cleanup[height := Some(ids)])
  }

  function CleanupAt<Id, V>(t: Table<Id, V>, height: nat, id: Id): Table<Id, V> {
    SetCleanup(t, height, PeekCleanup(t, height) + {id})
  }

  function CancelAt<Id, V>(t: Table<Id, V>, height: nat, id: Id): Table<Id, V> {
    SetCleanup(t, height, PeekCleanup(t, height) - {id})
  }

  function Put<Id, V>(t: Table<Id, V>, id: Id, e: Entry<V>): Table<Id, V> {
    t.(overlay := t.overlay[id := Some(e)])
  }

  predicate Loaded<Id, V>(t: Table<Id, V>, id: Id) {
    id in t.overlay && t.overlay[id].Some?
  }

  /** SetNanoPay: the old expiry is cancelled only when the record is in the overlay. */
  function SetNanoPay<Id, V>(t: Table<Id, V>, id: Id, balance: V, expiresAt: nat): Table<Id, V> {
    if Loaded(t, id) then
      Put(CleanupAt(CancelAt(t, t.overlay[id].value.expiresAt, id), expiresAt, id), id, Entry(balance, expiresAt))
    else
      CleanupAt(Put(t, id, Entry(balance, expiresAt)), expiresAt, id)
  }

  /** What spendTransaction does to a channel: read it, then set it. */
  function Claim<Id, V>(t: Table<Id, V>, id: Id, balance: V, expiresAt: nat): Table<Id, V> {
    SetNanoPay(Load(t, id), id, balance, expiresAt)
  }

  /** The subscriber, identifier and meta strings of a subscription. */
  datatype PubSub = PubSub(subscriber: string, identifier: string, meta: string)

  const NoPubSub := PubSub("", "", "")

  function Subscribe<Id>(t: Table<Id, PubSub>, id: Id, ps: PubSub, expiresAt: nat): Table<Id, PubSub> {
    var prev := Peek(t, id);
    var t1 := Load(t, id);
    if Empty(t.zero, prev) then
      Put(CleanupAt(t1, expiresAt, id), id, Entry(ps, expiresAt))
    else
      Put(CleanupAt(CancelAt(t1, prev.expiresAt, id), expiresAt, id), id,
          Entry(prev.data.(meta := ps.meta), expiresAt))
  }

  function Unsubscribe<Id, V(==)>(t: Table<Id, V>, id: Id): Table<Id, V> {
    var prev := Peek(t, id);
    var t1 := Load(t, id);
    if Empty(t.zero, prev) then t1
    else
      var t2 := CancelAt(t1, prev.expiresAt, id);
      t2.(overlay := t2.overlay[id := None])
  }

  /** An overlay that hides every one of the ids. */
  function Nils<Id, V>(ids: set<Id>): map<Id, Option<Entry<V>>> {
    map id | id in ids :: None
  }

  /** CleanupNanoPay and CleanupPubSub. */
  function Cleanup<Id, V>(t: Table<Id, V>, height: nat): Table<Id, V> {
    t.(overlay := t.overlay + Nils(PeekCleanup(t, height)), cleanup := t.cleanup[height := None])
  }

  /** A base map after every overlay entry has been written to it, or deleted from it. */
  function Flush<K, X>(base: map<K, X>, over: map<K, Option<X>>): map<K, X> {
    map k | k in base.Keys + over.Keys && (k in over ==> over[k].Some?) ::
      if k in over then over[k].value else base[k]
  }

  /** One step of a flush. */
  function FlushOne<K, X>(base: map<K, X>, k: K, x: Option<X>): map<K, X> {
    if x.Some? then base[k := x.value] else base - {k}
  }

  /** A flush may visit the overlay in any order. */
  lemma FlushInAnyOrder<K, X>(base: map<K, X>, over: map<K, Option<X>>, k: K)
    requires k in over
    ensures Flush(FlushOne(base, k, over[k]), over - {k}) == Flush(base, over)
  {
  }

  lemma FlushNothing<K, X>(base: map<K, X>)
    ensures Flush(base, map[]) == base
  {
  }

  /** Empty records and empty cleanup sets are deleted rather than written. */
  function KeptRecord<V(==)>(zero: V, e: Option<Entry<V>>): Option<Entry<V>> {
    if e.Some? && !Empty(zero, e.value) then e else None
  }

  function KeptIds<Id>(ids: Option<set<Id>>): Option<set<Id>> {
    if ids.Some? && ids.value != {} then ids else None
  }

  function KeptRecords<Id, V(==)>(t: Table<Id, V>): map<Id, Option<Entry<V>>> {
    map id | id in t.overlay :: KeptRecord(t.zero, t.overlay[id])
  }

  function KeptCleanup<Id, V>(t: Table<Id, V>): map<nat, Option<set<Id>>> {
    map h | h in t.cleanup :: KeptIds(t.cleanup[h])
  }

  /** FinalizeNanoPay(true) and FinalizePubSub(true): flush the overlays to the tries. */
  function Finalize<Id, V(==)>(t: Table<Id, V>): Table<Id, V> {
    t.(overlay := map[], cleanup := map[],
       trie := Flush(t.trie, KeptRecords(t)),
       cleanupTrie := Flush(t.cleanupTrie, KeptCleanup(t)))
  }

  // ----- What the table means -----

  /** The record a commit would leave, if any. */
  function Live<Id, V(==)>(t: Table<Id, V>, id: Id): Option<Entry<V>> {
    if id in t.overlay then
      if t.overlay[id].Some? && !Empty(t.zero, t.overlay[id].value) then t.overlay[id] else None
    else if id in t.trie && !Empty(t.zero, t.trie[id]) then Some(t.trie[id])
    else None
  }

  /** The cleanup set a commit would leave. */
  function Due<Id, V>(t: Table<Id, V>, height: nat): set<Id> {
    if height in t.cleanup then
      if t.cleanup[height].Some? then t.cleanup[height].value else {}
    else if height in t.cleanupTrie then t.cleanupTrie[height]
    else {}
  }

  ghost predicate LiveUntil<Id, V>(t: Table<Id, V>, id: Id, e: nat) {
    Live(t, id).Some? && Live(t, id).value.expiresAt == e
  }

  /** An id is live with expiry e exactly when it is in the cleanup set of height e. */
  ghost predicate Agree<Id(!new), V>(t: Table<Id, V>) {
    forall id, e: nat :: id in Due(t, e) <==> LiveUntil(t, id, e)
  }

  /** No cleanup set of a height still to come has been dropped in this overlay. */
  ghost predicate Pending<Id, V>(t: Table<Id, V>) {
    forall h :: h in t.cleanup ==> t.cleanup[h].Some?
  }

  ghost predicate AllExpireAfter<Id(!new), V>(t: Table<Id, V>, height: nat) {
    forall id :: Live(t, id).Some? ==> Live(t, id).value.expiresAt > height
  }

  /** Replacing the record of id, with its index entry moved along, keeps the index exact. */
  lemma MoveAgrees<Id(!new), V>(t: Table<Id, V>, t': Table<Id, V>, id: Id, now: Option<Entry<V>>)
    requires Agree(t)
    requires Live(t', id) == now && forall j :: j != id ==> Live(t', j) == Live(t, j)
    requires forall h: nat, j :: j != id ==> (j in Due(t', h) <==> j in Due(t, h))
    requires forall h: nat :: (id in Due(t, h) <==> LiveUntil(t, id, h)) ==>
      (id in Due(t', h) <==> now.Some? && h == now.value.expiresAt)
    ensures Agree(t')
  {
  }

  /** SetNanoPay keeps the index exact if and only if the record had been read first, or there was
      no record, or the expiry stays the same. */
  lemma SetNanoPayAgrees<Id(!new), V>(t: Table<Id, V>, id: Id, balance: V, expiresAt: nat)
    requires Agree(t) && Pending(t) && balance != t.zero
    ensures Agree(SetNanoPay(t, id, balance, expiresAt))
      <==> Loaded(t, id) || Live(t, id).None? || LiveUntil(t, id, expiresAt)
    ensures Live(SetNanoPay(t, id, balance, expiresAt), id) == Some(Entry(balance, expiresAt))
    ensures forall j :: j != id ==> Live(SetNanoPay(t, id, balance, expiresAt), j) == Live(t, j)
    ensures Pending(SetNanoPay(t, id, balance, expiresAt))
  {
    var t' := SetNanoPay(t, id, balance, expiresAt);
    if Loaded(t, id) || Live(t, id).None? || LiveUntil(t, id, expiresAt) {
      MoveAgrees(t, t', id, Some(Entry(balance, expiresAt)));
    } else {
      var e0 := Live(t, id).value.expiresAt;
      assert LiveUntil(t, id, e0);
      assert id in Due(t', e0) && !LiveUntil(t', id, e0);
    }
  }

  /** A committed channel set without being read leaves its old index entry behind. */
  lemma UnreadSetLeavesEntry()
    ensures var t := Table(0, map[], map[], map[1 := Entry(5, 10)], map[10 := {1}]);
      Agree(t) && Pending(t) && !Agree(SetNanoPay(t, 1, 7, 20))
  {
    var t := Table(0, map[], map[], map[1 := Entry(5, 10)], map[10 := {1}]);
    assert Agree(t);
    SetNanoPayAgrees(t, 1, 7, 20);
  }

  /** Reading the channel first makes SetNanoPay safe. */
  lemma ClaimAgrees<Id(!new), V>(t: Table<Id, V>, id: Id, balance: V, expiresAt: nat)
    requires Agree(t) && Pending(t) && balance != t.zero
    ensures Agree(Claim(t, id, balance, expiresAt)) && Pending(Claim(t, id, balance, expiresAt))
    ensures Live(Claim(t, id, balance, expiresAt), id) == Some(Entry(balance, expiresAt))
    ensures forall j :: j != id ==> Live(Claim(t, id, balance, expiresAt), j) == Live(t, j)
  {
    hide Claim, Live, Due;
    ClaimLives(t, id, balance, expiresAt);
    ClaimIsDue(t, id, balance, expiresAt);
    MoveAgrees(t, Claim(t, id, balance, expiresAt), id, Some(Entry(balance, expiresAt)));
  }

  lemma ClaimLives<Id(!new), V>(t: Table<Id, V>, id: Id, balance: V, expiresAt: nat)
    requires balance != t.zero
    ensures Live(Claim(t, id, balance, expiresAt), id) == Some(Entry(balance, expiresAt))
    ensures forall j :: j != id ==> Live(Claim(t, id, balance, expiresAt), j) == Live(t, j)
  {
  }

  lemma ClaimIsDue<Id(!new), V>(t: Table<Id, V>, id: Id, balance: V, expiresAt: nat)
    requires Pending(t)
    ensures var t' := Claim(t, id, balance, expiresAt);
      && Pending(t')
      && (forall h: nat, j :: j != id ==> (j in Due(t', h) <==> j in Due(t, h)))
      && (forall h: nat :: (id in Due(t, h) <==> LiveUntil(t, id, h)) ==> (id in Due(t', h) <==> h == expiresAt))
  {
  }

  lemma SubscribeAgrees<Id(!new)>(t: Table<Id, PubSub>, id: Id, ps: PubSub, expiresAt: nat)
    requires Agree(t) && Pending(t) && expiresAt > 0
    ensures Agree(Subscribe(t, id, ps, expiresAt)) && Pending(Subscribe(t, id, ps, expiresAt))
    ensures LiveUntil(Subscribe(t, id, ps, expiresAt), id, expiresAt)
    ensures forall j :: j != id ==> Live(Subscribe(t, id, ps, expiresAt), j) == Live(t, j)
  {
    var prev, t' := Peek(t, id), Subscribe(t, id, ps, expiresAt);
    if Empty(t.zero, prev) {
      MoveAgrees(t, t', id, Some(Entry(ps, expiresAt)));
    } else {
      MoveAgrees(t, t', id, Some(Entry(prev.data.(meta := ps.meta), expiresAt)));
    }
  }

  lemma UnsubscribeAgrees<Id(!new), V>(t: Table<Id, V>, id: Id)
    requires Agree(t) && Pending(t)
    ensures Agree(Unsubscribe(t, id)) && Pending(Unsubscribe(t, id))
    ensures Live(Unsubscribe(t, id), id).None?
    ensures forall j :: j != id ==> Live(Unsubscribe(t, id), j) == Live(t, j)
  {
    MoveAgrees(t, Unsubscribe(t, id), id, None);
  }

  /** The end-of-block cleanup drops exactly the records that expire at this height. */
  lemma CleanupAgrees<Id(!new), V>(t: Table<Id, V>, height: nat)
    requires Agree(t) && Pending(t)
    ensures Agree(Cleanup(t, height))
    ensures forall id :: Live(Cleanup(t, height), id) == (if LiveUntil(t, id, height) then None else Live(t, id))
  {
    var t' := Cleanup(t, height);
    assert PeekCleanup(t, height) == Due(t, height);
    assert forall id :: Live(t', id) == if LiveUntil(t, id, height) then None else Live(t, id);
    assert forall h: nat :: Due(t', h) == if h == height then {} else Due(t, h);
  }

  /** Committing changes neither the records nor the index. */
  lemma FinalizeKeeps<Id(!new), V>(t: Table<Id, V>)
    ensures forall id :: Live(Finalize(t), id) == Live(t, id)
    ensures forall h: nat :: Due(Finalize(t), h) == Due(t, h)
    ensures Agree(t) ==> Agree(Finalize(t))
    ensures Pending(Finalize(t)) && Finalize(t).overlay == map[]
  {
    var t' := Finalize(t);
    assert forall id :: Live(t', id) == Live(t, id);
    assert forall h: nat :: Due(t', h) == Due(t, h);
  }
}
