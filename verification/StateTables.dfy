/** The expiring tables as StateDB holds and mutates them, proved against ExpiryTables. */
module StateTables {
  import opened Common
  import opened ExpiryTables
  import ET = ExpiryTables

  class StateTable<Id(==), V(==)> {
    const zero: V
    var overlay: map<Id, Option<Entry<V>>>
    var cleanup: map<nat, Option<set<Id>>>
    var trie: map<Id, Entry<V>>
    var cleanupTrie: map<nat, set<Id>>

    function View(): Table<Id, V>
      reads this
    {
      Table(zero, overlay, cleanup, trie, cleanupTrie)
    }

    /** NewStateDB: empty overlays over the tries of a state root. */
    constructor (t: Table<Id, V>)
      ensures View() == t.(overlay := map[], cleanup := map[])
    {
      zero := t.zero;
      overlay, cleanup := map[], map[];
      trie, cleanupTrie := t.trie, t.cleanupTrie;
    }

    /** getNanoPay, getPubSub */
    method Get(id: Id) returns (e: Entry<V>)
      modifies this
      ensures e == Peek(old(View()), id) && View() == Load(old(View()), id)
    {
      if id in overlay && overlay[id].Some? {
        e := overlay[id].value;
        assert overlay == overlay[id := overlay[id]];
        return;
      }
      e := Entry(zero, 0);
      if id in trie {
        e := trie[id];
      }
      overlay := overlay[id := Some(e)];
    }

    /** getNanoPayCleanup, getPubSubCleanup */
    method GetCleanup(height: nat) returns (ids: set<Id>)
      modifies this
      ensures ids == PeekCleanup(old(View()), height) && View() == SetCleanup(old(View()), height, ids)
    {
      if height in cleanup && cleanup[height].Some? {
        ids := cleanup[height].value;
        assert cleanup == cleanup[height := cleanup[height]];
        return;
      }
      ids := if height in cleanupTrie then cleanupTrie[height] else {};
      cleanup := cleanup[height := Some(ids)];
    }

    /** cleanupNanoPayAtHeight, cleanupPubSubAtHeight */
    method CleanupAtHeight(height: nat, id: Id)
      modifies this
      ensures View() == CleanupAt(old(View()), height, id)
    {
      var ids := GetCleanup(height);
      cleanup := cleanup[height := Some(ids + {id})];
    }

    /** cancelNanoPayCleanupAtHeight, cancelPubSubCleanupAtHeight */
    method CancelCleanupAtHeight(height: nat, id: Id)
      modifies this
      ensures View() == CancelAt(old(View()), height, id)
    {
      var ids := GetCleanup(height);
      if id in ids {
        cleanup := cleanup[height := Some(ids - {id})];
      } else {
        assert ids - {id} == ids;
      }
    }

    method SetNanoPay(id: Id, balance: V, expiresAt: nat)
      modifies this
      ensures View() == ET.SetNanoPay(old(View()), id, balance, expiresAt)
    {
      if id in overlay && overlay[id].Some? {
        CancelCleanupAtHeight(overlay[id].value.expiresAt, id);
        CleanupAtHeight(expiresAt, id);
        overlay := overlay[id := Some(Entry(balance, expiresAt))];
        return;
      }
      overlay := overlay[id := Some(Entry(balance, expiresAt))];
      CleanupAtHeight(expiresAt, id);
    }

    method Unsubscribe(id: Id)
      modifies this
      ensures View() == ET.Unsubscribe(old(View()), id)
    {
      var ps := Get(id);
      if !Empty(zero, ps) {
        CancelCleanupAtHeight(ps.expiresAt, id);
        overlay := overlay[id := None];
      }
    }

    /** CleanupNanoPay, CleanupPubSub */
    method CleanupExpired(height: nat)
      modifies this
      ensures View() == Cleanup(old(View()), height)
    {
      var ids := GetCleanup(height);
      ghost var t := View();
      var todo := ids;
      while todo != {}
        invariant overlay + Nils(todo) == t.overlay + Nils(ids)
        invariant View() == t.(overlay := overlay)
        decreases |todo|
      {
        var id :| id in todo;
        assert overlay[id := None] + Nils(todo - {id}) == overlay + Nils(todo);
        overlay := overlay[id := None];
        todo := todo - {id};
      }
      assert overlay + Nils({}) == overlay;
      cleanup := cleanup[height := None];
    }

    /** The first Range of FinalizeNanoPay and FinalizePubSub, with commit set. */
    method FlushRecords()
      modifies this`overlay, this`trie
      ensures overlay == map[] && trie == Flush(old(trie), KeptRecords(old(View())))
    {
      ghost var kept := KeptRecords(View());
      while overlay != map[]
        invariant Flush(trie, KeptRecords(View())) == Flush(old(trie), kept)
        decreases |overlay|
      {
        ghost var before := KeptRecords(View());
        var id :| id in overlay;
        FlushInAnyOrder(trie, before, id);
        trie := FlushOne(trie, id, KeptRecord(zero, overlay[id]));
        overlay := overlay - {id};
        assert KeptRecords(View()) == before - {id};
      }
      assert KeptRecords(View()) == map[];
      FlushNothing(trie);
    }

    /** The second Range. */
    method FlushCleanup()
      modifies this`cleanup, this`cleanupTrie
      ensures cleanup == map[] && cleanupTrie == Flush(old(cleanupTrie), KeptCleanup(old(View())))
    {
      ghost var kept := KeptCleanup(View());
      while cleanup != map[]
        invariant Flush(cleanupTrie, KeptCleanup(View())) == Flush(old(cleanupTrie), kept)
        decreases |cleanup|
      {
        ghost var before := KeptCleanup(View());
        var h :| h in cleanup;
        FlushInAnyOrder(cleanupTrie, before, h);
        cleanupTrie := FlushOne(cleanupTrie, h, KeptIds(cleanup[h]));
        cleanup := cleanup - {h};
        assert KeptCleanup(View()) == before - {h};
      }
      assert KeptCleanup(View()) == map[];
      FlushNothing(cleanupTrie);
    }

    /** FinalizeNanoPay and FinalizePubSub with commit set. */
    method FinalizeCommit()
      modifies this
      ensures View() == Finalize(old(View()))
    {
      FlushRecords();
      FlushCleanup();
    }
  }

  /** subscribe */
  method SubscribeIn<Id(==)>(table: StateTable<Id, PubSub>, id: Id, ps: PubSub, expiresAt: nat)
    modifies table
    ensures table.View() == Subscribe(old(table.View()), id, ps, expiresAt)
  {
    var e := table.Get(id);
    var data := e.data;
    if Empty(table.zero, e) {
      data := PubSub(ps.subscriber, ps.identifier, data.meta);
    } else {
      table.CancelCleanupAtHeight(e.expiresAt, id);
    }
    table.CleanupAtHeight(expiresAt, id);
    table.overlay := table.overlay[id := Some(Entry(data.(meta := ps.meta), expiresAt))];
  }
}
