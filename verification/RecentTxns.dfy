/** The recent-transaction part of TxnPool, as it updates itself. */
module RecentTxns {
  import opened Common
  import F = Fingerprints

  /** xorBytes: slices of different lengths are refused, otherwise the first is overwritten with the result. */
  method XorBytes(b1: array<bv8>, b2: seq<bv8>) returns (ok: bool)
    modifies b1
    ensures ok <==> b1.Length == |b2|
    ensures !ok ==> b1[..] == old(b1[..])
    ensures ok ==> forall k :: 0 <= k < b1.Length ==> b1[k] == old(b1[k]) ^ b2[k]
  {
    if b1.Length != |b2| {
      return false;
    }
    for i := 0 to b1.Length
      invariant forall k :: 0 <= k < i ==> b1[k] == old(b1[k]) ^ b2[k]
      invariant forall k :: i <= k < b1.Length ==> b1[k] == old(b1[k])
    {
      b1[i] := b1[i] ^ b2[i];
    }
    ok := true;
  }

  class RecentPool {
    var twtMap: seq<F.Entry>
    var twtCount: int
    var twtFingerprint: array?<bv8>

    ghost predicate Valid()
      reads this
    {
      twtFingerprint != null ==> twtFingerprint.Length == F.HASH_SIZE
    }

    ghost function View(): F.Recent
      requires Valid()
      reads this, twtFingerprint
    {
      F.Recent(twtMap, twtCount, if twtFingerprint == null then None else Some(twtFingerprint[..]))
    }

    constructor ()
      ensures Valid() && View() == F.NewRecent
    {
      twtMap, twtCount, twtFingerprint := [], 0, null;
    }

    /** updateTwtFingerprint */
    method UpdateTwtFingerprint(hash: F.Hash)
      requires Valid()
      modifies this`twtFingerprint, twtFingerprint
      ensures Valid() && View() == old(View()).(fingerprint := F.Toggled(old(View()).fingerprint, hash))
      ensures twtFingerprint == old(twtFingerprint) || fresh(twtFingerprint)
    {
      if twtFingerprint == null {
        twtFingerprint := new bv8[F.HASH_SIZE](i requires 0 <= i < F.HASH_SIZE => hash[i]);
        assert twtFingerprint[..] == hash;
      } else {
        var _ := XorBytes(twtFingerprint, hash);
        assert twtFingerprint[..] == F.Xor(old(twtFingerprint[..]), hash);
      }
    }

    /** appendTwt, at the time it reads from the clock. */
    method AppendTwt(hash: F.Hash, now: int)
      requires Valid()
      modifies this, twtFingerprint
      ensures Valid() && View() == F.Appended(old(View()), hash, now)
      ensures twtFingerprint == old(twtFingerprint) || fresh(twtFingerprint)
    {
      if F.IndexOf(twtMap, hash).None? {
        twtMap := twtMap + [F.Entry(hash, now)];
        UpdateTwtFingerprint(hash);
        twtCount := twtCount + 1;
      }
    }

    /** removeTwt */
    method RemoveTwt(hash: F.Hash) returns (removed: Option<F.Entry>)
      requires Valid()
      modifies this, twtFingerprint
      ensures Valid() && View() == F.Removed(old(View()), hash)
      ensures twtFingerprint == old(twtFingerprint) || fresh(twtFingerprint)
      ensures removed.None? ==> View() == old(View())
      ensures removed.Some? ==> removed.value in old(twtMap) && removed.value.hash == hash
    {
      var k := F.IndexOf(twtMap, hash);
      if k.None? {
        return None;
      }
      removed := Some(twtMap[k.value]);
      twtMap := F.Cut(twtMap, k.value);
      twtCount := twtCount - 1;
      UpdateTwtFingerprint(hash);
    }

    /** replaceTwt */
    method ReplaceTwt(gone: F.Hash, come: F.Hash, now: int)
      requires Valid()
      modifies this, twtFingerprint
      ensures Valid() && View() == F.Appended(F.Removed(old(View()), gone), come, now)
    {
      var _ := RemoveTwt(gone);
      AppendTwt(come, now);
    }

    /** removeFromTwtMap: the count is adjusted once, at the end. */
    method RemoveFromTwtMap(hashes: seq<F.Hash>)
      requires Valid()
      modifies this, twtFingerprint
      ensures Valid() && View() == F.RemovedAll(old(View()), hashes)
      ensures twtFingerprint == old(twtFingerprint) || fresh(twtFingerprint)
    {
      hide F.Removed, F.Toggled;
      var totalRemoved := 0;
      assert hashes[0..] == hashes;
      for i := 0 to |hashes|
        invariant Valid() && (twtFingerprint == old(twtFingerprint) || fresh(twtFingerprint))
        invariant F.RemovedAll(View().(count := twtCount - totalRemoved), hashes[i..]) == F.RemovedAll(old(View()), hashes)
      {
        assert hashes[i..][1..] == hashes[i + 1..];
        var found := DeleteOne(hashes[i], totalRemoved);
        if found {
          totalRemoved := totalRemoved + 1;
        }
      }
      assert hashes[|hashes|..] == [];
      twtCount := twtCount - totalRemoved;
    }

    /** One transaction of removeFromTwtMap, with the removals not yet counted. */
    method DeleteOne(hash: F.Hash, ghost pending: int) returns (found: bool)
      requires Valid()
      modifies this`twtMap, this`twtFingerprint, twtFingerprint
      ensures Valid() && (twtFingerprint == old(twtFingerprint) || fresh(twtFingerprint))
      ensures View().(count := twtCount - pending - if found then 1 else 0) == F.Removed(old(View()).(count := twtCount - pending), hash)
    {
      var k := F.IndexOf(twtMap, hash);
      found := k.Some?;
      if found {
        twtMap := F.Cut(twtMap, k.value);
        UpdateTwtFingerprint(hash);
      }
    }

    /** RemoveExpiredTwt */
    method RemoveExpiredTwt(now: int) returns (expired: seq<F.Entry>)
      requires Valid()
      modifies this, twtFingerprint
      ensures Valid() && View() == F.AfterExpiry(old(View()), now)
      ensures expired == old(twtMap)[..F.ExpiredPrefix(old(twtMap), now)]
    {
      hide F.Removed, F.Expired;
      var n: nat := 0;
      assert twtMap[0..] == twtMap;
      while n < |twtMap| && F.Expired(twtMap[n], now)
        invariant n <= |twtMap|
        invariant F.ExpiredPrefix(twtMap, now) == n + F.ExpiredPrefix(twtMap[n..], now)
      {
        assert twtMap[n..][0] == twtMap[n] && twtMap[n..][1..] == twtMap[n + 1..];
        n := n + 1;
      }
      assert n < |twtMap| ==> twtMap[n..][0] == twtMap[n];
      assert F.ExpiredPrefix(twtMap, now) == n;
      expired := twtMap[..n];
      DeleteEach(F.Hashes(expired));
    }

    method DeleteEach(hashes: seq<F.Hash>)
      requires Valid()
      modifies this, twtFingerprint
      ensures Valid() && View() == F.RemovedAll(old(View()), hashes)
    {
      hide F.Removed;
      assert hashes[0..] == hashes;
      for i := 0 to |hashes|
        invariant Valid() && (twtFingerprint == old(twtFingerprint) || fresh(twtFingerprint))
        invariant F.RemovedAll(View(), hashes[i..]) == F.RemovedAll(old(View()), hashes)
      {
        assert hashes[i..][1..] == hashes[i + 1..];
        var _ := RemoveTwt(hashes[i]);
      }
      assert hashes[|hashes|..] == [];
    }
  }
}
