/** The routing check on a signature chain: relay IDs close in on the last relay. */
module SigChainPath {
  import opened Arith
  import opened Common
  import opened SigHash
  import opened SigChains
  import R = RelayProtocol
  import Soundness = SigChainSoundness

  const ID_BITS := 256

  /** chord.Distance on the ring of 256-bit IDs. */
  function Distance(a: nat, b: nat): (d: nat)
    ensures d < Pow2(ID_BITS)
  {
    (b - a) % Pow2(ID_BITS)
  }

  /** The distance left to the last relay. */
  function Left(ids: seq<nat>, i: nat): nat
    requires i < |ids|
  {
    Distance(ids[i], ids[|ids| - 1])
  }

  /** Every hop at least halves the distance left, and never keeps it. */
  predicate PathOk(ids: seq<nat>) {
    forall i :: 0 < i < |ids| ==> Left(ids, i) != Left(ids, i - 1) && 2 * Left(ids, i) <= Left(ids, i - 1)
  }

  /** VerifySigChainPath up to the finger table check, on the relays' IDs. */
  method VerifySigChainPath(ids: seq<nat>) returns (ok: bool)
    requires |ids| > 0
    ensures ok <==> PathOk(ids)
  {
    hide Distance;
    var last := ids[|ids| - 1];
    var prevDistance := Distance(ids[0], last);
    for i := 1 to |ids|
      invariant prevDistance == Left(ids, i - 1)
      invariant forall j :: 0 < j < i ==> Left(ids, j) != Left(ids, j - 1) && 2 * Left(ids, j) <= Left(ids, j - 1)
    {
      var dist := Distance(ids[i], last);
      assert dist == Left(ids, i);
      if dist == prevDistance {
        return false;
      }
      if dist * 2 > prevDistance {
        return false;
      }
      prevDistance := dist;
    }
    ok := true;
  }

  lemma {:induction false} HalvingDecay(ids: seq<nat>, i: nat)
    requires PathOk(ids) && i < |ids|
    ensures Left(ids, i) * Pow2(i) <= Left(ids, 0)
    decreases i
  {
    hide Left;
    if i == 0 {
    } else {
      HalvingDecay(ids, i - 1);
      Scale(2 * Left(ids, i), Left(ids, i - 1), Pow2(i - 1));
      MulDouble(Left(ids, i), Pow2(i - 1));
    }
  }

  lemma {:induction false} StrictlyCloser(ids: seq<nat>, i: nat, j: nat)
    requires PathOk(ids) && i < j < |ids|
    ensures Left(ids, j) < Left(ids, i)
    decreases j
  {
    hide Left;
    if i < j - 1 {
      StrictlyCloser(ids, i, j - 1);
    }
    assert Left(ids, j) != Left(ids, j - 1) && 2 * Left(ids, j) <= Left(ids, j - 1);
  }

  /** An accepted path visits no relay twice and has at most 257 of them, so that a signature chain,
      with its two ends, has at most 259 elements. */
  lemma PathIsShort(ids: seq<nat>)
    requires PathOk(ids)
    ensures |ids| <= ID_BITS + 1
    ensures forall i, j :: 0 <= i < j < |ids| ==> ids[i] != ids[j]
  {
    forall i, j | 0 <= i < j < |ids| ensures ids[i] != ids[j] {
      StrictlyCloser(ids, i, j);
    }
    if |ids| > ID_BITS + 1 {
      var k := |ids| - 2;
      StrictlyCloser(ids, k, k + 1);
      HalvingDecay(ids, k);
      MulAtLeast(Left(ids, k), Pow2(k));
      Pow2Grows(ID_BITS, k);
    }
  }

  function Rung(i: nat): nat
    requires i < ID_BITS
  {
    Pow2Grows(ID_BITS - 1 - i, ID_BITS);
    Pow2(ID_BITS) - Pow2(ID_BITS - 1 - i)
  }

  /** The longest path: each relay sits a power of two before the last. */
  function Ladder(): (ids: seq<nat>)
    ensures |ids| == ID_BITS + 1
  {
    seq(ID_BITS + 1, i requires 0 <= i <= ID_BITS => if i < ID_BITS then Rung(i) else 0)
  }

  lemma LadderLeft(i: nat)
    requires i <= ID_BITS
    ensures Left(Ladder(), i) == if i < ID_BITS then Pow2(ID_BITS - 1 - i) else 0
  {
    if i < ID_BITS {
      var d := Pow2(ID_BITS - 1 - i);
      Pow2Grows(ID_BITS - 1 - i, ID_BITS - 1);
      DivUnique(0 - (Pow2(ID_BITS) - d), Pow2(ID_BITS), -1, d);
    } else {
      DivUnique(0, Pow2(ID_BITS), 0, 0);
    }
  }

  /** The bound is reached. */
  lemma LongestPath()
    ensures PathOk(Ladder()) && |Ladder()| == ID_BITS + 1
  {
    var ids := Ladder();
    forall i | 0 < i < |ids| ensures Left(ids, i) != Left(ids, i - 1) && 2 * Left(ids, i) <= Left(ids, i - 1) {
      LadderLeft(i);
      LadderLeft(i - 1);
    }
  }

  // ----- On signature chains -----

  /** Why VerifySigChainMeta would refuse an element, by its position. */
  predicate ElemMetaOk(sc: SigChain, height: nat, i: nat)
    requires i < |sc.elems|
  {
    var e := sc.elems[i];
    && (i == 0 || i == |sc.elems| - 1 ==> e.vrf == [] && e.proof == [])
    && (0 < i < |sc.elems| - 1 ==> e.vrf != [] && e.proof != [])
    && (!R.AllowHashSignature(height) ==> e.sigAlgo == SIGNATURE)
  }

  predicate MetaOk(sc: SigChain, height: nat) {
    var n := |sc.elems|;
    && n >= 3 && IsComplete(sc)
    && (sc.elems[0].id == [] || sc.elems[0].id == sc.meta.srcId)
    && sc.elems[0].id != sc.elems[1].id && sc.elems[n - 1].id != sc.elems[n - 2].id
    && sc.elems[n - 1].nextPubkey == [] && !sc.elems[0].mining && !sc.elems[n - 1].mining
    && forall i :: 0 <= i < n ==> ElemMetaOk(sc, height, i)
  }

  /** VerifySigChainMeta */
  method VerifySigChainMeta(sc: SigChain, height: nat) returns (ok: bool)
    ensures ok <==> MetaOk(sc, height)
  {
    var n := |sc.elems|;
    if n < 3 {
      return false;
    }
    if sc.elems[0].id != [] && sc.meta.srcId != sc.elems[0].id {
      return false;
    }
    if !IsComplete(sc) || sc.elems[0].id == sc.elems[1].id || sc.elems[n - 1].id == sc.elems[n - 2].id {
      return false;
    }
    if sc.elems[n - 1].nextPubkey != [] || sc.elems[0].mining || sc.elems[n - 1].mining {
      return false;
    }
    for i := 0 to n
      invariant forall k :: 0 <= k < i ==> ElemMetaOk(sc, height, k)
    {
      var e := sc.elems[i];
      ghost var good := ElemMetaOk(sc, height, i);
      if i == 0 || i == n - 1 {
        if e.vrf != [] || e.proof != [] {
          return false;
        }
      } else {
        if e.vrf == [] || e.proof == [] {
          return false;
        }
      }
      if !R.AllowHashSignature(height) && e.sigAlgo != SIGNATURE {
        return false;
      }
    }
    ok := true;
  }

  /** The relays' IDs as ring positions: everything between the two ends. */
  function RelayIds(sc: SigChain): (ids: seq<nat>)
    requires |sc.elems| >= 3
    ensures |ids| == |sc.elems| - 2
  {
    seq(|sc.elems| - 2, i requires 0 <= i < |sc.elems| - 2 => Value(sc.elems[i + 1].id))
  }

  /** A chain that passes both checks has at most 259 elements and no relay twice. */
  lemma AcceptedChainIsShort(sc: SigChain, height: nat)
    requires MetaOk(sc, height) && PathOk(RelayIds(sc))
    ensures 3 <= |sc.elems| <= ID_BITS + 3
    ensures forall i, j :: 0 < i < j < |sc.elems| - 1 ==> sc.elems[i].id != sc.elems[j].id
  {
    hide PathOk, Value;
    var ids := RelayIds(sc);
    PathIsShort(ids);
    forall i, j | 0 < i < j < |sc.elems| - 1 ensures sc.elems[i].id != sc.elems[j].id {
      assert ids[i - 1] != ids[j - 1];
      assert ids[i - 1] == Value(sc.elems[i].id) && ids[j - 1] == Value(sc.elems[j].id);
    }
  }

  /** Only a relay can be a miner or prove a VRF value.  The ends name the source and the destination, or
      leave their IDs out, and are not their own neighbours; nothing follows the destination. */
  lemma AcceptedEnds(sc: SigChain, height: nat, i: nat)
    requires MetaOk(sc, height) && i < |sc.elems|
    ensures sc.elems[i].mining || sc.elems[i].vrf != [] ==> 0 < i < |sc.elems| - 1
    ensures var first, last := sc.elems[0], sc.elems[|sc.elems| - 1];
      && (first.id != [] ==> first.id == sc.meta.srcId) && (last.id != [] ==> last.id == sc.meta.destId)
      && first.id != sc.elems[1].id && last.id != sc.elems[|sc.elems| - 2].id && last.nextPubkey == []
  {
    assert ElemMetaOk(sc, height, i);
  }

  /** The chain a journey brings back passes: when every hop signs as it does for a block of that height, and
      the two hops that meet the clients have IDs. */
  lemma JourneyPassesMeta(c: Crypto, j: R.Journey, source: SigChain, dest: Elem, sc: SigChain, height: nat)
    requires R.IsWhole(c, j, source, dest, sc) && R.KeysWork(c, j) && R.HonestSource(c, j, source)
    requires R.HonestDestination(c, j, source, dest) && source.elems[0].sigAlgo == SIGNATURE
    requires forall i :: 0 <= i < |j.hops| ==> j.hops[i].sigAlgo == R.AlgoAt(Some(height))
    requires forall i :: 0 <= i < |j.hops| ==> c.proof(j.hops[i].account.privKey, j.first.blockHash) != []
    requires j.hops[0].account.id != [] && j.hops[|j.hops| - 1].account.id != []
    ensures MetaOk(sc, height)
  {
    hide ElemOk, R.HashAt, IsComplete;
    R.WholeIsComplete(c, j, source, dest, sc);
    forall i | 0 <= i < |sc.elems| ensures ElemMetaOk(sc, height, i) {
      if 0 < i <= |j.hops| {
        assert sc.elems[i] == R.ElemOf(c, j, i - 1);
        assert Matches(c, j.hops[i - 1].account.privKey, j.hops[i - 1].account.pubKey);
      }
    }
    assert sc.elems[1] == R.ElemOf(c, j, 0) && sc.elems[|j.hops|] == R.ElemOf(c, j, |j.hops| - 1);
  }

  // ----- What the score stands for -----

  /** The hash before an element commits to every relay before it, down to the source's signature. */
  lemma {:induction false} HashBindsRelays(c: Crypto, sc: SigChain, sc': SigChain, height: nat, height': nat, i: nat)
    requires Soundness.Binding(c) && MetaOk(sc, height) && MetaOk(sc', height') && |sc.elems| == |sc'.elems|
    requires 0 < i < |sc.elems| && HashBefore(c, sc, i) == HashBefore(c, sc', i)
    ensures sc.elems[0].signature == sc'.elems[0].signature
    ensures forall k :: 0 < k < i ==> SameRelay(sc.elems[k], sc'.elems[k])
    decreases i
  {
    hide IsComplete;
    assert ElemMetaOk(sc, height, i - 1) && ElemMetaOk(sc', height', i - 1);
    if i == 1 {
    } else {
      OneRelay(c, HashBefore(c, sc, i - 1), HashBefore(c, sc', i - 1), sc.elems[i - 1], sc'.elems[i - 1]);
      HashBindsRelays(c, sc, sc', height, height', i - 1);
    }
  }

  /** The same relay making the same claims. */
  predicate SameRelay(a: Elem, b: Elem) {
    a.id == b.id && a.nextPubkey == b.nextPubkey && a.mining == b.mining && a.vrf == b.vrf
  }

  lemma OneRelay(c: Crypto, h: Bytes, h': Bytes, a: Elem, b: Elem)
    requires Soundness.Binding(c) && HashOf(c, a, h) == HashOf(c, b, h')
    ensures h == h' && SameRelay(a, b)
  {
  }

  /** Where plain hashes no longer pass for signatures, the hash a chain is scored by stands for one chain:
      accepted chains of one source and length with the same last relay hash agree on the metadata, the
      source's element and every relay. */
  lemma ScoreStandsForChain(c: Crypto, sc: SigChain, sc': SigChain, height: nat, height': nat)
    requires Soundness.Binding(c) && MetaOk(sc, height) && MetaOk(sc', height') && height >= 1200000 && height' >= 1200000
    requires SignaturesOk(c, sc) && SignaturesOk(c, sc') && |sc.elems| == |sc'.elems| && sc.meta.srcPubkey == sc'.meta.srcPubkey
    requires HashBefore(c, sc, |sc.elems| - 1) == HashBefore(c, sc', |sc.elems| - 1)
    ensures sc.meta == sc'.meta && SameRelay(sc.elems[0], sc'.elems[0])
    ensures forall k :: 0 < k < |sc.elems| - 1 ==> SameRelay(sc.elems[k], sc'.elems[k])
  {
    hide IsComplete, SignaturesOk, Soundness.Binding, HashBefore;
    HashBindsRelays(c, sc, sc', height, height', |sc.elems| - 1);
    assert ElemMetaOk(sc, height, 0) && ElemMetaOk(sc', height', 0);
    Soundness.ElemIsVouched(c, sc, 0);
    Soundness.ElemIsVouched(c, sc', 0);
    Soundness.FirstHash(c, sc);
    Soundness.FirstHash(c, sc');
    Soundness.OneContent(c, sc.meta.srcPubkey, c.metaHash(sc.meta), c.metaHash(sc'.meta), sc.elems[0], sc'.elems[0]);
    Soundness.MetaIsBound(c, sc.meta, sc'.meta);
  }
}
