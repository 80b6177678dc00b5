/** What an accepted signature chain guarantees: every element is vouched for by the key the one before
    names, and nothing in the chain can be changed while its signatures stay. */
module SigChainSoundness {
  import opened Common
  import opened SigChains

  // ----- The chain as a walk -----

  /** Who vouches for the next element, and for what it continues. */
  datatype Walk = Walk(hash: Bytes, key: Bytes)

  function Start(c: Crypto, meta: Meta): Walk {
    Walk(c.metaHash(meta), meta.srcPubkey)
  }

  /** The digest an element commits to; the last element of a complete chain continues one more digest. */
  function Committed(c: Crypto, w: Walk, e: Elem, closing: bool): Bytes {
    c.elemHash(if closing then c.sha256(w.hash) else w.hash, e.id, e.nextPubkey, e.mining, e.vrf)
  }

  /** The key has signed the digest, or the element repeats it. */
  predicate Vouched(c: Crypto, key: Bytes, digest: Bytes, e: Elem) {
    match e.sigAlgo
    case SIGNATURE => c.verify(key, digest, e.signature)
    case HASH => e.signature == digest
    case UNKNOWN => false
  }

  /** Element after element from a point of the walk: good keys, vouched digests, proven VRF values. */
  predicate Attested(c: Crypto, meta: Meta, w: Walk, es: seq<Elem>, complete: bool)
    decreases |es|
  {
    es != [] ==>
      var e, digest := es[0], Committed(c, w, es[0], complete && |es| == 1);
      && c.goodKey(w.key) && Vouched(c, w.key, digest, e)
      && (e.vrf != [] ==> c.verifyVrf(w.key, meta.blockHash, e.vrf, e.proof))
      && Attested(c, meta, Step(c, meta, w, es, complete), es[1..], complete)
  }

  /** Past the first element; the last relay of a complete chain may leave the destination's key out. */
  function Step(c: Crypto, meta: Meta, w: Walk, es: seq<Elem>, complete: bool): Walk
    requires es != []
  {
    var e := es[0];
    Walk(
      if e.vrf == [] then e.signature else Committed(c, w, e, complete && |es| == 1),
      if complete && |es| == 2 && e.nextPubkey == [] then meta.destPubkey else e.nextPubkey)
  }

  /** Where the walk stands before element i. */
  function Before(c: Crypto, sc: SigChain, i: nat): Walk
    requires i <= |sc.elems|
  {
    Walk(HashBefore(c, sc, i), KeyBefore(sc, i))
  }

  lemma StepIsBefore(c: Crypto, sc: SigChain, i: nat)
    requires i < |sc.elems| && !(IsComplete(sc) && i == |sc.elems| - 1)
    ensures Step(c, sc.meta, Before(c, sc, i), sc.elems[i..], IsComplete(sc)) == Before(c, sc, i + 1)
  {
    hide IsComplete;
  }

  predicate OkFrom(c: Crypto, sc: SigChain, i: nat)
    requires i <= |sc.elems|
  {
    forall k :: i <= k < |sc.elems| ==> ElemOk(c, sc, k)
  }

  /** The walk's own check of one element is the verifier's. */
  lemma FirstIsVerified(c: Crypto, sc: SigChain, i: nat)
    requires i < |sc.elems|
    ensures
      var w, e := Before(c, sc, i), sc.elems[i];
      ElemOk(c, sc, i) <==>
        && c.goodKey(w.key) && Vouched(c, w.key, Committed(c, w, e, IsComplete(sc) && i == |sc.elems| - 1), e)
        && (e.vrf != [] ==> c.verifyVrf(w.key, sc.meta.blockHash, e.vrf, e.proof))
  {
    hide IsComplete, HashBefore, KeyBefore;
  }

  lemma {:induction false} WalkIsVerified(c: Crypto, sc: SigChain, i: nat)
    requires i <= |sc.elems|
    ensures Attested(c, sc.meta, Before(c, sc, i), sc.elems[i..], IsComplete(sc)) <==> OkFrom(c, sc, i)
    decreases |sc.elems| - i
  {
    hide IsComplete, Before, ElemOk, Vouched, Committed, Step;
    var es := sc.elems[i..];
    if i == |sc.elems| {
    } else {
      assert es[0] == sc.elems[i] && es[1..] == sc.elems[i + 1..];
      WalkIsVerified(c, sc, i + 1);
      FirstIsVerified(c, sc, i);
      if i < |sc.elems| - 1 {
        StepIsBefore(c, sc, i);
      }
    }
  }

  /** The verifier accepts exactly the chains in which, from the source on, every element's digest over
      everything before it is vouched for by the key the element before names. */
  lemma VerifiedIsAttested(c: Crypto, sc: SigChain)
    ensures SignaturesOk(c, sc) <==> Attested(c, sc.meta, Start(c, sc.meta), sc.elems, IsComplete(sc))
  {
    hide IsComplete, ElemOk, Attested;
    WalkIsVerified(c, sc, 0);
    assert sc.elems[0..] == sc.elems && Before(c, sc, 0) == Start(c, sc.meta);
  }

  // ----- Nothing can be changed -----

  /** Hashes are injective and never their own digest, a signature fits one message, the empty key is no key. */
  ghost predicate Binding(c: Crypto) {
    && (forall h, i, k, m, v, h', i', k', m', v' :: c.elemHash(h, i, k, m, v) == c.elemHash(h', i', k', m', v') ==>
          h == h' && i == i' && k == k' && m == m' && v == v')
    && (forall a, b :: c.metaHash(a) == c.metaHash(b) ==> a == b)
    && (forall h :: c.sha256(h) != h)
    && (forall k, m, m', s :: c.verify(k, m, s) && c.verify(k, m', s) ==> m == m')
    && !c.goodKey([])
  }

  /** Everything an element says, its proof aside. */
  predicate SameClaims(a: Elem, b: Elem) {
    a.(proof := []) == b.(proof := [])
  }

  predicate SameSignatures(a: seq<Elem>, b: seq<Elem>) {
    |a| == |b| && forall i :: 0 <= i < |a| ==> a[i].signature == b[i].signature && a[i].sigAlgo == b[i].sigAlgo
  }

  /** One vouched signature, one digest, one content. */
  lemma OneContent(c: Crypto, key: Bytes, h: Bytes, h': Bytes, a: Elem, b: Elem)
    requires Binding(c) && a.signature == b.signature && a.sigAlgo == b.sigAlgo
    requires Vouched(c, key, c.elemHash(h, a.id, a.nextPubkey, a.mining, a.vrf), a)
    requires Vouched(c, key, c.elemHash(h', b.id, b.nextPubkey, b.mining, b.vrf), b)
    ensures h == h' && SameClaims(a, b)
  {
  }

  lemma ElemIsVouched(c: Crypto, sc: SigChain, i: nat)
    requires i < |sc.elems| && SignaturesOk(c, sc)
    ensures c.goodKey(KeyBefore(sc, i)) && Vouched(c, KeyBefore(sc, i), SignedHash(c, sc, i), sc.elems[i])
  {
    hide KeyBefore, SignedHash;
    assert ElemOk(c, sc, i);
  }

  /** Equal hashes and keys before a relay leave one content for it, and one hash after it. */
  lemma NextIsBound(c: Crypto, sc: SigChain, sc': SigChain, k: nat)
    requires Binding(c) && SignaturesOk(c, sc) && SignaturesOk(c, sc') && SameSignatures(sc.elems, sc'.elems)
    requires k + 1 < |sc.elems| && KeyBefore(sc, k) == KeyBefore(sc', k)
    requires k > 0 ==> HashBefore(c, sc, k) == HashBefore(c, sc', k)
    ensures HashBefore(c, sc, k) == HashBefore(c, sc', k) && SameClaims(sc.elems[k], sc'.elems[k])
    ensures HashBefore(c, sc, k + 1) == HashBefore(c, sc', k + 1)
  {
    hide SignaturesOk, Binding, IsComplete, KeyBefore;
    ElemIsVouched(c, sc, k);
    ElemIsVouched(c, sc', k);
    OneContent(c, KeyBefore(sc, k), HashBefore(c, sc, k), HashBefore(c, sc', k), sc.elems[k], sc'.elems[k]);
  }

  /** The relays: from the source's key on, each element pins the next. */
  lemma {:induction false} RelaysAreBound(c: Crypto, sc: SigChain, sc': SigChain, i: nat)
    requires Binding(c) && SignaturesOk(c, sc) && SignaturesOk(c, sc') && SameSignatures(sc.elems, sc'.elems)
    requires sc.meta.srcPubkey == sc'.meta.srcPubkey && 0 < i < |sc.elems|
    ensures sc.meta == sc'.meta && HashBefore(c, sc, i) == HashBefore(c, sc', i)
    ensures forall k :: 0 <= k < i ==> SameClaims(sc.elems[k], sc'.elems[k])
    decreases i
  {
    hide SignaturesOk, Binding, HashBefore, SameClaims;
    var k := i - 1;
    if k > 0 {
      RelaysAreBound(c, sc, sc', k);
      SameNextKey(sc, sc', k);
      NextIsBound(c, sc, sc', k);
    } else {
      NextIsBound(c, sc, sc', 0);
      FirstHash(c, sc);
      FirstHash(c, sc');
      MetaIsBound(c, sc.meta, sc'.meta);
    }
  }

  lemma FirstHash(c: Crypto, sc: SigChain)
    ensures HashBefore(c, sc, 0) == c.metaHash(sc.meta)
  {
  }

  lemma SameNextKey(sc: SigChain, sc': SigChain, k: nat)
    requires 0 < k < |sc.elems| - 1 && |sc.elems| == |sc'.elems| && SameClaims(sc.elems[k - 1], sc'.elems[k - 1])
    ensures KeyBefore(sc, k) == KeyBefore(sc', k)
  {
    hide IsComplete;
  }

  lemma MetaIsBound(c: Crypto, m: Meta, m': Meta)
    requires Binding(c) && c.metaHash(m) == c.metaHash(m')
    ensures m == m'
  {
  }

  /** The last element, whose digest depends on whether the chain is complete. */
  lemma LastIsBound(c: Crypto, sc: SigChain, sc': SigChain)
    requires Binding(c) && SignaturesOk(c, sc) && SignaturesOk(c, sc') && SameSignatures(sc.elems, sc'.elems)
    requires var n := |sc.elems| - 1; n >= 0 && sc.meta.srcPubkey == sc'.meta.srcPubkey && HashBefore(c, sc, n) == HashBefore(c, sc', n)
    requires var n := |sc.elems| - 1; n > 0 ==> sc.meta == sc'.meta && SameClaims(sc.elems[n - 1], sc'.elems[n - 1])
    ensures SameClaims(sc.elems[|sc.elems| - 1], sc'.elems[|sc.elems| - 1])
  {
    hide SignaturesOk, HashBefore;
    var n := |sc.elems| - 1;
    ElemIsVouched(c, sc, n);
    ElemIsVouched(c, sc', n);
    var h, h' := HashBefore(c, sc, n), HashBefore(c, sc', n);
    var b, b' := if IsComplete(sc) then c.sha256(h) else h, if IsComplete(sc') then c.sha256(h') else h';
    assert KeyBefore(sc, n) == KeyBefore(sc', n);
    OneContent(c, KeyBefore(sc, n), b, b', sc.elems[n], sc'.elems[n]);
  }

  /** Two accepted chains of one source key with the same signatures are the same chain, VRF proofs aside. */
  lemma ChainIsBound(c: Crypto, sc: SigChain, sc': SigChain)
    requires Binding(c) && SignaturesOk(c, sc) && SignaturesOk(c, sc') && SameSignatures(sc.elems, sc'.elems)
    requires sc.meta.srcPubkey == sc'.meta.srcPubkey && sc.elems != []
    ensures sc.meta == sc'.meta && forall i :: 0 <= i < |sc.elems| ==> SameClaims(sc.elems[i], sc'.elems[i])
  {
    hide SignaturesOk, Binding, IsComplete, HashBefore, KeyBefore, SameClaims;
    var n := |sc.elems| - 1;
    if n > 0 {
      RelaysAreBound(c, sc, sc', n);
      LastIsBound(c, sc, sc');
    } else {
      OnlyIsBound(c, sc, sc');
    }
  }

  lemma OnlyIsBound(c: Crypto, sc: SigChain, sc': SigChain)
    requires Binding(c) && SignaturesOk(c, sc) && SignaturesOk(c, sc') && SameSignatures(sc.elems, sc'.elems)
    requires sc.meta.srcPubkey == sc'.meta.srcPubkey && |sc.elems| == 1
    ensures sc.meta == sc'.meta && SameClaims(sc.elems[0], sc'.elems[0])
  {
    hide SignaturesOk, Binding;
    ElemIsVouched(c, sc, 0);
    ElemIsVouched(c, sc', 0);
    OneContent(c, sc.meta.srcPubkey, c.metaHash(sc.meta), c.metaHash(sc'.meta), sc.elems[0], sc'.elems[0]);
    MetaIsBound(c, sc.meta, sc'.meta);
  }

  /** Tampering is refused: another ID, next key, mining flag or VRF value under the same signature. */
  lemma TamperedIsRefused(c: Crypto, sc: SigChain, i: nat, e: Elem)
    requires Binding(c) && SignaturesOk(c, sc) && i < |sc.elems| && e.signature == sc.elems[i].signature
    requires e.sigAlgo == sc.elems[i].sigAlgo && !SameClaims(e, sc.elems[i])
    ensures !SignaturesOk(c, sc.(elems := sc.elems[i := e]))
  {
    hide SignaturesOk, Binding, SameClaims;
    var sc' := sc.(elems := sc.elems[i := e]);
    if SignaturesOk(c, sc') {
      ChainIsBound(c, sc, sc');
      assert SameClaims(sc.elems[i], sc'.elems[i]);
      ClaimsAreSymmetric(sc.elems[i], e);
    }
  }

  lemma ClaimsAreSymmetric(a: Elem, b: Elem)
    ensures SameClaims(a, b) <==> SameClaims(b, a)
  {
  }

  /** So is other metadata under the same source key. */
  lemma TamperedMetaIsRefused(c: Crypto, sc: SigChain, meta: Meta)
    requires Binding(c) && SignaturesOk(c, sc) && sc.elems != [] && meta.srcPubkey == sc.meta.srcPubkey && meta != sc.meta
    ensures !SignaturesOk(c, sc.(meta := meta))
  {
    hide SignaturesOk, Binding, SameClaims;
    if SignaturesOk(c, sc.(meta := meta)) {
      ChainIsBound(c, sc, sc.(meta := meta));
    }
  }

  // ----- VRF values -----

  /** A VRF has one value a key and message can prove. */
  ghost predicate UniqueVrf(c: Crypto) {
    forall k, m, v, p, v', p' :: c.verifyVrf(k, m, v, p) && c.verifyVrf(k, m, v', p') ==> v == v'
  }

  /** A relay cannot choose its VRF value: it is the one its key gives for the chain's block. */
  lemma VrfIsForced(c: Crypto, sc: SigChain, i: nat, privKey: Bytes)
    requires UniqueVrf(c) && SignaturesOk(c, sc) && i < |sc.elems| && sc.elems[i].vrf != []
    requires Matches(c, privKey, KeyBefore(sc, i))
    ensures sc.elems[i].vrf == c.vrf(privKey, sc.meta.blockHash)
  {
    hide KeyBefore, SignedHash;
    assert ElemOk(c, sc, i);
  }

  /** And an accepted chain with another proof for the value needs one that verifies. */
  lemma BadProofIsRefused(c: Crypto, sc: SigChain, i: nat)
    requires i < |sc.elems| && sc.elems[i].vrf != []
    requires !c.verifyVrf(KeyBefore(sc, i), sc.meta.blockHash, sc.elems[i].vrf, sc.elems[i].proof)
    ensures !SignaturesOk(c, sc)
  {
    hide KeyBefore, SignedHash;
    assert SignaturesOk(c, sc) ==> ElemOk(c, sc, i);
  }
}
