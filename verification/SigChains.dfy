/** Signature chains and their verifier.  Hashing, signing and the verifiable random function are
    parameters: only what makes honest signatures verify is ever required of them. */
module SigChains {
  import opened Common

  datatype SigAlgo = SIGNATURE | HASH | UNKNOWN

  datatype Elem = Elem(id: Bytes, nextPubkey: Bytes, signature: Bytes, vrf: Bytes, proof: Bytes, mining: bool, sigAlgo: SigAlgo)

  datatype Meta = Meta(nonce: nat, dataSize: nat, blockHash: Bytes, srcId: Bytes, srcPubkey: Bytes, destId: Bytes, destPubkey: Bytes)

  datatype SigChain = SigChain(meta: Meta, elems: seq<Elem>)

  /** elemHash takes the previous hash and what SerializationUnsigned writes: ID, next public key,
      mining flag and VRF value. */
  datatype Crypto = Crypto(
    elemHash: (Bytes, Bytes, Bytes, bool, Bytes) -> Bytes,
    metaHash: Meta -> Bytes,
    sha256: Bytes -> Bytes,
    goodKey: Bytes -> bool,
    sign: (Bytes, Bytes) -> Bytes,
    verify: (Bytes, Bytes, Bytes) -> bool,
    vrf: (Bytes, Bytes) -> Bytes,
    proof: (Bytes, Bytes) -> Bytes,
    verifyVrf: (Bytes, Bytes, Bytes, Bytes) -> bool)

  /** What an account's keys give: its signatures and VRF values verify under its public key. */
  ghost predicate Matches(c: Crypto, privKey: Bytes, pubKey: Bytes) {
    && c.goodKey(pubKey)
    && (forall m :: c.verify(pubKey, m, c.sign(privKey, m)))
    && (forall m :: c.vrf(privKey, m) != [] && c.verifyVrf(pubKey, m, c.vrf(privKey, m), c.proof(privKey, m)))
  }

  /** SigChainElem.Hash */
  function HashOf(c: Crypto, e: Elem, prevHash: Bytes): Bytes {
    c.elemHash(prevHash, e.id, e.nextPubkey, e.mining, e.vrf)
  }

  predicate IsComplete(sc: SigChain) {
    var n := |sc.elems|;
    && n >= 3
    && (sc.elems[n - 1].id == [] || sc.elems[n - 1].id == sc.meta.destId)
    && (sc.elems[n - 2].nextPubkey == [] || sc.elems[n - 2].nextPubkey == sc.meta.destPubkey)
  }

  /** The hash element i continues: the previous element's hash, or its signature when it has no VRF. */
  function HashBefore(c: Crypto, sc: SigChain, i: nat): Bytes
    requires i <= |sc.elems|
  {
    if i == 0 then c.metaHash(sc.meta)
    else
      var e := sc.elems[i - 1];
      if e.vrf != [] then HashOf(c, e, HashBefore(c, sc, i - 1)) else e.signature
  }

  /** The public key element i must be signed with. */
  function KeyBefore(sc: SigChain, i: nat): Bytes
    requires i <= |sc.elems|
  {
    if i == 0 then sc.meta.srcPubkey
    else if IsComplete(sc) && i == |sc.elems| - 1 && sc.elems[i - 1].nextPubkey == [] then sc.meta.destPubkey
    else sc.elems[i - 1].nextPubkey
  }

  /** What element i signs: the last element of a complete chain continues one more digest. */
  function SignedHash(c: Crypto, sc: SigChain, i: nat): Bytes
    requires i < |sc.elems|
  {
    var before := HashBefore(c, sc, i);
    HashOf(c, sc.elems[i], if IsComplete(sc) && i == |sc.elems| - 1 then c.sha256(before) else before)
  }

  predicate ElemOk(c: Crypto, sc: SigChain, i: nat)
    requires i < |sc.elems|
  {
    var e, key, hash := sc.elems[i], KeyBefore(sc, i), SignedHash(c, sc, i);
    && c.goodKey(key)
    && (e.sigAlgo == SIGNATURE ==> c.verify(key, hash, e.signature))
    && (e.sigAlgo == HASH ==> e.signature == hash)
    && e.sigAlgo != UNKNOWN
    && (e.vrf != [] ==> c.verifyVrf(key, sc.meta.blockHash, e.vrf, e.proof))
  }

  predicate SignaturesOk(c: Crypto, sc: SigChain) {
    forall i :: 0 <= i < |sc.elems| ==> ElemOk(c, sc, i)
  }

  /** VerifySigChainSignatures */
  method VerifySigChainSignatures(c: Crypto, sc: SigChain) returns (ok: bool)
    ensures ok <==> SignaturesOk(c, sc)
  {
    hide IsComplete, HashOf;
    var prevNextPubkey := sc.meta.srcPubkey;
    var prevHash := c.metaHash(sc.meta);
    for i := 0 to |sc.elems|
      invariant prevNextPubkey == KeyBefore(sc, i)
      invariant i < |sc.elems| || !IsComplete(sc) ==> prevHash == HashBefore(c, sc, i)
      invariant forall j :: 0 <= j < i ==> ElemOk(c, sc, j)
    {
      var e := sc.elems[i];
      ghost var good := ElemOk(c, sc, i);
      if !c.goodKey(prevNextPubkey) {
        return false;
      }
      if IsComplete(sc) && i == |sc.elems| - 1 {
        prevHash := c.sha256(prevHash);
      }
      var hash := HashOf(c, e, prevHash);
      assert hash == SignedHash(c, sc, i);
      match e.sigAlgo {
        case SIGNATURE =>
          if !c.verify(prevNextPubkey, hash, e.signature) {
            return false;
          }
        case HASH =>
          if e.signature != hash {
            return false;
          }
        case UNKNOWN =>
          return false;
      }
      if e.vrf != [] {
        if !c.verifyVrf(prevNextPubkey, sc.meta.blockHash, e.vrf, e.proof) {
          return false;
        }
        prevHash := hash;
      } else {
        prevHash := e.signature;
      }
      prevNextPubkey := e.nextPubkey;
      if IsComplete(sc) && i == |sc.elems| - 2 && e.nextPubkey == [] {
        prevNextPubkey := sc.meta.destPubkey;
      }
    }
    ok := true;
  }

  /** LastRelayHash */
  method LastRelayHash(c: Crypto, sc: SigChain) returns (hash: Option<Bytes>)
    ensures hash == if IsComplete(sc) then Some(HashBefore(c, sc, |sc.elems| - 1)) else None
    ensures hash.Some? ==> |sc.elems| >= 3
  {
    if !IsComplete(sc) {
      return None;
    }
    var prevHash := c.metaHash(sc.meta);
    for i := 0 to |sc.elems| - 1
      invariant prevHash == HashBefore(c, sc, i)
    {
      var e := sc.elems[i];
      var h := HashOf(c, e, prevHash);
      prevHash := if e.vrf != [] then h else e.signature;
    }
    hash := Some(prevHash);
  }
}
