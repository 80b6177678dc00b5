/** The relay part of PorServer and RelayService, as they update themselves. */
module RelayServer {
  import opened Common
  import opened SigChains
  import P = RelayProtocol
  import R = RelayRuns

  /** pb.Relay, the fields every hop rewrites. */
  class RelayMessage {
    const blockHash: Bytes
    var lastHash: Bytes
    var sigChainLen: nat

    ghost function View(): P.Message
      reads this
    {
      P.Message(blockHash, lastHash, sigChainLen)
    }

    /** NewRelayMessage: the chain starts from the source's signature. */
    constructor (blockHash: Bytes, lastHash: Bytes)
      ensures View() == P.Message(blockHash, lastHash, 1)
    {
      this.blockHash, this.lastHash, sigChainLen := blockHash, lastHash, 1;
    }
  }

  class PorServer {
    const account: P.Account
    var elemCache: map<Bytes, P.ElemInfo>
    var srcCache: map<Bytes, SigChain>
    var finalizedBlocks: set<Bytes>

    ghost function View(): P.Caches
      reads this
    {
      P.Caches(elemCache, srcCache, finalizedBlocks)
    }

    constructor (account: P.Account)
      ensures this.account == account && View() == P.Caches(map[], map[], {})
    {
      this.account := account;
      elemCache, srcCache, finalizedBlocks := map[], map[], {};
    }

    /** CreateSigChainForClient */
    method CreateSigChainForClient(ghost c: Crypto, meta: Meta, signature: Bytes,
            sigAlgo: SigAlgo) returns (sc: SigChain)
      modifies this
      ensures sc == P.SourceChain(meta, account.pubKey, signature, sigAlgo)
      ensures View() == R.After(c, account, old(View()), R.Connecting(meta, signature, sigAlgo))
    {
      sc := SigChain(meta, [Elem([], account.pubKey, signature, [], [], false, sigAlgo)]);
      if signature !in srcCache {
        srcCache := srcCache[signature := sc];
      }
    }

    /** UpdateRelayMessage; height is the block's, if the store knows it. */
    method UpdateRelayMessage(c: Crypto, msg: RelayMessage, nextPubkey: Bytes, prevNodeID: Option<Bytes>,
            mining: bool, height: Option<nat>)
      modifies this, msg
      ensures View() == P.Updated(c, account, old(View()), old(msg.View()), nextPubkey, prevNodeID, mining, P.AlgoAt(height))
      ensures msg.View() == P.Forwarded(c, account, old(msg.View()), nextPubkey, mining)
    {
      var vrf := c.vrf(account.privKey, msg.blockHash);
      var sigAlgo := HASH;
      if height.Some? && !P.AllowHashSignature(height.value) {
        sigAlgo := SIGNATURE;
      }
      var sce := Elem(account.id, nextPubkey, [], vrf, [], mining, sigAlgo);
      var hash := HashOf(c, sce, msg.lastHash);
      if hash !in elemCache {
        elemCache := elemCache[hash := P.ElemInfo(nextPubkey, prevNodeID, msg.lastHash, msg.blockHash, mining, false, sigAlgo)];
      }
      msg.lastHash := hash;
      msg.sigChainLen := (msg.sigChainLen + 1) % 0x1_0000_0000;
    }

    /** BacktrackSigChain */
    method BacktrackSigChain(c: Crypto, elems: seq<Elem>, hash: Bytes,
            sender: Option<Bytes>) returns (r: Result<P.Reply, P.RelayError>)
      ensures r == P.Backtracked(c, account, View(), elems, hash, sender)
    {
      if hash !in elemCache {
        return Err(P.NotFound);
      }
      var info := elemCache[hash];
      if info.backtracked {
        return Err(P.AlreadyBacktracked);
      }
      if sender.Some? && sender.value != info.nextPubkey {
        return Err(P.WrongSender);
      }
      if info.blockHash !in finalizedBlocks {
        return Err(P.NotFinalized);
      }
      var signature: Bytes;
      match info.sigAlgo {
        case SIGNATURE => signature := c.sign(account.privKey, hash);
        case HASH => signature := hash;
        case UNKNOWN => return Err(P.UnknownAlgo);
      }
      var vrf, proof := c.vrf(account.privKey, info.blockHash), c.proof(account.privKey, info.blockHash);
      var sce := Elem(account.id, info.nextPubkey, signature, vrf, proof, info.mining, info.sigAlgo);
      r := Ok(P.Reply([sce] + elems, info.prevHash, info.prevNodeID));
    }

    /** BacktrackSigChainSuccess */
    method BacktrackSigChainSuccess(hash: Bytes)
      modifies this`elemCache
      ensures View() == P.Marked(old(View()), hash)
    {
      if hash in elemCache {
        elemCache := elemCache[hash := elemCache[hash].(backtracked := true)];
      }
    }

    /** PopSrcSigChainFromCache */
    method PopSrcSigChainFromCache(signature: Bytes) returns (sc: Option<SigChain>)
      modifies this`srcCache
      ensures sc == if signature in old(srcCache) then Some(old(srcCache)[signature]) else None
      ensures srcCache == old(srcCache) - {signature}
    {
      if signature !in srcCache {
        return None;
      }
      sc := Some(srcCache[signature]);
      srcCache := srcCache - {signature};
    }

    /** FlushSigChain, as far as the caches go: a step of the runs in RelayRuns, after which no record of
        the block is refused because the block is not final. */
    method FinalizeBlock(ghost c: Crypto, blockHash: Bytes)
      modifies this`finalizedBlocks
      ensures View() == R.After(c, account, old(View()), R.Finalizing(blockHash))
      ensures forall hash, sender :: hash in elemCache && elemCache[hash].blockHash == blockHash ==>
        P.BacktrackError(View(), hash, sender) != Some(P.NotFinalized)
    {
      finalizedBlocks := finalizedBlocks + {blockHash};
    }

    /** RelayService.backtrackSigChain; sent says whether the neighbour took the elements or, at the
        first hop, the chain was broadcast. */
    method BacktrackHop(c: Crypto, elems: seq<Elem>, hash: Bytes, sender: Option<Bytes>,
            sent: bool) returns (outcome: P.Outcome)
      modifies this`elemCache, this`srcCache
      ensures (outcome, View()) == P.HandBack(c, account, old(View()), elems, hash, sender, sent)
    {
      hide P.SignedElem, P.BacktrackError;
      var r := BacktrackSigChain(c, elems, hash, sender);
      if r.Err? {
        return P.Stopped;
      }
      var reply := r.value;
      if reply.node.None? {
        var popped := PopSrcSigChainFromCache(reply.hash);
        if popped.None? || !sent {
          return P.Stopped;
        }
        var sc := popped.value;
        outcome := P.Complete(sc.(elems := sc.elems + reply.elems));
      } else {
        if !sent {
          return P.Stopped;
        }
        outcome := P.PassOn(reply);
      }
      BacktrackSigChainSuccess(hash);
    }
  }
}
