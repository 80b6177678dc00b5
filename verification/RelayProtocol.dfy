/** The relay protocol on values: a message goes out hop by hop, each hop caching its element under
    the hash it forwards; later the elements come back the same way and form a signature chain. */
module RelayProtocol {
  import opened Common
  import opened SigChains
  import opened Arith

  // ----- One server -----

  datatype Account = Account(privKey: Bytes, pubKey: Bytes, id: Bytes)

  /** sigChainElemInfo; prevNodeID is None at the hop the source client is connected to. */
  datatype ElemInfo = ElemInfo(nextPubkey: Bytes, prevNodeID: Option<Bytes>, prevHash: Bytes, blockHash: Bytes,
                               mining: bool, backtracked: bool, sigAlgo: SigAlgo)

  datatype Caches = Caches(elems: map<Bytes, ElemInfo>, src: map<Bytes, SigChain>, finalized: set<Bytes>)

  datatype Message = Message(blockHash: Bytes, lastHash: Bytes, sigChainLen: nat)

  /** What a hop hands back: the elements so far, and where and under which hash to go on. */
  datatype Reply = Reply(elems: seq<Elem>, hash: Bytes, node: Option<Bytes>)

  datatype RelayError = NotFound | AlreadyBacktracked | WrongSender | NotFinalized | UnknownAlgo | NoRoute

  /** Cache.Add keeps what it has. */
  function AddTo<V>(cache: map<Bytes, V>, key: Bytes, value: V): map<Bytes, V> {
    if key in cache then cache else cache[key := value]
  }

  /** NewSigChain, as CreateSigChainForClient calls it. */
  function SourceChain(meta: Meta, nextPubkey: Bytes, signature: Bytes, sigAlgo: SigAlgo): SigChain {
    SigChain(meta, [Elem([], nextPubkey, signature, [], [], false, sigAlgo)])
  }

  function ForwardedHash(c: Crypto, a: Account, msg: Message, nextPubkey: Bytes, mining: bool): Bytes {
    c.elemHash(msg.lastHash, a.id, nextPubkey, mining, c.vrf(a.privKey, msg.blockHash))
  }

  /** UpdateRelayMessage: what it caches, and the message it passes on. */
  function Updated(c: Crypto, a: Account, s: Caches, msg: Message, nextPubkey: Bytes, prevNodeID: Option<Bytes>,
                   mining: bool, sigAlgo: SigAlgo): Caches {
    var info := ElemInfo(nextPubkey, prevNodeID, msg.lastHash, msg.blockHash, mining, false, sigAlgo);
    s.(elems := AddTo(s.elems, ForwardedHash(c, a, msg, nextPubkey, mining), info))
  }

  function Forwarded(c: Crypto, a: Account, msg: Message, nextPubkey: Bytes, mining: bool): Message {
    Message(msg.blockHash, ForwardedHash(c, a, msg, nextPubkey, mining), (msg.sigChainLen + 1) % 0x1_0000_0000)
  }

  predicate AllowHashSignature(height: nat) { height < 1200000 }

  /** A hop signs with its key unless the block is unknown or old enough for plain hashes. */
  function AlgoAt(height: Option<nat>): SigAlgo {
    if height.Some? && !AllowHashSignature(height.value) then SIGNATURE else HASH
  }

  /** The element a cached record turns into. */
  function SignedElem(c: Crypto, a: Account, info: ElemInfo, hash: Bytes): Elem {
    Elem(a.id, info.nextPubkey, if info.sigAlgo == HASH then hash else c.sign(a.privKey, hash),
         c.vrf(a.privKey, info.blockHash), c.proof(a.privKey, info.blockHash), info.mining, info.sigAlgo)
  }

  /** Why BacktrackSigChain would refuse; sender is None for the local call that starts at the last hop. */
  function BacktrackError(s: Caches, hash: Bytes, sender: Option<Bytes>): Option<RelayError> {
    if hash !in s.elems then Some(NotFound)
    else
      var info := s.elems[hash];
      if info.backtracked then Some(AlreadyBacktracked)
      else if sender.Some? && sender.value != info.nextPubkey then Some(WrongSender)
      else if info.blockHash !in s.finalized then Some(NotFinalized)
      else if info.sigAlgo == UNKNOWN then Some(UnknownAlgo)
      else None
  }

  /** BacktrackSigChain */
  function Backtracked(c: Crypto, a: Account, s: Caches, elems: seq<Elem>, hash: Bytes,
          sender: Option<Bytes>): Result<Reply, RelayError> {
    var e := BacktrackError(s, hash, sender);
    if e.Some? then Err(e.value)
    else
      var info := s.elems[hash];
      Ok(Reply([SignedElem(c, a, info, hash)] + elems, info.prevHash, info.prevNodeID))
  }

  /** BacktrackSigChainSuccess */
  function Marked(s: Caches, hash: Bytes): Caches {
    if hash !in s.elems then s else s.(elems := s.elems[hash := s.elems[hash].(backtracked := true)])
  }

  /** What a hop does with the elements handed back to it: pass them on, complete the chain, or stop. */
  datatype Outcome = PassOn(reply: Reply) | Complete(chain: SigChain) | Stopped

  /** RelayService.backtrackSigChain: sent says whether the neighbour took the elements or, at the first
      hop, the chain was broadcast.  Only then is the record marked; a source chain is gone from the
      cache either way. */
  function HandBack(c: Crypto, a: Account, s: Caches, elems: seq<Elem>, hash: Bytes, sender: Option<Bytes>,
                    sent: bool): (Outcome, Caches) {
    var r := Backtracked(c, a, s, elems, hash, sender);
    if r.Err? then (Stopped, s)
    else if r.value.node.Some? then if sent then (PassOn(r.value), Marked(s, hash)) else (Stopped, s)
    else
      var popped := s.(src := s.src - {r.value.hash});
      if r.value.hash !in s.src || !sent then (Stopped, popped)
      else
        var source := s.src[r.value.hash];
        (Complete(source.(elems := source.elems + r.value.elems)), Marked(popped, hash))
  }

  // ----- A journey -----

  /** A hop of the path, with what it chose for this message. */
  datatype Hop = Hop(account: Account, mining: bool, sigAlgo: SigAlgo)

  /** A path and the message that reaches its first hop. */
  datatype Journey = Journey(hops: seq<Hop>, first: Message)

  type Net = map<Bytes, Caches>

  /** The last hop delivers to a client of its own: no next node. */
  function NextPubkey(j: Journey, i: nat): Bytes
    requires i < |j.hops|
  {
    if i + 1 < |j.hops| then j.hops[i + 1].account.pubKey else []
  }

  function PrevNode(j: Journey, i: nat): Option<Bytes>
    requires i <= |j.hops|
  {
    if i == 0 then None else Some(j.hops[i - 1].account.id)
  }

  /** The neighbour that hands the elements back to hop i. */
  function Sender(j: Journey, i: nat): Option<Bytes>
    requires i < |j.hops|
  {
    if i + 1 < |j.hops| then Some(j.hops[i + 1].account.pubKey) else None
  }

  /** The message as it reaches hop i; after the last hop, as it reaches the client. */
  function MessageAt(c: Crypto, j: Journey, i: nat): Message
    requires i <= |j.hops|
  {
    if i == 0 then j.first
    else Forwarded(c, j.hops[i - 1].account, MessageAt(c, j, i - 1), NextPubkey(j, i - 1), j.hops[i - 1].mining)
  }

  function HashAt(c: Crypto, j: Journey, i: nat): Bytes
    requires i <= |j.hops|
  {
    MessageAt(c, j, i).lastHash
  }

  /** What hop i caches, under the hash it forwards. */
  function RecordOf(c: Crypto, j: Journey, i: nat): ElemInfo
    requires i < |j.hops|
  {
    ElemInfo(NextPubkey(j, i), PrevNode(j, i), HashAt(c, j, i), j.first.blockHash, j.hops[i].mining, false, j.hops[i].sigAlgo)
  }

  predicate Recorded(c: Crypto, net: Net, j: Journey, i: nat)
    requires i < |j.hops|
  {
    var node := j.hops[i].account.id;
    node in net && HashAt(c, j, i + 1) in net[node].elems && net[node].elems[HashAt(c, j, i + 1)] == RecordOf(c, j, i)
  }

  predicate SourceCached(net: Net, j: Journey, source: SigChain)
    requires |j.hops| > 0
  {
    var node := j.hops[0].account.id;
    node in net && j.first.lastHash in net[node].src && net[node].src[j.first.lastHash] == source
  }

  /** Whatever else the network does between two steps, it leaves the journey's first n records and
      the cached source chain alone. */
  predicate Undisturbed(c: Crypto, before: Net, after: Net, j: Journey, source: SigChain, n: nat)
    requires 0 < |j.hops| && n <= |j.hops|
  {
    && (forall i :: 0 <= i < n && Recorded(c, before, j, i) ==> Recorded(c, after, j, i))
    && (SourceCached(before, j, source) ==> SourceCached(after, j, source))
  }

  /** The first n hops hold their records and the source chain is cached. */
  predicate Trail(c: Crypto, net: Net, j: Journey, source: SigChain, n: nat)
    requires 0 < |j.hops| && n <= |j.hops|
  {
    SourceCached(net, j, source) && forall i :: 0 <= i < n ==> Recorded(c, net, j, i)
  }

  // ----- The way out -----

  /** Hop i handles the message. */
  function AfterForward(c: Crypto, net: Net, j: Journey, i: nat): Net
    requires i < |j.hops| && j.hops[i].account.id in net
  {
    var hop := j.hops[i];
    net[hop.account.id := Updated(c, hop.account, net[hop.account.id], MessageAt(c, j, i), NextPubkey(j, i), PrevNode(j, i), hop.mining, hop.sigAlgo)]
  }

  /** nets[i] is the network as the message reaches hop i; the hash hop i forwards is new to it. */
  predicate ForwardStep(c: Crypto, nets: seq<Net>, j: Journey, source: SigChain, i: nat)
    requires 0 < |j.hops| < |nets| && i < |j.hops|
  {
    var node := j.hops[i].account.id;
    && node in nets[i] && HashAt(c, j, i + 1) !in nets[i][node].elems
    && Undisturbed(c, AfterForward(c, nets[i], j, i), nets[i + 1], j, source, |j.hops|)
  }

  predicate ForwardRun(c: Crypto, nets: seq<Net>, j: Journey, source: SigChain) {
    && 0 < |j.hops| && |nets| == |j.hops| + 1
    && SourceCached(nets[0], j, source)
    && forall i :: 0 <= i < |j.hops| ==> ForwardStep(c, nets, j, source, i)
  }

  lemma OneLonger(len: nat, i: nat)
    requires i > 0
    ensures ((if i == 1 then len else (len + (i - 1)) % 0x1_0000_0000) + 1) % 0x1_0000_0000 == (len + i) % 0x1_0000_0000
  {
    if i > 1 {
      ModSucc(len + i - 1, 0x1_0000_0000);
    }
  }

  lemma {:induction false} SameBlock(c: Crypto, j: Journey, i: nat)
    requires i <= |j.hops|
    ensures MessageAt(c, j, i).blockHash == j.first.blockHash
    ensures MessageAt(c, j, i).sigChainLen == if i == 0 then j.first.sigChainLen else (j.first.sigChainLen + i) % 0x1_0000_0000
    decreases i
  {
    hide ForwardedHash, NextPubkey;
    if i == 0 {
    } else {
      SameBlock(c, j, i - 1);
      OneLonger(j.first.sigChainLen, i);
    }
  }

  lemma ForwardRecords(c: Crypto, net: Net, j: Journey, source: SigChain, i: nat)
    requires i < |j.hops| && j.hops[i].account.id in net && HashAt(c, j, i + 1) !in net[j.hops[i].account.id].elems
    ensures Recorded(c, AfterForward(c, net, j, i), j, i)
    ensures forall k :: 0 <= k < |j.hops| && Recorded(c, net, j, k) ==> Recorded(c, AfterForward(c, net, j, i), j, k)
    ensures SourceCached(net, j, source) ==> SourceCached(AfterForward(c, net, j, i), j, source)
  {
    SameBlock(c, j, i);
    hide MessageAt;
    assert ForwardedHash(c, j.hops[i].account, MessageAt(c, j, i), NextPubkey(j, i), j.hops[i].mining) == HashAt(c, j, i + 1) by {
      ForwardsHash(c, j, i);
    }
  }

  lemma ForwardsHash(c: Crypto, j: Journey, i: nat)
    requires i < |j.hops|
    ensures HashAt(c, j, i + 1) == ForwardedHash(c, j.hops[i].account, MessageAt(c, j, i), NextPubkey(j, i), j.hops[i].mining)
  {
  }

  /** When the message arrives, every hop holds its record and the source chain is still cached. */
  lemma {:induction false} ForwardLeavesTrail(c: Crypto, nets: seq<Net>, j: Journey, source: SigChain, n: nat)
    requires ForwardRun(c, nets, j, source) && n <= |j.hops|
    ensures Trail(c, nets[n], j, source, n)
    decreases n
  {
    hide Recorded, SourceCached, AfterForward, HashAt;
    if n == 0 {
    } else {
      ForwardLeavesTrail(c, nets, j, source, n - 1);
      assert ForwardStep(c, nets, j, source, n - 1);
      ForwardRecords(c, nets[n - 1], j, source, n - 1);
    }
  }

  // ----- The way back -----

  /** Hop i hands the elements on and marks its record. */
  function AfterBacktrack(c: Crypto, net: Net, j: Journey, i: nat): Net
    requires i < |j.hops| && j.hops[i].account.id in net
  {
    var node := j.hops[i].account.id;
    net[node := Marked(net[node], HashAt(c, j, i + 1))]
  }

  /** nets[i + 1] is the network as the elements reach hop i, where the block is finalized by then. */
  predicate BacktrackStep(c: Crypto, nets: seq<Net>, j: Journey, source: SigChain, i: nat)
    requires 0 < |j.hops| < |nets| && i < |j.hops|
  {
    var node := j.hops[i].account.id;
    && node in nets[i + 1] && j.first.blockHash in nets[i + 1][node].finalized
    && Undisturbed(c, AfterBacktrack(c, nets[i + 1], j, i), nets[i], j, source, i)
  }

  /** No node forwards the same hash twice on a journey. */
  predicate DistinctHashes(c: Crypto, j: Journey) {
    forall i, k :: 0 <= i < k < |j.hops| && j.hops[i].account.id == j.hops[k].account.id ==> HashAt(c, j, i + 1) != HashAt(c, j, k + 1)
  }

  lemma ForwardIsDistinct(c: Crypto, nets: seq<Net>, j: Journey, source: SigChain)
    requires ForwardRun(c, nets, j, source)
    ensures DistinctHashes(c, j)
  {
    hide HashAt, RecordOf, AfterForward;
    forall i, k | 0 <= i < k < |j.hops| && j.hops[i].account.id == j.hops[k].account.id
      ensures HashAt(c, j, i + 1) != HashAt(c, j, k + 1)
    {
      ForwardLeavesTrail(c, nets, j, source, k);
      assert ForwardStep(c, nets, j, source, k) && Recorded(c, nets[k], j, i);
    }
  }

  predicate BacktrackRun(c: Crypto, nets: seq<Net>, j: Journey, source: SigChain) {
    && 0 < |j.hops| && |nets| == |j.hops| + 1
    && forall i :: 0 <= i < |j.hops| ==> BacktrackStep(c, nets, j, source, i)
  }

  lemma BacktrackLeavesRest(c: Crypto, net: Net, j: Journey, source: SigChain, i: nat)
    requires i < |j.hops| && j.hops[i].account.id in net && DistinctHashes(c, j) && Trail(c, net, j, source, i + 1)
    ensures Trail(c, AfterBacktrack(c, net, j, i), j, source, i)
  {
    hide HashAt, RecordOf;
    var after := AfterBacktrack(c, net, j, i);
    forall k | 0 <= k < i ensures Recorded(c, after, j, k) {
      assert Recorded(c, net, j, k);
      assert j.hops[k].account.id == j.hops[i].account.id ==> HashAt(c, j, k + 1) != HashAt(c, j, i + 1);
    }
  }

  lemma {:induction false} TrailLasts(c: Crypto, nets: seq<Net>, j: Journey, source: SigChain, n: nat)
    requires BacktrackRun(c, nets, j, source) && n <= |j.hops|
    requires DistinctHashes(c, j) && Trail(c, nets[|j.hops|], j, source, |j.hops|)
    ensures Trail(c, nets[n], j, source, n)
    decreases |j.hops| - n
  {
    hide Recorded, SourceCached, HashAt, DistinctHashes, AfterBacktrack;
    if n == |j.hops| {
    } else {
      TrailLasts(c, nets, j, source, n + 1);
      assert BacktrackStep(c, nets, j, source, n);
      BacktrackLeavesRest(c, nets[n + 1], j, source, n);
    }
  }

  /** The reply that leaves hop i, each hop acting on the hash and at the node the one after it named. */
  function Returned(c: Crypto, nets: seq<Net>, j: Journey, dest: Elem, i: nat): Result<Reply, RelayError>
    requires 0 < |j.hops| < |nets| && i <= |j.hops|
    decreases |j.hops| - i
  {
    if i == |j.hops| then Ok(Reply([dest], HashAt(c, j, i), PrevNode(j, i)))
    else
      var reply :- Returned(c, nets, j, dest, i + 1);
      var a := j.hops[i].account;
      if reply.node != Some(a.id) || a.id !in nets[i + 1] then Err(NoRoute)
      else Backtracked(c, a, nets[i + 1][a.id], reply.elems, reply.hash, Sender(j, i))
  }

  /** The elements of hops i and later, as they sign them. */
  function Signed(c: Crypto, j: Journey, i: nat): (es: seq<Elem>)
    requires i <= |j.hops|
    ensures |es| == |j.hops| - i
    decreases |j.hops| - i
  {
    if i == |j.hops| then []
    else [SignedElem(c, j.hops[i].account, RecordOf(c, j, i), HashAt(c, j, i + 1))] + Signed(c, j, i + 1)
  }

  predicate KnownAlgos(j: Journey) {
    forall i :: 0 <= i < |j.hops| ==> j.hops[i].sigAlgo != UNKNOWN
  }

  lemma BacktrackReply(c: Crypto, net: Net, j: Journey, i: nat, elems: seq<Elem>)
    requires i < |j.hops| && Recorded(c, net, j, i) && j.first.blockHash in net[j.hops[i].account.id].finalized
    requires j.hops[i].sigAlgo != UNKNOWN
    ensures Backtracked(c, j.hops[i].account, net[j.hops[i].account.id], elems, HashAt(c, j, i + 1), Sender(j, i))
         == Ok(Reply([SignedElem(c, j.hops[i].account, RecordOf(c, j, i), HashAt(c, j, i + 1))] + elems, HashAt(c, j, i), PrevNode(j, i)))
  {
    hide HashAt, SignedElem;
  }

  /** The elements come back in order, and the last reply names the source's hash. */
  lemma {:induction false} ReturnsAll(c: Crypto, nets: seq<Net>, j: Journey, source: SigChain, dest: Elem, i: nat)
    requires BacktrackRun(c, nets, j, source) && KnownAlgos(j) && i <= |j.hops|
    requires DistinctHashes(c, j) && Trail(c, nets[|j.hops|], j, source, |j.hops|)
    ensures Returned(c, nets, j, dest, i) == Ok(Reply(Signed(c, j, i) + [dest], HashAt(c, j, i), PrevNode(j, i)))
    decreases |j.hops| - i
  {
    hide HashAt, DistinctHashes, Recorded, SignedElem, RecordOf, Backtracked, Undisturbed, SourceCached, Sender;
    if i < |j.hops| {
      ReturnsAll(c, nets, j, source, dest, i + 1);
      TrailLasts(c, nets, j, source, i + 1);
      assert BacktrackStep(c, nets, j, source, i) && Recorded(c, nets[i + 1], j, i);
      BacktrackReply(c, nets[i + 1], j, i, Signed(c, j, i + 1) + [dest]);
      var e := SignedElem(c, j.hops[i].account, RecordOf(c, j, i), HashAt(c, j, i + 1));
      assert [e] + (Signed(c, j, i + 1) + [dest]) == Signed(c, j, i) + [dest];
    } else {
      assert Signed(c, j, i) + [dest] == [dest];
    }
  }

  // ----- The chain -----

  /** backtrackSigChain at the first hop: the cached source chain takes the elements. */
  function Assembled(c: Crypto, nets: seq<Net>, j: Journey, dest: Elem): Result<SigChain, RelayError>
    requires 0 < |j.hops| < |nets|
  {
    var reply :- Returned(c, nets, j, dest, 0);
    var node := j.hops[0].account.id;
    if reply.node.Some? || node !in nets[0] || reply.hash !in nets[0][node].src then Err(NotFound)
    else
      var source := nets[0][node].src[reply.hash];
      Ok(source.(elems := source.elems + reply.elems))
  }

  /** The keys of every hop work. */
  ghost predicate KeysWork(c: Crypto, j: Journey) {
    KnownAlgos(j) && forall i :: 0 <= i < |j.hops| ==> Matches(c, j.hops[i].account.privKey, j.hops[i].account.pubKey)
  }

  /** The source client signed its element for the first hop, and the message carries that signature. */
  predicate HonestSource(c: Crypto, j: Journey, source: SigChain) {
    && |j.hops| > 0 && |source.elems| == 1 && source.elems[0].sigAlgo != UNKNOWN
    && source == SourceChain(source.meta, j.hops[0].account.pubKey, j.first.lastHash, source.elems[0].sigAlgo)
    && j.first.blockHash == source.meta.blockHash
    && ElemOk(c, source, 0)
  }

  /** The destination client signed the hash it was delivered. */
  predicate HonestDestination(c: Crypto, j: Journey, source: SigChain, dest: Elem) {
    && c.goodKey(source.meta.destPubkey) && dest == Elem([], [], dest.signature, [], [], false, SIGNATURE)
    && c.verify(source.meta.destPubkey, HashOf(c, dest, c.sha256(HashAt(c, j, |j.hops|))), dest.signature)
  }

  function ElemOf(c: Crypto, j: Journey, i: nat): Elem
    requires i < |j.hops|
  {
    SignedElem(c, j.hops[i].account, RecordOf(c, j, i), HashAt(c, j, i + 1))
  }

  /** The source element, one element a hop, and the destination element. */
  predicate IsWhole(c: Crypto, j: Journey, source: SigChain, dest: Elem, sc: SigChain) {
    && |j.hops| > 0 && |source.elems| == 1 && |sc.elems| == |j.hops| + 2 && sc.meta == source.meta
    && sc.elems[0] == source.elems[0] && sc.elems[|j.hops| + 1] == dest
    && forall i :: 0 <= i < |j.hops| ==> sc.elems[i + 1] == ElemOf(c, j, i)
  }

  lemma {:induction false} SignedAt(c: Crypto, j: Journey, i: nat, k: nat)
    requires i <= k < |j.hops|
    ensures Signed(c, j, i)[k - i] == ElemOf(c, j, k)
    decreases k - i
  {
    hide SignedElem, RecordOf, HashAt;
    if i == k {
    } else {
      SignedAt(c, j, i + 1, k);
    }
  }

  /** What comes back is whole. */
  lemma AssemblesWhole(c: Crypto, nets: seq<Net>, j: Journey, source: SigChain, dest: Elem)
    requires BacktrackRun(c, nets, j, source) && KnownAlgos(j) && |source.elems| == 1
    requires DistinctHashes(c, j) && Trail(c, nets[|j.hops|], j, source, |j.hops|)
    ensures Assembled(c, nets, j, dest).Ok? && IsWhole(c, j, source, dest, Assembled(c, nets, j, dest).value)
  {
    hide Signed, ElemOf, BacktrackStep, DistinctHashes, Recorded, KnownAlgos, Returned;
    ReturnsAll(c, nets, j, source, dest, 0);
    TrailLasts(c, nets, j, source, 0);
    var back := Signed(c, j, 0) + [dest];
    var sc := source.(elems := source.elems + back);
    forall i | 0 <= i < |j.hops| ensures sc.elems[i + 1] == ElemOf(c, j, i) {
      SignedAt(c, j, 0, i);
      assert sc.elems[i + 1] == back[i] == Signed(c, j, 0)[i];
    }
    assert Assembled(c, nets, j, dest) == Ok(sc);
  }

  lemma WholeIsComplete(c: Crypto, j: Journey, source: SigChain, dest: Elem, sc: SigChain)
    requires IsWhole(c, j, source, dest, sc) && dest.id == []
    ensures IsComplete(sc)
  {
    hide HashAt;
    assert sc.elems[|j.hops|] == ElemOf(c, j, |j.hops| - 1);
  }

  /** An element hashes to what its hop forwarded, and carries a VRF value. */
  lemma ElemHash(c: Crypto, j: Journey, i: nat)
    requires i < |j.hops| && KeysWork(c, j)
    ensures HashOf(c, ElemOf(c, j, i), HashAt(c, j, i)) == HashAt(c, j, i + 1) && ElemOf(c, j, i).vrf != []
  {
    SameBlock(c, j, i);
    ForwardsHash(c, j, i);
    hide MessageAt;
    assert Matches(c, j.hops[i].account.privKey, j.hops[i].account.pubKey);
  }

  /** Walking the chain retraces the hashes the message carried. */
  lemma {:induction false} RetracesHashes(c: Crypto, j: Journey, source: SigChain, dest: Elem, sc: SigChain, i: nat)
    requires IsWhole(c, j, source, dest, sc) && HonestSource(c, j, source) && KeysWork(c, j) && i <= |j.hops|
    ensures HashBefore(c, sc, i + 1) == HashAt(c, j, i)
    decreases i
  {
    hide ElemOf, HashOf, KeysWork, MessageAt, ElemOk;
    if i > 0 {
      RetracesHashes(c, j, source, dest, sc, i - 1);
      ElemHash(c, j, i - 1);
      assert sc.elems[i] == ElemOf(c, j, i - 1);
    } else {
      assert HashAt(c, j, 0) == j.first.lastHash by { FirstHash(c, j); }
    }
  }

  lemma FirstHash(c: Crypto, j: Journey)
    ensures HashAt(c, j, 0) == j.first.lastHash
  {
  }

  lemma RelayElemOk(c: Crypto, j: Journey, source: SigChain, dest: Elem, sc: SigChain, i: nat)
    requires IsWhole(c, j, source, dest, sc) && IsComplete(sc) && HonestSource(c, j, source) && KeysWork(c, j) && i < |j.hops|
    ensures ElemOk(c, sc, i + 1)
  {
    hide HashOf, HashAt, IsComplete, HashBefore, HonestSource;
    RetracesHashes(c, j, source, dest, sc, i);
    ElemHash(c, j, i);
    RelayKey(c, j, source, dest, sc, i);
    assert Matches(c, j.hops[i].account.privKey, j.hops[i].account.pubKey);
    assert SignedHash(c, sc, i + 1) == HashAt(c, j, i + 1);
    assert sc.meta.blockHash == j.first.blockHash by { SourceBlock(c, j, source); }
  }

  lemma SourceBlock(c: Crypto, j: Journey, source: SigChain)
    requires HonestSource(c, j, source)
    ensures source.meta.blockHash == j.first.blockHash
  {
  }

  lemma RelayKey(c: Crypto, j: Journey, source: SigChain, dest: Elem, sc: SigChain, i: nat)
    requires IsWhole(c, j, source, dest, sc) && HonestSource(c, j, source) && i < |j.hops|
    ensures KeyBefore(sc, i + 1) == j.hops[i].account.pubKey
  {
    hide HashAt, ElemOk, IsComplete;
    if i > 0 {
      assert sc.elems[i] == ElemOf(c, j, i - 1);
    }
  }

  /** The assembled chain passes the verifier, and its last relay hash is the hash the last hop
      forwarded. */
  lemma WholeVerifies(c: Crypto, j: Journey, source: SigChain, dest: Elem, sc: SigChain)
    requires IsWhole(c, j, source, dest, sc) && KeysWork(c, j) && HonestSource(c, j, source) && HonestDestination(c, j, source, dest)
    ensures IsComplete(sc) && SignaturesOk(c, sc) && HashBefore(c, sc, |sc.elems| - 1) == HashAt(c, j, |j.hops|)
  {
    hide HashAt, ElemOf, IsComplete, KeysWork;
    WholeIsComplete(c, j, source, dest, sc);
    RetracesHashes(c, j, source, dest, sc, |j.hops|);
    SourceElemOk(c, j, source, dest, sc);
    assert ElemOk(c, sc, |j.hops| + 1) by {
      hide HonestSource, HashBefore;
      LastRelay(c, j, source, dest, sc);
    }
    forall i | 0 <= i < |sc.elems| ensures ElemOk(c, sc, i) {
      if 0 < i <= |j.hops| {
        RelayElemOk(c, j, source, dest, sc, i - 1);
      }
    }
  }

  lemma SourceElemOk(c: Crypto, j: Journey, source: SigChain, dest: Elem, sc: SigChain)
    requires IsWhole(c, j, source, dest, sc) && HonestSource(c, j, source)
    ensures ElemOk(c, sc, 0)
  {
    hide ElemOf;
    assert SignedHash(c, sc, 0) == SignedHash(c, source, 0);
  }

  lemma LastRelay(c: Crypto, j: Journey, source: SigChain, dest: Elem, sc: SigChain)
    requires IsWhole(c, j, source, dest, sc)
    ensures sc.elems[|j.hops|].nextPubkey == []
  {
    assert sc.elems[|j.hops|] == ElemOf(c, j, |j.hops| - 1);
  }

  /** The round trip, for a path of any length and whatever else happens in between: a message that
      went out hop by hop comes back as a chain that verifies, with one element for the source, one a
      hop and one for the destination, and the last forwarded hash as its last relay hash. */
  lemma RoundTrip(c: Crypto, outbound: seq<Net>, inbound: seq<Net>, j: Journey, source: SigChain, dest: Elem)
    requires ForwardRun(c, outbound, j, source) && BacktrackRun(c, inbound, j, source)
    requires Undisturbed(c, outbound[|j.hops|], inbound[|j.hops|], j, source, |j.hops|)
    requires KeysWork(c, j) && HonestSource(c, j, source) && HonestDestination(c, j, source, dest)
    ensures var r := Assembled(c, inbound, j, dest);
      && r.Ok? && r.value.meta == source.meta && |r.value.elems| == |j.hops| + 2
      && IsComplete(r.value) && SignaturesOk(c, r.value)
      && HashBefore(c, r.value, |r.value.elems| - 1) == MessageAt(c, j, |j.hops|).lastHash
  {
    hide ForwardStep, BacktrackStep, HonestSource, HonestDestination, Recorded, SourceCached, Assembled, IsComplete,
      SignaturesOk,
      DistinctHashes, Matches;
    assert |source.elems| == 1 by { OneElem(c, j, source); }
    ForwardLeavesTrail(c, outbound, j, source, |j.hops|);
    ForwardIsDistinct(c, outbound, j, source);
    AssemblesWhole(c, inbound, j, source, dest);
    WholeVerifies(c, j, source, dest, Assembled(c, inbound, j, dest).value);
  }

  lemma OneElem(c: Crypto, j: Journey, source: SigChain)
    requires HonestSource(c, j, source)
    ensures |source.elems| == 1
  {
  }
}
