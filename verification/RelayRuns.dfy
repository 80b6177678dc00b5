/** What relay servers do over time: a record goes back once, and journeys do not get in each other's
    way. */
module RelayRuns {
  import opened Common
  import opened SigChains
  import opened RelayProtocol
  import Soundness = SigChainSoundness

  // ----- One server -----

  /** The steps that change a server's caches. */
  datatype Step =
    | Relaying(msg: Message, nextPubkey: Bytes, prevNodeID: Option<Bytes>, mining: bool, sigAlgo: SigAlgo)
    | Connecting(meta: Meta, signature: Bytes, sigAlgo: SigAlgo)
    | HandingBack(elems: seq<Elem>, hash: Bytes, sender: Option<Bytes>, sent: bool)
    | Finalizing(blockHash: Bytes)

  function After(c: Crypto, a: Account, s: Caches, step: Step): Caches {
    match step
    case Relaying(msg, nextPubkey, prevNodeID, mining, sigAlgo) =>
      Updated(c, a, s, msg, nextPubkey, prevNodeID, mining, sigAlgo)
    case Connecting(meta, signature, sigAlgo) =>
      s.(src := AddTo(s.src, signature, SourceChain(meta, a.pubKey, signature, sigAlgo)))
    case HandingBack(elems, hash, sender, sent) => HandBack(c, a, s, elems, hash, sender, sent).1
    case Finalizing(blockHash) => s.(finalized := s.finalized + {blockHash})
  }

  function ServerAfter(c: Crypto, a: Account, s: Caches, steps: seq<Step>): Caches {
    if steps == [] then s else After(c, a, ServerAfter(c, a, s, steps[..|steps| - 1]), steps[|steps| - 1])
  }

  function OutcomeOf(c: Crypto, a: Account, s: Caches, step: Step): Outcome
    requires step.HandingBack?
  {
    HandBack(c, a, s, step.elems, step.hash, step.sender, step.sent).0
  }

  predicate IsMarked(s: Caches, hash: Bytes) {
    hash in s.elems && s.elems[hash].backtracked
  }

  /** A mark stays, and so does a record: only handing back its own hash changes it. */
  lemma RecordStays(c: Crypto, a: Account, s: Caches, step: Step, hash: Bytes)
    requires hash in s.elems
    ensures var s' := After(c, a, s, step);
      && hash in s'.elems
      && (s'.elems[hash] == s.elems[hash] || s'.elems[hash] == s.elems[hash].(backtracked := true))
      && (!step.HandingBack? || step.hash != hash ==> s'.elems[hash] == s.elems[hash])
  {
    hide SignedElem, BacktrackError, SourceChain, ForwardedHash;
  }

  /** A source chain leaves the cache only when the record that leads to it is handed back. */
  predicate Pops(s: Caches, step: Step, signature: Bytes) {
    && step.HandingBack? && step.hash in s.elems
    && s.elems[step.hash].prevNodeID.None? && s.elems[step.hash].prevHash == signature
  }

  lemma SourceStays(c: Crypto, a: Account, s: Caches, step: Step, signature: Bytes)
    requires signature in s.src && !Pops(s, step, signature)
    ensures var s' := After(c, a, s, step); signature in s'.src && s'.src[signature] == s.src[signature]
  {
    hide SignedElem, SourceChain, ForwardedHash;
  }

  lemma {:induction false} MarkStays(c: Crypto, a: Account, s: Caches, steps: seq<Step>, k: nat, n: nat, hash: Bytes)
    requires k <= n <= |steps| && IsMarked(ServerAfter(c, a, s, steps[..k]), hash)
    ensures IsMarked(ServerAfter(c, a, s, steps[..n]), hash)
    decreases n
  {
    hide After;
    if k == n {
    } else {
      MarkStays(c, a, s, steps, k, n - 1, hash);
      assert steps[..n][..n - 1] == steps[..n - 1];
      RecordStays(c, a, ServerAfter(c, a, s, steps[..n - 1]), steps[n - 1], hash);
    }
  }

  lemma SuccessMarks(c: Crypto, a: Account, s: Caches, step: Step)
    requires step.HandingBack? && OutcomeOf(c, a, s, step) != Stopped
    ensures IsMarked(After(c, a, s, step), step.hash)
  {
    hide SignedElem;
  }

  lemma MarkedIsRefused(c: Crypto, a: Account, s: Caches, step: Step)
    requires step.HandingBack? && IsMarked(s, step.hash)
    ensures OutcomeOf(c, a, s, step) == Stopped && After(c, a, s, step) == s
  {
    hide SignedElem;
  }

  /** A record goes back once: over any run of a server, once handing back a hash has succeeded every
      later attempt on it stops and changes nothing, whoever asks. */
  lemma BacktracksOnce(c: Crypto, a: Account, s: Caches, steps: seq<Step>, i: nat, k: nat)
    requires i < k < |steps| && steps[i].HandingBack? && steps[k].HandingBack? && steps[i].hash == steps[k].hash
    requires OutcomeOf(c, a, ServerAfter(c, a, s, steps[..i]), steps[i]) != Stopped
    ensures OutcomeOf(c, a, ServerAfter(c, a, s, steps[..k]), steps[k]) == Stopped
    ensures ServerAfter(c, a, s, steps[..k + 1]) == ServerAfter(c, a, s, steps[..k])
  {
    hide After, OutcomeOf;
    assert steps[..i + 1][..i] == steps[..i] && steps[..k + 1][..k] == steps[..k];
    SuccessMarks(c, a, ServerAfter(c, a, s, steps[..i]), steps[i]);
    MarkStays(c, a, s, steps, i + 1, k, steps[i].hash);
    MarkedIsRefused(c, a, ServerAfter(c, a, s, steps[..k]), steps[k]);
  }

  /** The step completes the chain opened with the signature. */
  predicate Completes(c: Crypto, a: Account, s: Caches, step: Step, signature: Bytes) {
    step.HandingBack? && OutcomeOf(c, a, s, step).Complete? && step.hash in s.elems && s.elems[step.hash].prevHash == signature
  }

  lemma CompletedIsGone(c: Crypto, a: Account, s: Caches, step: Step, signature: Bytes)
    requires Completes(c, a, s, step, signature)
    ensures signature in s.src && signature !in After(c, a, s, step).src
  {
    hide SignedElem;
  }

  /** Only connecting opens a chain. */
  lemma OnlyConnectingOpens(c: Crypto, a: Account, s: Caches, step: Step, signature: Bytes)
    requires signature !in s.src && signature in After(c, a, s, step).src
    ensures Opens(step, signature)
  {
    hide SignedElem, BacktrackError, SourceChain, ForwardedHash;
  }

  predicate Opens(step: Step, signature: Bytes) {
    step.Connecting? && step.signature == signature
  }

  lemma {:induction false} OpenedAgain(c: Crypto, a: Account, s: Caches, steps: seq<Step>, k: nat, n: nat,
          signature: Bytes)
    requires k <= n <= |steps| && signature !in ServerAfter(c, a, s, steps[..k]).src
    requires signature in ServerAfter(c, a, s, steps[..n]).src
    ensures exists j :: k <= j < n && Opens(steps[j], signature)
    decreases n
  {
    hide After;
    assert n > k;
    assert steps[..n][..n - 1] == steps[..n - 1];
    if signature in ServerAfter(c, a, s, steps[..n - 1]).src {
      OpenedAgain(c, a, s, steps, k, n - 1, signature);
    } else {
      OnlyConnectingOpens(c, a, ServerAfter(c, a, s, steps[..n - 1]), steps[n - 1], signature);
    }
  }

  /** A chain is completed once: over any run of a server, before it completes one with the same signature
      again a client has opened it again. */
  lemma CompletesOnce(c: Crypto, a: Account, s: Caches, steps: seq<Step>, i: nat, k: nat, signature: Bytes)
    requires i < k < |steps| && Completes(c, a, ServerAfter(c, a, s, steps[..i]), steps[i], signature)
    requires Completes(c, a, ServerAfter(c, a, s, steps[..k]), steps[k], signature)
    ensures exists j :: i < j < k && Opens(steps[j], signature)
  {
    hide After, Completes;
    assert steps[..i + 1][..i] == steps[..i];
    CompletedIsGone(c, a, ServerAfter(c, a, s, steps[..i]), steps[i], signature);
    CompletedIsGone(c, a, ServerAfter(c, a, s, steps[..k]), steps[k], signature);
    OpenedAgain(c, a, s, steps, i + 1, k, signature);
  }

  // ----- Where everything handed back comes from -----

  const NoCaches := Caches(map[], map[], {})

  /** The step that made a record. */
  predicate Made(c: Crypto, a: Account, step: Step, hash: Bytes, info: ElemInfo) {
    && step.Relaying?
    && hash == c.elemHash(step.msg.lastHash, a.id, step.nextPubkey, step.mining, c.vrf(a.privKey, step.msg.blockHash))
    && info.(backtracked := false)
       == ElemInfo(step.nextPubkey, step.prevNodeID, step.msg.lastHash, step.msg.blockHash, step.mining, false, step.sigAlgo)
  }

  lemma {:induction false} RecordOrigin(c: Crypto, a: Account, steps: seq<Step>, hash: Bytes)
    requires hash in ServerAfter(c, a, NoCaches, steps).elems
    ensures exists i :: 0 <= i < |steps| && Made(c, a, steps[i], hash, ServerAfter(c, a, NoCaches, steps).elems[hash])
    decreases |steps|
  {
    assert steps != [];
    var n := |steps| - 1;
    var before, step := ServerAfter(c, a, NoCaches, steps[..n]), steps[n];
    if hash in before.elems {
      hide After;
      RecordOrigin(c, a, steps[..n], hash);
      RecordStays(c, a, before, step, hash);
      var i :| 0 <= i < n && Made(c, a, steps[..n][i], hash, before.elems[hash]);
      assert Made(c, a, steps[i], hash, ServerAfter(c, a, NoCaches, steps).elems[hash]);
    } else {
      hide SignedElem, BacktrackError, SourceChain;
      assert Made(c, a, steps[n], hash, ServerAfter(c, a, NoCaches, steps).elems[hash]);
    }
  }

  predicate Finalizes(step: Step, blockHash: Bytes) {
    step == Finalizing(blockHash)
  }

  lemma OnlyFinalizingFinalizes(c: Crypto, a: Account, s: Caches, step: Step, blockHash: Bytes)
    requires blockHash !in s.finalized && blockHash in After(c, a, s, step).finalized
    ensures Finalizes(step, blockHash)
  {
    hide SignedElem, BacktrackError, SourceChain, ForwardedHash;
  }

  lemma {:induction false} FinalOrigin(c: Crypto, a: Account, steps: seq<Step>, blockHash: Bytes)
    requires blockHash in ServerAfter(c, a, NoCaches, steps).finalized
    ensures exists i :: 0 <= i < |steps| && Finalizes(steps[i], blockHash)
    decreases |steps|
  {
    hide After;
    assert steps != [];
    var n := |steps| - 1;
    if blockHash in ServerAfter(c, a, NoCaches, steps[..n]).finalized {
      FinalOrigin(c, a, steps[..n], blockHash);
      var i :| 0 <= i < n && Finalizes(steps[..n][i], blockHash);
      assert Finalizes(steps[i], blockHash);
    } else {
      OnlyFinalizingFinalizes(c, a, ServerAfter(c, a, NoCaches, steps[..n]), steps[n], blockHash);
    }
  }

  /** The step that opened a chain for a client. */
  predicate Opened(a: Account, step: Step, signature: Bytes, meta: Meta, first: Elem) {
    && Opens(step, signature) && step.meta == meta
    && first == Elem([], a.pubKey, signature, [], [], false, step.sigAlgo)
  }

  /** A client's chain is there from the moment it connects, unless its signature was seen before. */
  lemma ConnectingOpens(c: Crypto, a: Account, s: Caches, meta: Meta, signature: Bytes, sigAlgo: SigAlgo)
    ensures var step := Connecting(meta, signature, sigAlgo);
      var src := After(c, a, s, step).src;
      && signature in src && After(c, a, s, step) == s.(src := src) && (forall k :: k in s.src ==> k in src && src[k] == s.src[k])
      && (signature !in s.src ==>
          |src[signature].elems| == 1 && Opened(a, step, signature, src[signature].meta, src[signature].elems[0]))
  {
  }

  /** A chain in the cache stays as it is while it stays. */
  lemma SourceKept(c: Crypto, a: Account, s: Caches, step: Step, signature: Bytes)
    requires signature in s.src && signature in After(c, a, s, step).src
    ensures After(c, a, s, step).src[signature] == s.src[signature]
  {
    hide SignedElem, BacktrackError, SourceChain, ForwardedHash;
  }

  lemma {:induction false} SourceOrigin(c: Crypto, a: Account, steps: seq<Step>, signature: Bytes)
    requires signature in ServerAfter(c, a, NoCaches, steps).src
    ensures var chain := ServerAfter(c, a, NoCaches, steps).src[signature];
      |chain.elems| == 1 && exists i :: 0 <= i < |steps| && Opened(a, steps[i], signature, chain.meta, chain.elems[0])
    decreases |steps|
  {
    hide After, Opened;
    assert steps != [];
    var n := |steps| - 1;
    var before, step := ServerAfter(c, a, NoCaches, steps[..n]), steps[n];
    if signature in before.src {
      SourceOrigin(c, a, steps[..n], signature);
      SourceKept(c, a, before, step, signature);
      var chain := before.src[signature];
      var i :| 0 <= i < n && Opened(a, steps[..n][i], signature, chain.meta, chain.elems[0]);
      assert Opened(a, steps[i], signature, chain.meta, chain.elems[0]);
    } else {
      OnlyConnectingOpens(c, a, before, step, signature);
      ConnectingOpens(c, a, before, step.meta, signature, step.sigAlgo);
    }
  }

  /** The elements start with one that says what was relayed, vouched for with the hop's key under the hash
      it forwarded; the others are as they came. */
  predicate Attests(c: Crypto, a: Account, step: Step, hash: Bytes, elems: seq<Elem>, rest: seq<Elem>)
    requires step.Relaying?
  {
    && |elems| == |rest| + 1 && elems[1..] == rest
    && var e := elems[0];
      && e.id == a.id && e.nextPubkey == step.nextPubkey && e.mining == step.mining && e.sigAlgo == step.sigAlgo
      && HashOf(c, e, step.msg.lastHash) == hash && Soundness.Vouched(c, a.pubKey, hash, e)
      && e.vrf != [] && c.verifyVrf(a.pubKey, step.msg.blockHash, e.vrf, e.proof)
  }

  lemma SignedAttests(c: Crypto, a: Account, step: Step, hash: Bytes, info: ElemInfo, rest: seq<Elem>)
    requires Made(c, a, step, hash, info) && Matches(c, a.privKey, a.pubKey) && info.sigAlgo != UNKNOWN
    ensures Attests(c, a, step, hash, [SignedElem(c, a, info, hash)] + rest, rest)
  {
    var e := SignedElem(c, a, info, hash);
    assert ([e] + rest)[0] == e && ([e] + rest)[1..] == rest;
  }

  /** What a successful handing back took from the caches. */
  lemma HandBackFacts(c: Crypto, a: Account, s: Caches, step: Step)
    requires step.HandingBack? && OutcomeOf(c, a, s, step) != Stopped
    ensures step.sent && step.hash in s.elems
    ensures var info, elems := s.elems[step.hash], [SignedElem(c, a, s.elems[step.hash], step.hash)] + step.elems;
      && !info.backtracked && (step.sender == None || step.sender == Some(info.nextPubkey))
      && info.blockHash in s.finalized && info.sigAlgo != UNKNOWN
      && match OutcomeOf(c, a, s, step) {
        case PassOn(reply) => info.prevNodeID.Some? && reply == Reply(elems, info.prevHash, info.prevNodeID)
        case Complete(chain) =>
          && info.prevNodeID.None? && info.prevHash in s.src
          && chain == SigChain(s.src[info.prevHash].meta, s.src[info.prevHash].elems + elems)
      }
  {
    hide SignedElem;
  }

  /** Step k hands back what step i relayed. */
  ghost predicate Returns(c: Crypto, a: Account, steps: seq<Step>, k: nat, i: nat)
    requires i < k < |steps| && steps[k].HandingBack?
  {
    && steps[i].Relaying? && (steps[k].sender == None || steps[k].sender == Some(steps[i].nextPubkey))
    && match OutcomeOf(c, a, ServerAfter(c, a, NoCaches, steps[..k]), steps[k]) {
      case PassOn(reply) =>
        && Attests(c, a, steps[i], steps[k].hash, reply.elems, steps[k].elems)
        && reply.hash == steps[i].msg.lastHash && reply.node == steps[i].prevNodeID
      case Complete(chain) =>
        && chain.elems != [] && Attests(c, a, steps[i], steps[k].hash, chain.elems[1..], steps[k].elems)
        && steps[i].prevNodeID == None && EverOpened(a, steps[..k], steps[i].msg.lastHash, chain.meta, chain.elems[0])
      case Stopped => false
    }
    && EverFinal(steps[..k], steps[i].msg.blockHash)
  }

  predicate EverFinal(steps: seq<Step>, blockHash: Bytes) {
    exists f :: 0 <= f < |steps| && Finalizes(steps[f], blockHash)
  }

  predicate EverOpened(a: Account, steps: seq<Step>, signature: Bytes, meta: Meta, first: Elem) {
    exists g :: 0 <= g < |steps| && Opened(a, steps[g], signature, meta, first)
  }

  /** Over any run of a server from empty caches: it hands back only what it relayed itself, to the
      neighbour it relayed to, once the block is final, as an element its own key vouches for; and it
      completes a chain only from one a client opened with it. */
  lemma HandsBackItsOwn(c: Crypto, a: Account, steps: seq<Step>, k: nat)
    requires k < |steps| && steps[k].HandingBack? && Matches(c, a.privKey, a.pubKey)
    requires OutcomeOf(c, a, ServerAfter(c, a, NoCaches, steps[..k]), steps[k]) != Stopped
    ensures steps[k].sent && exists i: nat :: i < k && Returns(c, a, steps, k, i)
  {
    hide ServerAfter, OutcomeOf, SignedElem, Attests, Matches, Opened;
    var run, step := steps[..k], steps[k];
    var s := ServerAfter(c, a, NoCaches, run);
    HandBackFacts(c, a, s, step);
    var info := s.elems[step.hash];
    RecordOrigin(c, a, run, step.hash);
    var i :| 0 <= i < |run| && Made(c, a, run[i], step.hash, info);
    FinalOrigin(c, a, run, info.blockHash);
    SignedAttests(c, a, steps[i], step.hash, info, step.elems);
    var outcome := OutcomeOf(c, a, s, step);
    if outcome.Complete? {
      SourceOrigin(c, a, run, info.prevHash);
      assert outcome.chain.elems[1..] == [SignedElem(c, a, info, step.hash)] + step.elems;
    }
    assert Returns(c, a, steps, k, i);
  }

  // ----- A network of servers -----

  /** A step of the server with that account. */
  datatype Action = Action(account: Account, step: Step)

  function Acted(c: Crypto, net: Net, act: Action): Net {
    var node := act.account.id;
    if node !in net then net else net[node := After(c, act.account, net[node], act.step)]
  }

  function NetAfter(c: Crypto, net: Net, acts: seq<Action>): Net {
    if acts == [] then net else Acted(c, NetAfter(c, net, acts[..|acts| - 1]), acts[|acts| - 1])
  }

  /** The action hands back one of the journey's first n records, or at its first hop another record that
      leads to the same source chain. */
  predicate Touches(c: Crypto, net: Net, j: Journey, n: nat, act: Action)
    requires 0 < |j.hops| && n <= |j.hops|
  {
    var node := act.account.id;
    && act.step.HandingBack? && node in net
    && (|| (exists i :: 0 <= i < n && j.hops[i].account.id == node && HashAt(c, j, i + 1) == act.step.hash)
        || (j.hops[0].account.id == node && Pops(net[node], act.step, j.first.lastHash)))
  }

  /** Every step of every server that does not touch the journey leaves it undisturbed. */
  lemma ActionUndisturbs(c: Crypto, net: Net, j: Journey, source: SigChain, n: nat, act: Action)
    requires 0 < |j.hops| && n <= |j.hops| && !Touches(c, net, j, n, act)
    ensures Undisturbed(c, net, Acted(c, net, act), j, source, n)
  {
    hide After, HashAt, RecordOf, Pops;
    var node := act.account.id;
    if node in net {
      forall i | 0 <= i < n && Recorded(c, net, j, i) ensures Recorded(c, Acted(c, net, act), j, i) {
        if j.hops[i].account.id == node {
          RecordStays(c, act.account, net[node], act.step, HashAt(c, j, i + 1));
        }
      }
      if SourceCached(net, j, source) && j.hops[0].account.id == node {
        assert !Pops(net[node], act.step, j.first.lastHash) by { NoPop(c, net, j, n, act); }
        SourceStays(c, act.account, net[node], act.step, j.first.lastHash);
      }
    }
  }

  lemma NoPop(c: Crypto, net: Net, j: Journey, n: nat, act: Action)
    requires 0 < |j.hops| && n <= |j.hops| && !Touches(c, net, j, n, act)
    requires j.hops[0].account.id == act.account.id && act.account.id in net
    ensures !Pops(net[act.account.id], act.step, j.first.lastHash)
  {
    hide HashAt;
  }

  /** None of the actions touches the journey when its turn comes. */
  predicate Others(c: Crypto, net: Net, j: Journey, n: nat, acts: seq<Action>)
    requires 0 < |j.hops| && n <= |j.hops|
  {
    forall k :: 0 <= k < |acts| ==> !Touches(c, NetAfter(c, net, acts[..k]), j, n, acts[k])
  }

  lemma {:induction false} OthersUndisturb(c: Crypto, net: Net, j: Journey, source: SigChain, n: nat, acts: seq<Action>)
    requires 0 < |j.hops| && n <= |j.hops| && Others(c, net, j, n, acts)
    ensures Undisturbed(c, net, NetAfter(c, net, acts), j, source, n)
  {
    hide Touches, Recorded, SourceCached, Acted;
    if acts == [] {
    } else {
      var init, last := acts[..|acts| - 1], acts[|acts| - 1];
      forall k | 0 <= k < |init| ensures !Touches(c, NetAfter(c, net, init[..k]), j, n, init[k]) {
        assert init[..k] == acts[..k];
        assert !Touches(c, NetAfter(c, net, acts[..k]), j, n, acts[k]);
      }
      OthersUndisturb(c, net, j, source, n, init);
      assert !Touches(c, NetAfter(c, net, acts[..|acts| - 1]), j, n, acts[|acts| - 1]);
      ActionUndisturbs(c, NetAfter(c, net, init), j, source, n, last);
    }
  }

  // ----- The round trip in a busy network -----

  /** nets[i] is the network as the message reaches hop i; after hop i handled it, others act. */
  predicate BusyForward(c: Crypto, nets: seq<Net>, others: seq<seq<Action>>, j: Journey, source: SigChain) {
    && 0 < |j.hops| == |others| && |nets| == |j.hops| + 1 && SourceCached(nets[0], j, source)
    && forall i :: 0 <= i < |j.hops| ==> BusyForwardStep(c, nets, others[i], j, i)
  }

  predicate BusyForwardStep(c: Crypto, nets: seq<Net>, others: seq<Action>, j: Journey, i: nat)
    requires 0 < |j.hops| < |nets| && i < |j.hops|
  {
    var node := j.hops[i].account.id;
    && node in nets[i] && HashAt(c, j, i + 1) !in nets[i][node].elems
    && Others(c, AfterForward(c, nets[i], j, i), j, |j.hops|, others)
    && nets[i + 1] == NetAfter(c, AfterForward(c, nets[i], j, i), others)
  }

  /** nets[i + 1] is the network as the elements reach hop i, where the block is finalized by then. */
  predicate BusyBacktrack(c: Crypto, nets: seq<Net>, others: seq<seq<Action>>, j: Journey) {
    && 0 < |j.hops| == |others| && |nets| == |j.hops| + 1
    && forall i :: 0 <= i < |j.hops| ==> BusyBacktrackStep(c, nets, others[i], j, i)
  }

  predicate BusyBacktrackStep(c: Crypto, nets: seq<Net>, others: seq<Action>, j: Journey, i: nat)
    requires 0 < |j.hops| < |nets| && i < |j.hops|
  {
    var node := j.hops[i].account.id;
    && node in nets[i + 1] && j.first.blockHash in nets[i + 1][node].finalized
    && Others(c, AfterBacktrack(c, nets[i + 1], j, i), j, i, others)
    && nets[i] == NetAfter(c, AfterBacktrack(c, nets[i + 1], j, i), others)
  }

  lemma BusyForwardRuns(c: Crypto, nets: seq<Net>, others: seq<seq<Action>>, j: Journey, source: SigChain)
    requires BusyForward(c, nets, others, j, source)
    ensures ForwardRun(c, nets, j, source)
  {
    hide HashAt, AfterForward, Others, Undisturbed, NetAfter, SourceCached;
    forall i | 0 <= i < |j.hops| ensures ForwardStep(c, nets, j, source, i) {
      assert BusyForwardStep(c, nets, others[i], j, i);
      OthersUndisturb(c, AfterForward(c, nets[i], j, i), j, source, |j.hops|, others[i]);
    }
  }

  lemma BusyBacktrackRuns(c: Crypto, nets: seq<Net>, others: seq<seq<Action>>, j: Journey, source: SigChain)
    requires BusyBacktrack(c, nets, others, j)
    ensures BacktrackRun(c, nets, j, source)
  {
    hide HashAt, AfterBacktrack, Others, Undisturbed, NetAfter;
    forall i | 0 <= i < |j.hops| ensures BacktrackStep(c, nets, j, source, i) {
      assert BusyBacktrackStep(c, nets, others[i], j, i);
      OthersUndisturb(c, AfterBacktrack(c, nets[i + 1], j, i), j, source, i, others[i]);
    }
  }

  /** The round trip among other traffic: whatever steps the servers take in between, as long as none of
      them hands back a record of this journey or its source chain, the chain comes back whole and
      verifies, and the first hop completes exactly that chain. */
  lemma BusyRoundTrip(c: Crypto, outbound: seq<Net>, inbound: seq<Net>, out: seq<seq<Action>>, between: seq<Action>,
                      back: seq<seq<Action>>, j: Journey, source: SigChain, dest: Elem)
    requires BusyForward(c, outbound, out, j, source) && BusyBacktrack(c, inbound, back, j)
    requires Others(c, outbound[|j.hops|], j, |j.hops|, between)
    requires inbound[|j.hops|] == NetAfter(c, outbound[|j.hops|], between)
    requires KeysWork(c, j) && HonestSource(c, j, source) && HonestDestination(c, j, source, dest)
    ensures var r, first := Assembled(c, inbound, j, dest), Returned(c, inbound, j, dest, 1);
      && r.Ok? && |r.value.elems| == |j.hops| + 2 && IsComplete(r.value) && SignaturesOk(c, r.value)
      && HashBefore(c, r.value, |r.value.elems| - 1) == MessageAt(c, j, |j.hops|).lastHash
      && first.Ok? && j.hops[0].account.id in inbound[1]
      && HandBack(c, j.hops[0].account, inbound[1][j.hops[0].account.id], first.value.elems, first.value.hash, Sender(j, 0), true).0
         == Complete(r.value)
  {
    hide BusyForwardStep, BusyBacktrackStep, Others, NetAfter, HandBack, Assembled, Returned, IsComplete, SignaturesOk,
      HashBefore, MessageAt, HonestSource, HonestDestination, KeysWork, BacktrackRun, ForwardRun, Undisturbed;
    BusyForwardRuns(c, outbound, out, j, source);
    BusyBacktrackRuns(c, inbound, back, j, source);
    OthersUndisturb(c, outbound[|j.hops|], j, source, |j.hops|, between);
    RoundTrip(c, outbound, inbound, j, source, dest);
    FirstHopCompletes(c, outbound, inbound, j, source, dest);
  }

  lemma FirstHopCompletes(c: Crypto, outbound: seq<Net>, inbound: seq<Net>, j: Journey, source: SigChain, dest: Elem)
    requires ForwardRun(c, outbound, j, source) && BacktrackRun(c, inbound, j, source) && KeysWork(c, j)
    requires Undisturbed(c, outbound[|j.hops|], inbound[|j.hops|], j, source, |j.hops|)
    ensures var r, first := Assembled(c, inbound, j, dest), Returned(c, inbound, j, dest, 1);
      && r.Ok? && first.Ok? && j.hops[0].account.id in inbound[1]
      && HandBack(c, j.hops[0].account, inbound[1][j.hops[0].account.id], first.value.elems, first.value.hash, Sender(j, 0), true).0
         == Complete(r.value)
  {
    hide ForwardStep, BacktrackStep, Recorded, Signed, DistinctHashes, Matches, Backtracked, HashAt, Returned;
    ForwardLeavesTrail(c, outbound, j, source, |j.hops|);
    ForwardIsDistinct(c, outbound, j, source);
    ReturnsAll(c, inbound, j, source, dest, 1);
    ReturnsAll(c, inbound, j, source, dest, 0);
    TrailLasts(c, inbound, j, source, 1);
    TrailLasts(c, inbound, j, source, 0);
    FirstReply(c, inbound, j, dest);
    FirstHash(c, j);
  }

  lemma FirstReply(c: Crypto, nets: seq<Net>, j: Journey, dest: Elem)
    requires 0 < |j.hops| < |nets| && Returned(c, nets, j, dest, 0).Ok?
    ensures Returned(c, nets, j, dest, 1).Ok? && j.hops[0].account.id in nets[1]
    ensures var reply, a := Returned(c, nets, j, dest, 1).value, j.hops[0].account;
      Backtracked(c, a, nets[1][a.id], reply.elems, reply.hash, Sender(j, 0)) == Returned(c, nets, j, dest, 0)
  {
    hide Backtracked, HashAt;
  }
}
