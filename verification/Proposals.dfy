/** Fetching a block proposal from a neighbour: in full, or by hashes and short hashes that are
    completed from the local pools and from the neighbour. */
module Proposals {
  import opened Common
  import opened Transactions
  import opened BlockCheck
  import Merkle

  datatype Mode = FULL | BY_HASH | BY_SHORT_HASH

  datatype Header = Header(height: nat, transactionsRoot: Uint256, rest: nat)

  datatype Reply = Reply(header: Header, txns: seq<Txn>, hashes: seq<Bytes>)

  /** A neighbour may answer anything, or nothing. */
  datatype Neighbor = Neighbor(proposal: Mode -> Option<Reply>, transactions: (Mode, seq<Bytes>) -> Option<seq<Txn>>)

  /** headerOk stands for the timestamp, signer and signature checks; the pools are the transaction
      pool and the signature chain cache. */
  datatype Env = Env(
    pair: (Uint256, Uint256) -> Uint256,
    headerHash: Header -> Uint256,
    headerOk: Header -> bool,
    encode: Uint256 -> Bytes,
    parse: Bytes -> Option<Uint256>,
    shortHash: Txn -> Bytes,
    pool: (Mode, Bytes) -> Option<Txn>,
    sigChains: (Mode, Bytes) -> Option<Txn>)

  datatype Proposal = Proposal(header: Header, txns: seq<Txn>)

  /** getTxnHash */
  function KeyOf(env: Env, mode: Mode, t: Txn): Bytes {
    if mode == BY_SHORT_HASH then env.shortHash(t) else env.encode(t.hash)
  }

  /** Hashes survive encoding, and the pools are keyed by the hashes they are asked for. */
  ghost predicate EnvOk(env: Env) {
    && (forall h: Uint256 :: env.parse(env.encode(h)) == Some(h))
    && (forall b :: env.parse(b).Some? ==> env.encode(env.parse(b).value) == b)
    && (forall mode, b :: env.pool(mode, b).Some? ==> AskedAs(env, mode, env.pool(mode, b).value, b))
    && (forall mode, b :: env.sigChains(mode, b).Some? ==> AskedAs(env, mode, env.sigChains(mode, b).value, b))
  }

  /** The bytes that stand for a transaction: a salted short hash, or its whole hash. */
  predicate AskedAs(env: Env, mode: Mode, t: Txn, b: Bytes) {
    match mode
    case BY_SHORT_HASH => b == env.shortHash(t)
    case BY_HASH => b == env.encode(t.hash)
    case FULL => b == env.encode(t.hash)
  }

  // ----- Splitting and merging -----

  function Find(env: Env, mode: Mode, blockTxns: map<Bytes, Txn>, b: Bytes): Option<Txn> {
    if b in blockTxns then Some(blockTxns[b])
    else if env.pool(mode, b).Some? then env.pool(mode, b)
    else env.sigChains(mode, b)
  }

  ghost predicate Keyed(env: Env, mode: Mode, blockTxns: map<Bytes, Txn>) {
    forall b :: b in blockTxns ==> KeyOf(env, mode, blockTxns[b]) == b
  }

  function Existing(env: Env, mode: Mode, blockTxns: map<Bytes, Txn>, hashes: seq<Bytes>): seq<Txn> {
    if hashes == [] then []
    else
      var found, rest := Find(env, mode, blockTxns, hashes[0]), Existing(env, mode, blockTxns, hashes[1..]);
      if found.Some? then [found.value] + rest else rest
  }

  function Missing(env: Env, mode: Mode, blockTxns: map<Bytes, Txn>, hashes: seq<Bytes>): seq<Bytes> {
    if hashes == [] then []
    else
      var rest := Missing(env, mode, blockTxns, hashes[1..]);
      if Find(env, mode, blockTxns, hashes[0]).Some? then rest else [hashes[0]] + rest
  }

  /** The keys of a list of transactions, position by position. */
  predicate KeysAre(env: Env, mode: Mode, txns: seq<Txn>, hashes: seq<Bytes>) {
    |txns| == |hashes| && forall i :: 0 <= i < |txns| ==> KeyOf(env, mode, txns[i]) == hashes[i]
  }

  /** What mergeTxns makes of two lists of the right total length: the existing one goes first. */
  function Merged(env: Env, mode: Mode, existing: seq<Txn>, requested: seq<Txn>, hashes: seq<Bytes>): Option<seq<Txn>>
    requires |existing| + |requested| == |hashes|
    decreases |hashes|
  {
    if hashes == [] then Some([])
    else if existing != [] && KeyOf(env, mode, existing[0]) == hashes[0] then
      Prepend([existing[0]], Merged(env, mode, existing[1..], requested, hashes[1..]))
    else if requested != [] && KeyOf(env, mode, requested[0]) == hashes[0] then
      Prepend([requested[0]], Merged(env, mode, existing, requested[1..], hashes[1..]))
    else None
  }

  /** mergeTxns */
  method MergeTxns(env: Env, mode: Mode, existing: seq<Txn>, requested: seq<Txn>,
          hashes: seq<Bytes>) returns (r: Option<seq<Txn>>)
    ensures |existing| + |requested| != |hashes| ==> r.None?
    ensures |existing| + |requested| == |hashes| ==> r == Merged(env, mode, existing, requested, hashes)
    ensures r.Some? ==> KeysAre(env, mode, r.value, hashes)
  {
    hide KeyOf;
    if |existing| + |requested| != |hashes| {
      return None;
    }
    var i: nat, j: nat := 0, 0;
    var merged: seq<Txn> := [];
    MergeStarts(env, mode, existing, requested, hashes);
    while i + j < |hashes|
      invariant Merging(env, mode, existing, requested, hashes, i, j, merged)
      decreases |hashes| - i - j
    {
      if i < |existing| && KeyOf(env, mode, existing[i]) == hashes[i + j] {
        MergeExisting(env, mode, existing, requested, hashes, i, j, merged);
        merged := merged + [existing[i]];
        i := i + 1;
      } else if j < |requested| && KeyOf(env, mode, requested[j]) == hashes[i + j] {
        MergeRequested(env, mode, existing, requested, hashes, i, j, merged);
        merged := merged + [requested[j]];
        j := j + 1;
      } else {
        MergeStuck(env, mode, existing, requested, hashes, i, j, merged);
        return None;
      }
    }
    assert hashes[..i + j] == hashes && hashes[i + j..] == [];
    assert merged + [] == merged;
    r := Some(merged);
  }

  /** The merge with i existing and j requested transactions placed. */
  ghost predicate Merging(env: Env, mode: Mode, existing: seq<Txn>, requested: seq<Txn>, hashes: seq<Bytes>, i: nat,
          j: nat, merged: seq<Txn>) {
    && |existing| + |requested| == |hashes| && i <= |existing| && j <= |requested|
    && KeysAre(env, mode, merged, hashes[..i + j])
    && Merged(env, mode, existing, requested, hashes) == Prepend(merged, Merged(env, mode, existing[i..], requested[j..], hashes[i + j..]))
  }

  function Prepend(front: seq<Txn>, rest: Option<seq<Txn>>): Option<seq<Txn>> {
    if rest.Some? then Some(front + rest.value) else None
  }

  lemma MergeStarts(env: Env, mode: Mode, existing: seq<Txn>, requested: seq<Txn>, hashes: seq<Bytes>)
    requires |existing| + |requested| == |hashes|
    ensures Merging(env, mode, existing, requested, hashes, 0, 0, [])
  {
    hide Merged;
    assert existing[0..] == existing && requested[0..] == requested && hashes[0..] == hashes;
    var all := Merged(env, mode, existing, requested, hashes);
    assert all.Some? ==> [] + all.value == all.value;
  }

  lemma MergeExisting(env: Env, mode: Mode, existing: seq<Txn>, requested: seq<Txn>, hashes: seq<Bytes>, i: nat,
          j: nat, merged: seq<Txn>)
    requires Merging(env, mode, existing, requested, hashes, i, j, merged) && i + j < |hashes|
    requires i < |existing| && KeyOf(env, mode, existing[i]) == hashes[i + j]
    ensures Merging(env, mode, existing, requested, hashes, i + 1, j, merged + [existing[i]])
  {
    hide KeyOf, KeysAre, Merged, Prepend;
    var e, q, h := existing[i..], requested[j..], hashes[i + j..];
    assert h[1..] == hashes[i + 1 + j..] && h[0] == hashes[i + j];
    assert e[1..] == existing[i + 1..] && e[0] == existing[i];
    MergedUnfolds(env, mode, e, q, h);
    Associate(merged, existing[i], Merged(env, mode, e[1..], q, h[1..]));
    KeysExtend(env, mode, merged, existing[i], hashes, i + j);
  }

  lemma MergeRequested(env: Env, mode: Mode, existing: seq<Txn>, requested: seq<Txn>, hashes: seq<Bytes>, i: nat,
          j: nat, merged: seq<Txn>)
    requires Merging(env, mode, existing, requested, hashes, i, j, merged) && i + j < |hashes|
    requires !(i < |existing| && KeyOf(env, mode, existing[i]) == hashes[i + j])
    requires j < |requested| && KeyOf(env, mode, requested[j]) == hashes[i + j]
    ensures Merging(env, mode, existing, requested, hashes, i, j + 1, merged + [requested[j]])
  {
    hide KeyOf, KeysAre, Merged, Prepend;
    var e, q, h := existing[i..], requested[j..], hashes[i + j..];
    assert h[1..] == hashes[i + (j + 1)..] && h[0] == hashes[i + j];
    assert q[1..] == requested[j + 1..] && q[0] == requested[j];
    assert i < |existing| ==> e[0] == existing[i];
    MergedUnfolds(env, mode, e, q, h);
    Associate(merged, requested[j], Merged(env, mode, e, q[1..], h[1..]));
    KeysExtend(env, mode, merged, requested[j], hashes, i + j);
  }

  lemma MergeStuck(env: Env, mode: Mode, existing: seq<Txn>, requested: seq<Txn>, hashes: seq<Bytes>, i: nat, j: nat,
          merged: seq<Txn>)
    requires Merging(env, mode, existing, requested, hashes, i, j, merged) && i + j < |hashes|
    requires !(i < |existing| && KeyOf(env, mode, existing[i]) == hashes[i + j])
    requires !(j < |requested| && KeyOf(env, mode, requested[j]) == hashes[i + j])
    ensures Merged(env, mode, existing, requested, hashes).None?
  {
    hide KeyOf, KeysAre, Merged, Prepend;
    var e, q, h := existing[i..], requested[j..], hashes[i + j..];
    assert h[0] == hashes[i + j];
    assert i < |existing| ==> e[0] == existing[i];
    assert j < |requested| ==> q[0] == requested[j];
    MergedUnfolds(env, mode, e, q, h);
    NothingToPrepend(merged);
  }

  lemma NothingToPrepend(front: seq<Txn>)
    ensures Prepend(front, None).None?
  {
  }

  lemma MergedUnfolds(env: Env, mode: Mode, e: seq<Txn>, q: seq<Txn>, h: seq<Bytes>)
    requires |e| + |q| == |h| > 0
    ensures var takes := |e| > 0 && KeyOf(env, mode, e[0]) == h[0];
      && (takes ==> Merged(env, mode, e, q, h) == Prepend([e[0]], Merged(env, mode, e[1..], q, h[1..])))
      && (!takes && |q| > 0 && KeyOf(env, mode, q[0]) == h[0] ==>
        Merged(env, mode, e, q, h) == Prepend([q[0]], Merged(env, mode, e, q[1..], h[1..])))
      && (!takes && !(|q| > 0 && KeyOf(env, mode, q[0]) == h[0]) ==> Merged(env, mode, e, q, h).None?)
  {
    hide KeyOf, Prepend;
  }

  lemma KeysExtend(env: Env, mode: Mode, txns: seq<Txn>, t: Txn, hashes: seq<Bytes>, n: nat)
    requires n < |hashes| && KeysAre(env, mode, txns, hashes[..n]) && KeyOf(env, mode, t) == hashes[n]
    ensures KeysAre(env, mode, txns + [t], hashes[..n + 1])
  {
    hide KeyOf;
    assert hashes[..n + 1] == hashes[..n] + [hashes[n]];
  }

  lemma Associate(front: seq<Txn>, t: Txn, rest: Option<seq<Txn>>)
    ensures Prepend(front, Prepend([t], rest)) == Prepend(front + [t], rest)
  {
    if rest.Some? {
      assert front + ([t] + rest.value) == (front + [t]) + rest.value;
    }
  }

  /** Split and merge are inverse: with the missing transactions supplied in order, the merge
      succeeds and every position holds a transaction with the listed hash. */
  lemma {:induction false} MergeRestores(env: Env, mode: Mode, blockTxns: map<Bytes, Txn>, hashes: seq<Bytes>,
          requested: seq<Txn>)
    requires EnvOk(env) && Keyed(env, mode, blockTxns)
    requires KeysAre(env, mode, requested, Missing(env, mode, blockTxns, hashes))
    ensures var existing := Existing(env, mode, blockTxns, hashes);
      && |existing| + |requested| == |hashes|
      && Merged(env, mode, existing, requested, hashes).Some?
      && KeysAre(env, mode, Merged(env, mode, existing, requested, hashes).value, hashes)
    decreases |hashes|
  {
    hide KeyOf, Find, EnvOk, Keyed, KeysAre, Merged;
    if hashes == [] {
      KeysOfNothing(env, mode);
    } else {
      var rest := hashes[1..];
      var existing, found := Existing(env, mode, blockTxns, hashes), Find(env, mode, blockTxns, hashes[0]);
      if found.Some? {
        FindIsKeyed(env, mode, blockTxns, hashes[0]);
        MergeRestores(env, mode, blockTxns, rest, requested);
        assert existing[1..] == Existing(env, mode, blockTxns, rest) && existing[0] == found.value;
        MergedUnfolds(env, mode, existing, requested, hashes);
        KeysPrepend(env, mode, existing[0], Merged(env, mode, existing[1..], requested, rest).value, hashes);
      } else {
        var missing := Missing(env, mode, blockTxns, hashes);
        assert missing[1..] == Missing(env, mode, blockTxns, rest) && missing[0] == hashes[0];
        KeysTail(env, mode, requested, missing);
        MergeRestores(env, mode, blockTxns, rest, requested[1..]);
        ExistingIsFound(env, mode, blockTxns, hashes, 0);
        assert existing != [] ==> KeyOf(env, mode, existing[0]) != hashes[0];
        MergedUnfolds(env, mode, existing, requested, hashes);
        KeysPrepend(env, mode, requested[0], Merged(env, mode, existing, requested[1..], rest).value, hashes);
      }
    }
  }

  lemma KeysOfNothing(env: Env, mode: Mode)
    ensures forall txns :: KeysAre(env, mode, txns, []) ==> txns == []
    ensures KeysAre(env, mode, [], []) && Merged(env, mode, [], [], []) == Some([])
  {
  }

  lemma KeysTail(env: Env, mode: Mode, txns: seq<Txn>, hashes: seq<Bytes>)
    requires KeysAre(env, mode, txns, hashes) && hashes != []
    ensures txns != [] && KeyOf(env, mode, txns[0]) == hashes[0] && KeysAre(env, mode, txns[1..], hashes[1..])
  {
    hide KeyOf;
  }

  lemma KeysPrepend(env: Env, mode: Mode, t: Txn, txns: seq<Txn>, hashes: seq<Bytes>)
    requires hashes != [] && KeyOf(env, mode, t) == hashes[0] && KeysAre(env, mode, txns, hashes[1..])
    ensures KeysAre(env, mode, [t] + txns, hashes)
  {
    hide KeyOf;
  }

  lemma FindIsKeyed(env: Env, mode: Mode, blockTxns: map<Bytes, Txn>, b: Bytes)
    requires EnvOk(env) && Keyed(env, mode, blockTxns) && Find(env, mode, blockTxns, b).Some?
    ensures KeyOf(env, mode, Find(env, mode, blockTxns, b).value) == b
  {
  }

  /** Whatever was found locally has a hash that can be found locally. */
  lemma {:induction false} ExistingIsFound(env: Env, mode: Mode, blockTxns: map<Bytes, Txn>, hashes: seq<Bytes>, i: nat)
    requires EnvOk(env) && Keyed(env, mode, blockTxns)
    ensures var existing := Existing(env, mode, blockTxns, hashes);
      i < |existing| ==> Find(env, mode, blockTxns, KeyOf(env, mode, existing[i])).Some?
  {
    hide KeyOf, Find;
    if hashes == [] {
    } else {
      if Find(env, mode, blockTxns, hashes[0]).Some? {
        FindIsKeyed(env, mode, blockTxns, hashes[0]);
        if i > 0 {
          ExistingIsFound(env, mode, blockTxns, hashes[1..], i - 1);
        }
      } else {
        ExistingIsFound(env, mode, blockTxns, hashes[1..], i);
      }
    }
  }

  /** With nothing missing, what was found is already the list. */
  lemma {:induction false} NothingMissing(env: Env, mode: Mode, blockTxns: map<Bytes, Txn>, hashes: seq<Bytes>)
    requires EnvOk(env) && Keyed(env, mode, blockTxns) && Missing(env, mode, blockTxns, hashes) == []
    ensures KeysAre(env, mode, Existing(env, mode, blockTxns, hashes), hashes)
  {
    hide KeyOf, Find;
    if hashes == [] {
    } else {
      NothingMissing(env, mode, blockTxns, hashes[1..]);
      FindIsKeyed(env, mode, blockTxns, hashes[0]);
    }
  }

  // ----- Requesting -----

  method IndexTxns(env: Env, mode: Mode, txns: seq<Txn>) returns (blockTxns: map<Bytes, Txn>)
    ensures Keyed(env, mode, blockTxns)
    ensures forall i :: 0 <= i < |txns| ==> KeyOf(env, mode, txns[i]) in blockTxns
  {
    hide KeyOf;
    blockTxns := map[];
    for n := 0 to |txns|
      invariant Keyed(env, mode, blockTxns)
      invariant forall i :: 0 <= i < n ==> KeyOf(env, mode, txns[i]) in blockTxns
    {
      blockTxns := blockTxns[KeyOf(env, mode, txns[n]) := txns[n]];
    }
  }

  lemma SplitStep(env: Env, mode: Mode, blockTxns: map<Bytes, Txn>, hashes: seq<Bytes>, i: nat, existing: seq<Txn>,
          missing: seq<Bytes>)
    requires i < |hashes|
    ensures var found := Find(env, mode, blockTxns, hashes[i]);
      && existing + Existing(env, mode, blockTxns, hashes[i..])
         == (if found.Some? then existing + [found.value] else existing) + Existing(env, mode, blockTxns, hashes[i + 1..])
      && missing + Missing(env, mode, blockTxns, hashes[i..])
         == (if found.Some? then missing else missing + [hashes[i]]) + Missing(env, mode, blockTxns, hashes[i + 1..])
  {
    hide Find;
    assert hashes[i..][1..] == hashes[i + 1..] && hashes[i..][0] == hashes[i];
  }

  method SplitTxns(env: Env, mode: Mode, blockTxns: map<Bytes, Txn>, hashes: seq<Bytes>) returns (existing: seq<Txn>,
          missing: seq<Bytes>)
    ensures existing == Existing(env, mode, blockTxns, hashes) && missing == Missing(env, mode, blockTxns, hashes)
  {
    hide Find;
    existing, missing := [], [];
    assert hashes[0..] == hashes;
    for i := 0 to |hashes|
      invariant Existing(env, mode, blockTxns, hashes) == existing + Existing(env, mode, blockTxns, hashes[i..])
      invariant Missing(env, mode, blockTxns, hashes) == missing + Missing(env, mode, blockTxns, hashes[i..])
    {
      hide Existing, Missing;
      SplitStep(env, mode, blockTxns, hashes, i, existing, missing);
      var found := Find(env, mode, blockTxns, hashes[i]);
      if found.Some? {
        existing := existing + [found.value];
      } else {
        missing := missing + [hashes[i]];
      }
    }
    assert hashes[|hashes|..] == [];
  }

  /** requestProposalTransactions */
  method RequestProposalTransactions(env: Env, neighbor: Neighbor, mode: Mode,
          hashes: seq<Bytes>) returns (txns: Option<seq<Txn>>)
    ensures var reply := neighbor.transactions(mode, hashes);
      txns == if reply.Some? && KeysAre(env, mode, reply.value, hashes) then reply else None
  {
    hide KeyOf;
    var reply := neighbor.transactions(mode, hashes);
    if reply.None? || |reply.value| != |hashes| {
      return None;
    }
    for i := 0 to |hashes|
      invariant forall k :: 0 <= k < i ==> KeyOf(env, mode, reply.value[k]) == hashes[k]
    {
      if KeyOf(env, mode, reply.value[i]) != hashes[i] {
        return None;
      }
    }
    txns := reply;
  }

  /** The transactions of a reply by hashes: found locally, or requested and merged in. */
  method CompleteTxns(env: Env, neighbor: Neighbor, mode: Mode, reply: Reply) returns (txns: Option<seq<Txn>>)
    requires EnvOk(env)
    ensures txns.Some? ==> KeysAre(env, mode, txns.value, reply.hashes)
    ensures (forall missing :: Among(missing, reply.hashes) ==> Supplies(env, neighbor, mode, missing)) ==> txns.Some?
  {
    hide EnvOk, KeyOf, Find, Supplies;
    var blockTxns := IndexTxns(env, mode, reply.txns);
    var existing, missing := SplitTxns(env, mode, blockTxns, reply.hashes);
    if missing == [] {
      NothingMissing(env, mode, blockTxns, reply.hashes);
      return Some(existing);
    }
    MissingIsAmong(env, mode, blockTxns, reply.hashes);
    var requested := RequestProposalTransactions(env, neighbor, mode, missing);
    if requested.None? {
      assert !Supplies(env, neighbor, mode, missing) by { NotSupplied(env, neighbor, mode, missing); }
      return None;
    }
    MergeRestores(env, mode, blockTxns, reply.hashes, requested.value);
    txns := MergeTxns(env, mode, existing, requested.value, reply.hashes);
  }

  predicate Among(some: seq<Bytes>, all: seq<Bytes>) {
    forall b :: b in some ==> b in all
  }

  /** The neighbour answers a request for these transactions correctly. */
  predicate Supplies(env: Env, neighbor: Neighbor, mode: Mode, hashes: seq<Bytes>) {
    neighbor.transactions(mode, hashes).Some? && KeysAre(env, mode, neighbor.transactions(mode, hashes).value, hashes)
  }

  lemma NotSupplied(env: Env, neighbor: Neighbor, mode: Mode, hashes: seq<Bytes>)
    requires !(neighbor.transactions(mode, hashes).Some? && KeysAre(env, mode, neighbor.transactions(mode, hashes).value, hashes))
    ensures !Supplies(env, neighbor, mode, hashes)
  {
  }

  /** Exactly what neither the reply nor the local pools hold is asked for again. */
  lemma {:induction false} AsksForMissing(env: Env, mode: Mode, blockTxns: map<Bytes, Txn>, hashes: seq<Bytes>,
          b: Bytes)
    ensures b in Missing(env, mode, blockTxns, hashes) <==>
      b in hashes && b !in blockTxns && env.pool(mode, b).None? && env.sigChains(mode, b).None?
  {
    if hashes == [] {
    } else {
      AsksForMissing(env, mode, blockTxns, hashes[1..], b);
    }
  }

  lemma {:induction false} MissingIsAmong(env: Env, mode: Mode, blockTxns: map<Bytes, Txn>, hashes: seq<Bytes>)
    ensures Among(Missing(env, mode, blockTxns, hashes), hashes)
  {
    hide Find;
    if hashes == [] {
    } else {
      MissingIsAmong(env, mode, blockTxns, hashes[1..]);
    }
  }

  /** What a node may take as the proposal with this hash. */
  predicate Acceptable(env: Env, blockHash: Uint256, height: nat, p: Proposal) {
    && p.header.height == height && env.headerHash(p.header) == blockHash && env.headerOk(p.header)
    && RootOk(env, p)
  }

  predicate RootOk(env: Env, p: Proposal) {
    Merkle.RootMatches(env.pair, TxnHashes(p.txns), p.header.transactionsRoot)
  }

  /** A neighbour that has the proposal and answers every kind of request for it correctly. */
  ghost predicate Holds(env: Env, neighbor: Neighbor, p: Proposal) {
    forall mode :: neighbor.proposal(mode).Some? && Serves(env, neighbor, mode, neighbor.proposal(mode).value, p)
  }

  ghost predicate Serves(env: Env, neighbor: Neighbor, mode: Mode, reply: Reply, p: Proposal) {
    && reply.header == p.header
    && (mode == FULL ==> TxnHashes(reply.txns) == TxnHashes(p.txns))
    && (mode != FULL ==>
          |p.txns| == |reply.hashes| && forall i :: 0 <= i < |p.txns| ==> AskedAs(env, mode, p.txns[i], reply.hashes[i]))
    && (mode != FULL ==> forall missing :: Among(missing, reply.hashes) ==> Supplies(env, neighbor, mode, missing))
  }

  /** The hashes of a reply, if all of them parse. */
  method ParseHashes(env: Env, hashes: seq<Bytes>) returns (r: Option<seq<Uint256>>)
    requires EnvOk(env)
    ensures r.Some? ==> |r.value| == |hashes| && forall i :: 0 <= i < |hashes| ==> env.encode(r.value[i]) == hashes[i]
    ensures r.None? ==> exists i :: 0 <= i < |hashes| && env.parse(hashes[i]).None?
  {
    var parsed: seq<Uint256> := [];
    for i := 0 to |hashes|
      invariant |parsed| == i && forall k :: 0 <= k < i ==> env.encode(parsed[k]) == hashes[k]
    {
      var h := env.parse(hashes[i]);
      if h.None? {
        return None;
      }
      parsed := parsed + [h.value];
    }
    r := Some(parsed);
  }

  /** Equal encodings come from equal hashes. */
  lemma EncodedEqual(env: Env, txns: seq<Txn>, hashes: seq<Bytes>, parsed: seq<Uint256>)
    requires EnvOk(env) && KeysAre(env, BY_HASH, txns, hashes) && |parsed| == |hashes|
    requires forall i :: 0 <= i < |hashes| ==> env.encode(parsed[i]) == hashes[i]
    ensures TxnHashes(txns) == parsed
  {
    forall i | 0 <= i < |txns| ensures txns[i].hash == parsed[i] {
      assert env.encode(txns[i].hash) == env.encode(parsed[i]);
      assert env.parse(env.encode(txns[i].hash)) == Some(txns[i].hash);
      assert env.parse(env.encode(parsed[i])) == Some(parsed[i]);
    }
  }

  /** The hash mode: the listed hashes must match the root before any transaction is looked up. */
  method FetchByHash(env: Env, neighbor: Neighbor, reply: Reply, ghost held: Proposal) returns (txns: Option<seq<Txn>>)
    requires EnvOk(env)
    ensures txns.Some? ==> Merkle.RootMatches(env.pair, TxnHashes(txns.value), reply.header.transactionsRoot)
    ensures Serves(env, neighbor, BY_HASH, reply, held) && RootOk(env, held) ==> txns.Some?
  {
    hide Supplies, Merkle.RootMatches;
    var parsed := ParseHashes(env, reply.hashes);
    if parsed.None? {
      if KeysAre(env, BY_HASH, held.txns, reply.hashes) {
        ServedHashesParse(env, held.txns, reply.hashes);
      }
      return None;
    }
    var ok := Merkle.VerifyRoot(env.pair, parsed.value, reply.header.transactionsRoot);
    if KeysAre(env, BY_HASH, held.txns, reply.hashes) {
      EncodedEqual(env, held.txns, reply.hashes, parsed.value);
    }
    if !ok {
      return None;
    }
    hide EnvOk;
    txns := CompleteTxns(env, neighbor, BY_HASH, reply);
    if txns.Some? {
      EncodedEqual(env, txns.value, reply.hashes, parsed.value);
    }
  }

  lemma ServedHashesParse(env: Env, txns: seq<Txn>, hashes: seq<Bytes>)
    requires EnvOk(env) && KeysAre(env, BY_HASH, txns, hashes)
    ensures forall i :: 0 <= i < |hashes| ==> env.parse(hashes[i]).Some?
  {
    forall i | 0 <= i < |hashes| ensures env.parse(hashes[i]).Some? {
      assert env.encode(txns[i].hash) == hashes[i];
    }
  }

  /** requestProposal.  Any block it returns has the requested hash and height and a transaction list
      that matches its root; short hashes fall back to hashes at most once; and a neighbour that
      holds an acceptable proposal is never turned down.  requests lists the kinds asked for. */
  method RequestProposal(env: Env, neighbor: Neighbor, blockHash: Uint256, height: nat, mode: Mode,
          ghost held: Proposal)
    returns (r: Option<Proposal>, requests: seq<Mode>)
    requires EnvOk(env)
    ensures r.Some? ==> Acceptable(env, blockHash, height, r.value)
    ensures requests == [mode] || (mode == BY_SHORT_HASH && requests == [BY_SHORT_HASH, BY_HASH])
    ensures Holds(env, neighbor, held) && Acceptable(env, blockHash, height, held) ==> r.Some?
    decreases mode == BY_SHORT_HASH
  {
    hide EnvOk, Supplies, KeyOf, Merkle.RootMatches;
    requests := [mode];
    var answer := neighbor.proposal(mode);
    if answer.None? {
      return None, requests;
    }
    var reply := answer.value;
    if reply.header.height != height || env.headerHash(reply.header) != blockHash || !env.headerOk(reply.header) {
      return None, requests;
    }
    var txns: Option<seq<Txn>>;
    match mode {
      case FULL =>
        var ok := Merkle.VerifyRoot(env.pair, TxnHashes(reply.txns), reply.header.transactionsRoot);
        txns := if ok then Some(reply.txns) else None;
      case BY_HASH =>
        txns := FetchByHash(env, neighbor, reply, held);
      case BY_SHORT_HASH =>
        txns := CompleteTxns(env, neighbor, BY_SHORT_HASH, reply);
        if txns.Some? {
          var ok := Merkle.VerifyRoot(env.pair, TxnHashes(txns.value), reply.header.transactionsRoot);
          if !ok {
            var more: seq<Mode>;
            r, more := RequestProposal(env, neighbor, blockHash, height, BY_HASH, held);
            requests := requests + more;
            return;
          }
        }
    }
    r := if txns.Some? then Some(Proposal(reply.header, txns.value)) else None;
  }

  /** Nodes that fetched a proposal by the same block hash, in whatever way and from whomever, hold
      transactions with the same hashes in the same order, and the same transactions if a hash stands for
      one transaction. */
  lemma SameProposal(env: Env, blockHash: Uint256, height: nat, p: Proposal, q: Proposal)
    requires Acceptable(env, blockHash, height, p) && Acceptable(env, blockHash, height, q)
    requires forall a, b :: env.headerHash(a) == env.headerHash(b) ==> a == b
    requires Merkle.Injective(env.pair)
    requires Merkle.AllAtLevel(env.pair, TxnHashes(p.txns), 0) && Merkle.AllAtLevel(env.pair, TxnHashes(q.txns), 0)
    ensures p.header == q.header && TxnHashes(p.txns) == TxnHashes(q.txns)
    ensures (forall t, u :: t in p.txns && u in q.txns && t.hash == u.hash ==> t == u) ==> p.txns == q.txns
  {
    hide Merkle.RootMatches;
    Merkle.RootBinds(env.pair, TxnHashes(p.txns), TxnHashes(q.txns), p.header.transactionsRoot);
    forall i | 0 <= i < |p.txns| ensures |q.txns| == |p.txns| && p.txns[i].hash == q.txns[i].hash {
      assert TxnHashes(p.txns)[i] == TxnHashes(q.txns)[i];
    }
  }
}
