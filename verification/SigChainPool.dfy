/** The cache of candidate signature chains: per height a small heap whose root decides the next
    block's winner. */
module SigChainPool {
  import opened Common
  import opened SigHash

  const ZERO_HASH := seq(32, _ => 0 as Byte)
  type Digest = s: Bytes | |s| == 32 witness ZERO_HASH

  const MAX_NUM_SIGCHAIN_IN_CACHE := 8
  const PROPAGATION_OFFSET := 3
  const MINING_OFFSET := 5

  /** A PorPackage, with the short hash of its transaction. */
  datatype Package = Package(txHash: nat, shortHash: nat, sigHash: Digest, voteForHeight: nat)

  /** A transaction handed to AddSigChainFromTx; verified says its IDs and signatures check out. */
  datatype Offer = Offer(pkg: Package, currentHeight: nat, verified: bool)

  datatype Pool = Pool(txns: set<nat>, sigHashes: set<Digest>, shortHashes: set<nat>, heaps: map<nat, seq<Package>>)

  const NewPool := Pool({}, {}, {}, map[])

  function Score(p: Package): nat { Value(p.sigHash) }

  /** The heap's Less */
  predicate Less(p: Package, q: Package) { LexLess(p.sigHash, q.sigHash) }

  lemma LessIsScore(p: Package, q: Package)
    ensures Less(p, q) <==> Score(p) < Score(q)
    ensures p.sigHash == q.sigHash <==> Score(p) == Score(q)
  {
    LexIsValueOrder(p.sigHash, q.sigHash);
  }

  // ----- The heap -----

  /** Go's (j - 1) / 2, which is 0 at the root. */
  function Parent(j: nat): (i: nat)
    ensures i <= j && (j > 0 ==> i < j)
  {
    if j == 0 then 0 else (j - 1) / 2
  }

  ghost predicate IsHeap(h: seq<Package>) {
    forall k :: 0 < k < |h| ==> Score(h[Parent(k)]) <= Score(h[k])
  }

  /** Ordered everywhere but between j and its parent. */
  ghost predicate HeapBut(h: seq<Package>, j: nat) {
    && (forall k :: 0 < k < |h| && k != j ==> Score(h[Parent(k)]) <= Score(h[k]))
    && (forall k :: 0 < k < |h| && k != j && Parent(k) == j && j > 0 ==> Score(h[Parent(j)]) <= Score(h[k]))
  }

  function Swap(h: seq<Package>, i: nat, j: nat): (r: seq<Package>)
    requires i < |h| && j < |h|
    ensures |r| == |h|
  {
    h[i := h[j]][j := h[i]]
  }

  /** What sifting position j up leaves behind. */
  function SiftUp(h: seq<Package>, j: nat): (r: seq<Package>)
    requires j < |h|
    ensures |r| == |h|
    decreases j
  {
    if j == 0 || !Less(h[j], h[Parent(j)]) then h else SiftUp(Swap(h, Parent(j), j), Parent(j))
  }

  /** Adding to a full heap overwrites its last slot. */
  function Inserted(h: seq<Package>, p: Package): (r: seq<Package>)
    ensures |r| > 0
  {
    if |h| >= MAX_NUM_SIGCHAIN_IN_CACHE then SiftUp(h[|h| - 1 := p], |h| - 1) else SiftUp(h + [p], |h|)
  }

  lemma {:induction false} SiftUpIsHeap(h: seq<Package>, j: nat)
    requires j < |h| && HeapBut(h, j)
    ensures IsHeap(SiftUp(h, j)) && multiset(SiftUp(h, j)) == multiset(h)
    decreases j
  {
    hide Score, Less;
    LessIsScore(h[j], h[Parent(j)]);
    if j > 0 && Less(h[j], h[Parent(j)]) {
      SwapKeeps(h, j);
      SiftUpIsHeap(Swap(h, Parent(j), j), Parent(j));
    }
  }

  lemma SwapKeeps(h: seq<Package>, j: nat)
    requires 0 < j < |h| && HeapBut(h, j) && Score(h[j]) < Score(h[Parent(j)])
    ensures HeapBut(Swap(h, Parent(j), j), Parent(j)) && multiset(Swap(h, Parent(j), j)) == multiset(h)
  {
    hide Score;
    var i := Parent(j);
    var r := Swap(h, i, j);
    forall k | 0 < k < |r| && k != i
      ensures Score(r[Parent(k)]) <= Score(r[k])
      ensures Parent(k) == i && i > 0 ==> Score(r[Parent(i)]) <= Score(r[k])
    {
      SwapKeepsAt(h, j, k);
    }
  }

  lemma SwapKeepsAt(h: seq<Package>, j: nat, k: nat)
    requires 0 < j < |h| && HeapBut(h, j) && Score(h[j]) < Score(h[Parent(j)])
    requires 0 < k < |h| && k != Parent(j)
    ensures var i, r := Parent(j), Swap(h, Parent(j), j);
      Score(r[Parent(k)]) <= Score(r[k]) && (Parent(k) == i && i > 0 ==> Score(r[Parent(i)]) <= Score(r[k]))
  {
    hide Score;
    var i := Parent(j);
    assert k != j ==> Score(h[Parent(k)]) <= Score(h[k]);
    assert i > 0 ==> Score(h[Parent(i)]) <= Score(h[i]);
  }

  /** The root of a heap is least. */
  lemma {:induction false} RootIsLeast(h: seq<Package>, k: nat)
    requires IsHeap(h) && k < |h|
    ensures Score(h[0]) <= Score(h[k])
    decreases k
  {
    hide Score;
    if k == 0 {
    } else {
      RootIsLeast(h, Parent(k));
    }
  }

  /** Insertion keeps the order, admits the newcomer, drops at most the last slot, and leaves the
      least of the old root and the newcomer on top. */
  lemma InsertedFacts(h: seq<Package>, p: Package)
    requires IsHeap(h) && |h| <= MAX_NUM_SIGCHAIN_IN_CACHE && (|h| > 0 ==> Less(p, h[|h| - 1]))
    ensures IsHeap(Inserted(h, p)) && |Inserted(h, p)| <= MAX_NUM_SIGCHAIN_IN_CACHE
    ensures forall q :: q in Inserted(h, p) ==> q == p || q in h
    ensures Score(Inserted(h, p)[0]) <= Score(p)
    ensures |h| > 0 ==> Score(Inserted(h, p)[0]) <= Score(h[0])
  {
    hide Score, Less, Parent, SiftUp, IsHeap, HeapBut;
    var g := if |h| >= MAX_NUM_SIGCHAIN_IN_CACHE then h[|h| - 1 := p] else h + [p];
    LastIsFree(h, g);
    SiftUpIsHeap(g, |g| - 1);
    var r := Inserted(h, p);
    SameMembers(r, g);
    PlacedMembers(h, p);
    LeastOf(g, r, |g| - 1);
    if |h| > 0 {
      LeastOf(g, r, 0);
    }
  }

  /** What the heap holds after an insertion: all it held and the newcomer, which takes the last slot's place
      when there are eight. */
  lemma InsertedHolds(h: seq<Package>, p: Package)
    requires IsHeap(h) && |h| <= 8
    ensures multiset(Inserted(h, p)) == multiset(if |h| < 8 then h else h[..7]) + multiset{p}
  {
    hide Score, Less, Parent, SiftUp, IsHeap, HeapBut;
    var g := if |h| >= MAX_NUM_SIGCHAIN_IN_CACHE then h[|h| - 1 := p] else h + [p];
    LastIsFree(h, g);
    SiftUpIsHeap(g, |g| - 1);
    if |h| == 8 {
      assert g == h[..7] + [p];
    }
  }

  /** The last slot has no children, so any value may stand there before sifting. */
  lemma LastIsFree(h: seq<Package>, g: seq<Package>)
    requires IsHeap(h) && |h| <= |g| <= |h| + 1 && |g| > 0 && g[..|g| - 1] == h[..|g| - 1]
    ensures HeapBut(g, |g| - 1)
  {
    hide Score;
    forall k | 0 < k < |g| - 1 ensures Score(g[Parent(k)]) <= Score(g[k]) {
      assert g[k] == g[..|g| - 1][k] == h[k];
      assert g[Parent(k)] == g[..|g| - 1][Parent(k)] == h[Parent(k)];
    }
  }

  lemma SameMembers(r: seq<Package>, g: seq<Package>)
    requires multiset(r) == multiset(g)
    ensures |r| == |g| && forall q :: q in r ==> q in g
  {
    assert |multiset(r)| == |multiset(g)|;
    forall q | q in r ensures q in g {
      assert q in multiset(r);
    }
  }

  lemma PlacedMembers(h: seq<Package>, p: Package)
    ensures forall q :: q in h + [p] ==> q == p || q in h
    ensures |h| > 0 ==> forall q :: q in h[|h| - 1 := p] ==> q == p || q in h
  {
  }

  lemma LeastOf(g: seq<Package>, r: seq<Package>, i: nat)
    requires i < |g| && IsHeap(r) && multiset(g) == multiset(r)
    ensures |r| > 0 && Score(r[0]) <= Score(g[i])
  {
    hide Score, IsHeap;
    assert g[i] in multiset(g);
    assert g[i] in multiset(r);
    var k :| 0 <= k < |r| && r[k] == g[i];
    RootIsLeast(r, k);
  }

  // ----- Adding a candidate -----

  /** Block heights are uint32. */
  function Plus32(h: nat, n: nat): nat { (h + n) % 0x1_0000_0000 }

  predicate InWindow(o: Offer) {
    Plus32(o.currentHeight, PROPAGATION_OFFSET) <= o.pkg.voteForHeight <= Plus32(o.currentHeight, MINING_OFFSET)
  }

  /** Until heights wrap, a chain votes for the third to fifth block from the current one. */
  lemma WindowIsThree(o: Offer)
    requires o.currentHeight + 5 < 0x1_0000_0000
    ensures InWindow(o) <==> o.pkg.voteForHeight - o.currentHeight in {3, 4, 5}
  {
  }

  function HeapAt(pool: Pool, height: nat): seq<Package> {
    if height in pool.heaps then pool.heaps[height] else []
  }

  /** shouldAddSigChainToCache, with replace false.  An empty heap is never stored. */
  predicate ShouldAdd(pool: Pool, o: Offer) {
    var h := HeapAt(pool, o.pkg.voteForHeight);
    InWindow(o) && (h == [] || Less(o.pkg, h[|h| - 1]))
  }

  /** The three caches refuse a key they hold; the ones before it keep theirs. */
  function Added(pool: Pool, o: Offer): Pool {
    var p := o.pkg;
    if !ShouldAdd(pool, o) || !o.verified || p.txHash in pool.txns then pool
    else if p.sigHash in pool.sigHashes then pool.(txns := pool.txns + {p.txHash})
    else if p.shortHash in pool.shortHashes then
      pool.(txns := pool.txns + {p.txHash}, sigHashes := pool.sigHashes + {p.sigHash})
    else
      var h := HeapAt(pool, p.voteForHeight);
      Pool(pool.txns + {p.txHash}, pool.sigHashes + {p.sigHash}, pool.shortHashes + {p.shortHash},
           pool.heaps[p.voteForHeight := if h == [] then [p] else Inserted(h, p)])
  }

  function Run(offers: seq<Offer>): Pool {
    if offers == [] then NewPool else Added(Run(offers[..|offers| - 1]), offers[|offers| - 1])
  }

  // ----- What every run keeps -----

  predicate Eligible(o: Offer) {
    InWindow(o) && o.verified
  }

  predicate Candidate(offers: seq<Offer>, p: Package) {
    exists i :: 0 <= i < |offers| && Eligible(offers[i]) && offers[i].pkg == p
  }

  /** Transaction and short hashes identify the package; a signature hash identifies the height. */
  predicate Collisionless(offers: seq<Offer>) {
    forall i, j :: 0 <= i < |offers| && 0 <= j < |offers| ==> Compatible(offers[i].pkg, offers[j].pkg)
  }

  predicate Compatible(p: Package, q: Package) {
    && (p.txHash == q.txHash || p.shortHash == q.shortHash ==> p == q)
    && (p.sigHash == q.sigHash ==> p.voteForHeight == q.voteForHeight)
  }

  ghost predicate HeapsOk(pool: Pool, offers: seq<Offer>) {
    forall v :: v in pool.heaps ==>
      && IsHeap(pool.heaps[v]) && 0 < |pool.heaps[v]| <= MAX_NUM_SIGCHAIN_IN_CACHE
      && forall q :: q in pool.heaps[v] ==> q.voteForHeight == v && Candidate(offers, q) && q.txHash in pool.txns
  }

  ghost predicate CachesOk(pool: Pool, offers: seq<Offer>) {
    && (forall x :: x in pool.txns ==> exists q :: Candidate(offers, q) && q.txHash == x)
    && (forall x :: x in pool.sigHashes ==> exists q :: Candidate(offers, q) && q.sigHash == x)
    && (forall x :: x in pool.shortHashes ==> exists q :: Candidate(offers, q) && q.shortHash == x)
  }

  ghost predicate Beaten(pool: Pool, p: Package) {
    p.voteForHeight in pool.heaps && |pool.heaps[p.voteForHeight]| > 0
    && Score(pool.heaps[p.voteForHeight][0]) <= Score(p)
  }

  ghost predicate PoolOk(pool: Pool, offers: seq<Offer>) {
    HeapsOk(pool, offers) && CachesOk(pool, offers) && forall p :: Candidate(offers, p) ==> Beaten(pool, p)
  }

  lemma CandidatesOf(offers: seq<Offer>, o: Offer, p: Package)
    ensures Candidate(offers + [o], p) <==> Candidate(offers, p) || (Eligible(o) && o.pkg == p)
  {
    var all := offers + [o];
    if Candidate(offers, p) {
      var i :| 0 <= i < |offers| && Eligible(offers[i]) && offers[i].pkg == p;
      assert all[i] == offers[i];
    }
    if Eligible(o) && o.pkg == p {
      assert all[|offers|] == o;
    }
  }

  /** A candidate whose key some cache already holds is no better than the root. */
  lemma SeenIsBeaten(pool: Pool, offers: seq<Offer>, o: Offer)
    requires PoolOk(pool, offers) && Collisionless(offers + [o])
    requires o.pkg.txHash in pool.txns || o.pkg.sigHash in pool.sigHashes || o.pkg.shortHash in pool.shortHashes
    ensures Beaten(pool, o.pkg)
  {
    hide HeapsOk, Score, Eligible;
    var q :| Candidate(offers, q) && (q.txHash == o.pkg.txHash || q.sigHash == o.pkg.sigHash || q.shortHash == o.pkg.shortHash);
    var i :| 0 <= i < |offers| && Eligible(offers[i]) && offers[i].pkg == q;
    var all := offers + [o];
    assert all[i].pkg == q && all[|offers|].pkg == o.pkg;
    assert Compatible(q, o.pkg);
    LessIsScore(q, o.pkg);
  }

  lemma NotAddedIsBeaten(pool: Pool, offers: seq<Offer>, o: Offer)
    requires HeapsOk(pool, offers) && Eligible(o) && !ShouldAdd(pool, o)
    ensures Beaten(pool, o.pkg)
  {
    hide Score, Less, Candidate;
    var h := HeapAt(pool, o.pkg.voteForHeight);
    LessIsScore(o.pkg, h[|h| - 1]);
    RootIsLeast(h, |h| - 1);
  }

  lemma {:induction false} AddedKeepsOrder(pool: Pool, offers: seq<Offer>, o: Offer)
    requires HeapsOk(pool, offers)
    ensures HeapsOk(Added(pool, o), offers + [o])
  {
    hide Score, Inserted, IsHeap, Candidate, Less, InWindow;
    var after := Added(pool, o);
    forall p ensures Candidate(offers + [o], p) <==> Candidate(offers, p) || (Eligible(o) && o.pkg == p) {
      CandidatesOf(offers, o, p);
    }
    if after.heaps != pool.heaps {
      var h := HeapAt(pool, o.pkg.voteForHeight);
      if h == [] {
        SingletonIsHeap(o.pkg);
      } else {
        InsertedFacts(h, o.pkg);
      }
    }
  }

  lemma SingletonIsHeap(p: Package)
    ensures IsHeap([p])
  {
  }

  lemma AddedKeepsCaches(pool: Pool, offers: seq<Offer>, o: Offer)
    requires CachesOk(pool, offers)
    ensures CachesOk(Added(pool, o), offers + [o])
  {
    hide Score, Inserted, Candidate, Less, InWindow;
    forall p ensures Candidate(offers + [o], p) <==> Candidate(offers, p) || (Eligible(o) && o.pkg == p) {
      CandidatesOf(offers, o, p);
    }
  }

  /** A root is only ever replaced by a better one. */
  lemma AddedKeepsBeaten(pool: Pool, offers: seq<Offer>, o: Offer, p: Package)
    requires HeapsOk(pool, offers) && Beaten(pool, p)
    ensures Beaten(Added(pool, o), p)
  {
    hide Score, Inserted, Candidate, Less, IsHeap, InWindow;
    var h := HeapAt(pool, o.pkg.voteForHeight);
    if p.voteForHeight == o.pkg.voteForHeight && ShouldAdd(pool, o) {
      InsertedFacts(h, o.pkg);
    }
  }

  lemma NewcomerIsBeaten(pool: Pool, offers: seq<Offer>, o: Offer)
    requires PoolOk(pool, offers) && Collisionless(offers + [o]) && Eligible(o)
    ensures Beaten(Added(pool, o), o.pkg)
  {
    hide Score, Inserted, Candidate, Less, IsHeap, InWindow, Compatible, CachesOk;
    var p := o.pkg;
    if !ShouldAdd(pool, o) {
      NotAddedIsBeaten(pool, offers, o);
    } else if p.txHash in pool.txns || p.sigHash in pool.sigHashes || p.shortHash in pool.shortHashes {
      SeenIsBeaten(pool, offers, o);
    } else if HeapAt(pool, p.voteForHeight) != [] {
      InsertedFacts(HeapAt(pool, p.voteForHeight), p);
    }
  }

  lemma {:induction false} RunIsOk(offers: seq<Offer>)
    requires Collisionless(offers)
    ensures PoolOk(Run(offers), offers)
  {
    hide HeapsOk, CachesOk, Candidate, Beaten, Added, Eligible, Compatible;
    if offers == [] {
      NewPoolIsOk();
    } else {
      var before, o := offers[..|offers| - 1], offers[|offers| - 1];
      assert offers == before + [o];
      RunIsOk(before);
      var pool := Run(before);
      AddedKeepsOrder(pool, before, o);
      AddedKeepsCaches(pool, before, o);
      forall p | Candidate(offers, p) ensures Beaten(Run(offers), p) {
        CandidatesOf(before, o, p);
        if Candidate(before, p) {
          AddedKeepsBeaten(pool, before, o, p);
        } else {
          NewcomerIsBeaten(pool, before, o);
        }
      }
    }
  }

  lemma NewPoolIsOk()
    ensures PoolOk(NewPool, [])
  {
  }

  // ----- With collisions -----

  /** The heaps are in order whatever keys collide. */
  lemma {:induction false} RunKeepsHeaps(offers: seq<Offer>)
    ensures HeapsOk(Run(offers), offers)
  {
    hide HeapsOk, Added;
    if offers == [] {
      NewPoolIsOk();
    } else {
      var before, o := offers[..|offers| - 1], offers[|offers| - 1];
      assert offers == before + [o];
      RunKeepsHeaps(before);
      AddedKeepsOrder(Run(before), before, o);
    }
  }

  /** None of the three caches holds a key of the package. */
  predicate Unseen(pool: Pool, p: Package) {
    p.txHash !in pool.txns && p.sigHash !in pool.sigHashes && p.shortHash !in pool.shortHashes
  }

  predicate UnseenAt(offers: seq<Offer>, i: nat, p: Package)
    requires i < |offers|
  {
    Eligible(offers[i]) && offers[i].pkg == p && Unseen(Run(offers[..i]), p)
  }

  /** Some offer of the package met caches that held none of its keys. */
  predicate EverUnseen(offers: seq<Offer>, p: Package) {
    exists i: nat :: i < |offers| && UnseenAt(offers, i, p)
  }

  lemma EverUnseenOf(offers: seq<Offer>, o: Offer, p: Package)
    ensures EverUnseen(offers + [o], p) <==> EverUnseen(offers, p) || (Eligible(o) && o.pkg == p && Unseen(Run(offers), p))
  {
    hide Eligible, Unseen, Run;
    var all := offers + [o];
    forall i: nat | i < |offers| ensures UnseenAt(all, i, p) <==> UnseenAt(offers, i, p) {
      assert all[..i] == offers[..i] && all[i] == offers[i];
    }
    assert all[..|offers|] == offers && all[|offers|] == o;
    if EverUnseen(offers, p) {
      var i: nat :| i < |offers| && UnseenAt(offers, i, p);
      assert UnseenAt(all, i, p);
    }
    assert UnseenAt(all, |offers|, p) <==> Eligible(o) && o.pkg == p && Unseen(Run(offers), p);
  }

  /** An eligible package with new keys is placed, or no better than the root. */
  lemma UnseenIsPlaced(pool: Pool, offers: seq<Offer>, o: Offer)
    requires HeapsOk(pool, offers) && Eligible(o) && Unseen(pool, o.pkg)
    ensures Beaten(Added(pool, o), o.pkg)
  {
    hide Score, Inserted, Candidate, Less, IsHeap, InWindow;
    if !ShouldAdd(pool, o) {
      NotAddedIsBeaten(pool, offers, o);
    } else if HeapAt(pool, o.pkg.voteForHeight) != [] {
      InsertedFacts(HeapAt(pool, o.pkg.voteForHeight), o.pkg);
    }
  }

  lemma {:induction false} UnseenIsBeaten(offers: seq<Offer>, p: Package)
    requires EverUnseen(offers, p)
    ensures Beaten(Run(offers), p)
    decreases |offers|
  {
    hide Added, Eligible, EverUnseen, HeapsOk, Beaten;
    if offers == [] {
      assert false by { NothingUnseen(p); }
    } else {
      var before, o := offers[..|offers| - 1], offers[|offers| - 1];
      assert offers == before + [o];
      EverUnseenOf(before, o, p);
      RunKeepsHeaps(before);
      if EverUnseen(before, p) {
        UnseenIsBeaten(before, p);
        AddedKeepsBeaten(Run(before), before, o, p);
      } else {
        UnseenIsPlaced(Run(before), before, o);
      }
    }
  }

  lemma NothingUnseen(p: Package)
    ensures !EverUnseen([], p)
  {
  }

  /** What an offer adds to a heap is its own package, with new keys. */
  lemma AddedMembers(pool: Pool, offers: seq<Offer>, o: Offer, v: nat, q: Package)
    requires HeapsOk(pool, offers) && q in HeapAt(Added(pool, o), v) && q !in HeapAt(pool, v)
    ensures Eligible(o) && o.pkg == q && Unseen(pool, q)
  {
    hide Score, Inserted, Candidate, Less, IsHeap;
    var h := HeapAt(pool, o.pkg.voteForHeight);
    if ShouldAdd(pool, o) && h != [] {
      InsertedFacts(h, o.pkg);
    }
  }

  lemma {:induction false} MembersWereUnseen(offers: seq<Offer>, v: nat, q: Package)
    requires q in HeapAt(Run(offers), v)
    ensures EverUnseen(offers, q)
    decreases |offers|
  {
    hide Added, Eligible, EverUnseen, HeapsOk, Unseen;
    if offers == [] {
    } else {
      var before, o := offers[..|offers| - 1], offers[|offers| - 1];
      assert offers == before + [o];
      EverUnseenOf(before, o, q);
      if q in HeapAt(Run(before), v) {
        MembersWereUnseen(before, v, q);
      } else {
        RunKeepsHeaps(before);
        AddedMembers(Run(before), before, o, v, q);
      }
    }
  }

  // ----- No candidate twice -----

  predicate SharesKey(p: Package, q: Package) {
    p.txHash == q.txHash || p.sigHash == q.sigHash || p.shortHash == q.shortHash
  }

  predicate Cached(pool: Pool, q: Package) {
    q.txHash in pool.txns && q.sigHash in pool.sigHashes && q.shortHash in pool.shortHashes
  }

  predicate Kept(pool: Pool, v: nat, q: Package) {
    v in pool.heaps && q in pool.heaps[v]
  }

  /** Every package kept is known by all its keys, and no other one by any of them. */
  ghost predicate KeysUnique(pool: Pool) {
    && (forall v, q :: Kept(pool, v, q) ==> Cached(pool, q))
    && (forall v, w, p, q :: Kept(pool, v, p) && Kept(pool, w, q) && SharesKey(p, q) ==> p == q)
  }

  /** What a change of the heaps adds. */
  lemma AddedPlaces(pool: Pool, offers: seq<Offer>, o: Offer, v: nat, q: Package)
    requires HeapsOk(pool, offers) && Added(pool, o).heaps != pool.heaps
    ensures Unseen(pool, o.pkg) && Cached(Added(pool, o), o.pkg)
    ensures Kept(Added(pool, o), v, q) ==> q == o.pkg || Kept(pool, v, q)
  {
    hide Score, Inserted, Candidate, Less, IsHeap, InWindow;
    var h := HeapAt(pool, o.pkg.voteForHeight);
    if h != [] {
      InsertedFacts(h, o.pkg);
    }
  }

  lemma AddedKeysUnique(pool: Pool, offers: seq<Offer>, o: Offer)
    requires HeapsOk(pool, offers) && KeysUnique(pool)
    ensures KeysUnique(Added(pool, o))
  {
    hide HeapsOk, Added;
    var p, after := o.pkg, Added(pool, o);
    AddedGrows(pool, o);
    if after.heaps != pool.heaps {
      hide Kept;
      forall v, q | Kept(after, v, q)
        ensures Cached(after, q) && (q == p || (Kept(pool, v, q) && !SharesKey(p, q) && !SharesKey(q, p)))
      {
        AddedPlaces(pool, offers, o, v, q);
      }
    } else {
      assert forall v, q :: Kept(after, v, q) ==> Kept(pool, v, q);
    }
  }

  lemma AddedGrows(pool: Pool, o: Offer)
    ensures pool.txns <= Added(pool, o).txns && pool.sigHashes <= Added(pool, o).sigHashes
    ensures pool.shortHashes <= Added(pool, o).shortHashes
  {
    hide ShouldAdd, Inserted;
  }

  lemma NoKeysYet()
    ensures KeysUnique(NewPool)
  {
  }

  /** Over any run, whatever collides, no two candidates kept share a transaction, signature or short hash. */
  lemma {:induction false} RunKeysUnique(offers: seq<Offer>)
    ensures KeysUnique(Run(offers))
  {
    hide HeapsOk, Added, KeysUnique;
    if offers == [] {
      NoKeysYet();
    } else {
      var before, o := offers[..|offers| - 1], offers[|offers| - 1];
      RunKeysUnique(before);
      RunKeepsHeaps(before);
      AddedKeysUnique(Run(before), before, o);
    }
  }

  // ----- The winner -----

  /** GetMiningSigChainTxnHash without objections; zero when there is no candidate. */
  function Winner(pool: Pool, height: nat): nat {
    var h := HeapAt(pool, height);
    FirstCached(pool, h)
  }

  function FirstCached(pool: Pool, h: seq<Package>): nat {
    if h == [] then 0 else if h[0].txHash in pool.txns then h[0].txHash else FirstCached(pool, h[1..])
  }

  /** Whatever the order of arrival, the winner is a candidate for the height with the least
      signature hash of all candidates, rejected and evicted ones included. */
  lemma WinnerIsBest(offers: seq<Offer>, height: nat) returns (best: Package)
    requires Collisionless(offers) && exists p :: Candidate(offers, p) && p.voteForHeight == height
    ensures best.voteForHeight == height && Candidate(offers, best) && Winner(Run(offers), height) == best.txHash
    ensures forall p :: Candidate(offers, p) && p.voteForHeight == height ==> !Less(p, best)
  {
    hide Score, Less, Candidate, CachesOk, Compatible, IsHeap, Run;
    RunIsOk(offers);
    var pool := Run(offers);
    var some :| Candidate(offers, some) && some.voteForHeight == height;
    assert Beaten(pool, some);
    best := pool.heaps[height][0];
    assert best in pool.heaps[height];
    forall p | Candidate(offers, p) && p.voteForHeight == height ensures !Less(p, best) {
      assert Beaten(pool, p);
      LessIsScore(p, best);
    }
  }

  lemma NoCandidateNoWinner(offers: seq<Offer>, height: nat)
    requires !exists p :: Candidate(offers, p) && p.voteForHeight == height
    ensures Winner(Run(offers), height) == 0
  {
    hide Candidate, Run, HeapsOk;
    RunKeepsHeaps(offers);
    if height in Run(offers).heaps {
      StoredIsCandidate(Run(offers), offers, height);
    }
  }

  lemma StoredIsCandidate(pool: Pool, offers: seq<Offer>, height: nat)
    requires HeapsOk(pool, offers) && height in pool.heaps
    ensures exists p :: Candidate(offers, p) && p.voteForHeight == height
  {
    assert pool.heaps[height][0] in pool.heaps[height];
  }

  predicate Tied(p: Package, q: Package, height: nat) {
    p.voteForHeight == q.voteForHeight == height && p.sigHash == q.sigHash
  }

  /** Nodes that saw the same candidates, in any order, name the same winner when no two candidates
      for the height share a signature hash. */
  lemma WinnerIgnoresOrder(a: seq<Offer>, b: seq<Offer>, height: nat)
    requires Collisionless(a) && Collisionless(b)
    requires forall p :: Candidate(a, p) <==> Candidate(b, p)
    requires forall p, q :: Candidate(a, p) && Candidate(a, q) && Tied(p, q, height) ==> p == q
    ensures Winner(Run(a), height) == Winner(Run(b), height)
  {
    hide Score, Less, Candidate, Collisionless, Run, Winner;
    if exists p :: Candidate(a, p) && p.voteForHeight == height {
      var p := WinnerIsBest(a, height);
      var q := WinnerIsBest(b, height);
      LessIsScore(p, q);
      LessIsScore(q, p);
    } else {
      NoCandidateNoWinner(a, height);
      NoCandidateNoWinner(b, height);
    }
  }

  /** Whatever collides, the root has the least signature hash of all packages that ever met caches
      without their keys, and is one of them. */
  lemma RootIsBestUnseen(offers: seq<Offer>, height: nat)
    requires HeapAt(Run(offers), height) != []
    ensures var root := HeapAt(Run(offers), height)[0];
      && EverUnseen(offers, root) && root.voteForHeight == height && Winner(Run(offers), height) == root.txHash
      && forall p :: EverUnseen(offers, p) && p.voteForHeight == height ==> !Less(p, root)
  {
    hide Score, Less, Candidate, IsHeap, Run, EverUnseen;
    var root := HeapAt(Run(offers), height)[0];
    MembersWereUnseen(offers, height, root);
    RunKeepsHeaps(offers);
    assert root in Run(offers).heaps[height];
    forall p | EverUnseen(offers, p) && p.voteForHeight == height ensures !Less(p, root) {
      UnseenIsBeaten(offers, p);
      LessIsScore(p, root);
    }
  }

  predicate Wins(pool: Pool, p: Package) {
    p in HeapAt(pool, p.voteForHeight) && Winner(pool, p.voteForHeight) == p.txHash
  }

  /** The candidate that beats all others of its height. */
  ghost predicate StrictlyBest(offers: seq<Offer>, p: Package) {
    && Candidate(offers, p)
    && forall q :: Candidate(offers, q) && q.voteForHeight == p.voteForHeight && q != p ==> Less(p, q)
  }

  lemma {:induction false} UnseenIsCandidate(offers: seq<Offer>, p: Package)
    requires EverUnseen(offers, p)
    ensures Candidate(offers, p)
  {
  }

  /** The exact condition: the best candidate of a height sits in the heap and wins if and only if one
      of its offers met caches that held none of its three keys. */
  lemma BestWinsIffUnseen(offers: seq<Offer>, p: Package)
    requires StrictlyBest(offers, p)
    ensures Wins(Run(offers), p) <==> EverUnseen(offers, p)
  {
    hide Score, Less, Candidate, Run, EverUnseen, Winner, HeapsOk;
    var heap := HeapAt(Run(offers), p.voteForHeight);
    if p in heap {
      MembersWereUnseen(offers, p.voteForHeight, p);
    }
    if EverUnseen(offers, p) {
      UnseenIsBeaten(offers, p);
      RootIsBestUnseen(offers, p.voteForHeight);
      UnseenIsCandidate(offers, heap[0]);
    }
  }

  /** p is strictly best and still does not win. */
  ghost predicate LosesBest(offers: seq<Offer>, p: Package) {
    && Candidate(offers, p) && Winner(Run(offers), p.voteForHeight) != p.txHash
    && forall q :: Candidate(offers, q) && q != p ==> Less(p, q)
  }

  /** Without Collisionless the best candidate can be lost: here two transactions share a short hash. */
  lemma ShortHashCollisionLosesBest()
    ensures exists offers: seq<Offer>, p: Package :: LosesBest(offers, p)
  {
    var worse, better := Package(1, 7, ZERO_HASH[0 := 1], 13), Package(2, 7, ZERO_HASH, 13);
    var first, second := Offer(worse, 10, true), Offer(better, 10, true);
    var offers := [first, second];
    assert offers[..1] == [first] && offers[..1][..0] == [];
    var pool := Pool({1}, {worse.sigHash}, {7}, map[13 := [worse]]);
    assert Run([first]) == Added(NewPool, first) == pool;
    assert Less(better, worse);
    assert offers[1].pkg == better;
    assert LosesBest(offers, better);
  }
}
