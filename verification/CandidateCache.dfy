/** The part of PorServer that keeps candidate signature chains, as it updates itself. */
module CandidateCache {
  import opened SigHash
  import opened SigChainPool

  datatype AddResult = Ignored | Refused | Accepted

  /** container/heap's up */
  method Up(heap: seq<Package>, start: nat) returns (r: seq<Package>)
    requires start < |heap|
    ensures r == SiftUp(heap, start)
  {
    hide Less;
    r := heap;
    var j: nat := start;
    while true
      invariant j < |r| == |heap|
      invariant SiftUp(r, j) == SiftUp(heap, start)
      decreases j
    {
      var i := Parent(j);
      if i == j || !Less(r[j], r[i]) {
        break;
      }
      r := Swap(r, i, j);
      j := i;
    }
  }

  class PorCache {
    var sigChainTxns: set<nat>
    var sigChainTxnSigHashes: set<Digest>
    var sigChainTxnShortHashes: set<nat>
    var miningPorPackages: map<nat, seq<Package>>

    ghost function View(): Pool
      reads this
    {
      Pool(sigChainTxns, sigChainTxnSigHashes, sigChainTxnShortHashes, miningPorPackages)
    }

    constructor ()
      ensures View() == NewPool
    {
      sigChainTxns, sigChainTxnSigHashes, sigChainTxnShortHashes, miningPorPackages := {}, {}, {}, map[];
    }

    method ShouldAddSigChain(o: Offer) returns (should: bool)
      ensures should <==> ShouldAdd(View(), o)
    {
      hide LexLess;
      var p := o.pkg;
      if p.voteForHeight < Plus32(o.currentHeight, PROPAGATION_OFFSET) {
        return false;
      }
      if p.voteForHeight > Plus32(o.currentHeight, MINING_OFFSET) {
        return false;
      }
      if p.voteForHeight in miningPorPackages {
        var heap := miningPorPackages[p.voteForHeight];
        if heap != [] {
          return Less(p, heap[|heap| - 1]);
        }
      }
      return true;
    }

    /** The candidate goes into the heap of its height: pushed, or over the last slot of a full one. */
    method Place(p: Package)
      modifies this`miningPorPackages
      ensures var h := HeapAt(old(View()), p.voteForHeight);
        miningPorPackages == old(miningPorPackages)[p.voteForHeight := if h == [] then [p] else Inserted(h, p)]
    {
      hide SiftUp;
      var heap := [p];
      if p.voteForHeight in miningPorPackages && miningPorPackages[p.voteForHeight] != [] {
        heap := miningPorPackages[p.voteForHeight];
        if |heap| >= MAX_NUM_SIGCHAIN_IN_CACHE {
          heap := Up(heap[|heap| - 1 := p], |heap| - 1);
        } else {
          heap := Up(heap + [p], |heap|);
        }
      }
      miningPorPackages := miningPorPackages[p.voteForHeight := heap];
    }

    /** AddSigChainFromTx */
    method AddSigChainFromTx(o: Offer) returns (result: AddResult)
      modifies this
      ensures View() == Added(old(View()), o)
      ensures result.Ignored? <==> !ShouldAdd(old(View()), o)
      ensures !result.Accepted? ==> miningPorPackages == old(miningPorPackages)
    {
      hide ShouldAdd, Inserted;
      var p := o.pkg;
      var should := ShouldAddSigChain(o);
      if !should {
        return Ignored;
      }
      if !o.verified || p.txHash in sigChainTxns {
        return Refused;
      }
      sigChainTxns := sigChainTxns + {p.txHash};
      if p.sigHash in sigChainTxnSigHashes {
        return Refused;
      }
      sigChainTxnSigHashes := sigChainTxnSigHashes + {p.sigHash};
      if p.shortHash in sigChainTxnShortHashes {
        return Refused;
      }
      sigChainTxnShortHashes := sigChainTxnShortHashes + {p.shortHash};
      Place(p);
      return Accepted;
    }

    /** GetMiningSigChainTxnHash, without objections */
    method GetMiningSigChainTxnHash(height: nat) returns (hash: nat)
      ensures hash == Winner(View(), height)
    {
      if height in miningPorPackages {
        var heap := miningPorPackages[height];
        for i := 0 to |heap|
          invariant FirstCached(View(), heap[i..]) == FirstCached(View(), heap)
        {
          if heap[i].txHash in sigChainTxns {
            return heap[i].txHash;
          }
          assert heap[i..][1..] == heap[i + 1..];
        }
        assert heap[|heap|..] == [];
      }
      hash := 0;
    }
  }
}
