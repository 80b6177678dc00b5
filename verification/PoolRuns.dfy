/** The pool beside the chain: however submissions, drops, saved blocks and their removals interleave,
    an account's pending list starts where the ledger stops. */
module PoolRuns {
  import opened Common
  import opened Transactions
  import opened Ledger
  import opened BlockCheck
  import opened ChainRuns
  import opened NonceRuns
  import opened Arith
  import opened TxLists
  import Mining

  /** One account's list, the blocks saved so far, and how many of the account's transactions in them
      the pool has been told about. */
  datatype Pool = Pool(list: seq<Txn>, blocks: seq<Block>, cleaned: nat)

  /** Saving a block and cleaning the pool are separate events, and cleaning goes transaction by
      transaction, so submissions may fall in between. */
  datatype Event =
    | Submitting(txn: Txn, vetoed: bool)
    | Saving(block: Block)
    | Cleaning
    | Dropping(hash: Uint256)

  /** What an event is to the account's list. */
  function OpOf(net: Network, genesis: Txn, a: Uint160, p: Pool, e: Event): (op: Option<Op>)
    requires StoreAfter(net, genesis, p.blocks).Ok?
  {
    match e
    case Submitting(t, vetoed) => Some(Submit(t, GetNonce(StoreAfter(net, genesis, p.blocks).value, a), vetoed))
    case Saving(_) => None
    case Cleaning => if p.cleaned < |History(p.blocks, a)| then Some(Remove(History(p.blocks, a)[p.cleaned])) else None
    case Dropping(hash) => Some(Drop(hash))
  }

  /** What is submitted for the account. */
  predicate Proper(a: Uint160, e: Event) {
    e.Submitting? ==> Ordinary(e.txn) && e.txn.sender == a && e.txn.nonce < TWO_64
  }

  /** The account's transactions that are on the chain and not yet cleaned. */
  function Pending(a: Uint160, p: Pool): int {
    |History(p.blocks, a)| - p.cleaned
  }

  /** The event can happen: a saved block was accepted, no submission appends after the largest nonce,
      and the pool is not 2^64 transactions behind. */
  ghost predicate Possible(rules: Rules, net: Network, genesis: Txn, a: Uint160, cap: nat, p: Pool, e: Event)
    requires AcceptedChain(rules, net, genesis, p.blocks) && ListOk(p.list)
  {
    var op := OpOf(net, genesis, a, p, e);
    && Proper(a, e) && (op.Some? ==> !Wraps(p.list, cap, op.value))
    && (e.Saving? ==> AcceptedChain(rules, net, genesis, p.blocks + [e.block]))
    && Pending(a, p) + cap <= TWO_64
  }

  function Next(net: Network, genesis: Txn, a: Uint160, cap: nat, p: Pool, e: Event): Pool
    requires StoreAfter(net, genesis, p.blocks).Ok? && ListOk(p.list)
  {
    var op := OpOf(net, genesis, a, p, e);
    Pool(
      if op.Some? then After(p.list, cap, op.value) else p.list,
      if e.Saving? then p.blocks + [e.block] else p.blocks,
      if e.Cleaning? && op.Some? then p.cleaned + 1 else p.cleaned)
  }

  lemma NextKeeps(rules: Rules, net: Network, genesis: Txn, a: Uint160, cap: nat, p: Pool, e: Event)
    requires AcceptedChain(rules, net, genesis, p.blocks) && ListOk(p.list) && Possible(rules, net, genesis, a, cap, p, e)
    ensures AcceptedChain(rules, net, genesis, Next(net, genesis, a, cap, p, e).blocks)
    ensures ListOk(Next(net, genesis, a, cap, p, e).list)
    ensures |Next(net, genesis, a, cap, p, e).list| <= if |p.list| > cap then |p.list| else cap
  {
    hide AcceptedChain, ListOk, After, Wraps, History, StoreAfter, GetNonce, Ordinary;
    ChainIsStored(rules, net, genesis, p.blocks);
    var op := OpOf(net, genesis, a, p, e);
    if op.Some? {
      AfterKeeps(p.list, cap, op.value);
    }
  }

  /** The pool after a run of events, if each could happen. */
  ghost function PoolAfter(rules: Rules, net: Network, genesis: Txn, a: Uint160, cap: nat,
          events: seq<Event>): (r: Option<Pool>)
    requires AcceptedChain(rules, net, genesis, [])
    ensures r.Some? ==> AcceptedChain(rules, net, genesis, r.value.blocks) && ListOk(r.value.list)
  {
    if events == [] then Some(Pool([], [], 0))
    else
      var p, e := PoolAfter(rules, net, genesis, a, cap, events[..|events| - 1]), events[|events| - 1];
      if p.None? || !Possible(rules, net, genesis, a, cap, p.value, e) then None
      else
        NextKeeps(rules, net, genesis, a, cap, p.value, e);
        Some(Next(net, genesis, a, cap, p.value, e))
  }

  // ----- Where the list starts -----

  predicate StartsAt(list: seq<Txn>, n: nat)
    requires list != []
  {
    list[0].nonce == n % TWO_64
  }

  /** The list starts at the nonce of some transaction not yet cleaned, or right after the last. */
  ghost predicate Aligned(a: Uint160, p: Pool) {
    && 0 <= Pending(a, p)
    && (p.list != [] ==> exists n: nat :: p.cleaned <= n <= |History(p.blocks, a)| && StartsAt(p.list, n))
    && (forall t :: t in p.list ==> Ordinary(t) && t.sender == a)
  }

  lemma NotBack(c: nat, d: nat, j: nat, m: nat)
    requires 0 < m && 0 < d && d + j < m && (c + d) % m + j < m
    ensures (c + d) % m + j != c % m
  {
    if (c + d) % m + j == c % m {
      DivMod(c + d, m);
      DivUnique(c + d + j, m, (c + d) / m, (c + d) % m + j);
      SameRemainder(c, c + d + j, m);
    }
  }

  /** A nonce cleaned out of turn is not found in the list. */
  lemma Elsewhere(s: seq<Txn>, c: nat, d: nat)
    requires ListOk(s) && s != [] && StartsAt(s, c + d) && 0 < d && d + |s| <= TWO_64
    ensures Offset(s, c % TWO_64).None?
  {
    if Offset(s, c % TWO_64).Some? {
      var j := Offset(s, c % TWO_64).value;
      NotBack(c, d, j, TWO_64);
    }
  }

  /** A nonce cleaned in turn is that of the first entry, and exactly that entry goes. */
  lemma CleansFirst(s: seq<Txn>, c: nat)
    requires ListOk(s) && s != [] && StartsAt(s, c)
    ensures Removed(s, c % TWO_64) == s[1..]
    ensures s[1..] != [] ==> StartsAt(s[1..], c + 1)
  {
    if |s| > 1 {
      assert s[1].nonce == c % TWO_64 + 1 < TWO_64;
      ModSucc(c, TWO_64);
    }
  }

  lemma Grows(blocks: seq<Block>, b: Block, a: Uint160)
    ensures |History(blocks + [b], a)| >= |History(blocks, a)|
  {
    assert (blocks + [b])[..|blocks|] == blocks;
  }

  /** An operation that does not remove leaves the first nonce, or starts the list at the ledger's. */
  lemma FirstStays(s: seq<Txn>, cap: nat, op: Op)
    requires ListOk(s) && !op.Remove? && After(s, cap, op) != []
    ensures s != [] ==> After(s, cap, op)[0].nonce == s[0].nonce
    ensures s == [] ==> op.Submit? && After(s, cap, op)[0].nonce == op.ledgerNonce
  {
    hide HasHash;
  }

  lemma CleaningAligns(a: Uint160, p: Pool)
    requires ListOk(p.list) && Aligned(a, p) && 0 < Pending(a, p) && Pending(a, p) + |p.list| <= TWO_64
    ensures Aligned(a, p.(list := Removed(p.list, p.cleaned % TWO_64), cleaned := p.cleaned + 1))
  {
    hide ListOk, History, Ordinary, StartsAt;
    if p.list == [] {
      assert Offset(p.list, p.cleaned % TWO_64).None?;
    } else {
      var n: nat :| p.cleaned <= n <= |History(p.blocks, a)| && StartsAt(p.list, n);
      if n == p.cleaned {
        CleansFirst(p.list, n);
      } else {
        Elsewhere(p.list, p.cleaned, n - p.cleaned);
      }
    }
  }

  lemma OtherAligns(net: Network, genesis: Txn, a: Uint160, cap: nat, p: Pool, e: Event)
    requires StoreAfter(net, genesis, p.blocks).Ok? && ListOk(p.list) && Aligned(a, p) && Proper(a, e) && !e.Cleaning?
    requires GetNonce(StoreAfter(net, genesis, p.blocks).value, a) == |History(p.blocks, a)| % TWO_64
    ensures Aligned(a, Next(net, genesis, a, cap, p, e))
  {
    hide ListOk, History, Ordinary, After, StoreAfter, GetNonce;
    var q := Next(net, genesis, a, cap, p, e);
    if e.Saving? {
      Grows(p.blocks, e.block, a);
    } else {
      var op := OpOf(net, genesis, a, p, e).value;
      AfterKeepsNonces(p.list, cap, op);
      if q.list != [] {
        FirstStays(p.list, cap, op);
        assert p.list == [] ==> StartsAt(q.list, |History(p.blocks, a)|);
        assert p.list != [] ==> forall n: nat :: StartsAt(p.list, n) ==> StartsAt(q.list, n);
      }
    }
  }

  lemma {:induction false} StaysAligned(rules: Rules, net: Network, genesis: Txn, a: Uint160, cap: nat,
          events: seq<Event>)
    requires AcceptedChain(rules, net, genesis, []) && a != net.donationAddress
    requires PoolAfter(rules, net, genesis, a, cap, events).Some?
    ensures Aligned(a, PoolAfter(rules, net, genesis, a, cap, events).value)
    ensures |PoolAfter(rules, net, genesis, a, cap, events).value.list| <= cap
  {
    hide AcceptedChain, StoreAfter, ListOk, Aligned, GetNonce, Wraps, After, History, Removed;
    if events == [] {
      NothingPending(a);
    } else {
      var before, e := events[..|events| - 1], events[|events| - 1];
      StaysAligned(rules, net, genesis, a, cap, before);
      var p := PoolAfter(rules, net, genesis, a, cap, before).value;
      NextKeeps(rules, net, genesis, a, cap, p, e);
      ChainIsStored(rules, net, genesis, p.blocks);
      NonceDiscipline(rules, net, genesis, p.blocks, a);
      if e.Cleaning? {
        if p.cleaned < |History(p.blocks, a)| {
          CleaningAligns(a, p);
          CleanedPool(net, genesis, a, cap, p);
        }
      } else {
        OtherAligns(net, genesis, a, cap, p, e);
      }
    }
  }

  lemma CleanedPool(net: Network, genesis: Txn, a: Uint160, cap: nat, p: Pool)
    requires StoreAfter(net, genesis, p.blocks).Ok? && ListOk(p.list) && p.cleaned < |History(p.blocks, a)|
    ensures Next(net, genesis, a, cap, p, Cleaning)
         == p.(list := Removed(p.list, History(p.blocks, a)[p.cleaned]), cleaned := p.cleaned + 1)
  {
    hide ListOk, History, Removed, StoreAfter;
  }

  lemma NothingPending(a: Uint160)
    ensures Aligned(a, Pool([], [], 0))
  {
  }

  /** The pool follows the ledger: whenever the pool has been told of every saved block, an account's
      pending transactions carry consecutive nonces from the ledger's, which is what a proposer relies on. */
  lemma PoolFollowsLedger(rules: Rules, net: Network, genesis: Txn, a: Uint160, cap: nat, events: seq<Event>,
          nanoPays: seq<Txn>)
    requires AcceptedChain(rules, net, genesis, []) && a != net.donationAddress
    requires PoolAfter(rules, net, genesis, a, cap, events).Some?
    requires Pending(a, PoolAfter(rules, net, genesis, a, cap, events).value) == 0
    requires forall t :: t in nanoPays ==> t.payload.NanoPay?
    ensures var p := PoolAfter(rules, net, genesis, a, cap, events).value;
      && StoreAfter(net, genesis, p.blocks).Ok? && |p.list| <= cap
      && Mining.PoolList(StoreAfter(net, genesis, p.blocks).value, a, p.list + nanoPays)
  {
    hide AcceptedChain, StoreAfter, GetNonce, History, PoolAfter;
    StaysAligned(rules, net, genesis, a, cap, events);
    var p := PoolAfter(rules, net, genesis, a, cap, events).value;
    ChainIsStored(rules, net, genesis, p.blocks);
    NonceDiscipline(rules, net, genesis, p.blocks, a);
    InOrder(StoreAfter(net, genesis, p.blocks).value, a, p.list, nanoPays, |History(p.blocks, a)|);
  }

  lemma InOrder(store: Store, a: Uint160, list: seq<Txn>, nanoPays: seq<Txn>, n: nat)
    requires ListOk(list) && GetNonce(store, a) == n % TWO_64 && (list != [] ==> StartsAt(list, n))
    requires (forall t :: t in list ==> Ordinary(t)) && (forall t :: t in nanoPays ==> t.payload.NanoPay?)
    ensures Mining.PoolList(store, a, list + nanoPays)
  {
    hide GetNonce;
    var all := list + nanoPays;
    forall i | 0 <= i < |all| ensures all[i] == (if i < |list| then list[i] else nanoPays[i - |list|]) {
    }
  }

  /** Nor does a stored nonce ever leave its range. */
  lemma NoncesStayInRange(rules: Rules, net: Network, genesis: Txn, blocks: seq<Block>)
    requires AcceptedChain(rules, net, genesis, blocks)
    ensures StoreAfter(net, genesis, blocks).Ok? && Mining.NoncesInRange(StoreAfter(net, genesis, blocks).value)
  {
    hide AcceptedChain, StoreAfter, GetNonce, History;
    ChainIsStored(rules, net, genesis, blocks);
    forall a ensures GetNonce(StoreAfter(net, genesis, blocks).value, a) < TWO_64 {
      if a == net.donationAddress {
        DonationNonce(rules, net, genesis, blocks);
      } else {
        NonceDiscipline(rules, net, genesis, blocks, a);
      }
    }
  }
}
