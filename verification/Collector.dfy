/** TxnCollection: the pool's per-account lists, offered best fee first. */
module Collector {
  import opened Common
  import opened Sums
  import opened Transactions

  type TxnLists = map<Uint160, seq<Txn>>

  /** Descending: nothing stands before something better. */
  ghost predicate Descending(less: (Txn, Txn) -> bool, tops: seq<Txn>) {
    forall i, j :: 0 <= i < j < |tops| ==> !less(tops[i], tops[j])
  }

  /** Sorting, best first, under whatever order the fees give. */
  ghost predicate Sorts(sort: seq<Txn> -> seq<Txn>, less: (Txn, Txn) -> bool) {
    forall s :: multiset(sort(s)) == multiset(s) && Descending(less, sort(s))
  }

  /** Every list belongs to its key and is not empty. */
  predicate ListsOk(lists: TxnLists) {
    forall a :: a in lists ==> lists[a] != [] && forall t :: t in lists[a] ==> t.sender == a
  }

  predicate DistinctSenders(tops: seq<Txn>) {
    forall i, j :: 0 <= i < j < |tops| ==> tops[i].sender != tops[j].sender
  }

  /** taken[a] counts the transactions of a's list already consumed; dropped are the accounts given up.
      An account is active while it has neither run out nor been given up. */
  predicate Active(lists: TxnLists, taken: map<Uint160, nat>, dropped: set<Uint160>, a: Uint160)
    requires taken.Keys == lists.Keys
  {
    a in lists && a !in dropped && taken[a] < |lists[a]|
  }

  /** Exactly the active accounts offer their next transaction, with the rest of their list waiting. */
  ghost predicate Offers(lists: TxnLists, taken: map<Uint160, nat>, dropped: set<Uint160>, txns: TxnLists,
          tops: seq<Txn>) {
    && taken.Keys == lists.Keys && txns.Keys == lists.Keys && dropped <= lists.Keys
    && (forall a :: a in lists ==> taken[a] <= |lists[a]|)
    && DistinctSenders(tops)
    && (forall t :: t in tops ==> Active(lists, taken, dropped, t.sender) && t == lists[t.sender][taken[t.sender]])
    && (forall a :: Active(lists, taken, dropped, a) ==>
          lists[a][taken[a]] in tops && txns[a] == lists[a][taken[a] + 1..])
  }

  /** No active account's next transaction is better than this one, itself the next of an active account. */
  ghost predicate BestOffer(less: (Txn, Txn) -> bool, lists: TxnLists, taken: map<Uint160, nat>,
          dropped: set<Uint160>, t: Txn)
    requires taken.Keys == lists.Keys
  {
    && Active(lists, taken, dropped, t.sender) && t == lists[t.sender][taken[t.sender]]
    && forall a :: Active(lists, taken, dropped, a) && a != t.sender ==> !less(t, lists[a][taken[a]])
  }

  function Lengths(txns: TxnLists): map<Uint160, int> {
    map a | a in txns :: |txns[a]|
  }

  /** What is still to be offered, at most. */
  ghost function Remaining(txns: TxnLists, tops: seq<Txn>): int {
    |tops| + Sum(Lengths(txns))
  }

  lemma RemainingNonNegative(txns: TxnLists, tops: seq<Txn>)
    ensures Remaining(txns, tops) >= |tops|
  {
    SumBounds(Lengths(txns), 0);
  }

  lemma PermutedMembers(xs: seq<Txn>, ys: seq<Txn>)
    requires multiset(xs) == multiset(ys)
    ensures |xs| == |ys| && forall t :: t in xs <==> t in ys
  {
    assert |multiset(xs)| == |xs| && |multiset(ys)| == |ys|;
    forall t ensures t in xs <==> t in ys {
      assert t in multiset(xs) <==> t in xs;
      assert t in multiset(ys) <==> t in ys;
    }
  }

  /** Senders stay distinct under permutation. */
  lemma PermutedSenders(xs: seq<Txn>, ys: seq<Txn>)
    requires multiset(xs) == multiset(ys) && DistinctSenders(xs)
    ensures DistinctSenders(ys)
  {
    forall i, j | 0 <= i < j < |ys| ensures ys[i].sender != ys[j].sender {
      PermutedMembers(xs, ys);
      assert ys[i] in ys && ys[j] in ys;
      if ys[i].sender == ys[j].sender {
        var m, n :| 0 <= m < |xs| && 0 <= n < |xs| && xs[m] == ys[i] && xs[n] == ys[j];
        Twice(ys, i, j);
        Once(xs, m);
      }
    }
  }

  lemma Twice(ys: seq<Txn>, i: nat, j: nat)
    requires i < j < |ys| && ys[i] == ys[j]
    ensures multiset(ys)[ys[i]] >= 2
  {
    assert ys == ys[..i] + [ys[i]] + ys[i + 1..j] + [ys[j]] + ys[j + 1..];
  }

  lemma Once(xs: seq<Txn>, m: nat)
    requires m < |xs| && DistinctSenders(xs)
    ensures multiset(xs)[xs[m]] == 1
  {
    assert xs == xs[..m] + [xs[m]] + xs[m + 1..];
    assert xs[m] !in xs[..m] && xs[m] !in xs[m + 1..];
  }

  /** The sender of an offer, and what waits behind it. */
  lemma OfferFacts(lists: TxnLists, taken: map<Uint160, nat>, dropped: set<Uint160>, txns: TxnLists, tops: seq<Txn>)
    requires Offers(lists, taken, dropped, txns, tops) && tops != []
    ensures var s := tops[0].sender;
      && Active(lists, taken, dropped, s) && s in txns && s in taken && tops[0] == lists[s][taken[s]]
      && txns[s] == lists[s][taken[s] + 1..]
  {
    assert tops[0] in tops;
  }

  /** Consuming the first offer: the sender's next transaction takes its place. */
  lemma NextOffer(lists: TxnLists, taken: map<Uint160, nat>, dropped: set<Uint160>, txns: TxnLists, tops: seq<Txn>)
    requires ListsOk(lists) && Offers(lists, taken, dropped, txns, tops) && tops != []
    requires var s := tops[0].sender; s in txns && s in taken && txns[s] != []
    ensures var s := tops[0].sender;
      Offers(lists, taken[s := taken[s] + 1], dropped, txns[s := txns[s][1..]], tops[0 := txns[s][0]])
  {
    NextFacts(lists, taken, dropped, txns, tops);
    hide Active, ListsOk, DistinctSenders, Offers;
    var s := tops[0].sender;
    var next := tops[0 := txns[s][0]];
    OthersRemain(tops, next);
    OfferKeys(lists, taken, dropped, txns, tops);
    SwapOffer(lists, taken, dropped, txns, tops, s, txns[s][0], taken[s := taken[s] + 1], txns[s := txns[s][1..]],
      next);
  }

  /** An offer x of the same sender s in place of the old one; everybody else's stands. */
  lemma SwapOffer(lists: TxnLists, taken: map<Uint160, nat>, dropped: set<Uint160>, txns: TxnLists, tops: seq<Txn>,
          s: Uint160, x: Txn, taken': map<Uint160, nat>, txns': TxnLists, next: seq<Txn>)
    requires ListsOk(lists) && Offers(lists, taken, dropped, txns, tops)
    requires taken'.Keys == lists.Keys == txns'.Keys && forall a :: a in lists ==> taken'[a] <= |lists[a]|
    requires forall a :: Active(lists, taken', dropped, a) <==> Active(lists, taken, dropped, a)
    requires forall a :: a in lists && a != s ==> taken'[a] == taken[a] && txns'[a] == txns[a]
    requires Active(lists, taken, dropped, s) && taken'[s] < |lists[s]| && x == lists[s][taken'[s]] && x.sender == s
    requires txns'[s] == lists[s][taken'[s] + 1..]
    requires DistinctSenders(next) && forall t :: t in next <==> t == x || (t in tops && t.sender != s)
    ensures Offers(lists, taken', dropped, txns', next)
  {
    hide Active, DistinctSenders, ListsOk;
    ActiveFacts(lists, taken, dropped);
    forall a | Active(lists, taken', dropped, a) ensures lists[a][taken'[a]] in next && txns'[a] == lists[a][taken'[a] + 1..] {
      assert Active(lists, taken, dropped, a);
    }
  }

  /** What follows the first offer in its sender's list. */
  lemma NextFacts(lists: TxnLists, taken: map<Uint160, nat>, dropped: set<Uint160>, txns: TxnLists, tops: seq<Txn>)
    requires ListsOk(lists) && Offers(lists, taken, dropped, txns, tops) && tops != []
    requires var s := tops[0].sender; s in txns && s in taken && txns[s] != []
    ensures var s := tops[0].sender; var taken' := taken[s := taken[s] + 1];
      && taken'.Keys == taken.Keys == lists.Keys && DistinctSenders(tops)
      && Active(lists, taken, dropped, s) && taken[s] + 1 < |lists[s]| && txns[s][0] == lists[s][taken[s] + 1]
      && txns[s][0].sender == s && txns[s][1..] == lists[s][taken[s] + 2..]
      && (forall a :: Active(lists, taken', dropped, a) <==> Active(lists, taken, dropped, a))
  {
    OfferFacts(lists, taken, dropped, txns, tops);
    OfferKeys(lists, taken, dropped, txns, tops);
    hide Offers;
    StillActive(lists, taken, dropped, tops[0].sender);
  }

  /** An account with another transaction after its next stays active, like everybody else. */
  lemma StillActive(lists: TxnLists, taken: map<Uint160, nat>, dropped: set<Uint160>, s: Uint160)
    requires ListsOk(lists) && taken.Keys == lists.Keys && Active(lists, taken, dropped, s) && taken[s] + 1 < |lists[s]|
    ensures var taken' := taken[s := taken[s] + 1];
      && (forall a :: Active(lists, taken', dropped, a) <==> Active(lists, taken, dropped, a))
      && lists[s][taken[s] + 1].sender == s
  {
    assert lists[s][taken[s] + 1] in lists[s];
  }

  /** Replacing the first offer by one of the same sender. */
  lemma OthersRemain(tops: seq<Txn>, next: seq<Txn>)
    requires tops != [] && DistinctSenders(tops) && |next| == |tops| && next[1..] == tops[1..] && next[0].sender == tops[0].sender
    ensures DistinctSenders(next)
    ensures forall t :: t in next <==> t == next[0] || (t in tops && t.sender != tops[0].sender)
  {
    forall i | 0 < i < |tops| ensures next[i] == tops[i] {
      assert next[i] == next[1..][i - 1] && tops[i] == tops[1..][i - 1];
    }
  }

  lemma RestRemain(tops: seq<Txn>)
    requires tops != [] && DistinctSenders(tops)
    ensures DistinctSenders(tops[1..])
    ensures forall t :: t in tops[1..] <==> t in tops && t.sender != tops[0].sender
  {
    forall i | 0 < i < |tops| ensures tops[i] == tops[1..][i - 1] {
    }
  }

  lemma ActiveFacts(lists: TxnLists, taken: map<Uint160, nat>, dropped: set<Uint160>)
    requires ListsOk(lists) && taken.Keys == lists.Keys
    ensures forall a :: Active(lists, taken, dropped, a) ==> a in lists && taken[a] < |lists[a]| && lists[a][taken[a]].sender == a
  {
    assert forall a :: Active(lists, taken, dropped, a) ==> lists[a][taken[a]] in lists[a];
  }

  /** Once the sender of the first offer is no longer active, exactly the other offers stand. */
  lemma RestOffers(lists: TxnLists, taken: map<Uint160, nat>, dropped: set<Uint160>, txns: TxnLists, tops: seq<Txn>,
          taken': map<Uint160, nat>, dropped': set<Uint160>)
    requires ListsOk(lists) && Offers(lists, taken, dropped, txns, tops) && tops != []
    requires taken'.Keys == lists.Keys && dropped' <= lists.Keys && forall a :: a in lists ==> taken'[a] <= |lists[a]|
    requires forall a :: Active(lists, taken', dropped', a) <==> Active(lists, taken, dropped, a) && a != tops[0].sender
    requires forall a :: a in lists && a != tops[0].sender ==> taken'[a] == taken[a]
    ensures Offers(lists, taken', dropped', txns, tops[1..])
  {
    hide Active, DistinctSenders, ListsOk;
    RestRemain(tops);
    ActiveFacts(lists, taken, dropped);
    forall a | Active(lists, taken', dropped', a) ensures lists[a][taken'[a]] in tops[1..] && txns[a] == lists[a][taken'[a] + 1..] {
      assert Active(lists, taken, dropped, a);
    }
  }

  /** Consuming the last transaction of an account: nobody takes its place. */
  lemma LastOffer(lists: TxnLists, taken: map<Uint160, nat>, dropped: set<Uint160>, txns: TxnLists, tops: seq<Txn>)
    requires ListsOk(lists) && Offers(lists, taken, dropped, txns, tops) && tops != []
    requires var s := tops[0].sender; s in txns && s in taken && txns[s] == []
    ensures var s := tops[0].sender; Offers(lists, taken[s := taken[s] + 1], dropped, txns, tops[1..])
  {
    OfferFacts(lists, taken, dropped, txns, tops);
    OfferKeys(lists, taken, dropped, txns, tops);
    hide Offers, ListsOk;
    var s := tops[0].sender;
    RestOffers(lists, taken, dropped, txns, tops, taken[s := taken[s] + 1], dropped);
  }

  lemma OfferKeys(lists: TxnLists, taken: map<Uint160, nat>, dropped: set<Uint160>, txns: TxnLists, tops: seq<Txn>)
    requires Offers(lists, taken, dropped, txns, tops)
    ensures taken.Keys == lists.Keys == txns.Keys && dropped <= lists.Keys && forall a :: a in lists ==> taken[a] <= |lists[a]|
  {
  }

  /** Giving up the sender of the first offer takes that offer away and no other. */
  lemma DropOffer(lists: TxnLists, taken: map<Uint160, nat>, dropped: set<Uint160>, txns: TxnLists, tops: seq<Txn>)
    requires ListsOk(lists) && Offers(lists, taken, dropped, txns, tops) && tops != []
    ensures Offers(lists, taken, dropped + {tops[0].sender}, txns, tops[1..])
  {
    OfferFacts(lists, taken, dropped, txns, tops);
    OfferKeys(lists, taken, dropped, txns, tops);
    hide Offers, ListsOk;
    RestOffers(lists, taken, dropped, txns, tops, taken, dropped + {tops[0].sender});
  }

  /** One step of setting up: a list not yet on top offers its first transaction. */
  lemma OfferFirst(lists: TxnLists, none: map<Uint160, nat>, todo: set<Uint160>, txns: TxnLists, tops: seq<Txn>,
          a: Uint160)
    requires ListsOk(lists) && Offers(lists, none, todo, txns, tops) && a in todo && none[a] == 0
    ensures Offers(lists, none, todo - {a}, txns[a := lists[a][1..]], tops + [lists[a][0]])
  {
    var first, all := lists[a][0], tops + [lists[a][0]];
    assert first in lists[a];
    assert forall t :: t in all <==> t in tops || t == first;
    forall i, j | 0 <= i < j < |all| ensures all[i].sender != all[j].sender {
      if j == |tops| { assert tops[i] in tops; }
    }
    forall b | Active(lists, none, todo - {a}, b) ensures lists[b][none[b]] in all {
      assert b != a ==> Active(lists, none, todo, b);
    }
  }

  lemma SortedOffers(lists: TxnLists, taken: map<Uint160, nat>, dropped: set<Uint160>, txns: TxnLists, tops: seq<Txn>,
          sorted: seq<Txn>)
    requires Offers(lists, taken, dropped, txns, tops) && multiset(sorted) == multiset(tops)
    ensures Offers(lists, taken, dropped, txns, sorted)
  {
    PermutedMembers(tops, sorted);
    PermutedSenders(tops, sorted);
  }

  lemma SortFacts(sort: seq<Txn> -> seq<Txn>, less: (Txn, Txn) -> bool, tops: seq<Txn>)
    requires Sorts(sort, less)
    ensures multiset(sort(tops)) == multiset(tops) && |sort(tops)| == |tops| && Descending(less, sort(tops))
  {
    hide Descending;
    PermutedMembers(sort(tops), tops);
  }

  lemma RestDescends(less: (Txn, Txn) -> bool, tops: seq<Txn>)
    requires Descending(less, tops) && tops != []
    ensures Descending(less, tops[1..])
  {
  }

  lemma UpdateShrinks(txns: TxnLists, tops: seq<Txn>, s: Uint160, tops': seq<Txn>)
    requires s in txns && txns[s] != [] && |tops'| == |tops|
    ensures Remaining(txns[s := txns[s][1..]], tops') == Remaining(txns, tops) - 1
  {
    SumSet(Lengths(txns), s, |txns[s]| - 1);
    assert Lengths(txns[s := txns[s][1..]]) == Lengths(txns)[s := |txns[s]| - 1];
  }

  lemma PopShrinks(txns: TxnLists, tops: seq<Txn>)
    requires tops != []
    ensures Remaining(txns, tops[1..]) == Remaining(txns, tops) - 1
  {
    hide Sum;
  }

  lemma NothingOffered(lists: TxnLists, none: map<Uint160, nat>)
    requires none == map a | a in lists :: 0
    ensures Offers(lists, none, lists.Keys, lists, [])
  {
  }

  class TxnCollection {
    var txns: TxnLists
    var tops: seq<Txn>
    const sort: seq<Txn> -> seq<Txn>
    ghost const less: (Txn, Txn) -> bool
    ghost const lists: TxnLists
    ghost var taken: map<Uint160, nat>
    ghost var dropped: set<Uint160>

    ghost predicate Valid()
      reads this
    {
      Sorts(sort, less) && ListsOk(lists) && Offers(lists, taken, dropped, txns, tops) && Descending(less, tops)
    }

    /** NewTxnCollection: every list is active, so each offers its first transaction. */
    constructor (txnLists: TxnLists, sort: seq<Txn> -> seq<Txn>, ghost less: (Txn, Txn) -> bool)
      requires ListsOk(txnLists) && Sorts(sort, less)
      ensures Valid() && lists == txnLists && taken == (map a | a in txnLists :: 0) && dropped == {} && this.less == less
    {
      hide Offers, Descending, Sorts;
      var remaining, todo := txnLists, txnLists.Keys;
      var firsts: seq<Txn> := [];
      ghost var none := map a | a in txnLists :: 0;
      NothingOffered(txnLists, none);
      while todo != {}
        invariant todo <= txnLists.Keys
        invariant Offers(txnLists, none, todo, remaining, firsts)
        decreases |todo|
      {
        var a :| a in todo;
        OfferFirst(txnLists, none, todo, remaining, firsts, a);
        firsts := firsts + [txnLists[a][0]];
        remaining := remaining[a := txnLists[a][1..]];
        todo := todo - {a};
      }
      SortFacts(sort, less, firsts);
      SortedOffers(txnLists, none, {}, remaining, firsts, sort(firsts));
      this.txns, this.tops, this.sort := remaining, sort(firsts), sort;
      this.lists, this.taken, this.dropped, this.less := txnLists, none, {}, less;
    }

    /** Peek: the best of what the active accounts offer, or nothing exactly when none is active. */
    method Peek() returns (t: Option<Txn>)
      requires Valid()
      ensures t.None? <==> forall a :: !Active(lists, taken, dropped, a)
      ensures t.Some? ==> tops != [] && t.value == tops[0] && BestOffer(less, lists, taken, dropped, t.value)
    {
      hide Sorts;
      t := if |tops| == 0 then None else Some(tops[0]);
      if tops != [] {
        OfferFacts(lists, taken, dropped, txns, tops);
        forall a | Active(lists, taken, dropped, a) && a != tops[0].sender ensures !less(tops[0], lists[a][taken[a]]) {
          assert lists[a][taken[a]] in lists[a];
          var j :| 0 <= j < |tops| && tops[j] == lists[a][taken[a]];
        }
      }
    }

    /** Update: the offered transaction was used. */
    method Update()
      requires Valid() && tops != []
      modifies this`txns, this`tops, this`taken
      ensures Valid()
      ensures var s := old(tops[0]).sender; s in old(taken) && taken == old(taken)[s := old(taken)[s] + 1]
      ensures Remaining(txns, tops) < old(Remaining(txns, tops))
    {
      hide Offers, ListsOk, Remaining, Active, Sorts, Descending;
      OfferFacts(lists, taken, dropped, txns, tops);
      var s := tops[0].sender;
      if s in txns && |txns[s]| > 0 {
        var next := tops[0 := txns[s][0]];
        NextOffer(lists, taken, dropped, txns, tops);
        SortFacts(sort, less, next);
        UpdateShrinks(txns, tops, s, sort(next));
        SortedOffers(lists, taken[s := taken[s] + 1], dropped, txns[s := txns[s][1..]], next, sort(next));
        tops, txns := next, txns[s := txns[s][1..]];
        tops := sort(tops);
      } else {
        LastOffer(lists, taken, dropped, txns, tops);
        RestDescends(less, tops);
        PopShrinks(txns, tops);
        tops := tops[1..];
      }
      taken := taken[s := taken[s] + 1];
    }

    /** Pop: the offered transaction, and with it the rest of its sender's list, is given up. */
    method Pop()
      requires Valid()
      modifies this`tops, this`dropped
      ensures Valid() && tops == (if old(tops) == [] then [] else old(tops)[1..])
      ensures dropped == old(dropped) + (if old(tops) == [] then {} else {old(tops)[0].sender})
      ensures old(tops) != [] ==> Remaining(txns, tops) < old(Remaining(txns, tops))
    {
      hide Offers, ListsOk, Sorts, Descending, Remaining;
      if |tops| > 0 {
        DropOffer(lists, taken, dropped, txns, tops);
        RestDescends(less, tops);
        PopShrinks(txns, tops);
        dropped := dropped + {tops[0].sender};
        tops := tops[1..];
      }
    }
  }
}
