/** The Merkle root over transaction hashes.  The pair hash (double SHA-256 of a concatenation) is a
    parameter; only the binding theorem assumes anything about it. */
module Merkle {
  import opened Arith
  import opened Common

  datatype MerkleTreeNode<T> = Leaf(hash: T) | Inner(hash: T, left: MerkleTreeNode<T>, right: MerkleTreeNode<T>)
  datatype MerkleTree<T> = MerkleTree(depth: nat, root: MerkleTreeNode<T>)

  /** The hashes one level up: an odd last node is paired with itself. */
  function LevelUp<T>(pair: (T, T) -> T, xs: seq<T>): seq<T> {
    seq((|xs| + 1) / 2, i requires 0 <= i < (|xs| + 1) / 2 =>
      pair(xs[2 * i], if 2 * i + 1 < |xs| then xs[2 * i + 1] else xs[2 * i]))
  }

  function Root<T>(pair: (T, T) -> T, xs: seq<T>): T
    requires xs != []
    decreases |xs|
  {
    if |xs| == 1 then xs[0] else Root(pair, LevelUp(pair, xs))
  }

  function Levels(n: nat): (levels: nat)
    requires n > 0
    ensures levels >= 1 && (levels == 1 <==> n == 1)
  {
    if n == 1 then 1 else 1 + Levels((n + 1) / 2)
  }

  predicate NoDuplicates<T(==)>(xs: seq<T>) {
    forall i, j :: 0 <= i < j < |xs| ==> xs[i] != xs[j]
  }

  // ----- The imperative code -----

  function Hashes<T>(nodes: seq<MerkleTreeNode<T>>): (hs: seq<T>)
    ensures |hs| == |nodes|
    ensures forall i :: 0 <= i < |nodes| ==> hs[i] == nodes[i].hash
  {
    seq(|nodes|, i requires 0 <= i < |nodes| => nodes[i].hash)
  }

  method GenerateLeaves<T>(hashes: seq<T>) returns (leaves: seq<MerkleTreeNode<T>>)
    ensures Hashes(leaves) == hashes
  {
    leaves := [];
    for i := 0 to |hashes|
      invariant Hashes(leaves) == hashes[..i]
    {
      leaves := leaves + [Leaf(hashes[i])];
    }
  }

  method LevelUpNodes<T>(pair: (T, T) -> T, nodes: seq<MerkleTreeNode<T>>) returns (nextLevel: seq<MerkleTreeNode<T>>)
    ensures Hashes(nextLevel) == LevelUp(pair, Hashes(nodes))
  {
    nextLevel := [];
    for i := 0 to |nodes| / 2
      invariant |nextLevel| == i
      invariant forall k :: 0 <= k < i ==> nextLevel[k].hash == LevelUp(pair, Hashes(nodes))[k]
    {
      var hash := pair(nodes[i * 2].hash, nodes[i * 2 + 1].hash);
      nextLevel := nextLevel + [Inner(hash, nodes[i * 2], nodes[i * 2 + 1])];
    }
    if |nodes| % 2 == 1 {
      var last := nodes[|nodes| - 1];
      nextLevel := nextLevel + [Inner(pair(last.hash, last.hash), last, last)];
    }
  }

  method NewMerkleTree<T>(pair: (T, T) -> T, hashes: seq<T>) returns (tree: Option<MerkleTree<T>>)
    ensures tree.None? <==> hashes == []
    ensures tree.Some? ==> tree.value.root.hash == Root(pair, hashes) && tree.value.depth == Levels(|hashes|)
  {
    if |hashes| == 0 {
      return None;
    }
    var height := 1;
    var nodes := GenerateLeaves(hashes);
    while |nodes| > 1
      invariant nodes != [] && Root(pair, Hashes(nodes)) == Root(pair, hashes)
      invariant height + Levels(|nodes|) == 1 + Levels(|hashes|)
      decreases |nodes|
    {
      nodes := LevelUpNodes(pair, nodes);
      height := height + 1;
    }
    tree := Some(MerkleTree(height, nodes[0]));
  }

  /** ComputeRoot */
  method ComputeRoot<T>(pair: (T, T) -> T, hashes: seq<T>) returns (root: Option<T>)
    ensures root == if hashes == [] then None else Some(Root(pair, hashes))
  {
    if |hashes| == 0 {
      return None;
    }
    if |hashes| == 1 {
      return Some(hashes[0]);
    }
    var tree := NewMerkleTree(pair, hashes);
    root := Some(tree.value.root.hash);
  }

  /** hasDuplicateHash: a count per hash, stopping at the first that is already positive. */
  method HasDuplicateHash<T(==)>(hashes: seq<T>) returns (dup: bool)
    ensures dup <==> !NoDuplicates(hashes)
  {
    var count: map<T, int> := map[];
    for i := 0 to |hashes|
      invariant NoDuplicates(hashes[..i])
      invariant forall h :: h in count <==> h in hashes[..i]
      invariant forall h :: h in count ==> count[h] == 1
    {
      var h := hashes[i];
      if (if h in count then count[h] else 0) > 0 {
        var j :| 0 <= j < i && hashes[j] == h;
        return true;
      }
      count := count[h := 1];
      assert hashes[..i + 1] == hashes[..i] + [h];
    }
    assert hashes[..|hashes|] == hashes;
    dup := false;
  }

  /** VerifyRoot accepts exactly the non-empty duplicate-free lists with the given root. */
  method VerifyRoot<T(==)>(pair: (T, T) -> T, hashes: seq<T>, root: T) returns (ok: bool)
    ensures ok <==> RootMatches(pair, hashes, root)
  {
    var dup := HasDuplicateHash(hashes);
    if dup {
      return false;
    }
    var computed := ComputeRoot(pair, hashes);
    ok := computed == Some(root);
  }

  predicate RootMatches<T(==)>(pair: (T, T) -> T, hashes: seq<T>, root: T) {
    hashes != [] && NoDuplicates(hashes) && Root(pair, hashes) == root
  }

  // ----- The root binds the list -----

  ghost predicate Injective<T(!new)>(pair: (T, T) -> T) {
    forall a, b, c, d :: pair(a, b) == pair(c, d) ==> a == c && b == d
  }

  /** h is reached by hashing exactly k levels above transaction hashes. */
  ghost predicate AtLevel<T(!new)>(pair: (T, T) -> T, h: T, k: nat) {
    if k == 0 then forall a, b :: pair(a, b) != h
    else exists a, b :: pair(a, b) == h && AtLevel(pair, a, k - 1)
  }

  ghost predicate AllAtLevel<T(!new)>(pair: (T, T) -> T, xs: seq<T>, k: nat) {
    forall i :: 0 <= i < |xs| ==> AtLevel(pair, xs[i], k)
  }

  /** A hash has one level only. */
  lemma {:induction false} LevelIsUnique<T(!new)>(pair: (T, T) -> T, h: T, j: nat, k: nat)
    requires Injective(pair) && AtLevel(pair, h, j) && AtLevel(pair, h, k)
    ensures j == k
  {
    if j > 0 && k > 0 {
      var a, b :| pair(a, b) == h && AtLevel(pair, a, j - 1);
      var c, d :| pair(c, d) == h && AtLevel(pair, c, k - 1);
      LevelIsUnique(pair, a, j - 1, k - 1);
    }
  }

  lemma LevelUpRises<T(!new)>(pair: (T, T) -> T, xs: seq<T>, k: nat)
    requires AllAtLevel(pair, xs, k)
    ensures AllAtLevel(pair, LevelUp(pair, xs), k + 1)
  {
  }

  lemma {:induction false} RootLevel<T(!new)>(pair: (T, T) -> T, xs: seq<T>, k: nat)
    requires xs != [] && AllAtLevel(pair, xs, k)
    ensures AtLevel(pair, Root(pair, xs), k + Levels(|xs|) - 1)
    decreases |xs|
  {
    if |xs| > 1 {
      LevelUpRises(pair, xs, k);
      RootLevel(pair, LevelUp(pair, xs), k + 1);
    }
  }

  /** Distinct nodes have distinct parents. */
  lemma LevelUpNoDuplicates<T(!new)>(pair: (T, T) -> T, xs: seq<T>)
    requires Injective(pair) && NoDuplicates(xs)
    ensures NoDuplicates(LevelUp(pair, xs))
  {
    var ys := LevelUp(pair, xs);
    forall i, j | 0 <= i < j < |ys| ensures ys[i] != ys[j] {
      assert xs[2 * i] != xs[2 * j];
    }
  }

  /** One level determines the level below, because a self-paired last node would be a duplicate in
      any other list. */
  lemma LevelUpBinds<T(!new)>(pair: (T, T) -> T, xs: seq<T>, ys: seq<T>)
    requires Injective(pair) && NoDuplicates(xs) && NoDuplicates(ys)
    requires LevelUp(pair, xs) == LevelUp(pair, ys)
    ensures xs == ys
  {
    var n := (|xs| + 1) / 2;
    assert |LevelUp(pair, xs)| == n && |LevelUp(pair, ys)| == (|ys| + 1) / 2;
    forall i | 0 <= i < n
      ensures xs[2 * i] == ys[2 * i]
      ensures 2 * i + 1 < |xs| <==> 2 * i + 1 < |ys|
      ensures 2 * i + 1 < |xs| ==> xs[2 * i + 1] == ys[2 * i + 1]
    {
      assert LevelUp(pair, xs)[i] == LevelUp(pair, ys)[i];
    }
    assert |xs| == |ys| by { if n > 0 { assert 2 * (n - 1) + 1 < |xs| <==> 2 * (n - 1) + 1 < |ys|; } }
    forall k | 0 <= k < |xs| ensures xs[k] == ys[k] {
      assert k == 2 * (k / 2) || k == 2 * (k / 2) + 1;
    }
  }

  lemma LevelsBind<T(!new)>(pair: (T, T) -> T, xs: seq<T>, ys: seq<T>, k: nat)
    requires Injective(pair) && xs != [] && ys != []
    requires AllAtLevel(pair, xs, k) && AllAtLevel(pair, ys, k)
    requires Root(pair, xs) == Root(pair, ys)
    ensures |xs| == 1 <==> |ys| == 1
  {
    hide *;
    RootLevel(pair, xs, k);
    RootLevel(pair, ys, k);
    LevelIsUnique(pair, Root(pair, xs), k + Levels(|xs|) - 1, k + Levels(|ys|) - 1);
  }

  /** Two lists at the same level with the same root are equal. */
  lemma {:induction false} RootBindsAtLevel<T(!new)>(pair: (T, T) -> T, xs: seq<T>, ys: seq<T>, k: nat)
    requires Injective(pair) && xs != [] && ys != []
    requires NoDuplicates(xs) && NoDuplicates(ys)
    requires AllAtLevel(pair, xs, k) && AllAtLevel(pair, ys, k)
    requires Root(pair, xs) == Root(pair, ys)
    ensures xs == ys
    decreases |xs|
  {
    hide Injective, AllAtLevel, NoDuplicates;
    LevelsBind(pair, xs, ys, k);
    if |xs| > 1 {
      LevelUpRises(pair, xs, k);
      LevelUpRises(pair, ys, k);
      LevelUpNoDuplicates(pair, xs);
      LevelUpNoDuplicates(pair, ys);
      RootBindsAtLevel(pair, LevelUp(pair, xs), LevelUp(pair, ys), k + 1);
      LevelUpBinds(pair, xs, ys);
    }
  }

  /** Merkle binding: with an injective pair hash and no transaction hash that is itself a pair
      hash, the root accepted by VerifyRoot determines the whole list, whatever the lengths. */
  lemma RootBinds<T(!new)>(pair: (T, T) -> T, xs: seq<T>, ys: seq<T>, root: T)
    requires Injective(pair) && AllAtLevel(pair, xs, 0) && AllAtLevel(pair, ys, 0)
    requires RootMatches(pair, xs, root) && RootMatches(pair, ys, root)
    ensures xs == ys
  {
    RootBindsAtLevel(pair, xs, ys, 0);
  }

  lemma PaddedLevelUp<T>(pair: (T, T) -> T, xs: seq<T>, ys: seq<T>)
    requires |xs| % 2 == 1 && |ys| == |xs| + 1 && ys[..|xs|] == xs && ys[|xs|] == xs[|xs| - 1]
    ensures LevelUp(pair, ys) == LevelUp(pair, xs)
  {
    forall i | 0 <= i < (|xs| + 1) / 2 ensures LevelUp(pair, ys)[i] == LevelUp(pair, xs)[i] {
      assert ys[2 * i] == xs[2 * i];
    }
  }

  /** Without the duplicate check the padding breaks it: repeating the last of an odd number of
      hashes keeps the root, whatever the pair hash. */
  lemma PaddingCollides<T>(pair: (T, T) -> T, xs: seq<T>)
    requires |xs| % 2 == 1 && |xs| > 1
    ensures xs + [xs[|xs| - 1]] != xs && Root(pair, xs + [xs[|xs| - 1]]) == Root(pair, xs)
  {
    PaddedLevelUp(pair, xs, xs + [xs[|xs| - 1]]);
  }

  // ----- The tree from the top -----

  /** The tree of depth d read from the root: the left half is full, and a part that does not reach into its
      right half stands on both sides. */
  function TopDown<T>(pair: (T, T) -> T, xs: seq<T>, d: nat): T
    requires 0 < |xs| <= Pow2(d)
    decreases d
  {
    if d == 0 then xs[0]
    else if |xs| <= Pow2(d - 1) then pair(TopDown(pair, xs, d - 1), TopDown(pair, xs, d - 1))
    else pair(TopDown(pair, xs[..Pow2(d - 1)], d - 1), TopDown(pair, xs[Pow2(d - 1)..], d - 1))
  }

  lemma TopDownUnfolds<T>(pair: (T, T) -> T, xs: seq<T>, d: nat, half: nat)
    requires d > 0 && 0 < |xs| <= Pow2(d) && half == Pow2(d - 1)
    ensures |xs| <= half ==> TopDown(pair, xs, d) == pair(TopDown(pair, xs, d - 1), TopDown(pair, xs, d - 1))
    ensures |xs| > half ==>
      TopDown(pair, xs, d) == pair(TopDown(pair, xs[..half], d - 1), TopDown(pair, xs[half..], d - 1))
  {
  }

  lemma LevelUpAt<T>(pair: (T, T) -> T, xs: seq<T>)
    ensures |LevelUp(pair, xs)| == (|xs| + 1) / 2
    ensures forall i :: 0 <= i < (|xs| + 1) / 2 ==>
      LevelUp(pair, xs)[i] == pair(xs[2 * i], if 2 * i + 1 < |xs| then xs[2 * i + 1] else xs[2 * i])
  {
  }

  /** A level splits where its list does, at an even place. */
  lemma LevelUpSplits<T>(pair: (T, T) -> T, xs: seq<T>, k: nat)
    requires 2 * k <= |xs|
    ensures k <= |LevelUp(pair, xs)|
    ensures LevelUp(pair, xs)[..k] == LevelUp(pair, xs[..2 * k]) && LevelUp(pair, xs)[k..] == LevelUp(pair, xs[2 * k..])
  {
    hide LevelUp;
    var left, right, up := xs[..2 * k], xs[2 * k..], LevelUp(pair, xs);
    LevelUpAt(pair, xs);
    LevelUpAt(pair, left);
    LevelUpAt(pair, right);
    forall i | 0 <= i < k ensures up[i] == LevelUp(pair, left)[i] {
      assert left[2 * i] == xs[2 * i] && left[2 * i + 1] == xs[2 * i + 1];
    }
    forall i | 0 <= i < |up| - k ensures up[k + i] == LevelUp(pair, right)[i] {
      assert right[2 * i] == xs[2 * (k + i)];
      assert 2 * i + 1 < |right| ==> right[2 * i + 1] == xs[2 * (k + i) + 1];
    }
  }

  lemma {:induction false} TopDownRises<T>(pair: (T, T) -> T, xs: seq<T>, d: nat)
    requires d > 0 && 0 < |xs| <= Pow2(d)
    ensures 0 < |LevelUp(pair, xs)| <= Pow2(d - 1) && TopDown(pair, xs, d) == TopDown(pair, LevelUp(pair, xs), d - 1)
    decreases d
  {
    hide LevelUp, TopDown;
    var up := LevelUp(pair, xs);
    LevelUpAt(pair, xs);
    if d == 1 {
      TopDownOfTwo(pair, xs);
    } else {
      var half := Pow2(d - 2);
      assert Pow2(d - 1) == 2 * half && Pow2(d) == 4 * half;
      hide Pow2;
      TopDownUnfolds(pair, xs, d, 2 * half);
      TopDownUnfolds(pair, up, d - 1, half);
      if |xs| <= 2 * half {
        TopDownRises(pair, xs, d - 1);
      } else {
        TopDownRises(pair, xs[..2 * half], d - 1);
        TopDownRises(pair, xs[2 * half..], d - 1);
        LevelUpSplits(pair, xs, half);
      }
    }
  }

  lemma TopDownOfTwo<T>(pair: (T, T) -> T, xs: seq<T>)
    requires 0 < |xs| <= Pow2(1)
    ensures 0 < |LevelUp(pair, xs)| <= Pow2(0) && TopDown(pair, xs, 1) == TopDown(pair, LevelUp(pair, xs), 0)
  {
    assert Pow2(1) == 2 && Pow2(0) == 1;
  }

  /** The tree has the least depth its leaves fit in. */
  lemma {:induction false} LevelsAreLeast(n: nat)
    requires n > 0
    ensures n <= Pow2(Levels(n) - 1) && (n > 1 ==> Pow2(Levels(n) - 2) < n)
  {
    if n == 1 {
      assert Pow2(0) == 1;
    } else if n == 2 {
      assert Levels(2) == 2 && Pow2(1) == 2 && Pow2(0) == 1;
    } else {
      LevelsAreLeast((n + 1) / 2);
    }
  }

  /** Level by level or from the top, one root. */
  lemma {:induction false} RootFromTop<T>(pair: (T, T) -> T, xs: seq<T>)
    requires xs != []
    ensures |xs| <= Pow2(Levels(|xs|) - 1) && Root(pair, xs) == TopDown(pair, xs, Levels(|xs|) - 1)
    decreases |xs|
  {
    hide LevelUp, Pow2;
    LevelsAreLeast(|xs|);
    if |xs| == 1 {
    } else {
      hide TopDown;
      LevelUpAt(pair, xs);
      RootFromTop(pair, LevelUp(pair, xs));
      TopDownRises(pair, xs, Levels(|xs|) - 1);
    }
  }
}
