/** The level-by-level root is that of a tree read from the top. */
module MerkleShape {
  import opened ByteStrings
  import opened Merkle
  import opened Powers

  /** The tree of a depth over some leaves: the hash of its left and its right half, where a missing
      right half is the left one again. */
  function Tree(h: Hash, leaves: seq<Digest>, depth: nat): (r: Digest)
    requires 0 < |leaves| <= Power(depth)
  {
    if depth == 0 then leaves[0]
    else
      var half := Power(depth - 1);
      if |leaves| <= half then
        var x := Tree(h, leaves, depth - 1);
        h(x + x)
      else
        h(Tree(h, leaves[..half], depth - 1) + Tree(h, leaves[half..], depth - 1))
  }

  lemma PairsApart(h: Hash, leaves: seq<Digest>, m: nat)
    requires 2 * m <= |leaves|
    ensures NextLevel(h, leaves[..2 * m]) == NextLevel(h, leaves)[..m]
    ensures NextLevel(h, leaves[2 * m..]) == NextLevel(h, leaves)[m..]
  {
    var left, right, all := leaves[..2 * m], leaves[2 * m..], NextLevel(h, leaves);
    forall i | 0 <= i < |NextLevel(h, left)|
      ensures NextLevel(h, left)[i] == all[i]
    {
      assert Pair(left, i) == Pair(leaves, i);
    }
    forall i | 0 <= i < |NextLevel(h, right)|
      ensures NextLevel(h, right)[i] == all[m + i]
    {
      assert Pair(right, i) == Pair(leaves, m + i);
    }
  }

  /** One level up the leaves are the pairs, and the tree is one less deep. */
  lemma {:induction false} LevelUp(h: Hash, leaves: seq<Digest>, depth: nat)
    requires 0 < |leaves| <= Power(depth + 1)
    ensures |NextLevel(h, leaves)| <= Power(depth)
    ensures Tree(h, leaves, depth + 1) == Tree(h, NextLevel(h, leaves), depth)
    decreases depth
  {
    if depth == 0 {
      assert NextLevel(h, leaves)[0] == h(Pair(leaves, 0));
    } else {
      var half := Power(depth);
      if |leaves| <= half {
        LevelUp(h, leaves, depth - 1);
      } else {
        LevelUp(h, leaves[..half], depth - 1);
        LevelUp(h, leaves[half..], depth - 1);
        PairsApart(h, leaves, Power(depth - 1));
      }
    }
  }

  lemma {:induction false} Fills(n: nat)
    ensures n <= Power(Levels(n))
  {
    if n > 1 {
      Fills((n + 1) / 2);
    }
  }

  /** The root of a list is the tree over it, read from the top; of the empty list it is zero. */
  lemma {:induction false} RootIsTree(h: Hash, leaves: seq<Digest>)
    ensures |leaves| <= Power(Levels(|leaves|))
    ensures |leaves| > 0 ==> Root(h, leaves) == Tree(h, leaves, Levels(|leaves|))
    ensures |leaves| == 0 ==> forall i :: 0 <= i < 32 ==> Root(h, leaves)[i] as int == 0
    decreases |leaves|
  {
    Fills(|leaves|);
    if |leaves| > 1 {
      var up := NextLevel(h, leaves);
      hide NextLevel;
      hide Tree;
      RootIsTree(h, up);
      LevelUp(h, leaves, Levels(|up|));
    }
  }
}
