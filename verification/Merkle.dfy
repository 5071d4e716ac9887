/** The Merkle tree of `qw-crypto`: root, inclusion proof and proof check, with the last
    node of an odd level paired with itself. */
module Merkle {
  import opened ByteStrings

  datatype ProofNode = ProofNode(hash: Digest, isLeft: bool)

  datatype MerkleProof = MerkleProof(leaf: Digest, proof: seq<ProofNode>, root: Digest)

  const ZERO_ROOT: Digest := ZeroDigest()

  // ---- What the loops compute ----

  /** The bytes hashed for node `i` of the level above `level`. */
  function Pair(level: seq<Digest>, i: nat): (r: Bytes)
    requires 2 * i < |level|
  {
    Cat(level[2 * i], level[if 2 * i + 1 < |level| then 2 * i + 1 else 2 * i])
  }

  function NextLevel(h: Hash, level: seq<Digest>): (r: seq<Digest>)
    ensures |r| == (|level| + 1) / 2
  {
    seq<Digest>((|level| + 1) / 2, i requires 0 <= i < (|level| + 1) / 2 => h(Pair(level, i)))
  }

  function Root(h: Hash, leaves: seq<Digest>): (r: Digest)
    decreases |leaves|
  {
    if |leaves| == 0 then ZERO_ROOT
    else if |leaves| == 1 then leaves[0]
    else Root(h, NextLevel(h, leaves))
  }

  function Sibling(n: nat, index: nat): (s: nat)
    requires index < n
    ensures s < n
  {
    if index % 2 == 1 then index - 1 else if index + 1 < n then index + 1 else index
  }

  function Path(h: Hash, leaves: seq<Digest>, index: nat): (path: seq<ProofNode>)
    requires index < |leaves|
    decreases |leaves|
  {
    if |leaves| == 1 then []
    else [ProofNode(leaves[Sibling(|leaves|, index)], index % 2 == 1)] + Path(h, NextLevel(h, leaves), index / 2)
  }

  function Combined(current: Digest, node: ProofNode): (r: Bytes) {
    if node.isLeft then Cat(node.hash, current) else Cat(current, node.hash)
  }

  /** The root a proof path leads to from `current`. */
  function Climb(h: Hash, current: Digest, path: seq<ProofNode>): (r: Digest)
    decreases |path|
  {
    if path == [] then current else Climb(h, h(Combined(current, path[0])), path[1..])
  }

  // ---- Every byte string hashed on the way ----

  function LevelInputs(level: seq<Digest>): (r: set<Bytes>) {
    set i | 0 <= i < (|level| + 1) / 2 :: Pair(level, i)
  }

  function TreeInputs(h: Hash, leaves: seq<Digest>): (r: set<Bytes>)
    decreases |leaves|
  {
    if |leaves| <= 1 then {} else LevelInputs(leaves) + TreeInputs(h, NextLevel(h, leaves))
  }

  function ClimbInputs(h: Hash, current: Digest, path: seq<ProofNode>): (r: set<Bytes>)
    decreases |path|
  {
    if path == [] then {}
    else {Combined(current, path[0])} + ClimbInputs(h, h(Combined(current, path[0])), path[1..])
  }

  // ---- The methods ----

  method BuildNextLevel(h: Hash, level: seq<Digest>) returns (next: seq<Digest>)
    ensures next == NextLevel(h, level)
  {
    next := [];
    var k := 0;
    while k < |level|
      invariant k == 2 * |next| || (k == |level| + 1 && k == 2 * |next|)
      invariant 2 * |next| <= |level| + 1
      invariant forall i :: 0 <= i < |next| ==> next[i] == h(Pair(level, i))
    {
      var combined := if k + 1 < |level| then Cat(level[k], level[k + 1]) else Cat(level[k], level[k]);
      assert combined == Pair(level, |next|);
      next := next + [h(combined)];
      k := k + 2;
    }
  }

  method ComputeRoot(h: Hash, leaves: seq<Digest>) returns (root: Digest)
    ensures root == Root(h, leaves)
  {
    if |leaves| == 0 {
      return ZERO_ROOT;
    }
    if |leaves| == 1 {
      return leaves[0];
    }
    var level := leaves;
    while |level| > 1
      invariant |level| >= 1
      invariant Root(h, level) == Root(h, leaves)
      decreases |level|
    {
      level := BuildNextLevel(h, level);
    }
    root := level[0];
  }

  method ComputeProof(h: Hash, leaves: seq<Digest>, index: nat) returns (proof: MerkleProof)
    requires index < |leaves|
    ensures proof == MerkleProof(leaves[index], Path(h, leaves, index), Root(h, leaves))
    ensures Climb(h, proof.leaf, proof.proof) == proof.root
  {
    var path: seq<ProofNode> := [];
    var level := leaves;
    var idx: nat := index;
    while |level| > 1
      invariant idx < |level|
      invariant Root(h, level) == Root(h, leaves)
      invariant path + Path(h, level, idx) == Path(h, leaves, index)
      decreases |level|
    {
      var siblingIdx := if idx % 2 == 0 then (if idx + 1 < |level| then idx + 1 else idx) else idx - 1;
      var node := ProofNode(level[siblingIdx], idx % 2 != 0);
      var next := BuildNextLevel(h, level);
      assert Path(h, level, idx) == [node] + Path(h, next, idx / 2);
      assert path + Path(h, level, idx) == path + [node] + Path(h, next, idx / 2);
      path := path + [node];
      level := next;
      idx := idx / 2;
    }
    ProofAccepted(h, leaves, index);
    proof := MerkleProof(leaves[index], path, level[0]);
  }

  method VerifyProof(h: Hash, proof: MerkleProof) returns (ok: bool)
    ensures ok <==> Climb(h, proof.leaf, proof.proof) == proof.root
  {
    var current := proof.leaf;
    var k := 0;
    while k < |proof.proof|
      invariant 0 <= k <= |proof.proof|
      invariant Climb(h, current, proof.proof[k..]) == Climb(h, proof.leaf, proof.proof)
    {
      var node := proof.proof[k];
      var combined := if node.isLeft then Cat(node.hash, current) else Cat(current, node.hash);
      assert proof.proof[k..][1..] == proof.proof[k + 1..];
      current := h(combined);
      k := k + 1;
    }
    ok := current == proof.root;
  }

  // ---- Completeness ----

  /** For every list size and index the generated path climbs to the root. */
  lemma {:induction false} ProofAccepted(h: Hash, leaves: seq<Digest>, index: nat)
    requires index < |leaves|
    ensures Climb(h, leaves[index], Path(h, leaves, index)) == Root(h, leaves)
    decreases |leaves|
  {
    if |leaves| > 1 {
      var path := Path(h, leaves, index);
      assert Combined(leaves[index], path[0]) == Pair(leaves, index / 2);
      assert path[1..] == Path(h, NextLevel(h, leaves), index / 2);
      ProofAccepted(h, NextLevel(h, leaves), index / 2);
    }
  }

  // ---- Binding ----

  lemma ConcatDigests(a: Digest, b: Digest, c: Digest, d: Digest)
    requires Cat(a, b) == Cat(c, d)
    ensures a == c && b == d
  {
    assert Cat(a, b)[..32] == a && Cat(c, d)[..32] == c;
    assert Cat(a, b)[32..] == b && Cat(c, d)[32..] == d;
  }

  /** Two levels with equally many nodes and the same level above are equal, or two pairs collide. */
  lemma LevelBinds(h: Hash, a: seq<Digest>, b: seq<Digest>)
    requires |a| == |b| && NextLevel(h, a) == NextLevel(h, b)
    ensures a == b || CollisionWithin(h, LevelInputs(a) + LevelInputs(b))
  {
    if i :| 0 <= i < (|a| + 1) / 2 && Pair(a, i) != Pair(b, i) {
      assert h(Pair(a, i)) == NextLevel(h, a)[i] == NextLevel(h, b)[i] == h(Pair(b, i));
      assert Pair(a, i) in LevelInputs(a) && Pair(b, i) in LevelInputs(b);
    } else {
      forall k | 0 <= k < |a|
        ensures a[k] == b[k]
      {
        var i := k / 2;
        assert Pair(a, i) == Pair(b, i);
        var j := if 2 * i + 1 < |a| then 2 * i + 1 else 2 * i;
        ConcatDigests(a[2 * i], a[j], b[2 * i], b[j]);
      }
    }
  }

  /** Equal roots over equally long leaf lists force equal leaves, or a collision among the
      nodes of the two trees. */
  lemma {:induction false} RootBinds(h: Hash, a: seq<Digest>, b: seq<Digest>)
    requires |a| == |b| && Root(h, a) == Root(h, b)
    ensures a == b || CollisionWithin(h, TreeInputs(h, a) + TreeInputs(h, b))
    decreases |a|
  {
    if |a| > 1 {
      var a', b' := NextLevel(h, a), NextLevel(h, b);
      RootBinds(h, a', b');
      if a' == b' {
        LevelBinds(h, a, b);
        if a != b {
          CollisionGrows(h, LevelInputs(a) + LevelInputs(b), TreeInputs(h, a) + TreeInputs(h, b));
        }
      } else {
        CollisionGrows(h, TreeInputs(h, a') + TreeInputs(h, b'), TreeInputs(h, a) + TreeInputs(h, b));
      }
    }
  }

  /** Equal length is needed: every odd list of three or more leaves has the root of the
      longer list that repeats its last leaf. */
  lemma RepeatedLastLeaf(h: Hash, leaves: seq<Digest>)
    requires |leaves| >= 3 && |leaves| % 2 == 1
    ensures Root(h, leaves + [leaves[|leaves| - 1]]) == Root(h, leaves)
  {
    RepeatedLevel(h, leaves, |leaves| / 2);
  }

  lemma RepeatedLevel(h: Hash, leaves: seq<Digest>, k: nat)
    requires |leaves| == 2 * k + 1
    ensures NextLevel(h, leaves + [leaves[2 * k]]) == NextLevel(h, leaves)
  {
    var a, b := NextLevel(h, leaves + [leaves[2 * k]]), NextLevel(h, leaves);
    assert |a| == k + 1 && |b| == k + 1;
    forall i | 0 <= i <= k
      ensures a[i] == b[i]
    {
      RepeatedPair(leaves, i);
    }
  }

  lemma RepeatedPair(leaves: seq<Digest>, i: nat)
    requires |leaves| % 2 == 1 && 2 * i < |leaves|
    ensures Pair(leaves + [leaves[|leaves| - 1]], i) == Pair(leaves, i)
  {
  }

  // ---- Soundness of an accepted proof ----

  /** The path has one node per level of a tree with `n` leaves, on the side `index` calls for. */
  predicate Fits(n: nat, index: nat, path: seq<ProofNode>)
    requires index < n
  {
    if n == 1 then path == []
    else path != [] && path[0].isLeft == (index % 2 == 1) && Fits((n + 1) / 2, index / 2, path[1..])
  }

  lemma {:induction false} GeneratedFits(h: Hash, leaves: seq<Digest>, index: nat)
    requires index < |leaves|
    ensures Fits(|leaves|, index, Path(h, leaves, index))
    decreases |leaves|
  {
    if |leaves| > 1 {
      GeneratedFits(h, NextLevel(h, leaves), index / 2);
      assert Path(h, leaves, index)[1..] == Path(h, NextLevel(h, leaves), index / 2);
    }
  }

  function Levels(n: nat): (r: nat) {
    if n <= 1 then 0 else 1 + Levels((n + 1) / 2)
  }

  lemma {:induction false} FitsLength(n: nat, index: nat, path: seq<ProofNode>)
    requires index < n && Fits(n, index, path)
    ensures |path| == Levels(n)
    decreases n
  {
    if n > 1 {
      FitsLength((n + 1) / 2, index / 2, path[1..]);
    }
  }

  function Sides(path: seq<ProofNode>): (sides: seq<bool>)
    ensures |sides| == |path| && forall i :: 0 <= i < |path| ==> sides[i] == path[i].isLeft
  {
    seq(|path|, i requires 0 <= i < |path| => path[i].isLeft)
  }

  /** The leaf that sides lead to, read from the root down; both sides of a doubled node lead to it. */
  function Place(n: nat, sides: seq<bool>): (i: nat)
    requires n >= 1 && |sides| == Levels(n)
    ensures i < n
    decreases n
  {
    if n == 1 then 0
    else
      var above := Place((n + 1) / 2, sides[1..]);
      if sides[0] then RightOf(n, above) else 2 * above
  }

  /** The right child of a node; of a doubled one its only child. */
  function RightOf(n: nat, i: nat): (r: nat)
    requires 2 * i < n
    ensures r < n
  {
    if 2 * i + 1 < n then 2 * i + 1 else 2 * i
  }

  /** The path with given sides: at each level the other child. */
  function Along(h: Hash, leaves: seq<Digest>, sides: seq<bool>): (path: seq<ProofNode>)
    requires |leaves| >= 1 && |sides| == Levels(|leaves|)
    decreases |leaves|
  {
    if |leaves| == 1 then []
    else
      var above := Place((|leaves| + 1) / 2, sides[1..]);
      [ProofNode(leaves[if sides[0] then 2 * above else RightOf(|leaves|, above)], sides[0])] + Along(h, NextLevel(h, leaves), sides[1..])
  }

  lemma StepBinds(leaves: seq<Digest>, above: nat, leaf: Digest, node: ProofNode)
    requires 2 * above < |leaves| && Combined(leaf, node) == Pair(leaves, above)
    ensures var left, right := leaves[2 * above], leaves[RightOf(|leaves|, above)];
            if node.isLeft then leaf == right && node.hash == left else leaf == left && node.hash == right
  {
    var left, right := leaves[2 * above], leaves[RightOf(|leaves|, above)];
    if node.isLeft {
      ConcatDigests(node.hash, leaf, left, right);
    } else {
      ConcatDigests(leaf, node.hash, left, right);
    }
  }

  /** An accepted path with one node per level starts at the leaf its sides lead to and is the path
      along those sides, or a collision lies among the tree's nodes and the path's. */
  lemma {:induction false} ClimbBinds(h: Hash, leaves: seq<Digest>, leaf: Digest, path: seq<ProofNode>)
    requires |leaves| >= 1 && |path| == Levels(|leaves|)
    requires Climb(h, leaf, path) == Root(h, leaves)
    ensures || (leaf == leaves[Place(|leaves|, Sides(path))] && path == Along(h, leaves, Sides(path)))
            || CollisionWithin(h, TreeInputs(h, leaves) + ClimbInputs(h, leaf, path))
    decreases |leaves|
  {
    if |leaves| > 1 {
      var upper, x := NextLevel(h, leaves), Combined(leaf, path[0]);
      ClimbBinds(h, upper, h(x), path[1..]);
      if CollisionWithin(h, TreeInputs(h, upper) + ClimbInputs(h, h(x), path[1..])) {
        CollisionGrows(h, TreeInputs(h, upper) + ClimbInputs(h, h(x), path[1..]), TreeInputs(h, leaves) + ClimbInputs(h, leaf, path));
      } else {
        LowestStep(h, leaves, leaf, path);
      }
    }
  }

  /** The lowest step of a path whose upper part is along its sides. */
  lemma LowestStep(h: Hash, leaves: seq<Digest>, leaf: Digest, path: seq<ProofNode>)
    requires |leaves| > 1 && |path| == Levels(|leaves|)
    requires var upper := NextLevel(h, leaves);
             && h(Combined(leaf, path[0])) == upper[Place(|upper|, Sides(path[1..]))]
             && path[1..] == Along(h, upper, Sides(path[1..]))
    ensures || (leaf == leaves[Place(|leaves|, Sides(path))] && path == Along(h, leaves, Sides(path)))
            || CollisionWithin(h, TreeInputs(h, leaves) + ClimbInputs(h, leaf, path))
  {
    SidesTail(path);
    var above := Place((|leaves| + 1) / 2, Sides(path[1..]));
    var x, y := Combined(leaf, path[0]), Pair(leaves, above);
    if x == y {
      StepBinds(leaves, above, leaf, path[0]);
      assert path == [path[0]] + path[1..];
    } else {
      assert h(x) == h(y) && y in LevelInputs(leaves);
      assert x in ClimbInputs(h, leaf, path) && y in TreeInputs(h, leaves);
    }
  }

  /** Whatever the sides, some path with them is accepted, for exactly the leaf they lead to. */
  lemma {:induction false} AlongAccepted(h: Hash, leaves: seq<Digest>, sides: seq<bool>)
    requires |leaves| >= 1 && |sides| == Levels(|leaves|)
    ensures Climb(h, leaves[Place(|leaves|, sides)], Along(h, leaves, sides)) == Root(h, leaves)
    decreases |leaves|
  {
    if |leaves| > 1 {
      var upper := NextLevel(h, leaves);
      AlongAccepted(h, upper, sides[1..]);
      var path, above := Along(h, leaves, sides), Place(|upper|, sides[1..]);
      assert path[1..] == Along(h, upper, sides[1..]);
      assert Combined(leaves[Place(|leaves|, sides)], path[0]) == Pair(leaves, above);
    }
  }

  lemma {:induction false} AlongSides(h: Hash, leaves: seq<Digest>, sides: seq<bool>)
    requires |leaves| >= 1 && |sides| == Levels(|leaves|)
    ensures Sides(Along(h, leaves, sides)) == sides
    decreases |leaves|
  {
    if |leaves| > 1 {
      var rest := Along(h, NextLevel(h, leaves), sides[1..]);
      AlongSides(h, NextLevel(h, leaves), sides[1..]);
      SidesCons(Along(h, leaves, sides)[0], rest);
      assert sides == [sides[0]] + sides[1..];
    } else {
      assert sides == [];
    }
  }

  lemma SidesCons(node: ProofNode, path: seq<ProofNode>)
    ensures Sides([node] + path) == [node.isLeft] + Sides(path)
  {
  }

  lemma SidesTail(path: seq<ProofNode>)
    requires path != []
    ensures Sides(path)[1..] == Sides(path[1..]) && Sides(path)[0] == path[0].isLeft
  {
    var a, b := Sides(path)[1..], Sides(path[1..]);
    assert |a| == |b| && forall i :: 0 <= i < |a| ==> a[i] == b[i];
  }

  /** A path that fits an index leads to it, */
  lemma {:induction false} FittingPlace(n: nat, index: nat, path: seq<ProofNode>)
    requires index < n && Fits(n, index, path)
    ensures |path| == Levels(n) && Place(n, Sides(path)) == index
    decreases n
  {
    if n > 1 {
      FittingPlace((n + 1) / 2, index / 2, path[1..]);
      SidesTail(path);
    }
  }

  /** and the path along its sides is the generated one. */
  lemma {:induction false} FittingAlong(h: Hash, leaves: seq<Digest>, index: nat, path: seq<ProofNode>)
    requires index < |leaves| && Fits(|leaves|, index, path) && |path| == Levels(|leaves|)
    ensures Along(h, leaves, Sides(path)) == Path(h, leaves, index)
    decreases |leaves|
  {
    if |leaves| > 1 {
      FittingPlace((|leaves| + 1) / 2, index / 2, path[1..]);
      FittingAlong(h, NextLevel(h, leaves), index / 2, path[1..]);
      SidesTail(path);
      SiblingIsOther(|leaves|, index);
    }
  }

  lemma SiblingIsOther(n: nat, index: nat)
    requires index < n
    ensures 2 * (index / 2) < n && Sibling(n, index) == if index % 2 == 1 then 2 * (index / 2) else RightOf(n, index / 2)
  {
  }

  /** So an accepted path that fits `index` starts at leaf `index` and is the generated path. */
  lemma FittingBinds(h: Hash, leaves: seq<Digest>, index: nat, leaf: Digest, path: seq<ProofNode>)
    requires index < |leaves| && Fits(|leaves|, index, path)
    requires Climb(h, leaf, path) == Root(h, leaves)
    ensures || (leaf == leaves[index] && path == Path(h, leaves, index))
            || CollisionWithin(h, TreeInputs(h, leaves) + ClimbInputs(h, leaf, path))
  {
    FittingPlace(|leaves|, index, path);
    FittingAlong(h, leaves, index, path);
    ClimbBinds(h, leaves, leaf, path);
  }

  // ---- Shorter paths speak for inner nodes ----

  /** The nodes `d` levels above the leaves. */
  function Upper(h: Hash, leaves: seq<Digest>, d: nat): (level: seq<Digest>)
    requires |leaves| >= 1
    ensures |level| >= 1
    decreases d
  {
    if d == 0 then leaves else Upper(h, NextLevel(h, leaves), d - 1)
  }

  function Ancestor(index: nat, d: nat): (i: nat) {
    if d == 0 then index else Ancestor(index / 2, d - 1)
  }

  lemma {:induction false} UpperTree(h: Hash, leaves: seq<Digest>, d: nat)
    requires |leaves| >= 1 && d <= Levels(|leaves|)
    ensures Root(h, Upper(h, leaves, d)) == Root(h, leaves) && Levels(|Upper(h, leaves, d)|) == Levels(|leaves|) - d
    ensures TreeInputs(h, Upper(h, leaves, d)) <= TreeInputs(h, leaves)
    decreases d
  {
    if d > 0 {
      UpperTree(h, NextLevel(h, leaves), d - 1);
    }
  }

  /** An accepted path that is `d` nodes short speaks for a node `d` levels above the leaves. */
  lemma ShortPathBinds(h: Hash, leaves: seq<Digest>, d: nat, node: Digest, path: seq<ProofNode>)
    requires |leaves| >= 1 && d <= Levels(|leaves|) && |path| == Levels(|leaves|) - d
    requires Climb(h, node, path) == Root(h, leaves)
    ensures || node in Upper(h, leaves, d)
            || CollisionWithin(h, TreeInputs(h, leaves) + ClimbInputs(h, node, path))
  {
    var level := Upper(h, leaves, d);
    UpperTree(h, leaves, d);
    ClimbBinds(h, level, node, path);
    if CollisionWithin(h, TreeInputs(h, level) + ClimbInputs(h, node, path)) {
      CollisionGrows(h, TreeInputs(h, level) + ClimbInputs(h, node, path), TreeInputs(h, leaves) + ClimbInputs(h, node, path));
    }
  }

  lemma {:induction false} ClimbOn(h: Hash, current: Digest, a: seq<ProofNode>, b: seq<ProofNode>)
    ensures Climb(h, current, a + b) == Climb(h, Climb(h, current, a), b)
    ensures ClimbInputs(h, Climb(h, current, a), b) <= ClimbInputs(h, current, a + b)
    decreases |a|
  {
    if a == [] {
      assert a + b == b;
    } else {
      assert (a + b)[1..] == a[1..] + b && (a + b)[0] == a[0];
      ClimbOn(h, h(Combined(current, a[0])), a[1..], b);
    }
  }

  /** An accepted path that is `d` nodes too long starts `d` hashes below a leaf. */
  lemma LongPathBinds(h: Hash, leaves: seq<Digest>, d: nat, start: Digest, path: seq<ProofNode>)
    requires |leaves| >= 1 && |path| == Levels(|leaves|) + d
    requires Climb(h, start, path) == Root(h, leaves)
    ensures || Climb(h, start, path[..d]) in leaves
            || CollisionWithin(h, TreeInputs(h, leaves) + ClimbInputs(h, start, path))
  {
    var below := Climb(h, start, path[..d]);
    assert path == path[..d] + path[d..];
    ClimbOn(h, start, path[..d], path[d..]);
    ClimbBinds(h, leaves, below, path[d..]);
    if CollisionWithin(h, TreeInputs(h, leaves) + ClimbInputs(h, below, path[d..])) {
      CollisionGrows(h, TreeInputs(h, leaves) + ClimbInputs(h, below, path[d..]), TreeInputs(h, leaves) + ClimbInputs(h, start, path));
    }
  }

  /** Why the length must be checked apart from `verify_proof`: it also accepts the inner node of any
      level above a leaf, with the generated path less that many steps. */
  lemma {:induction false} InnerNodeAccepted(h: Hash, leaves: seq<Digest>, index: nat, d: nat)
    requires index < |leaves| && d <= Levels(|leaves|)
    ensures d <= |Path(h, leaves, index)| == Levels(|leaves|) && Ancestor(index, d) < |Upper(h, leaves, d)|
    ensures Climb(h, Upper(h, leaves, d)[Ancestor(index, d)], Path(h, leaves, index)[d..]) == Root(h, leaves)
    decreases d
  {
    GeneratedFits(h, leaves, index);
    FitsLength(|leaves|, index, Path(h, leaves, index));
    if d == 0 {
      ProofAccepted(h, leaves, index);
      assert Path(h, leaves, index)[0..] == Path(h, leaves, index);
    } else {
      var upper := NextLevel(h, leaves);
      InnerNodeAccepted(h, upper, index / 2, d - 1);
      assert Path(h, leaves, index)[d..] == Path(h, upper, index / 2)[d - 1..];
    }
  }
}
