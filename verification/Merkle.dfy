/** The Merkle tree over the entry digests (src/skill_native/transparency_log.py, `_merkle_root`,
    `_merkle_path`, the fold of the receipt validator), after sections 2.1 and 2.1.1 of RFC 6962.
    Soundness results name the finite set of byte strings that must be free of collisions. */
module Merkle {
  import opened Hashing

  datatype Side = Left | Right

  datatype PathNode = PathNode(side: Side, digest: Digest)

  // ------------------------------------------------------------- where a tree splits

  /** Python's `int.bit_length`. */
  function BitLength(n: nat): nat {
    if n == 0 then 0 else 1 + BitLength(n / 2)
  }

  function Pow2(k: nat): (p: nat)
    ensures p > 0
  {
    if k == 0 then 1 else 2 * Pow2(k - 1)
  }

  /** `_largest_power_of_two_less_than`. */
  function Split(n: nat): nat
    requires n >= 2
  {
    Pow2(BitLength(n - 1) - 1)
  }

  lemma {:induction false} BitLengthBounds(n: nat)
    requires n > 0
    ensures BitLength(n) > 0 && Pow2(BitLength(n) - 1) <= n < Pow2(BitLength(n))
  {
    if n > 1 {
      BitLengthBounds(n / 2);
    } else {
      assert BitLength(1) == 1 + BitLength(0);
    }
  }

  /** The split is a power of two k with k < n <= 2k. */
  lemma SplitBounds(n: nat)
    requires n >= 2
    ensures exists k: nat :: Split(n) == Pow2(k)
    ensures Split(n) < n <= 2 * Split(n)
  {
    BitLengthBounds(n - 1);
    assert Pow2(BitLength(n - 1)) == 2 * Pow2(BitLength(n - 1) - 1);
  }

  // ---------------------------------------------------------------- roots and paths

  function LeafInput(d: Digest): seq<int> { [0] + d }

  function NodeInput(left: Digest, right: Digest): seq<int> { [1] + left + right }

  function LeafHash(H: Hash, d: Digest): Digest { H(LeafInput(d)) }

  function NodeHash(H: Hash, left: Digest, right: Digest): Digest { H(NodeInput(left, right)) }

  function MerkleRoot(H: Hash, ds: seq<Digest>): Digest
    decreases |ds|
  {
    if ds == [] then H([])
    else if |ds| == 1 then LeafHash(H, ds[0])
    else
      SplitBounds(|ds|);
      var k := Split(|ds|);
      NodeHash(H, MerkleRoot(H, ds[..k]), MerkleRoot(H, ds[k..]))
  }

  function MerklePath(H: Hash, ds: seq<Digest>, index: nat): seq<PathNode>
    requires index < |ds|
    decreases |ds|
  {
    if |ds| == 1 then []
    else
      SplitBounds(|ds|);
      var k := Split(|ds|);
      if index < k
      then MerklePath(H, ds[..k], index) + [PathNode(Right, MerkleRoot(H, ds[k..]))]
      else MerklePath(H, ds[k..], index - k) + [PathNode(Left, MerkleRoot(H, ds[..k]))]
  }

  function ClimbInput(node: PathNode, below: Digest): seq<int> {
    if node.side == Left then NodeInput(node.digest, below) else NodeInput(below, node.digest)
  }

  function Climb(H: Hash, node: PathNode, below: Digest): Digest { H(ClimbInput(node, below)) }

  /** The digest an audit path leads to from a leaf hash; the last node is the topmost. */
  function Fold(H: Hash, start: Digest, path: seq<PathNode>): Digest {
    if path == [] then start
    else Climb(H, path[|path| - 1], Fold(H, start, path[..|path| - 1]))
  }

  /** The loop of the receipt validator. */
  method FollowPath(H: Hash, start: Digest, path: seq<PathNode>) returns (root: Digest)
    ensures root == Fold(H, start, path)
  {
    root := start;
    for i := 0 to |path|
      invariant root == Fold(H, start, path[..i])
    {
      assert path[..i + 1][..i] == path[..i];
      root := if path[i].side == Left then NodeHash(H, path[i].digest, root) else NodeHash(H, root, path[i].digest);
    }
    assert path[..|path|] == path;
  }

  lemma FoldSnoc(H: Hash, start: Digest, path: seq<PathNode>, node: PathNode)
    ensures Fold(H, start, path + [node]) == Climb(H, node, Fold(H, start, path))
  {
    assert (path + [node])[..|path|] == path;
  }

  /** The subtree from which a step with a given side climbs. */
  function Subtree(ds: seq<Digest>, side: Side): seq<Digest>
    requires |ds| > 1
  {
    SplitBounds(|ds|);
    if side == Left then ds[Split(|ds|)..] else ds[..Split(|ds|)]
  }

  /** The position in the whole list of a position in a subtree. */
  function Raised(ds: seq<Digest>, side: Side, below: nat): nat
    requires |ds| > 1
  {
    if side == Left then Split(|ds|) + below else below
  }

  lemma Lowered(ds: seq<Digest>, index: nat) returns (side: Side, below: nat)
    requires index < |ds| && |ds| > 1
    ensures below < |Subtree(ds, side)| && Raised(ds, side, below) == index
  {
    SplitBounds(|ds|);
    var k := Split(|ds|);
    side, below := if index < k then Right else Left, if index < k then index else index - k;
  }

  function Other(side: Side): Side { if side == Left then Right else Left }

  lemma RootUnfold(H: Hash, ds: seq<Digest>)
    requires |ds| > 1
    ensures 0 < Split(|ds|) < |ds|
    ensures MerkleRoot(H, ds)
         == NodeHash(H, MerkleRoot(H, ds[..Split(|ds|)]), MerkleRoot(H, ds[Split(|ds|)..]))
  {
    SplitBounds(|ds|);
    hide Split, NodeHash;
  }

  lemma PathUnfold(H: Hash, ds: seq<Digest>, index: nat)
    requires index < |ds| && |ds| > 1
    ensures 0 < Split(|ds|) < |ds| <= 2 * Split(|ds|)
    ensures var k := Split(|ds|);
            MerklePath(H, ds, index) ==
            if index < k then MerklePath(H, ds[..k], index) + [PathNode(Right, MerkleRoot(H, ds[k..]))]
            else MerklePath(H, ds[k..], index - k) + [PathNode(Left, MerkleRoot(H, ds[..k]))]
  {
    SplitBounds(|ds|);
    hide MerkleRoot, Split;
  }

  lemma SubtreeParts(ds: seq<Digest>, side: Side, below: nat)
    requires |ds| > 1 && below < |Subtree(ds, side)|
    ensures 1 <= |Subtree(ds, side)| <= Split(|ds|) && |Subtree(ds, side)| < |ds|
    ensures Raised(ds, side, below) < |ds| && ds[Raised(ds, side, below)] == Subtree(ds, side)[below]
    ensures side == Left <==> Raised(ds, side, below) >= Split(|ds|)
  {
    SplitBounds(|ds|);
    hide Split;
  }

  /** The topmost step of the path built for a position of a subtree. */
  lemma TopStep(H: Hash, ds: seq<Digest>, side: Side, below: nat)
    requires |ds| > 1 && below < |Subtree(ds, side)|
    ensures 1 <= |Subtree(ds, side)| <= Split(|ds|) && |Subtree(ds, side)| < |ds|
    ensures Raised(ds, side, below) < |ds| && ds[Raised(ds, side, below)] == Subtree(ds, side)[below]
    ensures MerklePath(H, ds, Raised(ds, side, below))
         == MerklePath(H, Subtree(ds, side), below) + [PathNode(side, MerkleRoot(H, Subtree(ds, Other(side))))]
  {
    hide MerkleRoot, MerklePath, Split;
    SubtreeParts(ds, side, below);
    PathUnfold(H, ds, Raised(ds, side, below));
  }

  lemma RootOfSubtrees(H: Hash, ds: seq<Digest>, side: Side)
    requires |ds| > 1
    ensures Climb(H, PathNode(side, MerkleRoot(H, Subtree(ds, Other(side)))), MerkleRoot(H, Subtree(ds, side)))
         == MerkleRoot(H, ds)
  {
    hide MerkleRoot, Split;
    RootUnfold(H, ds);
  }

  lemma LeafReachesRoot(H: Hash, ds: seq<Digest>)
    requires |ds| == 1
    ensures Fold(H, LeafHash(H, ds[0]), MerklePath(H, ds, 0)) == MerkleRoot(H, ds)
    ensures |MerklePath(H, ds, 0)| <= BitLength(|ds| - 1)
  {
  }

  /** Completeness: the path built for a position leads from its leaf to the root, and is no
      longer than the bit length of the last position. */
  lemma {:induction false} PathReachesRoot(H: Hash, ds: seq<Digest>, index: nat)
    requires index < |ds|
    ensures Fold(H, LeafHash(H, ds[index]), MerklePath(H, ds, index)) == MerkleRoot(H, ds)
    ensures |MerklePath(H, ds, index)| <= BitLength(|ds| - 1)
    decreases |ds|
  {
    hide *;
    if |ds| == 1 {
      LeafReachesRoot(H, ds);
    } else {
      var side, below := Lowered(ds, index);
      var sub := Subtree(ds, side);
      TopStep(H, ds, side, below);
      RootOfSubtrees(H, ds, side);
      PathReachesRoot(H, sub, below);
      FoldSnoc(H, LeafHash(H, ds[index]), MerklePath(H, sub, below),
               PathNode(side, MerkleRoot(H, Subtree(ds, Other(side)))));
      SubtreeBitLength(|ds|, |sub|);
    }
  }

  lemma {:induction false} BitLengthUpper(n: nat, k: nat)
    requires n < Pow2(k)
    ensures BitLength(n) <= k
  {
    if n > 0 {
      BitLengthUpper(n / 2, k - 1);
    }
  }

  /** A subtree, being no larger than the split, has at least one level less. */
  lemma SubtreeBitLength(n: nat, m: nat)
    requires n >= 2 && 1 <= m <= Split(n)
    ensures BitLength(m - 1) + 1 <= BitLength(n - 1)
  {
    BitLengthBounds(n - 1);
    BitLengthUpper(m - 1, BitLength(n - 1) - 1);
  }

  // ------------------------------------------------------------------- soundness

  /** Every byte string hashed while computing a root. */
  function RootInputs(H: Hash, ds: seq<Digest>): set<seq<int>>
    decreases |ds|
  {
    if ds == [] then {[]}
    else if |ds| == 1 then {LeafInput(ds[0])}
    else
      SplitBounds(|ds|);
      var k := Split(|ds|);
      {NodeInput(MerkleRoot(H, ds[..k]), MerkleRoot(H, ds[k..]))} + RootInputs(H, ds[..k]) + RootInputs(H, ds[k..])
  }

  /** Every byte string hashed while following a path from an entry digest. */
  function PathInputs(H: Hash, d: Digest, path: seq<PathNode>): set<seq<int>> {
    if path == [] then {LeafInput(d)}
    else
      var below := path[..|path| - 1];
      var node := path[|path| - 1];
      PathInputs(H, d, below) + {ClimbInput(node, Fold(H, LeafHash(H, d), below))}
  }

  lemma NodeInputInjective(a: Digest, b: Digest, c: Digest, d: Digest)
    requires NodeInput(a, b) == NodeInput(c, d)
    ensures a == c && b == d
  {
    assert a == NodeInput(a, b)[1..33] && b == NodeInput(a, b)[33..];
    assert c == NodeInput(c, d)[1..33] && d == NodeInput(c, d)[33..];
  }

  lemma LeafInputInjective(a: Digest, b: Digest)
    requires LeafInput(a) == LeafInput(b)
    ensures a == b
  {
    assert a == LeafInput(a)[1..] && b == LeafInput(b)[1..];
  }

  /** The input hashed last, whose hash is the root. */
  function TopInput(H: Hash, ds: seq<Digest>): seq<int> {
    if ds == [] then []
    else if |ds| == 1 then LeafInput(ds[0])
    else
      SplitBounds(|ds|);
      NodeInput(MerkleRoot(H, ds[..Split(|ds|)]), MerkleRoot(H, ds[Split(|ds|)..]))
  }

  lemma RootIsHashOfTop(H: Hash, ds: seq<Digest>)
    ensures MerkleRoot(H, ds) == H(TopInput(H, ds)) && TopInput(H, ds) in RootInputs(H, ds)
  {
  }

  /** The position in a tree of n leaves that the sides of a path spell out. */
  function SpelledIndex(path: seq<PathNode>, n: nat): nat {
    if path == [] || n < 2 then 0
    else
      SplitBounds(n);
      if path[|path| - 1].side == Right then SpelledIndex(path[..|path| - 1], Split(n))
      else Split(n) + SpelledIndex(path[..|path| - 1], n - Split(n))
  }

  /** A step whose input is that of the root of a list starts from its two subtrees. */
  lemma StepInput(H: Hash, ds: seq<Digest>, node: PathNode, below: Digest)
    requires ClimbInput(node, below) == TopInput(H, ds)
    ensures |ds| > 1 && Split(|ds|) < |ds|
    ensures var left, right := MerkleRoot(H, ds[..Split(|ds|)]), MerkleRoot(H, ds[Split(|ds|)..]);
            if node.side == Left then node.digest == left && below == right
            else node.digest == right && below == left
  {
    hide MerkleRoot;
    assert ClimbInput(node, below)[0] == 1;
    assert |ds| > 1;
    SplitBounds(|ds|);
    hide Split;
    var left, right := MerkleRoot(H, ds[..Split(|ds|)]), MerkleRoot(H, ds[Split(|ds|)..]);
    if node.side == Left {
      NodeInputInjective(node.digest, below, left, right);
    } else {
      NodeInputInjective(below, node.digest, left, right);
    }
  }

  lemma LeafIsTop(H: Hash, ds: seq<Digest>, d: Digest)
    requires LeafInput(d) == TopInput(H, ds)
    ensures ds == [d]
  {
    hide MerkleRoot;
    assert LeafInput(d)[0] == 0;
    assert |ds| == 1;
    LeafInputInjective(d, ds[0]);
  }

  /** The inputs of the subtrees are among the inputs of the tree. */
  lemma SubtreeInputs(H: Hash, ds: seq<Digest>)
    requires |ds| > 1
    ensures Split(|ds|) < |ds|
    ensures RootInputs(H, ds[..Split(|ds|)]) <= RootInputs(H, ds)
    ensures RootInputs(H, ds[Split(|ds|)..]) <= RootInputs(H, ds)
  {
    SplitBounds(|ds|);
  }

  /** Lists of at most one digest are told apart from all others by their top input. */
  lemma SmallTop(H: Hash, a: seq<Digest>, b: seq<Digest>)
    requires TopInput(H, a) == TopInput(H, b) && (|a| < 2 || |b| < 2)
    ensures a == b
  {
    hide MerkleRoot, Split;
    if |a| == 1 {
      LeafIsTop(H, b, a[0]);
    } else if |b| == 1 {
      LeafIsTop(H, a, b[0]);
    }
  }

  lemma SameTop(H: Hash, a: seq<Digest>, b: seq<Digest>)
    requires TopInput(H, a) == TopInput(H, b) && |a| > 1 && |b| > 1
    ensures 0 < Split(|a|) < |a| && 0 < Split(|b|) < |b|
    ensures MerkleRoot(H, a[..Split(|a|)]) == MerkleRoot(H, b[..Split(|b|)])
    ensures MerkleRoot(H, a[Split(|a|)..]) == MerkleRoot(H, b[Split(|b|)..])
  {
    hide MerkleRoot;
    SplitBounds(|a|);
    SplitBounds(|b|);
    var j, k := Split(|a|), Split(|b|);
    NodeInputInjective(MerkleRoot(H, a[..j]), MerkleRoot(H, a[j..]), MerkleRoot(H, b[..k]), MerkleRoot(H, b[k..]));
  }

  /** Two lists of digests, of whatever lengths, with the same root are the same list. */
  lemma {:induction false} RootInjective(H: Hash, a: seq<Digest>, b: seq<Digest>)
    requires CollisionFree(H, RootInputs(H, a) + RootInputs(H, b))
    requires MerkleRoot(H, a) == MerkleRoot(H, b)
    ensures a == b
    decreases |a|
  {
    var inputs := RootInputs(H, a) + RootInputs(H, b);
    RootIsHashOfTop(H, a);
    RootIsHashOfTop(H, b);
    hide TopInput, Split, CollisionFree, RootInputs;
    SameInput(H, inputs, TopInput(H, a), TopInput(H, b));
    if |a| < 2 || |b| < 2 {
      SmallTop(H, a, b);
    } else {
      SameTop(H, a, b);
      SubtreeInputs(H, a);
      SubtreeInputs(H, b);
      hide MerkleRoot;
      var j, k := Split(|a|), Split(|b|);
      CollisionFreeSubset(H, RootInputs(H, a[..j]) + RootInputs(H, b[..k]), inputs);
      CollisionFreeSubset(H, RootInputs(H, a[j..]) + RootInputs(H, b[k..]), inputs);
      RootInjective(H, a[..j], b[..k]);
      RootInjective(H, a[j..], b[k..]);
      assert a == a[..j] + a[j..] && b == b[..k] + b[k..];
    }
  }

  lemma SpelledStep(ds: seq<Digest>, below: seq<PathNode>, node: PathNode)
    requires |ds| > 1
    ensures SpelledIndex(below + [node], |ds|)
         == Raised(ds, node.side, SpelledIndex(below, |Subtree(ds, node.side)|))
  {
    SplitBounds(|ds|);
    hide Split;
    assert (below + [node])[..|below|] == below;
  }

  lemma PathInputsSnoc(H: Hash, d: Digest, below: seq<PathNode>, node: PathNode)
    ensures PathInputs(H, d, below + [node])
         == PathInputs(H, d, below) + {ClimbInput(node, Fold(H, LeafHash(H, d), below))}
  {
    hide Fold;
    assert (below + [node])[..|below|] == below;
  }

  /** A path of no steps leads only to the root of the list of one digest. */
  lemma FoldNone(H: Hash, ds: seq<Digest>, d: Digest)
    requires CollisionFree(H, RootInputs(H, ds) + PathInputs(H, d, []))
    requires Fold(H, LeafHash(H, d), []) == MerkleRoot(H, ds)
    ensures ds == [d] && SpelledIndex([], |ds|) == 0 && MerklePath(H, ds, 0) == []
  {
    RootIsHashOfTop(H, ds);
    hide TopInput, LeafInput, CollisionFree, RootInputs, MerkleRoot;
    SameInput(H, RootInputs(H, ds) + PathInputs(H, d, []), LeafInput(d), TopInput(H, ds));
    LeafIsTop(H, ds, d);
  }

  /** The topmost step of a path to the root starts from the root of a subtree, and holds the
      root of the other one. */
  lemma FoldTop(H: Hash, ds: seq<Digest>, d: Digest, below: seq<PathNode>, node: PathNode)
    requires CollisionFree(H, RootInputs(H, ds) + PathInputs(H, d, below + [node]))
    requires Fold(H, LeafHash(H, d), below + [node]) == MerkleRoot(H, ds)
    ensures |ds| > 1 && node.digest == MerkleRoot(H, Subtree(ds, Other(node.side)))
    ensures Fold(H, LeafHash(H, d), below) == MerkleRoot(H, Subtree(ds, node.side))
    ensures CollisionFree(H, RootInputs(H, Subtree(ds, node.side)) + PathInputs(H, d, below))
  {
    hide *;
    var inputs := RootInputs(H, ds) + PathInputs(H, d, below + [node]);
    var reached := Fold(H, LeafHash(H, d), below);
    RootIsHashOfTop(H, ds);
    FoldSnoc(H, LeafHash(H, d), below, node);
    PathInputsSnoc(H, d, below, node);
    ClimbIsHash(H, node, reached);
    SameInput(H, inputs, ClimbInput(node, reached), TopInput(H, ds));
    StepInput(H, ds, node, reached);
    StepSubtrees(H, ds, node, reached);
    CollisionFreeSubset(H, RootInputs(H, Subtree(ds, node.side)) + PathInputs(H, d, below), inputs);
  }

  lemma ClimbIsHash(H: Hash, node: PathNode, below: Digest)
    ensures Climb(H, node, below) == H(ClimbInput(node, below))
  {
  }

  lemma StepSubtrees(H: Hash, ds: seq<Digest>, node: PathNode, below: Digest)
    requires ClimbInput(node, below) == TopInput(H, ds) && |ds| > 1
    ensures node.digest == MerkleRoot(H, Subtree(ds, Other(node.side)))
    ensures below == MerkleRoot(H, Subtree(ds, node.side))
    ensures RootInputs(H, Subtree(ds, node.side)) <= RootInputs(H, ds)
  {
    StepInput(H, ds, node, below);
    SubtreeInputs(H, ds);
    hide MerkleRoot, RootInputs, Split, TopInput, ClimbInput;
  }

  /** Soundness: if a path leads from an entry digest to the root of a list, the list holds that
      digest at the position the sides spell, and the path is the one built for that position. */
  lemma {:induction false} FoldSound(H: Hash, ds: seq<Digest>, d: Digest, path: seq<PathNode>)
    requires CollisionFree(H, RootInputs(H, ds) + PathInputs(H, d, path))
    requires Fold(H, LeafHash(H, d), path) == MerkleRoot(H, ds)
    ensures SpelledIndex(path, |ds|) < |ds| && ds[SpelledIndex(path, |ds|)] == d
    ensures path == MerklePath(H, ds, SpelledIndex(path, |ds|))
    decreases |path|
  {
    hide *;
    if path == [] {
      FoldNone(H, ds, d);
    } else {
      var below, node := path[..|path| - 1], path[|path| - 1];
      assert path == below + [node];
      FoldTop(H, ds, d, below, node);
      var subtree := Subtree(ds, node.side);
      FoldSound(H, subtree, d, below);
      SpelledStep(ds, below, node);
      TopStep(H, ds, node.side, SpelledIndex(below, |subtree|));
    }
  }

  // ------------------------------------------------------ the tree of section 2.1.3

  lemma SmallSplits()
    ensures Split(2) == 1 && Split(3) == 2 && Split(4) == 2 && Split(7) == 4
  {
    assert BitLength(1) == 1 && BitLength(2) == 2 && BitLength(3) == 2 && BitLength(6) == 3;
    assert Pow2(1) == 2 && Pow2(2) == 4;
  }

  lemma Halved(left: seq<Digest>, right: seq<Digest>)
    ensures |left + right| == |left| + |right|
    ensures (left + right)[..|left|] == left && (left + right)[|left|..] == right
  {
  }

  lemma Halves(H: Hash, left: seq<Digest>, right: seq<Digest>)
    requires left != [] && right != [] && Split(|left| + |right|) == |left|
    ensures MerkleRoot(H, left + right) == NodeHash(H, MerkleRoot(H, left), MerkleRoot(H, right))
  {
    hide *;
    Halved(left, right);
    RootUnfold(H, left + right);
  }

  lemma PathInLeft(H: Hash, left: seq<Digest>, right: seq<Digest>, i: nat)
    requires i < |left| && right != [] && Split(|left| + |right|) == |left|
    ensures MerklePath(H, left + right, i) == MerklePath(H, left, i) + [PathNode(Right, MerkleRoot(H, right))]
  {
    hide *;
    Halved(left, right);
    PathUnfold(H, left + right, i);
  }

  lemma PathInRight(H: Hash, left: seq<Digest>, right: seq<Digest>, i: nat)
    requires left != [] && i < |right| && Split(|left| + |right|) == |left|
    ensures MerklePath(H, left + right, |left| + i) == MerklePath(H, right, i) + [PathNode(Left, MerkleRoot(H, left))]
  {
    hide *;
    Halved(left, right);
    PathUnfold(H, left + right, |left| + i);
  }

  lemma OneLeaf(H: Hash, d: Digest)
    ensures MerkleRoot(H, [d]) == LeafHash(H, d) && MerklePath(H, [d], 0) == []
  {
  }

  lemma TwoLeaves(H: Hash, x: Digest, y: Digest)
    ensures MerkleRoot(H, [x, y]) == NodeHash(H, LeafHash(H, x), LeafHash(H, y))
    ensures MerklePath(H, [x, y], 0) == [PathNode(Right, LeafHash(H, y))]
    ensures MerklePath(H, [x, y], 1) == [PathNode(Left, LeafHash(H, x))]
  {
    SmallSplits();
    OneLeaf(H, x);
    OneLeaf(H, y);
    Halves(H, [x], [y]);
    PathInLeft(H, [x], [y], 0);
    PathInRight(H, [x], [y], 0);
    assert [x] + [y] == [x, y];
  }

  lemma FourLeaves(H: Hash, w: Digest, x: Digest, y: Digest, z: Digest)
    ensures MerkleRoot(H, [w, x, y, z]) == NodeHash(H, MerkleRoot(H, [w, x]), MerkleRoot(H, [y, z]))
    ensures MerklePath(H, [w, x, y, z], 0) == MerklePath(H, [w, x], 0) + [PathNode(Right, MerkleRoot(H, [y, z]))]
    ensures MerklePath(H, [w, x, y, z], 3) == MerklePath(H, [y, z], 1) + [PathNode(Left, MerkleRoot(H, [w, x]))]
  {
    SmallSplits();
    hide *;
    Halves(H, [w, x], [y, z]);
    PathInLeft(H, [w, x], [y, z], 0);
    PathInRight(H, [w, x], [y, z], 1);
    assert [w, x] + [y, z] == [w, x, y, z];
  }

  lemma ThreeLeaves(H: Hash, x: Digest, y: Digest, z: Digest)
    ensures MerkleRoot(H, [x, y, z]) == NodeHash(H, MerkleRoot(H, [x, y]), LeafHash(H, z))
    ensures MerklePath(H, [x, y, z], 0) == MerklePath(H, [x, y], 0) + [PathNode(Right, LeafHash(H, z))]
    ensures MerklePath(H, [x, y, z], 2) == [PathNode(Left, MerkleRoot(H, [x, y]))]
  {
    SmallSplits();
    OneLeaf(H, z);
    hide *;
    Halves(H, [x, y], [z]);
    PathInLeft(H, [x, y], [z], 0);
    PathInRight(H, [x, y], [z], 0);
    assert [x, y] + [z] == [x, y, z];
  }

  /** The seven-leaf example of section 2.1.3 of RFC 6962: its root, and the audit paths of the
      leaves d0, d3, d4 and d6. */
  lemma SevenLeafExample(H: Hash, d: seq<Digest>)
    requires |d| == 7
    ensures
      var a, b, c, d' := LeafHash(H, d[0]), LeafHash(H, d[1]), LeafHash(H, d[2]), LeafHash(H, d[3]);
      var e, f, j := LeafHash(H, d[4]), LeafHash(H, d[5]), LeafHash(H, d[6]);
      var g, h, i := NodeHash(H, a, b), NodeHash(H, c, d'), NodeHash(H, e, f);
      var k, l := NodeHash(H, g, h), NodeHash(H, i, j);
      && MerkleRoot(H, d) == NodeHash(H, k, l)
      && MerklePath(H, d, 0) == [PathNode(Right, b), PathNode(Right, h), PathNode(Right, l)]
      && MerklePath(H, d, 3) == [PathNode(Left, c), PathNode(Left, g), PathNode(Right, l)]
      && MerklePath(H, d, 4) == [PathNode(Right, f), PathNode(Right, j), PathNode(Left, k)]
      && MerklePath(H, d, 6) == [PathNode(Left, i), PathNode(Left, k)]
  {
    SmallSplits();
    hide *;
    var left, right := [d[0], d[1], d[2], d[3]], [d[4], d[5], d[6]];
    assert d == left + right;
    TwoLeaves(H, d[0], d[1]);
    TwoLeaves(H, d[2], d[3]);
    TwoLeaves(H, d[4], d[5]);
    FourLeaves(H, d[0], d[1], d[2], d[3]);
    ThreeLeaves(H, d[4], d[5], d[6]);
    Halves(H, left, right);
    PathInLeft(H, left, right, 0);
    PathInLeft(H, left, right, 3);
    PathInRight(H, left, right, 0);
    PathInRight(H, left, right, 2);
  }
}
