/** `NewTree` of bmt/bmt.go. */
module BmtPool {
  import opened BmtReference
  import opened BmtRefHasher
  import opened BmtTree

  class TreeNode {
    const level: nat
    const index: nat
    const initial: bool
    const isLeft: bool
    const parent: TreeNode?
    var left: Bytes
    var right: Bytes
    var root: bool
    var unbalanced: bool
    var state: int

    constructor (level: nat, index: nat, parent: TreeNode?)
      ensures this.level == level && this.index == index && this.parent == parent
      ensures initial == (index == 0) && isLeft == (index % 2 == 0)
      ensures !root && !unbalanced && state == 0 && left == right == []
    {
      this.level, this.index, this.parent := level, index, parent;
      initial, isLeft := index == 0, index % 2 == 0;
      root, unbalanced, state := false, false, 0;
      left, right := [], [];
    }
  }

  predicate Placed(n: TreeNode, l: nat, i: nat) {
    n.level == l && n.index == i && n.initial == (i == 0) && n.isLeft == (i % 2 == 0)
  }

  ghost predicate Level(level: seq<TreeNode>, l: nat) {
    |level| == Pow2(l) && forall i :: 0 <= i < |level| ==> Placed(level[i], l, i)
  }

  ghost predicate Linked(below: seq<TreeNode>, above: seq<TreeNode>) {
    |below| == 2 * |above| && forall i :: 0 <= i < |below| ==> below[i].parent == above[i / 2]
  }

  /** The levels of a full binary tree, root first, each node linked to its parent. */
  ghost predicate Levels(levels: seq<seq<TreeNode>>) {
    && |levels| >= 1
    && (forall l :: 0 <= l < |levels| ==> Level(levels[l], l))
    && (forall l :: 0 <= l < |levels| - 1 ==> Linked(levels[l + 1], levels[l]))
    && levels[0][0].parent == null
  }

  ghost function Ancestor(n: TreeNode, k: nat): TreeNode?
    decreases k
  {
    if k == 0 then n else if n.parent == null then null else Ancestor(n.parent, k - 1)
  }

  /** Climbing `k` parents from leaf `i` reaches the node with index `Shr(i, k)`. */
  lemma {:induction false} ClimbFromLeaf(levels: seq<seq<TreeNode>>, l: nat, i: nat, k: nat)
    requires Levels(levels) && k <= l < |levels| && i < |levels[l]|
    ensures Shr(i, k) < |levels[l - k]| && Ancestor(levels[l][i], k) == levels[l - k][Shr(i, k)]
    decreases k
  {
    if k > 0 {
      assert Linked(levels[l - 1 + 1], levels[l - 1]);
      ClimbFromLeaf(levels, l - 1, i / 2, k - 1);
      ShrOfHalf(i, k);
    }
  }

  lemma {:induction false} ShrOfHalf(i: nat, k: nat)
    requires k >= 1
    ensures Shr(i, k) == Shr(i / 2, k - 1)
  {
    if k > 1 { ShrOfHalf(i, k - 1); }
  }

  /** Two leaves meet at height `k` exactly when their indices agree there. */
  lemma {:induction false} LeavesMeet(levels: seq<seq<TreeNode>>, i: nat, j: nat, k: nat)
    requires Levels(levels) && k < |levels|
    requires i < |levels[|levels| - 1]| && j < |levels[|levels| - 1]|
    ensures Ancestor(levels[|levels| - 1][i], k) == Ancestor(levels[|levels| - 1][j], k) <==> Shr(i, k) == Shr(j, k)
  {
    var l := |levels| - 1;
    ClimbFromLeaf(levels, l, i, k);
    ClimbFromLeaf(levels, l, j, k);
  }

  predicate Unmarked(n: TreeNode)
    reads n
  {
    !n.root && !n.unbalanced && n.state == 0
  }

  method NewLevel(prev: seq<TreeNode>, level: nat) returns (nodes: seq<TreeNode>)
    ensures Linked(nodes, prev)
    ensures forall i :: 0 <= i < |nodes| ==> fresh(nodes[i]) && Unmarked(nodes[i]) && Placed(nodes[i], level, i)
  {
    nodes := [];
    while |nodes| < 2 * |prev|
      invariant |nodes| <= 2 * |prev|
      invariant forall i :: 0 <= i < |nodes| ==> fresh(nodes[i]) && Unmarked(nodes[i]) && Placed(nodes[i], level, i)
      invariant forall i :: 0 <= i < |nodes| ==> nodes[i].parent == prev[i / 2]
    {
      var t := new TreeNode(level, |nodes|, prev[|nodes| / 2]);
      nodes := nodes + [t];
    }
  }

  /** A full tree of the computed depth, whose root alone is marked root. */
  method NewTree(segmentCount: nat) returns (leaves: seq<TreeNode>, ghost levels: seq<seq<TreeNode>>)
    requires segmentCount >= 1
    ensures Levels(levels)
    ensures |levels| == Depth(segmentCount) + 1 && leaves == levels[Depth(segmentCount)]
    ensures |leaves| == Pow2(Depth(segmentCount)) && 2 * |leaves| >= segmentCount
    ensures levels[0][0].root && !levels[0][0].unbalanced && levels[0][0].state == 0
    ensures forall l, i :: 0 < l < |levels| && 0 <= i < |levels[l]| ==> Unmarked(levels[l][i])
  {
    var n := new TreeNode(0, 0, null);
    n.root := true;
    leaves := [n];
    levels := [leaves];
    var d := 1;
    var depth := ComputeDepth(segmentCount);
    while d <= depth
      invariant 1 <= d <= depth + 1 && |levels| == d && leaves == levels[d - 1]
      invariant Levels(levels) && levels[0][0] == n
      invariant n.root && !n.unbalanced && n.state == 0
      invariant forall l, i :: 0 < l < |levels| && 0 <= i < |levels[l]| ==> Unmarked(levels[l][i])
    {
      var nodes := NewLevel(leaves, d);
      AddLevel(levels, nodes);
      leaves := nodes;
      levels := levels + [nodes];
      d := d + 1;
    }
    DepthBounds(segmentCount);
  }

  lemma {:induction false} AddLevel(levels: seq<seq<TreeNode>>, nodes: seq<TreeNode>)
    requires Levels(levels) && Linked(nodes, levels[|levels| - 1])
    requires forall i :: 0 <= i < |nodes| ==> Placed(nodes[i], |levels|, i)
    ensures Levels(levels + [nodes])
  {
    assert Level(levels[|levels| - 1], |levels| - 1);
    assert Level(nodes, |levels|);
    var ls := levels + [nodes];
    forall l | 0 <= l < |ls| ensures Level(ls[l], l) {
      if l < |levels| { assert Level(levels[l], l); }
    }
    forall l | 0 <= l < |ls| - 1 ensures Linked(ls[l + 1], ls[l]) {
      if l < |levels| - 1 { assert Linked(levels[l + 1], levels[l]); }
    }
  }
}
