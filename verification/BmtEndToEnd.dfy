/** From written parts and a segment count to the delivered hash: the tree `NewTree` builds and the segments `Write`
    hands out are a valid start of the hashing protocol, and what the protocol delivers is what `RefHasher` returns. */
module BmtEndToEnd {
  import opened BmtReference
  import opened BmtRefHasher
  import opened BmtTree
  import opened BmtPool
  import opened BmtProtocol
  import BmtClimb
  import BmtInvariant
  import BmtResult
  import BmtWriter
  import BmtTheorems

  // The tree of `NewTree` as a tree of the protocol

  ghost function Nodes(levels: seq<seq<TreeNode>>): set<TreeNode> {
    set l, i | 0 <= l < |levels| && 0 <= i < |levels[l]| :: levels[l][i]
  }

  /** The memory of the tree, by height above the leaves and index. */
  ghost function Memory(levels: seq<seq<TreeNode>>): Tree
    reads Nodes(levels)
  {
    map k, i | 0 <= k < |levels| && 0 <= i < |levels[|levels| - 1 - k]| ::
      At(k, i) := MemoryOf(levels[|levels| - 1 - k][i])
  }

  ghost function MemoryOf(n: TreeNode): Node
    reads n
  {
    Node(n.left, n.right, n.state, n.unbalanced, n.root)
  }

  /** An index vanishes after `k` halvings exactly when it is below 2^k. */
  lemma {:induction false} ShrZeroExactly(g: nat, k: nat)
    ensures Shr(g, k) == 0 <==> g < Pow2(k)
    decreases k
  {
    if k > 0 {
      ShrOfHalf(g, k);
      ShrZeroExactly(g / 2, k - 1);
    }
  }

  /** The last index of a level of a full tree. */
  lemma {:induction false} LastOfLevel(depth: nat, k: nat)
    requires k <= depth
    ensures Shr(Pow2(depth) - 1, k) == Pow2(depth - k) - 1
  {
    if k > 0 { LastOfLevel(depth, k - 1); }
  }

  predicate Spot(levels: seq<seq<TreeNode>>, a: Address) {
    a.height < |levels| && a.index < |levels[|levels| - 1 - a.height]|
  }

  lemma {:induction false} MemoryAt(levels: seq<seq<TreeNode>>, a: Address)
    ensures a in Memory(levels) <==> Spot(levels, a)
    ensures Spot(levels, a) ==> Memory(levels)[a] == MemoryOf(levels[|levels| - 1 - a.height][a.index])
  {
    assert a == At(a.height, a.index);
  }

  lemma {:induction false} SpotsAreTheTree(c: Config, levels: seq<seq<TreeNode>>, a: Address)
    requires Levels(levels) && c.depth == |levels| - 1 && c.leaves == Pow2(c.depth)
    ensures Spot(levels, a) <==> InTree(c, a)
  {
    if a.height <= c.depth {
      assert Level(levels[c.depth - a.height], c.depth - a.height);
      LastOfLevel(c.depth, a.height);
    }
  }

  /** As `NewTree` leaves them: the root is marked, nothing else is. */
  ghost predicate NewMarks(levels: seq<seq<TreeNode>>)
    requires Levels(levels)
    reads Nodes(levels)
  {
    && levels[0][0].root && !levels[0][0].unbalanced && levels[0][0].state == 0
    && forall l, i :: 0 < l < |levels| && 0 <= i < |levels[l]| ==> Unmarked(levels[l][i])
  }

  lemma {:induction false} NewMarkOf(levels: seq<seq<TreeNode>>, a: Address)
    requires Levels(levels) && NewMarks(levels) && Spot(levels, a)
    ensures var n := levels[|levels| - 1 - a.height][a.index];
      !n.unbalanced && n.state == 0 && (n.root <==> a == At(|levels| - 1, 0))
  {
    if a.height == |levels| - 1 {
      assert Level(levels[0], 0);
    } else {
      assert Unmarked(levels[|levels| - 1 - a.height][a.index]);
    }
  }

  /** The levels that `NewTree` returns are a tree as it comes out of the pool. */
  lemma {:induction false} NewTreeIsClean(c: Config, levels: seq<seq<TreeNode>>)
    requires Levels(levels) && NewMarks(levels) && c.depth == |levels| - 1 && c.leaves == Pow2(c.depth)
    ensures Clean(c, Memory(levels)) && forall a :: a in Memory(levels) ==> Memory(levels)[a].state == 0
  {
    hide Levels, NewMarks, Memory, Spot, InTree, Pow2;
    var t := Memory(levels);
    forall a: Address ensures a in t <==> InTree(c, a) {
      MemoryAt(levels, a);
      SpotsAreTheTree(c, levels, a);
    }
    forall a | a in t ensures !t[a].unbalanced && t[a].state == 0 && (t[a].root <==> a == At(c.depth, 0)) {
      MemoryAt(levels, a);
      NewMarkOf(levels, a);
    }
  }

  // Every chunk in capacity is a valid start

  lemma {:induction false} ChunkLengths(d: Bytes, leaf: nat, g: nat)
    requires leaf > 0 && g < |Chunks(d, leaf)|
    ensures |Chunks(d, leaf)[g]| <= leaf
    ensures g < |Chunks(d, leaf)| - 1 ==> |Chunks(d, leaf)[g]| == leaf
  {
    if |d| > leaf && g > 0 { ChunkLengths(d[leaf..], leaf, g - 1); }
  }

  /** The tree has a leaf for every chunk. */
  lemma {:induction false} ChunksFit(d: Bytes, hs: nat, count: nat)
    requires hs > 0 && count >= 1 && |d| <= hs * count
    ensures |Chunks(d, 2 * hs)| <= Pow2(Depth(count))
  {
    if |d| > 2 * hs {
      var last := |Chunks(d, 2 * hs)| - 1;
      RootHeightFits(hs, d, count);
      ShrZeroAbove(last, RootHeight(last), Depth(count));
      ShrZeroExactly(last, Depth(count));
    }
  }

  /** Hashing `d` on a tree for `count` segments. */
  function ConfigFor(h: BaseHash, hs: nat, count: nat, d: Bytes, start: Tree): Config
    requires hs > 0 && count >= 1
  {
    Config(h, hs, Depth(count), Pow2(Depth(count)), Chunks(d, 2 * hs), start)
  }

  lemma {:induction false} ConfigIsValid(h: BaseHash, hs: nat, count: nat, d: Bytes, start: Tree)
    requires hs > 0 && count >= 1 && |d| <= hs * count
    requires Clean(ConfigFor(h, hs, count, d, start), start)
    ensures ValidConfig(ConfigFor(h, hs, count, d, start))
  {
    hide Clean, Chunks, Depth, Shr, Pow2;
    var c := ConfigFor(h, hs, count, d, start);
    ChunksFit(d, hs, count);
    ShrZeroExactly(Pow2(Depth(count)) - 1, Depth(count));
    forall g | 0 <= g < |c.chunks| ensures |c.chunks[g]| <= 2 * hs && (g < c.Last() ==> |c.chunks[g]| == 2 * hs) {
      ChunkLengths(d, 2 * hs, g);
    }
  }

  /** No step is left. */
  ghost predicate Complete(c: Config, steps: seq<Step>)
    requires |c.chunks| >= 1
  {
    IsRun(c, Init(c), steps) && forall st :: !Enabled(c, Exec(c, Init(c), steps), st)
  }

  /** Some schedule ends, and every one that does delivers `r` and releases the tree. */
  ghost predicate AlwaysDelivers(c: Config, r: Bytes)
    requires |c.chunks| >= 1
  {
    && (exists steps :: Complete(c, steps))
    && forall steps :: Complete(c, steps) ==> Exec(c, Init(c), steps).main == Released(r)
  }

  /** Any schedule can be run to its end. */
  lemma {:induction false} RunsEnd(c: Config, v: State) returns (steps: seq<Step>)
    requires ValidConfig(c) && (BmtInvariant.Inv(c, v) || BmtResult.After(c, v))
    ensures IsRun(c, v, steps) && forall st :: !Enabled(c, Exec(c, v, steps), st)
    decreases BmtTheorems.Measure(c, v)
  {
    hide Clean, BmtInvariant.Inv, BmtResult.After, BmtTheorems.Measure, Enabled, Next;
    if st :| Enabled(c, v, st) {
      BmtTheorems.StepDecreases(c, v, st);
      BmtResult.StepKeeps(c, v, st);
      var rest := RunsEnd(c, Next(c, v, st));
      steps := [st] + rest;
      assert steps[1..] == rest;
    } else {
      steps := [];
    }
  }

  /** On any clean tree, new or used before, data in capacity hashes to its reference hash. */
  lemma {:induction false} CleanTreeDelivers(h: BaseHash, hs: nat, count: nat, d: Bytes, start: Tree)
    requires hs > 0 && count >= 1 && |d| <= hs * count
    requires Clean(ConfigFor(h, hs, count, d, start), start)
    ensures AlwaysDelivers(ConfigFor(h, hs, count, d, start), RefHash(h, hs, d, Span(hs, SpanExponent(count))))
  {
    hide ValidConfig, Clean, Chunks, Enabled, IsRun, Exec, RefHash, SpanExponent, Depth;
    var c := ConfigFor(h, hs, count, d, start);
    ConfigIsValid(h, hs, count, d, start);
    BmtClimb.InitInv(c);
    var steps := RunsEnd(c, Init(c));
    assert Complete(c, steps);
    forall steps | Complete(c, steps)
      ensures Exec(c, Init(c), steps).main == Released(RefHash(h, hs, d, Span(hs, SpanExponent(count))))
    {
      BmtTheorems.MaximalRunsDeliver(c, d, count, steps);
    }
  }

  /** What a new reference hasher returns. */
  method ReferenceHash(h: BaseHash, hs: nat, count: nat, d: Bytes) returns (r: Bytes)
    requires hs > 0 && count >= 1
    ensures r == RefHash(h, hs, BmtWriter.Truncate(d, count * hs), Span(hs, SpanExponent(count)))
  {
    hide RefHash, SpanExponent;
    var ref := new RefHasher(h, hs, count);
    r := ref.Hash(d, count);
  }

  /** A new tree, as the start of the protocol for any data. */
  method NewStart(count: nat) returns (leaves: seq<TreeNode>, ghost start: Tree)
    requires count >= 1
    ensures |leaves| == Pow2(Depth(count))
    ensures forall c: Config :: c.depth == Depth(count) && c.leaves == Pow2(Depth(count)) ==> Clean(c, start)
    ensures forall a :: a in start ==> start[a].state == 0
  {
    hide Clean, Memory, Depth;
    ghost var levels;
    leaves, levels := NewTree(count);
    start := Memory(levels);
    forall c: Config | c.depth == Depth(count) && c.leaves == Pow2(Depth(count))
      ensures Clean(c, start) && forall a :: a in start ==> start[a].state == 0
    {
      NewTreeIsClean(c, levels);
    }
    assert ShapeOf(count).depth == Depth(count);
  }

  /** A configuration that only has a shape. */
  function ShapeOf(count: nat): Config
    requires count >= 1
  {
    Config(d => [], 1, Depth(count), Pow2(Depth(count)), [[]], map[])
  }

  lemma {:induction false} TruncatedFits(d: Bytes, hs: nat, count: nat)
    ensures |BmtWriter.Truncate(d, count * hs)| <= hs * count
  {
    assert count * hs == hs * count;
  }

  /** The comparison the package is built on: however the data is split into writes and whatever the schedule, the
      concurrent hasher on a new tree delivers what the reference hasher returns. */
  method HashersAgree(h: BaseHash, hs: nat, count: nat, parts: seq<Bytes>)
    returns (expected: Bytes, chunks: seq<Bytes>, ghost start: Tree)
    requires hs > 0 && count >= 1 && BmtWriter.Cut(count, hs, parts)
    ensures var d := BmtWriter.Truncate(BmtWriter.Flatten(parts), count * hs);
      var c := ConfigFor(h, hs, count, d, start);
      && c.chunks == chunks && ValidConfig(c) && AlwaysDelivers(c, expected)
      && expected == RefHash(h, hs, d, Span(hs, SpanExponent(count)))
  {
    hide ValidConfig, Clean, Chunks, AlwaysDelivers, RefHash, SpanExponent, Depth;
    hide BmtWriter.Truncate, BmtWriter.Flatten;
    chunks := BmtWriter.WriteAll(hs, count, parts);
    var leaves;
    leaves, start := NewStart(count);
    expected := ReferenceHash(h, hs, count, BmtWriter.Flatten(parts));
    ghost var d := BmtWriter.Truncate(BmtWriter.Flatten(parts), count * hs);
    TruncatedFits(BmtWriter.Flatten(parts), hs, count);
    ConfigIsValid(h, hs, count, d, start);
    CleanTreeDelivers(h, hs, count, d, start);
  }
}
