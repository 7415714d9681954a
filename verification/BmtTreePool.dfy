/** `TreePool` of bmt/bmt.go: a tree popped from the pool is fit for hashing a new chunk. */
module BmtTreePool {
  import opened Options
  import opened BmtReference
  import opened BmtRefHasher
  import opened BmtTree
  import opened BmtPool
  import opened BmtProtocol
  import opened BmtEndToEnd
  import BmtTheorems
  import BmtWriter

  /** The counters of a tree stay below 2^31 for this many chunks. */
  const SAFE_USES: nat := 0x4000_0000

  class PooledTree {
    const count: nat
    const leaves: seq<TreeNode>
    /** The memory of the nodes, and how many chunks were hashed on them. */
    ghost var memory: Tree
    ghost var uses: nat

    /** Fit for the next chunk, as long as it has not been used too often. */
    ghost predicate Ready()
      reads this
    {
      count >= 1 && (uses < SAFE_USES ==> BmtTheorems.CountersBelow(ShapeOf(count), memory, 2 * uses))
    }

    constructor (count: nat)
      requires count >= 1
      ensures Ready() && uses == 0 && this.count == count && |leaves| == Pow2(Depth(count))
    {
      var nodes;
      ghost var start;
      nodes, start := NewStart(count);
      this.count, leaves := count, nodes;
      memory, uses := start, 0;
    }

    /** Hashes one chunk on the tree: buffers the parts, runs the goroutines by the schedule `steps` to its end, and
        takes the delivered value. */
    method Hash(h: BaseHash, hs: nat, parts: seq<Bytes>, ghost steps: seq<Step>)
      returns (chunks: seq<Bytes>, ghost r: Bytes)
      requires Ready() && uses < SAFE_USES && hs > 0 && BmtWriter.Cut(count, hs, parts)
      requires var d := BmtWriter.Truncate(BmtWriter.Flatten(parts), count * hs);
        Complete(ConfigFor(h, hs, count, d, memory), steps)
      modifies this
      ensures Ready() && uses == old(uses) + 1
      ensures var d := BmtWriter.Truncate(BmtWriter.Flatten(parts), count * hs);
        && chunks == Chunks(d, 2 * hs)
        && r == RefHash(h, hs, d, Span(hs, SpanExponent(count)))
    {
      hide Clean, Chunks, Enabled, IsRun, Exec, RefHash, SpanExponent, Depth, BmtWriter.Truncate, BmtWriter.Flatten;
      ghost var d := BmtWriter.Truncate(BmtWriter.Flatten(parts), count * hs);
      ghost var c := ConfigFor(h, hs, count, d, memory);
      chunks := BmtWriter.WriteAll(hs, count, parts);
      TruncatedFits(BmtWriter.Flatten(parts), hs, count);
      SameShape(c, ShapeOf(count), memory, 2 * uses);
      CleanTreeDelivers(h, hs, count, d, memory);
      ConfigIsValid(h, hs, count, d, memory);
      assert Exec(c, Init(c), steps).main == Released(RefHash(h, hs, d, Span(hs, SpanExponent(count))));
      r := Exec(c, Init(c), steps).main.result;
      if uses + 1 < SAFE_USES { BmtTheorems.CountersAfterOneUse(c, steps, 2 * uses); }
      memory, uses := Exec(c, Init(c), steps).tree, uses + 1;
      SameShape(ShapeOf(count), c, memory, 2 * uses);
    }
  }

  /** Whether a tree is clean depends on its shape only. */
  lemma {:induction false} SameShape(c: Config, shape: Config, t: Tree, n: int)
    requires c.depth == shape.depth && c.leaves == shape.leaves
    ensures BmtTheorems.CountersBelow(c, t, n) <==> BmtTheorems.CountersBelow(shape, t, n)
    ensures Clean(c, t) <==> Clean(shape, t)
  {
    assert forall a :: InTree(c, a) <==> InTree(shape, a);
  }

  ghost predicate Distinct<T>(s: seq<T>) {
    forall i, j :: 0 <= i < j < |s| ==> s[i] != s[j]
  }

  class TreePool {
    const segmentCount: nat
    const capacity: nat
    /** Contents of the channel of free trees, whose buffer holds `capacity` trees. */
    var free: seq<PooledTree>
    var count: nat
    /** Trees handed out and not yet given back. */
    ghost var reserved: set<PooledTree>

    ghost predicate Valid()
      reads this, free
    {
      && segmentCount >= 1
      && |free| + |reserved| == count <= capacity
      && Distinct(free)
      && (forall t :: t in free ==> t !in reserved)
      && (forall t :: t in free ==> t.count == segmentCount && t.Ready())
    }

    constructor (segmentCount: nat, capacity: nat)
      requires segmentCount >= 1
      ensures Valid() && this.segmentCount == segmentCount && this.capacity == capacity
      ensures free == [] && reserved == {} && count == 0
    {
      this.segmentCount, this.capacity := segmentCount, capacity;
      free, count, reserved := [], 0, {};
    }

    /** Nothing is returned where the receive would block: all trees are out. */
    method Reserve() returns (t: Option<PooledTree>)
      requires Valid()
      modifies this
      ensures Valid()
      ensures t == None <==> old(|reserved| == capacity)
      ensures t == None ==> free == old(free) && reserved == old(reserved) && count == old(count)
      ensures t.Some? ==>
        && t.value !in old(reserved) && reserved == old(reserved) + {t.value}
        && t.value.count == segmentCount && t.value.Ready()
      ensures t.Some? && old(free) != [] ==> t.value == old(free)[0] && free == old(free)[1..] && count == old(count)
      ensures t.Some? && old(free) == [] ==>
        fresh(t.value) && t.value.uses == 0 && free == [] && count == old(count) + 1
    {
      if count == capacity && free == [] {
        return None;
      }
      if free != [] {
        t := Some(free[0]);
        free := free[1..];
      } else {
        var n := new PooledTree(segmentCount);
        t := Some(n);
        count := count + 1;
      }
      reserved := reserved + {t.value};
    }

    /** The send never blocks: a tree is only given back while the channel has room. */
    method Release(t: PooledTree)
      requires Valid() && t in reserved && t.count == segmentCount && t.Ready()
      modifies this
      ensures Valid() && |old(free)| < capacity
      ensures free == old(free) + [t] && reserved == old(reserved) - {t} && count == old(count)
    {
      free := free + [t];
      reserved := reserved - {t};
    }

    method Drain(n: nat)
      requires Valid()
      modifies this
      ensures Valid() && reserved == old(reserved)
      ensures free == if |old(free)| <= n then old(free) else old(free)[|old(free)| - n..]
    {
      while |free| > n
        invariant Valid() && reserved == old(reserved)
        invariant |free| <= |old(free)| && free == old(free)[|old(free)| - |free|..]
        invariant |free| < |old(free)| ==> |free| >= n
      {
        free := free[1..];
        count := count - 1;
      }
    }

    /** `Sum` with a reserved tree: hash a chunk on it and give it back. */
    method HashChunk(h: BaseHash, hs: nat, parts: seq<Bytes>, t: PooledTree, ghost steps: seq<Step>)
      returns (ghost r: Bytes)
      requires Valid() && t in reserved && t.count == segmentCount && t.Ready() && t.uses < SAFE_USES
      requires hs > 0 && BmtWriter.Cut(segmentCount, hs, parts)
      requires var d := BmtWriter.Truncate(BmtWriter.Flatten(parts), segmentCount * hs);
        Complete(ConfigFor(h, hs, segmentCount, d, t.memory), steps)
      modifies this, t
      ensures Valid() && free == old(free) + [t] && reserved == old(reserved) - {t} && t.uses == old(t.uses) + 1
      ensures var d := BmtWriter.Truncate(BmtWriter.Flatten(parts), segmentCount * hs);
        r == RefHash(h, hs, d, Span(hs, SpanExponent(segmentCount)))
    {
      hide Complete, RefHash, BmtTheorems.CountersBelow;
      var chunks;
      chunks, r := t.Hash(h, hs, parts, steps);
      Release(t);
    }
  }
}
