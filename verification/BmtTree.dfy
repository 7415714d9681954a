/** Addresses of tree nodes, the leaf chunks of the data, and the value each node should carry. */
module BmtTree {
  import opened BmtReference
  import opened BmtRefHasher

  /** Index, at height `k` above the leaves, of the ancestor of leaf `g`. */
  function Shr(g: nat, k: nat): nat {
    if k == 0 then g else Shr(g, k - 1) / 2
  }

  lemma {:induction false} ShrMono(a: nat, b: nat, k: nat)
    requires a <= b
    ensures Shr(a, k) <= Shr(b, k)
  {
    if k > 0 { ShrMono(a, b, k - 1); }
  }

  /** Once the index is 0 it stays 0 further up. */
  lemma {:induction false} ShrZeroAbove(g: nat, k: nat, m: nat)
    requires k <= m && Shr(g, k) == 0
    ensures Shr(g, m) == 0
  {
    if k < m { ShrZeroAbove(g, k, m - 1); }
  }

  /** The data cut into leaves of `leaf` bytes; empty data is one empty leaf. */
  function Chunks(d: Bytes, leaf: nat): (cs: seq<Bytes>)
    requires leaf > 0
    ensures |cs| >= 1
  {
    if |d| <= leaf then [d] else [d[..leaf]] + Chunks(d[leaf..], leaf)
  }

  /** Offset of the `j`-th window of width `w`; equal to j * w, kept away from nonlinear arithmetic. */
  function Offset(j: nat, w: nat): nat {
    if j == 0 then 0 else Offset(j - 1, w) + w
  }

  lemma {:induction false} OffsetMono(a: nat, b: nat, w: nat)
    requires a <= b
    ensures Offset(a, w) <= Offset(b, w)
  {
    if a < b { OffsetMono(a, b - 1, w); }
  }

  lemma {:induction false} OffsetDouble(j: nat, w: nat)
    ensures Offset(2 * j, w) == Offset(j, 2 * w)
    ensures Offset(2 * j + 1, w) == Offset(j, 2 * w) + w
  {
    if j > 0 { OffsetDouble(j - 1, w); }
  }

  lemma {:induction false} ChunkCount(d: Bytes, leaf: nat)
    requires leaf > 0 && d != []
    ensures Offset(|Chunks(d, leaf)| - 1, leaf) < |d| <= Offset(|Chunks(d, leaf)|, leaf)
  {
    if |d| > leaf { ChunkCount(d[leaf..], leaf); }
  }

  function Min(a: int, b: int): int {
    if a <= b then a else b
  }

  /** The bytes of `d` in the `j`-th window of width `w`. */
  function Window(d: Bytes, w: nat, j: nat): Bytes
    requires Offset(j, w) <= |d|
  {
    d[Offset(j, w) .. Min(Offset(j, w) + w, |d|)]
  }

  lemma {:induction false} WindowOfRest(d: Bytes, w: nat, i: nat)
    requires i > 0 && w <= |d| && Offset(i, w) <= |d|
    ensures Offset(i - 1, w) <= |d[w..]| && Window(d, w, i) == Window(d[w..], w, i - 1)
  {
  }

  lemma {:induction false} ChunkIsWindow(d: Bytes, leaf: nat, i: nat)
    requires leaf > 0 && d != [] && i < |Chunks(d, leaf)|
    ensures Offset(i, leaf) < |d|
    ensures Chunks(d, leaf)[i] == Window(d, leaf, i)
  {
    ChunkCount(d, leaf);
    OffsetMono(i, |Chunks(d, leaf)| - 1, leaf);
    if i > 0 {
      var rest := d[leaf..];
      ChunkIsWindow(rest, leaf, i - 1);
      WindowOfRest(d, leaf, i);
    }
  }

  /** Whether node (k, j) has data below it, when `last` is the last leaf with data. */
  predicate Used(last: nat, k: nat, j: nat) {
    j <= Shr(last, k)
  }

  /** Whether node (k, j) has data on both sides. */
  predicate Balanced(last: nat, k: nat, j: nat) {
    k >= 1 && 2 * j + 1 <= Shr(last, k - 1)
  }

  /** What node (k, j) must pass to its parent (or, for the root, return). */
  function NodeValue(h: BaseHash, hs: nat, cs: seq<Bytes>, k: nat, j: nat): Bytes
    requires |cs| >= 1 && Used(|cs| - 1, k, j)
    decreases k
  {
    var last := |cs| - 1;
    if k == 0 then
      if last == 0 || |cs[j]| > hs then h(cs[j]) else cs[j]
    else if Balanced(last, k, j) then
      h(NodeValue(h, hs, cs, k - 1, 2 * j) + NodeValue(h, hs, cs, k - 1, 2 * j + 1))
    else
      NodeValue(h, hs, cs, k - 1, 2 * j)
  }

  /** The smallest subtree holding leaf 0 and the last leaf. */
  predicate IsRootHeight(last: nat, k: nat) {
    Shr(last, k) == 0 && (k > 0 ==> Shr(last, k - 1) > 0)
  }

  function RootHeightFrom(last: nat, k: nat): (r: nat)
    requires k > 0 ==> Shr(last, k - 1) > 0
    ensures IsRootHeight(last, r)
    decreases Shr(last, k)
  {
    if Shr(last, k) == 0 then k else RootHeightFrom(last, k + 1)
  }

  function RootHeight(last: nat): (r: nat)
    ensures IsRootHeight(last, r)
  {
    RootHeightFrom(last, 0)
  }

  /** A node is used exactly when its window of the data is not empty. */
  lemma {:induction false} UsedMeansNonEmpty(d: Bytes, leaf: nat, k: nat, j: nat)
    requires leaf > 0 && d != []
    ensures Used(|Chunks(d, leaf)| - 1, k, j) <==> Offset(j, Span(leaf, k)) < |d|
    decreases k
  {
    if k == 0 {
      var n := |Chunks(d, leaf)|;
      ChunkCount(d, leaf);
      if j <= n - 1 { OffsetMono(j, n - 1, leaf); } else { OffsetMono(n, j, leaf); }
    } else {
      UsedMeansNonEmpty(d, leaf, k - 1, 2 * j);
      OffsetDouble(j, Span(leaf, k - 1));
    }
  }

  /** A window is its two half windows, or just the left one when the data ends there. */
  lemma {:induction false} WindowHalves(d: Bytes, w: nat, j: nat)
    requires w > 0 && Offset(j, 2 * w) <= |d|
    ensures Offset(2 * j, w) <= |d|
    ensures Offset(2 * j + 1, w) < |d| ==>
      && |Window(d, 2 * w, j)| > w
      && Window(d, 2 * w, j)[..w] == Window(d, w, 2 * j)
      && Window(d, 2 * w, j)[w..] == Window(d, w, 2 * j + 1)
    ensures Offset(2 * j + 1, w) >= |d| ==>
      && |Window(d, 2 * w, j)| <= w
      && Window(d, 2 * w, j) == Window(d, w, 2 * j)
  {
    OffsetDouble(j, w);
  }

  lemma {:induction false} TreeValueOfHalves(h: BaseHash, hs: nat, win: Bytes, left: Bytes, right: Bytes, k: nat)
    requires hs > 0 && k > 0 && |win| > Span(hs, k)
    requires left == win[..Span(hs, k)] && right == win[Span(hs, k)..]
    ensures TreeValue(h, hs, win, k) == h(TreeValue(h, hs, left, k - 1) + TreeValue(h, hs, right, k - 1))
  {}

  lemma {:induction false} NodeValueOfChildren(h: BaseHash, hs: nat, cs: seq<Bytes>, k: nat, j: nat)
    requires |cs| >= 1 && k > 0 && Used(|cs| - 1, k, j)
    ensures Used(|cs| - 1, k - 1, 2 * j)
    ensures if Balanced(|cs| - 1, k, j)
            then NodeValue(h, hs, cs, k, j)
              == h(NodeValue(h, hs, cs, k - 1, 2 * j) + NodeValue(h, hs, cs, k - 1, 2 * j + 1))
            else NodeValue(h, hs, cs, k, j) == NodeValue(h, hs, cs, k - 1, 2 * j)
  {}

  ghost predicate WindowValueCorrect(h: BaseHash, hs: nat, d: Bytes, cs: seq<Bytes>, w: nat, k: nat, j: nat)
    requires hs > 0 && |cs| >= 1 && Used(|cs| - 1, k, j)
  {
    && Offset(j, w) < |d|
    && NodeValue(h, hs, cs, k, j) == TreeValue(h, hs, Window(d, w, j), k)
  }

  lemma {:induction false} WindowValueStep(h: BaseHash, hs: nat, d: Bytes, cs: seq<Bytes>, w: nat, k: nat, j: nat)
    requires hs > 0 && |cs| >= 1 && k > 0 && w == Span(hs, k)
    requires Used(|cs| - 1, k, j) && Used(|cs| - 1, k - 1, 2 * j) && Offset(j, 2 * w) < |d|
    requires WindowValueCorrect(h, hs, d, cs, w, k - 1, 2 * j)
    requires Balanced(|cs| - 1, k, j) <==> Offset(2 * j + 1, w) < |d|
    requires Balanced(|cs| - 1, k, j) ==> WindowValueCorrect(h, hs, d, cs, w, k - 1, 2 * j + 1)
    ensures WindowValueCorrect(h, hs, d, cs, 2 * w, k, j)
  {
    WindowHalves(d, w, j);
    NodeValueOfChildren(h, hs, cs, k, j);
    var win := Window(d, 2 * w, j);
    if Balanced(|cs| - 1, k, j) {
      TreeValueOfHalves(h, hs, win, Window(d, w, 2 * j), Window(d, w, 2 * j + 1), k);
    } else {
      assert TreeValue(h, hs, win, k) == TreeValue(h, hs, win, k - 1);
    }
  }

  lemma {:induction false} LeafValueIsTreeValue(h: BaseHash, hs: nat, d: Bytes, leaf: nat, cs: seq<Bytes>, j: nat)
    requires hs > 0 && |d| > leaf == 2 * hs && cs == Chunks(d, leaf) && j < |cs|
    ensures WindowValueCorrect(h, hs, d, cs, leaf, 0, j)
  {
    ChunkIsWindow(d, leaf, j);
    assert |cs| > 1;
  }

  /** Node values computed from the leaf chunks are tree values of the windows of the data. */
  lemma {:induction false} NodeValueIsTreeValue(h: BaseHash, hs: nat, d: Bytes, leaf: nat, cs: seq<Bytes>, k: nat,
                                                j: nat)
    requires hs > 0 && |d| > leaf == 2 * hs && cs == Chunks(d, leaf)
    requires Used(|cs| - 1, k, j)
    ensures WindowValueCorrect(h, hs, d, cs, Span(leaf, k), k, j)
    decreases k
  {
    hide NodeValue, TreeValue, Window, Chunks;
    if k == 0 {
      LeafValueIsTreeValue(h, hs, d, leaf, cs, j);
    } else {
      var w := Span(leaf, k - 1);
      SpanShift(hs, k - 1);
      NodeValueIsTreeValue(h, hs, d, leaf, cs, k - 1, 2 * j);
      if Balanced(|cs| - 1, k, j) {
        NodeValueIsTreeValue(h, hs, d, leaf, cs, k - 1, 2 * j + 1);
      }
      UsedMeansNonEmpty(d, leaf, k, j);
      UsedMeansNonEmpty(d, leaf, k - 1, 2 * j + 1);
      WindowValueStep(h, hs, d, cs, w, k, j);
    }
  }

  lemma {:induction false} SpanShift(w: nat, k: nat)
    ensures Span(2 * w, k) == Span(w, k + 1)
  {
    if k > 0 { SpanShift(w, k - 1); }
  }

  lemma {:induction false} RootWindow(d: Bytes, leaf: nat, k: nat)
    requires leaf > 0 && d != [] && Shr(|Chunks(d, leaf)| - 1, k) == 0
    ensures |d| <= Span(leaf, k) && Window(d, Span(leaf, k), 0) == d
  {
    UsedMeansNonEmpty(d, leaf, k, 1);
    assert Offset(1, Span(leaf, k)) == Offset(0, Span(leaf, k)) + Span(leaf, k);
  }

  lemma {:induction false} LongRootValue(h: BaseHash, hs: nat, d: Bytes, leaf: nat, cs: seq<Bytes>, k: nat, m: nat)
    requires hs > 0 && |d| > leaf == 2 * hs && cs == Chunks(d, leaf)
    requires Shr(|cs| - 1, k) == 0 && k <= m
    ensures NodeValue(h, hs, cs, k, 0) == RefHash(h, hs, d, Span(hs, m))
  {
    NodeValueIsTreeValue(h, hs, d, leaf, cs, k, 0);
    RootWindow(d, leaf, k);
    SpanShift(hs, k);
    RefHashIsTreeValue(h, hs, d, k, m);
  }

  /** The root of the tree over the chunks is the reference hash, for every length in capacity. */
  lemma {:induction false} RootValueIsRefHash(h: BaseHash, hs: nat, d: Bytes, count: nat)
    requires hs > 0 && count >= 1 && |d| <= hs * count
    ensures NodeValue(h, hs, Chunks(d, 2 * hs), RootHeight(|Chunks(d, 2 * hs)| - 1), 0)
         == RefHash(h, hs, d, Span(hs, SpanExponent(count)))
  {
    var leaf := 2 * hs;
    var cs := Chunks(d, leaf);
    if |d| > leaf {
      RootHeightFits(hs, d, count);
      LongRootValue(h, hs, d, leaf, cs, RootHeight(|cs| - 1), Depth(count));
    } else {
      assert cs == [d];
    }
  }

  lemma MulMono(a: nat, b: nat, c: nat)
    requires a <= b
    ensures a * c <= b * c
  {}

  /** The root of the data lies within the prebuilt tree. */
  lemma {:induction false} RootHeightFits(hs: nat, d: Bytes, count: nat)
    requires hs > 0 && count >= 1 && 2 * hs < |d| <= hs * count
    ensures count >= 3 && 1 <= RootHeight(|Chunks(d, 2 * hs)| - 1) <= Depth(count)
  {
    if count <= 2 { MulMono(count, 2, hs); }
    var last := |Chunks(d, 2 * hs)| - 1;
    var k := RootHeight(last);
    DepthBounds(count);
    UsedMeansNonEmpty(d, 2 * hs, k - 1, 1);
    SpanShift(hs, k - 1);
    SpanIsPow2(hs, k);
    if k > Depth(count) {
      Pow2Mono(Depth(count) + 1, k);
      MulMono(count, Pow2(k), hs);
    }
  }
}
