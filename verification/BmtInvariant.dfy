/** What every interleaving of the tree hasher keeps, up to the moment the result is sent. */
module BmtInvariant {
  import opened BmtReference
  import opened BmtTree
  import opened BmtProtocol

  ghost function Root(c: Config): nat
    requires |c.chunks| >= 1
  {
    RootHeight(c.Last())
  }

  /** The value node (k, j) has to pass on; empty for nodes without data. */
  ghost function Val(c: Config, k: nat, j: nat): Bytes
    requires |c.chunks| >= 1
  {
    if Used(c.Last(), k, j) then NodeValue(c.h, c.hs, c.chunks, k, j) else []
  }

  /** What goroutine `g` brings to its node of height `k`. */
  ghost function Input(c: Config, g: nat, k: nat): Bytes
    requires g < |c.chunks|
  {
    if k == 0 then c.chunks[g] else Val(c, k - 1, Shr(g, k - 1))
  }

  predicate StartsAtLeaf(c: Config, g: nat)
    requires g < |c.chunks|
  {
    |c.chunks[g]| <= c.hs || c.depth == 0
  }

  ghost predicate Phase(c: Config, v: State)
    requires |c.chunks| >= 1
  {
    match v.main
    case Writing => |v.procs| <= c.Last()
    case Finalising(k, d) => |v.procs| == c.Last() && StartHeight(c) <= k <= Root(c) && d == k - StartHeight(c)
    case Summing(d) => |v.procs| == c.Last() && d == Root(c) - StartHeight(c)
    case Waiting => |v.procs| == |c.chunks|
    case _ => false
  }

  /** Whether `Sum` has already prepared its node of height `k`. */
  ghost predicate Prepared(c: Config, v: State, k: nat)
    requires |c.chunks| >= 1
  {
    StartHeight(c) <= k <= Root(c) && !v.main.Writing? && (v.main.Finalising? ==> k < v.main.height)
  }

  ghost predicate Flags(c: Config, v: State)
    requires |c.chunks| >= 1
  {
    && v.tree.Keys == c.start.Keys
    && (forall a :: a in v.tree ==>
          && (v.tree[a].unbalanced <==>
                Prepared(c, v, a.height) && a.index == Shr(c.Last(), a.height) && FromLeft(c.Last(), a.height))
          && (v.tree[a].root <==> a == At(c.depth, 0) || (a == At(Root(c), 0) && Prepared(c, v, Root(c))))
          && (v.tree[a].unbalanced ==> v.tree[a].right == []))
  }

  function Slot(n: Node, left: bool): Bytes {
    if left then n.left else n.right
  }

  /** Position, locals and stored input of goroutine `g`. */
  ghost predicate ProcOk(c: Config, v: State, g: nat)
    requires g < |v.procs| <= |c.chunks|
  {
    var p := v.procs[g];
    var k := p.height;
    var a := At(k, Shr(g, k));
    && k <= Root(c)
    && a in v.tree
    && p.d == (if g < c.Last() then c.depth else Root(c) - StartHeight(c))
    && (p.pc == Fresh || p.pc == Hashed ==> k == 0)
    && (p.pc == Fresh ==> p.s == c.chunks[g])
    && (p.pc == Hashed ==> !StartsAtLeaf(c, g) && p.s == c.h(c.chunks[g]))
    && (p.pc != Fresh && p.pc != Hashed ==>
          && p.i == (if StartsAtLeaf(c, g) then 2 * g + k else g + k - 1)
          && (k == 0 ==> StartsAtLeaf(c, g) && p.pc != Toggle && p.pc != Exited))
    && (p.pc == Store ==> p.s == Input(c, g, k))
    && (p.pc == Check || p.pc == Toggle || p.pc == Combine || p.pc == Exited ==>
          Slot(v.tree[a], FromLeft(g, k)) == Input(c, g, k))
    && (p.pc == Emit ==> p.s == Val(c, k, a.index))
    && (p.pc == Toggle || p.pc == Exited ==> Balanced(c.Last(), k, a.index))
    && p.pc != Sent
  }

  /** A goroutine above node (k, j) is alone: everyone else launched below that node has stopped there. */
  ghost predicate Alone(c: Config, v: State, g: nat, k: nat, q: nat)
    requires g < |v.procs| && q < |c.chunks|
  {
    k < v.procs[g].height && q != g && Shr(q, k) == Shr(g, k) ==>
      q < |v.procs| && v.procs[q].pc == Exited && v.procs[q].height <= k
  }

  ghost predicate Own(c: Config, v: State) {
    forall g, k: nat, q :: 0 <= g < |v.procs| && 0 <= q < |c.chunks| ==> Alone(c, v, g, k, q)
  }

  predicate ExitedAt(v: State, g: nat, k: nat, j: nat)
    requires g < |v.procs|
  {
    v.procs[g].pc == Exited && v.procs[g].height == k && Shr(g, k) == j
  }

  /** `g` went through node (k, j) as the one that goes on. */
  predicate PassedAt(v: State, g: nat, k: nat, j: nat)
    requires g < |v.procs|
  {
    && Shr(g, k) == j
    && (v.procs[g].height > k
        || (v.procs[g].height == k && v.procs[g].pc in {Combine, Emit, Sent}))
  }

  predicate EmittedAt(v: State, g: nat, k: nat, j: nat)
    requires g < |v.procs|
  {
    && Shr(g, k) == j
    && (v.procs[g].height > k
        || (v.procs[g].height == k && v.procs[g].pc in {Emit, Sent}))
  }

  ghost predicate FirstCame(v: State, k: nat, j: nat) {
    exists g :: 0 <= g < |v.procs| && ExitedAt(v, g, k, j)
  }

  ghost predicate OneExit(v: State, k: nat, j: nat) {
    forall p, q :: 0 <= p < |v.procs| && 0 <= q < |v.procs| && ExitedAt(v, p, k, j) && ExitedAt(v, q, k, j) ==> p == q
  }

  ghost predicate SecondCame(v: State, k: nat, j: nat) {
    exists g :: 0 <= g < |v.procs| && PassedAt(v, g, k, j)
  }

  ghost predicate HasEmitted(v: State, k: nat, j: nat) {
    exists g :: 0 <= g < |v.procs| && EmittedAt(v, g, k, j)
  }

  ghost function Toggled(v: State, start: int, k: nat, j: nat): int {
    if SecondCame(v, k, j) then AddInt32(AddInt32(start))
    else if FirstCame(v, k, j) then AddInt32(start)
    else start
  }

  /** The counter of every balanced node tells who came, and its hash ran once the second one is through. */
  ghost predicate NodeOk(c: Config, v: State, a: Address)
    requires |c.chunks| >= 1 && a in v.tree && a in c.start
  {
    if Balanced(c.Last(), a.height, a.index) then
      && v.tree[a].state == Toggled(v, c.start[a].state, a.height, a.index)
      && OneExit(v, a.height, a.index)
      && (SecondCame(v, a.height, a.index) ==> FirstCame(v, a.height, a.index))
      && v.hashed[a] == (if HasEmitted(v, a.height, a.index) then 1 else 0)
    else v.tree[a].state == c.start[a].state
  }

  ghost predicate Inv(c: Config, v: State) {
    && ValidConfig(c)
    && |v.procs| <= |c.chunks|
    && Phase(c, v)
    && Flags(c, v)
    && (forall g :: 0 <= g < |v.procs| ==> ProcOk(c, v, g))
    && Own(c, v)
    && (forall a :: a in v.tree && a in c.start ==> NodeOk(c, v, a))
  }
}
