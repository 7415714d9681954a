/** The concurrent half of `Hasher` in bmt/bmt.go as a state machine: one goroutine per leaf climbs a
    shared tree while the caller's goroutine launches segments, prepares the right edge, waits for
    the result and cleans the tree. Each step touches the shared memory at most once per node. */
module BmtProtocol {
  import opened BmtReference
  import opened BmtTree

  /** A node by its height above the leaves and its index on that level. */
  datatype Address = At(height: nat, index: nat)

  datatype Node = Node(left: Bytes, right: Bytes, state: int, unbalanced: bool, root: bool)

  type Tree = map<Address, Node>

  /** What one hashing run starts from. `chunks` are the segments in leaf order, the last one being
      the segment that `Sum` writes. */
  datatype Config = Config(h: BaseHash, hs: nat, depth: nat, leaves: nat, chunks: seq<Bytes>, start: Tree) {
    function Last(): int { |chunks| - 1 }
  }

  /** `Fresh` and `Hashed` are the two points of the goroutine body in `writeSegment`, the others those
      of the loop in `run`. */
  datatype Pc = Fresh | Hashed | Store | Check | Toggle | Combine | Emit | Exited | Sent

  datatype Proc = Proc(pc: Pc, height: nat, i: nat, d: nat, s: Bytes)

  datatype Main =
    | Writing
    | Finalising(height: nat, d: nat)
    | Summing(d: nat)
    | Waiting
    | Releasing(height: nat, result: Bytes)
    | Released(result: Bytes)

  /** `hashed` counts, per node, how often the base hash ran on both its inputs. */
  datatype State = State(tree: Tree, procs: seq<Proc>, main: Main, hashed: multiset<Address>)

  datatype Step = MainStep | ProcStep(g: nat)

  const MIN_INT32 := -0x8000_0000
  const MAX_INT32 := 0x7fff_ffff

  function AddInt32(v: int): int {
    if v == MAX_INT32 then MIN_INT32 else v + 1
  }

  /** Go's remainder truncates toward zero. */
  function Rem2(v: int): int {
    if v >= 0 then v % 2 else -((-v) % 2)
  }

  /** Whether a toggle that stored `v` tells its caller to wait. */
  predicate Waits(v: int) {
    Rem2(v) == 1
  }

  /** For an even counter the first toggle waits exactly while the counter has not wrapped. */
  lemma FirstToggleWaits(v: int)
    requires MIN_INT32 <= v <= MAX_INT32
    ensures v % 2 == 0 ==> (Waits(AddInt32(v)) <==> v >= 0)
    ensures v % 2 == 1 ==> !Waits(AddInt32(v))
  {
    if v < 0 && v % 2 == 0 {
      assert (-(v + 1)) % 2 == 1;
    }
  }

  /** The first two toggles after the counter wrapped: nobody waits for the partner. */
  lemma WrappedToggleDoesNotWait()
    ensures AddInt32(MAX_INT32) == MIN_INT32
    ensures !Waits(AddInt32(MIN_INT32))
    ensures !Waits(AddInt32(AddInt32(MIN_INT32)))
  {
    assert 0x7fff_ffff % 2 == 1;
  }

  predicate InTree(c: Config, a: Address) {
    a.height <= c.depth && c.leaves >= 1 && a.index <= Shr(c.leaves - 1, a.height)
  }

  /** A tree as it comes out of the pool. */
  ghost predicate Clean(c: Config, t: Tree) {
    && (forall a :: a in t <==> InTree(c, a))
    && (forall a :: a in t ==> !t[a].unbalanced && (t[a].root <==> a == At(c.depth, 0)))
    && (forall a :: a in t ==> t[a].state % 2 == 0 && 0 <= t[a].state <= MAX_INT32)
  }

  /** A run of `Write` calls that filled all leaves but the last, on a tree deep enough. */
  ghost predicate ValidConfig(c: Config) {
    && c.hs > 0 && |c.chunks| >= 1
    && c.Last() < c.leaves && Shr(c.leaves - 1, c.depth) == 0
    && (forall g :: 0 <= g < c.Last() ==> |c.chunks[g]| == 2 * c.hs)
    && |c.chunks[c.Last()]| <= 2 * c.hs
    && Clean(c, c.start)
  }

  function Init(c: Config): State {
    State(c.start, [], Writing, multiset{})
  }

  /** The side from which goroutine `g` enters its node of height `k`. */
  predicate FromLeft(g: nat, k: nat) {
    k == 0 || Shr(g, k - 1) % 2 == 0
  }

  function NodeOf(v: State, g: nat): Address
    requires g < |v.procs|
  {
    At(v.procs[g].height, Shr(g, v.procs[g].height))
  }

  /** `Sum` prepares the path from the leaf itself or, when the leaf is hashed whole, from its parent. */
  function StartHeight(c: Config): nat
    requires |c.chunks| >= 1
  {
    if |c.chunks[c.Last()]| > c.hs && c.Last() > 0 && c.depth > 0 then 1 else 0
  }

  predicate Running(pc: Pc) {
    pc != Exited && pc != Sent
  }

  predicate Sending(v: State, g: nat)
    requires g < |v.procs| && NodeOf(v, g) in v.tree
  {
    (v.procs[g].pc == Hashed || v.procs[g].pc == Emit) && v.tree[NodeOf(v, g)].root
  }

  /** No step dereferences a missing node. */
  predicate Safe(c: Config, v: State, st: Step)
    requires |c.chunks| >= 1
  {
    match st
    case MainStep =>
      (v.main.Finalising? || v.main.Releasing?) ==> At(v.main.height, Shr(c.Last(), v.main.height)) in v.tree
    case ProcStep(g) => g < |v.procs| && Running(v.procs[g].pc) ==> NodeOf(v, g) in v.tree
  }

  /** The result channel has no buffer: a send happens together with the receive in `Sum`. */
  predicate Enabled(c: Config, v: State, st: Step)
    requires |c.chunks| >= 1
  {
    && Safe(c, v, st)
    && match st
       case MainStep => !v.main.Waiting? && !v.main.Released?
       case ProcStep(g) => g < |v.procs| && Running(v.procs[g].pc) && (Sending(v, g) ==> v.main.Waiting?)
  }

  function Next(c: Config, v: State, st: Step): State
    requires |c.chunks| >= 1 && Enabled(c, v, st)
  {
    match st
    case MainStep => NextMain(c, v)
    case ProcStep(g) => NextProc(c, v, g)
  }

  function Launch(c: Config, v: State, d: nat): seq<Proc>
    requires |v.procs| < |c.chunks|
  {
    v.procs + [Proc(Fresh, 0, 0, d, c.chunks[|v.procs|])]
  }

  function NextMain(c: Config, v: State): State
    requires |c.chunks| >= 1 && Enabled(c, v, MainStep)
  {
    var last := c.Last();
    match v.main
    case Writing =>
      if |v.procs| < last then v.(procs := Launch(c, v, c.depth))
      else v.(main := Finalising(StartHeight(c), 0))
    case Finalising(k, d) =>
      var a := At(k, Shr(last, k));
      var n := v.tree[a].(unbalanced := FromLeft(last, k), right := []);
      if a.index == 0 then v.(tree := v.tree[a := n.(root := true)], main := Summing(d))
      else v.(tree := v.tree[a := n], main := Finalising(k + 1, d + 1))
    case Summing(d) =>
      if |v.procs| < |c.chunks| then v.(procs := Launch(c, v, d), main := Waiting) else v
    case Releasing(k, r) =>
      var a := At(k, Shr(last, k));
      var n := v.tree[a].(unbalanced := false);
      v.(tree := v.tree[a := if k < c.depth then n.(root := false) else n],
         main := if k < c.depth then Releasing(k + 1, r) else Released(r))
  }

  function NextProc(c: Config, v: State, g: nat): State
    requires |c.chunks| >= 1 && Enabled(c, v, ProcStep(g))
  {
    var p := v.procs[g];
    var a := NodeOf(v, g);
    var n := v.tree[a];
    match p.pc
    case Fresh =>
      if |p.s| > c.hs && c.depth > 0 then v.(procs := v.procs[g := p.(pc := Hashed, s := c.h(p.s))])
      else v.(procs := v.procs[g := p.(pc := Store, i := 2 * g)])
    case Hashed =>
      if n.root then v.(procs := v.procs[g := p.(pc := Sent)], main := Releasing(0, p.s))
      else v.(procs := v.procs[g := p.(pc := Store, height := 1, i := g)])
    case Store =>
      v.(tree := v.tree[a := if FromLeft(g, p.height) then n.(left := p.s) else n.(right := p.s)],
         procs := v.procs[g := p.(pc := Check)])
    case Check =>
      v.(procs := v.procs[g := p.(pc := if n.unbalanced then Combine else Toggle)])
    case Toggle =>
      var state := AddInt32(n.state);
      v.(tree := v.tree[a := n.(state := state)],
         procs := v.procs[g := p.(pc := if Waits(state) then Exited else Combine)])
    case Combine =>
      if !n.unbalanced || !FromLeft(g, p.height) || (p.i == 0 && p.d == 0) then
        v.(procs := v.procs[g := p.(pc := Emit, s := c.h(n.left + n.right))],
           hashed := v.hashed + multiset{a})
      else
        v.(procs := v.procs[g := p.(pc := Emit, s := n.left + n.right)])
    case Emit =>
      if n.root then v.(procs := v.procs[g := p.(pc := Sent)], main := Releasing(0, p.s))
      else v.(procs := v.procs[g := p.(pc := Store, height := p.height + 1, i := p.i + 1)])
  }

  /** A schedule: any finite sequence of enabled steps. */
  ghost predicate IsRun(c: Config, v: State, steps: seq<Step>)
    requires |c.chunks| >= 1
    decreases |steps|
  {
    steps == [] || (Enabled(c, v, steps[0]) && IsRun(c, Next(c, v, steps[0]), steps[1..]))
  }

  function Exec(c: Config, v: State, steps: seq<Step>): State
    requires |c.chunks| >= 1 && IsRun(c, v, steps)
    decreases |steps|
  {
    if steps == [] then v else Exec(c, Next(c, v, steps[0]), steps[1..])
  }
}
