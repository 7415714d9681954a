/** In bmt/bmt.go a goroutine reads the flag and both inputs of its node one after the other, and `finalise` writes
    the flag, the right input and the root mark of a node one after the other; the protocol does either in one step.
    Nothing that happens in between can tell the difference. */
module BmtReads {
  import opened BmtReference
  import opened BmtTree
  import opened BmtProtocol
  import opened BmtInvariant
  import opened BmtPreservation
  import opened BmtClimb

  /** What `g` is about to read, and `g` itself, are the same in both states. */
  ghost predicate SameReads(v: State, v': State, g: nat)
    requires g < |v.procs| && NodeOf(v, g) in v.tree
  {
    var a := NodeOf(v, g);
    && |v.procs| <= |v'.procs| && v'.procs[g] == v.procs[g] && a in v'.tree
    && v'.tree[a].left == v.tree[a].left
    && v'.tree[a].right == v.tree[a].right
    && v'.tree[a].unbalanced == v.tree[a].unbalanced
  }

  /** `Sum` does not prepare a node that a goroutine is reading. */
  lemma {:induction false} NotPreparedNow(c: Config, v: State, g: nat)
    requires Inv(c, v) && g < |v.procs| && v.procs[g].pc == Combine && v.main.Finalising?
    ensures NodeOf(v, g) != At(v.main.height, Shr(c.Last(), v.main.height))
  {
    hide Flags, Val, Input, Root;
    var a := NodeOf(v, g);
    if a == At(v.main.height, Shr(c.Last(), v.main.height)) {
      FlagIsMissingRight(c, v, g);
      var p := Partner(c, v, g);
      NobodyFromRight(c, v, g);
      NobodyFromRight(c, v, p);
    }
  }

  /** Whoever takes the next step, it is not at the node that `g` is reading. */
  lemma {:induction false} OthersAreElsewhere(c: Config, v: State, g: nat, q: nat)
    requires Inv(c, v) && g < |v.procs| && v.procs[g].pc == Combine
    requires q != g && Enabled(c, v, ProcStep(q))
    ensures NodeOf(v, q) != NodeOf(v, g)
  {
    if NodeOf(v, q) == NodeOf(v, g) { OthersStopped(c, v, g, q); }
  }

  /** While `g` is reading, nobody delivers the result. */
  lemma {:induction false} NobodySends(c: Config, v: State, g: nat, q: nat)
    requires Inv(c, v) && g < |v.procs| && v.procs[g].pc == Combine
    requires q != g && Enabled(c, v, ProcStep(q))
    ensures !Sending(v, q)
  {
    assert ProcOk(c, v, q);
    if Sending(v, q) {
      RootFlagIsRoot(c, v, q);
      RootFits(c);
      ShrMono(g, c.Last(), Root(c));
      ShrMono(q, c.Last(), Root(c));
      if v.procs[q].pc == Emit { OthersStopped(c, v, q, g); }
    }
  }

  lemma {:induction false} MainSpares(c: Config, v: State, g: nat)
    requires Inv(c, v) && g < |v.procs| && v.procs[g].pc == Combine && Enabled(c, v, MainStep)
    ensures Inv(c, NextMain(c, v)) && NodeOf(v, g) in v.tree && SameReads(v, NextMain(c, v), g)
  {
    hide Flags, NodeOk, Own, Root, Shr;
    assert ProcOk(c, v, g);
    if v.main.Finalising? {
      NotPreparedNow(c, v, g);
      FinaliseStep(c, v);
    } else {
      WriteStep(c, v);
    }
  }

  lemma {:induction false} ProcSpares(c: Config, v: State, g: nat, q: nat)
    requires Inv(c, v) && g < |v.procs| && v.procs[g].pc == Combine && q != g && Enabled(c, v, ProcStep(q))
    ensures Inv(c, NextProc(c, v, q)) && NodeOf(v, g) in v.tree && SameReads(v, NextProc(c, v, q), g)
  {
    hide Flags, NodeOk, Own, Root, Shr, FromLeft;
    assert ProcOk(c, v, g);
    OthersAreElsewhere(c, v, g, q);
    NobodySends(c, v, g, q);
    ProcStepKeeps(c, v, q);
  }

  lemma {:induction false} StepSpares(c: Config, v: State, g: nat, st: Step)
    requires Inv(c, v) && g < |v.procs| && v.procs[g].pc == Combine
    requires st != ProcStep(g) && Enabled(c, v, st)
    ensures Inv(c, Next(c, v, st)) && NodeOf(v, g) in v.tree && SameReads(v, Next(c, v, st), g)
  {
    hide Inv, SameReads, NextMain, NextProc, Shr;
    match st
    case MainStep => MainSpares(c, v, g);
    case ProcStep(q) => ProcSpares(c, v, g, q);
  }

  /** However long `g` pauses between its reads, it reads what it would have read at once. */
  lemma {:induction false} ReadsHoldStill(c: Config, v: State, g: nat, steps: seq<Step>)
    requires Inv(c, v) && g < |v.procs| && v.procs[g].pc == Combine
    requires IsRun(c, v, steps) && ProcStep(g) !in steps
    ensures NodeOf(v, g) in v.tree && SameReads(v, Exec(c, v, steps), g)
    decreases |steps|
  {
    hide Phase, Flags, ProcOk, Own, NodeOk, Clean, Next, Enabled;
    assert NodeOf(v, g) in v.tree by { AlwaysSafe(c, v, ProcStep(g)); }
    if steps != [] {
      StepSpares(c, v, g, steps[0]);
      ReadsHoldStill(c, Next(c, v, steps[0]), g, steps[1..]);
    }
  }

  // The writes of `finalise`

  function Edge(c: Config, v: State): Address
    requires |c.chunks| >= 1 && v.main.Finalising?
  {
    At(v.main.height, Shr(c.Last(), v.main.height))
  }

  /** `Sum` has done some of its writes to the node it is preparing. */
  function Partly(c: Config, v: State, flag: bool, right: bool, root: bool): State
    requires |c.chunks| >= 1 && v.main.Finalising? && Edge(c, v) in v.tree
  {
    var a := Edge(c, v);
    var n := v.tree[a];
    var n' := n.(unbalanced := if flag then FromLeft(c.Last(), a.height) else n.unbalanced,
                 right := if right then [] else n.right,
                 root := n.root || (root && a.index == 0));
    v.(tree := v.tree[a := n'])
  }

  /** With all three done the step is complete. */
  lemma {:induction false} AllWritten(c: Config, v: State)
    requires |c.chunks| >= 1 && v.main.Finalising? && Enabled(c, v, MainStep)
    ensures Edge(c, v) in v.tree && NextMain(c, v) == Partly(c, v, true, true, true).(main := NextMain(c, v).main)
  {
    var a := Edge(c, v);
    assert a.index != 0 ==>
      Partly(c, v, true, true, true).tree[a] == v.tree[a].(unbalanced := FromLeft(c.Last(), a.height), right := []);
  }

  /** A goroutine at that node came from the left, is yet to toggle it, and finds it balanced before and after. */
  lemma {:induction false} EdgeVisitor(c: Config, v: State, g: nat)
    requires Inv(c, v) && v.main.Finalising? && Enabled(c, v, ProcStep(g)) && NodeOf(v, g) == Edge(c, v)
    ensures v.procs[g].pc in {Store, Check, Toggle} && FromLeft(g, v.procs[g].height)
    ensures !v.tree[Edge(c, v)].unbalanced && !FromLeft(c.Last(), v.procs[g].height)
  {
    hide Flags, Val, Input, Root;
    assert ProcOk(c, v, g);
    NobodyFromRight(c, v, g);
    if v.procs[g].pc != Fresh && v.procs[g].pc != Hashed {
      FlagIsMissingRight(c, v, g);
      if v.procs[g].pc in {Combine, Emit} {
        var p := Partner(c, v, g);
        NobodyFromRight(c, v, p);
      }
    }
  }

  lemma {:induction false} StillEnabled(c: Config, v: State, g: nat, flag: bool, right: bool, root: bool)
    requires Inv(c, v) && v.main.Finalising? && Edge(c, v) in v.tree && Enabled(c, v, ProcStep(g))
    ensures Enabled(c, Partly(c, v, flag, right, root), ProcStep(g))
  {
    hide Phase, Flags, ProcOk, Own, NodeOk, Clean, Shr, FromLeft;
    if NodeOf(v, g) == Edge(c, v) { EdgeVisitor(c, v, g); }
  }

  lemma {:induction false} SparesAtEdge(c: Config, v: State, g: nat, flag: bool, right: bool, root: bool)
    requires |c.chunks| >= 1 && v.main.Finalising? && Edge(c, v) in v.tree && Enabled(c, v, ProcStep(g))
    requires NodeOf(v, g) == Edge(c, v) && Enabled(c, Partly(c, v, flag, right, root), ProcStep(g))
    requires v.procs[g].pc in {Store, Check, Toggle} && FromLeft(g, v.procs[g].height)
    requires !v.tree[Edge(c, v)].unbalanced && !FromLeft(c.Last(), v.procs[g].height)
    ensures var v' := NextProc(c, v, g);
      && v'.main == v.main && Edge(c, v') in v'.tree
      && NextProc(c, Partly(c, v, flag, right, root), g) == Partly(c, v', flag, right, root)
  {
    hide Shr, FromLeft, Waits, AddInt32;
    var u, v' := Partly(c, v, flag, right, root), NextProc(c, v, g);
    var a := Edge(c, v);
    assert NodeOf(u, g) == a;
    assert NextProc(c, u, g).tree == Partly(c, v', flag, right, root).tree;
  }

  /** What a step makes of the goroutine and of its node, and whether it counts as a hash of the node. */
  datatype Effect = Effect(proc: Proc, node: Node, hashes: bool)

  function EffectOf(c: Config, g: nat, p: Proc, n: Node): Effect {
    match p.pc
    case Fresh =>
      if |p.s| > c.hs && c.depth > 0 then Effect(p.(pc := Hashed, s := c.h(p.s)), n, false)
      else Effect(p.(pc := Store, i := 2 * g), n, false)
    case Hashed => Effect(p.(pc := Store, height := 1, i := g), n, false)
    case Store =>
      Effect(p.(pc := Check), if FromLeft(g, p.height) then n.(left := p.s) else n.(right := p.s), false)
    case Check => Effect(p.(pc := if n.unbalanced then Combine else Toggle), n, false)
    case Toggle =>
      var state := AddInt32(n.state);
      Effect(p.(pc := if Waits(state) then Exited else Combine), n.(state := state), false)
    case Combine =>
      if !n.unbalanced || !FromLeft(g, p.height) || (p.i == 0 && p.d == 0) then
        Effect(p.(pc := Emit, s := c.h(n.left + n.right)), n, true)
      else Effect(p.(pc := Emit, s := n.left + n.right), n, false)
    case Emit => Effect(p.(pc := Store, height := p.height + 1, i := p.i + 1), n, false)
    case _ => Effect(p, n, false)
  }

  function Affected(v: State, g: nat, a: Address, e: Effect): State
    requires g < |v.procs| && a in v.tree
  {
    v.(procs := v.procs[g := e.proc], tree := v.tree[a := e.node],
       hashed := if e.hashes then v.hashed + multiset{a} else v.hashed)
  }

  lemma {:induction false} StepIsEffect(c: Config, v: State, g: nat)
    requires |c.chunks| >= 1 && v.main.Finalising? && Enabled(c, v, ProcStep(g))
    ensures var a := NodeOf(v, g); NextProc(c, v, g) == Affected(v, g, a, EffectOf(c, g, v.procs[g], v.tree[a]))
  {
    hide Shr, FromLeft, Waits, AddInt32;
    var a := NodeOf(v, g);
    assert v.tree[a := v.tree[a]] == v.tree;
  }

  lemma {:induction false} SparesElsewhere(c: Config, v: State, g: nat, flag: bool, right: bool, root: bool)
    requires |c.chunks| >= 1 && v.main.Finalising? && Edge(c, v) in v.tree && Enabled(c, v, ProcStep(g))
    requires NodeOf(v, g) != Edge(c, v) && Enabled(c, Partly(c, v, flag, right, root), ProcStep(g))
    ensures var v' := NextProc(c, v, g);
      && v'.main == v.main && Edge(c, v') in v'.tree
      && NextProc(c, Partly(c, v, flag, right, root), g) == Partly(c, v', flag, right, root)
  {
    hide Shr, FromLeft, EffectOf, NextProc, Enabled;
    StepIsEffect(c, v, g);
    StepIsEffect(c, Partly(c, v, flag, right, root), g);
    var u, v' := Partly(c, v, flag, right, root), NextProc(c, v, g);
    assert NextProc(c, u, g).tree == Partly(c, v', flag, right, root).tree;
  }

  /** So its step does the same before and after each of the writes. */
  lemma {:induction false} WriteSpares(c: Config, v: State, g: nat, flag: bool, right: bool, root: bool)
    requires Inv(c, v) && v.main.Finalising? && Edge(c, v) in v.tree && Enabled(c, v, ProcStep(g))
    ensures Enabled(c, Partly(c, v, flag, right, root), ProcStep(g))
    ensures var v' := NextProc(c, v, g);
      && v'.main == v.main && Edge(c, v') in v'.tree
      && NextProc(c, Partly(c, v, flag, right, root), g) == Partly(c, v', flag, right, root)
  {
    hide Phase, Flags, ProcOk, Own, NodeOk, Clean, Shr, FromLeft, Partly, NextProc;
    StillEnabled(c, v, g, flag, right, root);
    if NodeOf(v, g) == Edge(c, v) {
      EdgeVisitor(c, v, g);
      SparesAtEdge(c, v, g, flag, right, root);
    } else {
      SparesElsewhere(c, v, g, flag, right, root);
    }
  }

  /** However the goroutines run between the writes, all is as if they had run before the first of them. */
  lemma {:induction false} WritesHoldStill(c: Config, v: State, steps: seq<Step>, flag: bool, right: bool, root: bool)
    requires Inv(c, v) && v.main.Finalising? && Edge(c, v) in v.tree
    requires IsRun(c, v, steps) && MainStep !in steps
    ensures var v' := Exec(c, v, steps);
      && v'.main == v.main && Edge(c, v') in v'.tree && Inv(c, v')
      && IsRun(c, Partly(c, v, flag, right, root), steps)
      && Exec(c, Partly(c, v, flag, right, root), steps) == Partly(c, v', flag, right, root)
    decreases |steps|
  {
    hide Phase, Flags, ProcOk, Own, NodeOk, Clean, NextProc, Enabled, Partly;
    if steps != [] {
      var g := steps[0].g;
      WriteSpares(c, v, g, flag, right, root);
      StepOfGoroutine(c, v, g);
      WritesHoldStill(c, NextProc(c, v, g), steps[1..], flag, right, root);
    }
  }

  lemma {:induction false} StepOfGoroutine(c: Config, v: State, g: nat)
    requires Inv(c, v) && v.main.Finalising? && Enabled(c, v, ProcStep(g))
    ensures Inv(c, NextProc(c, v, g))
  {
    hide Inv, NextProc;
    ProcStepKeeps(c, v, g);
  }
}
