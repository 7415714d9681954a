/** Goroutines moving up a level, and the steps of the caller's goroutine, keep the invariant. */
module BmtClimb {
  import opened BmtReference
  import opened BmtTree
  import opened BmtProtocol
  import opened BmtInvariant
  import opened BmtPreservation

  /** The goroutine that stopped at the balanced node `g` has passed. */
  lemma {:induction false} Partner(c: Config, v: State, g: nat) returns (p: nat)
    requires Inv(c, v) && g < |v.procs| && v.procs[g].pc in {Combine, Emit}
    requires Balanced(c.Last(), v.procs[g].height, Shr(g, v.procs[g].height))
    ensures p < |v.procs| && p != g && ExitedAt(v, p, v.procs[g].height, Shr(g, v.procs[g].height))
    ensures Shr(p, v.procs[g].height - 1) != Shr(g, v.procs[g].height - 1)
  {
    hide Flags, Val, Input;
    var k, j := v.procs[g].height, Shr(g, v.procs[g].height);
    assert ProcOk(c, v, g);
    NodeInTree(c, g, k) by { RootFits(c); }
    assert NodeOk(c, v, At(k, j));
    assert PassedAt(v, g, k, j);
    p :| 0 <= p < |v.procs| && ExitedAt(v, p, k, j);
    DifferentSides(c, v, g, p, k);
  }

  /** Moving up: everyone else below the node left behind has stopped. */
  lemma {:induction false} OthersStopped(c: Config, v: State, g: nat, q: nat)
    requires Inv(c, v) && g < |v.procs| && v.procs[g].pc in {Combine, Emit} && q < |c.chunks| && q != g
    requires Shr(q, v.procs[g].height) == Shr(g, v.procs[g].height)
    ensures q < |v.procs| && v.procs[q].pc == Exited && v.procs[q].height <= v.procs[g].height
  {
    var k, j := v.procs[g].height, Shr(g, v.procs[g].height);
    if k >= 1 {
      ShrMono(q, c.Last(), k - 1);
      ShrMono(g, c.Last(), k - 1);
      if Shr(q, k - 1) == Shr(g, k - 1) {
        OwnAt(c, v, g, k - 1, q);
      } else {
        assert Balanced(c.Last(), k, j);
        var p := Partner(c, v, g);
        if q != p { OwnAt(c, v, p, k - 1, q); }
      }
    }
  }

  lemma {:induction false} OwnClimbs(c: Config, v: State, v': State, g: nat)
    requires Inv(c, v) && Local(c, v, v', g) && v.procs[g].pc == Emit
    requires v'.procs[g].height == v.procs[g].height + 1
    ensures Own(c, v')
  {
    forall r, k: nat, q | 0 <= r < |v'.procs| && 0 <= q < |c.chunks|
      ensures Alone(c, v', r, k, q)
    {
      assert Alone(c, v, r, k, q);
      if r == g && k == v.procs[g].height && q != g && Shr(q, k) == Shr(g, k) {
        OthersStopped(c, v, g, q);
      }
    }
  }

  /** A goroutine below the root of the data does not see a root flag. */
  lemma {:induction false} RootFlagIsRoot(c: Config, v: State, g: nat)
    requires Inv(c, v) && g < |v.procs| && v.procs[g].pc in {Hashed, Emit}
    ensures NodeOf(v, g) in v.tree
    ensures v.tree[NodeOf(v, g)].root <==> v.procs[g].height == Root(c)
    ensures v.procs[g].height == Root(c) ==> v.main.Waiting?
  {
    assert ProcOk(c, v, g);
    RootFits(c);
    ShrMono(g, c.Last(), v.procs[g].height);
    if v.procs[g].height == Root(c) {
      RootIsPrepared(c, v, g);
      assert Prepared(c, v, Root(c));
    }
  }

  lemma {:induction false} EmitSelf(c: Config, v: State, g: nat, v': State)
    requires Inv(c, v) && Enabled(c, v, ProcStep(g)) && v.procs[g].pc == Emit && !Sending(v, g)
    requires v' == NextProc(c, v, g)
    ensures ProcOk(c, v', g)
  {
    hide NodeOk, Own, Balanced, NodeValue, Flags, Clean;
    var k := v.procs[g].height;
    assert ProcOk(c, v, g);
    RootFlagIsRoot(c, v, g);
    RootFits(c);
    NodeInTree(c, g, k + 1);
    SameKeys(c, v, At(k + 1, Shr(g, k + 1)));
  }

  lemma {:induction false} SameKeys(c: Config, v: State, a: Address)
    requires |c.chunks| >= 1 && Flags(c, v)
    ensures a in v.tree <==> a in c.start
  {
    assert a in v.tree.Keys <==> a in c.start.Keys;
  }

  lemma {:induction false} EmitStep(c: Config, v: State, g: nat)
    requires Inv(c, v) && Enabled(c, v, ProcStep(g)) && v.procs[g].pc == Emit && !Sending(v, g)
    ensures Inv(c, NextProc(c, v, g))
  {
    hide Root, Val, Input, Balanced, ProcOk;
    var v' := NextProc(c, v, g);
    EmitSelf(c, v, g, v');
    OthersKept(c, v, v', g);
    FlagsKept(c, v, v', g);
    OwnClimbs(c, v, v', g);
    forall a | a in v'.tree && a in c.start
      ensures NodeOk(c, v', a)
    {
      assert NodeOk(c, v, a);
      SameVisits(v, v', g, a.height, a.index);
    }
  }

  lemma {:induction false} HashedSelf(c: Config, v: State, g: nat, v': State)
    requires Inv(c, v) && Enabled(c, v, ProcStep(g)) && v.procs[g].pc == Hashed && !Sending(v, g)
    requires v' == NextProc(c, v, g)
    ensures ProcOk(c, v', g)
  {
    assert ProcOk(c, v, g);
    RootFlagIsRoot(c, v, g);
    RootFits(c);
    NodeInTree(c, g, 1);
    NodeInTree(c, g, 0);
  }

  lemma {:induction false} HashedStep(c: Config, v: State, g: nat)
    requires Inv(c, v) && Enabled(c, v, ProcStep(g)) && v.procs[g].pc == Hashed && !Sending(v, g)
    ensures Inv(c, NextProc(c, v, g))
  {
    hide Root, Val, Input;
    var v' := NextProc(c, v, g);
    assert v.procs[g].height == 0 by { assert ProcOk(c, v, g); }
    HashedSelf(c, v, g, v');
    OthersKept(c, v, v', g);
    FlagsKept(c, v, v', g);
    forall r, k: nat, q | 0 <= r < |v'.procs| && 0 <= q < |c.chunks|
      ensures Alone(c, v', r, k, q)
    {
      assert Alone(c, v, r, k, q);
      assert k == 0 ==> Shr(q, k) == q && Shr(r, k) == r;
    }
    forall a | a in v'.tree && a in c.start
      ensures NodeOk(c, v', a)
    {
      assert NodeOk(c, v, a);
      if a.height >= 1 { SameVisits(v, v', g, a.height, a.index); }
    }
  }

  /** Every goroutine step that does not send keeps the invariant. */
  lemma {:induction false} ProcStepKeeps(c: Config, v: State, g: nat)
    requires Inv(c, v) && Enabled(c, v, ProcStep(g)) && !Sending(v, g)
    ensures Inv(c, NextProc(c, v, g))
  {
    match v.procs[g].pc
    case Fresh => FreshStep(c, v, g);
    case Hashed => HashedStep(c, v, g);
    case Store => StoreStep(c, v, g);
    case Check => CheckStep(c, v, g);
    case Toggle => ToggleStep(c, v, g);
    case Combine => CombineStep(c, v, g);
    case Emit => EmitStep(c, v, g);
  }

  /** A new goroutine has visited nothing yet. */
  lemma {:induction false} LaunchKeeps(c: Config, v: State, v': State)
    requires Inv(c, v) && |v.procs| < |c.chunks| && v'.tree == v.tree && v'.hashed == v.hashed
    requires exists d: nat :: v'.procs == Launch(c, v, d)
    ensures Own(c, v')
    ensures forall a :: a in v'.tree && a in c.start ==> NodeOk(c, v', a)
    ensures forall q :: 0 <= q < |v.procs| ==> ProcOk(c, v', q)
  {
    forall r, k: nat, q | 0 <= r < |v'.procs| && 0 <= q < |c.chunks|
      ensures Alone(c, v', r, k, q)
    {
      if r < |v.procs| { assert Alone(c, v, r, k, q); }
    }
    forall q | 0 <= q < |v.procs|
      ensures ProcOk(c, v', q)
    {
      assert ProcOk(c, v, q);
    }
    forall a | a in v'.tree && a in c.start
      ensures NodeOk(c, v', a)
    {
      assert NodeOk(c, v, a);
      if Balanced(c.Last(), a.height, a.index) { LaunchVisits(c, v, v', a.height, a.index); }
    }
  }

  lemma {:induction false} LaunchVisits(c: Config, v: State, v': State, k: nat, j: nat)
    requires k >= 1 && |v'.procs| == |v.procs| + 1
    requires forall q :: 0 <= q < |v.procs| ==> v'.procs[q] == v.procs[q]
    requires v'.procs[|v.procs|].pc == Fresh && v'.procs[|v.procs|].height == 0
    ensures FirstCame(v, k, j) == FirstCame(v', k, j)
    ensures SecondCame(v, k, j) == SecondCame(v', k, j)
    ensures HasEmitted(v, k, j) == HasEmitted(v', k, j)
    ensures OneExit(v, k, j) ==> OneExit(v', k, j)
  {
    forall q | 0 <= q < |v.procs|
      ensures ExitedAt(v, q, k, j) == ExitedAt(v', q, k, j)
      ensures PassedAt(v, q, k, j) == PassedAt(v', q, k, j)
      ensures EmittedAt(v, q, k, j) == EmittedAt(v', q, k, j)
    {}
  }

  lemma {:induction false} WriteFlags(c: Config, v: State, v': State)
    requires Inv(c, v) && Enabled(c, v, MainStep) && (v.main.Writing? || v.main.Summing?) && v' == NextMain(c, v)
    ensures Phase(c, v') && Flags(c, v') && v'.tree.Keys == c.start.Keys
  {
    hide ProcOk, NodeOk, Own, Val, Input;
    RootFits(c);
  }

  /** `Sum` takes over without launching anything. */
  lemma {:induction false} TakeOverStep(c: Config, v: State, v': State)
    requires Inv(c, v) && Enabled(c, v, MainStep) && v' == NextMain(c, v) && v'.procs == v.procs && v'.tree == v.tree
    requires v'.hashed == v.hashed
    requires Phase(c, v') && Flags(c, v')
    ensures Inv(c, v')
  {
    hide Val, Input, Balanced, Flags, Root, Shr, NextMain;
    forall q | 0 <= q < |v.procs| ensures ProcOk(c, v', q) { assert ProcOk(c, v, q); }
    forall r, k: nat, q | 0 <= r < |v'.procs| && 0 <= q < |c.chunks| ensures Alone(c, v', r, k, q) {
      assert Alone(c, v, r, k, q);
    }
    forall a | a in v'.tree && a in c.start ensures NodeOk(c, v', a) { assert NodeOk(c, v, a); SameProcs(v, v', a); }
  }

  lemma {:induction false} WriteStep(c: Config, v: State)
    requires Inv(c, v) && Enabled(c, v, MainStep) && (v.main.Writing? || v.main.Summing?)
    ensures Inv(c, NextMain(c, v))
  {
    hide Val, Balanced, Flags, NodeOk, Alone;
    var v' := NextMain(c, v);
    RootFits(c);
    WriteFlags(c, v, v');
    if v'.procs != v.procs {
      var g := |v.procs|;
      var d: nat := if v.main.Writing? then c.depth else v.main.d;
      assert v'.procs == Launch(c, v, d);
      LaunchKeeps(c, v, v');
      NodeInTree(c, g, 0);
      assert ProcOk(c, v', g);
    } else {
      TakeOverStep(c, v, v');
    }
  }

  lemma {:induction false} SameProcs(v: State, v': State, a: Address)
    requires v'.procs == v.procs
    ensures FirstCame(v, a.height, a.index) == FirstCame(v', a.height, a.index)
    ensures SecondCame(v, a.height, a.index) == SecondCame(v', a.height, a.index)
    ensures HasEmitted(v, a.height, a.index) == HasEmitted(v', a.height, a.index)
    ensures OneExit(v, a.height, a.index) ==> OneExit(v', a.height, a.index)
  {
    forall q | 0 <= q < |v.procs|
      ensures ExitedAt(v, q, a.height, a.index) == ExitedAt(v', q, a.height, a.index)
      ensures PassedAt(v, q, a.height, a.index) == PassedAt(v', q, a.height, a.index)
      ensures EmittedAt(v, q, a.height, a.index) == EmittedAt(v', q, a.height, a.index)
    {}
  }

  /** When the right edge is prepared, no goroutine has come to it from the right. */
  lemma {:induction false} NobodyFromRight(c: Config, v: State, q: nat)
    requires Inv(c, v) && v.main.Finalising? && q < |v.procs|
    requires NodeOf(v, q) == At(v.main.height, Shr(c.Last(), v.main.height))
    ensures FromLeft(q, v.main.height)
  {
    var k := v.main.height;
    if !FromLeft(q, k) {
      ShrMono(q, c.Last(), k - 1);
      OwnAt(c, v, q, k - 1, c.Last());
    }
  }

  lemma {:induction false} FinalisePhase(c: Config, v: State, v': State)
    requires Inv(c, v) && v.main.Finalising? && Enabled(c, v, MainStep) && v' == NextMain(c, v)
    ensures Phase(c, v') && v'.tree.Keys == v.tree.Keys
  {
    hide ProcOk, NodeOk, Own, Val, Input, Flags;
    var k := v.main.height;
    if Shr(c.Last(), k) == 0 && k < Root(c) {
      ShrZeroAbove(c.Last(), k, Root(c) - 1);
    }
    RootFits(c);
  }

  lemma {:induction false} FinaliseFlag(c: Config, v: State, v': State, a: Address)
    requires Inv(c, v) && v.main.Finalising? && Enabled(c, v, MainStep) && v' == NextMain(c, v)
    requires Phase(c, v') && a in v.tree && a in v'.tree
    ensures v'.tree[a].unbalanced <==>
      Prepared(c, v', a.height) && a.index == Shr(c.Last(), a.height) && FromLeft(c.Last(), a.height)
    ensures v'.tree[a].root <==> a == At(c.depth, 0) || (a == At(Root(c), 0) && Prepared(c, v', Root(c)))
    ensures v'.tree[a].unbalanced ==> v'.tree[a].right == []
  {
    hide ProcOk, NodeOk, Own, Val, Input, ValidConfig;
    RootFits(c);
  }

  lemma {:induction false} FinaliseFlags(c: Config, v: State, v': State)
    requires Inv(c, v) && v.main.Finalising? && Enabled(c, v, MainStep) && v' == NextMain(c, v)
    ensures Phase(c, v') && Flags(c, v')
  {
    hide ProcOk, NodeOk, Own, Val, Input, Prepared, Phase;
    FinalisePhase(c, v, v');
    forall a | a in v'.tree
      ensures v'.tree[a].unbalanced <==>
        Prepared(c, v', a.height) && a.index == Shr(c.Last(), a.height) && FromLeft(c.Last(), a.height)
      ensures v'.tree[a].root <==> a == At(c.depth, 0) || (a == At(Root(c), 0) && Prepared(c, v', Root(c)))
      ensures v'.tree[a].unbalanced ==> v'.tree[a].right == []
    {
      FinaliseFlag(c, v, v', a);
    }
  }

  lemma {:induction false} FinaliseStep(c: Config, v: State)
    requires Inv(c, v) && v.main.Finalising? && Enabled(c, v, MainStep)
    ensures Inv(c, NextMain(c, v))
  {
    hide Root, Val, Input, Flags, Balanced;
    var v' := NextMain(c, v);
    FinaliseFlags(c, v, v');
    forall q | 0 <= q < |v.procs|
      ensures ProcOk(c, v', q)
    {
      assert ProcOk(c, v, q);
      if NodeOf(v, q) == At(v.main.height, Shr(c.Last(), v.main.height)) { NobodyFromRight(c, v, q); }
    }
    forall r, k: nat, q | 0 <= r < |v'.procs| && 0 <= q < |c.chunks| ensures Alone(c, v', r, k, q) {
      assert Alone(c, v, r, k, q);
    }
    forall a | a in v'.tree && a in c.start ensures NodeOk(c, v', a) {
      assert NodeOk(c, v, a);
      SameProcs(v, v', a);
    }
  }

  lemma {:induction false} InitInv(c: Config)
    requires ValidConfig(c)
    ensures Inv(c, Init(c))
  {}

  /** No step of a run up to the result dereferences a missing node. */
  lemma {:induction false} AlwaysSafe(c: Config, v: State, st: Step)
    requires Inv(c, v)
    ensures Safe(c, v, st)
  {
    match st
    case MainStep =>
      if v.main.Finalising? {
        RootFits(c);
        NodeInTree(c, c.Last(), v.main.height);
      }
    case ProcStep(g) =>
      if g < |v.procs| { assert ProcOk(c, v, g); }
  }
}
