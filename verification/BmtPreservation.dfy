/** Every step of a goroutine keeps the invariant, until the result is sent. */
module BmtPreservation {
  import opened BmtReference
  import opened BmtTree
  import opened BmtProtocol
  import opened BmtInvariant

  lemma {:induction false} RootFits(c: Config)
    requires ValidConfig(c)
    ensures Root(c) <= c.depth
    ensures c.Last() > 0 ==> Root(c) >= 1 && Shr(c.Last(), Root(c) - 1) == 1
    ensures c.Last() == 0 ==> Root(c) == 0
  {
    ShrMono(c.Last(), c.leaves - 1, c.depth);
    if Root(c) > c.depth {
      ShrZeroAbove(c.Last(), c.depth, Root(c) - 1);
    }
  }

  lemma {:induction false} NodeInTree(c: Config, g: nat, k: nat)
    requires ValidConfig(c) && g < |c.chunks| && k <= c.depth
    ensures At(k, Shr(g, k)) in c.start
    ensures Used(c.Last(), k, Shr(g, k))
  {
    ShrMono(g, c.Last(), k);
    ShrMono(g, c.leaves - 1, k);
    assert InTree(c, At(k, Shr(g, k)));
  }

  /** Own at one instance. */
  lemma {:induction false} OwnAt(c: Config, v: State, g: nat, k: nat, q: nat)
    requires Own(c, v) && g < |v.procs| && q < |c.chunks| && k < v.procs[g].height
    requires q != g && Shr(q, k) == Shr(g, k)
    ensures q < |v.procs| && v.procs[q].pc == Exited && v.procs[q].height <= k
  {
    assert Alone(c, v, g, k, q);
  }

  /** Two goroutines that entered the same node came from different sides. */
  lemma {:induction false} DifferentSides(c: Config, v: State, g: nat, q: nat, k: nat)
    requires Own(c, v) && g < |v.procs| <= |c.chunks| && q < |v.procs| && g != q && k >= 1
    requires v.procs[g].height >= k && v.procs[q].height >= k && Shr(g, k) == Shr(q, k)
    ensures Shr(g, k - 1) != Shr(q, k - 1)
  {
    if Shr(g, k - 1) == Shr(q, k - 1) {
      OwnAt(c, v, g, k - 1, q);
    }
  }

  /** At most two goroutines ever enter a node. */
  lemma {:induction false} NoThird(c: Config, v: State, g: nat, p: nat, q: nat, k: nat)
    requires Own(c, v) && |v.procs| <= |c.chunks| && k >= 1
    requires g < |v.procs| && p < |v.procs| && q < |v.procs| && g != p && p != q && q != g
    requires v.procs[g].height >= k && v.procs[p].height >= k && v.procs[q].height >= k
    ensures !(Shr(g, k) == Shr(p, k) == Shr(q, k))
  {
    if Shr(g, k) == Shr(p, k) == Shr(q, k) {
      DifferentSides(c, v, g, p, k);
      DifferentSides(c, v, p, q, k);
      DifferentSides(c, v, q, g, k);
    }
  }

  /** A goroutine inside a node without right data is preceded by the launch of the last segment. */
  lemma {:induction false} LastLaunched(c: Config, v: State, g: nat, k: nat)
    requires Inv(c, v) && g < |v.procs| && 1 <= k <= v.procs[g].height
    requires !Balanced(c.Last(), k, Shr(g, k))
    ensures v.main.Waiting? && Shr(g, k) == Shr(c.Last(), k) && FromLeft(c.Last(), k) && FromLeft(g, k)
  {
    ShrMono(g, c.Last(), k);
    ShrMono(g, c.Last(), k - 1);
    if g != c.Last() {
      OwnAt(c, v, g, k - 1, c.Last());
    }
  }

  /** What a goroutine reads from the flag of its node is whether the node has a right input. */
  lemma {:induction false} FlagIsMissingRight(c: Config, v: State, g: nat)
    requires Inv(c, v) && g < |v.procs| && v.procs[g].pc != Fresh && v.procs[g].pc != Hashed
    ensures var k := v.procs[g].height; var a := At(k, Shr(g, k));
      && a in v.tree
      && (v.tree[a].unbalanced <==> !Balanced(c.Last(), k, a.index))
      && (v.tree[a].unbalanced ==> FromLeft(g, k) && v.main.Waiting?)
  {
    var k := v.procs[g].height;
    assert ProcOk(c, v, g);
    RootFits(c);
    if k == 0 {
      assert g == c.Last();
    } else if !Balanced(c.Last(), k, Shr(g, k)) {
      LastLaunched(c, v, g, k);
    }
  }

  /** The goroutine at the root of the data: the last segment has been launched. */
  lemma {:induction false} RootIsPrepared(c: Config, v: State, g: nat)
    requires Inv(c, v) && g < |v.procs| && v.procs[g].height == Root(c)
    requires v.procs[g].pc == Combine || v.procs[g].pc == Emit || v.procs[g].pc == Hashed
    ensures v.main.Waiting?
  {
    hide Flags, Val, Input;
    var k := Root(c);
    RootFits(c);
    NodeInTree(c, g, k);
    assert ProcOk(c, v, g);
    if k == 0 {
      assert g == c.Last();
    } else if Balanced(c.Last(), k, 0) {
      assert NodeOk(c, v, At(k, 0));
      assert PassedAt(v, g, k, 0);
      var p :| 0 <= p < |v.procs| && ExitedAt(v, p, k, 0);
      DifferentSides(c, v, g, p, k);
      var q := if Shr(g, k - 1) == 1 then g else p;
      if q != c.Last() {
        OwnAt(c, v, q, k - 1, c.Last());
      }
    }
  }

  /** v' differs from v in goroutine `g` only, and in the tree not in the flags. */
  ghost predicate Local(c: Config, v: State, v': State, g: nat) {
    && g < |v.procs| == |v'.procs| <= |c.chunks|
    && (forall q :: 0 <= q < |v.procs| && q != g ==> v'.procs[q] == v.procs[q])
    && v'.main == v.main && v'.tree.Keys == v.tree.Keys
    && (forall a :: a in v.tree ==> v'.tree[a].unbalanced == v.tree[a].unbalanced && v'.tree[a].root == v.tree[a].root)
  }

  /** Steps that change no input slot keep the other goroutines as they were. */
  lemma {:induction false} OthersKept(c: Config, v: State, v': State, g: nat)
    requires Inv(c, v) && Local(c, v, v', g)
    requires forall q :: 0 <= q < |v.procs| && q != g && NodeOf(v, q) in v.tree ==>
      var p := v.procs[q];
      p.pc in {Check, Toggle, Combine, Exited} ==>
        Slot(v'.tree[NodeOf(v, q)], FromLeft(q, p.height)) == Slot(v.tree[NodeOf(v, q)], FromLeft(q, p.height))
    ensures forall q :: 0 <= q < |v.procs| && q != g ==> ProcOk(c, v', q)
  {
    forall q | 0 <= q < |v.procs| && q != g
      ensures ProcOk(c, v', q)
    {
      assert ProcOk(c, v, q);
    }
  }

  lemma {:induction false} FlagsKept(c: Config, v: State, v': State, g: nat)
    requires Inv(c, v) && Local(c, v, v', g)
    requires forall a :: a in v.tree && v.tree[a].unbalanced ==> v'.tree[a].right == v.tree[a].right
    ensures Phase(c, v') && Flags(c, v')
  {}

  /** Heights and exits unchanged: nothing to show for Own. */
  lemma {:induction false} OwnKept(c: Config, v: State, v': State, g: nat)
    requires Own(c, v) && Local(c, v, v', g)
    requires v'.procs[g].height == v.procs[g].height && v.procs[g].pc != Exited
    ensures Own(c, v')
  {
    forall r, k: nat, q | 0 <= r < |v'.procs| && 0 <= q < |c.chunks|
      ensures Alone(c, v', r, k, q)
    {
      assert Alone(c, v, r, k, q);
    }
  }

  /** Steps that neither pass, exit nor emit keep the bookkeeping of every node. */
  lemma {:induction false} NodesKept(c: Config, v: State, v': State, g: nat)
    requires Inv(c, v) && Local(c, v, v', g) && v'.hashed == v.hashed
    requires forall a :: a in v.tree ==> v'.tree[a].state == v.tree[a].state
    requires v'.procs[g].height == v.procs[g].height
    requires v.procs[g].pc !in {Combine, Emit, Sent, Exited} && v'.procs[g].pc !in {Combine, Emit, Sent, Exited}
    ensures forall a :: a in v'.tree && a in c.start ==> NodeOk(c, v', a)
  {
    forall a | a in v'.tree && a in c.start
      ensures NodeOk(c, v', a)
    {
      assert NodeOk(c, v, a);
      SameVisits(v, v', g, a.height, a.index);
    }
  }

  lemma {:induction false} SameVisits(v: State, v': State, g: nat, k: nat, j: nat)
    requires g < |v.procs| == |v'.procs|
    requires forall q :: 0 <= q < |v.procs| && q != g ==> v'.procs[q] == v.procs[q]
    requires ExitedAt(v, g, k, j) == ExitedAt(v', g, k, j)
    requires PassedAt(v, g, k, j) == PassedAt(v', g, k, j)
    requires EmittedAt(v, g, k, j) == EmittedAt(v', g, k, j)
    ensures FirstCame(v, k, j) == FirstCame(v', k, j)
    ensures SecondCame(v, k, j) == SecondCame(v', k, j)
    ensures HasEmitted(v, k, j) == HasEmitted(v', k, j)
    ensures OneExit(v, k, j) ==> OneExit(v', k, j)
  {
    forall q | 0 <= q < |v.procs|
      ensures ExitedAt(v, q, k, j) == ExitedAt(v', q, k, j)
      ensures PassedAt(v, q, k, j) == PassedAt(v', q, k, j)
      ensures EmittedAt(v, q, k, j) == EmittedAt(v', q, k, j)
    {}
  }

  lemma {:induction false} FreshStep(c: Config, v: State, g: nat)
    requires Inv(c, v) && Enabled(c, v, ProcStep(g)) && v.procs[g].pc == Fresh
    ensures Inv(c, NextProc(c, v, g))
  {
    hide Shr, Root, Balanced, NodeOk, Alone, Flags, ProcOk;
    var v' := NextProc(c, v, g);
    FreshSelf(c, v, g, v');
    OthersKept(c, v, v', g);
    FlagsKept(c, v, v', g);
    OwnKept(c, v, v', g);
    NodesKept(c, v, v', g);
  }

  lemma {:induction false} FreshSelf(c: Config, v: State, g: nat, v': State)
    requires Inv(c, v) && Enabled(c, v, ProcStep(g)) && v.procs[g].pc == Fresh && v' == NextProc(c, v, g)
    ensures ProcOk(c, v', g) && v'.procs[g].height == v.procs[g].height
  {
    hide Flags, NodeOk, Own;
    assert ProcOk(c, v, g);
  }

  lemma {:induction false} CheckSelf(c: Config, v: State, g: nat, v': State)
    requires Inv(c, v) && Enabled(c, v, ProcStep(g)) && v.procs[g].pc == Check && v' == NextProc(c, v, g)
    ensures ProcOk(c, v', g)
  {
    hide Flags, NodeOk, Own;
    FlagIsMissingRight(c, v, g);
    assert ProcOk(c, v, g);
  }

  lemma {:induction false} CheckStep(c: Config, v: State, g: nat)
    requires Inv(c, v) && Enabled(c, v, ProcStep(g)) && v.procs[g].pc == Check
    ensures Inv(c, NextProc(c, v, g))
  {
    hide Shr, Root, Alone, Flags, ProcOk;
    var v' := NextProc(c, v, g);
    FlagIsMissingRight(c, v, g);
    CheckSelf(c, v, g, v');
    OthersKept(c, v, v', g);
    FlagsKept(c, v, v', g);
    OwnKept(c, v, v', g);
    forall a | a in v'.tree && a in c.start
      ensures NodeOk(c, v', a)
    {
      assert NodeOk(c, v, a);
      if Balanced(c.Last(), a.height, a.index) {
        SameVisits(v, v', g, a.height, a.index);
      }
    }
  }

  /** No other goroutine uses the slot that `g` is about to write. */
  lemma {:induction false} SlotIsFree(c: Config, v: State, g: nat, q: nat)
    requires Inv(c, v) && g < |v.procs| && q < |v.procs| && q != g && NodeOf(v, q) == NodeOf(v, g)
    ensures FromLeft(q, v.procs[g].height) != FromLeft(g, v.procs[g].height)
  {
    var k := v.procs[g].height;
    if k >= 1 { DifferentSides(c, v, g, q, k); }
  }

  lemma {:induction false} StoreOthers(c: Config, v: State, g: nat, v': State)
    requires Inv(c, v) && Enabled(c, v, ProcStep(g)) && v.procs[g].pc == Store && v' == NextProc(c, v, g)
    ensures forall q :: 0 <= q < |v.procs| && q != g ==> ProcOk(c, v', q)
  {
    hide Root, Balanced, NodeOk, Alone, Flags, Val, Input, Own;
    forall q | 0 <= q < |v.procs| && q != g && NodeOf(v, q) == NodeOf(v, g)
      ensures FromLeft(q, v.procs[g].height) != FromLeft(g, v.procs[g].height)
    {
      SlotIsFree(c, v, g, q);
    }
    OthersKept(c, v, v', g);
  }

  lemma {:induction false} StoreSelf(c: Config, v: State, g: nat, v': State)
    requires Inv(c, v) && Enabled(c, v, ProcStep(g)) && v.procs[g].pc == Store && v' == NextProc(c, v, g)
    ensures ProcOk(c, v', g)
  {
    assert ProcOk(c, v, g);
  }

  lemma {:induction false} StoreFlags(c: Config, v: State, g: nat, v': State)
    requires Inv(c, v) && Enabled(c, v, ProcStep(g)) && v.procs[g].pc == Store && v' == NextProc(c, v, g)
    ensures Phase(c, v') && Flags(c, v')
  {
    hide Root, NodeOk, Alone, Val, Input, Own, ValidConfig;
    FlagIsMissingRight(c, v, g);
    FlagsKept(c, v, v', g);
  }

  lemma {:induction false} StoreStep(c: Config, v: State, g: nat)
    requires Inv(c, v) && Enabled(c, v, ProcStep(g)) && v.procs[g].pc == Store
    ensures Inv(c, NextProc(c, v, g))
  {
    hide Shr, Root, Balanced, NodeOk, Alone, Flags, Val, Input;
    var v' := NextProc(c, v, g);
    StoreSelf(c, v, g, v');
    StoreOthers(c, v, g, v');
    StoreFlags(c, v, g, v');
    OwnKept(c, v, v', g);
    NodesKept(c, v, v', g);
  }

  /** Before `g` toggles a balanced node, nobody has passed it. */
  lemma {:induction false} NobodyPassed(c: Config, v: State, g: nat)
    requires Inv(c, v) && g < |v.procs| && v.procs[g].pc == Toggle
    ensures !SecondCame(v, v.procs[g].height, Shr(g, v.procs[g].height))
  {
    var k, j := v.procs[g].height, Shr(g, v.procs[g].height);
    assert ProcOk(c, v, g);
    NodeInTree(c, g, k) by { RootFits(c); }
    assert NodeOk(c, v, At(k, j));
    if SecondCame(v, k, j) {
      var p :| 0 <= p < |v.procs| && ExitedAt(v, p, k, j);
      var q :| 0 <= q < |v.procs| && PassedAt(v, q, k, j);
      NoThird(c, v, g, p, q, k);
    }
  }

  /** The first goroutine at a balanced node stops there, the second goes on. */
  lemma {:induction false} ToggleOutcome(c: Config, v: State, g: nat, v': State)
    requires Inv(c, v) && Enabled(c, v, ProcStep(g)) && v.procs[g].pc == Toggle && v' == NextProc(c, v, g)
    ensures var a := NodeOf(v, g); var came := FirstCame(v, a.height, a.index);
      && a in c.start && a in v'.tree
      && v'.procs[g] == v.procs[g].(pc := if came then Combine else Exited)
      && v'.tree[a].state == if came then AddInt32(AddInt32(c.start[a].state)) else AddInt32(c.start[a].state)
  {
    hide Root, Alone, Val, Input, FirstCame;
    var a := NodeOf(v, g);
    assert ProcOk(c, v, g);
    assert NodeOk(c, v, a);
    NobodyPassed(c, v, g);
    FirstToggleWaits(c.start[a].state);
    FirstToggleWaits(AddInt32(c.start[a].state));
  }

  /** Who has been at the node after `g` stopped there or went on. */
  lemma {:induction false} ToggleVisits(v: State, v': State, g: nat, k: nat, j: nat)
    requires g < |v.procs| && v.procs[g].pc == Toggle && v.procs[g].height == k && Shr(g, k) == j
    requires v'.procs == v.procs[g := v.procs[g].(pc := if FirstCame(v, k, j) then Combine else Exited)]
    requires !SecondCame(v, k, j) && OneExit(v, k, j)
    ensures FirstCame(v', k, j) && OneExit(v', k, j)
    ensures SecondCame(v', k, j) <==> FirstCame(v, k, j)
    ensures HasEmitted(v', k, j) <==> HasEmitted(v, k, j)
  {
    if FirstCame(v, k, j) {
      var p :| 0 <= p < |v.procs| && ExitedAt(v, p, k, j);
      assert ExitedAt(v', p, k, j) && PassedAt(v', g, k, j);
    } else {
      assert ExitedAt(v', g, k, j);
      forall q | 0 <= q < |v.procs| ensures !PassedAt(v', q, k, j) { assert !PassedAt(v, q, k, j); }
    }
    forall q | 0 <= q < |v.procs|
      ensures EmittedAt(v, q, k, j) == EmittedAt(v', q, k, j)
      ensures q != g ==> ExitedAt(v, q, k, j) == ExitedAt(v', q, k, j)
    {}
  }

  lemma {:induction false} ToggleNode(c: Config, v: State, g: nat, v': State)
    requires Inv(c, v) && Enabled(c, v, ProcStep(g)) && v.procs[g].pc == Toggle && v' == NextProc(c, v, g)
    ensures NodeOf(v, g) in c.start && NodeOk(c, v', NodeOf(v, g))
    ensures v'.procs[g].pc == if FirstCame(v, v.procs[g].height, Shr(g, v.procs[g].height)) then Combine else Exited
  {
    hide Root, Alone, Val, Input, Flags, FirstCame, SecondCame, HasEmitted, OneExit, Shr;
    var a := NodeOf(v, g);
    assert Balanced(c.Last(), a.height, a.index) by { assert ProcOk(c, v, g); }
    ToggleOutcome(c, v, g, v');
    assert NodeOk(c, v, a);
    NobodyPassed(c, v, g);
    ToggleVisits(v, v', g, a.height, a.index);
  }

  lemma {:induction false} ToggleOtherNodes(c: Config, v: State, g: nat, v': State, a: Address)
    requires Inv(c, v) && Enabled(c, v, ProcStep(g)) && v.procs[g].pc == Toggle && v' == NextProc(c, v, g)
    requires a in v.tree && a in c.start && a != NodeOf(v, g)
    ensures NodeOk(c, v', a)
  {
    assert NodeOk(c, v, a);
    SameVisits(v, v', g, a.height, a.index);
  }

  lemma {:induction false} ToggleSelf(c: Config, v: State, g: nat, v': State)
    requires Inv(c, v) && Enabled(c, v, ProcStep(g)) && v.procs[g].pc == Toggle && v' == NextProc(c, v, g)
    ensures ProcOk(c, v', g)
  {
    assert ProcOk(c, v, g);
  }

  lemma {:induction false} ToggleStep(c: Config, v: State, g: nat)
    requires Inv(c, v) && Enabled(c, v, ProcStep(g)) && v.procs[g].pc == Toggle
    ensures Inv(c, NextProc(c, v, g))
  {
    hide Shr, Root, Balanced, NodeOk, Alone, Flags, Val, Input;
    var v' := NextProc(c, v, g);
    ToggleSelf(c, v, g, v');
    OthersKept(c, v, v', g);
    FlagsKept(c, v, v', g);
    OwnKept(c, v, v', g);
    ToggleNode(c, v, g, v');
    forall a | a in v'.tree && a in c.start
      ensures NodeOk(c, v', a)
    {
      if a != NodeOf(v, g) { ToggleOtherNodes(c, v, g, v', a); }
    }
  }

  /** The two inputs of a balanced node, once both goroutines have been there. */
  lemma {:induction false} BothInputs(c: Config, v: State, g: nat)
    requires Inv(c, v) && g < |v.procs| && v.procs[g].pc == Combine
    requires Balanced(c.Last(), v.procs[g].height, Shr(g, v.procs[g].height))
    ensures var k, j := v.procs[g].height, Shr(g, v.procs[g].height);
      && At(k, j) in v.tree && At(k, j) in c.start
      && v.tree[At(k, j)].left == Val(c, k - 1, 2 * j)
      && v.tree[At(k, j)].right == Val(c, k - 1, 2 * j + 1)
      && FirstCame(v, k, j)
      && !HasEmitted(v, k, j)
  {
    hide Flags, NodeValue, Root;
    var k, j := v.procs[g].height, Shr(g, v.procs[g].height);
    assert ProcOk(c, v, g);
    NodeInTree(c, g, k) by { RootFits(c); }
    assert NodeOk(c, v, At(k, j));
    assert PassedAt(v, g, k, j);
    var p :| 0 <= p < |v.procs| && ExitedAt(v, p, k, j);
    DifferentSides(c, v, g, p, k);
    assert ProcOk(c, v, p);
    if HasEmitted(v, k, j) {
      var q :| 0 <= q < |v.procs| && EmittedAt(v, q, k, j);
      NoThird(c, v, g, p, q, k);
    }
  }

  /** A lone leaf is hashed; a single last segment is passed on. */
  lemma {:induction false} LeafValue(c: Config, v: State, g: nat)
    requires Inv(c, v) && Enabled(c, v, ProcStep(g)) && v.procs[g].pc == Combine && v.procs[g].height == 0
    ensures NextProc(c, v, g).procs[g].s == Val(c, 0, g)
  {
    var p := v.procs[g];
    assert ProcOk(c, v, g);
    FlagIsMissingRight(c, v, g);
    RootFits(c);
    assert v.tree[At(0, g)].left + [] == c.chunks[g];
    assert (p.i == 0 && p.d == 0) == (c.Last() == 0);
  }

  /** Above the leaves the special case of the first iteration never applies. */
  lemma {:induction false} NotFirstIteration(c: Config, v: State, g: nat)
    requires Inv(c, v) && g < |v.procs| && v.procs[g].pc == Combine && v.procs[g].height >= 1
    ensures !(v.procs[g].i == 0 && v.procs[g].d == 0)
  {
    assert ProcOk(c, v, g);
    RootFits(c);
  }

  /** A node with only a left input passes it on. */
  lemma {:induction false} PassOnValue(c: Config, v: State, g: nat)
    requires Inv(c, v) && Enabled(c, v, ProcStep(g)) && v.procs[g].pc == Combine && v.procs[g].height >= 1
    requires !Balanced(c.Last(), v.procs[g].height, Shr(g, v.procs[g].height))
    ensures NextProc(c, v, g).procs[g].s == Val(c, v.procs[g].height, Shr(g, v.procs[g].height))
  {
    hide Own, NodeOk, Val, Input, Balanced;
    var k, j := v.procs[g].height, Shr(g, v.procs[g].height);
    NotFirstIteration(c, v, g);
    assert Slot(v.tree[At(k, j)], FromLeft(g, k)) == Input(c, g, k) by { assert ProcOk(c, v, g); }
    FlagIsMissingRight(c, v, g);
    assert v.tree[At(k, j)].left + [] == Input(c, g, k);
    LoneInput(c, v, g);
  }

  /** Without data on the right, a node has the value of its left child. */
  lemma {:induction false} LoneInput(c: Config, v: State, g: nat)
    requires Inv(c, v) && g < |v.procs| && v.procs[g].pc == Combine && v.procs[g].height >= 1
    requires !Balanced(c.Last(), v.procs[g].height, Shr(g, v.procs[g].height))
    ensures var k, j := v.procs[g].height, Shr(g, v.procs[g].height);
      Val(c, k, j) == Val(c, k - 1, 2 * j) && (FromLeft(g, k) ==> Input(c, g, k) == Val(c, k - 1, 2 * j))
  {
    hide NodeOk, Own, Flags;
    LastLaunched(c, v, g, v.procs[g].height);
  }

  /** What the goroutine that goes on computes is the value of its node. */
  lemma {:induction false} CombineValue(c: Config, v: State, g: nat)
    requires Inv(c, v) && Enabled(c, v, ProcStep(g)) && v.procs[g].pc == Combine
    ensures NextProc(c, v, g).procs[g].s == Val(c, v.procs[g].height, Shr(g, v.procs[g].height))
  {
    hide Flags, Root, Own;
    var k, j := v.procs[g].height, Shr(g, v.procs[g].height);
    if Balanced(c.Last(), k, j) {
      FlagIsMissingRight(c, v, g);
      BothInputs(c, v, g);
      assert Used(c.Last(), k, j) && Used(c.Last(), k - 1, 2 * j);
    } else if k == 0 {
      LeafValue(c, v, g);
    } else {
      PassOnValue(c, v, g);
    }
  }

  lemma {:induction false} CombineNode(c: Config, v: State, g: nat, v': State, a: Address)
    requires Inv(c, v) && Enabled(c, v, ProcStep(g)) && v.procs[g].pc == Combine && v' == NextProc(c, v, g)
    requires a == NodeOf(v, g) && a in v.tree && a in c.start
    ensures NodeOk(c, v', a)
  {
    assert NodeOk(c, v, a);
    FlagIsMissingRight(c, v, g);
    if Balanced(c.Last(), a.height, a.index) {
      BothInputs(c, v, g);
      assert EmittedAt(v', g, a.height, a.index);
      forall q | 0 <= q < |v.procs|
        ensures ExitedAt(v, q, a.height, a.index) == ExitedAt(v', q, a.height, a.index)
        ensures PassedAt(v, q, a.height, a.index) == PassedAt(v', q, a.height, a.index)
      {}
    }
  }

  lemma {:induction false} CombineSelf(c: Config, v: State, g: nat, v': State)
    requires Inv(c, v) && Enabled(c, v, ProcStep(g)) && v.procs[g].pc == Combine && v' == NextProc(c, v, g)
    ensures ProcOk(c, v', g)
  {
    hide Shr, Root, Flags, Val, Input, Balanced, Own, NodeOk;
    assert ProcOk(c, v, g);
    CombineValue(c, v, g);
  }

  lemma {:induction false} CombineOtherNodes(c: Config, v: State, g: nat, v': State, a: Address)
    requires Inv(c, v) && Enabled(c, v, ProcStep(g)) && v.procs[g].pc == Combine && v' == NextProc(c, v, g)
    requires a in v.tree && a in c.start && a != NodeOf(v, g)
    ensures NodeOk(c, v', a)
  {
    hide Root, Flags, Val, Input, Own, ProcOk, Balanced, ValidConfig;
    assert NodeOk(c, v, a);
    SameVisits(v, v', g, a.height, a.index);
  }

  lemma {:induction false} CombineStep(c: Config, v: State, g: nat)
    requires Inv(c, v) && Enabled(c, v, ProcStep(g)) && v.procs[g].pc == Combine
    ensures Inv(c, NextProc(c, v, g))
  {
    hide Shr, Root, Alone, Flags, Val, Input, Balanced, ValidConfig, NodeOk, ProcOk;
    var v' := NextProc(c, v, g);
    CombineSelf(c, v, g, v');
    OthersKept(c, v, v', g);
    FlagsKept(c, v, v', g);
    OwnKept(c, v, v', g);
    forall a | a in v'.tree && a in c.start
      ensures NodeOk(c, v', a)
    {
      if a == NodeOf(v, g) { CombineNode(c, v, g, v', a); } else { CombineOtherNodes(c, v, g, v', a); }
    }
  }
}
