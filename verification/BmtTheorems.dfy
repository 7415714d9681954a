/** The promises of bmt/bmt.go over whole runs, for every schedule. */
module BmtTheorems {
  import opened BmtReference
  import opened BmtRefHasher
  import opened BmtTree
  import opened BmtProtocol
  import opened BmtInvariant
  import opened BmtPreservation
  import opened BmtClimb
  import opened BmtResult

  ghost predicate HasResult(v: State) {
    v.main.Releasing? || v.main.Released?
  }

  /** Whatever the schedule, the value `Sum` receives is the reference hash of the data. */
  lemma {:induction false} SumIsReferenceHash(c: Config, d: Bytes, count: nat, steps: seq<Step>)
    requires ValidConfig(c) && IsRun(c, Init(c), steps)
    requires count >= 1 && |d| <= c.hs * count && c.chunks == Chunks(d, 2 * c.hs)
    requires HasResult(Exec(c, Init(c), steps))
    ensures Exec(c, Init(c), steps).main.result == RefHash(c.h, c.hs, d, Span(c.hs, SpanExponent(count)))
  {
    InitInv(c);
    RunKeeps(c, Init(c), steps);
    RootFits(c);
    RootValueIsRefHash(c.h, c.hs, d, count);
  }

  /** Once there is a result, exactly one goroutine sent it, all others have stopped, and each node with
      two inputs was toggled twice and hashed once. */
  lemma {:induction false} EachNodeHashedOnce(c: Config, steps: seq<Step>)
    requires ValidConfig(c) && IsRun(c, Init(c), steps)
    requires HasResult(Exec(c, Init(c), steps))
    ensures var v := Exec(c, Init(c), steps);
      && (exists g :: 0 <= g < |v.procs| && v.procs[g].pc == Sent
            && forall q :: 0 <= q < |v.procs| && q != g ==> v.procs[q].pc == Exited)
      && (forall a :: a in v.tree && Balanced(c.Last(), a.height, a.index) ==>
            a in c.start && v.hashed[a] == 1 && v.tree[a].state == AddInt32(AddInt32(c.start[a].state)))
  {
    InitInv(c);
    RunKeeps(c, Init(c), steps);
    var v := Exec(c, Init(c), steps);
    forall a | a in v.tree && Balanced(c.Last(), a.height, a.index)
      ensures a in c.start && v.hashed[a] == 1 && v.tree[a].state == AddInt32(AddInt32(c.start[a].state))
    {
      assert NodeDone(c, v, a);
    }
  }

  /** Only the second goroutine at a node hashes it, and then both inputs are those of this chunk. */
  lemma {:induction false} SecondArriverHashes(c: Config, steps: seq<Step>, g: nat)
    requires ValidConfig(c) && IsRun(c, Init(c), steps)
    requires var v := Exec(c, Init(c), steps);
      && Enabled(c, v, ProcStep(g)) && v.procs[g].pc == Combine
      && Balanced(c.Last(), v.procs[g].height, Shr(g, v.procs[g].height))
    ensures var v := Exec(c, Init(c), steps); var a := NodeOf(v, g);
      && v.tree[a].left == NodeValue(c.h, c.hs, c.chunks, a.height - 1, 2 * a.index)
      && v.tree[a].right == NodeValue(c.h, c.hs, c.chunks, a.height - 1, 2 * a.index + 1)
      && FirstCame(v, a.height, a.index)
      && v.hashed[a] == 0 && NextProc(c, v, g).hashed[a] == 1
  {
    hide Flags, Own, ProcOk, IsRun;
    InitInv(c);
    RunKeeps(c, Init(c), steps);
    var v := Exec(c, Init(c), steps);
    BothInputs(c, v, g);
    assert NodeOk(c, v, NodeOf(v, g));
    FlagIsMissingRight(c, v, g);
  }

  /** A released tree is clean again exactly when no counter of a node it used has wrapped. */
  lemma {:induction false} ReleasedTreeIsClean(c: Config, steps: seq<Step>)
    requires ValidConfig(c) && IsRun(c, Init(c), steps)
    requires Exec(c, Init(c), steps).main.Released?
    ensures var t := Exec(c, Init(c), steps).tree;
      && (forall a :: a in t ==> !t[a].unbalanced && (t[a].root <==> a == At(c.depth, 0)) && t[a].state % 2 == 0)
      && (Clean(c, t) <==> forall a :: a in t && Balanced(c.Last(), a.height, a.index) ==>
                             a in c.start && c.start[a].state + 2 <= MAX_INT32)
  {
    hide ProcOk, NodeOk, Own, Flags, IsRun;
    InitInv(c);
    RunKeeps(c, Init(c), steps);
    var v := Exec(c, Init(c), steps);
    RootFits(c);
    forall a | a in v.tree
      ensures NodeDone(c, v, a) && a in c.start && c.start[a].state % 2 == 0 && 0 <= c.start[a].state <= MAX_INT32
    {}
    assert forall a :: a in v.tree <==> InTree(c, a);
  }

  /** Every node a step touches exists. */
  lemma {:induction false} NoMissingNode(c: Config, steps: seq<Step>, st: Step)
    requires ValidConfig(c) && IsRun(c, Init(c), steps)
    ensures Safe(c, Exec(c, Init(c), steps), st)
  {
    InitInv(c);
    RunKeeps(c, Init(c), steps);
    var v := Exec(c, Init(c), steps);
    SafeInEither(c, v, st);
  }

  lemma {:induction false} SafeInEither(c: Config, v: State, st: Step)
    requires Inv(c, v) || After(c, v)
    ensures Safe(c, v, st)
  {
    if Inv(c, v) {
      AlwaysSafe(c, v, st);
    } else if v.main.Releasing? {
      NodeInTree(c, c.Last(), v.main.height);
    }
  }

  /** Some step is possible until the tree has been released. */
  lemma {:induction false} NeverStuck(c: Config, v: State) returns (st: Step)
    requires (Inv(c, v) || After(c, v)) && !v.main.Released?
    ensures Enabled(c, v, st)
  {
    if !v.main.Waiting? {
      st := MainStep;
      SafeInEither(c, v, st);
    } else if g :| 0 <= g < |v.procs| && Running(v.procs[g].pc) {
      st := ProcStep(g);
      AlwaysSafe(c, v, st);
    } else {
      NotAllExited(c, v);
    }
  }

  lemma {:induction false} NotAllExited(c: Config, v: State)
    requires Inv(c, v) && |v.procs| == |c.chunks|
    ensures exists g :: 0 <= g < |v.procs| && Running(v.procs[g].pc)
  {
    if forall g :: 0 <= g < |v.procs| ==> !Running(v.procs[g].pc) {
      forall g | 0 <= g < |v.procs| ensures v.procs[g].pc == Exited && 1 <= v.procs[g].height <= Root(c) {
        assert ProcOk(c, v, g);
      }
      RootFits(c);
      assert v.procs[0].height >= 1;
      var x := SomeonePassed(c, v, Root(c), 0);
    }
  }

  // Termination

  function PcRank(pc: Pc): nat {
    match pc
    case Fresh => 7
    case Hashed => 6
    case Store => 5
    case Check => 4
    case Toggle => 3
    case Combine => 2
    case Emit => 1
    case Exited => 0
    case Sent => 0
  }

  function ProcRank(depth: nat, p: Proc): nat {
    if Running(p.pc) && p.height <= depth then 6 * (depth - p.height) + PcRank(p.pc) else 0
  }

  function ProcsRank(depth: nat, ps: seq<Proc>): nat {
    if ps == [] then 0 else ProcsRank(depth, ps[..|ps| - 1]) + ProcRank(depth, ps[|ps| - 1])
  }

  function MainRank(depth: nat, m: Main): nat {
    match m
    case Writing => 4 * (depth + 3)
    case Finalising(k, _) => 2 * (depth + 3) + (if k <= depth then depth + 1 - k else 0)
    case Summing(_) => 2 * (depth + 3)
    case Waiting => depth + 3
    case Releasing(k, _) => if k <= depth then depth + 1 - k else 0
    case Released(_) => 0
  }

  /** An upper bound on the number of steps still to come. */
  function Measure(c: Config, v: State): nat {
    var toLaunch := if |v.procs| <= |c.chunks| then |c.chunks| - |v.procs| else 0;
    MainRank(c.depth, v.main) + Offset(toLaunch, 6 * c.depth + 8) + ProcsRank(c.depth, v.procs)
  }

  lemma {:induction false} RankOfUpdate(depth: nat, ps: seq<Proc>, g: nat, p: Proc)
    requires g < |ps|
    ensures ProcsRank(depth, ps[g := p]) == ProcsRank(depth, ps) - ProcRank(depth, ps[g]) + ProcRank(depth, p)
    decreases |ps|
  {
    var n := |ps| - 1;
    var ps' := ps[g := p];
    if g == n {
      assert ps'[..n] == ps[..n];
    } else {
      RankOfUpdate(depth, ps[..n], g, p);
      assert ps'[..n] == ps[..n][g := p];
    }
  }

  lemma {:induction false} ProcRankFalls(c: Config, v: State, g: nat)
    requires Inv(c, v) && Enabled(c, v, ProcStep(g))
    ensures ProcRank(c.depth, NextProc(c, v, g).procs[g]) < ProcRank(c.depth, v.procs[g])
  {
    hide Flags, NodeOk, Own, Val, Input;
    assert ProcOk(c, v, g);
    RootFits(c);
    if v.procs[g].pc in {Hashed, Emit} { RootFlagIsRoot(c, v, g); }
  }

  lemma {:induction false} ProcStepDecreases(c: Config, v: State, g: nat)
    requires Inv(c, v) && Enabled(c, v, ProcStep(g))
    ensures Measure(c, NextProc(c, v, g)) < Measure(c, v)
  {
    hide Flags, NodeOk, Own, ProcOk, ProcsRank, ProcRank, Offset;
    var v' := NextProc(c, v, g);
    ProcRankFalls(c, v, g);
    RankOfUpdate(c.depth, v.procs, g, v'.procs[g]);
    assert v'.procs == v.procs[g := v'.procs[g]];
    assert v'.main == v.main || (v.main.Waiting? && v'.main.Releasing? && v'.main.height == 0);
  }

  lemma {:induction false} LaunchDecreases(c: Config, v: State, d: nat)
    requires |v.procs| < |c.chunks|
    ensures var ps := Launch(c, v, d);
      && Offset(|c.chunks| - |ps|, 6 * c.depth + 8) + ProcsRank(c.depth, ps)
       < Offset(|c.chunks| - |v.procs|, 6 * c.depth + 8) + ProcsRank(c.depth, v.procs)
  {
    assert Launch(c, v, d)[..|v.procs|] == v.procs;
  }

  lemma {:induction false} MainStepDecreases(c: Config, v: State)
    requires (Inv(c, v) || After(c, v)) && Enabled(c, v, MainStep)
    ensures Measure(c, NextMain(c, v)) < Measure(c, v)
  {
    hide Flags, NodeOk, Own, ProcOk, ProcsRank, NodeDone;
    if Inv(c, v) { RootFits(c); }
    match v.main
    case Writing => if |v.procs| < c.Last() { LaunchDecreases(c, v, c.depth); }
    case Summing(d) => LaunchDecreases(c, v, d);
    case _ =>
  }

  lemma {:induction false} StepDecreases(c: Config, v: State, st: Step)
    requires (Inv(c, v) || After(c, v)) && Enabled(c, v, st)
    ensures Measure(c, Next(c, v, st)) < Measure(c, v)
  {
    match st
    case ProcStep(g) => if Inv(c, v) { ProcStepDecreases(c, v, g); }
    case MainStep => MainStepDecreases(c, v);
  }

  /** No schedule runs longer than the measure of the initial state. */
  lemma {:induction false} RunsAreBounded(c: Config, v: State, steps: seq<Step>)
    requires (Inv(c, v) || After(c, v)) && IsRun(c, v, steps)
    ensures |steps| + Measure(c, Exec(c, v, steps)) <= Measure(c, v)
    decreases |steps|
  {
    if steps != [] {
      StepDecreases(c, v, steps[0]);
      StepKeeps(c, v, steps[0]);
      RunsAreBounded(c, Next(c, v, steps[0]), steps[1..]);
    }
  }

  /** Every schedule that cannot be extended ends with the reference hash returned and the tree released,
      after a bounded number of steps. */
  lemma {:induction false} MaximalRunsDeliver(c: Config, d: Bytes, count: nat, steps: seq<Step>)
    requires ValidConfig(c) && IsRun(c, Init(c), steps)
    requires count >= 1 && |d| <= c.hs * count && c.chunks == Chunks(d, 2 * c.hs)
    requires forall st :: !Enabled(c, Exec(c, Init(c), steps), st)
    ensures Exec(c, Init(c), steps).main == Released(RefHash(c.h, c.hs, d, Span(c.hs, SpanExponent(count))))
    ensures |steps| <= Measure(c, Init(c))
  {
    InitInv(c);
    RunKeeps(c, Init(c), steps);
    RunsAreBounded(c, Init(c), steps);
    var v := Exec(c, Init(c), steps);
    if !v.main.Released? {
      var st := NeverStuck(c, v);
    }
    SumIsReferenceHash(c, d, count, steps);
  }

  // Reuse of a tree

  /** One chunk hashed on a tree: its segments and the schedule that hashed it. */
  datatype Use = Use(chunks: seq<Bytes>, steps: seq<Step>)

  /** A history of chunks hashed one after the other on the same tree. */
  ghost predicate IsHistory(c: Config, uses: seq<Use>)
    decreases |uses|
  {
    uses == [] ||
    var c' := c.(chunks := uses[0].chunks);
    && ValidConfig(c')
    && IsRun(c', Init(c'), uses[0].steps)
    && Exec(c', Init(c'), uses[0].steps).main.Released?
    && IsHistory(c.(start := Exec(c', Init(c'), uses[0].steps).tree), uses[1..])
  }

  /** The tree after such a history. */
  ghost function AfterHistory(c: Config, uses: seq<Use>): Tree
    requires IsHistory(c, uses)
    decreases |uses|
  {
    if uses == [] then c.start
    else
      var c' := c.(chunks := uses[0].chunks);
      AfterHistory(c.(start := Exec(c', Init(c'), uses[0].steps).tree), uses[1..])
  }

  ghost predicate CountersBelow(c: Config, t: Tree, n: int) {
    Clean(c, t) && forall a :: a in t ==> t[a].state <= n
  }

  lemma {:induction false} CountersAfterOneUse(c: Config, steps: seq<Step>, n: nat)
    requires ValidConfig(c) && IsRun(c, Init(c), steps) && Exec(c, Init(c), steps).main.Released?
    requires CountersBelow(c, c.start, n) && n + 2 <= MAX_INT32
    ensures CountersBelow(c, Exec(c, Init(c), steps).tree, n + 2)
  {
    ReleasedTreeIsClean(c, steps);
    InitInv(c);
    RunKeeps(c, Init(c), steps);
    var v := Exec(c, Init(c), steps);
    forall a | a in v.tree ensures v.tree[a].state <= n + 2 {
      assert NodeDone(c, v, a);
    }
  }

  /** A new tree is still clean after any history of fewer than 2^30 chunks. */
  lemma {:induction false} ReusedTreeStaysClean(c: Config, uses: seq<Use>, n: nat)
    requires IsHistory(c, uses) && CountersBelow(c, c.start, 2 * n)
    requires n + |uses| < 0x4000_0000
    ensures Clean(c, AfterHistory(c, uses))
    decreases |uses|
  {
    if uses != [] {
      var c' := c.(chunks := uses[0].chunks);
      CountersAfterOneUse(c', uses[0].steps, 2 * n);
      ReusedTreeStaysClean(c.(start := Exec(c', Init(c'), uses[0].steps).tree), uses[1..], n + 1);
    }
  }
}
