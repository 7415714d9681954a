/** What every complete interleaving ends with: one result, the reference hash, and a reusable tree. */
module BmtResult {
  import opened BmtReference
  import opened BmtRefHasher
  import opened BmtTree
  import opened BmtProtocol
  import opened BmtInvariant
  import opened BmtPreservation
  import opened BmtClimb

  /** All goroutines but those at the root have stopped. */
  ghost predicate Settled(c: Config, v: State) {
    && |v.procs| == |c.chunks|
    && (forall q :: 0 <= q < |v.procs| && v.procs[q].pc != Exited ==>
          v.procs[q].pc == Emit && v.procs[q].height == Root(c))
  }

  /** Then every node below the root has been passed by somebody. */
  lemma {:induction false} SomeonePassed(c: Config, v: State, k: nat, j: nat) returns (x: nat)
    requires Inv(c, v) && Settled(c, v) && Used(c.Last(), k, j) && k <= Root(c) && Root(c) >= 1
    ensures x < |v.procs| && Shr(x, k) == j
    ensures v.procs[x].height > k || (v.procs[x].pc == Emit && v.procs[x].height == k)
    decreases k
  {
    hide Flags, Own, Val, Input, ValidConfig, Toggled;
    if k == 0 {
      x := j;
      assert ProcOk(c, v, x);
    } else {
      var l := SomeonePassed(c, v, k - 1, 2 * j);
      assert ProcOk(c, v, l);
      x := l;
      if v.procs[l].pc == Exited && v.procs[l].height == k {
        var r := SomeonePassed(c, v, k - 1, 2 * j + 1);
        assert ProcOk(c, v, r);
        x := r;
        if v.procs[r].pc == Exited && v.procs[r].height == k {
          NodeInTree(c, l, k) by { RootFits(c); }
          assert NodeOk(c, v, At(k, j));
          assert ExitedAt(v, l, k, j) && ExitedAt(v, r, k, j);
        }
      }
    }
  }

  /** After the result is sent: `h` is the next height to clean. */
  ghost predicate After(c: Config, v: State) {
    && ValidConfig(c)
    && (v.main.Releasing? || v.main.Released?)
    && (v.main.Releasing? ==> v.main.height <= c.depth)
    && v.main.result == Val(c, Root(c), 0)
    && |v.procs| == |c.chunks|
    && (exists g :: 0 <= g < |v.procs| && v.procs[g].pc == Sent
          && forall q :: 0 <= q < |v.procs| && q != g ==> v.procs[q].pc == Exited)
    && v.tree.Keys == c.start.Keys
    && (forall a :: a in v.tree ==> NodeDone(c, v, a))
  }

  ghost predicate NodeDone(c: Config, v: State, a: Address)
    requires |c.chunks| >= 1 && a in v.tree && a in c.start && (v.main.Releasing? || v.main.Released?)
  {
    var h := if v.main.Releasing? then v.main.height else c.depth + 1;
    && (if Balanced(c.Last(), a.height, a.index)
        then v.tree[a].state == AddInt32(AddInt32(c.start[a].state)) && v.hashed[a] == 1
        else v.tree[a].state == c.start[a].state)
    && (v.tree[a].unbalanced ==> a.height >= h && a.index == Shr(c.Last(), a.height))
    && (v.tree[a].root <==> a == At(c.depth, 0) || (a == At(Root(c), 0) && a.height >= h))
  }

  lemma {:induction false} BalancedIsUsed(last: nat, k: nat, j: nat, r: nat)
    requires Balanced(last, k, j) && Shr(last, r) == 0
    ensures k <= r && Used(last, k, j)
  {
    if k > r { ShrZeroAbove(last, r, k - 1); }
  }

  lemma {:induction false} SendSettles(c: Config, v: State, g: nat)
    requires Inv(c, v) && g < |v.procs| && v.procs[g].pc == Emit && v.procs[g].height == Root(c)
    ensures Settled(c, v)
    ensures forall q :: 0 <= q < |v.procs| && q != g ==> v.procs[q].pc == Exited
  {
    RootIsPrepared(c, v, g);
    ShrMono(g, c.Last(), Root(c));
    forall q | 0 <= q < |v.procs| && q != g
      ensures v.procs[q].pc == Exited
    {
      ShrMono(q, c.Last(), Root(c));
      OthersStopped(c, v, g, q);
    }
  }

  /** At the moment of sending, every balanced node has seen both goroutines and hashed once. */
  lemma {:induction false} AllNodesDone(c: Config, v: State, g: nat, a: Address)
    requires Inv(c, v) && g < |v.procs| && v.procs[g].pc == Emit && v.procs[g].height == Root(c)
    requires a in v.tree && a in c.start && Balanced(c.Last(), a.height, a.index)
    ensures v.tree[a].state == AddInt32(AddInt32(c.start[a].state)) && v.hashed[a] == 1
  {
    SendSettles(c, v, g);
    BalancedIsUsed(c.Last(), a.height, a.index, Root(c));
    var x := SomeonePassed(c, v, a.height, a.index);
    assert NodeOk(c, v, a);
    assert EmittedAt(v, x, a.height, a.index) && PassedAt(v, x, a.height, a.index);
  }

  lemma {:induction false} SendValue(c: Config, v: State, g: nat)
    requires Inv(c, v) && g < |v.procs| && v.procs[g].pc in {Emit, Hashed} && v.procs[g].height == Root(c)
    ensures v.procs[g].s == Val(c, Root(c), 0)
    ensures v.procs[g].pc == Hashed ==> |v.procs| == 1
  {
    assert ProcOk(c, v, g);
    RootFits(c);
    ShrMono(g, c.Last(), Root(c));
  }

  lemma {:induction false} SendNodes(c: Config, v: State, g: nat, v': State, a: Address)
    requires Inv(c, v) && Enabled(c, v, ProcStep(g)) && Sending(v, g) && v' == NextProc(c, v, g)
    requires a in v'.tree && a in c.start
    ensures NodeDone(c, v', a)
  {
    RootFlagIsRoot(c, v, g);
    assert NodeOk(c, v, a);
    assert Prepared(c, v, Root(c));
    if Balanced(c.Last(), a.height, a.index) {
      BalancedIsUsed(c.Last(), a.height, a.index, Root(c));
      assert v.procs[g].pc == Emit by { assert ProcOk(c, v, g); }
      AllNodesDone(c, v, g, a);
    }
  }

  lemma {:induction false} SendStep(c: Config, v: State, g: nat)
    requires Inv(c, v) && Enabled(c, v, ProcStep(g)) && Sending(v, g)
    ensures After(c, NextProc(c, v, g))
  {
    var v' := NextProc(c, v, g);
    RootFlagIsRoot(c, v, g);
    SendValue(c, v, g);
    if v.procs[g].pc == Emit { SendSettles(c, v, g); }
    assert v'.procs[g].pc == Sent;
    forall a | a in v'.tree ensures NodeDone(c, v', a) { SendNodes(c, v, g, v', a); }
  }

  lemma {:induction false} ReleaseStep(c: Config, v: State)
    requires After(c, v) && v.main.Releasing? && Enabled(c, v, MainStep)
    ensures After(c, NextMain(c, v))
  {
    var v' := NextMain(c, v);
    var k := v.main.height;
    RootFits(c);
    ShrZeroAbove(c.Last(), Root(c), c.depth);
    if Root(c) <= k { ShrZeroAbove(c.Last(), Root(c), k); }
    forall a | a in v'.tree ensures NodeDone(c, v', a) {
      assert NodeDone(c, v, a);
    }
    var g :| 0 <= g < |v.procs| && v.procs[g].pc == Sent
          && forall q :: 0 <= q < |v.procs| && q != g ==> v.procs[q].pc == Exited;
    assert v'.procs[g].pc == Sent;
  }

  lemma {:induction false} StepKeeps(c: Config, v: State, st: Step)
    requires (Inv(c, v) || After(c, v)) && Enabled(c, v, st)
    ensures Inv(c, Next(c, v, st)) || After(c, Next(c, v, st))
  {
    match st
    case ProcStep(g) =>
      if Inv(c, v) {
        if Sending(v, g) { SendStep(c, v, g); } else { ProcStepKeeps(c, v, g); }
      }
    case MainStep =>
      if After(c, v) {
        ReleaseStep(c, v);
      } else if v.main.Finalising? {
        FinaliseStep(c, v);
      } else {
        WriteStep(c, v);
      }
  }

  lemma {:induction false} RunKeeps(c: Config, v: State, steps: seq<Step>)
    requires (Inv(c, v) || After(c, v)) && IsRun(c, v, steps)
    ensures Inv(c, Exec(c, v, steps)) || After(c, Exec(c, v, steps))
    decreases |steps|
  {
    if steps != [] {
      StepKeeps(c, v, steps[0]);
      RunKeeps(c, Next(c, v, steps[0]), steps[1..]);
    }
  }
}
