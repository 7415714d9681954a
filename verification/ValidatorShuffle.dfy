/** The assignment of second validators in contracts/utils.go: a shuffle that always draws below the
    current slot, so that it produces one single cycle. */
module ValidatorShuffle {

  /** The numbers that `NewSlice` lists. */
  method NewSlice(start: int, end: int, step: int) returns (s: array<int>)
    requires start <= end
    ensures fresh(s) && s.Length == end - start
    ensures forall i :: 0 <= i < s.Length ==> s[i] == start + i * step
  {
    s := new int[end - start];
    var next := start;
    for i := 0 to s.Length
      invariant next == start + i * step
      invariant forall j :: 0 <= j < i ==> s[j] == start + j * step
    {
      s[i] := next;
      next := next + step;
    }
  }

  /** `path` follows the assignment from its first to its last element. */
  ghost predicate Follows(out: seq<int>, path: seq<int>) {
    forall t :: 0 <= t < |path| - 1 ==> 0 <= path[t] < |out| && out[path[t]] == path[t + 1]
  }

  /** All elements of a list of paths, with multiplicity. */
  ghost function Elements(paths: seq<seq<int>>): multiset<int> {
    if paths == [] then multiset{} else Elements(paths[..|paths| - 1]) + multiset(paths[|paths| - 1])
  }

  ghost function Upto(n: nat): seq<int> {
    seq(n, i => i)
  }

  lemma AddBoth(a: multiset<int>, n: multiset<int>, r: multiset<int>, b: multiset<int>, p: multiset<int>)
    requires a + r == b + p
    ensures (a + n) + r == (b + n) + p
  {
    forall x ensures ((a + n) + r)[x] == ((b + n) + p)[x] { assert (a + r)[x] == (b + p)[x]; }
  }

  lemma Cancel(a: multiset<int>, i: multiset<int>, r: multiset<int>, b: multiset<int>)
    requires (a + i) + r == b + (i + r)
    ensures a == b
  {
    forall x ensures a[x] == b[x] { assert ((a + i) + r)[x] == (b + (i + r))[x]; }
  }

  lemma {:induction false} ElementsOfUpdate(paths: seq<seq<int>>, r: nat, p: seq<int>)
    requires r < |paths|
    ensures Elements(paths[r := p]) + multiset(paths[r]) == Elements(paths) + multiset(p)
    decreases |paths|
  {
    var n := |paths| - 1;
    var ps := paths[r := p];
    assert Elements(ps) == Elements(ps[..n]) + multiset(ps[n]);
    assert Elements(paths) == Elements(paths[..n]) + multiset(paths[n]);
    if r == n {
      assert ps[..n] == paths[..n];
    } else {
      ElementsOfUpdate(paths[..n], r, p);
      assert ps[..n] == paths[..n][r := p];
      assert paths[..n][r] == paths[r];
      AddBoth(Elements(ps[..n]), multiset(paths[n]), multiset(paths[r]), Elements(paths[..n]), multiset(p));
    }
  }

  lemma {:induction false} ElementsOfSingletons(n: nat)
    ensures Elements(seq(n, i => [i])) == multiset(Upto(n))
  {
    if n > 0 {
      ElementsOfSingletons(n - 1);
      var ps := seq(n, i => [i]);
      assert ps[..n - 1] == seq(n - 1, i => [i]);
      assert Upto(n) == Upto(n - 1) + [n - 1];
    } else {
      assert Upto(0) == [];
    }
  }

  /** The assignments made so far split 0..n-1 into paths, one ending at each open slot and starting with
      the value that slot still holds. */
  ghost predicate Paths(n: nat, m: nat, block: seq<int>, out: seq<int>, paths: seq<seq<int>>) {
    && |block| == |paths| == m <= n == |out|
    && (forall j :: 0 <= j < m ==> PathOk(m, block[j], j, out, paths[j]))
    && Elements(paths) == multiset(Upto(n))
  }

  /** One path of the split. */
  ghost predicate PathOk(m: nat, start: int, j: nat, out: seq<int>, path: seq<int>) {
    && |path| >= 1 && path[0] == start && path[|path| - 1] == j
    && Follows(out, path)
    && (forall t :: 0 <= t < |path| - 1 ==> m <= path[t])
  }

  lemma {:induction false} PathSurvives(m: nat, start: int, j: nat, out: seq<int>, path: seq<int>, x: int)
    requires 1 <= m <= |out| && j < m - 1 && PathOk(m, start, j, out, path)
    ensures PathOk(m - 1, start, j, out[m - 1 := x], path)
  {}

  lemma {:induction false} PathsJoin(m: nat, out: seq<int>, b: int, p: seq<int>, x: int, r: nat, q: seq<int>)
    requires 1 <= m <= |out| && r < m - 1 && PathOk(m, b, m - 1, out, p) && PathOk(m, x, r, out, q)
    ensures PathOk(m - 1, b, r, out[m - 1 := x], p + q)
  {
    JoinedFollows(out, m - 1, x, p, q);
  }

  /** Filling slot m-1 with the value of slot r links the path of m-1 in front of the path of r. */
  lemma {:induction false} JoinPaths(n: nat, m: nat, block: seq<int>, out: seq<int>, paths: seq<seq<int>>, r: nat)
    requires Paths(n, m, block, out, paths) && r < m - 1
    ensures Paths(n, m - 1, block[r := block[m - 1]][..m - 1], out[m - 1 := block[r]],
                  paths[r := paths[m - 1] + paths[r]][..m - 1])
  {
    hide Elements, Upto, PathOk;
    var i := m - 1;
    var ps := paths[r := paths[i] + paths[r]][..i];
    var block' := block[r := block[i]][..i];
    forall j | 0 <= j < i ensures PathOk(i, block'[j], j, out[i := block[r]], ps[j]) {
      if j == r {
        assert PathOk(m, block[i], i, out, paths[i]) && PathOk(m, block[r], r, out, paths[r]);
        PathsJoin(m, out, block[i], paths[i], block[r], r, paths[r]);
      } else {
        assert PathOk(m, block[j], j, out, paths[j]);
        PathSurvives(m, block[j], j, out, paths[j], block[r]);
      }
    }
    JoinedElements(paths, r);
  }

  lemma {:induction false} JoinedFollows(out: seq<int>, i: nat, x: int, p: seq<int>, q: seq<int>)
    requires i < |out| && |p| >= 1 && |q| >= 1 && p[|p| - 1] == i && q[0] == x
    requires Follows(out, p) && Follows(out, q)
    requires forall t :: 0 <= t < |p| - 1 ==> i < p[t]
    requires forall t :: 0 <= t < |q| - 1 ==> i < q[t]
    ensures Follows(out[i := x], p + q)
  {
    var pq := p + q;
    forall t | 0 <= t < |pq| - 1
      ensures 0 <= pq[t] < |out| && out[i := x][pq[t]] == pq[t + 1]
    {
      if t >= |p| { assert pq[t] == q[t - |p|]; }
    }
  }

  lemma {:induction false} JoinedElements(paths: seq<seq<int>>, r: nat)
    requires r < |paths| - 1
    ensures Elements(paths[r := paths[|paths| - 1] + paths[r]][..|paths| - 1]) == Elements(paths)
  {
    var i := |paths| - 1;
    var joined := paths[i] + paths[r];
    var ps := paths[r := joined];
    ElementsOfUpdate(paths, r, joined);
    assert multiset(joined) == multiset(paths[i]) + multiset(paths[r]);
    assert Elements(ps) == Elements(ps[..i]) + multiset(paths[i]);
    Cancel(Elements(ps[..i]), multiset(paths[i]), multiset(paths[r]), Elements(paths));
  }

  lemma {:induction false} InitialPaths(n: nat, block: seq<int>, out: seq<int>)
    requires |block| == |out| == n && forall j :: 0 <= j < n ==> block[j] == j
    ensures Paths(n, n, block, out, seq(n, i => [i]))
  {
    ElementsOfSingletons(n);
  }

  /** `cycle` lists each of 0..|out|-1 once, in the order in which the assignment visits them. */
  ghost predicate IsCycle(out: seq<int>, cycle: seq<int>) {
    && |cycle| == |out|
    && multiset(cycle) == multiset(Upto(|out|))
    && (forall t :: 0 <= t < |cycle| ==> 0 <= cycle[t] < |out|)
    && (forall t :: 0 <= t < |cycle| ==> out[cycle[t]] == cycle[if t + 1 < |cycle| then t + 1 else 0])
  }

  lemma {:induction false} MemberOfUpto(n: nat, x: int)
    ensures x in multiset(Upto(n)) <==> 0 <= x < n
    ensures multiset(Upto(n))[x] <= 1
  {
    if n == 0 {
      assert Upto(0) == [];
    } else {
      MemberOfUpto(n - 1, x);
      assert Upto(n) == Upto(n - 1) + [n - 1];
    }
  }

  lemma {:induction false} CloseCycle(n: nat, block: seq<int>, out: seq<int>, paths: seq<seq<int>>)
    requires n >= 1 && Paths(n, 1, block, out, paths)
    ensures IsCycle(out[0 := block[0]], paths[0])
  {
    var cycle := paths[0];
    var out' := out[0 := block[0]];
    assert paths[..0] == [];
    assert Elements(paths) == Elements(paths[..0]) + multiset(cycle);
    assert |multiset(cycle)| == |multiset(Upto(n))|;
    forall t | 0 <= t < |cycle| ensures 0 <= cycle[t] < n {
      assert cycle[t] in multiset(cycle);
      MemberOfUpto(n, cycle[t]);
    }
    assert PathOk(1, block[0], 0, out, cycle);
  }

  function Iterate(out: seq<int>, x: int, k: nat): int {
    if k == 0 then x
    else var y := Iterate(out, x, k - 1); if 0 <= y < |out| then out[y] else y
  }

  lemma {:induction false} IterateForward(out: seq<int>, cycle: seq<int>, t: nat, k: nat)
    requires IsCycle(out, cycle) && t + k < |cycle|
    ensures Iterate(out, cycle[t], k) == cycle[t + k]
  {
    if k > 0 { IterateForward(out, cycle, t, k - 1); }
  }

  lemma {:induction false} IterateAdd(out: seq<int>, x: int, a: nat, b: nat)
    ensures Iterate(out, x, a + b) == Iterate(out, Iterate(out, x, a), b)
  {
    if b > 0 { IterateAdd(out, x, a, b - 1); }
  }

  lemma {:induction false} OnCycle(out: seq<int>, cycle: seq<int>, x: int) returns (t: nat)
    requires IsCycle(out, cycle) && 0 <= x < |out|
    ensures t < |cycle| && cycle[t] == x
  {
    MemberOfUpto(|out|, x);
    assert x in multiset(cycle);
    t :| 0 <= t < |cycle| && cycle[t] == x;
  }

  lemma {:induction false} CycleIsInjective(out: seq<int>, cycle: seq<int>, t: nat, u: nat)
    requires IsCycle(out, cycle) && t < u < |cycle|
    ensures cycle[t] != cycle[u]
  {
    if cycle[t] == cycle[u] {
      var front, back := cycle[..u], cycle[u..];
      assert cycle == front + back;
      assert front[t] == cycle[t] && back[0] == cycle[u];
      assert cycle[t] in multiset(front) && cycle[t] in multiset(back);
      MemberOfUpto(|out|, cycle[t]);
    }
  }

  /** From every signer, following the assignment reaches every signer. */
  lemma {:induction false} EverySignerReached(out: seq<int>, cycle: seq<int>, x: int, y: int) returns (k: nat)
    requires IsCycle(out, cycle) && 0 <= x < |out| && 0 <= y < |out|
    ensures k < |out| && Iterate(out, x, k) == y
  {
    var t := OnCycle(out, cycle, x);
    var u := OnCycle(out, cycle, y);
    if t <= u {
      k := u - t;
      IterateForward(out, cycle, t, k);
    } else {
      var toEnd := |out| - 1 - t;
      k := toEnd + 1 + u;
      IterateForward(out, cycle, t, toEnd);
      IterateForward(out, cycle, 0, u);
      assert Iterate(out, x, toEnd + 1) == cycle[0];
      IterateAdd(out, x, toEnd + 1, u);
    }
  }

  /** The assignment is a permutation of the signers. */
  lemma {:induction false} IsPermutation(out: seq<int>, cycle: seq<int>)
    requires IsCycle(out, cycle)
    ensures forall x :: 0 <= x < |out| ==> 0 <= out[x] < |out|
    ensures forall x, y :: 0 <= x < |out| && 0 <= y < |out| && out[x] == out[y] ==> x == y
  {
    var n := |out|;
    forall x | 0 <= x < n ensures 0 <= out[x] < n {
      var t := OnCycle(out, cycle, x);
      assert out[cycle[t]] == cycle[if t + 1 < n then t + 1 else 0];
    }
    forall x, y | 0 <= x < n && 0 <= y < n && out[x] == out[y] ensures x == y {
      var t := OnCycle(out, cycle, x);
      var u := OnCycle(out, cycle, y);
      var t', u' := if t + 1 < n then t + 1 else 0, if u + 1 < n then u + 1 else 0;
      if t' < u' { CycleIsInjective(out, cycle, t', u'); } else if u' < t' { CycleIsInjective(out, cycle, u', t'); }
    }
  }

  /** No signer validates for itself when there are at least two. */
  lemma {:induction false} NobodyValidatesItself(out: seq<int>, cycle: seq<int>, x: int)
    requires IsCycle(out, cycle) && |out| >= 2 && 0 <= x < |out|
    ensures out[x] != x
  {
    var t := OnCycle(out, cycle, x);
    if t + 1 < |out| { CycleIsInjective(out, cycle, t, t + 1); } else { CycleIsInjective(out, cycle, 0, t); }
  }

  lemma {:induction false} SameAsUpto(n: nat, s: seq<int>)
    requires |s| == n && forall i :: 0 <= i < n ==> s[i] == i
    ensures s == Upto(n)
  {}

  // The shuffle as a composition of exchanges

  /** What the random source can return: slot `i` draws below itself, slots 1 and 0 draw slot 0. */
  ghost predicate AreDraws(draws: seq<nat>) {
    forall i :: 0 <= i < |draws| ==> draws[i] < if i <= 1 then 1 else i
  }

  ghost function Exchange(s: seq<int>, i: nat, r: nat): seq<int>
    requires i < |s| && r < |s|
  {
    s[i := s[r]][r := s[i]]
  }

  /** Slots m-1 down to 0, each exchanged with the slot it draws. */
  ghost function Exchanged(s: seq<int>, draws: seq<nat>, m: nat): seq<int>
    requires m <= |s| && m <= |draws| && AreDraws(draws)
    decreases m
  {
    if m == 0 then s else Exchanged(Exchange(s, m - 1, draws[m - 1]), draws, m - 1)
  }

  lemma {:induction false} ExchangedKeeps(s: seq<int>, draws: seq<nat>, m: nat)
    requires m <= |s| && m <= |draws| && AreDraws(draws)
    ensures |Exchanged(s, draws, m)| == |s|
    ensures forall j :: m <= j < |s| ==> Exchanged(s, draws, m)[j] == s[j]
    decreases m
  {
    if m > 0 { ExchangedKeeps(Exchange(s, m - 1, draws[m - 1]), draws, m - 1); }
  }

  ghost predicate Distinct(s: seq<int>) {
    forall i, j :: 0 <= i < j < |s| ==> s[i] != s[j]
  }

  /** Two lists of draws that exchange a list of distinct values into the same list are the same. */
  lemma {:induction false} DrawsDetermined(s: seq<int>, d: seq<nat>, e: seq<nat>, m: nat)
    requires m <= |s| && m <= |d| && m <= |e| && AreDraws(d) && AreDraws(e) && Distinct(s)
    requires Exchanged(s, d, m) == Exchanged(s, e, m)
    ensures d[..m] == e[..m]
    decreases m
  {
    if m > 0 {
      var i := m - 1;
      var t, u := Exchange(s, i, d[i]), Exchange(s, i, e[i]);
      ExchangedKeeps(t, d, i);
      ExchangedKeeps(u, e, i);
      assert s[d[i]] == t[i] == u[i] == s[e[i]];
      assert d[i] == e[i];
      DrawsDetermined(t, d, e, i);
      assert d[..m] == d[..i] + [d[i]] && e[..m] == e[..i] + [e[i]];
    }
  }

  /** `s` with the values `a` and `b` exchanged wherever they stand. */
  ghost function Relabelled(s: seq<int>, a: int, b: int): seq<int> {
    seq(|s|, i requires 0 <= i < |s| => if s[i] == a then b else if s[i] == b then a else s[i])
  }

  lemma {:induction false} RelabelCommutes(s: seq<int>, draws: seq<nat>, m: nat, a: int, b: int)
    requires m <= |s| && m <= |draws| && AreDraws(draws)
    ensures Exchanged(Relabelled(s, a, b), draws, m) == Relabelled(Exchanged(s, draws, m), a, b)
    decreases m
  {
    if m > 0 {
      var t := Exchange(s, m - 1, draws[m - 1]);
      assert Exchange(Relabelled(s, a, b), m - 1, draws[m - 1]) == Relabelled(t, a, b);
      RelabelCommutes(t, draws, m - 1, a, b);
    }
  }

  /** Slots and draws above those exchanged play no part. */
  lemma {:induction false} ExchangedBelow(s: seq<int>, x: int, draws: seq<nat>, r: nat, m: nat)
    requires m <= |s| && m <= |draws| && AreDraws(draws) && AreDraws(draws + [r])
    ensures Exchanged(s + [x], draws + [r], m) == Exchanged(s, draws, m) + [x]
    decreases m
  {
    if m > 0 {
      var i := m - 1;
      assert (draws + [r])[i] == draws[i];
      assert Exchange(s + [x], i, draws[i]) == Exchange(s, i, draws[i]) + [x];
      ExchangedBelow(Exchange(s, i, draws[i]), x, draws, r, i);
    }
  }

  /** One exchange more, from the top. */
  lemma {:induction false} ExchangedStep(draws: seq<nat>, r: nat, out: seq<int>)
    requires AreDraws(draws) && AreDraws(draws + [r]) && |out| == |draws|
    requires Exchanged(Upto(|draws|), draws, |draws|) == out
    ensures Exchanged(Upto(|draws| + 1), draws + [r], |draws| + 1) == Relabelled(out + [|draws|], r, |draws|)
  {
    var i := |draws|;
    var s := Upto(i + 1);
    assert s == Upto(i) + [i];
    assert (draws + [r])[i] == r;
    assert Exchange(s, i, r) == Relabelled(s, r, i);
    RelabelCommutes(s, draws + [r], i, r, i);
    ExchangedBelow(Upto(i), i, draws, r, i);
  }

  /** A cycle read from just after position `t`. */
  lemma {:induction false} Rotated(out: seq<int>, cycle: seq<int>, t: nat)
    requires IsCycle(out, cycle) && t < |cycle|
    ensures IsCycle(out, cycle[t + 1..] + cycle[..t + 1])
  {
    var n, c := |cycle|, cycle[t + 1..] + cycle[..t + 1];
    assert cycle == cycle[..t + 1] + cycle[t + 1..];
    forall k | 0 <= k < n ensures 0 <= c[k] < n && out[c[k]] == c[if k + 1 < n then k + 1 else 0] {
      var j := if k + t + 1 < n then k + t + 1 else k + t + 1 - n;
      assert c[k] == cycle[j];
      assert out[cycle[j]] == cycle[if j + 1 < n then j + 1 else 0];
    }
  }

  lemma {:induction false} LastLeft(n: nat, rest: seq<int>)
    requires multiset(rest + [n]) == multiset(Upto(n + 1))
    ensures multiset(rest) == multiset(Upto(n))
  {
    assert Upto(n + 1) == Upto(n) + [n];
    forall x ensures multiset(rest)[x] == multiset(Upto(n))[x] {
      assert multiset(rest + [n])[x] == multiset(Upto(n + 1))[x];
    }
  }

  /** The successors in a cycle whose last element is exchanged, as a value, with the first. */
  lemma {:induction false} ContractedNext(out: seq<int>, c: seq<int>, t: nat)
    requires |out| >= 2 && IsCycle(out, c) && c[|c| - 1] == |out| - 1 && t < |out| - 1
    ensures 0 <= c[t] < |out| - 1
    ensures Relabelled(out, c[0], |out| - 1)[c[t]] == c[if t + 1 < |out| - 1 then t + 1 else 0]
  {
    var i := |out| - 1;
    CycleIsInjective(out, c, t, i);
    assert out[c[t]] == c[t + 1];
    if t + 1 < i {
      CycleIsInjective(out, c, 0, t + 1);
      CycleIsInjective(out, c, t + 1, i);
    }
  }

  /** Leaving the last signer out of a cycle leaves a cycle of the others. */
  lemma {:induction false} Contracted(out: seq<int>, c: seq<int>)
    requires |out| >= 2 && IsCycle(out, c) && c[|c| - 1] == |out| - 1
    ensures out[|out| - 1] == c[0] && 0 <= c[0] < |out| - 1
    ensures IsCycle(Relabelled(out, c[0], |out| - 1)[..|out| - 1], c[..|out| - 1])
  {
    var i := |out| - 1;
    assert out[c[i]] == c[0];
    var rest, out' := c[..i], Relabelled(out, c[0], i)[..i];
    assert c == rest + [i];
    LastLeft(i, rest);
    forall t | 0 <= t < i
      ensures 0 <= rest[t] < i && out'[rest[t]] == rest[if t + 1 < i then t + 1 else 0]
    {
      hide IsCycle, Relabelled;
      ContractedNext(out, c, t);
    }
    assert 0 <= rest[0] < i;
  }

  /** Every assignment that is one cycle comes from some list of draws. */
  lemma {:induction false} EveryCycleDrawn(out: seq<int>, cycle: seq<int>) returns (draws: seq<nat>)
    requires |out| >= 1 && IsCycle(out, cycle)
    ensures |draws| == |out| && AreDraws(draws) && Exchanged(Upto(|out|), draws, |out|) == out
    decreases |out|
  {
    hide Distinct;
    var i := |out| - 1;
    if i == 0 {
      draws := [0];
      assert out[cycle[0]] == cycle[0];
      assert Upto(1) == [0] && out == [0];
      assert Exchange([0], 0, 0) == [0];
      return;
    }
    var t := OnCycle(out, cycle, i);
    Rotated(out, cycle, t);
    var c := cycle[t + 1..] + cycle[..t + 1];
    Contracted(out, c);
    var rest := Relabelled(out, c[0], i)[..i];
    draws := EveryCycleDrawn(rest, c[..i]);
    ExchangedStep(draws, c[0], rest);
    assert rest + [i] == Relabelled(out, c[0], i);
    assert Relabelled(Relabelled(out, c[0], i), c[0], i) == out;
    draws := draws + [c[0]];
  }

  /** Different draws give different assignments: with the two results above, each cycle comes from exactly one list. */
  lemma {:induction false} OneDrawPerCycle(n: nat, d: seq<nat>, e: seq<nat>)
    requires |d| == |e| == n && AreDraws(d) && AreDraws(e)
    requires Exchanged(Upto(n), d, n) == Exchanged(Upto(n), e, n)
    ensures d == e
  {
    DrawsDetermined(Upto(n), d, e, n);
  }

  lemma ExchangedNone(s: seq<int>, draws: seq<nat>)
    requires AreDraws(draws)
    ensures Exchanged(s, draws, 0) == s
  {}

  /** The slots still open and those filled, before and after slot i is filled. */
  lemma {:induction false} FillSlot(b: seq<int>, filled: seq<int>, draws: seq<nat>, i: nat)
    requires |b| == i + 1 && |b| + |filled| <= |draws| && AreDraws(draws)
    ensures Exchanged(b + filled, draws, i + 1)
         == Exchanged(b[draws[i] := b[i]][..i] + ([b[draws[i]]] + filled), draws, i)
  {
    assert Exchange(b + filled, i, draws[i]) == b[draws[i] := b[i]][..i] + ([b[draws[i]]] + filled);
  }

  /** The shuffle: for every list of draws, the result is the signers with each slot exchanged with the one it draws,
      and it is one cycle over all of them. */
  method GenM2(n: nat, draws: seq<nat>) returns (out: array<int>, ghost cycle: seq<int>)
    requires n >= 1 && |draws| == n && AreDraws(draws)
    ensures out.Length == n
    ensures out[..] == Exchanged(Upto(n), draws, n)
    ensures IsCycle(out[..], cycle)
  {
    hide Elements, Upto, Paths, PathOk, Follows, Exchanged, IsCycle;
    var block := NewSlice(0, n, 1);
    out := new int[n];
    ghost var paths := seq(n, i => [i]);
    InitialPaths(n, block[..n], out[..]);
    assert block[..n] + out[n..] == Upto(n) by { SameAsUpto(n, block[..n]); }
    var i := n - 1;
    while i >= 1
      invariant 0 <= i < n && |paths| == i + 1
      invariant Paths(n, i + 1, block[..i + 1], out[..], paths)
      invariant Exchanged(block[..i + 1] + out[i + 1..], draws, i + 1) == Exchanged(Upto(n), draws, n)
      invariant block != out
    {
      var r := draws[i];
      ghost var b, o := block[..i + 1], out[..];
      FillSlot(b, o[i + 1..], draws, i);
      JoinPaths(n, i + 1, b, o, paths, r);
      var temp := block[r];
      block[r] := block[i];
      block[i] := temp;
      out[i] := temp;
      paths := paths[r := paths[i] + paths[r]][..i];
      assert block[..i] == b[r := b[i]][..i];
      assert out[..] == o[i := b[r]];
      assert out[i..] == [b[r]] + o[i + 1..];
      i := i - 1;
    }
    CloseCycle(n, block[..1], out[..], paths);
    ghost var o := out[..];
    out[0] := block[draws[0]];
    assert out[..] == o[0 := block[0]];
    FillSlot(block[..1], o[1..], draws, 0);
    assert out[..] == block[..1][0 := block[0]][..0] + ([block[0]] + o[1..]);
    ExchangedNone(out[..], draws);
    cycle := paths[0];
  }
}
