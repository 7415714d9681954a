/** The garbage collection block of `writeBlockWithState` (core/blockchain.go): state tries of recent blocks
    are kept alive by a reference each, and a priority queue says when a reference is given up. */
module TrieRetention {
  type Hash = nat

  const TRIES_IN_MEMORY: nat := 128

  datatype Entry = Entry(root: Hash, number: nat)

  function Roots(items: seq<Entry>): seq<Hash> {
    seq(|items|, i requires 0 <= i < |items| => items[i].root)
  }

  /** The entries above block `chosen`. */
  function Above(items: seq<Entry>, chosen: nat): (kept: seq<Entry>)
    ensures forall e :: e in kept ==> e.number > chosen
  {
    if items == [] then []
    else (if items[0].number > chosen then [items[0]] else []) + Above(items[1..], chosen)
  }

  /** What is left after the block with number `number` was written. */
  function Retained(items: seq<Entry>, number: nat): seq<Entry> {
    if number > TRIES_IN_MEMORY then Above(items, number - TRIES_IN_MEMORY) else items
  }

  lemma {:induction false} AboveWithout(items: seq<Entry>, chosen: nat, i: nat)
    requires i < |items| && items[i].number <= chosen
    ensures Above(items[..i] + items[i + 1..], chosen) == Above(items, chosen)
  {
    var rest := items[..i] + items[i + 1..];
    if i == 0 {
      assert rest == items[1..];
    } else {
      AboveWithout(items[1..], chosen, i - 1);
      assert rest[0] == items[0] && rest[1..] == items[1..][..i - 1] + items[1..][i..];
    }
  }

  lemma {:induction false} AboveAll(items: seq<Entry>, chosen: nat)
    requires forall e :: e in items ==> e.number > chosen
    ensures Above(items, chosen) == items
  {
    if items != [] {
      assert forall e :: e in items[1..] ==> e in items;
      AboveAll(items[1..], chosen);
    }
  }

  lemma {:induction false} Without<T>(s: seq<T>, i: nat)
    requires i < |s|
    ensures multiset(s) == multiset(s[..i] + s[i + 1..]) + multiset{s[i]}
  {
    assert s == s[..i] + [s[i]] + s[i + 1..];
  }

  lemma {:induction false} RootsWithout(items: seq<Entry>, i: nat)
    requires i < |items|
    ensures multiset(Roots(items)) == multiset(Roots(items[..i] + items[i + 1..])) + multiset{items[i].root}
  {
    assert Roots(items[..i] + items[i + 1..]) == Roots(items)[..i] + Roots(items)[i + 1..];
    Without(Roots(items), i);
  }

  lemma {:induction false} RootsAppend(items: seq<Entry>, e: Entry)
    ensures multiset(Roots(items + [e])) == multiset(Roots(items)) + multiset{e.root}
  {
    assert Roots(items + [e]) == Roots(items) + [e.root];
  }

  lemma {:induction false} Appended<T>(s: seq<T>, x: T)
    ensures multiset(s + [x]) == multiset(s) + multiset{x}
  {
  }

  lemma {:induction false} LeastOf(queue: multiset<Entry>) returns (least: Entry)
    requires queue != multiset{}
    ensures least in queue && forall f :: f in queue ==> least.number <= f.number
  {
    var e :| e in queue;
    least := e;
    if queue - multiset{e} != multiset{} {
      var m := LeastOf(queue - multiset{e});
      least := if e.number <= m.number then e else m;
    }
    forall f | f in queue ensures least.number <= f.number {
      if f != e { assert f in queue - multiset{e}; }
    }
  }

  lemma {:induction false} LeastExists(queue: multiset<Entry>)
    requires queue != multiset{}
    ensures exists e :: e in queue && forall f :: f in queue ==> e.number <= f.number
  {
    var least := LeastOf(queue);
  }

  /** Entries that are all above are all kept. */
  lemma {:induction false} AllAbove(items: seq<Entry>, queue: multiset<Entry>, chosen: nat, least: nat)
    requires queue == multiset(items) && least > chosen && forall f :: f in queue ==> least <= f.number
    ensures Above(items, chosen) == items
  {
    hide Above;
    forall f | f in items ensures f.number > chosen { assert f in queue; }
    AboveAll(items, chosen);
  }

  class Collector {
    var queue: multiset<Entry>
    var refs: multiset<Hash>
    ghost var items: seq<Entry>

    /** `items` lists the references still held, in the order they were taken. */
    ghost predicate Valid()
      reads this
    {
      queue == multiset(items) && refs == multiset(Roots(items))
    }

    constructor ()
      ensures Valid() && items == []
    {
      queue, refs, items := multiset{}, multiset{}, [];
    }

    /** Takes an entry with the lowest block number out of the queue. */
    method Pop() returns (e: Entry)
      requires queue != multiset{}
      modifies this`queue
      ensures e in old(queue) && (forall f :: f in old(queue) ==> e.number <= f.number)
      ensures queue == old(queue) - multiset{e}
    {
      LeastExists(queue);
      e :| e in queue && forall f :: f in queue ==> e.number <= f.number;
      queue := queue - multiset{e};
    }

    /** References the root of a written block, then gives up the references that left the window. */
    method Write(number: nat, root: Hash)
      requires Valid()
      modifies this
      ensures Valid() && items == Retained(old(items) + [Entry(root, number)], number)
    {
      hide Above, Roots;
      RootsAppend(items, Entry(root, number));
      Appended(items, Entry(root, number));
      refs := refs + multiset{root};
      queue := queue + multiset{Entry(root, number)};
      items := items + [Entry(root, number)];
      if number > TRIES_IN_MEMORY {
        Collect(number - TRIES_IN_MEMORY);
      }
    }

    method Collect(chosen: nat)
      requires Valid()
      modifies this
      ensures Valid() && items == Above(old(items), chosen)
    {
      hide Above, Roots;
      while queue != multiset{}
        invariant Valid() && Above(items, chosen) == Above(old(items), chosen)
        decreases |queue|
      {
        ghost var before := queue;
        var e := Pop();
        if e.number > chosen {
          queue := queue + multiset{e};
          assert queue == before;
          AllAbove(items, before, chosen, e.number);
          return;
        }
        Release(e, before, chosen);
      }
      AllAbove(items, queue, chosen, chosen + 1);
    }

    /** Gives up one reference to the popped root. */
    method Release(e: Entry, ghost before: multiset<Entry>, ghost chosen: nat)
      requires before == multiset(items) && refs == multiset(Roots(items))
      requires e in before && queue == before - multiset{e} && e.number <= chosen
      modifies this`refs, this`items
      ensures Valid() && Above(items, chosen) == Above(old(items), chosen)
    {
      hide Above, Roots;
      ghost var i :| 0 <= i < |items| && items[i] == e;
      AboveWithout(items, chosen, i);
      Without(items, i);
      RootsWithout(items, i);
      refs := refs - multiset{e.root};
      items := items[..i] + items[i + 1..];
    }
  }

  // Whole runs

  /** The references held after a history of block writes. */
  function Live(history: seq<Entry>): seq<Entry> {
    if history == [] then []
    else
      var last := history[|history| - 1];
      Retained(Live(history[..|history| - 1]) + [last], last.number)
  }

  /** No block written since has pushed block `t` out of the window. */
  predicate Survives(history: seq<Entry>, t: nat)
    requires t < |history|
  {
    forall u :: t <= u < |history| ==>
      history[u].number > 128 ==> history[t].number > history[u].number - 128
  }

  function Survivors(history: seq<Entry>, t: nat): seq<Entry>
    requires t <= |history|
    decreases |history| - t
  {
    if t == |history| then []
    else (if Survives(history, t) then [history[t]] else []) + Survivors(history, t + 1)
  }

  lemma {:induction false} AboveConcat(a: seq<Entry>, b: seq<Entry>, chosen: nat)
    ensures Above(a + b, chosen) == Above(a, chosen) + Above(b, chosen)
  {
    if a == [] {
      assert a + b == b;
    } else {
      assert (a + b)[0] == a[0] && (a + b)[1..] == a[1..] + b;
      AboveConcat(a[1..], b, chosen);
    }
  }

  lemma {:induction false} RetainedConcat(a: seq<Entry>, b: seq<Entry>, number: nat)
    ensures Retained(a + b, number) == Retained(a, number) + Retained(b, number)
  {
    if number > TRIES_IN_MEMORY { AboveConcat(a, b, number - TRIES_IN_MEMORY); }
  }

  predicate Keeps(e: Entry, number: nat) {
    number > TRIES_IN_MEMORY ==> e.number > number - TRIES_IN_MEMORY
  }

  lemma {:induction false} RetainedOne(e: Entry, number: nat)
    ensures Retained([e], number) == if Keeps(e, number) then [e] else []
  {
    if number > TRIES_IN_MEMORY {
      var chosen := number - TRIES_IN_MEMORY;
      assert [e][1..] == [] && Above([], chosen) == [];
      assert Above([e], chosen) == if e.number > chosen then [e] + [] else [] + [];
    }
  }

  lemma {:induction false} SurvivesMore(history: seq<Entry>, e: Entry, t: nat)
    requires t < |history|
    ensures Survives(history + [e], t) <==> Survives(history, t) && Keeps(history[t], e.number)
  {
    var more := history + [e];
    assert more[t] == history[t] && more[|history|] == e;
    if Survives(more, t) {
      forall u | t <= u < |history|
        ensures history[u].number > TRIES_IN_MEMORY ==> history[t].number > history[u].number - TRIES_IN_MEMORY
      {
        assert more[u] == history[u];
      }
    }
  }

  lemma {:induction false} SurvivorsMore(history: seq<Entry>, e: Entry, t: nat)
    requires t <= |history|
    ensures Survivors(history + [e], t) == Retained(Survivors(history, t) + [e], e.number)
    decreases |history| - t
  {
    var more := history + [e];
    if t == |history| {
      assert more[t] == e && Survives(more, t);
      assert Survivors(more, t + 1) == [] && Survivors(history, t) + [e] == [e];
      RetainedOne(e, e.number);
    } else {
      SurvivesMore(history, e, t);
      SurvivorsMore(history, e, t + 1);
      var first := if Survives(history, t) then [history[t]] else [];
      assert Survivors(history, t) + [e] == first + (Survivors(history, t + 1) + [e]);
      RetainedConcat(first, Survivors(history, t + 1) + [e], e.number);
      RetainedOne(history[t], e.number);
      assert Retained([], e.number) == [];
    }
  }

  /** In every run the references held are exactly those of the writes that no later write has pushed out. */
  lemma {:induction false} LiveIsSurvivors(history: seq<Entry>)
    ensures Live(history) == Survivors(history, 0)
    decreases |history|
  {
    if history != [] {
      var rest := history[..|history| - 1];
      LiveIsSurvivors(rest);
      SurvivorsMore(rest, history[|history| - 1], 0);
      assert rest + [history[|history| - 1]] == history;
    }
  }

  lemma {:induction false} SurvivorsRoots(history: seq<Entry>, t: nat, root: Hash)
    requires t <= |history|
    ensures root in Roots(Survivors(history, t)) <==>
      exists u :: t <= u < |history| && history[u].root == root && Survives(history, u)
    decreases |history| - t
  {
    if t < |history| {
      SurvivorsRoots(history, t + 1, root);
      var first := if Survives(history, t) then [history[t]] else [];
      assert Roots(first + Survivors(history, t + 1)) == Roots(first) + Roots(Survivors(history, t + 1));
      assert root in Roots(first) <==> Survives(history, t) && history[t].root == root by {
        if Survives(history, t) { assert Roots(first) == [history[t].root]; }
      }
    }
  }

  /** A root shared by several blocks loses its last reference exactly when all of them have left the window. */
  lemma {:induction false} SharedRootStaysReferenced(history: seq<Entry>, root: Hash)
    ensures multiset(Roots(Live(history)))[root] > 0 <==>
      exists t :: 0 <= t < |history| && history[t].root == root && Survives(history, t)
  {
    LiveIsSurvivors(history);
    SurvivorsRoots(history, 0, root);
  }

  /** After block `c` > 128 the queue holds just the entries of blocks above `c` - 128 that were held before. */
  lemma {:induction false} WindowAfterWrite(history: seq<Entry>, root: Hash, c: nat)
    requires c > 128
    ensures Live(history + [Entry(root, c)]) == Above(Live(history), c - 128) + [Entry(root, c)]
    ensures forall e :: e in Live(history + [Entry(root, c)]) ==> e.number > c - 128
  {
    var e := Entry(root, c);
    assert (history + [e])[..|history|] == history;
    AboveConcat(Live(history), [e], c - TRIES_IN_MEMORY);
    RetainedOne(e, c);
  }
}
