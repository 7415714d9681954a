/** The block chain as a state machine: what every run of block writes and commits keeps. */
module ChainRuns {
  import opened Options
  import opened ChainModel

  datatype Commit = Commit(number: nat, hash: Hash)

  datatype Error = UnknownAncestor | CommittedBlockReverted

  datatype Status = NonStat(error: Error) | Canon | Side

  /** `canon` and `lookup` are the number and transaction indexes, `committed` the latest block the consensus
      engine reports as committed. `accepted` collects the blocks written as canonical or side blocks and
      `finalized` all blocks ever committed. */
  datatype Chain = Chain(genesis: Hash, blocks: Blocks, td: map<Hash, nat>, canon: map<nat, Hash>, lookup: Lookup,
                         head: Hash, committed: Option<Commit>, accepted: set<Hash>, finalized: set<Hash>)

  /** A header that passed verification: linked by number to its parent and not colliding with a stored one. */
  predicate Verified(s: Chain, b: Block) {
    && b.number > 0 && b.hash != s.genesis
    && (b.hash in s.blocks ==> s.blocks[b.hash] == b)
    && (b.parent in s.blocks ==> Hangs(s.blocks, b))
  }

  /** Fork choice: more total difficulty, or the same and a higher number. */
  predicate Better(td: nat, number: nat, headTd: nat, headNumber: nat) {
    td > headTd || (td == headTd && number > headNumber)
  }

  predicate AddsUp(blocks: Blocks, td: map<Hash, nat>, h: Hash)
    requires h in blocks && h in td
  {
    blocks[h].parent in td && td[h] == td[blocks[h].parent] + blocks[h].difficulty
  }

  ghost predicate Difficulties(s: Chain) {
    && s.td.Keys == s.blocks.Keys
    && (forall h {:trigger AddsUp(s.blocks, s.td, h)} :: h in s.blocks && h != s.genesis ==> AddsUp(s.blocks, s.td, h))
  }

  ghost predicate Linked(s: Chain) {
    Closed(s.blocks, s.genesis) && Difficulties(s) && s.head in s.blocks
  }

  ghost predicate Inv(s: Chain) {
    && Closed(s.blocks, s.genesis)
    && Difficulties(s)
    && s.head in s.accepted && s.accepted <= s.blocks.Keys
    && s.canon == CanonOf(s.blocks, s.genesis, s.head)
    && (forall h :: h in s.accepted ==>
          !Better(s.td[h], s.blocks[h].number, s.td[s.head], s.blocks[s.head].number))
    && (TxsUnique(s.blocks, s.genesis) ==> LookupOf(s.lookup, s.blocks, s.genesis, s.head))
    && (s.committed.Some? ==> Canonical(s, s.committed.value.number, s.committed.value.hash))
    && (forall h :: h in s.finalized ==>
          h in s.blocks && s.committed.Some? && s.blocks[h].number <= s.committed.value.number
          && Canonical(s, s.blocks[h].number, h))
  }

  predicate Canonical(s: Chain, n: nat, h: Hash) {
    n in s.canon && s.canon[n] == h
  }

  /** A chain that holds only its genesis block. */
  function Init(genesis: Block): Chain {
    Chain(genesis.hash, map[genesis.hash := genesis], map[genesis.hash := genesis.difficulty],
          map[0 := genesis.hash], WriteEntries(map[], genesis), genesis.hash, None, {genesis.hash}, {})
  }

  lemma {:induction false} InitInv(genesis: Block)
    requires genesis.number == 0
    ensures Inv(Init(genesis))
  {
    var s := Init(genesis);
    assert Closed(s.blocks, s.genesis);
    assert Anc(s.blocks, s.genesis, s.head, 0) == s.head;
  }

  /** The finality guard: the fork point lies below the committed block and dropping the old chain would
      revert it. */
  ghost predicate RevertsCommitted(blocks: Blocks, g: Hash, committed: Option<Commit>, from: Hash, to: Hash)
    requires Closed(blocks, g) && from in blocks && to in blocks
  {
    && committed.Some?
    && Common(blocks, g, from, to) < committed.value.number <= blocks[from].number
    && Anc(blocks, g, from, committed.value.number) == committed.value.hash
  }

  ghost function Stored(s: Chain, b: Block): (s': Chain)
    requires b.parent in s.td
  {
    s.(blocks := s.blocks[b.hash := b], td := s.td[b.hash := s.td[b.parent] + b.difficulty])
  }

  /** What `writeBlockWithState` does to the chain. */
  ghost predicate Writes(s: Chain, b: Block, s': Chain, status: Status)
    requires Linked(s) && Verified(s, b)
  {
    if b.parent !in s.td then s' == s && status == NonStat(UnknownAncestor)
    else
      var t := Stored(s, b);
      StoredClosed(s, b);
      if !Better(t.td[b.hash], b.number, s.td[s.head], s.blocks[s.head].number) then
        status == Side && s' == t.(accepted := t.accepted + {b.hash})
      else if b.parent != s.head && RevertsCommitted(t.blocks, t.genesis, t.committed, s.head, b.hash) then
        status == NonStat(CommittedBlockReverted) && s' == t
      else
        && status == Canon
        && s' == t.(canon := CanonOf(t.blocks, t.genesis, b.hash), lookup := s'.lookup, head := b.hash,
                    accepted := t.accepted + {b.hash})
        && MovedLookup(t, b.hash, s'.lookup)
  }

  /** The lookup index after the head moved to `h`. */
  ghost predicate MovedLookup(t: Chain, h: Hash, lookup: Lookup)
    requires Closed(t.blocks, t.genesis) && t.head in t.blocks && h in t.blocks
  {
    var c := Common(t.blocks, t.genesis, t.head, h);
    Pruned(WriteChain(t.lookup, t.blocks, t.genesis, h, c, t.blocks[h].number), lookup,
           t.blocks, t.genesis, t.head, h, c)
  }

  lemma {:induction false} StoredAgain(s: Chain, b: Block)
    requires Closed(s.blocks, s.genesis) && Difficulties(s) && Verified(s, b) && b.parent in s.td && b.hash in s.blocks
    ensures Stored(s, b) == s
  {
    assert AddsUp(s.blocks, s.td, b.hash);
    assert s.blocks[b.hash := b] == s.blocks;
    assert s.td[b.hash := s.td[b.parent] + b.difficulty] == s.td;
  }

  lemma {:induction false} StoredNew(s: Chain, b: Block)
    requires Closed(s.blocks, s.genesis) && Difficulties(s) && Verified(s, b) && b.parent in s.td && b.hash !in s.blocks
    ensures Closed(Stored(s, b).blocks, s.genesis) && Difficulties(Stored(s, b))
  {
    var t := Stored(s, b);
    forall h | h in t.blocks && h != s.genesis ensures Hangs(t.blocks, t.blocks[h]) && AddsUp(t.blocks, t.td, h) {
      if h != b.hash { assert Hangs(s.blocks, s.blocks[h]) && AddsUp(s.blocks, s.td, h); }
    }
  }

  lemma {:induction false} StoredClosed(s: Chain, b: Block)
    requires Closed(s.blocks, s.genesis) && Difficulties(s) && Verified(s, b) && b.parent in s.td
    ensures Closed(Stored(s, b).blocks, s.genesis) && Difficulties(Stored(s, b))
    ensures forall h :: h in s.blocks ==> h in Stored(s, b).blocks && Stored(s, b).blocks[h] == s.blocks[h]
    ensures forall h :: h in s.td ==> h in Stored(s, b).td && Stored(s, b).td[h] == s.td[h]
  {
    if b.hash in s.blocks { StoredAgain(s, b); } else { StoredNew(s, b); }
  }

  /** Storing a block leaves the chain of the head as it is. */
  lemma {:induction false} StoredInv(s: Chain, b: Block)
    requires Inv(s) && Verified(s, b) && b.parent in s.td
    ensures Inv(Stored(s, b))
  {
    var t := Stored(s, b);
    StoredClosed(s, b);
    SameCanon(s.blocks, t.blocks, s.genesis, s.head);
    if TxsUnique(t.blocks, t.genesis) {
      SameTxs(s.blocks, t.blocks, s.genesis);
      SameLookup(s.lookup, s.blocks, t.blocks, s.genesis, s.head);
    }
  }

  lemma {:induction false} SameTxs(blocks: Blocks, more: Blocks, g: Hash)
    requires Closed(blocks, g) && Closed(more, g) && TxsUnique(more, g)
    requires forall x :: x in blocks ==> x in more && more[x] == blocks[x]
    ensures TxsUnique(blocks, g)
  {
    forall h, m: nat, n: nat, tx | h in blocks && OnChain(blocks, g, h, m, tx) && OnChain(blocks, g, h, n, tx)
      ensures m == n
    {
      AncExtends(blocks, more, g, h, m);
      AncExtends(blocks, more, g, h, n);
      assert OnChain(more, g, h, m, tx) && OnChain(more, g, h, n, tx);
    }
  }

  lemma {:induction false} SameLookup(lookup: Lookup, blocks: Blocks, more: Blocks, g: Hash, h: Hash)
    requires Closed(blocks, g) && Closed(more, g) && h in blocks && LookupOf(lookup, blocks, g, h)
    requires forall x :: x in blocks ==> x in more && more[x] == blocks[x]
    ensures LookupOf(lookup, more, g, h)
  {
    forall tx | tx in lookup ensures OnChain(more, g, h, lookup[tx], tx) {
      assert OnChain(blocks, g, h, lookup[tx], tx);
      AncExtends(blocks, more, g, h, lookup[tx]);
    }
    forall tx, n: nat | OnChain(more, g, h, n, tx) ensures tx in lookup {
      AncExtends(blocks, more, g, h, n);
      assert OnChain(blocks, g, h, n, tx);
    }
  }

  /** A move of the head that the guard lets through keeps every canonical block up to the committed one. */
  lemma {:induction false} CommittedStays(t: Chain, h: Hash, n: nat)
    requires Inv(t) && h in t.blocks && t.committed.Some? && n <= t.committed.value.number
    requires (t.blocks[h].parent == t.head && h != t.genesis)
             || !RevertsCommitted(t.blocks, t.genesis, t.committed, t.head, h)
    ensures n in t.canon && n <= t.blocks[h].number && Anc(t.blocks, t.genesis, h, n) == t.canon[n]
  {
    var c := Common(t.blocks, t.genesis, t.head, h);
    if t.blocks[h].parent == t.head && h != t.genesis { ChildCommon(t.blocks, t.genesis, t.head, h); }
    assert t.committed.value.number <= c;
    BelowCommon(t.blocks, t.genesis, t.head, h, n);
  }

  lemma {:induction false} ChildCommon(blocks: Blocks, g: Hash, a: Hash, b: Hash)
    requires Closed(blocks, g) && a in blocks && b in blocks && b != g && blocks[b].parent == a
    ensures Common(blocks, g, a, b) == blocks[a].number
  {
    assert Hangs(blocks, blocks[b]);
    assert Anc(blocks, g, b, blocks[a].number) == Anc(blocks, g, a, blocks[a].number);
  }

  /** Every write keeps the invariant. */
  lemma {:induction false} WriteKeepsInv(s: Chain, b: Block, s': Chain, status: Status)
    requires Inv(s) && Verified(s, b) && Writes(s, b, s', status)
    ensures Inv(s')
  {
    if b.parent in s.td {
      var t := Stored(s, b);
      StoredClosed(s, b);
      StoredInv(s, b);
      match status
      case Canon => MoveKeepsInv(t, b.hash, s');
      case Side => SideKeepsInv(t, b.hash, s');
      case NonStat(_) =>
    }
  }

  lemma {:induction false} SideKeepsInv(t: Chain, h: Hash, s': Chain)
    requires Inv(t) && h in t.blocks && s' == t.(accepted := t.accepted + {h})
    requires !Better(t.td[h], t.blocks[h].number, t.td[t.head], t.blocks[t.head].number)
    ensures Inv(s')
  {
    forall x | x in s'.finalized ensures Canonical(s', s'.blocks[x].number, x) {
      assert Canonical(t, t.blocks[x].number, x);
    }
  }

  lemma {:induction false} MoveKeepsInv(t: Chain, h: Hash, s': Chain)
    requires Inv(t) && h in t.blocks && h != t.genesis
    requires Better(t.td[h], t.blocks[h].number, t.td[t.head], t.blocks[t.head].number)
    requires t.blocks[h].parent == t.head || !RevertsCommitted(t.blocks, t.genesis, t.committed, t.head, h)
    requires s' ==
      t.(canon := CanonOf(t.blocks, t.genesis, h), lookup := s'.lookup, head := h, accepted := t.accepted + {h})
    requires MovedLookup(t, h, s'.lookup)
    ensures Inv(s')
  {
    if TxsUnique(t.blocks, t.genesis) {
      LookupAfterReorg(t.lookup, s'.lookup, t.blocks, t.genesis, t.head, h);
    }
    if t.committed.Some? {
      CommittedStays(t, h, t.committed.value.number);
      forall x | x in t.finalized ensures Canonical(s', s'.blocks[x].number, x) {
        assert Canonical(t, t.blocks[x].number, x);
        CommittedStays(t, h, t.blocks[x].number);
      }
    }
  }

  /** The consensus engine commits a canonical block not lower than the one committed before. */
  predicate Commits(s: Chain, c: Commit, s': Chain) {
    && Canonical(s, c.number, c.hash)
    && (s.committed.Some? ==> s.committed.value.number <= c.number)
    && s' == s.(committed := Some(c), finalized := s.finalized + {c.hash})
  }

  lemma {:induction false} CommitKeepsInv(s: Chain, c: Commit, s': Chain)
    requires Inv(s) && Commits(s, c, s')
    ensures Inv(s')
  {
    assert s.canon[c.number] == Anc(s.blocks, s.genesis, s.head, c.number);
    forall h | h in s'.finalized
      ensures h in s'.blocks && s'.blocks[h].number <= c.number && Canonical(s', s'.blocks[h].number, h)
    {
      if h in s.finalized { assert Canonical(s, s.blocks[h].number, h); }
    }
  }

  // Runs

  datatype Event = Write(block: Block, status: Status) | Committed(commit: Commit)

  ghost predicate Step(s: Chain, e: Event, s': Chain) {
    match e
    case Write(b, status) => Linked(s) && Verified(s, b) && Writes(s, b, s', status)
    case Committed(c) => Commits(s, c, s')
  }

  ghost predicate IsRun(genesis: Block, states: seq<Chain>, events: seq<Event>) {
    && genesis.number == 0
    && |states| == |events| + 1 && states[0] == Init(genesis)
    && forall i :: 0 <= i < |events| ==> Step(states[i], events[i], states[i + 1])
  }

  lemma {:induction false} WriteGrows(s: Chain, b: Block, s': Chain, status: Status)
    requires Linked(s) && Verified(s, b) && Writes(s, b, s', status)
    ensures s'.finalized == s.finalized && s.accepted <= s'.accepted
    ensures forall h :: h in s.blocks ==> h in s'.blocks && s'.blocks[h] == s.blocks[h]
    ensures status in {Canon, Side} ==> b.hash in s'.accepted
  {
    if b.parent in s.td { StoredClosed(s, b); }
  }

  /** Steps add blocks and commits, they never take any away. */
  lemma {:induction false} StepGrows(s: Chain, e: Event, s': Chain)
    requires Step(s, e, s')
    ensures s.finalized <= s'.finalized && s.accepted <= s'.accepted
    ensures forall h :: h in s.blocks ==> h in s'.blocks && s'.blocks[h] == s.blocks[h]
  {
    match e
    case Write(b, status) => WriteGrows(s, b, s', status);
    case Committed(c) =>
  }

  lemma {:induction false} StepKeepsInv(s: Chain, e: Event, s': Chain)
    requires Inv(s) && Step(s, e, s')
    ensures Inv(s')
  {
    match e
    case Write(b, status) => WriteKeepsInv(s, b, s', status);
    case Committed(c) => CommitKeepsInv(s, c, s');
  }

  /** In every run from the genesis block the number index is the ancestry of the head and nothing else, total
      difficulties add up, no accepted block beats the head, and the lookup index names the canonical block of
      every transaction. */
  lemma {:induction false} EveryRun(genesis: Block, states: seq<Chain>, events: seq<Event>, i: nat)
    requires IsRun(genesis, states, events) && i < |states|
    ensures Inv(states[i])
    decreases i
  {
    if i == 0 {
      InitInv(genesis);
    } else {
      EveryRun(genesis, states, events, i - 1);
      StepKeepsInv(states[i - 1], events[i - 1], states[i]);
    }
  }

  lemma {:induction false} RunGrows(genesis: Block, states: seq<Chain>, events: seq<Event>, i: nat, j: nat)
    requires IsRun(genesis, states, events) && i <= j < |states|
    ensures states[i].finalized <= states[j].finalized && states[i].accepted <= states[j].accepted
    ensures forall h :: h in states[i].blocks ==> h in states[j].blocks && states[j].blocks[h] == states[i].blocks[h]
    decreases j
  {
    if i < j {
      RunGrows(genesis, states, events, i, j - 1);
      StepGrows(states[j - 1], events[j - 1], states[j]);
    }
  }

  lemma {:induction false} CanonicalIsStored(s: Chain, n: nat, h: Hash)
    requires Inv(s) && Canonical(s, n, h)
    ensures h in s.blocks && s.blocks[h].number == n
  {
    assert s.canon[n] == Anc(s.blocks, s.genesis, s.head, n);
  }

  /** Finality: a block committed at some point of a run is canonical at every later point. */
  lemma {:induction false} CommittedForever(genesis: Block, states: seq<Chain>, events: seq<Event>, i: nat, j: nat)
    requires IsRun(genesis, states, events) && i < j < |states| && events[i].Committed?
    ensures Canonical(states[j], events[i].commit.number, events[i].commit.hash)
  {
    var c := events[i].commit;
    EveryRun(genesis, states, events, i);
    EveryRun(genesis, states, events, j);
    assert Step(states[i], events[i], states[i + 1]);
    CanonicalIsStored(states[i], c.number, c.hash);
    RunGrows(genesis, states, events, i, j);
    RunGrows(genesis, states, events, i + 1, j);
  }

  /** A transaction has an entry exactly when a canonical block holds it, and the entry names that block. */
  lemma {:induction false} LookupNamesCanonicalBlock(genesis: Block, states: seq<Chain>, events: seq<Event>, i: nat,
                                                     tx: Tx, n: nat)
    requires IsRun(genesis, states, events) && i < |states|
    requires Closed(states[i].blocks, states[i].genesis) ==> TxsUnique(states[i].blocks, states[i].genesis)
    ensures var s := states[i];
      (tx in s.lookup && s.lookup[tx] == n) <==>
      (n in s.canon && s.canon[n] in s.blocks && tx in s.blocks[s.canon[n]].txs)
  {
    EveryRun(genesis, states, events, i);
    var s := states[i];
    if n in s.canon && tx in s.blocks[s.canon[n]].txs {
      assert OnChain(s.blocks, s.genesis, s.head, n, tx);
      assert OnChain(s.blocks, s.genesis, s.head, s.lookup[tx], tx);
    }
    if tx in s.lookup && s.lookup[tx] == n {
      assert OnChain(s.blocks, s.genesis, s.head, n, tx);
    }
  }

  /** The head carries the greatest total difficulty, and among equals the greatest number, of all accepted
      blocks; its canonical chain ends with it. */
  lemma {:induction false} HeadIsBest(genesis: Block, states: seq<Chain>, events: seq<Event>, i: nat, j: nat)
    requires IsRun(genesis, states, events) && i < j < |states|
    requires events[i].Write? && events[i].status in {Canon, Side}
    ensures var s := states[j]; var h := events[i].block.hash;
      && h in s.td && s.head in s.td && h in s.blocks && s.head in s.blocks
      && s.td[h] <= s.td[s.head] && (s.td[h] == s.td[s.head] ==> s.blocks[h].number <= s.blocks[s.head].number)
      && (forall n: nat :: n in s.canon <==> n <= s.blocks[s.head].number)
      && s.canon[s.blocks[s.head].number] == s.head
  {
    EveryRun(genesis, states, events, j);
    assert Step(states[i], events[i], states[i + 1]);
    WriteGrows(states[i], events[i].block, states[i + 1], events[i].status);
    RunGrows(genesis, states, events, i + 1, j);
    HeadEndsCanon(states[j]);
  }

  lemma {:induction false} HeadEndsCanon(s: Chain)
    requires Inv(s)
    ensures forall n: nat :: n in s.canon <==> n <= s.blocks[s.head].number
    ensures s.canon[s.blocks[s.head].number] == s.head
  {}
}
