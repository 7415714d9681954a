/** `writeHeadBlock`, `reorg` and `writeBlockWithState` of core/blockchain.go as methods on the chain's
    database, proved to perform the moves of the state machine. */
module ChainStore {
  import opened Options
  import opened ChainModel
  import opened ChainRuns

  /** `chain` lists the blocks from `start` down to, and not including, `cur`. */
  ghost predicate Segment(blocks: Blocks, g: Hash, start: Hash, chain: seq<Hash>, cur: Hash)
    requires Closed(blocks, g) && start in blocks
  {
    && |chain| <= blocks[start].number
    && cur == Anc(blocks, g, start, blocks[start].number - |chain|)
    && forall i :: 0 <= i < |chain| ==> chain[i] == Anc(blocks, g, start, blocks[start].number - i)
  }

  lemma {:induction false} SegmentStep(blocks: Blocks, g: Hash, start: Hash, chain: seq<Hash>, cur: Hash)
    requires Closed(blocks, g) && start in blocks && Segment(blocks, g, start, chain, cur) && blocks[cur].number > 0
    ensures blocks[cur].parent in blocks && blocks[blocks[cur].parent].number == blocks[cur].number - 1
    ensures Segment(blocks, g, start, chain + [cur], blocks[cur].parent)
  {
    AncParent(blocks, g, start, blocks[cur].number);
  }

  /** Walking down from the longer to the shorter chain. */
  method WalkDown(blocks: Blocks, ghost g: Hash, start: Hash, number: nat) returns (chain: seq<Hash>, cur: Hash)
    requires Closed(blocks, g) && start in blocks && number <= blocks[start].number
    ensures Segment(blocks, g, start, chain, cur) && cur in blocks && blocks[cur].number == number
  {
    chain, cur := [], start;
    while blocks[cur].number != number
      invariant cur in blocks && blocks[cur].number >= number && Segment(blocks, g, start, chain, cur)
      decreases blocks[cur].number
    {
      SegmentStep(blocks, g, start, chain, cur);
      chain := chain + [cur];
      cur := blocks[cur].parent;
    }
  }

  ghost predicate ForksAt(blocks: Blocks, g: Hash, from: Hash, to: Hash, n: nat)
    requires Closed(blocks, g) && from in blocks && to in blocks
  {
    && n <= blocks[from].number && n <= blocks[to].number
    && forall k: nat :: n < k <= blocks[from].number && k <= blocks[to].number ==>
         Anc(blocks, g, from, k) != Anc(blocks, g, to, k)
  }

  lemma {:induction false} CommonIsUnique(blocks: Blocks, g: Hash, from: Hash, to: Hash, n: nat)
    requires Closed(blocks, g) && from in blocks && to in blocks && ForksAt(blocks, g, from, to, n)
    requires Anc(blocks, g, from, n) == Anc(blocks, g, to, n)
    ensures n == Common(blocks, g, from, to)
  {}

  ghost predicate Forking(blocks: Blocks, g: Hash, from: Hash, to: Hash, dropped: seq<Hash>, added: seq<Hash>,
                          a: Hash, b: Hash)
    requires Closed(blocks, g) && from in blocks && to in blocks
  {
    && a in blocks && b in blocks && blocks[a].number == blocks[b].number
    && Segment(blocks, g, from, dropped, a) && Segment(blocks, g, to, added, b)
    && ForksAt(blocks, g, from, to, blocks[a].number)
  }

  lemma {:induction false} ForkStep(blocks: Blocks, g: Hash, from: Hash, to: Hash, dropped: seq<Hash>,
                                    added: seq<Hash>, a: Hash, b: Hash)
    requires Closed(blocks, g) && from in blocks && to in blocks
    requires Forking(blocks, g, from, to, dropped, added, a, b) && a != b
    ensures blocks[a].parent in blocks && blocks[blocks[a].parent].number < blocks[a].number
    ensures Forking(blocks, g, from, to, dropped + [a], added + [b], blocks[a].parent, blocks[b].parent)
  {
    SegmentStep(blocks, g, from, dropped, a);
    SegmentStep(blocks, g, to, added, b);
    var n := blocks[a].number;
    assert Anc(blocks, g, from, n) == a && Anc(blocks, g, to, n) == b;
  }

  lemma {:induction false} ForkStart(blocks: Blocks, g: Hash, from: Hash, to: Hash, dropped: seq<Hash>,
                                     added: seq<Hash>, a: Hash, b: Hash)
    requires Closed(blocks, g) && from in blocks && to in blocks && a in blocks && b in blocks
    requires Segment(blocks, g, from, dropped, a) && Segment(blocks, g, to, added, b)
    requires blocks[a].number == blocks[b].number == Min(blocks[from].number, blocks[to].number)
    ensures Forking(blocks, g, from, to, dropped, added, a, b)
  {}

  /** The two lists of blocks that a switch from one head to the other drops and adds, newest first. */
  method FindFork(blocks: Blocks, ghost g: Hash, from: Hash, to: Hash)
    returns (dropped: seq<Hash>, added: seq<Hash>, common: Hash)
    requires Closed(blocks, g) && from in blocks && to in blocks
    ensures common in blocks && blocks[common].number == Common(blocks, g, from, to)
    ensures Segment(blocks, g, from, dropped, common) && Segment(blocks, g, to, added, common)
  {
    var a, b := from, to;
    dropped, added := [], [];
    if blocks[from].number > blocks[to].number {
      dropped, a := WalkDown(blocks, g, from, blocks[to].number);
    } else {
      added, b := WalkDown(blocks, g, to, blocks[from].number);
    }
    ForkStart(blocks, g, from, to, dropped, added, a, b);
    while a != b
      invariant Forking(blocks, g, from, to, dropped, added, a, b)
      decreases blocks[a].number
    {
      ForkStep(blocks, g, from, to, dropped, added, a, b);
      dropped, added := dropped + [a], added + [b];
      a, b := blocks[a].parent, blocks[b].parent;
    }
    CommonIsUnique(blocks, g, from, to, blocks[a].number);
    common := a;
  }

  /** The committed block is reverted exactly when it is among the dropped blocks above the fork. */
  lemma {:induction false} RevertedIsDropped(blocks: Blocks, g: Hash, from: Hash, to: Hash, committed: Commit,
                                             dropped: seq<Hash>, common: Hash)
    requires Closed(blocks, g) && from in blocks && to in blocks && common in blocks
    requires blocks[common].number == Common(blocks, g, from, to) && Segment(blocks, g, from, dropped, common)
    ensures RevertsCommitted(blocks, g, Some(committed), from, to) <==>
      exists i ::
        && 0 <= i < |dropped| && dropped[i] in blocks
        && blocks[dropped[i]].number == committed.number && dropped[i] == committed.hash
  {
    if RevertsCommitted(blocks, g, Some(committed), from, to) {
      var j := blocks[from].number - committed.number;
      assert dropped[j] == Anc(blocks, g, from, committed.number);
    }
  }

  /** The guard's search for the committed block among the dropped ones. */
  method GuardStops(blocks: Blocks, ghost g: Hash, ghost from: Hash, ghost to: Hash, committed: Option<Commit>,
                    dropped: seq<Hash>, common: Hash) returns (stop: bool)
    requires Closed(blocks, g) && from in blocks && to in blocks && common in blocks
    requires blocks[common].number == Common(blocks, g, from, to) && Segment(blocks, g, from, dropped, common)
    ensures stop == RevertsCommitted(blocks, g, committed, from, to)
  {
    if committed.None? || blocks[common].number >= committed.value.number {
      return false;
    }
    RevertedIsDropped(blocks, g, from, to, committed.value, dropped, common);
    for i := 0 to |dropped|
      invariant forall j :: 0 <= j < i && dropped[j] in blocks ==>
        blocks[dropped[j]].number != committed.value.number || dropped[j] != committed.value.hash
    {
      assert dropped[i] == Anc(blocks, g, from, blocks[from].number - i);
      if blocks[dropped[i]].number == committed.value.number && dropped[i] == committed.value.hash {
        return true;
      }
    }
    stop := false;
  }

  lemma {:induction false} CollectStep(blocks: Blocks, g: Hash, start: Hash, top: nat, n: nat, txs: seq<Tx>,
                                       more: seq<Tx>)
    requires Closed(blocks, g) && start in blocks && 0 < n <= top == blocks[start].number
    requires forall tx :: tx in txs <==> Between(blocks, g, start, n, top, tx)
    requires more == blocks[Anc(blocks, g, start, n)].txs
    ensures forall tx :: tx in txs + more <==> Between(blocks, g, start, n - 1, top, tx)
  {
    forall tx ensures tx in txs + more <==> Between(blocks, g, start, n - 1, top, tx) {
      BetweenDown(blocks, g, start, n, top, tx);
    }
  }

  /** The transactions of a list of blocks. */
  method CollectTxs(blocks: Blocks, ghost g: Hash, ghost start: Hash, chain: seq<Hash>,
                    ghost cur: Hash) returns (txs: seq<Tx>)
    requires Closed(blocks, g) && start in blocks && Segment(blocks, g, start, chain, cur) && cur in blocks
    ensures forall tx :: tx in txs <==> Between(blocks, g, start, blocks[cur].number, blocks[start].number, tx)
  {
    txs := [];
    ghost var top := blocks[start].number;
    for i := 0 to |chain|
      invariant forall tx :: tx in txs <==> Between(blocks, g, start, top - i, top, tx)
    {
      assert chain[i] == Anc(blocks, g, start, top - i);
      CollectStep(blocks, g, start, top, top - i, txs, blocks[chain[i]].txs);
      txs := txs + blocks[chain[i]].txs;
    }
  }

  lemma {:induction false} BetweenDown(blocks: Blocks, g: Hash, h: Hash, n: nat, hi: nat, tx: Tx)
    requires Closed(blocks, g) && h in blocks && 0 < n <= hi <= blocks[h].number
    ensures Between(blocks, g, h, n - 1, hi, tx) <==>
            (Between(blocks, g, h, n, hi, tx) || tx in blocks[Anc(blocks, g, h, n)].txs)
  {
    if tx in blocks[Anc(blocks, g, h, n)].txs {
      assert OnChain(blocks, g, h, n, tx);
    } else if Between(blocks, g, h, n - 1, hi, tx) {
      var k: nat :| n - 1 < k <= hi && OnChain(blocks, g, h, k, tx);
      assert k != n;
    }
  }

  /** The number index after writing the ancestors of `h` with numbers in (lo, n], lowest first. */
  ghost function PatchCanon(canon: map<nat, Hash>, blocks: Blocks, g: Hash, h: Hash, lo: nat, n: nat): map<nat, Hash>
    requires Closed(blocks, g) && h in blocks && n <= blocks[h].number
    decreases n
  {
    if n <= lo then canon else PatchCanon(canon, blocks, g, h, lo, n - 1)[n := Anc(blocks, g, h, n)]
  }

  lemma {:induction false} PatchedEntry(canon: map<nat, Hash>, blocks: Blocks, g: Hash, h: Hash, lo: nat, n: nat,
                                        k: nat)
    requires Closed(blocks, g) && h in blocks && n <= blocks[h].number
    ensures var p := PatchCanon(canon, blocks, g, h, lo, n);
      if lo < k <= n then k in p && p[k] == Anc(blocks, g, h, k)
      else (k in p <==> k in canon) && (k in p ==> p[k] == canon[k])
    decreases n
  {
    if n > lo { PatchedEntry(canon, blocks, g, h, lo, n - 1, k); }
  }

  /** Writing the added blocks over the old index and deleting what lies above gives the new index. */
  lemma {:induction false} PatchedIsCanon(blocks: Blocks, g: Hash, from: Hash, to: Hash, canon: map<nat, Hash>)
    requires Closed(blocks, g) && from in blocks && to in blocks
    requires var m := Common(blocks, g, from, to);
      var p := PatchCanon(CanonOf(blocks, g, from), blocks, g, to, m, blocks[to].number);
      forall k :: (k in canon <==> (k in p && k <= blocks[to].number)) && (k in canon ==> canon[k] == p[k])
    ensures canon == CanonOf(blocks, g, to)
  {
    var c := Common(blocks, g, from, to);
    forall k: nat
      ensures k in canon <==> k <= blocks[to].number
      ensures k in canon ==> canon[k] == Anc(blocks, g, to, k)
    {
      PatchedEntry(CanonOf(blocks, g, from), blocks, g, to, c, blocks[to].number, k);
      if k <= c { BelowCommon(blocks, g, from, to, k); }
    }
  }

  lemma {:induction false} AboveNewHead(blocks: Blocks, g: Hash, from: Hash, to: Hash)
    requires Closed(blocks, g) && from in blocks && to in blocks
    ensures var m := Common(blocks, g, from, to);
      var p := PatchCanon(CanonOf(blocks, g, from), blocks, g, to, m, blocks[to].number);
      forall k :: blocks[to].number < k ==> (k in p <==> k <= blocks[from].number)
  {
    var p := PatchCanon(CanonOf(blocks, g, from), blocks, g, to, Common(blocks, g, from, to), blocks[to].number);
    forall k | blocks[to].number < k ensures k in p <==> k <= blocks[from].number {
      PatchedEntry(CanonOf(blocks, g, from), blocks, g, to, Common(blocks, g, from, to), blocks[to].number, k);
    }
  }

  /** Dropping the transactions in `deleted` that are not in `rebirth`. */
  function HashDifference(deleted: seq<Tx>, rebirth: seq<Tx>): set<Tx> {
    set tx | tx in deleted && tx !in rebirth
  }

  lemma {:induction false} PrunedByDifference(w: Lookup, blocks: Blocks, g: Hash, from: Hash, to: Hash, c: nat,
                                              deleted: seq<Tx>, rebirth: seq<Tx>)
    requires Closed(blocks, g) && from in blocks && to in blocks
    requires forall tx :: tx in deleted <==> Between(blocks, g, from, c, blocks[from].number, tx)
    requires forall tx :: tx in rebirth <==> Between(blocks, g, to, c, blocks[to].number, tx)
    ensures Pruned(w, w - HashDifference(deleted, rebirth), blocks, g, from, to, c)
  {}

  /** Total difficulty does not fall along a chain. */
  lemma {:induction false} AncestorNotBetter(s: Chain, h: Hash, n: nat)
    requires Linked(s) && h in s.blocks && n <= s.blocks[h].number
    ensures s.td[Anc(s.blocks, s.genesis, h, n)] <= s.td[h]
    decreases s.blocks[h].number
  {
    if n < s.blocks[h].number {
      assert Hangs(s.blocks, s.blocks[h]);
      assert AddsUp(s.blocks, s.td, h);
      AncestorNotBetter(s, s.blocks[h].parent, n);
    }
  }

  /** Writing the new head a second time changes nothing. */
  lemma {:induction false} HeadRewritten(t: Chain, h: Hash, lookup: Lookup)
    requires Linked(t) && h in t.blocks && MovedLookup(t, h, lookup)
    requires Better(t.td[h], t.blocks[h].number, t.td[t.head], t.blocks[t.head].number)
    ensures WriteEntries(lookup, t.blocks[h]) == lookup
    ensures CanonOf(t.blocks, t.genesis, h)[t.blocks[h].number := h] == CanonOf(t.blocks, t.genesis, h)
  {
    var n := t.blocks[h].number;
    var c := Common(t.blocks, t.genesis, t.head, h);
    if c == n { AncestorNotBetter(t, t.head, n); }
    forall tx | tx in t.blocks[h].txs ensures tx in lookup && lookup[tx] == n {
      assert OnChain(t.blocks, t.genesis, h, n, tx);
      assert Between(t.blocks, t.genesis, h, c, n, tx);
    }
  }

  /** A child of the head extends both indexes by itself. */
  lemma {:induction false} HeadExtended(t: Chain, h: Hash)
    requires Linked(t) && h in t.blocks && h != t.genesis && t.blocks[h].parent == t.head
    ensures MovedLookup(t, h, WriteEntries(t.lookup, t.blocks[h]))
    ensures CanonOf(t.blocks, t.genesis, t.head)[t.blocks[h].number := h] == CanonOf(t.blocks, t.genesis, h)
  {
    assert Hangs(t.blocks, t.blocks[h]);
    ChildCommon(t.blocks, t.genesis, t.head, h);
    var n := t.blocks[t.head].number;
    assert WriteChain(t.lookup, t.blocks, t.genesis, h, n, n) == t.lookup;
    assert WriteChain(t.lookup, t.blocks, t.genesis, h, n, n + 1) == WriteEntries(t.lookup, t.blocks[h]);
  }

  /** The lookup entries after the first `i` transactions of a block. */
  function Entered(lookup: Lookup, b: Block, i: nat): Lookup
    requires i <= |b.txs|
  {
    lookup + map tx | tx in b.txs[..i] :: b.number
  }

  lemma {:induction false} EnteredStart(lookup: Lookup, b: Block)
    ensures Entered(lookup, b, 0) == lookup && Entered(lookup, b, |b.txs|) == WriteEntries(lookup, b)
  {
    assert b.txs[..|b.txs|] == b.txs;
  }

  lemma {:induction false} EnteredStep(lookup: Lookup, b: Block, i: nat)
    requires i < |b.txs|
    ensures Entered(lookup, b, i)[b.txs[i] := b.number] == Entered(lookup, b, i + 1)
  {
    assert b.txs[..i + 1] == b.txs[..i] + [b.txs[i]];
  }

  lemma {:induction false} SegmentFirst(blocks: Blocks, g: Hash, start: Hash, chain: seq<Hash>, cur: Hash)
    requires Closed(blocks, g) && start in blocks && cur in blocks && Segment(blocks, g, start, chain, cur)
    ensures if chain == [] then cur == start else chain[0] == start
  {
  }

  class BlockChain {
    const genesis: Hash
    var blocks: Blocks
    var td: map<Hash, nat>
    var canon: map<nat, Hash>
    var lookup: Lookup
    var currentBlock: Hash
    var committed: Option<Commit>
    ghost var accepted: set<Hash>
    ghost var finalized: set<Hash>

    ghost function View(): Chain
      reads this
    {
      Chain(genesis, blocks, td, canon, lookup, currentBlock, committed, accepted, finalized)
    }

    constructor (genesis: Block)
      requires genesis.number == 0
      ensures View() == Init(genesis)
    {
      this.genesis := genesis.hash;
      blocks, td := map[genesis.hash := genesis], map[genesis.hash := genesis.difficulty];
      canon, lookup := map[0 := genesis.hash], WriteEntries(map[], genesis);
      currentBlock, committed := genesis.hash, None;
      accepted, finalized := {genesis.hash}, {};
    }

    /** Marks a stored block as the head and indexes it. */
    method WriteHeadBlock(h: Hash)
      requires h in blocks
      modifies this`canon, this`lookup, this`currentBlock
      ensures canon == old(canon)[blocks[h].number := h]
      ensures lookup == WriteEntries(old(lookup), blocks[h])
      ensures currentBlock == h
    {
      hide Entered, WriteEntries;
      var b := blocks[h];
      canon := canon[b.number := h];
      EnteredStart(lookup, b);
      for i := 0 to |b.txs|
        invariant lookup == Entered(old(lookup), b, i)
        modifies this`lookup
      {
        EnteredStep(old(lookup), b, i);
        lookup := lookup[b.txs[i] := b.number];
      }
      currentBlock := h;
    }

    /** Writes the added blocks, lowest first. */
    method ApplyChain(to: Hash, added: seq<Hash>, ghost common: Hash)
      requires Closed(blocks, genesis) && to in blocks && common in blocks
      requires Segment(blocks, genesis, to, added, common)
      modifies this`canon, this`lookup, this`currentBlock
      ensures canon == PatchCanon(old(canon), blocks, genesis, to, blocks[common].number, blocks[to].number)
      ensures lookup == WriteChain(old(lookup), blocks, genesis, to, blocks[common].number, blocks[to].number)
      ensures currentBlock == if added == [] then old(currentBlock) else to
    {
      hide Closed, WriteEntries;
      ghost var c, top := blocks[common].number, blocks[to].number;
      var i := |added|;
      while i > 0
        invariant 0 <= i <= |added|
        invariant canon == PatchCanon(old(canon), blocks, genesis, to, c, top - i)
        invariant lookup == WriteChain(old(lookup), blocks, genesis, to, c, top - i)
        invariant i < |added| ==> currentBlock == added[i]
        invariant i == |added| ==> currentBlock == old(currentBlock)
        modifies this`canon, this`lookup, this`currentBlock
      {
        i := i - 1;
        assert added[i] == Anc(blocks, genesis, to, top - i);
        WriteHeadBlock(added[i]);
      }
    }

    /** Deletes the number index above the new head, as far as it is contiguous. */
    method DeleteAbove(number: nat, ghost top: nat)
      requires forall k :: number < k ==> (k in canon <==> k <= top)
      modifies this`canon
      ensures forall k :: k in canon <==> (k in old(canon) && k <= number)
      ensures forall k :: k in canon ==> canon[k] == old(canon)[k]
    {
      var i := number + 1;
      while i in canon
        invariant i > number
        invariant forall k :: k in canon <==> (k in old(canon) && (k <= number || k >= i))
        invariant forall k :: k in canon ==> canon[k] == old(canon)[k]
        invariant forall k :: number < k ==> (k in old(canon) <==> k <= top)
        modifies this`canon
        decreases top + 1 - i
      {
        canon := canon - {i};
        i := i + 1;
      }
    }

    /** Switches the canonical chain to end in `to`, unless that would revert the committed block. */
    method Reorg(to: Hash) returns (ok: bool)
      requires Linked(View()) && to in blocks && canon == CanonOf(blocks, genesis, currentBlock)
      modifies this`canon, this`lookup, this`currentBlock
      ensures ok == !RevertsCommitted(blocks, genesis, committed, old(currentBlock), to)
      ensures !ok ==> canon == old(canon) && lookup == old(lookup) && currentBlock == old(currentBlock)
      ensures ok ==> canon == CanonOf(blocks, genesis, to) && MovedLookup(old(View()), to, lookup)
    {
      hide Closed, Anc, CanonOf, PatchCanon, WriteChain, Pruned, RevertsCommitted;
      var from := currentBlock;
      var dropped, added, common := FindFork(blocks, genesis, from, to);
      var stop := GuardStops(blocks, genesis, from, to, committed, dropped, common);
      if stop {
        return false;
      }
      var deletedTxs := CollectTxs(blocks, genesis, from, dropped, common);
      ApplyChain(to, added, common);
      var rebirthTxs := CollectTxs(blocks, genesis, to, added, common);
      PrunedByDifference(lookup, blocks, genesis, from, to, blocks[common].number, deletedTxs, rebirthTxs);
      lookup := lookup - HashDifference(deletedTxs, rebirthTxs);
      SegmentFirst(blocks, genesis, to, added, common);
      var number := if added == [] then blocks[common].number else blocks[added[0]].number;
      AboveNewHead(blocks, genesis, from, to);
      DeleteAbove(number, blocks[from].number);
      PatchedIsCanon(blocks, genesis, from, to, canon);
      ok := true;
    }

    /** Stores a block and, if it wins the fork choice, makes it the head. */
    method WriteBlockWithState(b: Block) returns (status: Status)
      requires Linked(View()) && Verified(View(), b) && canon == CanonOf(blocks, genesis, currentBlock)
      modifies this
      ensures Writes(old(View()), b, View(), status)
      ensures old(Inv(View())) ==> Inv(View())
    {
      hide Closed, Anc, CanonOf, Inv, MovedLookup, RevertsCommitted, WriteEntries;
      if b.parent !in td {
        return NonStat(UnknownAncestor);
      }
      ghost var s := View();
      var localTd := td[currentBlock];
      var externTd := td[b.parent] + b.difficulty;
      StoredClosed(s, b);
      SameCanon(blocks, blocks[b.hash := b], genesis, currentBlock);
      td := td[b.hash := externTd];
      blocks := blocks[b.hash := b];
      ghost var t := View();
      assert t == Stored(s, b);
      var reorg := externTd > localTd;
      if !reorg && externTd == localTd {
        reorg := b.number > blocks[currentBlock].number;
      }
      if !reorg {
        accepted := accepted + {b.hash};
        if Inv(s) { WriteKeepsInv(s, b, View(), Side); }
        return Side;
      }
      if b.parent != currentBlock {
        var ok := Reorg(b.hash);
        if !ok {
          if Inv(s) { WriteKeepsInv(s, b, View(), NonStat(CommittedBlockReverted)); }
          return NonStat(CommittedBlockReverted);
        }
        HeadRewritten(t, b.hash, lookup);
      } else {
        HeadExtended(t, b.hash);
      }
      WriteHeadBlock(b.hash);
      accepted := accepted + {b.hash};
      status := Canon;
      if Inv(s) { WriteKeepsInv(s, b, View(), status); }
    }
  }
}
