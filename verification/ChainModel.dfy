/** Blocks, ancestry and the indexes of the block chain as values: the specification of
    `writeBlockWithState` and `reorg` in core/blockchain.go. */
module ChainModel {

  type Hash = nat
  type Tx = nat

  datatype Block = Block(hash: Hash, parent: Hash, number: nat, difficulty: nat, txs: seq<Tx>)

  type Blocks = map<Hash, Block>

  /** Stored blocks hang together down to the genesis block, the only one with number 0. */
  ghost predicate Closed(blocks: Blocks, genesis: Hash) {
    && genesis in blocks
    && (forall h :: h in blocks ==> blocks[h].hash == h && (blocks[h].number == 0 <==> h == genesis))
    && (forall h {:trigger Hangs(blocks, blocks[h])} :: h in blocks && h != genesis ==> Hangs(blocks, blocks[h]))
  }

  predicate Hangs(blocks: Blocks, b: Block) {
    b.parent in blocks && blocks[b.parent].number + 1 == b.number
  }

  /** The ancestor of `h` with number `n`. */
  ghost function Anc(blocks: Blocks, genesis: Hash, h: Hash, n: nat): (a: Hash)
    requires Closed(blocks, genesis) && h in blocks && n <= blocks[h].number
    ensures a in blocks && blocks[a].number == n
    decreases blocks[h].number
  {
    if blocks[h].number == n then h
    else
      assert Hangs(blocks, blocks[h]);
      Anc(blocks, genesis, blocks[h].parent, n)
  }

  lemma {:induction false} AncSelf(blocks: Blocks, g: Hash, h: Hash)
    requires Closed(blocks, g) && h in blocks
    ensures Anc(blocks, g, h, blocks[h].number) == h
  {
  }

  lemma {:induction false} AncOfAnc(blocks: Blocks, g: Hash, h: Hash, m: nat, n: nat)
    requires Closed(blocks, g) && h in blocks && n <= m <= blocks[h].number
    ensures Anc(blocks, g, Anc(blocks, g, h, m), n) == Anc(blocks, g, h, n)
    decreases blocks[h].number
  {
    if m < blocks[h].number {
      assert Hangs(blocks, blocks[h]);
      AncOfAnc(blocks, g, blocks[h].parent, m, n);
    }
  }

  lemma {:induction false} AncParent(blocks: Blocks, g: Hash, h: Hash, n: nat)
    requires Closed(blocks, g) && h in blocks && 0 < n <= blocks[h].number
    ensures Anc(blocks, g, h, n) != g
    ensures blocks[Anc(blocks, g, h, n)].parent == Anc(blocks, g, h, n - 1)
  {
    var a := Anc(blocks, g, h, n);
    assert Hangs(blocks, blocks[a]);
    AncOfAnc(blocks, g, h, n, n - 1);
    assert Anc(blocks, g, a, n - 1) == Anc(blocks, g, blocks[a].parent, n - 1);
  }

  /** Ancestors of stored blocks do not change when blocks are added. */
  lemma {:induction false} AncExtends(blocks: Blocks, more: Blocks, g: Hash, h: Hash, n: nat)
    requires Closed(blocks, g) && Closed(more, g) && h in blocks && n <= blocks[h].number
    requires forall x :: x in blocks ==> x in more && more[x] == blocks[x]
    ensures Anc(more, g, h, n) == Anc(blocks, g, h, n)
    decreases blocks[h].number
  {
    if n < blocks[h].number {
      assert Hangs(blocks, blocks[h]);
      AncExtends(blocks, more, g, blocks[h].parent, n);
    }
  }

  /** The number-to-hash index of the chain that ends in `h`. */
  ghost function CanonOf(blocks: Blocks, g: Hash, h: Hash): map<nat, Hash>
    requires Closed(blocks, g) && h in blocks
  {
    map n: nat | n <= blocks[h].number :: Anc(blocks, g, h, n)
  }

  /** More blocks do not change the chain below a block. */
  lemma {:induction false} SameCanon(blocks: Blocks, more: Blocks, g: Hash, h: Hash)
    requires Closed(blocks, g) && Closed(more, g) && h in blocks
    requires forall x :: x in blocks ==> x in more && more[x] == blocks[x]
    ensures CanonOf(blocks, g, h) == CanonOf(more, g, h)
  {
    forall n: nat | n <= blocks[h].number ensures Anc(more, g, h, n) == Anc(blocks, g, h, n) {
      AncExtends(blocks, more, g, h, n);
    }
  }

  /** The highest number up to `n` at which the ancestors of `a` and `b` agree. */
  ghost function CommonUpTo(blocks: Blocks, g: Hash, a: Hash, b: Hash, n: nat): (m: nat)
    requires Closed(blocks, g) && a in blocks && b in blocks
    requires n <= blocks[a].number && n <= blocks[b].number
    ensures m <= n && Anc(blocks, g, a, m) == Anc(blocks, g, b, m)
    ensures forall k :: m < k <= n ==> Anc(blocks, g, a, k) != Anc(blocks, g, b, k)
  {
    if Anc(blocks, g, a, n) == Anc(blocks, g, b, n) then n
    else CommonUpTo(blocks, g, a, b, n - 1)
  }

  function Min(a: nat, b: nat): nat {
    if a <= b then a else b
  }

  ghost function Common(blocks: Blocks, g: Hash, a: Hash, b: Hash): (m: nat)
    requires Closed(blocks, g) && a in blocks && b in blocks
    ensures m <= blocks[a].number && m <= blocks[b].number
    ensures Anc(blocks, g, a, m) == Anc(blocks, g, b, m)
  {
    CommonUpTo(blocks, g, a, b, Min(blocks[a].number, blocks[b].number))
  }

  /** Up to the common ancestor the two chains are one. */
  lemma {:induction false} BelowCommon(blocks: Blocks, g: Hash, a: Hash, b: Hash, n: nat)
    requires Closed(blocks, g) && a in blocks && b in blocks && n <= Common(blocks, g, a, b)
    ensures Anc(blocks, g, a, n) == Anc(blocks, g, b, n)
  {
    var m := Common(blocks, g, a, b);
    AncOfAnc(blocks, g, a, m, n);
    AncOfAnc(blocks, g, b, m, n);
  }

  // Transaction lookup entries

  type Lookup = map<Tx, nat>

  function WriteEntries(lookup: Lookup, b: Block): Lookup {
    lookup + map tx | tx in b.txs :: b.number
  }

  /** Entries after writing the ancestors of `h` with numbers in (lo, n], lowest first. */
  ghost function WriteChain(lookup: Lookup, blocks: Blocks, g: Hash, h: Hash, lo: nat, n: nat): Lookup
    requires Closed(blocks, g) && h in blocks && n <= blocks[h].number
    decreases n
  {
    if n <= lo then lookup
    else WriteEntries(WriteChain(lookup, blocks, g, h, lo, n - 1), blocks[Anc(blocks, g, h, n)])
  }

  ghost predicate OnChain(blocks: Blocks, g: Hash, h: Hash, n: nat, tx: Tx)
    requires Closed(blocks, g) && h in blocks
  {
    n <= blocks[h].number && tx in blocks[Anc(blocks, g, h, n)].txs
  }

  /** No transaction occurs twice on one ancestry path. */
  ghost predicate TxsUnique(blocks: Blocks, g: Hash)
    requires Closed(blocks, g)
  {
    forall h, m: nat, n: nat, tx ::
      h in blocks && OnChain(blocks, g, h, m, tx) && OnChain(blocks, g, h, n, tx) ==> m == n
  }

  /** The index names, for exactly the transactions on the chain of `h`, the number of their block. */
  ghost predicate LookupOf(lookup: Lookup, blocks: Blocks, g: Hash, h: Hash)
    requires Closed(blocks, g) && h in blocks
  {
    && (forall tx :: tx in lookup ==> OnChain(blocks, g, h, lookup[tx], tx))
    && (forall tx, n: nat :: OnChain(blocks, g, h, n, tx) ==> tx in lookup)
  }

  /** `tx` is in an ancestor of `h` with number in (lo, hi]. */
  ghost predicate Between(blocks: Blocks, g: Hash, h: Hash, lo: nat, hi: nat, tx: Tx)
    requires Closed(blocks, g) && h in blocks
  {
    exists n: nat :: lo < n <= hi && OnChain(blocks, g, h, n, tx)
  }

  /** Written entries are those of the chain segment, the rest are as before. */
  lemma {:induction false} WriteChainEntry(lookup: Lookup, blocks: Blocks, g: Hash, h: Hash, lo: nat, n: nat, tx: Tx)
    requires Closed(blocks, g) && h in blocks && n <= blocks[h].number
    ensures var w := WriteChain(lookup, blocks, g, h, lo, n);
      if Between(blocks, g, h, lo, n, tx)
      then tx in w && lo < w[tx] <= n && OnChain(blocks, g, h, w[tx], tx)
      else (tx in w <==> tx in lookup) && (tx in w ==> w[tx] == lookup[tx])
    decreases n
  {
    if n > lo {
      WriteChainEntry(lookup, blocks, g, h, lo, n - 1, tx);
      BetweenStep(blocks, g, h, lo, n, tx);
    }
  }

  lemma {:induction false} BetweenStep(blocks: Blocks, g: Hash, h: Hash, lo: nat, n: nat, tx: Tx)
    requires Closed(blocks, g) && h in blocks && lo < n <= blocks[h].number
    ensures Between(blocks, g, h, lo, n, tx) <==>
            Between(blocks, g, h, lo, n - 1, tx) || tx in blocks[Anc(blocks, g, h, n)].txs
  {
    if tx in blocks[Anc(blocks, g, h, n)].txs {
      assert OnChain(blocks, g, h, n, tx);
    } else if Between(blocks, g, h, lo, n, tx) {
      var k: nat :| lo < k <= n && OnChain(blocks, g, h, k, tx);
      assert k <= n - 1;
    }
  }

  /** A transaction that left the chain with the blocks of `a` above `c` and did not come back with `b`. */
  ghost predicate Dropped(blocks: Blocks, g: Hash, a: Hash, b: Hash, c: nat, tx: Tx)
    requires Closed(blocks, g) && a in blocks && b in blocks
  {
    Between(blocks, g, a, c, blocks[a].number, tx) && !Between(blocks, g, b, c, blocks[b].number, tx)
  }

  /** `pruned` is `w` without the entries of transactions that only the dropped blocks of `a` hold. */
  ghost predicate Pruned(w: Lookup, pruned: Lookup, blocks: Blocks, g: Hash, a: Hash, b: Hash, c: nat)
    requires Closed(blocks, g) && a in blocks && b in blocks
  {
    && (forall tx :: tx in pruned <==> (tx in w && !Dropped(blocks, g, a, b, c, tx)))
    && (forall tx :: tx in pruned ==> pruned[tx] == w[tx])
  }

  /** Moving from the chain of `a` to the chain of `b`: entries of the new blocks are written, then those of
      dropped transactions that did not come back are deleted. */
  lemma {:induction false} LookupAfterReorg(lookup: Lookup, lookup': Lookup, blocks: Blocks, g: Hash, a: Hash, b: Hash)
    requires Closed(blocks, g) && a in blocks && b in blocks && TxsUnique(blocks, g)
    requires LookupOf(lookup, blocks, g, a)
    requires Pruned(WriteChain(lookup, blocks, g, b, Common(blocks, g, a, b), blocks[b].number), lookup',
                    blocks, g, a, b, Common(blocks, g, a, b))
    ensures LookupOf(lookup', blocks, g, b)
  {
    var c := Common(blocks, g, a, b);
    forall tx | tx in lookup' ensures OnChain(blocks, g, b, lookup'[tx], tx) {
      WriteChainEntry(lookup, blocks, g, b, c, blocks[b].number, tx);
      if !Between(blocks, g, b, c, blocks[b].number, tx) {
        KeptEntry(lookup, blocks, g, a, b, tx);
      }
    }
    forall tx, n: nat | OnChain(blocks, g, b, n, tx) ensures tx in lookup' {
      WriteChainEntry(lookup, blocks, g, b, c, blocks[b].number, tx);
      if n <= c {
        SharedEntry(lookup, blocks, g, a, b, n, tx);
      } else {
        assert Between(blocks, g, b, c, blocks[b].number, tx);
      }
    }
  }

  lemma {:induction false} KeptEntry(lookup: Lookup, blocks: Blocks, g: Hash, a: Hash, b: Hash, tx: Tx)
    requires Closed(blocks, g) && a in blocks && b in blocks && LookupOf(lookup, blocks, g, a)
    requires tx in lookup && !Between(blocks, g, a, Common(blocks, g, a, b), blocks[a].number, tx)
    ensures OnChain(blocks, g, b, lookup[tx], tx)
  {
    assert OnChain(blocks, g, a, lookup[tx], tx);
    BelowCommon(blocks, g, a, b, lookup[tx]);
  }

  lemma {:induction false} SharedEntry(lookup: Lookup, blocks: Blocks, g: Hash, a: Hash, b: Hash, n: nat, tx: Tx)
    requires Closed(blocks, g) && a in blocks && b in blocks && LookupOf(lookup, blocks, g, a) && TxsUnique(blocks, g)
    requires n <= Common(blocks, g, a, b) && OnChain(blocks, g, b, n, tx)
    ensures tx in lookup && !Between(blocks, g, a, Common(blocks, g, a, b), blocks[a].number, tx)
  {
    BelowCommon(blocks, g, a, b, n);
    assert OnChain(blocks, g, a, n, tx);
  }
}
