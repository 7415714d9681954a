/** Runs of the section indexer: section heads stay one ancestor path whatever the chain does meanwhile, and
    they stay canonical exactly when no reorg slips in between the last read of a section and its storage. */
module SectionRuns {
  import opened ChainModel
  import opened SectionIndex

  datatype State = State(blocks: Blocks, canon: map<nat, Hash>, ix: Indexer, job: Job)

  /** `Rewire` is any change of the canonical index, `Notify` any notification, related or not. */
  datatype Step =
    | StoreBlock(b: Block)
    | Rewire(canon: map<nat, Hash>)
    | Notify(head: nat, reorg: bool)
    | Begin
    | ResetFails
    | Read
    | CommitFails
    | Finish

  ghost predicate Enabled(cfg: Config, s: State, step: Step) {
    match step
    case StoreBlock(b) => b.hash !in s.blocks && b.hash != ZERO && b.number > 0 && Hangs(s.blocks, b)
    case Rewire(_) => true
    case Notify(head, _) => head < UINT64_MAX
    case Begin => s.job.Idle? && s.ix.known > s.ix.stored
    case ResetFails => s.job.Running? && s.job.next == Edge(cfg.size, s.job.section)
    case Read => s.job.Running? && s.job.next < Edge(cfg.size, s.job.section + 1)
    case CommitFails => Complete(cfg, s.job)
    case Finish => s.job.Failed? || Complete(cfg, s.job)
  }

  ghost function Next(cfg: Config, s: State, step: Step): State
    requires cfg.size > 0 && Enabled(cfg, s, step)
  {
    match step
    case StoreBlock(b) => s.(blocks := s.blocks[b.hash := b])
    case Rewire(canon) => s.(canon := canon)
    case Notify(head, reorg) => s.(ix := Notified(cfg, s.ix, head, reorg))
    case Begin => s.(job := Started(cfg, s.ix))
    case ResetFails => s.(ix := Truncated(s.ix, 0), job := Failed(s.job.section, s.job.oldHead))
    case Read => s.(job := ReadNext(s.blocks, s.canon, s.job))
    case CommitFails => s.(job := Failed(s.job.section, s.job.oldHead))
    case Finish => s.(ix := Finished(cfg, s.ix, s.job), job := Idle)
  }

  // The ancestor path

  /** Stored headers hang on a genesis header without parent; the zero hash is no header's. */
  ghost predicate Headers(blocks: Blocks, g: Hash) {
    Closed(blocks, g) && blocks[g].parent == ZERO && ZERO !in blocks
  }

  /** `h` is a header with number `n - 1`, or `n` is 0 and `h` the zero hash. */
  ghost predicate EndsAt(blocks: Blocks, h: Hash, n: nat) {
    if n == 0 then h == ZERO else h in blocks && blocks[h].number == n - 1
  }

  /** `h`, ending at `n`, descends from `o`, ending at `m`. */
  ghost predicate Descends(blocks: Blocks, g: Hash, o: Hash, m: nat, h: Hash, n: nat)
    requires Closed(blocks, g)
  {
    && m <= n && EndsAt(blocks, o, m) && EndsAt(blocks, h, n)
    && (m > 0 ==> Anc(blocks, g, h, m - 1) == o)
  }

  ghost predicate HeadsOk(cfg: Config, g: Hash, blocks: Blocks, ix: Indexer)
    requires Closed(blocks, g)
  {
    && ix.stored <= UINT64_MAX && ix.known <= UINT64_MAX
    && (forall k: nat :: k in ix.heads <==> k < ix.stored)
    && (forall k: nat {:trigger ix.heads[k]} :: k < ix.stored ==> EndsAt(blocks, ix.heads[k], Edge(cfg.size, k + 1)))
    && (forall k: nat {:trigger Link(cfg, g, blocks, ix.heads, k)} ::
          0 < k < ix.stored ==> Link(cfg, g, blocks, ix.heads, k))
  }

  /** The head of section `k` descends from the head of the section before. */
  ghost predicate Link(cfg: Config, g: Hash, blocks: Blocks, heads: map<nat, Hash>, k: nat)
    requires Closed(blocks, g) && k > 0
  {
    && k in heads && k - 1 in heads
    && Descends(blocks, g, heads[k - 1], Edge(cfg.size, k), heads[k], Edge(cfg.size, k + 1))
  }

  ghost predicate JobOk(cfg: Config, g: Hash, blocks: Blocks, ix: Indexer, job: Job)
    requires Closed(blocks, g)
  {
    job.Idle? ||
    (&& ix.stored <= job.section < UINT64_MAX
     && EndsAt(blocks, job.oldHead, Edge(cfg.size, job.section))
     && (ix.stored == job.section > 0 ==> HeadOf(ix.heads, job.section - 1) == job.oldHead)
     && (job.Running? ==>
           && Edge(cfg.size, job.section) <= job.next <= Edge(cfg.size, job.section + 1)
           && Descends(blocks, g, job.oldHead, Edge(cfg.size, job.section), job.lastHead, job.next)))
  }

  ghost predicate Inv(cfg: Config, g: Hash, s: State) {
    Headers(s.blocks, g) && HeadsOk(cfg, g, s.blocks, s.ix) && JobOk(cfg, g, s.blocks, s.ix, s.job)
  }

  lemma {:induction false} DescendsExtends(blocks: Blocks, more: Blocks, g: Hash, o: Hash, m: nat, h: Hash, n: nat)
    requires Closed(blocks, g) && Closed(more, g) && Descends(blocks, g, o, m, h, n)
    requires forall x :: x in blocks ==> x in more && more[x] == blocks[x]
    ensures Descends(more, g, o, m, h, n)
  {
    if m > 0 { AncExtends(blocks, more, g, h, m - 1); }
  }

  lemma {:induction false} StoredClosed(blocks: Blocks, g: Hash, b: Block)
    requires Headers(blocks, g) && b.hash !in blocks && b.hash != ZERO && b.number > 0 && Hangs(blocks, b)
    ensures Headers(blocks[b.hash := b], g)
  {
    var more := blocks[b.hash := b];
    forall h | h in more && h != g ensures Hangs(more, more[h]) {
      assert Hangs(blocks, more[h]);
    }
  }

  lemma {:induction false} HeadsExtend(cfg: Config, g: Hash, blocks: Blocks, more: Blocks, ix: Indexer)
    requires Closed(blocks, g) && Closed(more, g) && HeadsOk(cfg, g, blocks, ix)
    requires forall x :: x in blocks ==> x in more && more[x] == blocks[x]
    ensures HeadsOk(cfg, g, more, ix)
  {
    hide Closed, Anc, Descends, Edge;
    forall k: nat | 0 < k < ix.stored ensures Link(cfg, g, more, ix.heads, k) {
      assert Link(cfg, g, blocks, ix.heads, k);
      DescendsExtends(blocks, more, g, ix.heads[k - 1], Edge(cfg.size, k), ix.heads[k], Edge(cfg.size, k + 1));
    }
  }

  lemma {:induction false} JobExtends(cfg: Config, g: Hash, blocks: Blocks, more: Blocks, ix: Indexer, job: Job)
    requires Closed(blocks, g) && Closed(more, g) && JobOk(cfg, g, blocks, ix, job)
    requires forall x :: x in blocks ==> x in more && more[x] == blocks[x]
    ensures JobOk(cfg, g, more, ix, job)
  {
    hide Closed, Anc, Descends, Edge;
    if job.Running? {
      DescendsExtends(blocks, more, g, job.oldHead, Edge(cfg.size, job.section), job.lastHead, job.next);
    }
  }

  lemma {:induction false} StoreBlockKeeps(cfg: Config, g: Hash, s: State, b: Block)
    requires cfg.size > 0 && Inv(cfg, g, s) && Enabled(cfg, s, StoreBlock(b))
    ensures Inv(cfg, g, Next(cfg, s, StoreBlock(b)))
  {
    hide Closed, HeadsOk, JobOk;
    StoredClosed(s.blocks, g, b);
    HeadsExtend(cfg, g, s.blocks, s.blocks[b.hash := b], s.ix);
    JobExtends(cfg, g, s.blocks, s.blocks[b.hash := b], s.ix, s.job);
  }

  /** Dropping sections keeps the path, and takes away the head a section in progress builds on. */
  lemma {:induction false} TruncateKeeps(cfg: Config, g: Hash, s: State, sections: nat)
    requires Inv(cfg, g, s) && sections <= s.ix.stored
    ensures Inv(cfg, g, s.(ix := Truncated(s.ix, sections)))
  {
    var ix' := Truncated(s.ix, sections);
    assert forall k: nat :: k in ix'.heads <==> k < sections;
    assert forall k: nat :: k < sections ==> ix'.heads[k] == s.ix.heads[k];
    forall k: nat | 0 < k < sections ensures Link(cfg, g, s.blocks, ix'.heads, k) {
      assert Link(cfg, g, s.blocks, s.ix.heads, k);
    }
  }

  lemma {:induction false} NotifyKeeps(cfg: Config, g: Hash, s: State, head: nat, reorg: bool)
    requires cfg.size > 0 && Inv(cfg, g, s) && head < UINT64_MAX
    ensures Inv(cfg, g, Next(cfg, s, Notify(head, reorg)))
  {
    hide Closed, Descends, EndsAt, HeadOf;
    if reorg {
      if head / cfg.size < s.ix.stored { TruncateKeeps(cfg, g, s, head / cfg.size); }
    } else if head >= cfg.confirms {
      QuotientBound(head + 1 - cfg.confirms, cfg.size);
    }
  }

  lemma {:induction false} QuotientBound(n: nat, size: nat)
    requires size > 0
    ensures n / size <= n
  {
    EdgeIsProduct(size, n / size);
    EdgeAtLeast(size, n / size);
  }

  lemma {:induction false} EdgeAtLeast(size: nat, k: nat)
    requires size > 0
    ensures k <= Edge(size, k)
  {
    if k > 0 { EdgeAtLeast(size, k - 1); }
  }

  lemma {:induction false} BeginKeeps(cfg: Config, g: Hash, s: State)
    requires cfg.size > 0 && Inv(cfg, g, s) && Enabled(cfg, s, Begin)
    ensures Inv(cfg, g, Next(cfg, s, Begin))
  {
    EdgeIsProduct(cfg.size, s.ix.stored);
    if s.ix.stored > 0 { var h := s.ix.heads[s.ix.stored - 1]; }
  }

  /** A header read in sequence continues the path. */
  lemma {:induction false} ReadKeeps(cfg: Config, g: Hash, s: State)
    requires cfg.size > 0 && Inv(cfg, g, s) && Enabled(cfg, s, Read)
    ensures Inv(cfg, g, Next(cfg, s, Read))
  {
    var job := s.job;
    var job' := ReadNext(s.blocks, s.canon, job);
    if job'.Running? {
      ReadDescends(s.blocks, g, job.oldHead, Edge(cfg.size, job.section), job.lastHead, job.next, s.canon[job.next]);
    }
  }

  lemma {:induction false} ReadDescends(blocks: Blocks, g: Hash, o: Hash, m: nat, last: Hash, n: nat, h: Hash)
    requires Headers(blocks, g) && Descends(blocks, g, o, m, last, n)
    requires h in blocks && blocks[h].number == n && blocks[h].parent == last
    ensures Descends(blocks, g, o, m, h, n + 1)
  {
    if m > 0 {
      assert Hangs(blocks, blocks[h]);
    }
  }

  lemma {:induction false} FinishKeeps(cfg: Config, g: Hash, s: State)
    requires cfg.size > 0 && Inv(cfg, g, s) && Enabled(cfg, s, Finish)
    ensures Inv(cfg, g, Next(cfg, s, Finish))
    ensures Accepted(cfg, s.ix, s.job) ==> s.ix.stored == s.job.section
  {
    if Accepted(cfg, s.ix, s.job) {
      AcceptedIsLive(cfg, g, s);
      AppendKeeps(cfg, g, s.blocks, s.ix, s.job);
    }
  }

  /** The check on the previous head passes only if no section was dropped since the start. */
  lemma {:induction false} AcceptedIsLive(cfg: Config, g: Hash, s: State)
    requires cfg.size > 0 && Inv(cfg, g, s) && Accepted(cfg, s.ix, s.job)
    ensures s.ix.stored == s.job.section
  {
    EdgeAtLeast(cfg.size, s.job.section);
    assert Before(s.job.section) in s.ix.heads <==> Before(s.job.section) < s.ix.stored;
  }

  lemma {:induction false} AppendedHeads(cfg: Config, ix: Indexer, job: Job)
    requires cfg.size > 0 && Accepted(cfg, ix, job) && ix.stored == job.section
    requires forall k: nat :: k in ix.heads <==> k < ix.stored
    ensures var ix' := Finished(cfg, ix, job);
      && ix'.stored == ix.stored + 1 && ix'.known == ix.known
      && (forall k: nat :: k in ix'.heads <==> k < ix'.stored)
      && (forall k: nat :: k < ix'.stored ==> ix'.heads[k] == if k < ix.stored then ix.heads[k] else job.lastHead)
  {
  }

  lemma {:induction false} AppendKeeps(cfg: Config, g: Hash, blocks: Blocks, ix: Indexer, job: Job)
    requires cfg.size > 0 && Headers(blocks, g) && HeadsOk(cfg, g, blocks, ix) && JobOk(cfg, g, blocks, ix, job)
    requires Accepted(cfg, ix, job) && ix.stored == job.section
    ensures HeadsOk(cfg, g, blocks, Finished(cfg, ix, job))
    ensures var ix' := Finished(cfg, ix, job);
      && ix'.stored == ix.stored + 1
      && forall k: nat :: k <= ix.stored ==>
           k in ix'.heads && ix'.heads[k] == if k < ix.stored then ix.heads[k] else job.lastHead
  {
    hide Closed, Anc, Finished, Edge;
    AppendedHeads(cfg, ix, job);
    LastDescends(blocks, g, job.oldHead, Edge(cfg.size, job.section), job.lastHead, job.next);
    hide Descends, EndsAt;
    var ix' := Finished(cfg, ix, job);
    forall k: nat | 0 < k < ix'.stored ensures Link(cfg, g, blocks, ix'.heads, k) {
      if k < ix.stored { assert Link(cfg, g, blocks, ix.heads, k); }
    }
  }

  lemma {:induction false} LastDescends(blocks: Blocks, g: Hash, o: Hash, m: nat, h: Hash, n: nat)
    requires Closed(blocks, g) && Descends(blocks, g, o, m, h, n)
    ensures EndsAt(blocks, h, n)
  {
  }

  lemma {:induction false} StepKeeps(cfg: Config, g: Hash, s: State, step: Step)
    requires cfg.size > 0 && Inv(cfg, g, s) && Enabled(cfg, s, step)
    ensures Inv(cfg, g, Next(cfg, s, step))
  {
    match step
    case StoreBlock(b) => StoreBlockKeeps(cfg, g, s, b);
    case Rewire(_) =>
    case Notify(head, reorg) => NotifyKeeps(cfg, g, s, head, reorg);
    case Begin => BeginKeeps(cfg, g, s);
    case ResetFails => TruncateKeeps(cfg, g, s, 0);
    case Read => ReadKeeps(cfg, g, s);
    case CommitFails =>
    case Finish => FinishKeeps(cfg, g, s);
  }

  ghost predicate Init(g: Hash, s: State) {
    && Headers(s.blocks, g) && s.ix == Indexer(0, 0, 0, map[]) && s.job == Idle
  }

  ghost predicate IsRun(cfg: Config, run: seq<State>, steps: seq<Step>)
    requires cfg.size > 0
  {
    && |run| == |steps| + 1
    && forall i :: 0 <= i < |steps| ==> Enabled(cfg, run[i], steps[i]) && run[i + 1] == Next(cfg, run[i], steps[i])
  }

  lemma {:induction false} RunKeeps(cfg: Config, g: Hash, run: seq<State>, steps: seq<Step>, i: nat)
    requires cfg.size > 0 && IsRun(cfg, run, steps) && Init(g, run[0]) && i < |run|
    ensures Inv(cfg, g, run[i])
  {
    if i > 0 {
      RunKeeps(cfg, g, run, steps, i - 1);
      StepKeeps(cfg, g, run[i - 1], steps[i - 1]);
    }
  }

  /** The earlier section head is an ancestor of the later. */
  ghost predicate OnePath(cfg: Config, g: Hash, blocks: Blocks, heads: map<nat, Hash>, j: nat, k: nat) {
    && Closed(blocks, g) && j in heads && k in heads && heads[k] in blocks
    && blocks[heads[k]].number == Edge(cfg.size, k + 1) - 1 && 0 < Edge(cfg.size, j + 1) <= Edge(cfg.size, k + 1)
    && Anc(blocks, g, heads[k], Edge(cfg.size, j + 1) - 1) == heads[j]
  }

  lemma {:induction false} PathExtends(cfg: Config, g: Hash, blocks: Blocks, heads: map<nat, Hash>, j: nat, k: nat)
    requires k > 0 && OnePath(cfg, g, blocks, heads, j, k - 1) && k in heads
    requires Descends(blocks, g, heads[k - 1], Edge(cfg.size, k), heads[k], Edge(cfg.size, k + 1))
    ensures OnePath(cfg, g, blocks, heads, j, k)
  {
    AncOfAnc(blocks, g, heads[k], Edge(cfg.size, k) - 1, Edge(cfg.size, j + 1) - 1);
  }

  lemma {:induction false} PathOf(cfg: Config, g: Hash, s: State, j: nat, k: nat)
    requires cfg.size > 0 && Inv(cfg, g, s) && j <= k < s.ix.stored
    ensures OnePath(cfg, g, s.blocks, s.ix.heads, j, k)
  {
    var h := s.ix.heads[k];
    if j < k {
      PathOf(cfg, g, s, j, k - 1);
      assert Link(cfg, g, s.blocks, s.ix.heads, k);
      PathExtends(cfg, g, s.blocks, s.ix.heads, j, k);
    }
  }

  /** In every run, with reorgs and index changes landing anywhere inside a section's processing: the stored
      section heads are headers at the last block of their sections, and the earlier are ancestors of the later. */
  lemma {:induction false} SectionHeadsFormOnePath(cfg: Config, g: Hash, run: seq<State>, steps: seq<Step>, i: nat,
                                                   j: nat, k: nat)
    requires cfg.size > 0 && IsRun(cfg, run, steps) && Init(g, run[0]) && i < |run|
    requires j <= k < run[i].ix.stored
    ensures OnePath(cfg, g, run[i].blocks, run[i].ix.heads, j, k)
  {
    RunKeeps(cfg, g, run, steps, i);
    PathOf(cfg, g, run[i], j, k);
  }

  // Canonical heads

  /** A chain switch and its notification in one step: `eventLoop` on a new head `to`. */
  ghost function Switched(cfg: Config, g: Hash, s: State, head: Hash, to: Hash): State
    requires cfg.size > 0 && Closed(s.blocks, g) && head in s.blocks && to in s.blocks
  {
    var ix := if s.blocks[to].parent != head then Notified(cfg, s.ix, Common(s.blocks, g, head, to), true) else s.ix;
    s.(canon := CanonOf(s.blocks, g, to), ix := Notified(cfg, ix, s.blocks[to].number, false))
  }

  /** The common ancestor lies in the section that has been read completely but is not stored yet, before the
      section's last block. */
  ghost predicate Late(cfg: Config, g: Hash, s: State, head: Hash, to: Hash)
    requires Closed(s.blocks, g) && head in s.blocks && to in s.blocks
  {
    && Complete(cfg, s.job) && s.blocks[to].parent != head
    && Edge(cfg.size, s.job.section) <= Common(s.blocks, g, head, to) < Edge(cfg.size, s.job.section + 1) - 1
  }

  ghost predicate CanonicalAt(g: Hash, blocks: Blocks, head: Hash, h: Hash, n: nat)
    requires Closed(blocks, g) && head in blocks
  {
    0 < n <= blocks[head].number + 1 && h == Anc(blocks, g, head, n - 1)
  }

  ghost predicate HeadsCanonical(cfg: Config, g: Hash, s: State, head: Hash)
    requires Closed(s.blocks, g) && head in s.blocks
  {
    forall k: nat {:trigger s.ix.heads[k]} :: k < s.ix.stored ==>
      k in s.ix.heads && CanonicalAt(g, s.blocks, head, s.ix.heads[k], Edge(cfg.size, k + 1))
  }

  /** A section completely read and still valid ends in a canonical block. */
  ghost predicate JobCanonical(cfg: Config, g: Hash, s: State, head: Hash)
    requires Closed(s.blocks, g) && head in s.blocks
  {
    Complete(cfg, s.job) && s.ix.stored == s.job.section ==>
      CanonicalAt(g, s.blocks, head, s.job.lastHead, Edge(cfg.size, s.job.section + 1))
  }

  ghost predicate Canonical(cfg: Config, g: Hash, s: State, head: Hash) {
    && Inv(cfg, g, s) && head in s.blocks && s.canon == CanonOf(s.blocks, g, head)
    && HeadsCanonical(cfg, g, s, head) && JobCanonical(cfg, g, s, head)
  }

  lemma {:induction false} CanonicalExtends(g: Hash, blocks: Blocks, more: Blocks, head: Hash, h: Hash, n: nat)
    requires Closed(blocks, g) && Closed(more, g) && head in blocks && CanonicalAt(g, blocks, head, h, n)
    requires forall x :: x in blocks ==> x in more && more[x] == blocks[x]
    ensures CanonicalAt(g, more, head, h, n)
  {
    AncExtends(blocks, more, g, head, n - 1);
  }

  lemma {:induction false} StoreBlockCanonical(cfg: Config, g: Hash, s: State, head: Hash, b: Block)
    requires cfg.size > 0 && Canonical(cfg, g, s, head) && Enabled(cfg, s, StoreBlock(b))
    ensures Canonical(cfg, g, Next(cfg, s, StoreBlock(b)), head)
  {
    hide Descends, EndsAt, HeadOf;
    StoreBlockKeeps(cfg, g, s, b);
    var more := s.blocks[b.hash := b];
    forall k: nat | k < s.ix.stored ensures CanonicalAt(g, more, head, s.ix.heads[k], Edge(cfg.size, k + 1)) {
      CanonicalExtends(g, s.blocks, more, head, s.ix.heads[k], Edge(cfg.size, k + 1));
    }
    if Complete(cfg, s.job) && s.ix.stored == s.job.section {
      CanonicalExtends(g, s.blocks, more, head, s.job.lastHead, Edge(cfg.size, s.job.section + 1));
    }
    SameCanon(s.blocks, more, g, head);
  }

  lemma {:induction false} ReadCanonical(cfg: Config, g: Hash, s: State, head: Hash)
    requires cfg.size > 0 && Canonical(cfg, g, s, head) && Enabled(cfg, s, Read)
    ensures Canonical(cfg, g, Next(cfg, s, Read), head)
  {
    ReadKeeps(cfg, g, s);
  }

  lemma {:induction false} BeginCanonical(cfg: Config, g: Hash, s: State, head: Hash)
    requires cfg.size > 0 && Canonical(cfg, g, s, head) && Enabled(cfg, s, Begin)
    ensures Canonical(cfg, g, Next(cfg, s, Begin), head)
  {
    BeginKeeps(cfg, g, s);
  }

  lemma {:induction false} ResetCanonical(cfg: Config, g: Hash, s: State, head: Hash)
    requires cfg.size > 0 && Canonical(cfg, g, s, head) && Enabled(cfg, s, ResetFails)
    ensures Canonical(cfg, g, Next(cfg, s, ResetFails), head)
  {
    TruncateKeeps(cfg, g, s, 0);
  }

  lemma {:induction false} FinishCanonical(cfg: Config, g: Hash, s: State, head: Hash)
    requires cfg.size > 0 && Canonical(cfg, g, s, head) && Enabled(cfg, s, Finish)
    ensures Canonical(cfg, g, Next(cfg, s, Finish), head)
  {
    hide Closed, Anc, Descends, EndsAt, Edge, CanonOf, CanonicalAt;
    FinishKeeps(cfg, g, s);
    if Accepted(cfg, s.ix, s.job) {
      AppendKeeps(cfg, g, s.blocks, s.ix, s.job);
    }
  }

  /** Below the common ancestor nothing changes, and sections above it are dropped. */
  lemma {:induction false} ReorgDrops(cfg: Config, g: Hash, s: State, c: nat)
    requires cfg.size > 0 && Inv(cfg, g, s)
    ensures var ix := Notified(cfg, s.ix, c, true);
      && ix.stored <= s.ix.stored && Edge(cfg.size, ix.stored) <= c
      && (forall k: nat :: k < ix.stored ==> k in ix.heads && ix.heads[k] == s.ix.heads[k])
      && (ix.stored < s.ix.stored ==> c < Edge(cfg.size, s.ix.stored))
  {
    SectionOf(cfg.size, c);
    var ix := Notified(cfg, s.ix, c, true);
    EdgesGrow(cfg.size, ix.stored, c / cfg.size);
    if ix.stored < s.ix.stored { EdgesGrow(cfg.size, c / cfg.size + 1, s.ix.stored); }
  }

  lemma {:induction false} SwitchKeepsInv(cfg: Config, g: Hash, s: State, head: Hash, to: Hash)
    requires cfg.size > 0 && Canonical(cfg, g, s, head) && to in s.blocks
    requires s.blocks[to].number < UINT64_MAX && s.blocks[head].number < UINT64_MAX
    ensures Inv(cfg, g, Switched(cfg, g, s, head, to))
  {
    var c := Common(s.blocks, g, head, to);
    if s.blocks[to].parent != head {
      NotifyKeeps(cfg, g, s, c, true);
      NotifyKeeps(cfg, g, s.(ix := Notified(cfg, s.ix, c, true)), s.blocks[to].number, false);
    } else {
      NotifyKeeps(cfg, g, s, s.blocks[to].number, false);
    }
  }

  /** Up to the common ancestor, or up to the old head when the new one extends it. */
  lemma {:induction false} StaysCanonical(g: Hash, blocks: Blocks, head: Hash, to: Hash, h: Hash, n: nat)
    requires Closed(blocks, g) && head in blocks && to in blocks && to != g && CanonicalAt(g, blocks, head, h, n)
    requires blocks[to].parent == head || n <= Common(blocks, g, head, to) + 1
    ensures CanonicalAt(g, blocks, to, h, n)
  {
    assert Hangs(blocks, blocks[to]);
    if blocks[to].parent != head { BelowCommon(blocks, g, head, to, n - 1); }
  }

  lemma {:induction false} SwitchCanonical(cfg: Config, g: Hash, s: State, head: Hash, to: Hash)
    requires cfg.size > 0 && Canonical(cfg, g, s, head) && to in s.blocks && to != g && !Late(cfg, g, s, head, to)
    requires s.blocks[to].number < UINT64_MAX && s.blocks[head].number < UINT64_MAX
    ensures Canonical(cfg, g, Switched(cfg, g, s, head, to), to)
  {
    hide Closed, Anc, Descends, EndsAt, Edge, CanonicalAt, Common;
    SwitchKeepsInv(cfg, g, s, head, to);
    var s', c := Switched(cfg, g, s, head, to), Common(s.blocks, g, head, to);
    ReorgDrops(cfg, g, s, c);
    forall k: nat | k < s'.ix.stored
      ensures k in s'.ix.heads && CanonicalAt(g, s.blocks, to, s'.ix.heads[k], Edge(cfg.size, k + 1))
    {
      EdgesGrow(cfg.size, k + 1, s'.ix.stored);
      StaysCanonical(g, s.blocks, head, to, s.ix.heads[k], Edge(cfg.size, k + 1));
    }
    if Complete(cfg, s.job) && s'.ix.stored == s.job.section {
      StaysCanonical(g, s.blocks, head, to, s.job.lastHead, Edge(cfg.size, s.job.section + 1));
    }
  }

  /** What may happen when switching and notification are one step. */
  datatype Event = Local(step: Step) | Switch(to: Hash)

  datatype World = World(s: State, head: Hash)

  ghost predicate Possible(cfg: Config, g: Hash, w: World, e: Event)
    requires cfg.size > 0
  {
    match e
    case Local(step) => !step.Rewire? && !step.Notify? && Enabled(cfg, w.s, step)
    case Switch(to) =>
      && Closed(w.s.blocks, g) && w.head in w.s.blocks && to in w.s.blocks && to != g
      && w.s.blocks[to].number < UINT64_MAX && w.s.blocks[w.head].number < UINT64_MAX
  }

  ghost function After(cfg: Config, g: Hash, w: World, e: Event): World
    requires cfg.size > 0 && Possible(cfg, g, w, e)
  {
    match e
    case Local(step) => w.(s := Next(cfg, w.s, step))
    case Switch(to) => World(Switched(cfg, g, w.s, w.head, to), to)
  }

  ghost predicate Timely(cfg: Config, g: Hash, w: World, e: Event)
    requires cfg.size > 0 && Possible(cfg, g, w, e)
  {
    e.Switch? ==> !Late(cfg, g, w.s, w.head, e.to)
  }

  ghost predicate Starts(g: Hash, w: World) {
    Init(g, w.s) && w.head in w.s.blocks && w.s.canon == CanonOf(w.s.blocks, g, w.head)
  }

  ghost predicate IsHistory(cfg: Config, g: Hash, ws: seq<World>, es: seq<Event>)
    requires cfg.size > 0
  {
    && |ws| == |es| + 1
    && forall i :: 0 <= i < |es| ==>
         Possible(cfg, g, ws[i], es[i]) && Timely(cfg, g, ws[i], es[i]) && ws[i + 1] == After(cfg, g, ws[i], es[i])
  }

  lemma {:induction false} EventKeeps(cfg: Config, g: Hash, w: World, e: Event)
    requires cfg.size > 0 && Canonical(cfg, g, w.s, w.head) && Possible(cfg, g, w, e) && Timely(cfg, g, w, e)
    ensures var w' := After(cfg, g, w, e); Canonical(cfg, g, w'.s, w'.head)
  {
    match e
    case Switch(to) => SwitchCanonical(cfg, g, w.s, w.head, to);
    case Local(step) =>
      match step
      case StoreBlock(b) => StoreBlockCanonical(cfg, g, w.s, w.head, b);
      case Begin => BeginCanonical(cfg, g, w.s, w.head);
      case ResetFails => ResetCanonical(cfg, g, w.s, w.head);
      case Read => ReadCanonical(cfg, g, w.s, w.head);
      case CommitFails =>
      case Finish => FinishCanonical(cfg, g, w.s, w.head);
  }

  /** In every history without a late reorg each stored section head is the canonical hash at the last block
      of its section. Reorgs while a section is being read do no harm: the next read notices them. */
  lemma {:induction false} SectionHeadsAreCanonical(cfg: Config, g: Hash, ws: seq<World>, es: seq<Event>, i: nat)
    requires cfg.size > 0 && IsHistory(cfg, g, ws, es) && Starts(g, ws[0]) && i < |ws|
    ensures Canonical(cfg, g, ws[i].s, ws[i].head)
    ensures forall k: nat :: k < ws[i].s.ix.stored ==> MatchesIndex(cfg, ws[i].s, k)
  {
    if i > 0 {
      SectionHeadsAreCanonical(cfg, g, ws, es, i - 1);
      EventKeeps(cfg, g, ws[i - 1], es[i - 1]);
    }
    CanonicalMatches(cfg, g, ws[i].s, ws[i].head);
  }

  /** The head of section `k` is what the canonical index holds for the last block of the section. */
  ghost predicate MatchesIndex(cfg: Config, s: State, k: nat) {
    && k in s.ix.heads && Edge(cfg.size, k + 1) > 0 && Edge(cfg.size, k + 1) - 1 in s.canon
    && s.ix.heads[k] == s.canon[Edge(cfg.size, k + 1) - 1]
  }

  lemma {:induction false} CanonicalMatches(cfg: Config, g: Hash, s: State, head: Hash)
    requires cfg.size > 0 && Canonical(cfg, g, s, head)
    ensures forall k: nat :: k < s.ix.stored ==> MatchesIndex(cfg, s, k)
  {
    forall k: nat | k < s.ix.stored ensures MatchesIndex(cfg, s, k) {
      var h := s.ix.heads[k];
      assert CanonicalAt(g, s.blocks, head, h, Edge(cfg.size, k + 1));
    }
  }

  /** The exact condition: when a reorg comes between the last read and the storage of a section, the heads
      stored afterwards are canonical if and only if the reorg is not late. */
  lemma {:induction false} LateReorgGoesUnnoticed(cfg: Config, g: Hash, s: State, head: Hash, to: Hash)
    requires cfg.size > 0 && Canonical(cfg, g, s, head) && Accepted(cfg, s.ix, s.job) && to in s.blocks && to != g
    requires s.blocks[to].number < UINT64_MAX && s.blocks[head].number < UINT64_MAX
    ensures Enabled(cfg, Switched(cfg, g, s, head, to), Finish)
    ensures HeadsCanonical(cfg, g, Next(cfg, Switched(cfg, g, s, head, to), Finish), to) <==> !Late(cfg, g, s, head, to)
  {
    var s' := Switched(cfg, g, s, head, to);
    AcceptedIsLive(cfg, g, s);
    if Late(cfg, g, s, head, to) {
      LateHeadIsStored(cfg, g, s, head, to);
    } else {
      SwitchCanonical(cfg, g, s, head, to);
      FinishCanonical(cfg, g, s', to);
    }
  }

  /** A late reorg drops no section, so the finished section still counts as undisturbed. */
  lemma {:induction false} LateKeepsSections(cfg: Config, g: Hash, s: State, head: Hash, to: Hash)
    requires cfg.size > 0 && Canonical(cfg, g, s, head) && Complete(cfg, s.job) && s.ix.stored == s.job.section
    requires to in s.blocks && Late(cfg, g, s, head, to)
    ensures var ix := Switched(cfg, g, s, head, to).ix; ix.stored == s.ix.stored && ix.heads == s.ix.heads
  {
    hide Closed, Anc, Descends, EndsAt, CanonOf;
    ReorgDrops(cfg, g, s, Common(s.blocks, g, head, to));
  }

  lemma {:induction false} LateLeavesChain(g: Hash, blocks: Blocks, head: Hash, to: Hash, h: Hash, n: nat)
    requires Closed(blocks, g) && head in blocks && to in blocks && CanonicalAt(g, blocks, head, h, n)
    requires Common(blocks, g, head, to) < n - 1
    ensures !CanonicalAt(g, blocks, to, h, n)
  {
  }

  lemma {:induction false} LateHeadIsStored(cfg: Config, g: Hash, s: State, head: Hash, to: Hash)
    requires cfg.size > 0 && Canonical(cfg, g, s, head) && Accepted(cfg, s.ix, s.job) && s.ix.stored == s.job.section
    requires to in s.blocks && Late(cfg, g, s, head, to)
    requires s.blocks[to].number < UINT64_MAX && s.blocks[head].number < UINT64_MAX
    ensures !HeadsCanonical(cfg, g, Next(cfg, Switched(cfg, g, s, head, to), Finish), to)
  {
    hide Closed, Anc, Descends, EndsAt, CanonOf, Common, CanonicalAt, Finished, Notified;
    var s' := Switched(cfg, g, s, head, to);
    SwitchKeepsInv(cfg, g, s, head, to);
    LateKeepsSections(cfg, g, s, head, to);
    LateLeavesChain(g, s.blocks, head, to, s.job.lastHead, Edge(cfg.size, s.job.section + 1));
    AppendKeeps(cfg, g, s.blocks, s'.ix, s.job);
    assert Next(cfg, s', Finish).ix.heads[s.job.section] == s.job.lastHead;
  }

  // A late reorg can happen

  /** Two blocks on the genesis block. */
  function Forked(): Blocks {
    map[1 := Block(1, ZERO, 0, 1, []), 2 := Block(2, 1, 1, 1, []), 3 := Block(3, 1, 1, 1, [])]
  }

  lemma {:induction false} ForkedIsClosed()
    ensures Headers(Forked(), 1)
  {
    assert Hangs(Forked(), Forked()[2]) && Hangs(Forked(), Forked()[3]);
  }

  lemma {:induction false} ForkedAncestors()
    requires Headers(Forked(), 1)
    ensures CanonOf(Forked(), 1, 1) == map[0 := 1]
    ensures CanonOf(Forked(), 1, 2) == map[0 := 1, 1 := 2]
    ensures Common(Forked(), 1, 2, 3) == 0
  {
    assert Anc(Forked(), 1, 2, 0) == 1 && Anc(Forked(), 1, 2, 1) == 2 && Anc(Forked(), 1, 3, 1) == 3;
    assert Common(Forked(), 1, 2, 3) <= 1;
  }

  /** Sections of two blocks, confirmed at once. */
  const PAIRS: Config := Config(2, 0)

  /** The world with `head` at the top while section 0 is pending. */
  function Pending(canon: map<nat, Hash>, known: nat, job: Job, head: Hash): World {
    World(State(Forked(), canon, Indexer(0, known, 0, map[]), job), head)
  }

  /** Genesis, then block 2, then both blocks of section 0 are read. */
  function ForkedHistory(): seq<World> {
    var canon := map[0 := 1, 1 := 2];
    [Pending(map[0 := 1], 0, Idle, 1), Pending(canon, 1, Idle, 2), Pending(canon, 1, Running(0, ZERO, 0, ZERO), 2),
     Pending(canon, 1, Running(0, ZERO, 1, 1), 2), Pending(canon, 1, Running(0, ZERO, 2, 2), 2)]
  }

  lemma {:induction false} ForkedSwitch()
    requires Headers(Forked(), 1)
    ensures var w, e := ForkedHistory()[0], Switch(2);
      && Possible(PAIRS, 1, w, e) && Timely(PAIRS, 1, w, e) && After(PAIRS, 1, w, e) == ForkedHistory()[1]
  {
    ForkedAncestors();
    assert Notified(PAIRS, Indexer(0, 0, 0, map[]), 1, false) == Indexer(0, 1, 0, map[]);
  }

  lemma {:induction false} ForkedReads(i: nat)
    requires 1 <= i <= 3
    ensures var w, e := ForkedHistory()[i], Local(if i == 1 then Begin else Read);
      && Possible(PAIRS, 1, w, e) && Timely(PAIRS, 1, w, e) && After(PAIRS, 1, w, e) == ForkedHistory()[i + 1]
  {
    assert Edge(2, 0) == 0 && Edge(2, 1) == Edge(2, 0) + 2;
    assert Forked()[1].parent == ZERO && Forked()[2].parent == 1;
  }

  lemma {:induction false} ForkedIsHistory() returns (ws: seq<World>, es: seq<Event>)
    requires Headers(Forked(), 1)
    ensures ws == ForkedHistory() && IsHistory(PAIRS, 1, ws, es) && Starts(1, ws[0])
  {
    ForkedAncestors();
    ForkedSwitch();
    ForkedReads(1);
    ForkedReads(2);
    ForkedReads(3);
    ws, es := ForkedHistory(), [Switch(2), Local(Begin), Local(Read), Local(Read)];
  }

  lemma {:induction false} ForkedLate()
    requires Headers(Forked(), 1)
    ensures var w := ForkedHistory()[4];
      && Possible(PAIRS, 1, w, Switch(3)) && !Timely(PAIRS, 1, w, Switch(3)) && Accepted(PAIRS, w.s.ix, w.s.job)
      && w.head == 2
  {
    ForkedAncestors();
    assert Edge(2, 1) == Edge(2, 0) + 2;
  }

  /** A history that ends with section 0 read completely and block 2 at the top. Switching to block 3 now is late, and
      the head stored for the section is not canonical afterwards. */
  lemma {:induction false} LateReorgHappens() returns (ws: seq<World>, es: seq<Event>)
    ensures IsHistory(PAIRS, 1, ws, es) && Starts(1, ws[0]) && |ws| == 5
    ensures var w := ws[4];
      && Possible(PAIRS, 1, w, Switch(3)) && !Timely(PAIRS, 1, w, Switch(3))
      && var s := Switched(PAIRS, 1, w.s, w.head, 3);
         Enabled(PAIRS, s, Finish) && !HeadsCanonical(PAIRS, 1, Next(PAIRS, s, Finish), 3)
  {
    hide Canonical, HeadsCanonical, Closed, Forked, IsHistory, Starts, Accepted, Next, Switched;
    ForkedIsClosed();
    ws, es := ForkedIsHistory();
    ForkedLate();
    SectionHeadsAreCanonical(PAIRS, 1, ws, es, 4);
    LateReorgGoesUnnoticed(PAIRS, 1, ws[4].s, 2, 3);
  }
}
