/** The section indexer of core/chain_indexer.go: its fields, its atomic steps, and the class that performs
    them. The lock is dropped while a section is processed, so everything between the start and the finish of
    a section interleaves with chain changes and notifications. */
module SectionIndex {
  import opened Options
  import opened ChainModel

  const ZERO: Hash := 0
  const UINT64_MAX: nat := 0xffff_ffff_ffff_ffff

  datatype Config = Config(size: nat, confirms: nat)

  datatype Indexer = Indexer(stored: nat, known: nat, cascaded: nat, heads: map<nat, Hash>)

  /** A section in progress, as the local variables of `updateLoop` and `processSection`. */
  datatype Job =
    | Idle
    | Running(section: nat, oldHead: Hash, next: nat, lastHead: Hash)
    | Failed(section: nat, oldHead: Hash)

  /** The first block number of section `k`. */
  function Edge(size: nat, k: nat): nat {
    if k == 0 then 0 else Edge(size, k - 1) + size
  }

  lemma {:induction false} EdgeIsProduct(size: nat, k: nat)
    ensures Edge(size, k) == k * size
  {
    if k > 0 { EdgeIsProduct(size, k - 1); }
  }

  lemma {:induction false} EdgesGrow(size: nat, j: nat, k: nat)
    requires j <= k
    ensures Edge(size, j) <= Edge(size, k)
  {
    if j < k { EdgesGrow(size, j, k - 1); }
  }

  /** Block `n` lies in section `n / size`. */
  lemma {:induction false} SectionOf(size: nat, n: nat)
    requires size > 0
    ensures Edge(size, n / size) <= n < Edge(size, n / size + 1)
  {
    EdgeIsProduct(size, n / size);
  }

  function HeadOf(heads: map<nat, Hash>, section: nat): Hash {
    if section in heads then heads[section] else ZERO
  }

  /** `section - 1` on 64-bit unsigned integers. */
  function Before(section: nat): nat {
    if section == 0 then UINT64_MAX else section - 1
  }

  /** `setValidSections`: drops the heads of sections that are no longer valid. */
  function Truncated(ix: Indexer, sections: nat): Indexer {
    ix.(stored := sections,
        heads := map k | k in ix.heads && !(sections <= k < ix.stored) :: ix.heads[k])
  }

  /** `newHead`. */
  function Notified(cfg: Config, ix: Indexer, head: nat, reorg: bool): Indexer
    requires cfg.size > 0
  {
    if reorg then
      var changed := head / cfg.size;
      var cut := if changed < ix.stored then Truncated(ix, changed) else ix;
      cut.(known := Min(changed, ix.known), cascaded := Min(Edge(cfg.size, changed), ix.cascaded))
    else if head >= cfg.confirms && (head + 1 - cfg.confirms) / cfg.size > ix.known then
      ix.(known := (head + 1 - cfg.confirms) / cfg.size)
    else ix
  }

  function Started(cfg: Config, ix: Indexer): Job {
    var oldHead := if ix.stored > 0 then HeadOf(ix.heads, ix.stored - 1) else ZERO;
    Running(ix.stored, oldHead, Edge(cfg.size, ix.stored), oldHead)
  }

  /** One iteration of `processSection`, on the canonical index as it is at that moment. */
  function ReadNext(blocks: Blocks, canon: map<nat, Hash>, job: Job): Job
    requires job.Running?
  {
    if job.next !in canon then Failed(job.section, job.oldHead)
    else
      var h := canon[job.next];
      if h !in blocks || blocks[h].number != job.next || blocks[h].parent != job.lastHead then
        Failed(job.section, job.oldHead)
      else job.(next := job.next + 1, lastHead := blocks[h].hash)
  }

  predicate Complete(cfg: Config, job: Job) {
    job.Running? && job.next == Edge(cfg.size, job.section + 1)
  }

  predicate Accepted(cfg: Config, ix: Indexer, job: Job) {
    Complete(cfg, job) && job.oldHead == HeadOf(ix.heads, Before(job.section))
  }

  function Finished(cfg: Config, ix: Indexer, job: Job): Indexer
    requires cfg.size > 0
  {
    if Accepted(cfg, ix, job) then
      Truncated(ix.(heads := ix.heads[job.section := job.lastHead]), job.section + 1)
        .(cascaded := Edge(cfg.size, job.section + 1) - 1)
    else ix.(known := ix.stored)
  }

  /** What `processSection` makes of a job when its reads see the index versions `views`. */
  function Reads(cfg: Config, blocks: Blocks, views: nat -> map<nat, Hash>, job: Job): Job
    decreases if job.Running? then Edge(cfg.size, job.section + 1) - job.next else 0
  {
    if !job.Running? || job.next >= Edge(cfg.size, job.section + 1) then job
    else Reads(cfg, blocks, views, ReadNext(blocks, views(job.next), job))
  }

  class ChainIndexer {
    const cfg: Config
    var storedSections: nat
    var knownSections: nat
    var cascadedHead: nat
    var sectionHeads: map<nat, Hash>

    ghost function View(): Indexer
      reads this
    {
      Indexer(storedSections, knownSections, cascadedHead, sectionHeads)
    }

    constructor (sectionSize: nat, confirms: nat)
      requires sectionSize > 0
      ensures cfg == Config(sectionSize, confirms) && View() == Indexer(0, 0, 0, map[])
    {
      cfg := Config(sectionSize, confirms);
      storedSections, knownSections, cascadedHead, sectionHeads := 0, 0, 0, map[];
    }

    method SetValidSections(sections: nat)
      modifies this`storedSections, this`sectionHeads
      ensures View() == Truncated(old(View()), sections)
    {
      while storedSections > sections
        invariant storedSections <= old(storedSections)
        invariant storedSections >= sections || storedSections == old(storedSections)
        invariant forall k ::
          k in sectionHeads <==> k in old(sectionHeads) && !(storedSections <= k < old(storedSections))
        invariant forall k :: k in sectionHeads ==> sectionHeads[k] == old(sectionHeads)[k]
      {
        storedSections := storedSections - 1;
        sectionHeads := sectionHeads - {storedSections};
      }
      storedSections := sections;
      assert sectionHeads == Truncated(old(View()), sections).heads;
    }

    method NewHead(head: nat, reorg: bool)
      requires cfg.size > 0
      modifies this
      ensures View() == Notified(cfg, old(View()), head, reorg)
    {
      if reorg {
        var changed := head / cfg.size;
        if changed < knownSections {
          knownSections := changed;
        }
        if changed < storedSections {
          SetValidSections(changed);
        }
        EdgeIsProduct(cfg.size, changed);
        if changed * cfg.size < cascadedHead {
          cascadedHead := changed * cfg.size;
        }
        return;
      }
      if head >= cfg.confirms {
        var sections := (head + 1 - cfg.confirms) / cfg.size;
        if sections > knownSections {
          knownSections := sections;
        }
      }
    }

    /** Reads the canonical headers of a section one by one, each from the index as it is by then. */
    method ProcessSection(blocks: Blocks, views: nat -> map<nat,
                          Hash>, section: nat, oldHead: Hash) returns (newHead: Option<Hash>)
      requires forall h :: h in blocks ==> blocks[h].hash == h
      ensures var job := Reads(cfg, blocks, views, Running(section, oldHead, Edge(cfg.size, section), oldHead));
        newHead == if Complete(cfg, job) then Some(job.lastHead) else None
    {
      var lastHead := oldHead;
      EdgeIsProduct(cfg.size, section);
      EdgeIsProduct(cfg.size, section + 1);
      var number := section * cfg.size;
      ghost var whole := Reads(cfg, blocks, views, Running(section, oldHead, number, oldHead));
      while number < (section + 1) * cfg.size
        invariant number <= (section + 1) * cfg.size
        invariant whole == Reads(cfg, blocks, views, Running(section, oldHead, number, lastHead))
      {
        if number !in views(number) {
          return None;
        }
        var hash := views(number)[number];
        if hash !in blocks || blocks[hash].number != number || blocks[hash].parent != lastHead {
          return None;
        }
        lastHead := blocks[hash].hash;
        number := number + 1;
      }
      newHead := Some(lastHead);
    }

    /** The locked part of `updateLoop` before a section is processed. */
    method Begin() returns (section: nat, oldHead: Hash)
      requires knownSections > storedSections
      ensures Started(cfg, View()) == Running(section, oldHead, Edge(cfg.size, section), oldHead)
    {
      section, oldHead := storedSections, ZERO;
      if section > 0 {
        oldHead := if section - 1 in sectionHeads then sectionHeads[section - 1] else ZERO;
      }
    }

    /** The locked part of `updateLoop` after a section was processed. */
    method Finish(section: nat, oldHead: Hash, newHead: Option<Hash>)
      requires cfg.size > 0
      modifies this
      ensures View() == Finished(cfg, old(View()),
        if newHead.Some? then Running(section, oldHead, Edge(cfg.size, section + 1), newHead.value)
        else Failed(section, oldHead))
    {
      var before := if section == 0 then UINT64_MAX else section - 1;
      var current := if before in sectionHeads then sectionHeads[before] else ZERO;
      if newHead.Some? && oldHead == current {
        sectionHeads := sectionHeads[section := newHead.value];
        SetValidSections(section + 1);
        EdgeIsProduct(cfg.size, section + 1);
        cascadedHead := storedSections * cfg.size - 1;
      } else {
        knownSections := storedSections;
      }
    }
  }
}
