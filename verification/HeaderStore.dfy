/** `HeaderChain` of core/headerchain.go: head markers, the number index and the read caches. */
module HeaderStore {
  import opened Options
  import opened ChainModel

  /** All ancestors of `h` down to the genesis header are stored. */
  ghost predicate Rooted(headers: Blocks, g: Hash, h: Hash)
    decreases if h in headers then headers[h].number else 0
  {
    && h in headers && headers[h].hash == h
    && if h == g then headers[h].number == 0
       else headers[h].number > 0 && Hangs(headers, headers[h]) && Rooted(headers, g, headers[h].parent)
  }

  /** The stored headers that hang on the genesis header. Rewinding deletes only the current path, so other
      branches may lose theirs. */
  ghost function Attached(headers: Blocks, g: Hash): Blocks {
    map h | h in headers && Rooted(headers, g, h) :: headers[h]
  }

  lemma {:induction false} AttachedClosed(headers: Blocks, g: Hash)
    requires Rooted(headers, g, g)
    ensures Closed(Attached(headers, g), g)
  {
    var at := Attached(headers, g);
    forall h | h in at && h != g ensures Hangs(at, at[h]) {
      assert Rooted(headers, g, headers[h].parent);
    }
  }

  lemma {:induction false} RootedExtends(headers: Blocks, more: Blocks, g: Hash, h: Hash)
    requires Rooted(headers, g, h) && forall x :: x in headers ==> x in more && more[x] == headers[x]
    ensures Rooted(more, g, h)
    decreases headers[h].number
  {
    if h != g { RootedExtends(headers, more, g, headers[h].parent); }
  }

  /** The index is the ancestry of the head and nothing else. */
  ghost predicate IndexOf(headers: Blocks, g: Hash, canon: map<nat, Hash>, head: Hash) {
    && Rooted(headers, g, g) && Rooted(headers, g, head)
    && (AttachedClosed(headers, g); canon == CanonOf(Attached(headers, g), g, head))
  }

  /** Adding headers leaves the ancestry of attached ones alone. */
  lemma {:induction false} IndexExtends(headers: Blocks, more: Blocks, g: Hash, canon: map<nat, Hash>, head: Hash)
    requires IndexOf(headers, g, canon, head)
    requires forall x :: x in headers ==> x in more && more[x] == headers[x]
    ensures IndexOf(more, g, canon, head)
  {
    RootedExtends(headers, more, g, g);
    RootedExtends(headers, more, g, head);
    AttachedClosed(headers, g);
    AttachedClosed(more, g);
    var at, at' := Attached(headers, g), Attached(more, g);
    forall x | x in at ensures x in at' && at'[x] == at[x] { RootedExtends(headers, more, g, x); }
    forall n: nat | n <= headers[head].number ensures Anc(at', g, head, n) == Anc(at, g, head, n) {
      AncExtends(at, at', g, head, n);
    }
    assert CanonOf(at', g, head) == CanonOf(at, g, head);
  }

  /** A header does not attach one with a lower number. */
  lemma {:induction false} DetachedStays(headers: Blocks, g: Hash, header: Block, h: Hash)
    requires Rooted(headers[header.hash := header], g, h) && h in headers && headers[h].number < header.number
    requires header.hash in headers ==> headers[header.hash] == header
    requires forall x :: x in headers ==> headers[x].hash == x
    ensures Rooted(headers, g, h)
    decreases headers[h].number
  {
    var more := headers[header.hash := header];
    if header.hash in headers {
      assert more == headers;
    } else if h != g {
      assert Hangs(more, more[h]);
      DetachedStays(headers, g, header, more[h].parent);
    }
  }

  /** All headers that were ever stored, with their total difficulties: a hash names one header for good. */
  ghost predicate History(ever: Blocks, everTds: map<Hash, nat>, headers: Blocks, tds: map<Hash, nat>, g: Hash) {
    && Closed(ever, g)
    && (forall h :: h in ever ==> TdFollows(ever, everTds, g, h))
    && (forall h :: h in headers ==> h in ever && ever[h] == headers[h])
    && (forall h :: h in tds ==> h in everTds && tds[h] == everTds[h])
  }

  ghost predicate TdFollows(ever: Blocks, everTds: map<Hash, nat>, g: Hash, h: Hash)
    requires h in ever
  {
    h in everTds && (h != g ==> ever[h].parent in everTds && everTds[h] == everTds[ever[h].parent] + ever[h].difficulty)
  }

  /** A verified header: its number follows its parent's, and its hash is no other header's. */
  ghost predicate Verified(ever: Blocks, headers: Blocks, g: Hash, header: Block) {
    && header.number > 0 && header.hash != g
    && (header.hash in ever ==> ever[header.hash] == header)
    && (header.parent in headers ==> Hangs(headers, header))
  }

  lemma {:induction false} HistoryGrows(ever: Blocks, everTds: map<Hash, nat>, headers: Blocks, tds: map<Hash, nat>,
                                        g: Hash, header: Block)
    requires History(ever, everTds, headers, tds, g) && Verified(ever, headers, g, header)
    requires header.parent in headers && header.parent in tds
    ensures var td := tds[header.parent] + header.difficulty;
      && History(ever[header.hash := header], everTds[header.hash := td], headers[header.hash := header],
                 tds[header.hash := td], g)
      && (header.hash in headers ==> headers[header.hash] == header)
      && (header.hash in tds && header.hash in ever ==> tds[header.hash] == td)
  {
    var td := tds[header.parent] + header.difficulty;
    var ever', everTds' := ever[header.hash := header], everTds[header.hash := td];
    if header.hash in ever { assert TdFollows(ever, everTds, g, header.hash); }
    forall h | h in ever' ensures TdFollows(ever', everTds', g, h) {
      if h in ever {
        assert TdFollows(ever, everTds, g, h);
        if h != g { assert Hangs(ever, ever[h]); }
      }
    }
    forall h | h in ever' && h != g ensures Hangs(ever', ever'[h]) {
      if h in ever { assert Hangs(ever, ever[h]); }
    }
  }

  lemma {:induction false} HistoryDrops(ever: Blocks, everTds: map<Hash, nat>, headers: Blocks, tds: map<Hash, nat>,
                                        g: Hash, gone: set<Hash>)
    requires History(ever, everTds, headers, tds, g)
    ensures History(ever, everTds, headers - gone, tds - gone, g)
  {
  }

  // Walking down a branch that has lost its ancestry

  /** `h` has number `n`, whether it is still stored or not, and its ancestry is not. */
  ghost predicate Detached(ever: Blocks, headers: Blocks, g: Hash, h: Hash, n: nat) {
    h in ever && ever[h].number == n && !Rooted(headers, g, h)
  }

  lemma {:induction false} DetachedStep(ever: Blocks, headers: Blocks, g: Hash, h: Hash, n: nat)
    requires Closed(ever, g) && (forall x :: x in headers ==> x in ever && ever[x] == headers[x])
    requires Rooted(headers, g, g) && Detached(ever, headers, g, h, n) && h in headers
    ensures n > 0 && headers[h].number == n && Detached(ever, headers, g, headers[h].parent, n - 1)
  {
    assert h != g;
    assert Hangs(ever, ever[h]);
  }

  lemma {:induction false} DetachedNotIndexed(ever: Blocks, headers: Blocks, g: Hash, canon: map<nat, Hash>, head: Hash,
                                              h: Hash, n: nat)
    requires IndexOf(headers, g, canon, head) && Detached(ever, headers, g, h, n)
    ensures !(n in canon && canon[n] == h)
  {
    AttachedClosed(headers, g);
  }

  /** A cache of limited size keeps the new entry and may lose any other. */
  method CacheAdd<V>(cache: map<Hash, V>, limit: nat, h: Hash, v: V) returns (cache': map<Hash, V>)
    requires limit >= 1 && |cache| <= limit
    ensures h in cache' && cache'[h] == v && |cache'| <= limit
    ensures forall x :: x in cache' && x != h ==> x in cache && cache'[x] == cache[x]
  {
    cache' := cache[h := v];
    if |cache'| > limit {
      assert cache'.Keys - {h} == cache.Keys - {h};
      assert |cache'.Keys - {h}| >= 1;
      var victim :| victim in cache'.Keys - {h};
      cache' := cache' - {victim};
      assert cache'.Keys == cache[h := v].Keys - {victim};
    }
  }

  ghost predicate CachesAgree<V(!new)>(cache: map<Hash, V>, db: map<Hash, V>) {
    forall h :: h in cache ==> h in db && cache[h] == db[h]
  }

  const HEADER_CACHE_LIMIT: nat := 512
  const TD_CACHE_LIMIT: nat := 1024
  const NUMBER_CACHE_LIMIT: nat := 2048

  /** `NilDereference` is the panic of the walk below the new header. */
  datatype Status = UnknownAncestor | NilDereference | Canon | Side

  /** The database part: every header has a total difficulty and a number entry. */
  ghost predicate Consistent(headers: Blocks, tds: map<Hash, nat>, numbers: map<Hash, nat>) {
    && tds.Keys == headers.Keys && numbers.Keys == headers.Keys
    && forall h :: h in headers ==> headers[h].hash == h && numbers[h] == headers[h].number
  }

  lemma {:induction false} HasTd(headers: Blocks, tds: map<Hash, nat>, numbers: map<Hash, nat>, h: Hash)
    requires Consistent(headers, tds, numbers)
    ensures h in headers <==> h in tds
  {
    assert h in tds.Keys <==> h in headers.Keys;
  }

  lemma {:induction false} StoreConsistent(headers: Blocks, tds: map<Hash, nat>, numbers: map<Hash, nat>,
                                           header: Block, td: nat)
    requires Consistent(headers, tds, numbers) && (header.hash in headers ==> headers[header.hash] == header)
    ensures Consistent(headers[header.hash := header], tds[header.hash := td], numbers[header.hash := header.number])
    ensures header.hash in numbers ==> numbers[header.hash] == header.number
  {
    assert header.hash in numbers.Keys <==> header.hash in headers.Keys;
  }

  lemma {:induction false} StoreAgrees<V(!new)>(cache: map<Hash, V>, db: map<Hash, V>, h: Hash, v: V)
    requires CachesAgree(cache, db) && (h in db ==> db[h] == v)
    ensures CachesAgree(cache, db[h := v])
  {
  }

  /** The three caches agree with the database and keep to their sizes. */
  ghost predicate Caching(headerCache: map<Hash, Block>, tdCache: map<Hash, nat>, numberCache: map<Hash, nat>,
                          headers: Blocks, tds: map<Hash, nat>, numbers: map<Hash, nat>) {
    && CachesAgree(headerCache, headers) && |headerCache| <= HEADER_CACHE_LIMIT
    && CachesAgree(tdCache, tds) && |tdCache| <= TD_CACHE_LIMIT
    && CachesAgree(numberCache, numbers) && |numberCache| <= NUMBER_CACHE_LIMIT
  }

  lemma {:induction false} StoreCaching(headerCache: map<Hash, Block>, tdCache: map<Hash, nat>,
                                        numberCache: map<Hash, nat>, headers: Blocks, tds: map<Hash, nat>,
                                        numbers: map<Hash, nat>, header: Block, td: nat)
    requires Caching(headerCache, tdCache, numberCache, headers, tds, numbers)
    requires header.hash in headers ==> headers[header.hash] == header
    requires header.hash in tds ==> tds[header.hash] == td
    requires header.hash in numbers ==> numbers[header.hash] == header.number
    ensures Caching(headerCache, tdCache, numberCache, headers[header.hash := header], tds[header.hash := td],
                    numbers[header.hash := header.number])
  {
    hide CachesAgree;
    StoreAgrees(headerCache, headers, header.hash, header);
    StoreAgrees(tdCache, tds, header.hash, td);
    StoreAgrees(numberCache, numbers, header.hash, header.number);
  }

  lemma {:induction false} AddAgrees<V(!new)>(cache: map<Hash, V>, cache': map<Hash, V>, db: map<Hash, V>, h: Hash,
                                              v: V)
    requires CachesAgree(cache, db) && h in db && db[h] == v && h in cache' && cache'[h] == v
    requires forall x :: x in cache' && x != h ==> x in cache && cache'[x] == cache[x]
    ensures CachesAgree(cache', db)
  {
  }

  lemma {:induction false} HasNumber(headers: Blocks, tds: map<Hash, nat>, numbers: map<Hash, nat>, h: Hash)
    requires Consistent(headers, tds, numbers) && h in headers
    ensures h in numbers && numbers[h] == headers[h].number
  {
    assert h in numbers.Keys;
  }

  lemma {:induction false} EmptyAgrees<V(!new)>(db: map<Hash, V>)
    ensures CachesAgree(map[], db)
  {
  }

  ghost predicate MaxTd(tds: map<Hash, nat>, head: Hash) {
    head in tds && forall h :: h in tds ==> tds[h] <= tds[head]
  }

  lemma {:induction false} MaxTdStep(tds: map<Hash, nat>, head: Hash, h: Hash, td: nat, head': Hash)
    requires MaxTd(tds, head) && (h in tds ==> tds[h] == td)
    requires (head' == h && td >= tds[head]) || (head' == head && td <= tds[head])
    ensures MaxTd(tds[h := td], head')
  {
  }

  /** The stale part of the index: numbers in (m, top] already follow the new header, up to `m` it is still
      the old index. */
  ghost predicate Overwriting(at: Blocks, g: Hash, from: Hash, to: Hash, canon: map<nat, Hash>, m: nat)
    requires Closed(at, g) && from in at && to in at
  {
    && m < at[to].number
    && (forall k: nat :: m < k < at[to].number ==> k in canon && canon[k] == Anc(at, g, to, k))
    && (forall k: nat ::
          k <= m ==> (k in canon <==> k <= at[from].number) && (k in canon ==> canon[k] == Anc(at, g, from, k)))
    && (forall k: nat :: k > at[to].number ==> k !in canon)
  }

  lemma {:induction false} OverwriteStep(at: Blocks, g: Hash, from: Hash, to: Hash, canon: map<nat, Hash>, m: nat)
    requires Closed(at, g) && from in at && to in at && Overwriting(at, g, from, to, canon, m)
    requires !(m in canon && canon[m] == Anc(at, g, to, m))
    ensures m > 0 && Overwriting(at, g, from, to, canon[m := Anc(at, g, to, m)], m - 1)
  {
    assert Anc(at, g, from, 0) == g && Anc(at, g, to, 0) == g;
  }

  lemma {:induction false} OverwriteDone(at: Blocks, g: Hash, from: Hash, to: Hash, canon: map<nat, Hash>, m: nat)
    requires Closed(at, g) && from in at && to in at && Overwriting(at, g, from, to, canon, m)
    requires m in canon && canon[m] == Anc(at, g, to, m)
    ensures canon[at[to].number := to] == CanonOf(at, g, to)
  {
    forall k: nat | k <= m ensures k in canon && canon[k] == Anc(at, g, to, k) {
      AncOfAnc(at, g, from, m, k);
      AncOfAnc(at, g, to, m, k);
    }
  }

  lemma {:induction false} OverwriteStart(headers: Blocks, g: Hash, from: Hash, to: Hash, was: map<nat, Hash>,
                                          canon: map<nat, Hash>)
    requires IndexOf(headers, g, was, from) && Rooted(headers, g, to) && headers[to].number > 0
    requires forall k: nat :: k in canon <==> k <= headers[from].number && k <= headers[to].number
    requires forall k :: k in canon ==> k in was && canon[k] == was[k]
    ensures var at := Attached(headers, g);
      Closed(at, g) && from in at && to in at && Overwriting(at, g, from, to, canon, headers[to].number - 1)
  {
    AttachedClosed(headers, g);
  }

  lemma {:induction false} IndexMoved(headers: Blocks, g: Hash, from: Hash, was: map<nat, Hash>, to: Hash)
    requires IndexOf(headers, g, was, from) && Rooted(headers, g, to)
    ensures Closed(Attached(headers, g), g) && IndexOf(headers, g, CanonOf(Attached(headers, g), g, to), to)
  {
    AttachedClosed(headers, g);
  }

  lemma {:induction false} IndexSpan(headers: Blocks, g: Hash, canon: map<nat, Hash>, head: Hash)
    requires IndexOf(headers, g, canon, head)
    ensures head in headers && forall k: nat :: k in canon <==> k <= headers[head].number
  {
    AttachedClosed(headers, g);
  }

  /** The fork choice of `WriteHeader`. */
  predicate Wins(externTd: nat, localTd: nat, coin: bool) {
    externTd > localTd || (externTd == localTd && coin)
  }

  lemma {:induction false} SameParentRoot(headers: Blocks, g: Hash, header: Block)
    requires Hangs(headers, header) && (header.hash in headers ==> headers[header.hash] == header)
    requires forall x :: x in headers ==> headers[x].hash == x
    ensures Hangs(headers[header.hash := header], header)
    ensures Rooted(headers[header.hash := header], g, header.parent) <==> Rooted(headers, g, header.parent)
  {
    var more := headers[header.hash := header];
    if Rooted(more, g, header.parent) { DetachedStays(headers, g, header, header.parent); }
    if Rooted(headers, g, header.parent) { RootedExtends(headers, more, g, header.parent); }
  }

  lemma {:induction false} OwnHashes(headers: Blocks, tds: map<Hash, nat>, numbers: map<Hash, nat>)
    requires Consistent(headers, tds, numbers)
    ensures forall x :: x in headers ==> headers[x].hash == x
  {
  }

  /** What the database holds fits together. */
  ghost predicate Sound(ever: Blocks, everTds: map<Hash, nat>, headers: Blocks, tds: map<Hash, nat>,
                        numbers: map<Hash, nat>, g: Hash, canon: map<nat, Hash>, head: Hash) {
    && Consistent(headers, tds, numbers)
    && History(ever, everTds, headers, tds, g)
    && IndexOf(headers, g, canon, head)
  }

  /** A verified header with a stored parent fits into what is stored, whether it is there already or not. */
  lemma {:induction false} StoreKeeps(ever: Blocks, everTds: map<Hash, nat>, headers: Blocks, tds: map<Hash, nat>,
                                      numbers: map<Hash, nat>, g: Hash, canon: map<nat, Hash>, head: Hash,
                                      header: Block)
    requires Sound(ever, everTds, headers, tds, numbers, g, canon, head) && Verified(ever, headers, g, header)
    requires header.parent in headers && header.parent in tds
    ensures var td := tds[header.parent] + header.difficulty; var headers' := headers[header.hash := header];
      && Sound(ever[header.hash := header], everTds[header.hash := td], headers', tds[header.hash := td],
               numbers[header.hash := header.number], g, canon, head)
      && Hangs(headers', header)
      && (Rooted(headers', g, header.parent) <==> Rooted(headers, g, header.parent))
      && (header.hash in headers ==> headers[header.hash] == header)
      && (header.hash in tds ==> tds[header.hash] == td)
      && (header.hash in numbers ==> numbers[header.hash] == header.number)
  {
    hide IndexOf, Rooted, TdFollows, Closed;
    var td := tds[header.parent] + header.difficulty;
    HistoryGrows(ever, everTds, headers, tds, g, header);
    HasTd(headers, tds, numbers, header.hash);
    StoreConsistent(headers, tds, numbers, header, td);
    IndexExtends(headers, headers[header.hash := header], g, canon, head);
    SameParentRoot(headers, g, header) by { OwnHashes(headers, tds, numbers); }
  }

  lemma {:induction false} SoundTd(ever: Blocks, everTds: map<Hash, nat>, headers: Blocks, tds: map<Hash, nat>,
                                   numbers: map<Hash, nat>, g: Hash, canon: map<nat, Hash>, head: Hash, h: Hash)
    requires Sound(ever, everTds, headers, tds, numbers, g, canon, head)
    ensures h in headers <==> h in tds
  {
    hide IndexOf, History;
    HasTd(headers, tds, numbers, h);
  }

  /** The index without the numbers above the new header. */
  ghost predicate MarkersCut(headers: Blocks, canon: map<nat, Hash>, from: Hash, number: nat, markers: map<nat, Hash>) {
    && from in headers
    && (forall k: nat :: k in markers <==> k <= headers[from].number && k <= number)
    && (forall k :: k in markers ==> k in canon && markers[k] == canon[k])
  }

  /** What the walk below `header` has done when it comes to `h` with number `n`. */
  ghost predicate Walk(ever: Blocks, headers: Blocks, g: Hash, from: Hash, header: Block, markers: map<nat, Hash>,
                       h: Hash, n: nat, rooted: bool) {
    var at := Attached(headers, g);
    if rooted then
      && Closed(at, g) && from in at && header.hash in at && at[header.hash] == header && n < header.number
      && h == Anc(at, g, header.hash, n) && Overwriting(at, g, from, header.hash, markers, n)
    else Detached(ever, headers, g, h, n)
  }

  lemma {:induction false} WalkStart(ever: Blocks, headers: Blocks, g: Hash, canon: map<nat, Hash>, from: Hash,
                                     header: Block, markers: map<nat, Hash>, rooted: bool)
    requires Closed(ever, g) && (forall x :: x in headers ==> x in ever && ever[x] == headers[x])
    requires IndexOf(headers, g, canon, from) && header.hash in headers && headers[header.hash] == header
    requires header.number > 0 && header.hash != g && Hangs(headers, header)
    requires MarkersCut(headers, canon, from, header.number, markers)
    requires rooted <==> Rooted(headers, g, header.parent)
    ensures Walk(ever, headers, g, from, header, markers, header.parent, header.number - 1, rooted)
  {
    hide Overwriting;
    if rooted {
      OverwriteStart(headers, g, from, header.hash, canon, markers);
      var at := Attached(headers, g);
      assert Hangs(at, at[header.hash]);
      AncSelf(at, g, header.hash);
      AncParent(at, g, header.hash, header.number);
    }
  }

  /** While the index disagrees, the walk goes on; a header is missing only on a detached branch. */
  lemma {:induction false} WalkStep(ever: Blocks, headers: Blocks, g: Hash, canon: map<nat, Hash>, from: Hash,
                                    header: Block, markers: map<nat, Hash>, h: Hash, n: nat, rooted: bool)
    requires Closed(ever, g) && (forall x :: x in headers ==> x in ever && ever[x] == headers[x])
    requires IndexOf(headers, g, canon, from) && !(n in canon && canon[n] == h)
    requires Walk(ever, headers, g, from, header, markers, h, n, rooted)
    ensures rooted ==> h in headers
    ensures h in headers ==>
      && n > 0 && headers[h].number == n
      && Walk(ever, headers, g, from, header, markers[n := h], headers[h].parent, n - 1, rooted)
  {
    if rooted {
      RootedStep(headers, g, canon, from, header, markers, h, n);
    } else if h in headers {
      DetachedStep(ever, headers, g, h, n);
    }
  }

  lemma {:induction false} RootedStep(headers: Blocks, g: Hash, canon: map<nat, Hash>, from: Hash, header: Block,
                                      markers: map<nat, Hash>, h: Hash, n: nat)
    requires IndexOf(headers, g, canon, from) && !(n in canon && canon[n] == h)
    requires Walk(headers, headers, g, from, header, markers, h, n, true)
    ensures h in headers && n > 0 && headers[h].number == n
    ensures Walk(headers, headers, g, from, header, markers[n := h], headers[h].parent, n - 1, true)
  {
    var at := Attached(headers, g);
    OverwriteStep(at, g, from, header.hash, markers, n);
    AncParent(at, g, header.hash, n);
  }

  lemma {:induction false} WalkNumber(ever: Blocks, headers: Blocks, g: Hash, from: Hash, header: Block,
                                      markers: map<nat, Hash>, h: Hash, n: nat, rooted: bool)
    requires Closed(ever, g) && (forall x :: x in headers ==> x in ever && ever[x] == headers[x])
    requires Walk(ever, headers, g, from, header, markers, h, n, rooted)
    ensures h in headers ==> headers[h].number == n
  {
  }

  /** The walk ends where the index agrees, and that is never on a detached branch. */
  lemma {:induction false} WalkEnd(ever: Blocks, headers: Blocks, g: Hash, canon: map<nat, Hash>, from: Hash,
                                   header: Block, markers: map<nat, Hash>, h: Hash, n: nat, rooted: bool)
    requires IndexOf(headers, g, canon, from) && n in canon && canon[n] == h
    requires Walk(ever, headers, g, from, header, markers, h, n, rooted)
    ensures rooted && Rooted(headers, g, header.hash) && Closed(Attached(headers, g), g)
    ensures markers[header.number := header.hash] == CanonOf(Attached(headers, g), g, header.hash)
  {
    hide Overwriting;
    if !rooted { DetachedNotIndexed(ever, headers, g, canon, from, h, n); }
    var at := Attached(headers, g);
    assert n in markers && markers[n] == Anc(at, g, header.hash, n) by {
      MarkersUpTo(at, g, from, header.hash, markers, n);
    }
    OverwriteDone(at, g, from, header.hash, markers, n);
  }

  lemma {:induction false} MarkersUpTo(at: Blocks, g: Hash, from: Hash, to: Hash, markers: map<nat, Hash>, n: nat)
    requires Closed(at, g) && from in at && to in at && Overwriting(at, g, from, to, markers, n)
    ensures n in markers <==> n <= at[from].number
    ensures n in markers ==> markers[n] == Anc(at, g, from, n)
  {
  }

  class HeaderChain {
    const genesis: Hash
    var headers: Blocks
    var tds: map<Hash, nat>
    var numbers: map<Hash, nat>
    var canon: map<nat, Hash>
    var headHeaderHash: Hash
    var currentHeader: Block
    var currentHeaderHash: Hash
    var headerCache: map<Hash, Block>
    var tdCache: map<Hash, nat>
    var numberCache: map<Hash, nat>
    ghost var ever: Blocks
    ghost var everTds: map<Hash, nat>

    ghost predicate CachesOk()
      reads this
    {
      Caching(headerCache, tdCache, numberCache, headers, tds, numbers)
    }

    ghost predicate Valid()
      reads this
    {
      && Sound(ever, everTds, headers, tds, numbers, genesis, canon, currentHeaderHash)
      && headHeaderHash == currentHeaderHash
      && currentHeaderHash in headers && currentHeader == headers[currentHeaderHash]
      && CachesOk()
    }

    /** No stored header has more total difficulty than the head. */
    ghost predicate HeadMaximal()
      reads this
      requires Valid()
    {
      MaxTd(tds, currentHeaderHash)
    }

    constructor (g: Block)
      requires g.number == 0
      ensures Valid() && HeadMaximal() && genesis == g.hash && currentHeader == g && currentHeaderHash == g.hash
      ensures headers == ever == map[g.hash := g] && tds == map[g.hash := g.difficulty]
    {
      genesis := g.hash;
      headers, tds, numbers := map[g.hash := g], map[g.hash := g.difficulty], map[g.hash := 0];
      canon, headHeaderHash := map[0 := g.hash], g.hash;
      currentHeader, currentHeaderHash := g, g.hash;
      headerCache, tdCache, numberCache := map[], map[], map[];
      ever, everTds := headers, tds;
      new;
      assert Rooted(headers, genesis, genesis);
      AttachedClosed(headers, genesis);
      assert Anc(Attached(headers, genesis), genesis, genesis, 0) == genesis;
    }

    /** Total difficulty by hash and number; a cached entry answers for any number. */
    method GetTd(h: Hash, number: nat) returns (td: Option<nat>)
      requires Valid()
      modifies this`tdCache
      ensures Valid()
      ensures td.Some? ==> h in headers && h in tds && td.value == tds[h] && h in tdCache
      ensures td.Some? <==> h in old(tdCache) || (h in headers && headers[h].number == number)
    {
      hide IndexOf, Rooted, History;
      if h in tdCache {
        return Some(tdCache[h]);
      }
      if h !in tds || headers[h].number != number {
        return None;
      }
      tdCache := CacheAdd(tdCache, TD_CACHE_LIMIT, h, tds[h]);
      td := Some(tds[h]);
    }

    method GetHeader(h: Hash, number: nat) returns (header: Option<Block>)
      requires CachesOk()
      modifies this`headerCache
      ensures CachesOk()
      ensures header.Some? ==> h in headers && header.value == headers[h] && h in headerCache
      ensures header.Some? <==> h in old(headerCache) || (h in headers && headers[h].number == number)
    {
      if h in headerCache {
        return Some(headerCache[h]);
      }
      if h !in headers || headers[h].number != number {
        return None;
      }
      headerCache := CacheAdd(headerCache, HEADER_CACHE_LIMIT, h, headers[h]);
      header := Some(headers[h]);
    }

    method GetBlockNumber(h: Hash) returns (number: Option<nat>)
      requires CachesOk()
      modifies this`numberCache
      ensures CachesOk()
      ensures number == if h in numbers then Some(numbers[h]) else None
      ensures number.Some? ==> h in numberCache
    {
      if h in numberCache {
        return Some(numberCache[h]);
      }
      if h !in numbers {
        return None;
      }
      numberCache := CacheAdd(numberCache, NUMBER_CACHE_LIMIT, h, numbers[h]);
      number := Some(numbers[h]);
    }

    /** Collects in `markers` the deletion of number assignments above the new head, as far as they are contiguous. */
    method DeleteAbove(number: nat, ghost top: nat) returns (markers: map<nat, Hash>)
      requires forall k: nat :: k in canon <==> k <= top
      ensures forall k: nat :: k in markers <==> k <= top && k <= number
      ensures forall k :: k in markers ==> k in canon && markers[k] == canon[k]
    {
      markers := canon;
      var i := number + 1;
      while i in canon
        invariant i > number
        invariant forall k: nat :: k in markers <==> k <= top && (k <= number || k >= i)
        invariant forall k :: k in markers ==> k in canon && markers[k] == canon[k]
        decreases top + 1 - i
      {
        markers := markers - {i};
        i := i + 1;
      }
    }

    /** Overwrites stale number assignments below the new header, from its parent down to the first that agrees. The
        walk dereferences nil exactly when the ancestry of the parent is not stored any more. */
    method OverwriteStale(header: Block, markers: map<nat, Hash>, ghost from: Hash)
      returns (markers': map<nat, Hash>, nil: bool)
      requires Valid() && from == currentHeaderHash && header.hash in headers && headers[header.hash] == header
      requires header.number > 0 && header.hash != genesis && Hangs(headers, header)
      requires MarkersCut(headers, canon, from, header.number, markers)
      modifies this`headerCache
      ensures Valid()
      ensures nil <==> !Rooted(headers, genesis, header.parent)
      ensures !nil ==>
        && Rooted(headers, genesis, header.hash)
        && Closed(Attached(headers, genesis), genesis)
        && markers'[header.number := header.hash] == CanonOf(Attached(headers, genesis), genesis, header.hash)
    {
      hide Caching, Overwriting, Rooted, IndexOf, Consistent, Closed, CanonOf, Attached, History, Walk, MarkersCut;
      ghost var rooted := Rooted(headers, genesis, header.parent);
      var headHash, headNumber := header.parent, header.number - 1;
      var headHeader := GetHeader(headHash, headNumber);
      markers', nil := markers, false;
      WalkStart(ever, headers, genesis, canon, from, header, markers, rooted) by { HistoryFacts(); }
      while !(headNumber in canon && canon[headNumber] == headHash)
        invariant headNumber >= 0
        invariant Walk(ever, headers, genesis, from, header, markers', headHash, headNumber, rooted)
        invariant headHeader == if headHash in headers then Some(headers[headHash]) else None
        invariant Valid()
        modifies this`headerCache
        decreases headNumber
      {
        WalkStep(ever, headers, genesis, canon, from, header, markers', headHash, headNumber, rooted) by {
          HistoryFacts();
        }
        markers' := markers'[headNumber := headHash];
        if headHeader.None? {
          nil := true;
          return;
        }
        headHash, headNumber := headHeader.value.parent, headHeader.value.number - 1;
        WalkNumber(ever, headers, genesis, from, header, markers', headHash, headNumber, rooted) by { HistoryFacts(); }
        headHeader := GetHeader(headHash, headNumber);
      }
      WalkEnd(ever, headers, genesis, canon, from, header, markers', headHash, headNumber, rooted);
    }

    lemma HistoryFacts()
      requires History(ever, everTds, headers, tds, genesis)
      ensures Closed(ever, genesis) && forall x :: x in headers ==> x in ever && ever[x] == headers[x]
    {
    }

    /** Stores a header and, with more total difficulty (or by `coin` with the same), makes it the head. */
    method WriteHeader(header: Block, coin: bool) returns (status: Status)
      requires Valid() && Verified(ever, headers, genesis, header)
      modifies this
      ensures Valid()
      ensures status == UnknownAncestor <==> header.parent !in old(headers)
      ensures status == UnknownAncestor ==> headers == old(headers) && tds == old(tds) && ever == old(ever)
      ensures status != UnknownAncestor ==>
        && headers == old(headers)[header.hash := header] && ever == old(ever)[header.hash := header]
        && tds == old(tds)[header.hash := old(tds)[header.parent] + header.difficulty]
        && (status == Side <==> !Wins(tds[header.hash], old(tds)[old(currentHeaderHash)], coin))
        && (status == NilDereference <==> status != Side && !old(Rooted(headers, genesis, header.parent)))
      ensures status == Canon ==> currentHeaderHash == header.hash
      ensures status != Canon ==> canon == old(canon) && currentHeaderHash == old(currentHeaderHash)
      ensures status != NilDereference && old(HeadMaximal()) ==> HeadMaximal()
    {
      hide Sound, Rooted, Caching, MaxTd;
      SoundTd(ever, everTds, headers, tds, numbers, genesis, canon, currentHeaderHash, currentHeaderHash);
      SoundTd(ever, everTds, headers, tds, numbers, genesis, canon, currentHeaderHash, header.parent);
      assert header.parent in headers ==> headers[header.parent].number == header.number - 1;
      hide Verified, Hangs, Wins;
      var ptd := GetTd(header.parent, header.number - 1);
      if ptd.None? {
        return UnknownAncestor;
      }
      var localTd := GetTd(currentHeaderHash, currentHeader.number);
      var externTd := ptd.value + header.difficulty;
      status := Insert(header, externTd, localTd.value, coin);
      if status != NilDereference {
        Remember(header, externTd);
      }
    }

    /** The two batches of `WriteHeader`, given the total difficulties. */
    method Insert(header: Block, externTd: nat, localTd: nat, coin: bool) returns (status: Status)
      requires Valid() && Verified(ever, headers, genesis, header) && header.parent in headers && header.parent in tds
      requires currentHeaderHash in tds && localTd == tds[currentHeaderHash]
      requires externTd == tds[header.parent] + header.difficulty
      modifies this
      ensures Valid() && status != UnknownAncestor
      ensures headers == old(headers)[header.hash := header] && ever == old(ever)[header.hash := header]
      ensures tds == old(tds)[header.hash := externTd]
      ensures status == Side <==> !Wins(externTd, localTd, coin)
      ensures status == NilDereference <==> status != Side && !old(Rooted(headers, genesis, header.parent))
      ensures status == Canon ==> currentHeaderHash == header.hash
      ensures status != Canon ==> canon == old(canon) && currentHeaderHash == old(currentHeaderHash)
      ensures status != NilDereference && old(HeadMaximal()) ==> HeadMaximal()
    {
      hide Sound, Rooted, Caching, MaxTd;
      assert header.number > 0 && header.hash != genesis;
      hide Verified, Hangs;
      StoreHeader(header, externTd);
      status := ChooseHead(header, externTd, localTd, coin);
      if old(HeadMaximal()) && status != NilDereference {
        MaxTdStep(old(tds), old(currentHeaderHash), header.hash, externTd, currentHeaderHash);
      }
    }

    /** The fork choice for a stored header. */
    method ChooseHead(header: Block, externTd: nat, localTd: nat, coin: bool) returns (status: Status)
      requires Valid() && header.hash in headers && headers[header.hash] == header
      requires header.number > 0 && header.hash != genesis && Hangs(headers, header)
      modifies this`canon, this`headerCache, this`headHeaderHash, this`currentHeader, this`currentHeaderHash
      ensures Valid() && status != UnknownAncestor
      ensures status == Side <==> !Wins(externTd, localTd, coin)
      ensures status == NilDereference <==> status != Side && !Rooted(headers, genesis, header.parent)
      ensures status == Canon ==> currentHeaderHash == header.hash
      ensures status != Canon ==> canon == old(canon) && currentHeaderHash == old(currentHeaderHash)
    {
      hide Sound, Rooted, Caching;
      if externTd > localTd || (externTd == localTd && coin) {
        var nil := MoveHead(header, currentHeaderHash);
        status := if nil then NilDereference else Canon;
      } else {
        status := Side;
      }
    }

    /** Puts a header just written into the three caches. */
    method Remember(header: Block, td: nat)
      requires Valid() && header.hash in headers && headers[header.hash] == header
      requires header.hash in tds && tds[header.hash] == td
      modifies this`tdCache, this`headerCache, this`numberCache
      ensures Valid()
      ensures header.hash in tdCache && header.hash in headerCache && header.hash in numberCache
    {
      hide IndexOf, Rooted, History, CachesAgree, Consistent;
      assert header.hash in numbers && numbers[header.hash] == header.number by {
        HasNumber(headers, tds, numbers, header.hash);
      }
      var tds', headers', numbers';
      tds' := CacheAdd(tdCache, TD_CACHE_LIMIT, header.hash, td);
      AddAgrees(tdCache, tds', tds, header.hash, td);
      headers' := CacheAdd(headerCache, HEADER_CACHE_LIMIT, header.hash, header);
      AddAgrees(headerCache, headers', headers, header.hash, header);
      numbers' := CacheAdd(numberCache, NUMBER_CACHE_LIMIT, header.hash, header.number);
      AddAgrees(numberCache, numbers', numbers, header.hash, header.number);
      tdCache, headerCache, numberCache := tds', headers', numbers';
    }

    /** The atomic write of header, number and total difficulty. */
    method StoreHeader(header: Block, td: nat)
      requires Valid() && Verified(ever, headers, genesis, header) && header.parent in headers && header.parent in tds
      requires td == tds[header.parent] + header.difficulty
      modifies this`headers, this`tds, this`numbers, this`ever, this`everTds
      ensures Valid() && Hangs(headers, header)
      ensures Rooted(headers, genesis, header.parent) <==> old(Rooted(headers, genesis, header.parent))
      ensures headers == old(headers)[header.hash := header] && tds == old(tds)[header.hash := td]
      ensures numbers == old(numbers)[header.hash := header.number] && ever == old(ever)[header.hash := header]
      ensures header.hash in old(tds) ==> old(tds)[header.hash] == td
    {
      hide Sound, Rooted, Caching, Hangs, Verified;
      StoreKeeps(ever, everTds, headers, tds, numbers, genesis, canon, currentHeaderHash, header);
      StoreCaching(headerCache, tdCache, numberCache, headers, tds, numbers, header, td);
      headers, tds := headers[header.hash := header], tds[header.hash := td];
      numbers := numbers[header.hash := header.number];
      ever, everTds := ever[header.hash := header], everTds[header.hash := td];
    }

    /** Re-routes the number index to end in a stored header and moves the head markers there, unless the walk below
        the header panics: then the batch of markers is lost. */
    method MoveHead(header: Block, ghost from: Hash) returns (nil: bool)
      requires Valid() && from == currentHeaderHash && header.hash in headers && headers[header.hash] == header
      requires header.number > 0 && header.hash != genesis && Hangs(headers, header)
      modifies this`canon, this`headerCache, this`headHeaderHash, this`currentHeader, this`currentHeaderHash
      ensures Valid() && (nil <==> !Rooted(headers, genesis, header.parent))
      ensures nil ==> canon == old(canon) && currentHeaderHash == old(currentHeaderHash)
      ensures !nil ==> currentHeaderHash == header.hash
    {
      hide IndexOf, Rooted, Overwriting, Caching, Consistent, Closed, CanonOf, History, Attached;
      IndexSpan(headers, genesis, canon, from);
      ghost var was := canon;
      var markers := DeleteAbove(header.number, headers[from].number);
      markers, nil := OverwriteStale(header, markers, from);
      if nil {
        return;
      }
      IndexMoved(headers, genesis, from, was, header.hash);
      canon := markers[header.number := header.hash];
      headHeaderHash := header.hash;
      currentHeaderHash := header.hash;
      currentHeader := header;
    }

    /** Rewinds the head to number `head`, deleting the headers of the current path above it. */
    method SetHead(head: nat)
      requires Valid()
      modifies this
      ensures Valid()
      ensures currentHeader.number == Min(head, old(currentHeader).number) && ever == old(ever)
      ensures RewoundTo(old(headers), old(tds), old(canon), headers, tds, head)
      ensures currentHeader.number in old(canon) && currentHeaderHash == old(canon)[currentHeader.number]
    {
      hide IndexOf, Rooted, CachesAgree, Consistent, Rewinding, CanonOf, Closed, Attached, History;
      ghost var at, start, was := Attached(headers, genesis), currentHeaderHash, canon;
      IndexWalk(headers, genesis, canon, start);
      var gone, goneNumbers := Rewind(head, at, start);
      RewoundIndex(headers, genesis, start, currentHeaderHash, gone, goneNumbers, was);
      RewoundConsistent(headers, tds, numbers, gone);
      HistoryDrops(ever, everTds, headers, tds, genesis, gone);
      RewoundExactly(headers, tds, genesis, was, start, currentHeaderHash, gone, goneNumbers, head);
      Drop(gone, goneNumbers);
      EmptyAgrees(headers);
      EmptyAgrees(tds);
      EmptyAgrees(numbers);
    }

    /** The deletions reach the database in one batch, then the caches are purged. */
    method Drop(gone: set<Hash>, goneNumbers: set<nat>)
      modifies this`headers, this`tds, this`numbers, this`canon, this`headerCache, this`tdCache, this`numberCache
      ensures headers == old(headers) - gone && tds == old(tds) - gone && numbers == old(numbers) - gone
      ensures canon == old(canon) - goneNumbers && headerCache == map[] && tdCache == map[] && numberCache == map[]
    {
      headers, tds, numbers := headers - gone, tds - gone, numbers - gone;
      canon := canon - goneNumbers;
      headerCache, tdCache, numberCache := map[], map[], map[];
    }

    /** Walks the head markers down to number `head`, collecting what is to be deleted. */
    method Rewind(head: nat, ghost at: Blocks, ghost start: Hash) returns (gone: set<Hash>, goneNumbers: set<nat>)
      requires Closed(at, genesis) && start in at && currentHeader == at[start] && CachesOk()
      requires headHeaderHash == currentHeaderHash == start
      requires forall h :: h in at ==> h in headers && headers[h] == at[h]
      modifies this`headerCache, this`headHeaderHash, this`currentHeader, this`currentHeaderHash
      ensures CachesOk() && headHeaderHash == currentHeaderHash && currentHeaderHash in at
      ensures currentHeader == at[currentHeaderHash] && currentHeader.number == Min(head, at[start].number)
      ensures Rewinding(at, genesis, start, currentHeaderHash, gone, goneNumbers)
    {
      hide Caching, Anc, Rewinding;
      gone, goneNumbers := {}, {};
      RewindStart(at, genesis, start);
      while currentHeader.number > head
        invariant currentHeaderHash in at && currentHeader == at[currentHeaderHash]
        invariant headHeaderHash == currentHeaderHash
        invariant currentHeader.number >= Min(head, at[start].number)
        invariant Rewinding(at, genesis, start, currentHeaderHash, gone, goneNumbers) && CachesOk()
        modifies this`headerCache, this`headHeaderHash, this`currentHeader, this`currentHeaderHash
        decreases currentHeader.number
      {
        var hdr := currentHeader;
        RewindStep(at, genesis, start, currentHeaderHash, gone, goneNumbers);
        var parent := GetHeader(hdr.parent, hdr.number - 1);
        headHeaderHash := hdr.parent;
        currentHeader := parent.value;
        currentHeaderHash := hdr.parent;
        gone := gone + {hdr.hash};
        goneNumbers := goneNumbers + {hdr.number};
      }
    }
  }

  /** The head has moved from `start` down to `cur`; `gone` and `goneNumbers` are what lies between. */
  ghost predicate Rewinding(at: Blocks, g: Hash, start: Hash, cur: Hash, gone: set<Hash>, goneNumbers: set<nat>)
    requires Closed(at, g) && start in at && cur in at
  {
    && at[cur].number <= at[start].number && cur == Anc(at, g, start, at[cur].number)
    && (forall h ::
          h in gone ==>
            h in at && at[cur].number < at[h].number <= at[start].number && h == Anc(at, g, start, at[h].number))
    && (forall n: nat :: at[cur].number < n <= at[start].number ==> Anc(at, g, start, n) in gone)
    && (forall n: nat :: n in goneNumbers <==> at[cur].number < n <= at[start].number)
  }

  lemma {:induction false} RewindStart(at: Blocks, g: Hash, start: Hash)
    requires Closed(at, g) && start in at
    ensures Rewinding(at, g, start, start, {}, {})
  {
    AncSelf(at, g, start);
  }

  lemma {:induction false} RewindStep(at: Blocks, g: Hash, start: Hash, cur: Hash, gone: set<Hash>,
                                      goneNumbers: set<nat>)
    requires Closed(at, g) && start in at && cur in at && at[cur].number > 0
    requires Rewinding(at, g, start, cur, gone, goneNumbers)
    ensures cur != g && at[cur].hash == cur && Hangs(at, at[cur])
    ensures Rewinding(at, g, start, at[cur].parent, gone + {cur}, goneNumbers + {at[cur].number})
  {
    AncParent(at, g, start, at[cur].number);
    assert Hangs(at, at[cur]);
  }

  /** Exactly the headers of the canonical path above `head` are gone; the others are as they were. */
  ghost predicate RewoundTo(headers: Blocks, tds: map<Hash, nat>, canon: map<nat, Hash>, headers': Blocks,
                            tds': map<Hash, nat>, head: nat) {
    && (forall h :: h in headers' ==> h in headers && headers'[h] == headers[h])
    && (forall h :: h in tds' ==> h in tds && tds'[h] == tds[h])
    && (forall h :: h in headers ==> (h !in headers' <==> OnPathAbove(headers, canon, h, head)))
  }

  predicate OnPathAbove(headers: Blocks, canon: map<nat, Hash>, h: Hash, head: nat)
    requires h in headers
  {
    var n := headers[h].number;
    n > head && n in canon && canon[n] == h
  }

  lemma {:induction false} RewoundExactly(headers: Blocks, tds: map<Hash, nat>, g: Hash, canon: map<nat, Hash>,
                                          start: Hash, cur: Hash, gone: set<Hash>, goneNumbers: set<nat>, head: nat)
    requires IndexOf(headers, g, canon, start) && Closed(Attached(headers, g), g)
    requires cur in Attached(headers, g) && Rewinding(Attached(headers, g), g, start, cur, gone, goneNumbers)
    requires headers[cur].number == Min(head, headers[start].number)
    ensures RewoundTo(headers, tds, canon, headers - gone, tds - gone, head)
  {
    var at := Attached(headers, g);
    forall h | h in headers ensures h in gone <==> OnPathAbove(headers, canon, h, head) {
      var n := headers[h].number;
      if n in canon && canon[n] == h && n > head { assert Anc(at, g, start, n) in gone; }
    }
  }

  lemma {:induction false} IndexWalk(headers: Blocks, g: Hash, canon: map<nat, Hash>, head: Hash)
    requires IndexOf(headers, g, canon, head)
    ensures var at := Attached(headers, g);
      && Closed(at, g) && head in at && canon == CanonOf(at, g, head)
      && forall h :: h in at ==> h in headers && headers[h] == at[h]
  {
    AttachedClosed(headers, g);
  }

  lemma {:induction false} RewoundConsistent(headers: Blocks, tds: map<Hash, nat>, numbers: map<Hash, nat>,
                                             gone: set<Hash>)
    requires Consistent(headers, tds, numbers)
    ensures Consistent(headers - gone, tds - gone, numbers - gone)
  {
    assert (tds - gone).Keys == tds.Keys - gone && (numbers - gone).Keys == numbers.Keys - gone;
    assert (headers - gone).Keys == headers.Keys - gone;
    assert forall h :: h in headers - gone ==> h in headers.Keys && h in numbers.Keys;
  }

  /** Deleting headers above a header leaves its ancestry in place. */
  lemma {:induction false} RootedBelow(headers: Blocks, fewer: Blocks, g: Hash, h: Hash, n: nat)
    requires Rooted(headers, g, h) && headers[h].number <= n
    requires forall x :: x in headers && headers[x].number <= n ==> x in fewer && fewer[x] == headers[x]
    ensures Rooted(fewer, g, h)
    decreases headers[h].number
  {
    if h != g { RootedBelow(headers, fewer, g, headers[h].parent, n); }
  }

  lemma {:induction false} RewoundIndex(headers: Blocks, g: Hash, start: Hash, head: Hash, gone: set<Hash>,
                                        goneNumbers: set<nat>, canon: map<nat, Hash>)
    requires IndexOf(headers, g, canon, start) && Closed(Attached(headers, g), g)
    requires head in Attached(headers, g) && Rewinding(Attached(headers, g), g, start, head, gone, goneNumbers)
    ensures IndexOf(headers - gone, g, canon - goneNumbers, head)
    ensures headers[head].number in canon && head == canon[headers[head].number] && head in headers - gone
  {
    var n := headers[head].number;
    var fewer := headers - gone;
    RootedBelow(headers, fewer, g, g, n);
    RootedBelow(headers, fewer, g, head, n);
    AttachedClosed(fewer, g);
    var at, at' := Attached(headers, g), Attached(fewer, g);
    forall x | x in at' ensures x in at && at[x] == at'[x] { RootedExtends(fewer, headers, g, x); }
    forall k: nat | k <= n ensures k in canon && canon[k] == Anc(at', g, head, k) {
      AncOfAnc(at, g, start, n, k);
      AncExtends(at', at, g, head, k);
    }
    assert canon - goneNumbers == CanonOf(at', g, head);
  }

  // A branch that lost its ancestry

  /** Genesis 1, its child 2, and the children 3 and 4 of that. */
  function Forked(): Blocks {
    map[1 := Block(1, 0, 0, 1, []), 2 := Block(2, 1, 1, 1, []), 3 := Block(3, 2, 2, 1, []), 4 := Block(4, 2, 2, 1, [])]
  }

  lemma {:induction false} ForkedIndex(canon: map<nat, Hash>)
    requires IndexOf(Forked(), 1, canon, 3)
    ensures canon == map[0 := 1, 1 := 2, 2 := 3]
  {
    AttachedClosed(Forked(), 1);
    var at := Attached(Forked(), 1);
    AncSelf(at, 1, 3);
    AncParent(at, 1, 3, 2);
    AncParent(at, 1, 3, 1);
  }

  /** The header chain at 3, with the side header 4. */
  method NewForked() returns (hc: HeaderChain)
    ensures fresh(hc) && hc.Valid() && hc.genesis == 1 && hc.currentHeaderHash == 3
    ensures hc.headers == hc.ever == Forked() && hc.tds == map[1 := 1, 2 := 2, 3 := 3, 4 := 3]
  {
    hide IndexOf, History, Consistent, CachesAgree, MaxTd, Caching;
    var b1, b2 := Block(1, 0, 0, 1, []), Block(2, 1, 1, 1, []);
    assert Rooted(map[1 := b1], 1, 1) && Rooted(map[1 := b1, 2 := b2], 1, 2);
    hc := new HeaderChain(b1);
    var first := hc.WriteHeader(b2, false);
    var second := hc.WriteHeader(Block(3, 2, 2, 1, []), false);
    var side := hc.WriteHeader(Block(4, 2, 2, 1, []), false);
    assert second == Canon && side == Side;
  }

  /** Rewinding to the genesis block deletes 2 and 3 and leaves 4; a header on 4 then wins and panics. */
  method DetachedBranchPanics() returns (status: Status)
    ensures status == NilDereference
  {
    hide IndexOf, History, Consistent, CachesAgree, MaxTd, Caching;
    var hc := NewForked();
    ForkedIndex(hc.canon);
    hc.SetHead(0);
    assert 2 !in hc.headers && 4 in hc.headers && hc.currentHeaderHash == 1;
    assert !Rooted(hc.headers, 1, 4);
    assert hc.tds[4] == 3 && hc.tds[1] == 1 by {
      HasTd(hc.headers, hc.tds, hc.numbers, 4);
      HasTd(hc.headers, hc.tds, hc.numbers, 1);
    }
    status := hc.WriteHeader(Block(5, 4, 3, 1, []), false);
  }
}
