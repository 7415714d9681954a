/** The sequential half of `Hasher` in bmt/bmt.go: buffering written bytes into leaf segments. */
module BmtWriter {
  import opened BmtReference
  import opened BmtTree

  function Flatten(parts: seq<Bytes>): Bytes {
    if parts == [] then [] else Flatten(parts[..|parts| - 1]) + parts[|parts| - 1]
  }

  function Truncate(d: Bytes, cap: nat): Bytes {
    if |d| > cap then d[..cap] else d
  }

  /** Bytes that fit from the start of leaf `i` up to the capacity. */
  function Room(count: nat, size: nat, i: nat): int {
    (count - 2 * i) * size
  }

  lemma {:induction false} RoomFacts(count: nat, size: nat, i: nat)
    ensures Room(count, size, i) == count * size - i * 2 * size
    ensures Room(count, size, i + 1) == Room(count, size, i) - 2 * size
    ensures count - 2 * i == 1 ==> Room(count, size, i) == size
    ensures count - 2 * i == 2 ==> Room(count, size, i) == 2 * size
    ensures count - 2 * i >= 3 ==> Room(count, size, i) >= 3 * size
  {
    Distribute(count, 2 * i, size);
    Distribute(count, 2 * i + 2, size);
    assert (2 * i + 2) * size == 2 * i * size + 2 * size;
    if count - 2 * i >= 3 { MulMono(3, count - 2 * i, size); }
  }

  lemma {:induction false} Distribute(a: int, b: int, c: int)
    ensures (a - b) * c == a * c - b * c
  {}

  lemma {:induction false} RoomDrop(count: nat, size: nat, i: nat, j: nat)
    requires i < j
    ensures Room(count, size, j) <= Room(count, size, i) - 2 * size
  {
    RoomFacts(count, size, j - 1);
    if i < j - 1 { RoomDrop(count, size, i, j - 1); }
  }

  /** The buffer contents between writes. */
  ghost predicate Buffered(count: nat, size: nat, launched: seq<Bytes>, segment: Bytes) {
    var cur := |launched|;
    && size > 0 && count >= 1
    && cur < (count + 1) / 2
    && (forall i :: 0 <= i < cur ==> |launched[i]| == 2 * size)
    && |Flatten(launched)| == count * size - Room(count, size, cur)
    && |segment| <= 2 * size && |segment| <= Room(count, size, cur)
    && (cur > 0 ==> segment != [])
  }

  /** Locals of the loop in `Write`. */
  datatype Loop = Loop(cur: nat, total: nat, i: nat, launched: seq<Bytes>, s: Bytes, need: int, rest: nat, sz: nat)

  ghost predicate LoopInv(count: nat, size: nat, data: Bytes, b: Bytes, v: Loop) {
    var room := Room(count, size, v.i);
    && size > 0 && v.cur <= v.i < (count + 1) / 2 && v.i == |v.launched|
    && (forall j :: 0 <= j < v.i ==> |v.launched[j]| == 2 * size)
    && |Flatten(v.launched)| == count * size - room
    && v.rest <= |b| && (v.i > 0 ==> v.s != []) && |v.s| <= 2 * size
    && v.total <= |b|
    && (v.need >= 0 ==> v.need + v.rest == v.total)
    && (v.need < 0 ==> v.rest == v.total)
    && (v.need > 0 ==> |v.s| == v.sz)
    && (v.need > 0 && v.i < (count + 1) / 2 - 1 ==> v.sz == 2 * size)
    && (v.i == v.cur ==> |v.s| <= v.sz == (if room > size then 2 * size else size))
    && (v.i > v.cur ==> v.need > 0 ==> v.sz == 2 * size)
    && Flatten(v.launched) + v.s == data + b[..v.rest]
  }

  lemma {:induction false} LoopStart(count: nat, size: nat, launched: seq<Bytes>, s0: Bytes, b: Bytes, v: Loop)
    requires Buffered(count, size, launched, s0) && b != []
    requires v.i == v.cur == |launched| && v.launched == launched
    requires v.sz == if Room(count, size, v.cur) > size then 2 * size else size
    requires v.total == Min(|b|, Room(count, size, v.cur))
    requires v.rest == Min(v.sz - |s0|, v.total) && v.need == v.total - v.rest
    requires v.s == s0 + b[..v.rest]
    ensures LoopInv(count, size, Flatten(launched) + s0, b, v)
  {
    hide Room, Flatten;
    RoomFacts(count, size, v.cur);
  }

  /** One iteration: push the finished segment, then take the next one, short if the input ends. */
  function LoopBody(b: Bytes, v: Loop): Loop
    requires v.need > 0 && v.rest + v.sz + Min(0, v.need - v.sz) <= |b|
  {
    var need := v.need - v.sz;
    var sz := if need < 0 then v.sz + need else v.sz;
    v.(launched := v.launched + [v.s], need := need, sz := sz, s := b[v.rest..v.rest + sz],
       rest := v.rest + sz, i := v.i + 1)
  }

  lemma {:induction false} LoopStep(count: nat, size: nat, data: Bytes, b: Bytes, v: Loop)
    requires LoopInv(count, size, data, b, v) && v.need > 0 && v.i < (count + 1) / 2 - 1
    ensures v.rest + v.sz + Min(0, v.need - v.sz) <= |b|
    ensures LoopInv(count, size, data, b, LoopBody(b, v))
  {
    hide Room;
    RoomFacts(count, size, v.i);
    RoomFacts(count, size, v.i + 1);
    var w := LoopBody(b, v);
    assert w.launched[..v.i] == v.launched;
    assert b[..w.rest] == b[..v.rest] + w.s;
  }

  /** Taking `rest` bytes of `b` is truncation exactly when `rest` is what fits. */
  lemma {:induction false} CutPoint(d: Bytes, b: Bytes, rest: nat, cap: nat)
    requires |d| <= cap && rest <= |b|
    ensures d + b[..rest] == Truncate(d + b, cap) <==> rest == Min(|b|, cap - |d|)
  {
    assert (d + b)[..|d| + rest] == d + b[..rest];
    if d + b[..rest] == Truncate(d + b, cap) {
      assert |d + b[..rest]| == |d| + rest;
    }
  }

  /** The amounts at loop exit: `rc` and `ri` are the room at the first and the last leaf touched. */
  lemma {:induction false} LoopAmount(odd: bool, size: nat, first: bool, last: bool, same: bool, rc: int, ri: int,
                                      s0: nat, sLen: nat, rest: nat, need: int, total: nat, l: nat, sz: nat)
    requires size > 0 && rc - s0 - rest == ri - sLen && s0 <= rc && sLen <= 2 * size && rest <= l
    requires last ==> ri == if odd then size else 2 * size
    requires !last ==> ri >= 3 * size && need <= 0
    requires same ==> rc == ri && sLen <= sz == if ri > size then 2 * size else size
    requires !same ==> rc >= 3 * size && ri <= rc - 2 * size
    requires s0 > 0 || first
    requires total == Min(l, rc)
    requires if need >= 0 then need + rest == total else rest == total
    requires need > 0 ==> sLen == sz && (same || sz == 2 * size)
    ensures if !odd || s0 + l <= rc || (same && last) || (first && s0 == 0)
            then rest == Min(l, rc - s0) && sLen <= ri
            else rest == Min(Min(l, rc), rc + size - s0) > rc - s0
  {}

  /** Writes after which the buffered data is still within capacity. */
  predicate Keeps(count: nat, size: nat, data: Bytes, cur: nat, b: Bytes) {
    count % 2 == 0 || |data| + |b| <= count * size || cur == (count + 1) / 2 - 1 || data == []
  }

  /** What a write that does not keep the capacity takes of `b`: it is cut by the room at the current leaf, as if that
      leaf were empty, and by the last leaf, as if it held two segments. */
  function Overrun(count: nat, size: nat, data: Bytes, cur: nat, b: Bytes): int {
    Min(Min(|b|, Room(count, size, cur)), count * size + size - |data|)
  }

  lemma {:induction false} LoopEnd(count: nat, size: nat, launched: seq<Bytes>, segment: Bytes, data: Bytes, b: Bytes,
                                   v: Loop)
    requires Buffered(count, size, launched, segment) && data == Flatten(launched) + segment
    requires v.cur == |launched| && LoopInv(count, size, data, b, v)
    requires v.need <= 0 || v.i == (count + 1) / 2 - 1
    requires v.total == Min(|b|, Room(count, size, v.cur))
    ensures Keeps(count, size, data, v.cur, b) <==>
            Flatten(v.launched) + v.s == Truncate(data + b, count * size)
    ensures Keeps(count, size, data, v.cur, b) ==> Buffered(count, size, v.launched, v.s)
    ensures !Keeps(count, size, data, v.cur, b) ==>
      && count * size - |data| < Overrun(count, size, data, v.cur, b) <= |b|
      && Flatten(v.launched) + v.s == data + b[..Overrun(count, size, data, v.cur, b)]
  {
    hide Room, Flatten, Truncate;
    RoomFacts(count, size, v.i);
    RoomFacts(count, size, v.cur);
    if v.cur < v.i { RoomDrop(count, size, v.cur, v.i); }
    assert |Flatten(v.launched) + v.s| == |data + b[..v.rest]|;
    CutPoint(data, b, v.rest, count * size);
    var last := (count + 1) / 2 - 1;
    LoopAmount(count % 2 == 1, size, v.cur == 0, v.i == last, v.i == v.cur,
               Room(count, size, v.cur), Room(count, size, v.i),
               |segment|, |v.s|, v.rest, v.need, v.total, |b|, v.sz);
  }

  lemma {:induction false} EmptyWrite(data: Bytes, b: Bytes, cap: nat)
    requires b == [] && |data| <= cap
    ensures Truncate(data + b, cap) == data
  {
    assert data + b == data;
  }

  /** The loop of `Write`: push finished segments, keep the last, possibly short, one open. */
  method PushSegments(count: nat, size: nat, ghost data: Bytes, b: Bytes, v0: Loop) returns (v: Loop)
    requires LoopInv(count, size, data, b, v0)
    ensures LoopInv(count, size, data, b, v) && v.cur == v0.cur && v.total == v0.total
    ensures v.need <= 0 || v.i == (count + 1) / 2 - 1
  {
    var launched, i, s, need, rest, sz := v0.launched, v0.i, v0.s, v0.need, v0.rest, v0.sz;
    ghost var w := v0;
    while need > 0 && i < (count + 1) / 2 - 1
      invariant i >= 0 && rest >= 0 && sz >= 0
      invariant w == Loop(v0.cur, v0.total, i, launched, s, need, rest, sz)
      invariant LoopInv(count, size, data, b, w)
    {
      LoopStep(count, size, data, b, w);
      w := LoopBody(b, w);
      launched := launched + [s];
      need := need - sz;
      sz := if need < 0 then sz + need else sz;
      s := b[rest..rest + sz];
      rest := rest + sz;
      i := i + 1;
    }
    v := Loop(v0.cur, v0.total, i, launched, s, need, rest, sz);
  }

  /** The body of `Write` for non-empty input. */
  method TakeSegments(count: nat, size: nat, launched: seq<Bytes>, segment: Bytes, b: Bytes)
    returns (launched': seq<Bytes>, segment': Bytes)
    requires Buffered(count, size, launched, segment) && b != []
    ensures Keeps(count, size, Flatten(launched) + segment, |launched|, b) <==>
            Flatten(launched') + segment' == Truncate(Flatten(launched) + segment + b, count * size)
    ensures Keeps(count, size, Flatten(launched) + segment, |launched|, b) ==>
            Buffered(count, size, launched', segment')
    ensures var d := Flatten(launched) + segment; !Keeps(count, size, d, |launched|, b) ==>
      && count * size - |d| < Overrun(count, size, d, |launched|, b) <= |b|
      && Flatten(launched') + segment' == d + b[..Overrun(count, size, d, |launched|, b)]
  {
    var cur := |launched|;
    RoomFacts(count, size, cur);
    var need := count * size - cur * 2 * size;
    var sz := if need > size then size * 2 else size;
    need := if |b| < need then |b| else need;
    var rest := if need < sz - |segment| then need else sz - |segment|;
    ghost var data := Flatten(launched) + segment;
    var v := Loop(cur, need, cur, launched, segment + b[..rest], need - rest, rest, sz);
    LoopStart(count, size, launched, segment, b, v);
    v := PushSegments(count, size, data, b, v);
    LoopEnd(count, size, launched, segment, data, b, v);
    launched', segment' := v.launched, v.s;
  }

  class Writer {
    const size: nat
    const count: nat
    var cur: nat
    var segment: Bytes
    /** Segments handed to `writeSegment` so far; the `i`-th went to leaf `i`. */
    var launched: seq<Bytes>

    function Data(): Bytes
      reads this
    {
      Flatten(launched) + segment
    }

    ghost predicate Valid()
      reads this
    {
      cur == |launched| && Buffered(count, size, launched, segment)
    }

    predicate KeepsCapacity(b: Bytes)
      reads this
    {
      Keeps(count, size, Data(), cur, b)
    }

    constructor (size: nat, count: nat)
      requires size > 0 && count >= 1
      ensures Valid() && Data() == [] && this.size == size && this.count == count
    {
      this.size, this.count := size, count;
      cur, segment, launched := 0, [], [];
      RoomFacts(count, size, 0);
    }

    /** Appends up to capacity. With an odd segment count a write that overflows from an earlier
        leaf is not cut at the capacity. */
    method Write(b: Bytes) returns (n: nat)
      requires Valid()
      modifies this`cur, this`segment, this`launched
      ensures n == |b|
      ensures old(KeepsCapacity(b)) <==> Data() == Truncate(old(Data()) + b, count * size)
      ensures old(KeepsCapacity(b)) ==> Valid()
      ensures var taken := Overrun(count, size, old(Data()), old(cur), b);
        !old(KeepsCapacity(b)) ==> count * size - |old(Data())| < taken <= |b| && Data() == old(Data()) + b[..taken]
    {
      if b != [] {
        launched, segment := TakeSegments(count, size, launched, segment, b);
        cur := |launched|;
      } else {
        RoomFacts(count, size, cur);
        EmptyWrite(Data(), b, count * size);
      }
      n := |b|;
    }
  }

  /** Three one-byte segments are the capacity, yet four bytes are held. */
  method OverCapacity() returns (held: Bytes)
    ensures held == [1, 2, 3, 4] && |held| > 3 * 1
  {
    var w := new Writer(1, 3);
    var _ := w.Write([1]);
    assert w.Data() == [1];
    assert w.cur == 0 by { RoomFacts(3, 1, w.cur); }
    var _ := w.Write([2, 3, 4]);
    held := w.Data();
  }

  /** Full segments followed by a non-empty rest are the only way to cut data into leaves. */
  lemma {:induction false} SegmentsAreChunks(launched: seq<Bytes>, segment: Bytes, leaf: nat)
    requires leaf > 0 && |segment| <= leaf && (launched != [] ==> segment != [])
    requires forall i :: 0 <= i < |launched| ==> |launched[i]| == leaf
    ensures Chunks(Flatten(launched) + segment, leaf) == launched + [segment]
  {
    if launched == [] {
      assert Flatten(launched) + segment == segment;
    } else {
      FlattenFirst(launched);
      var d := Flatten(launched) + segment;
      assert d == launched[0] + (Flatten(launched[1..]) + segment);
      assert d[leaf..] == Flatten(launched[1..]) + segment;
      SegmentsAreChunks(launched[1..], segment, leaf);
    }
  }

  lemma {:induction false} FlattenFirst(parts: seq<Bytes>)
    requires parts != []
    ensures Flatten(parts) == parts[0] + Flatten(parts[1..])
  {
    if |parts| > 1 {
      FlattenFirst(parts[..|parts| - 1]);
      assert parts[..|parts| - 1][1..] == parts[1..][..|parts| - 2];
    }
  }

  lemma {:induction false} TruncateTwice(d: Bytes, b: Bytes, cap: nat)
    ensures Truncate(Truncate(d, cap) + b, cap) == Truncate(d + b, cap)
  {
    if |d| > cap {
      assert (Truncate(d, cap) + b)[..cap] == d[..cap] == (d + b)[..cap];
    }
  }

  /** Writes after which exactly what fits is kept: any at all for an even segment count, otherwise those within
      capacity and a single one of any length. */
  predicate Cut(count: nat, size: nat, parts: seq<Bytes>) {
    count % 2 == 0 || |Flatten(parts)| <= count * size || |parts| <= 1
  }

  lemma {:induction false} CutKeeps(count: nat, size: nat, parts: seq<Bytes>, k: nat, cur: nat)
    requires Cut(count, size, parts) && k < |parts|
    ensures Keeps(count, size, Truncate(Flatten(parts[..k]), count * size), cur, parts[k])
    ensures Truncate(Truncate(Flatten(parts[..k]), count * size) + parts[k], count * size)
         == Truncate(Flatten(parts[..k + 1]), count * size)
  {
    assert parts[..k + 1][..k] == parts[..k];
    FlattenPrefix(parts, k + 1);
    TruncateTwice(Flatten(parts[..k]), parts[k], count * size);
    if |parts| == 1 { assert parts[..k] == []; }
  }

  /** Every way of splitting data into writes leaves the same leaves for the hashing goroutines. */
  method WriteAll(size: nat, count: nat, parts: seq<Bytes>) returns (chunks: seq<Bytes>)
    requires size > 0 && count >= 1 && Cut(count, size, parts)
    ensures chunks == Chunks(Truncate(Flatten(parts), count * size), 2 * size)
  {
    hide Flatten, Keeps, Truncate, Cut;
    var w := new Writer(size, count);
    assert Truncate(Flatten(parts[..0]), count * size) == [] by { NothingWritten(parts, count * size); }
    for k := 0 to |parts|
      invariant fresh(w) && w.Valid() && w.size == size && w.count == count
      invariant w.Data() == Truncate(Flatten(parts[..k]), count * size)
    {
      CutKeeps(count, size, parts, k, w.cur);
      var _ := w.Write(parts[k]);
    }
    assert parts[..|parts|] == parts;
    SegmentsAreChunks(w.launched, w.segment, 2 * size);
    chunks := w.launched + [w.segment];
  }

  lemma {:induction false} NothingWritten(parts: seq<Bytes>, cap: nat)
    ensures Truncate(Flatten(parts[..0]), cap) == []
  {
    assert parts[..0] == [];
  }

  lemma {:induction false} FlattenPrefix(parts: seq<Bytes>, k: nat)
    requires k <= |parts|
    ensures |Flatten(parts[..k])| <= |Flatten(parts)|
    decreases |parts|
  {
    if k < |parts| {
      FlattenPrefix(parts[..|parts| - 1], k);
      assert parts[..|parts| - 1][..k] == parts[..k];
    } else {
      assert parts[..k] == parts;
    }
  }
}
