/** The non-concurrent reference hasher of bmt/bmt_r.go and the tree it denotes. */
module BmtReference {

  newtype Byte = x: int | 0 <= x < 256

  type Bytes = seq<Byte>

  /** The base hash is foreign: any function on byte strings. */
  type BaseHash = Bytes -> Bytes

  function Pow2(n: nat): (p: nat)
    ensures p >= 1
  {
    if n == 0 then 1 else 2 * Pow2(n - 1)
  }

  /** `w` doubled `k` times. */
  function Span(w: nat, k: nat): (s: nat)
    ensures w > 0 ==> s > 0
  {
    if k == 0 then w else 2 * Span(w, k - 1)
  }

  lemma {:induction false} SpanIsPow2(w: nat, k: nat)
    ensures Span(w, k) == Pow2(k) * w
  {
    if k > 0 { SpanIsPow2(w, k - 1); }
  }

  lemma {:induction false} SpanMono(w: nat, a: nat, b: nat)
    requires a <= b
    ensures Span(w, a) <= Span(w, b)
  {
    if a < b { SpanMono(w, a, b - 1); }
  }

  lemma {:induction false} Pow2Mono(a: nat, b: nat)
    requires a <= b
    ensures Pow2(a) <= Pow2(b)
  {
    if a < b { Pow2Mono(a, b - 1); }
  }

  /** Halving of the span until it is shorter than the data. */
  function Halve(s: nat, l: nat): (t: nat)
    requires l > 0
    ensures t < l
    ensures s > 0 && l > 1 ==> t > 0
  {
    if s >= l then Halve(s / 2, l) else s
  }

  /** What `RefHasher.hash(d, s)` returns for hash size `hs`. */
  function RefHash(h: BaseHash, hs: nat, d: Bytes, s: nat): Bytes
    requires hs > 0 && s > 0
    decreases |d|
  {
    if |d| <= 2 * hs then h(d)
    else
      var t := Halve(s, |d|);
      var left := RefHash(h, hs, d[..t], t);
      var right := if |d| - t > hs then RefHash(h, hs, d[t..], t) else d[t..];
      h(left + right)
  }

  /** The binary tree over 2*hs-byte leaves: the value of a node of height `k` that covers `d`. */
  function TreeValue(h: BaseHash, hs: nat, d: Bytes, k: nat): Bytes
    requires hs > 0
    decreases k
  {
    if k == 0 then
      if |d| > hs then h(d) else d
    else
      var half := Span(hs, k);
      if |d| <= half then TreeValue(h, hs, d, k - 1)
      else h(TreeValue(h, hs, d[..half], k - 1) + TreeValue(h, hs, d[half..], k - 1))
  }

  /** Halving a span stops at the largest doubling of `hs` below the length. */
  lemma {:induction false} HalveFindsLevel(hs: nat, m: nat, k: nat, l: nat)
    requires hs > 0 && k <= m
    requires Span(hs, k) < l <= Span(hs, k + 1)
    ensures Halve(Span(hs, m), l) == Span(hs, k)
  {
    if k < m {
      SpanMono(hs, k + 1, m);
      HalveFindsLevel(hs, m - 1, k, l);
    }
  }

  lemma {:induction false} ShortDataPassesThrough(h: BaseHash, hs: nat, d: Bytes, k: nat)
    requires hs > 0 && |d| <= hs
    ensures TreeValue(h, hs, d, k) == d
  {
    if k > 0 {
      SpanMono(hs, 0, k);
      ShortDataPassesThrough(h, hs, d, k - 1);
    }
  }

  /** The recursive reference hash computes the value of the tree. */
  lemma {:induction false} RefHashIsTreeValue(h: BaseHash, hs: nat, d: Bytes, k: nat, m: nat)
    requires hs > 0 && k <= m
    requires hs < |d| <= Span(hs, k + 1)
    ensures RefHash(h, hs, d, Span(hs, m)) == TreeValue(h, hs, d, k)
    decreases k
  {
    if k > 0 {
      var half := Span(hs, k);
      if |d| <= half {
        RefHashIsTreeValue(h, hs, d, k - 1, m);
      } else {
        HalveFindsLevel(hs, m, k, |d|);
        SpanMono(hs, 1, k);
        RefHashIsTreeValue(h, hs, d[..half], k - 1, k);
        if |d| - half > hs {
          RefHashIsTreeValue(h, hs, d[half..], k - 1, k);
        } else {
          ShortDataPassesThrough(h, hs, d[half..], k - 1);
        }
      }
    }
  }
}
