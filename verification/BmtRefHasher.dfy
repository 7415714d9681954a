/** `RefHasher` of bmt/bmt_r.go as an object, and the depth computation of bmt/bmt.go. */
module BmtRefHasher {
  import opened BmtReference

  function HalvingSteps(l: nat): nat {
    if l == 0 then 0 else 1 + HalvingSteps(l / 2)
  }

  /** Index of the leaf level of a tree for `n` segments. */
  function Depth(n: nat): nat
    requires n >= 1
  {
    HalvingSteps((n - 1) / 2)
  }

  /** Exponent of the reference hasher's initial span. */
  function SpanExponent(count: nat): nat
    requires count >= 1
  {
    if count <= 2 then 1 else Depth(count)
  }

  lemma {:induction false} HalvingStepsBounds(l: nat)
    requires l > 0
    ensures HalvingSteps(l) >= 1
    ensures Pow2(HalvingSteps(l) - 1) <= l < Pow2(HalvingSteps(l))
  {
    if l > 1 {
      HalvingStepsBounds(l / 2);
      assert Pow2(HalvingSteps(l) - 1) == 2 * Pow2(HalvingSteps(l / 2) - 1);
    } else {
      assert HalvingSteps(1) == 1 + HalvingSteps(0);
    }
  }

  /** The tree is the smallest full one whose leaves hold `n` segments, two in each. */
  lemma DepthBounds(n: nat)
    requires n >= 1
    ensures n <= Pow2(Depth(n) + 1)
    ensures n >= 3 ==> Depth(n) >= 1 && Pow2(Depth(n)) < n
  {
    if n >= 3 {
      HalvingStepsBounds((n - 1) / 2);
      assert Pow2(Depth(n)) == 2 * Pow2(Depth(n) - 1);
    } else {
      assert Pow2(1) == 2;
    }
  }

  method ComputeDepth(n: nat) returns (d: nat)
    requires n >= 1
    ensures d == Depth(n)
  {
    d := 0;
    var l: nat := (n - 1) / 2;
    while l > 0
      invariant d + HalvingSteps(l) == Depth(n)
    {
      d := d + 1;
      l := l / 2;
    }
  }

  class RefHasher {
    const h: BaseHash
    const hashSize: nat
    var span: nat
    var section: nat
    var cap: nat
    /** Bytes written to the base hasher since its last reset. */
    var buf: Bytes

    ghost predicate Valid(count: nat)
      requires count >= 1
      reads this
    {
      && hashSize > 0
      && section == 2 * hashSize
      && cap == hashSize * count
      && span == Span(hashSize, SpanExponent(count))
      && buf == []
    }

    constructor (h: BaseHash, hashSize: nat, count: nat)
      requires hashSize > 0 && count >= 1
      ensures Valid(count)
      ensures this.h == h && this.hashSize == hashSize
    {
      var c := 2;
      ghost var e := 1;
      while c < count
        invariant c == Pow2(e) && e >= 1
        invariant c == 2 || Pow2(e - 1) < count
        decreases count - c
      {
        c := c * 2;
        e := e + 1;
      }
      if c > 2 {
        c := c / 2;
      }
      this.h, this.hashSize := h, hashSize;
      section, span, cap, buf := 2 * hashSize, c * hashSize, hashSize * count, [];
      SpanIsPow2(hashSize, SpanExponent(count));
      if count > 2 {
        DepthBounds(count);
        SamePower(e - 1, Depth(count), count);
      } else {
        assert Pow2(1) == 2;
      }
    }

    /** Hashes at most `cap` bytes; the base hasher is left reset. */
    method Hash(d: Bytes, ghost count: nat) returns (r: Bytes)
      requires count >= 1 && Valid(count)
      modifies this`buf
      ensures Valid(count)
      ensures r == RefHash(h, hashSize, if |d| > cap then d[..cap] else d, span)
    {
      if |d| > cap {
        r := HashSpan(d[..cap], span);
      } else {
        r := HashSpan(d, span);
      }
    }

    method HashSpan(d: Bytes, span0: nat) returns (r: Bytes)
      requires hashSize > 0 && section == 2 * hashSize && span0 > 0 && buf == []
      modifies this`buf
      ensures buf == []
      ensures r == RefHash(h, hashSize, d, span0)
      decreases |d|
    {
      var s, l := span0, |d|;
      var left, right := d, [];
      if l > section {
        while s >= l
          invariant s > 0
          invariant Halve(s, l) == Halve(span0, l)
        {
          s := s / 2;
        }
        left := HashSpan(d[..s], s);
        right := d[s..];
        if l - s > section / 2 {
          right := HashSpan(right, s);
        }
      } else {
        assert d + [] == d;
      }
      buf := buf + left;
      buf := buf + right;
      assert buf == left + right;
      r := h(buf);
      buf := [];
    }
  }

  /** At most one power of two lies in [n/2, n). */
  lemma SamePower(a: nat, b: nat, n: nat)
    requires Pow2(a) < n <= Pow2(a + 1)
    requires Pow2(b) < n <= Pow2(b + 1)
    ensures a == b
  {
    if a < b {
      Pow2Mono(a + 1, b);
    } else if b < a {
      Pow2Mono(b + 1, a);
    }
  }
}
