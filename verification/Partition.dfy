/**
 How ortoa-lbl splits a value of `v` bytes over `t` parallel parts, and which two-bit
 slots each part of the server really touches.  The proxy advances its buffer
 pointers by start * 4 slots; the server advances by start * 1 slots
 (ortoa-lbl/server.cpp:65-71).  `stride` is that factor: 4 as intended, 1 as written.
 */
module Partition {
  function Min(a: int, b: int): int { if a < b then a else b }

  function Max(a: int, b: int): int { if a < b then b else a }

  function PartSize(v: nat, t: nat): nat
    requires t > 0
  {
    v / t + (if v % t != 0 then 1 else 0)
  }

  function Start(v: nat, t: nat, part: nat): nat
    requires t > 0
  {
    part * PartSize(v, t)
  }

  function Limit(v: nat, t: nat, part: nat): nat
    requires t > 0
  {
    Min((part + 1) * PartSize(v, t), v)
  }

  predicate Parameters(v: nat, t: nat, stride: nat) {
    v > 0 && t > 0 && (stride == 1 || stride == 4)
  }

  lemma MulMonotone(a: nat, b: nat, c: nat)
    requires a <= b
    ensures a * c <= b * c
  {}

  // The part size is the ceiling of v / t.
  lemma PartSizeIsCeiling(v: nat, t: nat)
    requires v > 0 && t > 0
    ensures (PartSize(v, t) - 1) * t < v <= PartSize(v, t) * t
    ensures 1 <= PartSize(v, t) <= v
  {
    var q, r := v / t, v % t;
    assert v == q * t + r;
    assert (q + 1) * t == q * t + t;
    assert (q - 1) * t == q * t - t;
    if q > 0 {
      MulMonotone(1, t, q);
    }
  }

  lemma PartSizeIsPositive(v: nat, t: nat)
    requires v > 0 && t > 0
    ensures PartSize(v, t) > 0
  {
    PartSizeIsCeiling(v, t);
  }

  lemma DivUnique(i: nat, p: nat, q: nat)
    requires p > 0
    requires q * p <= i < (q + 1) * p
    ensures q == i / p
  {
    var d := i / p;
    assert i == d * p + i % p;
    if q < d {
      MulMonotone(q + 1, d, p);
    } else if q > d {
      MulMonotone(d + 1, q, p);
    }
  }

  // Proxy partition: every byte position belongs to exactly one part, namely part i / P.
  lemma PartsCoverEachByteOnce(v: nat, t: nat, i: nat)
    requires t > 0 && i < v
    ensures var owner := i / PartSize(v, t);
            && owner < t
            && Start(v, t, owner) <= i < Limit(v, t, owner)
            && forall q: nat :: q < t && Start(v, t, q) <= i < Limit(v, t, q) ==> q == owner
  {
    PartSizeIsCeiling(v, t);
    var p := PartSize(v, t);
    var owner := i / p;
    assert i == owner * p + i % p;
    assert (owner + 1) * p == owner * p + p;
    if owner >= t {
      MulMonotone(t, owner, p);
    }
    forall q: nat | q < t && Start(v, t, q) <= i < Limit(v, t, q)
      ensures q == owner
    {
      DivUnique(i, p, q);
    }
  }

  // The part of the proxy that handles slot n.
  function SlotOwner(v: nat, t: nat, n: nat): nat
    requires v > 0 && t > 0
  {
    PartSizeIsPositive(v, t);
    n / 4 / PartSize(v, t)
  }

  lemma PartsCoverEachSlotOnce(v: nat, t: nat)
    requires v > 0 && t > 0
    ensures forall n: nat :: n < 4 * v ==> SlotOwner(v, t, n) < t
    ensures forall n: nat, part: nat :: n < 4 * v && part < t ==>
              (4 * Start(v, t, part) <= n < 4 * Limit(v, t, part) <==> part == SlotOwner(v, t, n))
  {
    forall n: nat | n < 4 * v
      ensures SlotOwner(v, t, n) < t
      ensures forall part: nat :: part < t ==>
                (4 * Start(v, t, part) <= n < 4 * Limit(v, t, part) <==> part == SlotOwner(v, t, n))
    {
      PartsCoverEachByteOnce(v, t, n / 4);
    }
  }

  lemma Advance(a: nat, b: nat, width: nat)
    requires a <= b
    ensures a * 4 * width + (b - a) * (4 * width) == b * 4 * width
  {
    var d := b - a;
    assert (a + d) * (4 * width) == a * (4 * width) + d * (4 * width);
  }

  // Part p begins exactly where part p - 1 ended, in bytes of the value and (scaled by the
  // four cells per byte and any cell width) in bytes of an encrypted table; parts past the
  // end of the value are empty.
  lemma PartsAreConsecutive(v: nat, t: nat, part: nat, width: nat)
    requires v > 0 && t > 0 && part > 0
    ensures Start(v, t, part) <= v ==>
              Limit(v, t, part - 1) == Start(v, t, part) && Start(v, t, part - 1) < Start(v, t, part)
    ensures Start(v, t, part) <= v ==>
              Start(v, t, part - 1) * 4 * width + (Limit(v, t, part - 1) - Start(v, t, part - 1)) * (4 * width)
              == Start(v, t, part) * 4 * width
    ensures Start(v, t, part) >= v ==> Limit(v, t, part) <= Start(v, t, part)
  {
    PartSizeIsCeiling(v, t);
    var p := PartSize(v, t);
    assert part * p == (part - 1) * p + p;
    assert (part + 1) * p == part * p + p;
    if Start(v, t, part) <= v {
      Advance(Start(v, t, part - 1), Start(v, t, part), width);
    }
  }

  /* ---------- the server's portions ---------- */

  // The first slot decryptPortion(part, ..) reads and writes ...
  function PortionBase(v: nat, t: nat, stride: nat, part: nat): nat
    requires t > 0
  {
    stride * Start(v, t, part)
  }

  // ... and how many consecutive slots it visits (zero for a surplus part).
  function PortionLength(v: nat, t: nat, part: nat): nat
    requires t > 0
  {
    4 * Max(0, Limit(v, t, part) - Start(v, t, part))
  }

  ghost predicate InPortion(v: nat, t: nat, stride: nat, part: nat, n: nat)
    requires t > 0
  {
    PortionBase(v, t, stride, part) <= n < PortionBase(v, t, stride, part) + PortionLength(v, t, part)
  }

  ghost predicate InSomePortion(v: nat, t: nat, stride: nat, n: nat)
    requires t > 0
  {
    exists part: nat :: part < t && InPortion(v, t, stride, part, n)
  }

  // The number of slots the t portions reach together: with P = PartSize and r = v % P,
  // all of them for stride 4, and (v - r) + max(3P, 4r) for stride 1.
  function Coverage(v: nat, t: nat, stride: nat): nat
    requires Parameters(v, t, stride)
  {
    PartSizeIsPositive(v, t);
    var p := PartSize(v, t);
    var r := v % p;
    if stride == 4 then 4 * v else (v - r) + Max(3 * p, 4 * r)
  }

  // The number of parts that get a full share.
  function FullParts(v: nat, t: nat): nat
    requires v > 0 && t > 0
  {
    PartSizeIsPositive(v, t);
    v / PartSize(v, t)
  }

  lemma FullPartsBounds(v: nat, t: nat)
    requires v > 0 && t > 0
    ensures var p := PartSize(v, t); var k := FullParts(v, t);
            p > 0 && k * p == v - v % p && 1 <= k <= t && (v % p > 0 ==> k < t)
  {
    PartSizeIsCeiling(v, t);
    var p := PartSize(v, t);
    DivFacts(v, p);
    var k := FullParts(v, t);
    if k > t {
      MulMonotone(t + 1, k, p);
    } else if k == t {
      assert t * p == p * t;
    }
  }

  lemma DivFacts(v: nat, p: nat)
    requires 0 < p <= v
    ensures (v / p) * p == v - v % p && v / p >= 1
  {
    assert v == (v / p) * p + v % p;
  }

  // The three kinds of part: full, last partial, surplus.
  lemma PartKinds(v: nat, t: nat, part: nat)
    requires v > 0 && t > 0
    ensures var p := PartSize(v, t); var k := FullParts(v, t); var start := Start(v, t, part);
            && p > 0
            && (part < k ==> Limit(v, t, part) == start + p && start + p <= v - v % p)
            && (part + 1 == k ==> start + p == v - v % p)
            && (part == k ==> Limit(v, t, part) == v && start == v - v % p)
            && (part > k ==> Limit(v, t, part) <= start)
  {
    FullPartsBounds(v, t);
    var p := PartSize(v, t);
    var k := FullParts(v, t);
    assert (part + 1) * p == part * p + p;
    if part < k {
      MulMonotone(part + 1, k, p);
    } else if part > k {
      MulMonotone(k + 1, part, p);
      assert (k + 1) * p == k * p + p;
    }
  }

  lemma PortionStaysBelowCoverage(v: nat, t: nat, stride: nat, part: nat, n: nat)
    requires Parameters(v, t, stride)
    requires InPortion(v, t, stride, part, n)
    ensures n < Coverage(v, t, stride)
  {
    PartKinds(v, t, part);
  }

  lemma CoveredSlotIsInAPortion(v: nat, t: nat, stride: nat, n: nat)
    requires Parameters(v, t, stride)
    requires n < Coverage(v, t, stride)
    ensures InSomePortion(v, t, stride, n)
  {
    var part := PortionOf(v, t, stride, n);
    FullPartsBounds(v, t);
    PartKinds(v, t, part);
    assert InPortion(v, t, stride, part, n) by {
      if stride == 4 {
        PortionOfFour(v, t, n);
      } else {
        PortionOfOne(v, t, n);
      }
    }
  }

  lemma FullPartsIsPositive(v: nat, t: nat)
    requires v > 0 && t > 0
    ensures PartSize(v, t) > 0 && FullParts(v, t) > 0
  {
    FullPartsBounds(v, t);
  }

  // A portion that reaches slot n.
  function PortionOf(v: nat, t: nat, stride: nat, n: nat): nat
    requires Parameters(v, t, stride)
  {
    FullPartsIsPositive(v, t);
    var p := PartSize(v, t);
    var r := v % p;
    var i := if stride == 4 then n / 4 else n;
    if i < v - r then i / p
    else if stride == 4 || n < v + 3 * r then FullParts(v, t)
    else FullParts(v, t) - 1
  }

  lemma PortionOfFour(v: nat, t: nat, n: nat)
    requires v > 0 && t > 0 && n < 4 * v
    ensures PortionOf(v, t, 4, n) < t && InPortion(v, t, 4, PortionOf(v, t, 4, n), n)
  {
    var part := PortionOf(v, t, 4, n);
    FullPartsBounds(v, t);
    PartKinds(v, t, part);
    if n / 4 < v - v % PartSize(v, t) {
      FullOwner(v, t, n / 4);
    }
  }

  lemma PortionOfOne(v: nat, t: nat, n: nat)
    requires v > 0 && t > 0 && n < Coverage(v, t, 1)
    ensures PortionOf(v, t, 1, n) < t && InPortion(v, t, 1, PortionOf(v, t, 1, n), n)
  {
    var part := PortionOf(v, t, 1, n);
    FullPartsBounds(v, t);
    PartKinds(v, t, part);
    if n < v - v % PartSize(v, t) {
      FullOwner(v, t, n);
    }
  }

  lemma FullOwner(v: nat, t: nat, i: nat)
    requires v > 0 && t > 0
    requires PartSize(v, t) > 0 && i < v - v % PartSize(v, t)
    ensures var q := i / PartSize(v, t);
            q < FullParts(v, t) && Start(v, t, q) <= i < Start(v, t, q) + PartSize(v, t)
  {
    FullPartsBounds(v, t);
    var p := PartSize(v, t);
    var q := i / p;
    OwnerOfByte(i, p, q);
    if q >= FullParts(v, t) {
      MulMonotone(FullParts(v, t), q, p);
    }
  }

  lemma OwnerOfByte(i: nat, p: nat, q: nat)
    requires p > 0 && q == i / p
    ensures q * p <= i < q * p + p
  {
    assert i == (i / p) * p + i % p;
  }

  // The parts write exactly a gap-free prefix of the slots, never past the end of the
  // buffer, and all of it exactly when the stride is right or one part holds the value.
  lemma CoverageIsExact(v: nat, t: nat, stride: nat)
    requires Parameters(v, t, stride)
    ensures forall n: nat :: InSomePortion(v, t, stride, n) <==> n < Coverage(v, t, stride)
    ensures Coverage(v, t, stride) <= 4 * v
    ensures Coverage(v, t, stride) == 4 * v <==> stride == 4 || PartSize(v, t) >= v
  {
    forall n: nat
      ensures InSomePortion(v, t, stride, n) <==> n < Coverage(v, t, stride)
    {
      if InSomePortion(v, t, stride, n) {
        var part: nat :| part < t && InPortion(v, t, stride, part, n);
        PortionStaysBelowCoverage(v, t, stride, part, n);
      }
      if n < Coverage(v, t, stride) {
        CoveredSlotIsInAPortion(v, t, stride, n);
      }
    }
    CoverageVersusWhole(v, t);
  }

  lemma CoverageVersusWhole(v: nat, t: nat)
    requires v > 0 && t > 0
    ensures Coverage(v, t, 1) <= 4 * v
    ensures Coverage(v, t, 1) == 4 * v <==> PartSize(v, t) >= v
  {
    FullPartsBounds(v, t);
    PartSizeIsCeiling(v, t);
    var p := PartSize(v, t);
    var k := FullParts(v, t);
    assert k == 1 ==> k * p == p;
    if k >= 2 {
      MulMonotone(2, k, p);
    }
  }

  // With the shipped constants (160 bytes, 64 server parts) the server as written
  // reaches 168 of the 640 slots, that is the first 42 bytes of a value.
  lemma ShippedCoverage()
    ensures Coverage(160, 64, 1) == 168 && Coverage(160, 64, 4) == 640
  {}
}
