/** Difficulties, targets and compact bits. Division of big floats is exact division followed by an
    arbitrary monotone rounding that leaves powers of two alone. */
module Targets {
  import opened Bytes
  import opened Arithmetic

  /** maxTarget, which the 53-bit float literal of the code rounds up to 2^224. */
  const M: nat := 0x1_0000_0000_0000_0000_0000_0000_0000_0000_0000_0000_0000_0000_0000_0000

  /** The power of two 2^241, which every binary float holds exactly. */
  const TOP: nat := 0x2_0000 * M

  /** What the model needs of a big.Float result: order and sign are kept, and 2^241 is exact. */
  ghost predicate IsRounding(rnd: real -> real) {
    && (forall x, y :: x <= y ==> rnd(x) <= rnd(y))
    && (forall x :: x >= 0.0 ==> rnd(x) >= 0.0)
    && rnd(TOP as real) == TOP as real
  }

  function Quo(rnd: real -> real, a: real, b: real): real
    requires b > 0.0
  {
    rnd(a / b)
  }

  /** The integer part, truncated toward zero. */
  function Trunc(x: real): (n: nat)
    ensures x >= 0.0 ==> n as real <= x < n as real + 1.0
  {
    if x >= 0.0 then x.Floor else 0
  }

  function DiffToTarget(rnd: real -> real, diff: real): nat
    requires diff > 0.0
  {
    Trunc(Quo(rnd, M as real, diff))
  }

  function TargetToDiff(rnd: real -> real, target: nat): real
    requires target > 0
  {
    Quo(rnd, M as real, target as real)
  }

  // ---------------------------------------------------------------- order

  /** A harder difficulty never gives a larger target. */
  lemma DiffToTargetFalls(rnd: real -> real, d: real, e: real)
    requires IsRounding(rnd) && 0.0 < d <= e
    ensures DiffToTarget(rnd, e) <= DiffToTarget(rnd, d)
  {
    QuotientFalls(M as real, d, e);
    assert rnd(M as real / e) <= rnd(M as real / d);
    assert rnd(M as real / e) >= 0.0;
  }

  lemma TargetToDiffFalls(rnd: real -> real, s: nat, t: nat)
    requires IsRounding(rnd) && 0 < s <= t
    ensures TargetToDiff(rnd, t) <= TargetToDiff(rnd, s)
  {
    QuotientFalls(M as real, s as real, t as real);
  }

  /** Converting a difficulty to a target and back, in exact arithmetic, never lowers it and raises it
      by less than one part in the target. */
  lemma RoundTripDrift(d: real)
    requires 0.0 < d <= M as real
    ensures var t := DiffToTarget(x => x, d);
      && t >= 1
      && 0.0 <= TargetToDiff(x => x, t) - d < d / t as real
  {
    FloorDrift(M as real, d);
  }

  /** In exact arithmetic the target is the largest whole number that, times the difficulty, stays within 2^224. */
  lemma TargetIsLargest(d: real)
    requires d > 0.0
    ensures var t := DiffToTarget(x => x, d); t as real * d <= Pow(2, 224) as real < (t as real + 1.0) * d
  {
    QuotientTimes(M as real, d);
    Pow224();
    var q := M as real / d;
    assert q >= 0.0 by { Compare(0.0, q, d); }
    var t := DiffToTarget(x => x, d);
    Compare(t as real, q, d);
    Compare(t as real + 1.0, q, d);
  }

  lemma Pow224()
    ensures Pow(2, 224) == M
  {
    PowOfPow(28);
    Widths();
    PowAdd(256, 8, 4);
    PowAdd(256, 8, 8);
    PowAdd(256, 16, 12);
  }

  lemma FloorDrift(m: real, d: real)
    requires 0.0 < d <= m
    ensures var t := (m / d).Floor;
      && t >= 1
      && 0.0 <= m / t as real - d < d / t as real
  {
    QuotientTimes(m, d);
    FloorOf(m / d, m, d);
    var t := (m / d).Floor as real;
    QuotientTimes(m, t);
    QuotientTimes(d, t);
    Drift(m / d, d, t, m / t, d / t);
  }

  lemma FloorOf(q: real, m: real, d: real)
    requires 0.0 < d <= m && q * d == m
    ensures q.Floor >= 1
  {
    Compare(1.0, q, d);
  }

  lemma Drift(q: real, d: real, t: real, back: real, e: real)
    requires d > 0.0 && t > 0.0 && t <= q < t + 1.0 && back * t == q * d && e * t == d
    ensures 0.0 <= back - d < e
  {
    Compare(t, q, d);
    Compare(t + 1.0, q, d);
    var above := (t + 1.0) * d;
    assert above == t * d + d;
    assert t * d + d == d * t + e * t;
    assert d * t + e * t == (d + e) * t;
    Compare(d, back, t);
    assert back * t < (d + e) * t;
    Compare(d + e, back, t);
  }

  // ---------------------------------------------------------------- the advertised target

  /** The magnitude of a number, most significant byte first and without leading zeros. */
  function BigEndian(v: nat): (s: seq<byte>)
  {
    if v == 0 then [] else BigEndian(v / 256) + [v % 256]
  }

  lemma {:induction false} BigEndianLength(v: nat, n: nat)
    requires v < Pow(256, n)
    ensures |BigEndian(v)| <= n
  {
    if v == 0 {
    } else {
      assert v / 256 < Pow(256, n - 1);
      BigEndianLength(v / 256, n - 1);
    }
  }

  lemma {:induction false} BigEndianDigits(v: nat, n: nat)
    requires |BigEndian(v)| <= n
    ensures forall i :: 0 <= i < n ==>
              LE(n, v)[i] == if i < |BigEndian(v)| then BigEndian(v)[|BigEndian(v)| - 1 - i] else 0
  {
    if n == 0 {
    } else {
      BigEndianDigits(v / 256, n - 1);
      forall i | 0 < i < n
        ensures LE(n, v)[i] == if i < |BigEndian(v)| then BigEndian(v)[|BigEndian(v)| - 1 - i] else 0
      {
        assert LE(n, v)[i] == LE(n - 1, v / 256)[i - 1];
      }
    }
  }

  lemma ReversedMagnitude(le: seq<byte>, v: nat)
    requires v < Pow(256, |le|)
    requires var be := BigEndian(v);
      forall k :: 0 <= k < |le| ==> le[k] == if k < |be| then be[|be| - 1 - k] else 0
    ensures FromLE(le) == v
  {
    hide LE, BigEndian, Pow, FromLE;
    BigEndianLength(v, |le|);
    BigEndianDigits(v, |le|);
    assert le == LE(|le|, v);
    LERoundTrip(|le|, v);
  }

  /** The 32 little-endian bytes of the target sent to an SV2 miner: nothing is cut off, so they spell
      the whole target. */
  method DiffToSV2TargetLE(rnd: real -> real, diff: real) returns (le: seq<byte>)
    requires IsRounding(rnd)
    ensures |le| == 32
    ensures FromLE(le) == DiffToTarget(rnd, Max(diff, SMALLEST_DIFF))
  {
    var target := DiffToTarget(rnd, Max(diff, SMALLEST_DIFF));
    le := ReverseInto32(BigEndian(target));
    TargetFits(rnd, Max(diff, SMALLEST_DIFF), |le|);
    ReversedMagnitude(le, target);
  }

  /** The copy loop: the magnitude is reversed into a zeroed 32-byte array, as far as it fits. */
  method ReverseInto32(be: seq<byte>) returns (le: seq<byte>)
    ensures |le| == 32
    ensures forall k :: 0 <= k < |le| ==> le[k] == if k < |be| then be[|be| - 1 - k] else 0
  {
    var buffer := new byte[32](_ => 0);
    var i := 0;
    while i < |be| && i < buffer.Length
      invariant 0 <= i <= buffer.Length && i <= |be|
      invariant forall k :: 0 <= k < buffer.Length ==> buffer[k] == if k < i then be[|be| - 1 - k] else 0
    {
      buffer[i] := be[|be| - 1 - i];
      i := i + 1;
    }
    le := buffer[..];
  }

  lemma {:induction false} PowOfPow(n: nat)
    ensures Pow(256, n) == Pow(2, 8 * n)
  {
    if n == 0 {
    } else {
      PowOfPow(n - 1);
      PowAdd(2, 8, 8 * (n - 1));
      assert Pow(2, 8) == 256 by {
        PowAdd(2, 4, 4);
        assert Pow(2, 4) == 16;
      }
    }
  }

  /** No difficulty the bridge advertises has a target wider than 32 bytes. */
  lemma TargetFits(rnd: real -> real, diff: real, n: nat)
    requires IsRounding(rnd) && diff >= SMALLEST_DIFF && n >= 32
    ensures DiffToTarget(rnd, diff) < Pow(256, n)
  {
    BySmallest(M as real, diff);
    assert M as real / diff <= TOP as real;
    assert rnd(M as real / diff) <= rnd(TOP as real);
    Pow32();
    PowMonotone(256, 32, n);
  }

  lemma Pow32()
    ensures TOP < Pow(256, 32)
  {
    Widths();
    PowAdd(256, 8, 8);
    PowAdd(256, 16, 16);
  }

  lemma BySmallest(m: real, diff: real)
    requires m >= 0.0 && diff >= SMALLEST_DIFF
    ensures m / diff <= m * 100000.0
  {
    QuotientFalls(m, SMALLEST_DIFF, diff);
    assert m / SMALLEST_DIFF == m * 100000.0;
  }

  /** A hash the miner was told is good enough is never weak for the bridge while that difficulty is
      current: the advertised target is at most the checked one, and equal from 0.00001 up. */
  lemma AdvertisedNotAboveChecked(rnd: real -> real, diff: real, le: seq<byte>, hash: nat)
    requires IsRounding(rnd) && diff > 0.0
    requires FromLE(le) == DiffToTarget(rnd, Max(diff, SMALLEST_DIFF))
    ensures var advertised, checked := FromLE(le), DiffToTarget(rnd, diff);
      && (diff >= SMALLEST_DIFF ==> advertised == checked)
      && (hash < advertised ==> hash < checked)
  {
    DiffToTargetFalls(rnd, diff, Max(diff, SMALLEST_DIFF));
  }

  // ---------------------------------------------------------------- compact bits

  function Shr(v: nat, bits: nat): nat {
    v / Pow(2, bits)
  }

  function Shl(v: nat, bits: nat): nat {
    v * Pow(2, bits)
  }

  function Mantissa(bits: nat): nat {
    bits % 0x100_0000
  }

  function Exponent(bits: nat): nat {
    bits / 0x100_0000
  }

  /** The target a compact "bits" value stands for, in the unsigned reading of the code. */
  function CalculateTarget(bits: nat): nat
  {
    var truncated := Shr(bits, 24);
    var mantissa := bits % 0x100_0000;
    if truncated <= 3 then Shl(Shr(mantissa, 8 * (3 - truncated)), 0)
    else Shl(mantissa, 8 * (truncated - 3))
  }

  lemma Exponent24(bits: nat)
    ensures Shr(bits, 24) == Exponent(bits)
  {
    PowOfPow(3);
    Widths();
  }

  /** The compact form as its definition reads: floor(mantissa * 256^exponent / 256^3). */
  lemma CompactTarget(bits: nat)
    ensures CalculateTarget(bits) == Mantissa(bits) * Pow(256, Exponent(bits)) / Pow(256, 3)
  {
    Exponent24(bits);
    var e, m := Exponent(bits), Mantissa(bits);
    if e <= 3 {
      assert Pow(2, 0) == 1;
      ShiftedOut(m, e, 3);
    } else {
      PowOfPow(e - 3);
      ShiftedIn(m, e, 3);
    }
  }

  lemma ShiftedOut(m: nat, e: nat, n: nat)
    requires e <= n
    ensures m * Pow(256, e) / Pow(256, n) == Shr(m, 8 * (n - e))
  {
    PowOfPow(n - e);
    PowAdd(256, n - e, e);
    DivideBoth(m, Pow(256, n - e), Pow(256, e));
  }

  lemma ShiftedIn(m: nat, e: nat, n: nat)
    requires e >= n
    ensures m * Pow(256, e) / Pow(256, n) == m * Pow(256, e - n)
  {
    PowAdd(256, e - n, n);
    assert m * Pow(256, e) == (m * Pow(256, e - n)) * Pow(256, n);
    DivUnique(m * Pow(256, e), Pow(256, n), m * Pow(256, e - n), 0);
  }

  lemma ScaleUp(m: nat, n: nat, e: nat, f: nat)
    requires m < 0x100_0000 && n >= 0x1_0000 && e < f
    ensures m * Pow(256, e) < n * Pow(256, f)
  {
    PowMonotone(256, e + 1, f);
    var p, q := Pow(256, e), Pow(256, f);
    NatGrow(m + 1, 0x100_0000, p);
    assert m * p + p <= 0x1_0000 * (256 * p);
    NatGrow(0x1_0000, n, q);
  }

  /** On normalised mantissas the bits order the targets, strictly once nothing is shifted out. */
  lemma CompactMonotone(a: nat, b: nat)
    requires a < b && Mantissa(a) >= 0x1_0000 && Mantissa(b) >= 0x1_0000
    ensures CalculateTarget(a) <= CalculateTarget(b)
    ensures Exponent(a) >= 3 ==> CalculateTarget(a) < CalculateTarget(b)
  {
    CompactTarget(a);
    CompactTarget(b);
    var m, e, n, f := Mantissa(a), Exponent(a), Mantissa(b), Exponent(b);
    Scaled(m, e, n, f);
    DivMonotone(m * Pow(256, e), n * Pow(256, f), Pow(256, 3));
    if e >= 3 {
      ShiftedIn(m, e, 3);
      ShiftedIn(n, f, 3);
      Scaled(m, e - 3, n, f - 3);
    }
  }

  lemma Scaled(m: nat, e: nat, n: nat, f: nat)
    requires m < 0x100_0000 && n >= 0x1_0000 && (e < f || (e == f && m < n))
    ensures m * Pow(256, e) < n * Pow(256, f)
  {
    if e < f {
      ScaleUp(m, n, e, f);
    } else {
      NatGrow(m + 1, n, Pow(256, e));
    }
  }

  /** Larger bits never mean a larger network difficulty. */
  lemma NetworkDifficultyFalls(rnd: real -> real, a: nat, b: nat)
    requires IsRounding(rnd) && a < b && Mantissa(a) >= 0x1_0000 && Mantissa(b) >= 0x1_0000
    requires CalculateTarget(a) > 0
    ensures CalculateTarget(b) > 0
    ensures TargetToDiff(rnd, CalculateTarget(b)) <= TargetToDiff(rnd, CalculateTarget(a))
  {
    CompactMonotone(a, b);
    TargetToDiffFalls(rnd, CalculateTarget(a), CalculateTarget(b));
  }
}
