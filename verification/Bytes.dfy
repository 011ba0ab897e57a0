/** Bytes and the fixed-width little-endian integers that every encoder of the bridge writes. */
module Bytes {
  type byte = x: int | 0 <= x < 256
  type u16 = x: int | 0 <= x < 0x1_0000
  type u32 = x: int | 0 <= x < 0x1_0000_0000
  type u64 = x: int | 0 <= x < 0x1_0000_0000_0000_0000

  function Pow(b: nat, n: nat): (r: nat)
    ensures b > 0 ==> r > 0
  {
    if n == 0 then 1 else b * Pow(b, n - 1)
  }

  lemma {:induction false} PowAdd(b: nat, m: nat, n: nat)
    ensures Pow(b, m + n) == Pow(b, m) * Pow(b, n)
  {
    if m == 0 {
    } else {
      PowAdd(b, m - 1, n);
      Associate(b, Pow(b, m - 1), Pow(b, n));
    }
  }

  lemma {:induction false} PowMonotone(b: nat, m: nat, n: nat)
    requires b > 0 && m <= n
    ensures Pow(b, m) <= Pow(b, n)
    decreases n
  {
    if m == n {
    } else {
      PowMonotone(b, m, n - 1);
      assert Pow(b, n - 1) <= b * Pow(b, n - 1);
    }
  }

  lemma Widths()
    ensures Pow(256, 2) == 0x1_0000
    ensures Pow(256, 3) == 0x100_0000
    ensures Pow(256, 4) == 0x1_0000_0000
    ensures Pow(256, 8) == 0x1_0000_0000_0000_0000
  {
    assert Pow(256, 1) == 256;
    assert Pow(256, 5) == 256 * Pow(256, 4);
    assert Pow(256, 6) == 256 * Pow(256, 5);
    assert Pow(256, 7) == 256 * Pow(256, 6);
  }

  /** The n low bytes of v, least significant first. */
  function LE(n: nat, v: nat): (s: seq<byte>)
    ensures |s| == n
  {
    if n == 0 then [] else [v % 256] + LE(n - 1, v / 256)
  }

  function FromLE(s: seq<byte>): (v: nat)
  {
    if s == [] then 0 else s[0] + 256 * FromLE(s[1..])
  }

  lemma {:induction false} FromLEBound(s: seq<byte>)
    ensures FromLE(s) < Pow(256, |s|)
  {
    if s == [] {
    } else {
      FromLEBound(s[1..]);
      assert 256 * FromLE(s[1..]) + 255 < 256 * Pow(256, |s| - 1);
    }
  }

  lemma {:induction false} LERoundTrip(n: nat, v: nat)
    requires v < Pow(256, n)
    ensures FromLE(LE(n, v)) == v
  {
    if n == 0 {
    } else {
      assert v / 256 < Pow(256, n - 1);
      LERoundTrip(n - 1, v / 256);
      assert LE(n, v)[1..] == LE(n - 1, v / 256);
    }
  }

  lemma {:induction false} FromLERoundTrip(s: seq<byte>)
    ensures LE(|s|, FromLE(s)) == s
  {
    if s == [] {
    } else {
      FromLERoundTrip(s[1..]);
      assert FromLE(s) % 256 == s[0] && FromLE(s) / 256 == FromLE(s[1..]);
      assert s == [s[0]] + s[1..];
    }
  }

  lemma LEInjective(n: nat, v: nat, w: nat)
    requires v < Pow(256, n) && w < Pow(256, n)
    requires LE(n, v) == LE(n, w)
    ensures v == w
  {
    LERoundTrip(n, v);
    LERoundTrip(n, w);
  }

  lemma {:induction false} FromLEAppend(s: seq<byte>, t: seq<byte>)
    ensures FromLE(s + t) == FromLE(s) + Pow(256, |s|) * FromLE(t)
  {
    if s == [] {
      assert s + t == t;
    } else {
      assert (s + t)[1..] == s[1..] + t;
      FromLEAppend(s[1..], t);
      Associate(256, Pow(256, |s| - 1), FromLE(t));
    }
  }

  lemma Associate(a: nat, b: nat, c: nat)
    ensures a * (b * c) == (a * b) * c
  {
  }

  lemma {:induction false} SixteenSquared(n: nat)
    ensures Pow(16, 2 * n) == Pow(256, n)
  {
    if n == 0 {
    } else {
      SixteenSquared(n - 1);
      assert Pow(16, 2 * n) == 16 * (16 * Pow(16, 2 * (n - 1)));
    }
  }

  lemma Regroup<T>(a: seq<T>, b: seq<T>, c: seq<T>)
    ensures (a + b) + c == a + (b + c)
  {
  }

  /** Two concatenations with equally long heads agree only piecewise. */
  lemma Peel<T>(a: seq<T>, b: seq<T>, x: seq<T>, y: seq<T>)
    requires |a| == |b| && a + x == b + y
    ensures a == b && x == y
  {
    assert a == (a + x)[..|a|] == (b + y)[..|b|] == b;
    assert x == (a + x)[|a|..] == (b + y)[|b|..] == y;
  }
}
