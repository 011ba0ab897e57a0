/** The hexadecimal text forms of the bridge: Go's "%x", "%0*x", "%0*s", hex.DecodeString and
    strconv.ParseUint(s, 16, 64). */
module Hex {
  import opened Bytes
  import opened Wrappers

  type nibble = x: int | 0 <= x < 16

  function DigitOf(d: nibble): (c: char)
    ensures '0' <= c <= '9' || 'a' <= c <= 'f'
  {
    if d < 10 then ('0' as int + d) as char else ('a' as int + d - 10) as char
  }

  predicate IsDigit(c: char) {
    '0' <= c <= '9' || 'a' <= c <= 'f' || 'A' <= c <= 'F'
  }

  function NibbleOf(c: char): nibble
    requires IsDigit(c)
  {
    if '0' <= c <= '9' then c as int - '0' as int
    else if 'a' <= c <= 'f' then c as int - 'a' as int + 10
    else c as int - 'A' as int + 10
  }

  lemma NibbleOfDigit(d: nibble)
    ensures IsDigit(DigitOf(d)) && NibbleOf(DigitOf(d)) == d
  {
  }

  ghost predicate AllHex(s: string) {
    forall i :: 0 <= i < |s| ==> IsDigit(s[i])
  }

  /** The number a hexadecimal string spells, most significant digit first. */
  ghost function Value(s: string): (v: nat)
    requires AllHex(s)
  {
    if s == "" then 0 else 16 * Value(s[..|s| - 1]) + NibbleOf(s[|s| - 1])
  }

  /** "%x" of a number. */
  function Format(v: nat): (s: string)
    ensures |s| > 0
  {
    if v < 16 then [DigitOf(v)] else Format(v / 16) + [DigitOf(v % 16)]
  }

  function Zeros(n: nat): (s: string)
    ensures |s| == n && forall i :: 0 <= i < n ==> s[i] == '0'
  {
    seq(n, _ => '0')
  }

  /** The zero-padding width of "%0*x" and "%0*s": never shortens. */
  function ZeroPad(width: int, s: string): (r: string)
  {
    if |s| >= width then s else Zeros(width - |s|) + s
  }

  /** Exactly n digits of v. */
  ghost function Fixed(n: nat, v: nat): (s: string)
    ensures |s| == n
  {
    if n == 0 then "" else Fixed(n - 1, v / 16) + [DigitOf(v % 16)]
  }

  lemma {:induction false} FixedZero(n: nat)
    ensures Fixed(n, 0) == Zeros(n)
  {
    if n == 0 {
    } else {
      FixedZero(n - 1);
    }
  }

  lemma {:induction false} PaddedIsFixed(n: nat, v: nat)
    requires 0 < n && v < Pow(16, n)
    ensures ZeroPad(n, Format(v)) == Fixed(n, v)
  {
    assert Pow(16, 1) == 16;
    if v < 16 {
      FixedZero(n - 1);
      assert Fixed(n, v) == Zeros(n - 1) + [DigitOf(v)];
    } else {
      assert v / 16 < Pow(16, n - 1);
      PaddedIsFixed(n - 1, v / 16);
      var head := Format(v / 16);
      assert Format(v) == head + [DigitOf(v % 16)];
      if |head| < n - 1 {
        assert Zeros(n - |Format(v)|) + Format(v) == (Zeros(n - 1 - |head|) + head) + [DigitOf(v % 16)];
      }
    }
  }

  lemma {:induction false} FixedValue(n: nat, v: nat)
    requires v < Pow(16, n)
    ensures AllHex(Fixed(n, v)) && Value(Fixed(n, v)) == v
  {
    if n == 0 {
    } else {
      assert v / 16 < Pow(16, n - 1);
      FixedValue(n - 1, v / 16);
      NibbleOfDigit(v % 16);
      var s := Fixed(n, v);
      assert s[..n - 1] == Fixed(n - 1, v / 16);
    }
  }

  lemma ValueSnoc(s: string, c: char)
    requires AllHex(s) && IsDigit(c)
    ensures AllHex(s + [c]) && Value(s + [c]) == 16 * Value(s) + NibbleOf(c)
  {
    assert (s + [c])[..|s + [c]| - 1] == s;
  }

  lemma {:induction false} ValueAppend(s: string, t: string)
    requires AllHex(s) && AllHex(t)
    ensures AllHex(s + t) && Value(s + t) == Value(s) * Pow(16, |t|) + Value(t)
  {
    if t == "" {
      assert s + t == s;
    } else {
      var u, c := t[..|t| - 1], t[|t| - 1];
      ValueAppend(s, u);
      ValueSnoc(s + u, c);
      assert s + t == (s + u) + [c];
      Associate(Value(s), Pow(16, |u|));
    }
  }

  lemma Associate(a: nat, b: nat)
    ensures 16 * (a * b) == a * (16 * b)
  {
  }

  lemma {:induction false} ValueBound(s: string)
    requires AllHex(s)
    ensures Value(s) < Pow(16, |s|)
  {
    if s == "" {
    } else {
      ValueBound(s[..|s| - 1]);
    }
  }

  lemma {:induction false} ValueZeros(n: nat)
    ensures AllHex(Zeros(n)) && Value(Zeros(n)) == 0
  {
    if n == 0 {
    } else {
      ValueZeros(n - 1);
      assert Zeros(n)[..n - 1] == Zeros(n - 1);
    }
  }

  lemma PaddingKeepsValue(width: int, s: string)
    requires AllHex(s)
    ensures AllHex(ZeroPad(width, s)) && Value(ZeroPad(width, s)) == Value(s)
  {
    if |s| < width {
      ValueZeros(width - |s|);
      ValueAppend(Zeros(width - |s|), s);
    }
  }

  /** strconv.ParseUint(s, 16, 64): fails on the empty string, on a character that is no digit and
      on a value outside 64 bits; leading zeros are free. */
  function ParseUint64(s: string): (r: Option<u64>)
    ensures r.Some? <==> s != "" && AllHex(s) && Value(s) < 0x1_0000_0000_0000_0000
    ensures r.Some? ==> r.value == Value(s)
  {
    if s == "" then None
    else if !IsDigit(s[|s| - 1]) then None
    else if |s| == 1 then Some(NibbleOf(s[0]))
    else
      var head := ParseUint64(s[..|s| - 1]);
      assert AllHex(s) <==> AllHex(s[..|s| - 1]);
      if head.None? then None
      else
        var v := 16 * head.value + NibbleOf(s[|s| - 1]);
        if v < 0x1_0000_0000_0000_0000 then Some(v) else None
  }

  /** hex.EncodeToString. */
  function Encode(bs: seq<byte>): (s: string)
    ensures |s| == 2 * |bs|
  {
    if bs == [] then "" else [DigitOf(bs[0] / 16), DigitOf(bs[0] % 16)] + Encode(bs[1..])
  }

  /** hex.DecodeString with its error dropped, as the header writer drops it: the pairs before the
      first malformed one. */
  function Decode(s: string): (bs: seq<byte>)
  {
    if |s| < 2 || !IsDigit(s[0]) || !IsDigit(s[1]) then []
    else [16 * NibbleOf(s[0]) + NibbleOf(s[1])] + Decode(s[2..])
  }

  lemma {:induction false} DecodeEncode(bs: seq<byte>)
    ensures AllHex(Encode(bs)) && Decode(Encode(bs)) == bs
  {
    if bs == [] {
    } else {
      DecodeEncode(bs[1..]);
      NibbleOfDigit(bs[0] / 16);
      NibbleOfDigit(bs[0] % 16);
      assert Encode(bs)[2..] == Encode(bs[1..]);
      assert bs == [bs[0]] + bs[1..];
    }
  }

  lemma {:induction false} EncodeAppend(a: seq<byte>, b: seq<byte>)
    ensures Encode(a + b) == Encode(a) + Encode(b)
  {
    if a == [] {
      assert a + b == b;
    } else {
      assert (a + b)[1..] == a[1..] + b;
      EncodeAppend(a[1..], b);
    }
  }

  lemma {:induction false} DecodeLength(s: string)
    requires AllHex(s) && |s| % 2 == 0
    ensures |Decode(s)| == |s| / 2
  {
    if s == "" {
    } else {
      DecodeLength(s[2..]);
    }
  }

  /** The digits the node itself writes. */
  ghost predicate LowerHex(s: string) {
    forall i :: 0 <= i < |s| ==> '0' <= s[i] <= '9' || 'a' <= s[i] <= 'f'
  }

  lemma DigitOfNibble(c: char)
    requires '0' <= c <= '9' || 'a' <= c <= 'f'
    ensures DigitOf(NibbleOf(c)) == c
  {
  }

  lemma {:induction false} EncodeDecode(s: string)
    requires LowerHex(s) && |s| % 2 == 0
    ensures Encode(Decode(s)) == s
  {
    if s == "" {
    } else {
      var b := 16 * NibbleOf(s[0]) + NibbleOf(s[1]);
      EncodeDecode(s[2..]);
      DigitOfNibble(s[0]);
      DigitOfNibble(s[1]);
      assert b / 16 == NibbleOf(s[0]) && b % 16 == NibbleOf(s[1]);
      assert Decode(s) == [b] + Decode(s[2..]);
      assert Decode(s)[1..] == Decode(s[2..]);
      assert s == [s[0], s[1]] + s[2..];
    }
  }
}
