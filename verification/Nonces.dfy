/** Nonce spaces: the extranonce each connection gets, the nonce a V1 miner's text stands for, and the
    key a share is remembered under. */
module Nonces {
  import opened Arithmetic
  import opened Bytes
  import opened Wrappers
  import Hex

  // ---------------------------------------------------------------- extranonce allocation

  /** The allocator of a client listener. connected counts the connections so far. */
  class ExtranonceAllocator {
    const extranonceSize: nat
    const maxExtranonce: nat
    var nextExtranonce: nat
    ghost var connected: nat

    ghost predicate Valid()
      reads this
    {
      && extranonceSize <= 3
      && maxExtranonce == Pow(256, extranonceSize) - 1
      && nextExtranonce == connected % Pow(256, extranonceSize)
    }

    constructor (size: nat)
      requires size <= 3
      ensures Valid() && connected == 0 && extranonceSize == size
    {
      extranonceSize := size;
      maxExtranonce := Pow(256, size) - 1;
      nextExtranonce := 0;
      connected := 0;
    }

    /** The k-th connection, from 0, gets k mod 256^size in exactly 2*size digits. */
    method OnConnect() returns (extranonce: string)
      requires Valid()
      modifies this
      ensures Valid() && connected == old(connected) + 1
      ensures |extranonce| == 2 * extranonceSize && Hex.AllHex(extranonce)
      ensures Hex.Value(extranonce) == old(connected) % Pow(256, extranonceSize)
    {
      extranonce := "";
      Successor(connected, Pow(256, extranonceSize));
      if extranonceSize > 0 {
        extranonce := FixedText(2 * extranonceSize, nextExtranonce) by {
          SixteenSquared(extranonceSize);
        }
        if nextExtranonce < maxExtranonce {
          nextExtranonce := nextExtranonce + 1;
        } else {
          nextExtranonce := 0;
        }
      }
      connected := connected + 1;
    }
  }

  /** A number below 16^n in exactly n digits. */
  function FixedText(n: nat, v: nat): (s: string)
    requires 0 < n && v < Pow(16, n)
    ensures |s| == n && Hex.AllHex(s) && Hex.Value(s) == v
  {
    Hex.PaddedIsFixed(n, v);
    Hex.FixedValue(n, v);
    Hex.ZeroPad(n, Hex.Format(v))
  }

  lemma Successor(k: nat, n: nat)
    requires n > 0
    ensures (k + 1) % n == if k % n < n - 1 then k % n + 1 else 0
  {
    var q, r := k / n, k % n;
    assert k == q * n + r;
    if r < n - 1 {
      Remainder(k + 1, n, q, r + 1);
    } else {
      assert k + 1 == (q + 1) * n;
      Remainder(k + 1, n, q + 1, 0);
    }
  }

  lemma Remainder(a: nat, n: nat, q: nat, r: nat)
    requires n > 0 && a == q * n + r && r < n
    ensures a % n == r && a / n == q
  {
    DivUnique(a, n, q, r);
  }

  // ---------------------------------------------------------------- submitted nonces

  /** strings.Replace(s, "0x", "", 1). */
  function WithoutPrefix(s: string): string {
    if |s| < 2 then s
    else if s[0] == '0' && s[1] == 'x' then s[2..]
    else [s[0]] + WithoutPrefix(s[1..])
  }

  /** A nonce short enough to be the miner's part only is completed with the connection's part. */
  function Normalized(extranonce: string, nonce: string): string {
    if extranonce != "" && 16 - |extranonce| > 0 && |nonce| <= 16 - |extranonce| then
      extranonce + Hex.ZeroPad(16 - |extranonce|, nonce)
    else nonce
  }

  function ParseV1SubmitNonce(extranonce: string, nonce: string): (r: Option<u64>) {
    Hex.ParseUint64(Normalized(extranonce, nonce))
  }

  lemma Sixteen()
    ensures Pow(16, 16) == 0x1_0000_0000_0000_0000
  {
    SixteenSquared(8);
    Widths();
  }

  /** The miner's part y under a connection's part x is x * 16^(16-2s) + y. */
  lemma CompletedNonce(extranonce: string, nonce: string)
    requires Hex.AllHex(extranonce) && 0 < |extranonce| <= 6 && |nonce| <= 16 - |extranonce|
    requires Hex.AllHex(nonce)
    ensures Hex.Value(nonce) < Pow(16, 16 - |extranonce|)
    ensures ParseV1SubmitNonce(extranonce, nonce)
            == Some(Hex.Value(extranonce) * Pow(16, 16 - |extranonce|) + Hex.Value(nonce))
  {
    hide Pow, Hex.Value, Hex.ParseUint64;
    var width := 16 - |extranonce|;
    Hex.PaddingKeepsValue(width, nonce);
    SixteenDigits(extranonce, Hex.ZeroPad(width, nonce));
  }

  lemma SixteenFit(nonce: string)
    requires Hex.AllHex(nonce) && |nonce| <= 16
    ensures Hex.Value(nonce) < 0x1_0000_0000_0000_0000
  {
    hide Hex.Value, Pow;
    Hex.ValueBound(nonce);
    PowMonotone(16, |nonce|, 16);
    Sixteen();
  }

  /** Without an extranonce a nonce of up to 16 digits is its value. */
  lemma PlainNonce(nonce: string)
    requires Hex.AllHex(nonce) && 0 < |nonce| <= 16
    ensures ParseV1SubmitNonce("", nonce) == Some(Hex.Value(nonce))
  {
    hide Hex.Value;
    SixteenFit(nonce);
  }

  lemma ShortNonceRead(extranonce: string, nonce: string)
    requires Hex.AllHex(extranonce) && 0 < |extranonce| <= 6 && |nonce| <= 16 - |extranonce|
    ensures ParseV1SubmitNonce(extranonce, nonce).Some? <==> Hex.AllHex(nonce)
  {
    hide Hex.Value, Hex.AllHex, Pow, Hex.ParseUint64;
    if Hex.AllHex(nonce) {
      CompletedNonce(extranonce, nonce);
    } else {
      MalformedNonce(extranonce, nonce);
    }
  }

  /** Exactly which texts are refused. */
  lemma RefusedNonce(extranonce: string, nonce: string)
    requires Hex.AllHex(extranonce) && |extranonce| <= 6
    ensures ParseV1SubmitNonce(extranonce, nonce) == None <==>
            !Hex.AllHex(nonce) || Hex.Value(nonce) >= 0x1_0000_0000_0000_0000 || (extranonce == "" && nonce == "")
  {
    hide Hex.Value, Hex.AllHex;
    if extranonce != "" && |nonce| <= 16 - |extranonce| {
      hide ParseV1SubmitNonce;
      ShortNonceRead(extranonce, nonce);
      if Hex.AllHex(nonce) {
        SixteenFit(nonce);
      }
    }
  }

  /** A miner's part with any other character is refused. */
  lemma MalformedNonce(extranonce: string, nonce: string)
    requires 0 < |extranonce| <= 6 && |nonce| <= 16 - |extranonce| && !Hex.AllHex(nonce)
    ensures ParseV1SubmitNonce(extranonce, nonce) == None
  {
    hide Hex.Value;
    BadDigit(extranonce, 16 - |extranonce|, nonce);
  }

  lemma BadDigit(head: string, width: nat, nonce: string)
    requires |nonce| <= width && !Hex.AllHex(nonce)
    ensures !Hex.AllHex(head + Hex.ZeroPad(width, nonce))
  {
    var i :| 0 <= i < |nonce| && !Hex.IsDigit(nonce[i]);
    var text := head + Hex.ZeroPad(width, nonce);
    assert text[|text| - |nonce| + i] == nonce[i];
  }

  lemma SixteenDigits(head: string, tail: string)
    requires Hex.AllHex(head) && Hex.AllHex(tail) && |head| + |tail| == 16
    ensures Hex.ParseUint64(head + tail) == Some(Hex.Value(head) * Pow(16, |tail|) + Hex.Value(tail))
    ensures Hex.Value(tail) < Pow(16, |tail|)
  {
    Hex.ValueAppend(head, tail);
    Hex.ValueBound(tail);
    Hex.ValueBound(head + tail);
    Sixteen();
  }

  /** Connections with different extranonces never mine the same nonce, and one connection's nonces
      differ exactly as its miner's parts do. */
  lemma SpacesAreDisjoint(x: string, y: string, n: string, m: string)
    requires Hex.AllHex(x) && Hex.AllHex(y) && |x| == |y| && 2 <= |x| <= 6
    requires |n| <= 16 - |x| && |m| <= 16 - |x| && Hex.AllHex(n) && Hex.AllHex(m)
    ensures ParseV1SubmitNonce(x, n) == ParseV1SubmitNonce(y, m) <==>
            Hex.Value(x) == Hex.Value(y) && Hex.Value(n) == Hex.Value(m)
  {
    hide Hex.Value, Hex.AllHex, ParseV1SubmitNonce, Pow;
    CompletedNonce(x, n);
    CompletedNonce(y, m);
    var unit := Pow(16, 16 - |x|);
    Split(Hex.Value(x), Hex.Value(n), Hex.Value(y), Hex.Value(m), unit);
  }

  lemma Split(a: nat, r: nat, b: nat, t: nat, n: nat)
    requires r < n && t < n
    ensures a * n + r == b * n + t <==> a == b && r == t
  {
    if a * n + r == b * n + t {
      Remainder(a * n + r, n, a, r);
      Remainder(b * n + t, n, b, t);
    }
  }

  /** Between connections of different extranonces a nonce text collides exactly when it has more digits than a
      miner's part. */
  lemma LongNoncesCollide(x: string, y: string, n: string)
    requires Hex.AllHex(x) && Hex.AllHex(y) && |x| == |y| && 2 <= |x| <= 6 && Hex.Value(x) != Hex.Value(y)
    requires ParseV1SubmitNonce(x, n).Some?
    ensures ParseV1SubmitNonce(x, n) == ParseV1SubmitNonce(y, n) <==> |n| > 16 - |x|
  {
    if |n| <= 16 - |x| {
      hide Hex.Value, Hex.AllHex, ParseV1SubmitNonce;
      if !Hex.AllHex(n) {
        MalformedNonce(x, n);
      }
      SpacesAreDisjoint(x, y, n, n);
    }
  }

  /** Such a nonce lies in the connection's own space exactly when its leading digits, beyond a miner's part,
      spell the extranonce. */
  lemma LongNonceInOwnSpace(x: string, n: string)
    requires Hex.AllHex(x) && 2 <= |x| <= 6 && |n| > 16 - |x| && ParseV1SubmitNonce(x, n).Some?
    ensures var width := 16 - |x|; var lead := n[..|n| - width];
      && Hex.AllHex(lead)
      && (ParseV1SubmitNonce(x, n).value / Pow(16, width) == Hex.Value(x) <==> Hex.Value(lead) == Hex.Value(x))
  {
    var width := 16 - |x|;
    var lead, part := n[..|n| - width], n[|n| - width..];
    assert n == lead + part && Hex.AllHex(lead) && Hex.AllHex(part);
    hide Hex.AllHex, Hex.ParseUint64, Pow;
    Hex.ValueAppend(lead, part);
    Hex.ValueBound(part);
    Remainder(Hex.Value(n), Pow(16, width), Hex.Value(lead), Hex.Value(part));
  }

  // ---------------------------------------------------------------- share keys

  function Decimal(n: nat): (s: string)
    ensures |s| > 0
  {
    if n < 10 then [('0' as int + n) as char] else Decimal(n / 10) + [('0' as int + n % 10) as char]
  }

  function DecimalInt(n: int): string {
    if n >= 0 then Decimal(n) else "-" + Decimal(-n)
  }

  function NonceText(nonce: u64): string {
    Hex.ZeroPad(16, Hex.Format(nonce))
  }

  /** The key a share is remembered under, with the nonce in its canonical 16 digits. */
  function ShareKey(jobId: int, nonce: u64): string {
    DecimalInt(jobId) + ":" + NonceText(nonce)
  }

  /** The decimal number a digit string spells. */
  function DecimalValue(s: string): Option<nat> {
    if s == "" then Some(0)
    else
      var head, c := DecimalValue(s[..|s| - 1]), s[|s| - 1];
      if head.None? || !('0' <= c <= '9') then None else Some(10 * head.value + (c as int - '0' as int))
  }

  /** strconv.ParseInt(s, 10, 64): an optional sign, at least one digit, 64-bit range. */
  function ParseInt64(s: string): (r: Option<int>)
    ensures r.Some? ==> -0x8000_0000_0000_0000 <= r.value < 0x8000_0000_0000_0000
  {
    var signed := s != "" && (s[0] == '-' || s[0] == '+');
    var digits := if signed then s[1..] else s;
    var v := DecimalValue(digits);
    if digits == "" || v.None? then None
    else
      var m: int := v.value;
      var n := if signed && s[0] == '-' then -m else m;
      if -0x8000_0000_0000_0000 <= n < 0x8000_0000_0000_0000 then Some(n) else None
  }

  lemma {:induction false} DecimalRoundTrip(n: nat)
    ensures DecimalValue(Decimal(n)) == Some(n)
  {
    var s := Decimal(n);
    if n < 10 {
      assert s[..0] == "";
    } else {
      DecimalRoundTrip(n / 10);
      assert s[..|s| - 1] == Decimal(n / 10);
    }
  }

  /** The text of an id, signed or not, comes back as that id. */
  lemma JobIdRoundTrip(id: int)
    requires -0x8000_0000_0000_0000 <= id < 0x8000_0000_0000_0000
    ensures ParseInt64(DecimalInt(id)) == Some(id)
  {
    var m := if id < 0 then -id else id;
    DecimalRoundTrip(m);
    DecimalDigits(m);
    assert Decimal(m)[0] in Decimal(m);
    assert id < 0 ==> DecimalInt(id)[1..] == Decimal(m);
  }

  lemma NonceTextLength(nonce: u64)
    ensures |NonceText(nonce)| == 16 && Hex.AllHex(NonceText(nonce)) && Hex.Value(NonceText(nonce)) == nonce
  {
    Sixteen();
    Hex.PaddedIsFixed(16, nonce);
    Hex.FixedValue(16, nonce);
  }

  lemma {:induction false} DecimalInjective(a: nat, b: nat)
    requires Decimal(a) == Decimal(b)
    ensures a == b
  {
    var s := Decimal(a);
    if a >= 10 && b >= 10 {
      assert Decimal(a / 10) == s[..|s| - 1] == Decimal(b / 10);
      DecimalInjective(a / 10, b / 10);
    }
    assert s[|s| - 1] == ('0' as int + a % 10) as char == ('0' as int + b % 10) as char;
  }

  lemma {:induction false} DecimalDigits(n: nat)
    ensures forall c :: c in Decimal(n) ==> '0' <= c <= '9'
  {
    if n >= 10 {
      DecimalDigits(n / 10);
    }
  }

  lemma DecimalIntInjective(a: int, b: int)
    requires DecimalInt(a) == DecimalInt(b)
    ensures a == b
  {
    if a >= 0 && b >= 0 {
      DecimalInjective(a, b);
    } else if a < 0 && b < 0 {
      assert DecimalInt(a)[1..] == Decimal(-a) && DecimalInt(b)[1..] == Decimal(-b);
      DecimalInjective(-a, -b);
    } else if a < 0 {
      SignShows(-a, b);
    } else {
      SignShows(-b, a);
    }
  }

  lemma SignShows(a: nat, b: nat)
    ensures "-" + Decimal(a) != Decimal(b)
  {
    DecimalDigits(b);
    assert ("-" + Decimal(a))[0] == '-' && Decimal(b)[0] in Decimal(b);
  }

  /** Different jobs or nonces never share a key. */
  lemma ShareKeyInjective(a: int, n: u64, b: int, m: u64)
    requires ShareKey(a, n) == ShareKey(b, m)
    ensures a == b && n == m
  {
    NonceTextLength(n);
    NonceTextLength(m);
    var k := ShareKey(a, n);
    var cut := |k| - 16;
    assert k[cut..] == NonceText(n) == NonceText(m);
    assert k[..cut - 1] == DecimalInt(a) == DecimalInt(b);
    DecimalIntInjective(a, b);
  }

  /** However a miner spells a nonce, one value means one key. */
  lemma SpellingDoesNotMatter(extranonce: string, n: string, m: string, jobId: int)
    requires ParseV1SubmitNonce(extranonce, n).Some? && ParseV1SubmitNonce(extranonce, m).Some?
    ensures var a, b := ParseV1SubmitNonce(extranonce, n).value, ParseV1SubmitNonce(extranonce, m).value;
      ShareKey(jobId, a) == ShareKey(jobId, b) <==>
      Hex.Value(Normalized(extranonce, n)) == Hex.Value(Normalized(extranonce, m))
  {
    var a, b := ParseV1SubmitNonce(extranonce, n).value, ParseV1SubmitNonce(extranonce, m).value;
    if ShareKey(jobId, a) == ShareKey(jobId, b) {
      ShareKeyInjective(jobId, a, jobId, b);
    }
  }
}
