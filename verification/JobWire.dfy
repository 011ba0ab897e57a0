/** The two text forms in which a job's 32-byte header digest reaches a stratum miner. */
module JobWire {
  import opened Bytes
  import opened Hex
  import opened Wrappers

  /** The n low bytes of v, most significant first. */
  function BE(n: nat, v: nat): (s: seq<byte>)
    ensures |s| == n
  {
    if n == 0 then [] else BE(n - 1, v / 256) + [v % 256]
  }

  function FromBE(s: seq<byte>): (v: nat) {
    if s == [] then 0 else 256 * FromBE(s[..|s| - 1]) + s[|s| - 1]
  }

  function Reverse(s: seq<byte>): (r: seq<byte>)
    ensures |r| == |s|
  {
    if s == [] then [] else Reverse(s[1..]) + [s[0]]
  }

  lemma {:induction false} FromBEBound(s: seq<byte>)
    ensures FromBE(s) < Pow(256, |s|)
  {
    if s == [] {
    } else {
      FromBEBound(s[..|s| - 1]);
      assert 256 * FromBE(s[..|s| - 1]) + 255 < 256 * Pow(256, |s| - 1);
    }
  }

  lemma {:induction false} BEIsReversed(n: nat, v: nat)
    ensures BE(n, v) == Reverse(LE(n, v))
  {
    if n == 0 {
    } else {
      BEIsReversed(n - 1, v / 256);
      assert LE(n, v)[1..] == LE(n - 1, v / 256);
    }
  }

  lemma {:induction false} ReverseSnoc(s: seq<byte>, b: byte)
    ensures Reverse(s + [b]) == [b] + Reverse(s)
  {
    if s == [] {
      assert s + [b] == [b];
      assert [b][1..] == [];
    } else {
      ReverseSnoc(s[1..], b);
      assert (s + [b])[1..] == s[1..] + [b];
    }
  }

  lemma {:induction false} FromLEOfReversed(s: seq<byte>)
    ensures FromLE(Reverse(s)) == FromBE(s)
  {
    if s == [] {
    } else {
      var init, b := s[..|s| - 1], s[|s| - 1];
      FromLEOfReversed(init);
      ReverseSnoc(init, b);
      assert s == init + [b];
      assert ([b] + Reverse(init))[1..] == Reverse(init);
    }
  }

  lemma EncodeOne(b: byte)
    ensures Encode([b]) == [DigitOf(b / 16), DigitOf(b % 16)]
  {
    assert [b][1..] == [];
  }

  lemma FixedTwo(n: nat, x: nat, b: byte)
    ensures Fixed(n + 2, 256 * x + b) == Fixed(n, x) + [DigitOf(b / 16), DigitOf(b % 16)]
  {
    var v := 256 * x + b;
    assert v % 16 == b % 16 && v / 16 == 16 * x + b / 16;
    assert v / 16 % 16 == b / 16 && v / 16 / 16 == x;
    assert Fixed(n + 2, v) == Fixed(n + 1, v / 16) + [DigitOf(v % 16)];
    assert Fixed(n + 1, v / 16) == Fixed(n, x) + [DigitOf(b / 16)];
  }

  /** The digits of a big-endian number are the digits of its bytes. */
  lemma {:induction false} FixedOfBytes(s: seq<byte>)
    ensures Fixed(2 * |s|, FromBE(s)) == Encode(s)
  {
    if s == [] {
    } else {
      var init, b := s[..|s| - 1], s[|s| - 1];
      FixedOfBytes(init);
      FixedTwo(2 * |init|, FromBE(init), b);
      assert s == init + [b];
      EncodeAppend(init, [b]);
      EncodeOne(b);
    }
  }

  lemma {:induction false} FormatParses(v: nat)
    ensures AllHex(Format(v)) && Value(Format(v)) == v
  {
    if v < 16 {
      NibbleOfDigit(v);
      var s := Format(v);
      assert s[..|s| - 1] == "";
    } else {
      FormatParses(v / 16);
      NibbleOfDigit(v % 16);
      ValueSnoc(Format(v / 16), DigitOf(v % 16));
    }
  }

  // ---------------------------------------------------------------- the array form

  function Word64(s: seq<byte>): u64
    requires |s| == 8
  {
    FromLEBound(s);
    Widths();
    FromLE(s)
  }

  /** The bytes a miner rebuilds from the words of a job. */
  ghost function WordsBytes(words: seq<u64>): seq<byte> {
    if words == [] then [] else WordsBytes(words[..|words| - 1]) + LE(8, words[|words| - 1])
  }

  lemma WordsNext(words: seq<u64>, piece: seq<byte>)
    requires |piece| == 8
    ensures WordsBytes(words + [Word64(piece)]) == WordsBytes(words) + piece
  {
    FromLERoundTrip(piece);
    assert (words + [Word64(piece)])[..|words|] == words;
  }

  /** Four words, each sent through its hexadecimal text and back, that give the digest again. */
  method GenerateJobHeader(digest: seq<byte>) returns (final: seq<u64>)
    requires |digest| >= 32
    ensures |final| == 4 && WordsBytes(final) == digest[..32]
  {
    hide WordsBytes, FromLE, Format, ParseUint64, Word64;
    var ids := [];
    WordsNone();
    WordsNext([], digest[..8]);
    ids := ids + [Word64(digest[..8])];
    WordsNext(ids, digest[8..16]);
    ids := ids + [Word64(digest[8..16])];
    WordsNext(ids, digest[16..24]);
    ids := ids + [Word64(digest[16..24])];
    WordsNext(ids, digest[24..32]);
    ids := ids + [Word64(digest[24..32])];
    assert [] + digest[..8] + digest[8..16] + digest[16..24] + digest[24..32] == digest[..32];
    final := [];
    for i := 0 to |ids|
      invariant final == ids[..i]
    {
      var asHex := Format(ids[i]);
      FormatParses(ids[i]);
      var bb := ParseUint64(asHex);
      final := final + [bb.value];
    }
    assert ids[..|ids|] == ids;
  }

  lemma WordsNone()
    ensures WordsBytes([]) == []
  {
  }

  /** Different digests give different words. */
  lemma {:induction false} WordsDetermine(a: seq<u64>, b: seq<u64>)
    requires |a| == |b| && WordsBytes(a) == WordsBytes(b)
    ensures a == b
  {
    if a == [] {
    } else {
      var n := |a| - 1;
      WordsLength(a[..n]);
      WordsLength(b[..n]);
      Peel(WordsBytes(a[..n]), WordsBytes(b[..n]), LE(8, a[n]), LE(8, b[n]));
      WordsDetermine(a[..n], b[..n]);
      Widths();
      LEInjective(8, a[n], b[n]);
      assert a == a[..n] + [a[n]] && b == b[..n] + [b[n]];
    }
  }

  lemma {:induction false} WordsLength(a: seq<u64>)
    ensures |WordsBytes(a)| == 8 * |a|
  {
    if a == [] {
    } else {
      WordsLength(a[..|a| - 1]);
    }
  }

  // ---------------------------------------------------------------- the 80-digit form

  /** "%016x" of eight bytes read as a big-endian number. */
  lemma PaddedWord(s: seq<byte>)
    requires |s| == 8
    ensures FromBE(s) < 0x1_0000_0000_0000_0000
    ensures ZeroPad(16, Format(FromBE(s))) == Encode(s)
  {
    FromBEBound(s);
    Widths();
    SixteenSquared(8);
    hide Format, Fixed, FromBE, Pow, Encode;
    PaddedIsFixed(16, FromBE(s));
    FixedOfBytes(s);
  }

  /** Big-endian bytes read as a little-endian number swap the bytes of a time stamp. */
  lemma Swapped(timestamp: u64)
    ensures FromLE(BE(8, timestamp)) == FromBE(LE(8, timestamp))
  {
    BEIsReversed(8, timestamp);
    FromLEOfReversed(LE(8, timestamp));
  }

  method GenerateLargeJobParams(digest: seq<byte>, timestamp: u64) returns (str: string)
    requires |digest| >= 32
    ensures |str| == 80
    ensures str == Encode(digest[..32] + LE(8, timestamp))
  {
    hide BE, LE, FromBE, FromLE, Format, Encode, ZeroPad;
    var timestampBytes := BE(8, timestamp);
    var ids: seq<nat> := [FromBE(digest[..8]), FromBE(digest[8..16]), FromBE(digest[16..24]), FromBE(digest[24..32]),
                          FromLE(timestampBytes)];
    Swapped(timestamp);
    PaddedWord(digest[..8]);
    PaddedWord(digest[8..16]);
    PaddedWord(digest[16..24]);
    PaddedWord(digest[24..32]);
    PaddedWord(LE(8, timestamp));
    str := ZeroPad(16, Format(ids[0])) + ZeroPad(16, Format(ids[1])) + ZeroPad(16, Format(ids[2])) +
    ZeroPad(16, Format(ids[3])) + ZeroPad(16, Format(ids[4]));
    EncodeFive(digest[..8], digest[8..16], digest[16..24], digest[24..32], LE(8, timestamp));
    assert digest[..8] + digest[8..16] + digest[16..24] + digest[24..32] == digest[..32];
  }

  lemma EncodeFive(a: seq<byte>, b: seq<byte>, c: seq<byte>, d: seq<byte>, e: seq<byte>)
    ensures Encode(a) + Encode(b) + Encode(c) + Encode(d) + Encode(e) == Encode(a + b + c + d + e)
  {
    EncodeAppend(a, b);
    EncodeAppend(a + b, c);
    EncodeAppend(a + b + c, d);
    EncodeAppend(a + b + c + d, e);
  }

  /** The text determines digest and time stamp, and decodes to their bytes. */
  lemma LargeJobDetermines(a: seq<byte>, b: seq<byte>, s: u64, t: u64)
    requires |a| == |b| == 32
    ensures Decode(Encode(a + LE(8, s))) == a + LE(8, s)
    ensures Encode(a + LE(8, s)) == Encode(b + LE(8, t)) <==> a == b && s == t
  {
    hide LE, Pow, Encode, Decode;
    Widths();
    DecodeEncode(a + LE(8, s));
    DecodeEncode(b + LE(8, t));
    if a + LE(8, s) == b + LE(8, t) {
      Peel(a, b, LE(8, s), LE(8, t));
      LEInjective(8, s, t);
    }
  }
}
