/** SV2 framing over a byte stream that arrives in arbitrary pieces, with the first byte already peeked
    for protocol detection. */
module Frames {
  import opened Bytes
  import opened Wrappers

  const HEADER: nat := 6
  const MAX_PAYLOAD_READ: nat := 1_048_576
  const MAX_PAYLOAD_WRITTEN: nat := 0xFF_FFFF

  datatype Frame = Frame(extension: u16, kind: byte, payload: seq<byte>)

  function Header(f: Frame): seq<byte> {
    LE(2, f.extension) + [f.kind] + LE(3, |f.payload|)
  }

  /** encodeSV2Frame: the length field has three bytes. */
  function Encode(f: Frame): Option<seq<byte>> {
    if |f.payload| > MAX_PAYLOAD_WRITTEN then None else Some(Header(f) + f.payload)
  }

  datatype Decoded = Got(frame: Frame, rest: seq<byte>) | End | Oversize(length: nat)

  /** What readSV2Frame finds at the start of a stream that ends where the sequence does. */
  function Decode(stream: seq<byte>): Decoded {
    if |stream| < HEADER then End
    else
      var length := FromLE(stream[3..HEADER]);
      if length > MAX_PAYLOAD_READ then Oversize(length)
      else if |stream| < HEADER + length then End
      else Got(Frame(Word16(stream[..2]), stream[2], stream[HEADER..HEADER + length]), stream[HEADER + length..])
  }

  function Word16(s: seq<byte>): u16
    requires |s| == 2
  {
    FromLEBound(s);
    Widths();
    FromLE(s)
  }

  /** All frames of a stream, and whether reading stopped at an oversized one. */
  function DecodeAll(stream: seq<byte>): (seq<Frame>, bool)
    decreases |stream|
  {
    match Decode(stream)
    case Got(frame, rest) =>
      var (frames, oversize) := DecodeAll(rest);
      ([frame] + frames, oversize)
    case End => ([], false)
    case Oversize(_) => ([], true)
  }

  // ---------------------------------------------------------------- round trips

  lemma HeaderParts(f: Frame, rest: seq<byte>)
    requires |f.payload| <= MAX_PAYLOAD_WRITTEN
    ensures var s := Header(f) + rest;
      && |Header(f)| == HEADER
      && Word16(s[..2]) == f.extension && s[2] == f.kind && FromLE(s[3..HEADER]) == |f.payload|
  {
    Widths();
    LERoundTrip(2, f.extension);
    LERoundTrip(3, |f.payload|);
    var s := Header(f) + rest;
    assert s[..2] == LE(2, f.extension) && s[3..HEADER] == LE(3, |f.payload|);
  }

  /** Where a frame's parts stand: two bytes of extension, the type, three bytes of length, the payload. */
  lemma FrameBytes(f: Frame)
    ensures Encode(f).Some? <==> |f.payload| <= 16_777_215
    ensures Encode(f).Some? ==>
              var s := Encode(f).value;
              && |s| == 6 + |f.payload| && s[6..] == f.payload && s[2] == f.kind
              && s[0] as int + 256 * (s[1] as int) == f.extension
              && s[3] as int + 256 * (s[4] as int) + 65536 * (s[5] as int) == |f.payload|
  {
    if |f.payload| <= MAX_PAYLOAD_WRITTEN {
      HeaderParts(f, f.payload);
      var s := Header(f) + f.payload;
      LittleTwo(s[..2]);
      LittleThree(s[3..HEADER]);
    }
  }

  lemma LittleTwo(s: seq<byte>)
    requires |s| == 2
    ensures FromLE(s) == s[0] as int + 256 * (s[1] as int)
  {
    assert s[1..][1..] == [] && FromLE(s[1..]) == s[1] as int;
  }

  lemma LittleThree(s: seq<byte>)
    requires |s| == 3
    ensures FromLE(s) == s[0] as int + 256 * (s[1] as int) + 65536 * (s[2] as int)
  {
    LittleTwo(s[1..]);
  }

  /** A frame that can be written is read back exactly when its payload is within the reader's own,
      smaller limit; any larger one is refused with its length. */
  lemma FrameRoundTrip(f: Frame, rest: seq<byte>)
    requires Encode(f).Some?
    ensures Decode(Encode(f).value + rest) ==
            if |f.payload| <= 1_048_576 then Got(f, rest) else Oversize(|f.payload|)
  {
    HeaderParts(f, f.payload + rest);
    var s := Encode(f).value + rest;
    assert s == Header(f) + (f.payload + rest);
    if |f.payload| <= MAX_PAYLOAD_READ {
      assert s[HEADER..HEADER + |f.payload|] == f.payload && s[HEADER + |f.payload|..] == rest;
    }
  }

  ghost predicate Readable(fs: seq<Frame>) {
    forall i :: 0 <= i < |fs| ==> |fs[i].payload| <= MAX_PAYLOAD_READ
  }

  ghost function EncodeAll(fs: seq<Frame>): seq<byte>
    requires Readable(fs)
  {
    if fs == [] then [] else Encode(fs[0]).value + EncodeAll(fs[1..])
  }

  lemma DecodeFirst(f: Frame, rest: seq<byte>)
    requires |f.payload| <= MAX_PAYLOAD_READ
    ensures DecodeAll(Encode(f).value + rest) == ([f] + DecodeAll(rest).0, DecodeAll(rest).1)
  {
    hide Encode, Decode;
    EncodeFits(f);
    FrameRoundTrip(f, rest);
  }

  lemma EncodeFits(f: Frame)
    requires |f.payload| <= MAX_PAYLOAD_WRITTEN
    ensures Encode(f).Some? && |Encode(f).value| == HEADER + |f.payload|
  {
  }

  /** Any list of frames, encoded back to back, decodes to exactly that list, whatever follows. */
  lemma {:induction false} StreamRoundTrip(fs: seq<Frame>, tail: seq<byte>)
    requires Readable(fs)
    ensures DecodeAll(EncodeAll(fs) + tail) == (fs + DecodeAll(tail).0, DecodeAll(tail).1)
  {
    hide Decode, DecodeAll;
    if fs == [] {
      assert EncodeAll(fs) + tail == tail;
      assert fs + DecodeAll(tail).0 == DecodeAll(tail).0;
    } else {
      hide Encode;
      EncodeFits(fs[0]);
      var head, rest := Encode(fs[0]).value, EncodeAll(fs[1..]);
      assert EncodeAll(fs) + tail == head + (rest + tail);
      DecodeFirst(fs[0], rest + tail);
      StreamRoundTrip(fs[1..], tail);
      assert fs + DecodeAll(tail).0 == [fs[0]] + (fs[1..] + DecodeAll(tail).0);
    }
  }

  lemma CutFrame(f: Frame, n: nat)
    requires |f.payload| <= MAX_PAYLOAD_READ && n < |Encode(f).value|
    ensures Decode(Encode(f).value[..n]) == End
  {
    var s := Encode(f).value;
    HeaderParts(f, f.payload);
    if n >= HEADER {
      assert s[..n][3..HEADER] == s[3..HEADER];
    }
  }

  lemma EncodeAllCons(f: Frame, fs: seq<Frame>)
    requires |f.payload| <= MAX_PAYLOAD_READ && Readable(fs)
    ensures Readable([f] + fs) && EncodeAll([f] + fs) == Encode(f).value + EncodeAll(fs)
  {
    assert ([f] + fs)[1..] == fs;
  }

  /** The first k frames are complete within n bytes, and the next one is not. */
  ghost predicate Complete(fs: seq<Frame>, n: nat, k: nat)
    requires Readable(fs)
  {
    && k <= |fs|
    && |EncodeAll(fs[..k])| <= n
    && (k < |fs| ==> n < |EncodeAll(fs[..k + 1])|)
  }

  lemma CompleteCons(f: Frame, fs: seq<Frame>, n: nat, k: nat)
    requires |f.payload| <= MAX_PAYLOAD_READ && Readable(fs) && Complete(fs, n, k)
    ensures Readable([f] + fs) && Complete([f] + fs, |Encode(f).value| + n, k + 1)
  {
    hide Encode, EncodeAll;
    EncodeFits(f);
    var all := [f] + fs;
    assert all[..k + 1] == [f] + fs[..k];
    EncodeAllCons(f, fs[..k]);
    if k < |fs| {
      assert all[..k + 2] == [f] + fs[..k + 1];
      EncodeAllCons(f, fs[..k + 1]);
    }
  }

  lemma CompleteNone(f: Frame, fs: seq<Frame>, n: nat)
    requires |f.payload| <= MAX_PAYLOAD_READ && Readable(fs) && n < |Encode(f).value|
    ensures Readable([f] + fs) && Complete([f] + fs, n, 0)
  {
    EncodeAllCons(f, []);
    assert ([f] + fs)[..1] == [f] + [] && ([f] + fs)[..0] == [];
  }

  lemma CutLater(f: Frame, rest: seq<Frame>, n: nat, m: nat)
    requires |f.payload| <= MAX_PAYLOAD_READ && Readable(rest) && n <= |EncodeAll(rest)|
    requires Complete(rest, n, m) && DecodeAll(EncodeAll(rest)[..n]) == (rest[..m], false)
    ensures var all := [f] + rest;
      && Readable(all) && Complete(all, |Encode(f).value| + n, m + 1)
      && m + 1 <= |all| && |Encode(f).value| + n <= |EncodeAll(all)|
      && DecodeAll(EncodeAll(all)[..|Encode(f).value| + n]) == (all[..m + 1], false)
  {
    hide Encode, Decode, DecodeAll, EncodeAll, Complete;
    EncodeFits(f);
    EncodeAllCons(f, rest);
    CompleteBound(rest, n, m);
    CompleteCons(f, rest, n, m);
    assert EncodeAll([f] + rest)[..|Encode(f).value| + n] == Encode(f).value + EncodeAll(rest)[..n];
    DecodeFirst(f, EncodeAll(rest)[..n]);
    assert ([f] + rest)[..m + 1] == [f] + rest[..m];
  }

  lemma CutHere(f: Frame, rest: seq<Frame>, n: nat)
    requires |f.payload| <= MAX_PAYLOAD_READ && Readable(rest) && n < |Encode(f).value|
    ensures var all := [f] + rest;
      && Readable(all) && Complete(all, n, 0) && n <= |EncodeAll(all)|
      && DecodeAll(EncodeAll(all)[..n]) == (all[..0], false)
  {
    hide Encode, Decode, DecodeAll, EncodeAll, Complete;
    EncodeFits(f);
    EncodeAllCons(f, rest);
    assert EncodeAll([f] + rest)[..n] == Encode(f).value[..n];
    CutFirst(f, n);
    CompleteNone(f, rest, n);
  }

  lemma NothingCut(fs: seq<Frame>, n: nat)
    requires fs == [] && n <= |EncodeAll(fs)|
    ensures Complete(fs, n, 0) && DecodeAll(EncodeAll(fs)[..n]) == (fs[..0], false)
  {
    assert EncodeAll(fs)[..n] == [];
  }

  /** A stream cut off anywhere yields exactly the frames that are complete, then its end. */
  lemma {:induction false} TruncatedStream(fs: seq<Frame>, n: nat) returns (k: nat)
    requires Readable(fs) && n <= |EncodeAll(fs)|
    ensures Complete(fs, n, k) && DecodeAll(EncodeAll(fs)[..n]) == (fs[..k], false)
  {
    hide Encode, Decode, DecodeAll, EncodeAll, Complete;
    if fs == [] {
      k := 0;
      NothingCut(fs, n);
    } else {
      var f, rest := fs[0], fs[1..];
      EncodeFits(f);
      assert fs == [f] + rest;
      var head := |Encode(f).value|;
      if n < head {
        k := 0;
        CutHere(f, rest, n);
      } else {
        assert n - head <= |EncodeAll(rest)| by { EncodeAllCons(f, rest); }
        var m := TruncatedStream(rest, n - head);
        k := m + 1;
        CutLater(f, rest, n - head, m);
        CompleteBound(fs, n, k);
      }
    }
  }

  lemma CompleteBound(fs: seq<Frame>, n: nat, k: nat)
    requires Readable(fs) && Complete(fs, n, k)
    ensures k <= |fs|
  {
  }

  lemma CutFirst(f: Frame, n: nat)
    requires |f.payload| <= MAX_PAYLOAD_READ && n < |Encode(f).value|
    ensures DecodeAll(Encode(f).value[..n]) == ([], false)
  {
    CutFrame(f, n);
  }

  // ---------------------------------------------------------------- connections

  /** Why no frame could be read. */
  datatype ReadError = Eof | Broken | TooLarge(length: nat)

  /** A connection whose peer has sent, or will send, the pending bytes; after them it is closed, or fails. */
  class Conn {
    var pending: seq<byte>
    const fails: bool

    constructor (bytes: seq<byte>, fails: bool)
      ensures pending == bytes && this.fails == fails
    {
      pending := bytes;
      this.fails := fails;
    }

    /** At most n bytes, as many as happen to be there; none only at the end, or at the failure. */
    method Read(n: nat) returns (got: seq<byte>)
      requires n > 0
      modifies this
      ensures |got| <= n && old(pending) == got + pending
      ensures got == [] ==> old(pending) == []
    {
      if pending == [] {
        return [];
      }
      var k :| 1 <= k <= n && k <= |pending|;
      got := pending[..k];
      pending := pending[k..];
    }
  }

  /** A connection with bytes put back in front. */
  class PrefixedConn {
    const conn: Conn
    var prefix: seq<byte>

    function Contents(): seq<byte>
      reads this, conn
    {
      prefix + conn.pending
    }

    constructor (conn: Conn, prefix: seq<byte>)
      ensures this.conn == conn && this.prefix == prefix
    {
      this.conn := conn;
      this.prefix := prefix;
    }

    method Read(n: nat) returns (got: seq<byte>)
      requires n > 0
      modifies this, conn
      ensures |got| <= n && old(Contents()) == got + Contents()
      ensures got == [] ==> old(Contents()) == []
    {
      if |prefix| > 0 {
        var k := if n < |prefix| then n else |prefix|;
        got := prefix[..k];
        prefix := prefix[k..];
        return got;
      }
      got := conn.Read(n);
    }

    /** io.ReadFull: exactly n bytes, or everything there was before the end or the failure. */
    method ReadFull(n: nat) returns (got: seq<byte>)
      modifies this, conn
      ensures old(Contents()) == got + Contents()
      ensures if |old(Contents())| >= n then |got| == n else got == old(Contents())
    {
      got := [];
      while |got| < n
        invariant |got| <= n
        invariant old(Contents()) == got + Contents()
      {
        ghost var rest := Contents();
        var more := Read(n - |got|);
        if more == [] {
          assert rest == [];
          return got;
        }
        assert got + rest == (got + more) + Contents();
        got := got + more;
      }
    }

    /** The next frame, however the bytes are cut up on their way. A connection that fails before a frame is
        complete is told from one that ends. */
    method ReadFrame() returns (r: Result<Frame, ReadError>)
      modifies this, conn
      ensures match Decode(old(Contents()))
              case Got(frame, rest) => r == Ok(frame) && Contents() == rest
              case End => r == Err(if conn.fails then Broken else Eof)
              case Oversize(length) => r == Err(TooLarge(length))
    {
      ghost var stream := Contents();
      var header := ReadFull(HEADER);
      if |header| < HEADER {
        return Err(if conn.fails then Broken else Eof);
      }
      assert header == stream[..HEADER];
      var length := FromLE(header[3..HEADER]);
      assert header[3..HEADER] == stream[3..HEADER];
      if length > MAX_PAYLOAD_READ {
        return Err(TooLarge(length));
      }
      ghost var after := Contents();
      assert after == stream[HEADER..];
      var payload := ReadFull(length);
      if |payload| < length {
        return Err(if conn.fails then Broken else Eof);
      }
      assert payload == after[..length] == stream[HEADER..HEADER + length];
      assert header[..2] == stream[..2];
      assert Contents() == after[length..] == stream[HEADER + length..];
      return Ok(Frame(Word16(header[..2]), header[2], payload));
    }
  }

  /** sniffConnectionPrefix: the first byte is looked at and put back; None when there is none. */
  method Sniff(conn: Conn) returns (first: Option<byte>, routed: PrefixedConn)
    modifies conn
    ensures fresh(routed) && routed.conn == conn
    ensures first == if old(conn.pending) == [] then None else Some(old(conn.pending)[0])
    ensures routed.Contents() == old(conn.pending)
  {
    var peek := conn.Read(1);
    routed := new PrefixedConn(conn, peek);
    first := if peek == [] then None else Some(peek[0]);
  }
}
