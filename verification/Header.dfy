/** The block header as the bridge hashes it: the bytes written to the hasher determine the header. */
module Header {
  import opened Bytes
  import opened Hex
  import opened Wrappers

  const HASH_SIZE: nat := 32

  /** An RPC block header; every hash and the blue work are hexadecimal text. */
  datatype BlockHeader = BlockHeader(
    version: u32,
    parents: seq<seq<string>>,
    hashMerkleRoot: string,
    acceptedIdMerkleRoot: string,
    utxoCommitment: string,
    timestamp: u64,
    bits: u32,
    nonce: u64,
    daaScore: u64,
    blueScore: u64,
    blueWork: string,
    pruningPoint: string)

  // ---------------------------------------------------------------- the bytes

  ghost function HashesBytes(hashes: seq<string>): seq<byte> {
    if hashes == [] then [] else HashesBytes(hashes[..|hashes| - 1]) + Decode(hashes[|hashes| - 1])
  }

  ghost function LevelBytes(level: seq<string>): seq<byte> {
    LE(8, |level|) + HashesBytes(level)
  }

  ghost function ParentsBytes(parents: seq<seq<string>>): seq<byte> {
    if parents == [] then [] else ParentsBytes(parents[..|parents| - 1]) + LevelBytes(parents[|parents| - 1])
  }

  /** Time stamp and nonce are written as zero. */
  function Details(bits: u32, daaScore: u64, blueScore: u64): seq<byte> {
    LE(8, 0) + LE(4, bits) + LE(8, 0) + LE(8, daaScore) + LE(8, blueScore)
  }

  /** Blue work with an even number of digits. */
  function Even(blueWork: string): string {
    if |blueWork| % 2 == 0 then blueWork else "0" + blueWork
  }

  function BlueWorkBytes(blueWork: string): seq<byte> {
    LE(8, |Decode(Even(blueWork))|) + Decode(Even(blueWork))
  }

  ghost function Preimage(h: BlockHeader): seq<byte> {
    LE(2, h.version % 0x1_0000) + (LE(8, |h.parents|) + (ParentsBytes(h.parents) + (Decode(h.hashMerkleRoot) +
    (Decode(h.acceptedIdMerkleRoot) + (Decode(h.utxoCommitment) + (Details(h.bits, h.daaScore, h.blueScore) +
    (BlueWorkBytes(h.blueWork) + Decode(h.pruningPoint))))))))
  }

  // ---------------------------------------------------------------- writing them

  /** The streaming hash: what matters is what has been written to it. */
  class Hasher {
    var written: seq<byte>

    constructor ()
      ensures written == []
    {
      written := [];
    }

    method Write(bytes: seq<byte>)
      modifies this
      ensures written == old(written) + bytes
    {
      written := written + bytes;
    }

    method Write16(v: u16)
      modifies this
      ensures written == old(written) + LE(2, v)
    {
      Write(LE(2, v));
    }

    method Write64(v: nat)
      modifies this
      ensures written == old(written) + LE(8, v)
    {
      Write(LE(8, v));
    }

    method WriteHexString(s: string)
      modifies this
      ensures written == old(written) + Decode(s)
    {
      Write(Decode(s));
    }

    method WriteLevel(level: seq<string>)
      modifies this
      ensures written == old(written) + LevelBytes(level)
    {
      hide LE, Decode;
      Write64(|level|);
      ghost var start := written;
      for i := 0 to |level|
        invariant written == start + HashesBytes(level[..i])
      {
        WriteHexString(level[i]);
        assert level[..i + 1][..i] == level[..i];
      }
      assert level[..|level|] == level;
    }

    method WriteParents(parents: seq<seq<string>>)
      modifies this
      ensures written == old(written) + LE(8, |parents|) + ParentsBytes(parents)
    {
      hide LevelBytes, LE;
      Write64(|parents|);
      ghost var start := written;
      for i := 0 to |parents|
        invariant written == start + ParentsBytes(parents[..i])
      {
        WriteLevel(parents[i]);
        assert parents[..i + 1][..i] == parents[..i];
      }
      assert parents[..|parents|] == parents;
    }

    /** Zero digits are put in front until the length is even. */
    method WriteBlueWork(blueWork: string)
      modifies this
      ensures written == old(written) + BlueWorkBytes(blueWork)
    {
      hide Decode, LE;
      var padded := blueWork;
      var length := |blueWork| + |blueWork| % 2;
      while |padded| < length
        invariant padded == blueWork || (|blueWork| % 2 == 1 && padded == Even(blueWork))
        decreases length - |padded|
      {
        padded := "0" + padded;
      }
      var bytes := Decode(padded);
      Write64(|bytes|);
      WriteHexString(padded);
    }
  }

  /** The digest of the header is the digest of its preimage. */
  method SerializeBlockHeader(h: BlockHeader, digest: seq<byte> -> seq<byte>) returns (sum: seq<byte>)
    ensures sum == digest(Preimage(h))
  {
    hide LE, Decode, ParentsBytes, Details, BlueWorkBytes;
    var hasher := new Hasher();
    hasher.Write16(h.version % 0x1_0000);
    hasher.WriteParents(h.parents);
    hasher.WriteHexString(h.hashMerkleRoot);
    hasher.WriteHexString(h.acceptedIdMerkleRoot);
    hasher.WriteHexString(h.utxoCommitment);
    hasher.Write(Details(h.bits, h.daaScore, h.blueScore));
    hasher.WriteBlueWork(h.blueWork);
    hasher.WriteHexString(h.pruningPoint);
    assert hasher.written == Preimage(h);
    sum := digest(hasher.written);
  }

  // ---------------------------------------------------------------- reading them back

  /** What the hashed bytes say about a header, field by field in the protocol's order. */
  datatype Content = Content(
    version: nat,
    parents: seq<seq<seq<byte>>>,
    hashMerkleRoot: seq<byte>,
    acceptedIdMerkleRoot: seq<byte>,
    utxoCommitment: seq<byte>,
    timestamp: nat,
    bits: nat,
    nonce: nat,
    daaScore: nat,
    blueScore: nat,
    blueWork: seq<byte>,
    pruningPoint: seq<byte>)

  function ReadBytes(n: nat, s: seq<byte>): Option<(seq<byte>, seq<byte>)> {
    if |s| < n then None else Some((s[..n], s[n..]))
  }

  function ReadWord(n: nat, s: seq<byte>): Option<(nat, seq<byte>)> {
    if |s| < n then None else Some((FromLE(s[..n]), s[n..]))
  }

  /** So many hashes of 32 bytes. */
  function ReadHashes(count: nat, s: seq<byte>): Option<(seq<seq<byte>>, seq<byte>)> {
    if count == 0 then Some(([], s))
    else
      var (hash, s1) :- ReadBytes(32, s);
      var (hashes, s2) :- ReadHashes(count - 1, s1);
      Some(([hash] + hashes, s2))
  }

  /** So many levels, each a count of 8 bytes and its hashes. */
  function ReadLevels(count: nat, s: seq<byte>): Option<(seq<seq<seq<byte>>>, seq<byte>)> {
    if count == 0 then Some(([], s))
    else
      var (size, s1) :- ReadWord(8, s);
      var (level, s2) :- ReadHashes(size, s1);
      var (levels, s3) :- ReadLevels(count - 1, s2);
      Some(([level] + levels, s3))
  }

  /** Version and parents. */
  function ReadParents(s: seq<byte>): Option<((nat, seq<seq<seq<byte>>>), seq<byte>)> {
    var (version, s1) :- ReadWord(2, s);
    var (count, s2) :- ReadWord(8, s1);
    var (parents, s3) :- ReadLevels(count, s2);
    Some(((version, parents), s3))
  }

  /** A whole header: after the parents three roots, 36 bytes of numbers, the blue work behind its length, and the
      pruning point, with nothing after it. */
  function ReadHeader(s: seq<byte>): Option<Content> {
    var ((version, parents), s1) :- ReadParents(s);
    var (hashMerkleRoot, s2) :- ReadBytes(32, s1);
    var (acceptedIdMerkleRoot, s3) :- ReadBytes(32, s2);
    var (utxoCommitment, s4) :- ReadBytes(32, s3);
    var (timestamp, s5) :- ReadWord(8, s4);
    var (bits, s6) :- ReadWord(4, s5);
    var (nonce, s7) :- ReadWord(8, s6);
    var (daaScore, s8) :- ReadWord(8, s7);
    var (blueScore, s9) :- ReadWord(8, s8);
    var (size, s10) :- ReadWord(8, s9);
    var (blueWork, s11) :- ReadBytes(size, s10);
    var (pruningPoint, s12) :- ReadBytes(32, s11);
    if s12 != [] then None
    else Some(Content(version, parents, hashMerkleRoot, acceptedIdMerkleRoot, utxoCommitment, timestamp, bits, nonce,
                      daaScore, blueScore, blueWork, pruningPoint))
  }

  /** Text that stands for 32 bytes. */
  ghost predicate Hash(s: string) {
    |Decode(s)| == HASH_SIZE
  }

  ghost predicate Hashes(hashes: seq<string>) {
    |hashes| < 0x1_0000_0000_0000_0000 && forall i :: 0 <= i < |hashes| ==> Hash(hashes[i])
  }

  ghost predicate WellFormed(h: BlockHeader) {
    && |h.parents| < 0x1_0000_0000_0000_0000 && (forall i :: 0 <= i < |h.parents| ==> Hashes(h.parents[i]))
    && Hash(h.hashMerkleRoot) && Hash(h.acceptedIdMerkleRoot) && Hash(h.utxoCommitment) && Hash(h.pruningPoint)
    && |Decode(Even(h.blueWork))| < 0x1_0000_0000_0000_0000
  }

  /** The bytes a list of texts stands for. */
  ghost function Decoded(hashes: seq<string>): (r: seq<seq<byte>>)
    ensures |r| == |hashes| && forall i :: 0 <= i < |r| ==> r[i] == Decode(hashes[i])
  {
    seq(|hashes|, i requires 0 <= i < |hashes| => Decode(hashes[i]))
  }

  ghost function DecodedLevels(parents: seq<seq<string>>): (r: seq<seq<seq<byte>>>)
    ensures |r| == |parents| && forall i :: 0 <= i < |r| ==> r[i] == Decoded(parents[i])
  {
    seq(|parents|, i requires 0 <= i < |parents| => Decoded(parents[i]))
  }

  lemma WordRead(n: nat, v: nat, rest: seq<byte>)
    requires v < Pow(256, n)
    ensures ReadWord(n, LE(n, v) + rest) == Some((v, rest))
  {
    LERoundTrip(n, v);
    var s := LE(n, v) + rest;
    assert s[..n] == LE(n, v) && s[n..] == rest;
  }

  lemma BytesRead(bytes: seq<byte>, rest: seq<byte>)
    ensures ReadBytes(|bytes|, bytes + rest) == Some((bytes, rest))
  {
    var s := bytes + rest;
    assert s[..|bytes|] == bytes && s[|bytes|..] == rest;
  }

  lemma {:induction false} HashesCons(hashes: seq<string>)
    requires hashes != []
    ensures HashesBytes(hashes) == Decode(hashes[0]) + HashesBytes(hashes[1..])
  {
    hide Decode;
    var n := |hashes| - 1;
    if n == 0 {
      assert hashes[..0] == [] && hashes[1..] == [];
      assert [] + Decode(hashes[0]) == Decode(hashes[0]) == Decode(hashes[0]) + [];
    } else {
      HashesCons(hashes[..n]);
      assert hashes[..n][1..] == hashes[1..][..n - 1];
      Regroup(Decode(hashes[0]), HashesBytes(hashes[1..][..n - 1]), Decode(hashes[n]));
    }
  }

  lemma {:induction false} ParentsCons(parents: seq<seq<string>>)
    requires parents != []
    ensures ParentsBytes(parents) == LevelBytes(parents[0]) + ParentsBytes(parents[1..])
  {
    hide LevelBytes;
    var n := |parents| - 1;
    if n == 0 {
      assert parents[..0] == [] && parents[1..] == [];
      assert [] + LevelBytes(parents[0]) == LevelBytes(parents[0]) == LevelBytes(parents[0]) + [];
    } else {
      ParentsCons(parents[..n]);
      assert parents[..n][1..] == parents[1..][..n - 1];
      Regroup(LevelBytes(parents[0]), ParentsBytes(parents[1..][..n - 1]), LevelBytes(parents[n]));
    }
  }

  lemma {:induction false} HashesRead(hashes: seq<string>, rest: seq<byte>)
    requires forall i :: 0 <= i < |hashes| ==> Hash(hashes[i])
    ensures ReadHashes(|hashes|, HashesBytes(hashes) + rest) == Some((Decoded(hashes), rest))
  {
    hide Decode, HashesBytes;
    if hashes == [] {
      NoHashes();
      assert [] + rest == rest && Decoded(hashes) == [];
    } else {
      var tail := HashesBytes(hashes[1..]);
      HashesCons(hashes);
      Regroup(Decode(hashes[0]), tail, rest);
      assert Hash(hashes[0]);
      BytesRead(Decode(hashes[0]), tail + rest);
      HashesRead(hashes[1..], rest);
      assert Decoded(hashes) == [Decode(hashes[0])] + Decoded(hashes[1..]);
    }
  }

  lemma NoHashes()
    ensures HashesBytes([]) == [] && ParentsBytes([]) == []
  {
  }

  lemma {:induction false} LevelsRead(parents: seq<seq<string>>, rest: seq<byte>)
    requires forall i :: 0 <= i < |parents| ==> Hashes(parents[i])
    ensures ReadLevels(|parents|, ParentsBytes(parents) + rest) == Some((DecodedLevels(parents), rest))
  {
    hide Decode, HashesBytes, ParentsBytes, LE, Pow;
    if parents == [] {
      NoHashes();
      assert [] + rest == rest && DecodedLevels(parents) == [];
    } else {
      var level, tail := parents[0], ParentsBytes(parents[1..]);
      ParentsCons(parents);
      assert ParentsBytes(parents) + rest == LE(8, |level|) + (HashesBytes(level) + (tail + rest));
      assert Hashes(level);
      Widths();
      WordRead(8, |level|, HashesBytes(level) + (tail + rest));
      HashesRead(level, tail + rest);
      LevelsRead(parents[1..], rest);
      assert DecodedLevels(parents) == [Decoded(level)] + DecodedLevels(parents[1..]);
    }
  }

  lemma ParentsRead(h: BlockHeader, rest: seq<byte>)
    requires WellFormed(h)
    ensures ReadParents(LE(2, h.version % 0x1_0000) + (LE(8, |h.parents|) + (ParentsBytes(h.parents) + rest))) ==
            Some(((h.version % 0x1_0000, DecodedLevels(h.parents)), rest))
  {
    hide LE, Pow, ParentsBytes, ReadLevels, ReadWord;
    Widths();
    WordRead(2, h.version % 0x1_0000, LE(8, |h.parents|) + (ParentsBytes(h.parents) + rest));
    WordRead(8, |h.parents|, ParentsBytes(h.parents) + rest);
    LevelsRead(h.parents, rest);
  }

  /** What a reader of the hashed bytes finds: every field of the header in its own place, the lower 16 bits of the
      version, and 0 for time stamp and nonce. */
  lemma PreimageReads(h: BlockHeader)
    requires WellFormed(h)
    ensures ReadHeader(Preimage(h)) ==
            Some(Content(h.version % 0x1_0000, DecodedLevels(h.parents), Decode(h.hashMerkleRoot),
                         Decode(h.acceptedIdMerkleRoot), Decode(h.utxoCommitment), 0, h.bits, 0, h.daaScore,
                         h.blueScore, Decode(Even(h.blueWork)), Decode(h.pruningPoint)))
  {
    hide LE, Pow, Decode, Even, ParentsBytes, Hashes, ReadParents, ReadWord, ReadBytes;
    Widths();
    var work, pruning := Decode(Even(h.blueWork)), Decode(h.pruningPoint);
    var s9 := LE(8, |work|) + (work + pruning);
    var s8 := LE(8, h.blueScore) + s9;
    var s7 := LE(8, h.daaScore) + s8;
    var s6 := LE(8, 0) + s7;
    var s5 := LE(4, h.bits) + s6;
    var s4 := LE(8, 0) + s5;
    var s3 := Decode(h.utxoCommitment) + s4;
    var s2 := Decode(h.acceptedIdMerkleRoot) + s3;
    var s1 := Decode(h.hashMerkleRoot) + s2;
    Regroup(LE(8, |work|), work, pruning);
    DetailsThen(h.bits, h.daaScore, h.blueScore, s9);
    ParentsRead(h, s1);
    BytesRead(Decode(h.hashMerkleRoot), s2);
    BytesRead(Decode(h.acceptedIdMerkleRoot), s3);
    BytesRead(Decode(h.utxoCommitment), s4);
    WordRead(8, 0, s5);
    WordRead(4, h.bits, s6);
    WordRead(8, 0, s7);
    WordRead(8, h.daaScore, s8);
    WordRead(8, h.blueScore, s9);
    WordRead(8, |work|, work + pruning);
    BytesRead(work, pruning);
    BytesRead(pruning, []);
    assert pruning + [] == pruning;
  }

  lemma DetailsThen(bits: u32, daaScore: u64, blueScore: u64, x: seq<byte>)
    ensures Details(bits, daaScore, blueScore) + x ==
            LE(8, 0) + (LE(4, bits) + (LE(8, 0) + (LE(8, daaScore) + (LE(8, blueScore) + x))))
  {
    hide LE;
  }

  // ---------------------------------------------------------------- what they determine

  ghost predicate SameHashes(a: seq<string>, b: seq<string>) {
    |a| == |b| && forall i :: 0 <= i < |a| ==> Decode(a[i]) == Decode(b[i])
  }

  ghost predicate SameParents(p: seq<seq<string>>, q: seq<seq<string>>) {
    |p| == |q| && forall i :: 0 <= i < |p| ==> SameHashes(p[i], q[i])
  }

  /** Everything but the time stamp, the nonce and the upper half of the version. */
  ghost predicate SameContent(g: BlockHeader, h: BlockHeader) {
    && g.version % 0x1_0000 == h.version % 0x1_0000
    && SameParents(g.parents, h.parents)
    && Decode(g.hashMerkleRoot) == Decode(h.hashMerkleRoot)
    && Decode(g.acceptedIdMerkleRoot) == Decode(h.acceptedIdMerkleRoot)
    && Decode(g.utxoCommitment) == Decode(h.utxoCommitment)
    && g.bits == h.bits && g.daaScore == h.daaScore && g.blueScore == h.blueScore
    && Decode(Even(g.blueWork)) == Decode(Even(h.blueWork))
    && Decode(g.pruningPoint) == Decode(h.pruningPoint)
  }

  lemma {:induction false} SameHashesBytes(a: seq<string>, b: seq<string>)
    requires SameHashes(a, b)
    ensures HashesBytes(a) == HashesBytes(b)
  {
    hide Decode;
    if a != [] {
      SameHashesBytes(a[..|a| - 1], b[..|b| - 1]);
    }
  }

  lemma {:induction false} SameParentsBytes(p: seq<seq<string>>, q: seq<seq<string>>)
    requires SameParents(p, q)
    ensures ParentsBytes(p) == ParentsBytes(q)
  {
    hide SameHashes, HashesBytes;
    if p != [] {
      var n := |p| - 1;
      SameParentsBytes(p[..n], q[..n]);
      SameHashesBytes(p[n], q[n]);
      SameSize(p[n], q[n]);
    }
  }

  lemma SameSize(a: seq<string>, b: seq<string>)
    requires SameHashes(a, b)
    ensures |a| == |b|
  {
  }

  lemma SameDecoded(p: seq<seq<string>>, q: seq<seq<string>>)
    requires DecodedLevels(p) == DecodedLevels(q)
    ensures SameParents(p, q)
  {
    hide Decode;
    forall i | 0 <= i < |p|
      ensures SameHashes(p[i], q[i])
    {
      assert Decoded(p[i]) == DecodedLevels(p)[i] == DecodedLevels(q)[i] == Decoded(q[i]);
      assert forall j :: 0 <= j < |p[i]| ==> Decode(p[i][j]) == Decoded(p[i])[j] == Decoded(q[i])[j];
    }
  }

  /** Two headers write the same bytes exactly when they have the same content: no two parent lists, hashes,
      scores or blue works run into each other, and the time stamp and the nonce do not matter. */
  lemma PreimageDeterminesHeader(g: BlockHeader, h: BlockHeader)
    requires WellFormed(g) && WellFormed(h)
    ensures Preimage(g) == Preimage(h) <==> SameContent(g, h)
  {
    hide Decode, Even, ParentsBytes, Details, ReadHeader, WellFormed, SameParents;
    PreimageReads(g);
    PreimageReads(h);
    if Preimage(g) == Preimage(h) {
      SameDecoded(g.parents, h.parents);
    }
    if SameContent(g, h) {
      SameParentsBytes(g.parents, h.parents);
      SameCount(g.parents, h.parents);
    }
  }

  lemma SameCount(p: seq<seq<string>>, q: seq<seq<string>>)
    requires SameParents(p, q)
    ensures |p| == |q|
  {
  }

  // ---------------------------------------------------------------- down to the text

  /** Text as the node writes it. */
  ghost predicate HashText(s: string) {
    |s| == 64 && LowerHex(s)
  }

  ghost predicate Canonical(h: BlockHeader) {
    && |h.parents| < 0x1_0000_0000_0000_0000
    && (forall i :: 0 <= i < |h.parents| ==> |h.parents[i]| < 0x1_0000_0000_0000_0000)
    && (forall i, j :: 0 <= i < |h.parents| && 0 <= j < |h.parents[i]| ==> HashText(h.parents[i][j]))
    && HashText(h.hashMerkleRoot) && HashText(h.acceptedIdMerkleRoot) && HashText(h.utxoCommitment)
    && HashText(h.pruningPoint) && LowerHex(h.blueWork) && |h.blueWork| < 0x1_0000_0000_0000_0000
  }

  lemma TextIsHash(s: string)
    requires HashText(s)
    ensures Hash(s)
  {
    DecodeLength(s);
  }

  lemma SameText(s: string, t: string)
    requires LowerHex(s) && LowerHex(t) && |s| % 2 == 0 && |t| % 2 == 0
    ensures Decode(s) == Decode(t) <==> s == t
  {
    EncodeDecode(s);
    EncodeDecode(t);
  }

  lemma CanonicalIsWellFormed(h: BlockHeader)
    requires Canonical(h)
    ensures WellFormed(h)
  {
    hide Decode, LowerHex;
    forall i | 0 <= i < |h.parents| ensures Hashes(h.parents[i]) {
      forall j | 0 <= j < |h.parents[i]| ensures Hash(h.parents[i][j]) {
        TextIsHash(h.parents[i][j]);
      }
    }
    TextIsHash(h.hashMerkleRoot);
    TextIsHash(h.acceptedIdMerkleRoot);
    TextIsHash(h.utxoCommitment);
    TextIsHash(h.pruningPoint);
    EvenText(h.blueWork);
    DecodeLength(Even(h.blueWork));
  }

  lemma EvenText(s: string)
    requires LowerHex(s)
    ensures LowerHex(Even(s)) && AllHex(Even(s)) && |Even(s)| % 2 == 0 && |Even(s)| <= |s| + 1
  {
  }

  lemma SameLevelText(p: seq<string>, q: seq<string>)
    requires forall j :: 0 <= j < |p| ==> HashText(p[j])
    requires forall j :: 0 <= j < |q| ==> HashText(q[j])
    ensures SameHashes(p, q) <==> p == q
  {
    hide Decode, LowerHex;
    if SameHashes(p, q) {
      forall j | 0 <= j < |p| ensures p[j] == q[j] {
        SameText(p[j], q[j]);
      }
    }
  }

  /** For headers in the node's own spelling, equal bytes mean equal fields; blue works may differ in one
      leading zero digit. */
  lemma PreimageDeterminesText(g: BlockHeader, h: BlockHeader)
    requires Canonical(g) && Canonical(h) && g.version < 0x1_0000 && h.version < 0x1_0000
    ensures Preimage(g) == Preimage(h) <==>
            g.(timestamp := 0, nonce := 0, blueWork := Even(g.blueWork)) ==
            h.(timestamp := 0, nonce := 0, blueWork := Even(h.blueWork))
  {
    hide Decode, LowerHex, Preimage, Even;
    CanonicalIsWellFormed(g);
    CanonicalIsWellFormed(h);
    PreimageDeterminesHeader(g, h);
    SameText(g.hashMerkleRoot, h.hashMerkleRoot);
    SameText(g.acceptedIdMerkleRoot, h.acceptedIdMerkleRoot);
    SameText(g.utxoCommitment, h.utxoCommitment);
    SameText(g.pruningPoint, h.pruningPoint);
    EvenText(g.blueWork);
    EvenText(h.blueWork);
    SameText(Even(g.blueWork), Even(h.blueWork));
    SameParentsText(g, h);
  }

  lemma SameParentsText(g: BlockHeader, h: BlockHeader)
    requires Canonical(g) && Canonical(h)
    ensures SameParents(g.parents, h.parents) <==> g.parents == h.parents
  {
    hide HashText, SameHashes;
    var p, q := g.parents, h.parents;
    if |p| == |q| {
      forall i | 0 <= i < |p| ensures SameHashes(p[i], q[i]) <==> p[i] == q[i] {
        SameLevelText(p[i], q[i]);
      }
    }
  }
}
