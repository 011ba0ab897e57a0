/** SV2 payloads: the cursor that reads them, the buffer that writes them, and the field layouts of the
    messages the bridge exchanges, in the order its code uses. */
module Sv2Payloads {
  import opened Bytes
  import opened Wrappers

  /** A field is either of fixed width or a string with a one-byte length. */
  datatype Field = Fixed(width: nat) | Str

  type Layout = seq<Field>

  const SETUP_CONNECTION: Layout :=
    [Fixed(1), Fixed(2), Fixed(2), Fixed(4), Str, Fixed(2), Str, Str, Str, Str]
  const SETUP_SUCCESS: Layout := [Fixed(2), Fixed(4)]
  const SETUP_ERROR: Layout := [Fixed(4), Str]
  const OPEN_CHANNEL: Layout := [Fixed(4), Str, Fixed(4), Fixed(32)]
  const OPEN_SUCCESS: Layout := [Fixed(4), Fixed(4), Fixed(32), Str, Fixed(4)]
  const OPEN_ERROR: Layout := [Fixed(4), Str]
  const SUBMIT: Layout := [Fixed(4), Fixed(4), Fixed(4), Fixed(4), Fixed(4), Fixed(4)]
  const SUBMIT_SUCCESS: Layout := [Fixed(4), Fixed(4)]
  const SUBMIT_ERROR: Layout := [Fixed(4), Fixed(4), Str]
  const SET_TARGET: Layout := [Fixed(4), Fixed(32)]
  const NEW_JOB: Layout := [Fixed(4), Fixed(4), Fixed(1), Fixed(4), Fixed(32)]
  const NEW_PREV_HASH: Layout := [Fixed(4), Fixed(4), Fixed(32), Fixed(4), Fixed(4)]

  // ---------------------------------------------------------------- layouts

  predicate Fits(f: Field, v: seq<byte>) {
    match f
    case Fixed(width) => |v| == width
    case Str => |v| < 256
  }

  predicate AllFit(layout: Layout, values: seq<seq<byte>>) {
    |values| == |layout| && forall i :: 0 <= i < |layout| ==> Fits(layout[i], values[i])
  }

  function Put(f: Field, v: seq<byte>): seq<byte>
    requires Fits(f, v)
  {
    match f
    case Fixed(_) => v
    case Str => [|v|] + v
  }

  function PutAll(layout: Layout, values: seq<seq<byte>>): seq<byte>
    requires AllFit(layout, values)
  {
    if layout == [] then [] else Put(layout[0], values[0]) + PutAll(layout[1..], values[1..])
  }

  /** The value of one field and what follows it. */
  function Take(f: Field, s: seq<byte>): (r: Option<(seq<byte>, seq<byte>)>)
    ensures r.Some? ==> Fits(f, r.value.0) && s == Put(f, r.value.0) + r.value.1
  {
    match f
    case Fixed(width) => if |s| < width then None else Some((s[..width], s[width..]))
    case Str => if |s| < 1 || |s| - 1 < s[0] then None else Some((s[1..1 + s[0]], s[1 + s[0]..]))
  }

  /** The values read and what follows them, or the number of the first field that is missing. */
  type Taken = Result<(seq<seq<byte>>, seq<byte>), nat>

  /** The outcome of n fields that gave some values, followed by the outcome of later ones. */
  ghost function Join(n: nat, values: seq<seq<byte>>, later: Taken): Taken {
    match later
    case Err(i) => Err(n + i)
    case Ok((more, end)) => Ok((values + more, end))
  }

  /** All fields in turn. */
  ghost function TakeAll(layout: Layout, s: seq<byte>): Taken {
    if layout == [] then Ok(([], s))
    else
      match Take(layout[0], s)
      case None => Err(0)
      case Some((v, rest)) => Join(1, [v], TakeAll(layout[1..], rest))
  }

  lemma TakePut(f: Field, v: seq<byte>, rest: seq<byte>)
    requires Fits(f, v)
    ensures Take(f, Put(f, v) + rest) == Some((v, rest))
  {
    var s := Put(f, v) + rest;
    match f {
      case Fixed(width) => assert s[..width] == v && s[width..] == rest;
      case Str => assert s[1..1 + |v|] == v && s[1 + |v|..] == rest;
    }
  }

  lemma HeadPut(layout: Layout, values: seq<seq<byte>>)
    requires layout != [] && AllFit(layout, values)
    ensures Fits(layout[0], values[0]) && AllFit(layout[1..], values[1..])
    ensures PutAll(layout, values) == Put(layout[0], values[0]) + PutAll(layout[1..], values[1..])
  {
  }

  lemma HeadTaken(layout: Layout, s: seq<byte>, v: seq<byte>, rest: seq<byte>, values: seq<seq<byte>>, end: seq<byte>)
    requires layout != [] && Take(layout[0], s) == Some((v, rest)) && TakeAll(layout[1..], rest) == Ok((values, end))
    ensures TakeAll(layout, s) == Ok(([v] + values, end))
  {
    hide Take;
  }

  /** Whatever values a message is written with are read back, and the bytes after it are left alone. */
  lemma {:induction false} LayoutRoundTrip(layout: Layout, values: seq<seq<byte>>, rest: seq<byte>)
    requires AllFit(layout, values)
    ensures TakeAll(layout, PutAll(layout, values) + rest) == Ok((values, rest))
  {
    if layout == [] {
      assert PutAll(layout, values) + rest == rest;
    } else {
      HeadPut(layout, values);
      hide AllFit, Fits, Take, Put, TakeAll, PutAll;
      var head, tail := Put(layout[0], values[0]), PutAll(layout[1..], values[1..]);
      Regroup(head, tail, rest);
      TakePut(layout[0], values[0], tail + rest);
      LayoutRoundTrip(layout[1..], values[1..], rest);
      HeadTaken(layout, head + (tail + rest), values[0], tail + rest, values[1..], rest);
      assert values == [values[0]] + values[1..] by { FitCount(layout, values); }
    }
  }

  lemma FitCount(layout: Layout, values: seq<seq<byte>>)
    requires AllFit(layout, values)
    ensures |values| == |layout|
  {
  }

  lemma PutCons(f: Field, layout: Layout, v: seq<byte>, values: seq<seq<byte>>)
    requires Fits(f, v) && AllFit(layout, values)
    ensures AllFit([f] + layout, [v] + values)
    ensures PutAll([f] + layout, [v] + values) == Put(f, v) + PutAll(layout, values)
  {
    assert ([f] + layout)[1..] == layout && ([v] + values)[1..] == values;
  }

  lemma TakenHead(layout: Layout, s: seq<byte>, values: seq<seq<byte>>, rest: seq<byte>)
    requires layout != [] && TakeAll(layout, s) == Ok((values, rest))
    ensures values != []
    ensures Take(layout[0], s).Some? && Take(layout[0], s).value.0 == values[0]
    ensures TakeAll(layout[1..], Take(layout[0], s).value.1) == Ok((values[1..], rest))
  {
    hide Take;
    var (v, after) := Take(layout[0], s).value;
    var later := TakeAll(layout[1..], after).value.0;
    assert values == [v] + later && values[1..] == later;
  }

  lemma {:induction false} ValuesPut(layout: Layout, s: seq<byte>, values: seq<seq<byte>>, rest: seq<byte>)
    requires TakeAll(layout, s) == Ok((values, rest))
    ensures AllFit(layout, values) && s == PutAll(layout, values) + rest
  {
    if layout == [] {
    } else {
      hide Take, TakeAll, Put, PutAll, Fits, AllFit;
      TakenHead(layout, s, values, rest);
      var v, after := Take(layout[0], s).value.0, Take(layout[0], s).value.1;
      ValuesPut(layout[1..], after, values[1..], rest);
      PutCons(layout[0], layout[1..], v, values[1..]);
      assert layout == [layout[0]] + layout[1..] && values == [v] + values[1..];
      Regroup(Put(layout[0], v), PutAll(layout[1..], values[1..]), rest);
    }
  }

  /** A payload is accepted only if it is such a message followed by something. */
  lemma TakenWasPut(layout: Layout, s: seq<byte>)
    requires TakeAll(layout, s).Ok?
    ensures var (values, rest) := TakeAll(layout, s).value;
      AllFit(layout, values) && s == PutAll(layout, values) + rest
  {
    var (values, rest) := TakeAll(layout, s).value;
    ValuesPut(layout, s, values, rest);
  }

  // ---------------------------------------------------------------- reading

  class Cursor {
    const data: seq<byte>
    var pos: nat

    ghost predicate Valid()
      reads this
    {
      pos <= |data|
    }

    function Rest(): seq<byte>
      requires Valid()
      reads this
    {
      data[pos..]
    }

    constructor (data: seq<byte>)
      ensures Valid() && this.data == data && Rest() == data
    {
      this.data := data;
      pos := 0;
    }

    method ReadBytes(length: nat) returns (out: Option<seq<byte>>)
      requires Valid()
      modifies `pos
      ensures Valid()
      ensures match Take(Fixed(length), old(Rest()))
              case None => out == None && pos == old(pos)
              case Some((v, rest)) => out == Some(v) && Rest() == rest
    {
      if |data| - pos < length {
        return None;
      }
      assert data[pos..pos + length] == Rest()[..length] && data[pos + length..] == Rest()[length..];
      out := Some(data[pos..pos + length]);
      pos := pos + length;
    }

    method ReadStr() returns (out: Option<seq<byte>>)
      requires Valid()
      modifies `pos
      ensures Valid()
      ensures match Take(Str, old(Rest()))
              case None => out == None
              case Some((v, rest)) => out == Some(v) && Rest() == rest
    {
      var length := ReadBytes(1);
      if length.None? {
        return None;
      }
      var n := length.value[0];
      ghost var after := Rest();
      out := ReadBytes(n);
      assert n <= |after| ==> after[..n] == old(Rest())[1..1 + n] && after[n..] == old(Rest())[1 + n..];
    }

    /** Field after field, stopping at the first that is missing. */
    method ReadFields(layout: Layout) returns (r: Result<seq<seq<byte>>, nat>)
      requires Valid()
      modifies `pos
      ensures Valid()
      ensures match TakeAll(layout, old(Rest()))
              case Err(i) => r == Err(i)
              case Ok((values, rest)) => r == Ok(values) && Rest() == rest
    {
      hide Take, TakeAll;
      ghost var start := Rest();
      r := Ok([]);
      var i := 0;
      NothingTaken(start);
      assert layout[..0] == [];
      while i < |layout|
        invariant 0 <= i <= |layout| && Valid() && r.Ok?
        invariant TakeAll(layout[..i], start) == Ok((r.value, Rest()))
      {
        var out;
        NextField(layout, i, start, r.value, Rest());
        if layout[i].Str? {
          out := ReadStr();
        } else {
          out := ReadBytes(layout[i].width);
        }
        if out.None? {
          return Err(i);
        }
        r := Ok(r.value + [out.value]);
        i := i + 1;
      }
      assert layout[..i] == layout;
    }
  }

  lemma NothingTaken(s: seq<byte>)
    ensures TakeAll([], s) == Ok(([], s))
  {
  }

  lemma JoinTwice(n: nat, a: seq<seq<byte>>, m: nat, b: seq<seq<byte>>, later: Taken)
    ensures Join(n, a, Join(m, b, later)) == Join(n + m, a + b, later)
  {
    if later.Ok? {
      assert a + (b + later.value.0) == (a + b) + later.value.0;
    }
  }

  lemma {:induction false} TakeAllAppend(a: Layout, b: Layout, s: seq<byte>)
    requires TakeAll(a, s).Ok?
    ensures TakeAll(a + b, s) == Join(|a|, TakeAll(a, s).value.0, TakeAll(b, TakeAll(a, s).value.1))
  {
    hide Take;
    if a == [] {
      assert a + b == b;
      if TakeAll(b, s).Ok? {
        var values := TakeAll(b, s).value.0;
        assert [] + values == values;
      }
    } else {
      var (v, rest) := Take(a[0], s).value;
      assert (a + b)[1..] == a[1..] + b && (a + b)[0] == a[0];
      TakeAllAppend(a[1..], b, rest);
      var (head, end) := TakeAll(a[1..], rest).value;
      hide Join;
      JoinTwice(1, [v], |a| - 1, head, TakeAll(b, end));
      JoinOk(1, [v], head, end);
    }
  }

  lemma JoinOk(n: nat, a: seq<seq<byte>>, b: seq<seq<byte>>, end: seq<byte>)
    ensures Join(n, a, Ok((b, end))) == Ok((a + b, end))
  {
  }

  lemma TakeOne(f: Field, s: seq<byte>)
    ensures TakeAll([f], s) ==
            match Take(f, s)
            case None => Err(0)
            case Some((v, rest)) => Ok(([v], rest))
  {
    hide Take;
    assert [f][1..] == [];
    if Take(f, s).Some? {
      var (v, rest) := Take(f, s).value;
      NothingTaken(rest);
      assert [v] + [] == [v];
    }
  }

  /** After i fields, the next one decides: it is the first missing one, or it joins the values. */
  lemma NextField(layout: Layout, i: nat, s: seq<byte>, values: seq<seq<byte>>, rest: seq<byte>)
    requires i < |layout| && TakeAll(layout[..i], s) == Ok((values, rest))
    ensures match Take(layout[i], rest)
            case None => TakeAll(layout, s) == Err(i)
            case Some((v, after)) => TakeAll(layout[..i + 1], s) == Ok((values + [v], after))
  {
    hide Take;
    TakeOne(layout[i], rest);
    TakeAllAppend(layout[..i], [layout[i]], s);
    assert layout[..i + 1] == layout[..i] + [layout[i]];
    TakeAllAppend(layout[..i], layout[i..], s);
    assert layout == layout[..i] + layout[i..];
  }

  // ---------------------------------------------------------------- writing

  predicate Printable(c: byte) {
    32 <= c <= 126
  }

  /** The printable characters, in order. */
  function PrintableOf(s: seq<byte>): (r: seq<byte>)
    ensures |r| <= |s| && forall c :: c in r ==> Printable(c)
  {
    if s == [] then []
    else PrintableOf(s[..|s| - 1]) + if Printable(s[|s| - 1]) then [s[|s| - 1]] else []
  }

  function Sanitized(s: seq<byte>): (r: seq<byte>)
    ensures |r| <= 255
  {
    var p := PrintableOf(s);
    if |p| <= 255 then p else p[..255]
  }

  lemma {:induction false} PrintableExtends(s: seq<byte>, i: nat)
    requires i <= |s|
    ensures PrintableOf(s[..i]) <= PrintableOf(s)
    decreases |s| - i
  {
    if i == |s| {
      assert s[..i] == s;
    } else {
      PrintableExtends(s, i + 1);
      assert s[..i + 1][..i] == s[..i];
    }
  }

  lemma PrintableNext(s: seq<byte>, i: nat)
    requires i < |s|
    ensures PrintableOf(s[..i + 1]) == PrintableOf(s[..i]) + if Printable(s[i]) then [s[i]] else []
  {
    assert s[..i + 1][..i] == s[..i];
  }

  lemma NothingPrintable()
    ensures PrintableOf([]) == []
  {
  }

  lemma {:induction false} AllPrintable(s: seq<byte>)
    ensures (forall c :: c in s ==> Printable(c)) ==> PrintableOf(s) == s
  {
    if s == [] {
    } else {
      AllPrintable(s[..|s| - 1]);
    }
  }

  /** A string goes out unchanged exactly when it is printable and short enough; sanitising again
      changes nothing. */
  lemma SanitizedUnchanged(s: seq<byte>)
    ensures Sanitized(s) == s <==> |s| <= 255 && forall c :: c in s ==> Printable(c)
    ensures Sanitized(Sanitized(s)) == Sanitized(s)
  {
    AllPrintable(s);
    AllPrintable(Sanitized(s));
  }

  lemma {:induction false} PrintableAppend(a: seq<byte>, b: seq<byte>)
    ensures PrintableOf(a + b) == PrintableOf(a) + PrintableOf(b)
  {
    hide Printable;
    if b == [] {
      assert a + b == a;
    } else {
      var init := b[..|b| - 1];
      assert (a + b)[..|a + b| - 1] == a + init;
      PrintableAppend(a, init);
    }
  }

  /** What is kept of a text, character by character: the printable ones in their order, the first 255 of them. */
  lemma SanitizedKeeps(a: seq<byte>, c: byte)
    ensures PrintableOf(a + [c]) == PrintableOf(a) + if 32 <= c <= 126 then [c] else []
    ensures Sanitized(a) <= PrintableOf(a) && (|Sanitized(a)| == 255 || Sanitized(a) == PrintableOf(a))
  {
    hide PrintableOf;
    PrintableAppend(a, [c]);
    OneCharacter(c);
  }

  lemma OneCharacter(c: byte)
    ensures PrintableOf([c]) == if 32 <= c <= 126 then [c] else []
  {
    var s := [c];
    assert s[..|s| - 1] == [];
    NothingPrintable();
  }

  class Buffer {
    var out: seq<byte>

    constructor ()
      ensures out == []
    {
      out := [];
    }

    method PutU16(value: u16)
      modifies this
      ensures out == old(out) + LE(2, value)
    {
      out := out + LE(2, value);
    }

    method PutU32(value: u32)
      modifies this
      ensures out == old(out) + LE(4, value)
    {
      out := out + LE(4, value);
    }

    method Append(bytes: seq<byte>)
      modifies this
      ensures out == old(out) + bytes
    {
      out := out + bytes;
    }

    /** Length byte and the first 255 printable characters. */
    method PutStr(value: seq<byte>)
      modifies this
      ensures out == old(out) + Put(Str, Sanitized(value))
    {
      hide PrintableOf;
      var sanitized: seq<byte> := [];
      var i := 0;
      NothingPrintable();
      assert value[..0] == [];
      while i < |value| && |sanitized| < 255
        invariant 0 <= i <= |value| && |sanitized| <= 255
        invariant sanitized == PrintableOf(value[..i])
        invariant out == old(out)
      {
        PrintableNext(value, i);
        var c := value[i];
        if Printable(c) {
          sanitized := sanitized + [c];
        }
        i := i + 1;
      }
      PrintableExtends(value, i);
      assert value[..|value|] == value;
      assert sanitized == Sanitized(value);
      Regroup(out, [|sanitized|], sanitized);
      out := out + [|sanitized|];
      out := out + sanitized;
    }
  }

  // ---------------------------------------------------------------- messages to the miner

  function SetupSuccess(version: u16, flags: u32): seq<byte> {
    PutAll(SETUP_SUCCESS, [LE(2, version), LE(4, flags)])
  }

  function SetupError(flags: u32, code: seq<byte>): seq<byte> {
    PutAll(SETUP_ERROR, [LE(4, flags), Sanitized(code)])
  }

  /** The group channel id is always 0, and an extranonce longer than 255 bytes is cut. */
  function OpenSuccess(request: u32, channel: u32, target: seq<byte>, extranonce: seq<byte>): seq<byte>
    requires |target| == 32
  {
    PutAll(OPEN_SUCCESS, [LE(4, request), LE(4, channel), target,
                          if |extranonce| > 255 then extranonce[..255] else extranonce, LE(4, 0)])
  }

  function OpenError(request: u32, code: seq<byte>): seq<byte> {
    PutAll(OPEN_ERROR, [LE(4, request), Sanitized(code)])
  }

  function SubmitSuccess(channel: u32, sequence: u32): seq<byte> {
    PutAll(SUBMIT_SUCCESS, [LE(4, channel), LE(4, sequence)])
  }

  function SubmitError(channel: u32, sequence: u32, code: seq<byte>): seq<byte> {
    PutAll(SUBMIT_ERROR, [LE(4, channel), LE(4, sequence), Sanitized(code)])
  }

  function SetTarget(channel: u32, target: seq<byte>): seq<byte>
    requires |target| == 32
  {
    PutAll(SET_TARGET, [LE(4, channel), target])
  }

  /** The byte after the job id says the job is not a future one. */
  function NewMiningJob(channel: u32, job: u32, version: u32, prePowHash: seq<byte>): seq<byte>
    requires |prePowHash| == 32
  {
    PutAll(NEW_JOB, [LE(4, channel), LE(4, job), [0], LE(4, version), prePowHash])
  }

  function SetNewPrevHash(channel: u32, job: u32, prevHash: seq<byte>, minNTime: u32, nBits: u32): seq<byte>
    requires |prevHash| == 32
  {
    PutAll(NEW_PREV_HASH, [LE(4, channel), LE(4, job), prevHash, LE(4, minNTime), LE(4, nBits)])
  }

  lemma PutTwo(a: Field, b: Field, x: seq<byte>, y: seq<byte>)
    requires Fits(a, x) && Fits(b, y)
    ensures PutAll([a, b], [x, y]) == Put(a, x) + Put(b, y)
  {
    PutCons(b, [], y, []);
    PutCons(a, [b], x, [y]);
    assert [a, b] == [a] + ([b] + []) && [x, y] == [x] + ([y] + []);
    assert [b] == [b] + [] && [y] == [y] + [];
  }

  lemma PutThree(a: Field, b: Field, c: Field, x: seq<byte>, y: seq<byte>, z: seq<byte>)
    requires Fits(a, x) && Fits(b, y) && Fits(c, z)
    ensures AllFit([a, b, c], [x, y, z])
    ensures PutAll([a, b, c], [x, y, z]) == Put(a, x) + Put(b, y) + Put(c, z)
  {
    hide PutAll, Put;
    PutTwo(b, c, y, z);
    PutCons(a, [b, c], x, [y, z]);
    assert [a, b, c] == [a] + [b, c] && [x, y, z] == [x] + [y, z];
  }

  lemma PutFour(a: Field, b: Field, c: Field, d: Field, w: seq<byte>, x: seq<byte>, y: seq<byte>, z: seq<byte>)
    requires Fits(a, w) && Fits(b, x) && Fits(c, y) && Fits(d, z)
    ensures AllFit([a, b, c, d], [w, x, y, z])
    ensures PutAll([a, b, c, d], [w, x, y, z]) == Put(a, w) + Put(b, x) + Put(c, y) + Put(d, z)
  {
    hide PutAll, Put;
    PutThree(b, c, d, x, y, z);
    PutCons(a, [b, c, d], w, [x, y, z]);
    assert [a, b, c, d] == [a] + [b, c, d] && [w, x, y, z] == [w] + [x, y, z];
  }

  lemma PutFive(a: Field, b: Field, c: Field, d: Field, e: Field,
                v: seq<byte>, w: seq<byte>, x: seq<byte>, y: seq<byte>, z: seq<byte>)
    requires Fits(a, v) && Fits(b, w) && Fits(c, x) && Fits(d, y) && Fits(e, z)
    ensures AllFit([a, b, c, d, e], [v, w, x, y, z])
    ensures PutAll([a, b, c, d, e], [v, w, x, y, z]) == Put(a, v) + Put(b, w) + Put(c, x) + Put(d, y) + Put(e, z)
  {
    hide PutAll, Put;
    PutFour(b, c, d, e, w, x, y, z);
    PutCons(a, [b, c, d, e], v, [w, x, y, z]);
    assert [a, b, c, d, e] == [a] + [b, c, d, e] && [v, w, x, y, z] == [v] + [w, x, y, z];
  }

  method EncodeSetupConnectionSuccess(version: u16, flags: u32) returns (out: seq<byte>)
    ensures out == SetupSuccess(version, flags)
  {
    hide PutAll, LE;
    var b := new Buffer();
    b.PutU16(version);
    b.PutU32(flags);
    PutTwo(Fixed(2), Fixed(4), LE(2, version), LE(4, flags));
    return b.out;
  }

  method EncodeSetupConnectionError(flags: u32, code: seq<byte>) returns (out: seq<byte>)
    ensures out == SetupError(flags, code)
  {
    hide PutAll, LE;
    var b := new Buffer();
    b.PutU32(flags);
    b.PutStr(code);
    PutTwo(Fixed(4), Str, LE(4, flags), Sanitized(code));
    return b.out;
  }

  method EncodeOpenChannelSuccess(request: u32, channel: u32, target: seq<byte>, extranonce: seq<byte>)
    returns (out: seq<byte>)
    requires |target| == 32
    ensures out == OpenSuccess(request, channel, target, extranonce)
  {
    hide PutAll, LE;
    var cut := if |extranonce| > 255 then extranonce[..255] else extranonce;
    var b := new Buffer();
    b.PutU32(request);
    b.PutU32(channel);
    b.Append(target);
    b.Append([|cut|]);
    b.Append(cut);
    b.PutU32(0);
    PutFive(Fixed(4), Fixed(4), Fixed(32), Str, Fixed(4), LE(4, request), LE(4, channel), target, cut, LE(4, 0));
    return b.out;
  }

  method EncodeOpenChannelError(request: u32, code: seq<byte>) returns (out: seq<byte>)
    ensures out == OpenError(request, code)
  {
    hide PutAll, LE;
    var b := new Buffer();
    b.PutU32(request);
    b.PutStr(code);
    PutTwo(Fixed(4), Str, LE(4, request), Sanitized(code));
    return b.out;
  }

  method EncodeSubmitSuccess(channel: u32, sequence: u32) returns (out: seq<byte>)
    ensures out == SubmitSuccess(channel, sequence)
  {
    hide PutAll, LE;
    var b := new Buffer();
    b.PutU32(channel);
    b.PutU32(sequence);
    PutTwo(Fixed(4), Fixed(4), LE(4, channel), LE(4, sequence));
    return b.out;
  }

  method EncodeSubmitError(channel: u32, sequence: u32, code: seq<byte>) returns (out: seq<byte>)
    ensures out == SubmitError(channel, sequence, code)
  {
    hide PutAll, LE;
    var b := new Buffer();
    b.PutU32(channel);
    b.PutU32(sequence);
    b.PutStr(code);
    PutThree(Fixed(4), Fixed(4), Str, LE(4, channel), LE(4, sequence), Sanitized(code));
    return b.out;
  }

  method EncodeSetTarget(channel: u32, target: seq<byte>) returns (out: seq<byte>)
    requires |target| == 32
    ensures out == SetTarget(channel, target)
  {
    hide PutAll, LE;
    var b := new Buffer();
    b.PutU32(channel);
    b.Append(target);
    PutTwo(Fixed(4), Fixed(32), LE(4, channel), target);
    return b.out;
  }

  method EncodeNewMiningJob(channel: u32, job: u32, version: u32, prePowHash: seq<byte>) returns (out: seq<byte>)
    requires |prePowHash| == 32
    ensures out == NewMiningJob(channel, job, version, prePowHash)
  {
    hide PutAll, LE;
    var b := new Buffer();
    b.PutU32(channel);
    b.PutU32(job);
    b.Append([0]);
    b.PutU32(version);
    b.Append(prePowHash);
    PutFive(Fixed(4), Fixed(4), Fixed(1), Fixed(4), Fixed(32),
            LE(4, channel), LE(4, job), [0], LE(4, version), prePowHash);
    return b.out;
  }

  method EncodeSetNewPrevHash(channel: u32, job: u32, prevHash: seq<byte>, minNTime: u32, nBits: u32)
    returns (out: seq<byte>)
    requires |prevHash| == 32
    ensures out == SetNewPrevHash(channel, job, prevHash, minNTime, nBits)
  {
    hide PutAll, LE;
    var b := new Buffer();
    b.PutU32(channel);
    b.PutU32(job);
    b.Append(prevHash);
    b.PutU32(minNTime);
    b.PutU32(nBits);
    PutFive(Fixed(4), Fixed(4), Fixed(32), Fixed(4), Fixed(4),
            LE(4, channel), LE(4, job), prevHash, LE(4, minNTime), LE(4, nBits));
    return b.out;
  }

  // ---------------------------------------------------------------- messages from the miner

  function Word(v: seq<byte>): (w: u32)
    requires |v| == 4
  {
    FromLEBound(v);
    Widths();
    FromLE(v)
  }

  datatype Submit = Submit(channel: u32, sequence: u32, job: u32, nonce: u32, ntime: u32, version: u32)

  function SubmitValues(m: Submit): seq<seq<byte>> {
    [LE(4, m.channel), LE(4, m.sequence), LE(4, m.job), LE(4, m.nonce), LE(4, m.ntime), LE(4, m.version)]
  }

  /** What a submit payload says, or the number of its first missing field. */
  ghost function ParseSubmit(payload: seq<byte>): Result<Submit, nat> {
    match TakeAll(SUBMIT, payload)
    case Err(i) => Err(i)
    case Ok((v, rest)) =>
      TakenWasPut(SUBMIT, payload);
      assert forall i :: 0 <= i < 6 ==> Fits(SUBMIT[i], v[i]);
      Ok(Submit(Word(v[0]), Word(v[1]), Word(v[2]), Word(v[3]), Word(v[4]), Word(v[5])))
  }

  method ParseSubmitShare(payload: seq<byte>) returns (r: Result<Submit, nat>)
    ensures r == ParseSubmit(payload)
  {
    var cursor := new Cursor(payload);
    var fields := cursor.ReadFields(SUBMIT);
    match fields {
      case Err(i) => r := Err(i);
      case Ok(v) =>
        TakenWasPut(SUBMIT, payload);
        assert forall i :: 0 <= i < 6 ==> Fits(SUBMIT[i], v[i]);
        r := Ok(Submit(Word(v[0]), Word(v[1]), Word(v[2]), Word(v[3]), Word(v[4]), Word(v[5])));
    }
  }

  lemma {:induction false} WordsTaken(layout: Layout, s: seq<byte>)
    requires forall i :: 0 <= i < |layout| ==> layout[i] == Fixed(4)
    ensures TakeAll(layout, s).Ok? <==> |s| >= 4 * |layout|
    ensures TakeAll(layout, s).Err? ==> TakeAll(layout, s).error == |s| / 4
  {
    if layout == [] {
    } else if |s| >= 4 {
      WordsTaken(layout[1..], s[4..]);
    }
  }

  /** A submit is well formed exactly when it has six words; a shorter one is reported by its first
      missing word. */
  lemma SubmitNeedsSixWords(payload: seq<byte>)
    ensures match ParseSubmit(payload)
            case Ok(_) => |payload| >= 24
            case Err(i) => |payload| < 24 && i == |payload| / 4
  {
    WordsTaken(SUBMIT, payload);
  }

  /** A submit is read as it was written, whatever bytes follow it. */
  lemma SubmitRoundTrip(m: Submit, rest: seq<byte>)
    requires AllFit(SUBMIT, SubmitValues(m))
    ensures ParseSubmit(PutAll(SUBMIT, SubmitValues(m)) + rest) == Ok(m)
  {
    LayoutRoundTrip(SUBMIT, SubmitValues(m), rest);
    WordRoundTrip(m.channel);
    WordRoundTrip(m.sequence);
    WordRoundTrip(m.job);
    WordRoundTrip(m.nonce);
    WordRoundTrip(m.ntime);
    WordRoundTrip(m.version);
  }

  lemma WordRoundTrip(v: u32)
    ensures Word(LE(4, v)) == v
  {
    Widths();
    LERoundTrip(4, v);
  }

  const DEFAULT_APP: seq<byte> := [115, 118, 50, 45, 99, 108, 105, 101, 110, 116]

  /** The client name of a connection set-up: its firmware, else its vendor, else "sv2-client". */
  function AppOf(v: seq<seq<byte>>): seq<byte>
    requires |v| == 10
  {
    if v[8] != [] then v[8] else if v[6] != [] then v[6] else DEFAULT_APP
  }

  ghost function ParseSetup(payload: seq<byte>): Result<seq<byte>, nat> {
    match TakeAll(SETUP_CONNECTION, payload)
    case Err(i) => Err(i)
    case Ok((v, rest)) =>
      TakenWasPut(SETUP_CONNECTION, payload);
      Ok(AppOf(v))
  }

  method ParseSetupConnection(payload: seq<byte>) returns (r: Result<seq<byte>, nat>)
    ensures r == ParseSetup(payload)
  {
    var cursor := new Cursor(payload);
    var fields := cursor.ReadFields(SETUP_CONNECTION);
    match fields {
      case Err(i) => r := Err(i);
      case Ok(v) =>
        TakenWasPut(SETUP_CONNECTION, payload);
        r := Ok(AppOf(v));
    }
  }

  /** The request id and the miner's identity. */
  ghost function ParseOpen(payload: seq<byte>): Result<(u32, seq<byte>), nat> {
    match TakeAll(OPEN_CHANNEL, payload)
    case Err(i) => Err(i)
    case Ok((v, rest)) =>
      TakenWasPut(OPEN_CHANNEL, payload);
      assert Fits(OPEN_CHANNEL[0], v[0]);
      Ok((Word(v[0]), v[1]))
  }

  method ParseOpenStandardChannel(payload: seq<byte>) returns (r: Result<(u32, seq<byte>), nat>)
    ensures r == ParseOpen(payload)
  {
    var cursor := new Cursor(payload);
    var fields := cursor.ReadFields(OPEN_CHANNEL);
    match fields {
      case Err(i) => r := Err(i);
      case Ok(v) =>
        TakenWasPut(OPEN_CHANNEL, payload);
        assert Fits(OPEN_CHANNEL[0], v[0]);
        r := Ok((Word(v[0]), v[1]));
    }
  }

  /** The request id of a payload too short to parse, 0 when even that is missing. */
  function RequestId(payload: seq<byte>): u32 {
    if |payload| < 4 then 0 else Word(payload[..4])
  }

  // ---------------------------------------------------------------- where the fields stand

  /** A miner writes an opening, and this is what is read of it. */
  lemma OpenRoundTrip(request: u32, name: seq<byte>, hashrate: seq<byte>, maxTarget: seq<byte>, rest: seq<byte>)
    requires |name| < 256 && |hashrate| == 4 && |maxTarget| == 32
    ensures ParseOpen(PutAll(OPEN_CHANNEL, [LE(4, request), name, hashrate, maxTarget]) + rest) == Ok((request, name))
  {
    hide PutAll, TakeAll, LE, Word;
    LayoutRoundTrip(OPEN_CHANNEL, [LE(4, request), name, hashrate, maxTarget], rest);
    WordRoundTrip(request);
  }

  /** The strings of a connection set-up; the others are of no interest. */
  lemma SetupRoundTrip(v: seq<seq<byte>>, rest: seq<byte>)
    requires AllFit(SETUP_CONNECTION, v)
    ensures var vendor, firmware := v[6], v[8];
      ParseSetup(PutAll(SETUP_CONNECTION, v) + rest) ==
      Ok(if firmware != [] then firmware else if vendor != [] then vendor else DEFAULT_APP)
  {
    hide PutAll, TakeAll;
    LayoutRoundTrip(SETUP_CONNECTION, v, rest);
  }

  /** A submit of at least 24 bytes is six words in a row. */
  lemma SubmitBytes(payload: seq<byte>)
    requires |payload| >= 24
    ensures ParseSubmit(payload) ==
            Ok(Submit(Word(payload[..4]), Word(payload[4..8]), Word(payload[8..12]), Word(payload[12..16]),
                      Word(payload[16..20]), Word(payload[20..24])))
  {
    hide PutAll, TakeAll, LE, Word;
    var v := [payload[..4], payload[4..8], payload[8..12], payload[12..16], payload[16..20], payload[20..24]];
    PutSix(v[0], v[1], v[2], v[3], v[4], v[5]);
    assert payload == v[0] + v[1] + v[2] + v[3] + v[4] + v[5] + payload[24..];
    LayoutRoundTrip(SUBMIT, v, payload[24..]);
  }

  lemma PutSix(u: seq<byte>, v: seq<byte>, w: seq<byte>, x: seq<byte>, y: seq<byte>, z: seq<byte>)
    requires |u| == |v| == |w| == |x| == |y| == |z| == 4
    ensures AllFit(SUBMIT, [u, v, w, x, y, z]) && PutAll(SUBMIT, [u, v, w, x, y, z]) == u + v + w + x + y + z
  {
    hide PutAll;
    var f := Fixed(4);
    PutFive(f, f, f, f, f, v, w, x, y, z);
    PutCons(f, [f, f, f, f, f], u, [v, w, x, y, z]);
    assert SUBMIT == [f] + [f, f, f, f, f] && [u, v, w, x, y, z] == [u] + [v, w, x, y, z];
  }

  /** The answer to an opening: request, channel and target, no extranonce, group 0. */
  lemma OpenSuccessBytes(request: u32, channel: u32, target: seq<byte>)
    requires |target| == 32
    ensures var p := OpenSuccess(request, channel, target, []);
      && |p| == 45 && Word(p[..4]) == request && Word(p[4..8]) == channel && p[8..40] == target
      && p[40] == 0 && Word(p[41..]) == 0
  {
    hide PutAll, LE, Word;
    PutFive(Fixed(4), Fixed(4), Fixed(32), Str, Fixed(4), LE(4, request), LE(4, channel), target, [], LE(4, 0));
    WordRoundTrip(request);
    WordRoundTrip(channel);
    WordRoundTrip(0);
    var p := OpenSuccess(request, channel, target, []);
    assert p[..4] == LE(4, request) && p[4..8] == LE(4, channel) && p[41..] == LE(4, 0);
  }

  /** The answers to a share: channel and sequence, then the text of a refusal. */
  lemma SubmitAnswerBytes(channel: u32, sequence: u32, code: seq<byte>)
    ensures var p := SubmitSuccess(channel, sequence);
      |p| == 8 && Word(p[..4]) == channel && Word(p[4..]) == sequence
    ensures var p := SubmitError(channel, sequence, code);
      |p| >= 9 && Word(p[..4]) == channel && Word(p[4..8]) == sequence && p[8] == |p| - 9 && p[9..] == Sanitized(code)
  {
    hide PutAll, LE, Word, Sanitized;
    PutTwo(Fixed(4), Fixed(4), LE(4, channel), LE(4, sequence));
    PutThree(Fixed(4), Fixed(4), Str, LE(4, channel), LE(4, sequence), Sanitized(code));
    WordRoundTrip(channel);
    WordRoundTrip(sequence);
    var p, q := SubmitSuccess(channel, sequence), SubmitError(channel, sequence, code);
    assert p[..4] == q[..4] == LE(4, channel) && p[4..] == q[4..8] == LE(4, sequence);
  }

  /** A job reaches the miner under its channel and id, not as a future one, with version and pre-pow hash. */
  lemma NewJobBytes(channel: u32, job: u32, version: u32, prePowHash: seq<byte>)
    requires |prePowHash| == 32
    ensures var p := NewMiningJob(channel, job, version, prePowHash);
      && |p| == 45 && Word(p[..4]) == channel && Word(p[4..8]) == job && p[8] == 0 && Word(p[9..13]) == version
      && p[13..] == prePowHash
  {
    hide PutAll, LE, Word;
    PutFive(Fixed(4), Fixed(4), Fixed(1), Fixed(4), Fixed(32),
            LE(4, channel), LE(4, job), [0], LE(4, version), prePowHash);
    WordRoundTrip(channel);
    WordRoundTrip(job);
    WordRoundTrip(version);
    var p := NewMiningJob(channel, job, version, prePowHash);
    assert p[..4] == LE(4, channel) && p[4..8] == LE(4, job) && p[9..13] == LE(4, version);
  }

  /** And what it builds on: previous hash, smallest time and bits. */
  lemma PrevHashBytes(channel: u32, job: u32, prevHash: seq<byte>, minNTime: u32, nBits: u32)
    requires |prevHash| == 32
    ensures var p := SetNewPrevHash(channel, job, prevHash, minNTime, nBits);
      && |p| == 48 && Word(p[..4]) == channel && Word(p[4..8]) == job && p[8..40] == prevHash
      && Word(p[40..44]) == minNTime && Word(p[44..]) == nBits
  {
    hide PutAll, LE, Word;
    PutFive(Fixed(4), Fixed(4), Fixed(32), Fixed(4), Fixed(4),
            LE(4, channel), LE(4, job), prevHash, LE(4, minNTime), LE(4, nBits));
    WordRoundTrip(channel);
    WordRoundTrip(job);
    WordRoundTrip(minNTime);
    WordRoundTrip(nBits);
    var p := SetNewPrevHash(channel, job, prevHash, minNTime, nBits);
    assert p[..4] == LE(4, channel) && p[4..8] == LE(4, job) && p[40..44] == LE(4, minNTime) && p[44..] == LE(4, nBits);
  }

  lemma SetTargetBytes(channel: u32, target: seq<byte>)
    requires |target| == 32
    ensures var p := SetTarget(channel, target); |p| == 36 && Word(p[..4]) == channel && p[4..] == target
  {
    hide PutAll, LE, Word;
    PutTwo(Fixed(4), Fixed(32), LE(4, channel), target);
    WordRoundTrip(channel);
    assert SetTarget(channel, target)[..4] == LE(4, channel);
  }
}
