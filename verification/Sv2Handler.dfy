/** The frame loop of an SV2 connection, as it changes its client's context, against the session it serves. */
module Sv2Handler {
  import opened Bytes
  import opened Wrappers
  import opened Frames
  import opened Sv2Payloads
  import opened ShareHandler
  import opened Sv2Session
  import Replies = Sv2Replies

  lemma {:induction false} ClosedStays(s: Session, frames: seq<Frame>, cs: seq<Context>, k: nat)
    requires k <= |frames| <= |cs| && Contexts(cs) && !Run(s, frames[..k], cs).0.open
    ensures Run(s, frames, cs) == Run(s, frames[..k], cs)
    decreases |frames| - k
  {
    if k == |frames| {
      assert frames[..k] == frames;
    } else {
      var n := |frames| - 1;
      assert frames[..n][..k] == frames[..k];
      ClosedStays(s, frames[..n], cs, k);
      var log := Run(s, frames[..n], cs).1;
      assert log + [] == log;
    }
  }

  lemma RunNext(s: Session, frames: seq<Frame>, cs: seq<Context>, k: nat)
    requires k < |frames| <= |cs| && Contexts(cs)
    ensures var (before, log) := Run(s, frames[..k], cs);
      Run(s, frames[..k + 1], cs) == (Step(before, frames[k], cs[k]).0, log + Step(before, frames[k], cs[k]).1)
  {
    hide Step;
    assert frames[..k + 1][..k] == frames[..k];
  }

  lemma LogThen(log: seq<Action>, a: Action, more: seq<Action>)
    ensures (log + [a]) + more == log + ([a] + more)
  {
  }

  class Connection {
    const conn: PrefixedConn
    const ids: ChannelCounter
    var open: bool
    var setupComplete: bool
    var remoteApp: seq<byte>
    var identity: Option<(string, string)>
    /** The channel id, once SV2 is enabled for the client. */
    var channel: Option<u32>
    /** What the connection did, in order. */
    var log: seq<Action>

    ghost function Now(): Session
      reads this, ids
    {
      Session(open, setupComplete, remoteApp, identity, channel, ids.given)
    }

    constructor (conn: PrefixedConn, ids: ChannelCounter)
      ensures this.conn == conn && this.ids == ids && log == []
      ensures open && !setupComplete && remoteApp == [] && identity == None && channel == None
    {
      this.conn, this.ids := conn, ids;
      open, setupComplete, remoteApp, identity, channel, log := true, false, [], None, None, [];
    }

    /** Nothing is written when the frame cannot be encoded or the socket fails. */
    method WriteFrame(c: Context, extension: u16, kind: byte, payload: seq<byte>) returns (ok: bool)
      requires |payload| <= MAX_PAYLOAD_WRITTEN
      modifies `log
      ensures ok == c.written && log == old(log) + Written(c, extension, kind, payload)
    {
      var frame := Frame(extension, kind, payload);
      var encoded := Encode(frame);
      if encoded.None? || !c.written {
        return false;
      }
      log := log + [Wrote(frame)];
      return true;
    }

    method Setup(payload: seq<byte>, c: Context)
      requires |c.target| == 32
      modifies this
      ensures (Now(), log) == (OnSetup(old(Now()), payload, c).0, old(log) + OnSetup(old(Now()), payload, c).1)
    {
      hide ParseSetup, SetupSuccess, SetupError, Ascii, Written;
      var app := ParseSetupConnection(payload);
      Replies.RepliesShort(0, 0, 0, c.target, Ascii("malformed setup connection"));
      if app.Err? {
        var reply := EncodeSetupConnectionError(0, Ascii("malformed setup connection"));
        var _ := WriteFrame(c, EXT_STANDARD, SETUP_FAILED, reply);
        open := false;
        return;
      }
      if app.value != [] {
        remoteApp := app.value;
      }
      var reply := EncodeSetupConnectionSuccess(2, 0);
      var ok := WriteFrame(c, EXT_STANDARD, SETUP_OK, reply);
      if !ok {
        open := false;
        return;
      }
      setupComplete := true;
    }

    /** A refused channel ends the session. */
    method RefuseOpen(request: u32, code: seq<byte>, c: Context)
      requires |c.target| == 32
      modifies this
      ensures Now() == old(Now()).(open := false)
      ensures log == old(log) + Written(c, EXT_STANDARD, OPEN_FAILED, OpenError(request, code))
    {
      hide OpenError, Written;
      Replies.RepliesShort(request, 0, 0, c.target, code);
      var reply := EncodeOpenChannelError(request, code);
      var _ := WriteFrame(c, EXT_STANDARD, OPEN_FAILED, reply);
      open := false;
    }

    method Open(payload: seq<byte>, c: Context)
      requires ids.Valid() && |c.target| == 32
      modifies this, ids
      ensures ids.Valid()
      ensures (Now(), log) == (OnOpen(old(Now()), payload, c).0, old(log) + OnOpen(old(Now()), payload, c).1)
    {
      hide ParseOpen, OpenSuccess, OpenError, Ascii, Written, RequestId, ChannelId;
      var r := ParseOpenStandardChannel(payload);
      if r.Err? {
        RefuseOpen(RequestId(payload), Ascii("malformed open channel"), c);
        return;
      }
      var request := r.value.0;
      if !setupComplete {
        RefuseOpen(request, Ascii("setup not complete"), c);
        return;
      }
      if c.identity.None? {
        RefuseOpen(request, Ascii("invalid wallet"), c);
        return;
      }
      identity := c.identity;
      var id := ids.NextId();
      channel := Some(id);
      log := log + [Opened(id)];
      Replies.RepliesShort(request, id, 0, c.target, []);
      var reply := EncodeOpenChannelSuccess(request, id, c.target, []);
      LogThen(old(log), Opened(id), Written(c, EXT_STANDARD, OPEN_OK, reply));
      open := WriteFrame(c, EXT_STANDARD, OPEN_OK, reply);
    }

    method Share(payload: seq<byte>, c: Context)
      requires open && |c.target| == 32
      modifies this
      ensures (Now(), log) == (OnShare(old(Now()), payload, c).0, old(log) + OnShare(old(Now()), payload, c).1)
    {
      hide ParseSubmit, SubmitSuccess, SubmitError, Ascii, Written, StatusCode;
      var r := ParseSubmitShare(payload);
      if r.Err? {
        Replies.RepliesShort(0, 0, 0, c.target, Ascii("malformed submit"));
        var reply := EncodeSubmitError(0, 0, Ascii("malformed submit"));
        var _ := WriteFrame(c, EXT_CHANNEL, SHARE_FAILED, reply);
        open := false;
        return;
      }
      var m := r.value;
      if channel != Some(m.channel) {
        Replies.RepliesShort(0, m.channel, m.sequence, c.target, Ascii("wrong channel"));
        var reply := EncodeSubmitError(m.channel, m.sequence, Ascii("wrong channel"));
        open := WriteFrame(c, EXT_CHANNEL, SHARE_FAILED, reply);
        return;
      }
      log := log + [Judged(m.channel, m.job, Nonce(m))];
      if c.verdict == Some(Accepted) {
        Replies.RepliesShort(0, m.channel, m.sequence, c.target, []);
        var reply := EncodeSubmitSuccess(m.channel, m.sequence);
        LogThen(old(log), Judged(m.channel, m.job, Nonce(m)), Written(c, EXT_CHANNEL, SHARE_OK, reply));
        open := WriteFrame(c, EXT_CHANNEL, SHARE_OK, reply);
        return;
      }
      Replies.RepliesShort(0, m.channel, m.sequence, c.target, Ascii(StatusCode(c.verdict)));
      var reply := EncodeSubmitError(m.channel, m.sequence, Ascii(StatusCode(c.verdict)));
      LogThen(old(log), Judged(m.channel, m.job, Nonce(m)), Written(c, EXT_CHANNEL, SHARE_FAILED, reply));
      open := WriteFrame(c, EXT_CHANNEL, SHARE_FAILED, reply);
    }

    /** Other sessions open channels in between. */
    method OthersOpen(n: nat)
      requires ids.Valid()
      modifies ids
      ensures ids.Valid() && ids.given == old(ids.given) + n
    {
      for i := 0 to n
        invariant ids.Valid() && ids.given == old(ids.given) + i
      {
        var _ := ids.NextId();
      }
    }

    method HandleFrame(frame: Frame, c: Context)
      requires open && ids.Valid() && |c.target| == 32
      modifies this, ids
      ensures ids.Valid()
      ensures (Now(), log) == (Step(old(Now()), frame, c).0, old(log) + Step(old(Now()), frame, c).1)
    {
      hide OnSetup, OnOpen, OnShare;
      OthersOpen(c.others);
      if frame.kind == SETUP {
        Setup(frame.payload, c);
      } else if frame.kind == OPEN {
        Open(frame.payload, c);
      } else if frame.kind == SHARE {
        Share(frame.payload, c);
      } else {
        assert log == old(log) + [];
      }
    }

    /** Frame after frame until the stream ends, a frame is oversized, or the session closes: exactly
        the run over the frames of the stream, in whatever pieces its bytes arrive. */
    method Serve(cs: seq<Context>)
      requires ids.Valid() && Contexts(cs)
      requires open && !setupComplete && remoteApp == [] && identity == None && channel == None && log == []
      requires |DecodeAll(conn.Contents()).0| <= |cs|
      modifies this, ids, conn, conn.conn
      ensures ids.Valid()
      ensures log == Run(Started(old(ids.given)), DecodeAll(old(conn.Contents())).0, cs).1
    {
      hide Step, Decode, DecodeAll, Run;
      ghost var (frames, oversize) := DecodeAll(conn.Contents());
      ghost var start := Started(ids.given);
      var k := 0;
      RunNothing(start, cs);
      assert frames[..0] == [];
      while open
        invariant ids.Valid() && k <= |frames|
        invariant Run(start, frames[..k], cs) == (Now(), log)
        invariant open ==> DecodeAll(conn.Contents()) == (frames[k..], oversize)
        decreases |frames| - k, open
      {
        DecodeStep(conn.Contents());
        var r := conn.ReadFrame();
        if r.Err? {
          assert frames[..k] == frames;
          return;
        }
        assert k < |frames| && r.value == frames[k];
        RunNext(start, frames, cs, k);
        assert frames[k..][1..] == frames[k + 1..];
        HandleFrame(r.value, cs[k]);
        k := k + 1;
      }
      ClosedStays(start, frames, cs, k);
    }
  }

  lemma RunNothing(s: Session, cs: seq<Context>)
    requires Contexts(cs)
    ensures Run(s, [], cs) == (s, [])
  {
  }

  lemma DecodeStep(stream: seq<byte>)
    ensures match Decode(stream)
            case Got(frame, rest) =>
              DecodeAll(stream).0 != [] && DecodeAll(stream).0[0] == frame &&
              DecodeAll(rest) == (DecodeAll(stream).0[1..], DecodeAll(stream).1)
            case _ => DecodeAll(stream).0 == []
  {
  }
}
