/** An SV2 session: what the frame loop answers, when a channel opens, and which shares are judged. */
module Sv2Session {
  import opened Bytes
  import opened Wrappers
  import opened Frames
  import opened Sv2Payloads
  import opened ShareHandler

  const EXT_STANDARD: u16 := 0x0000
  const EXT_CHANNEL: u16 := 0x8000
  const SETUP: byte := 0x00
  const SETUP_OK: byte := 0x01
  const SETUP_FAILED: byte := 0x02
  const OPEN: byte := 0x10
  const OPEN_OK: byte := 0x11
  const OPEN_FAILED: byte := 0x12
  const SHARE: byte := 0x1A
  const SHARE_OK: byte := 0x1C
  const SHARE_FAILED: byte := 0x1D

  function Ascii(s: string): seq<byte> {
    seq(|s|, i requires 0 <= i < |s| => s[i] as int % 256)
  }

  // ---------------------------------------------------------------- channel ids

  const IDS: int := 0xFFFF_FFFF

  /** The n-th channel id ever given out, counting from 1. */
  function ChannelId(n: nat): (id: u32)
    requires n >= 1
    ensures id != 0
  {
    (n - 1) % IDS + 1
  }

  /** An id comes back only after all the others have been given out. */
  lemma IdsRepeat(m: nat, n: nat)
    requires 1 <= m <= n
    ensures ChannelId(m) == ChannelId(n) <==> (n - m) % IDS == 0
  {
    var a, b := (m - 1) / IDS, (n - 1) / IDS;
    var r, t := (m - 1) % IDS, (n - 1) % IDS;
    assert n - m == (b - a) * IDS + (t - r);
    if r == t {
      Multiples(b - a, 0);
    } else if (n - m) % IDS == 0 {
      assert n - m == (n - m) / IDS * IDS;
      Between((n - m) / IDS - (b - a), t - r);
    }
  }

  lemma Multiples(k: int, r: int)
    requires 0 <= r < IDS
    ensures (k * IDS + r) % IDS == r
  {
  }

  /** No multiple of the id count but 0 lies strictly within one count of 0. */
  lemma Between(k: int, d: int)
    requires d == k * IDS && -IDS < d < IDS
    ensures d == 0
  {
  }

  class ChannelCounter {
    var nextChannelID: u32
    /** How many ids have been given out. */
    ghost var given: nat

    ghost predicate Valid()
      reads this
    {
      nextChannelID == if given == 0 then 0 else ChannelId(given)
    }

    constructor ()
      ensures Valid() && given == 0
    {
      nextChannelID := 0;
      given := 0;
    }

    /** An atomic 32-bit add. */
    method Add() returns (v: u32)
      modifies `nextChannelID
      ensures v == nextChannelID == (old(nextChannelID) + 1) % 0x1_0000_0000
    {
      nextChannelID := (nextChannelID + 1) % 0x1_0000_0000;
      v := nextChannelID;
    }

    method NextId() returns (id: u32)
      requires Valid()
      modifies this
      ensures Valid() && given == old(given) + 1 && id == ChannelId(given)
    {
      id := Add();
      if id == 0 {
        id := Add();
      }
      given := given + 1;
    }
  }

  // ---------------------------------------------------------------- one frame

  /** What the frame loop finds out while handling one frame: whether its writes go through, the identity
      the miner's name stands for (None when the wallet is invalid), the judge's verdict on a share
      (None for an error), the target to advertise, and the channels other sessions open meanwhile. */
  datatype Context = Context(written: bool, identity: Option<(string, string)>, verdict: Option<Status>,
                             target: seq<byte>, others: nat)

  /** The set-up flag, and of the client's context the application name, the identity and the channel;
      given counts the channel ids of all sessions together. */
  datatype Session = Session(open: bool, setup: bool, app: seq<byte>, identity: Option<(string, string)>,
                             channel: Option<u32>, given: nat)

  /** Frames written, channels opened and shares handed to the judge, in order. */
  datatype Action =
    | Wrote(frame: Frame)
    | Opened(channel: u32)
    | Judged(channel: u32, job: u32, nonce: u64)

  function Written(c: Context, extension: u16, kind: byte, payload: seq<byte>): seq<Action> {
    if c.written then [Wrote(Frame(extension, kind, payload))] else []
  }

  function StatusCode(v: Option<Status>): string {
    match v
    case Some(Stale) => "stale share"
    case Some(Duplicate) => "duplicate share"
    case Some(LowDiff) => "low difficulty"
    case _ => "invalid share"
  }

  function Nonce(m: Submit): u64 {
    m.ntime * 0x1_0000_0000 + m.nonce
  }

  ghost function OnSetup(s: Session, payload: seq<byte>, c: Context): (Session, seq<Action>) {
    match ParseSetup(payload)
    case Err(_) =>
      (s.(open := false), Written(c, EXT_STANDARD, SETUP_FAILED, SetupError(0, Ascii("malformed setup connection"))))
    case Ok(app) =>
      var named := if app != [] then s.(app := app) else s;
      (if c.written then named.(setup := true) else named.(open := false),
       Written(c, EXT_STANDARD, SETUP_OK, SetupSuccess(2, 0)))
  }

  ghost function OnOpen(s: Session, payload: seq<byte>, c: Context): (Session, seq<Action>)
    requires |c.target| == 32
  {
    match ParseOpen(payload)
    case Err(_) =>
      (s.(open := false),
       Written(c, EXT_STANDARD, OPEN_FAILED, OpenError(RequestId(payload), Ascii("malformed open channel"))))
    case Ok((request, _)) =>
      if !s.setup then
        (s.(open := false), Written(c, EXT_STANDARD, OPEN_FAILED, OpenError(request, Ascii("setup not complete"))))
      else if c.identity.None? then
        (s.(open := false), Written(c, EXT_STANDARD, OPEN_FAILED, OpenError(request, Ascii("invalid wallet"))))
      else
        var id := ChannelId(s.given + 1);
        (s.(open := c.written, identity := c.identity, channel := Some(id), given := s.given + 1),
         [Opened(id)] + Written(c, EXT_STANDARD, OPEN_OK, OpenSuccess(request, id, c.target, [])))
  }

  ghost function OnShare(s: Session, payload: seq<byte>, c: Context): (Session, seq<Action>) {
    match ParseSubmit(payload)
    case Err(_) =>
      (s.(open := false), Written(c, EXT_CHANNEL, SHARE_FAILED, SubmitError(0, 0, Ascii("malformed submit"))))
    case Ok(m) =>
      if s.channel != Some(m.channel) then
        (s.(open := c.written),
         Written(c, EXT_CHANNEL, SHARE_FAILED, SubmitError(m.channel, m.sequence, Ascii("wrong channel"))))
      else
        (s.(open := c.written),
         [Judged(m.channel, m.job, Nonce(m))] +
         if c.verdict == Some(Accepted) then Written(c, EXT_CHANNEL, SHARE_OK, SubmitSuccess(m.channel, m.sequence))
         else Written(c, EXT_CHANNEL, SHARE_FAILED, SubmitError(m.channel, m.sequence, Ascii(StatusCode(c.verdict)))))
  }

  /** One frame: the message type alone decides; any other type is ignored. */
  ghost function Step(s: Session, f: Frame, c: Context): (Session, seq<Action>)
    requires |c.target| == 32
  {
    if !s.open then (s, [])
    else
      var t := s.(given := s.given + c.others);
      if f.kind == SETUP then OnSetup(t, f.payload, c)
      else if f.kind == OPEN then OnOpen(t, f.payload, c)
      else if f.kind == SHARE then OnShare(t, f.payload, c)
      else (t, [])
  }

  ghost predicate Contexts(cs: seq<Context>) {
    forall i :: 0 <= i < |cs| ==> |cs[i].target| == 32
  }

  /** The session after its first frames, and its log. */
  ghost function Run(s: Session, frames: seq<Frame>, cs: seq<Context>): (Session, seq<Action>)
    requires |frames| <= |cs| && Contexts(cs)
  {
    if frames == [] then (s, [])
    else
      var n := |frames| - 1;
      var (before, log) := Run(s, frames[..n], cs);
      var (after, more) := Step(before, frames[n], cs[n]);
      (after, log + more)
  }

  function Started(given: nat): Session {
    Session(true, false, [], None, None, given)
  }

  // ---------------------------------------------------------------- safety of every log

  /** The channel opened last. */
  ghost function Latest(log: seq<Action>): Option<u32> {
    if log == [] then None
    else if log[|log| - 1].Opened? then Some(log[|log| - 1].channel)
    else Latest(log[..|log| - 1])
  }

  ghost predicate SetupDone(log: seq<Action>) {
    Wrote(Frame(EXT_STANDARD, SETUP_OK, SetupSuccess(2, 0))) in log
  }

  /** What must have come before an action. */
  ghost predicate Allowed(before: seq<Action>, a: Action) {
    match a
    case Wrote(_) => true
    case Opened(_) => SetupDone(before)
    case Judged(channel, _, _) => Latest(before) == Some(channel)
  }

  ghost predicate AllAllowed(log: seq<Action>) {
    forall i :: 0 <= i < |log| ==> Allowed(log[..i], log[i])
  }

  lemma AllowedNext(log: seq<Action>, a: Action)
    requires AllAllowed(log) && Allowed(log, a)
    ensures AllAllowed(log + [a])
    ensures Latest(log + [a]) == if a.Opened? then Some(a.channel) else Latest(log)
    ensures SetupDone(log) ==> SetupDone(log + [a])
  {
    var all := log + [a];
    assert all[..|log|] == log;
    forall i | 0 <= i < |all|
      ensures Allowed(all[..i], all[i])
    {
      if i < |log| {
        assert all[..i] == log[..i];
      }
    }
  }

  ghost predicate Tracks(s: Session, log: seq<Action>) {
    AllAllowed(log) && Latest(log) == s.channel && (s.setup ==> SetupDone(log))
  }

  /** Adding what a write left in the log. */
  lemma TracksWritten(s: Session, log: seq<Action>, c: Context, extension: u16, kind: byte, payload: seq<byte>)
    requires Tracks(s, log)
    ensures Tracks(s, log + Written(c, extension, kind, payload))
  {
    if c.written {
      AllowedNext(log, Wrote(Frame(extension, kind, payload)));
    } else {
      assert log + [] == log;
    }
  }

  lemma TracksThen(s: Session, log: seq<Action>, a: Action, more: seq<Action>)
    requires Tracks(s, (log + [a]) + more)
    ensures Tracks(s, log + ([a] + more))
  {
    assert (log + [a]) + more == log + ([a] + more);
  }

  lemma StepTracks(s: Session, log: seq<Action>, f: Frame, c: Context)
    requires Tracks(s, log) && |c.target| == 32
    ensures var (t, more) := Step(s, f, c); Tracks(t, log + more)
  {
    hide Written, Tracks, ParseSetup, ParseOpen, ParseSubmit, PutAll, Ascii, StatusCode;
    if !s.open {
      assert log + [] == log;
    } else {
      var t := s.(given := s.given + c.others);
      TracksOnly(s, t, log);
      if f.kind == SETUP {
        SetupTracks(t, log, f.payload, c);
      } else if f.kind == OPEN {
        OpenTracks(t, log, f.payload, c);
      } else if f.kind == SHARE {
        ShareTracks(t, log, f.payload, c);
      } else {
        assert log + [] == log;
      }
    }
  }

  lemma TracksOnly(s: Session, t: Session, log: seq<Action>)
    requires Tracks(s, log) && s.channel == t.channel && (t.setup ==> s.setup)
    ensures Tracks(t, log)
  {
  }

  lemma SetupDoneTracks(s: Session, t: Session, log: seq<Action>)
    requires Tracks(s, log) && s.channel == t.channel
    ensures Tracks(t, log + [Wrote(Frame(EXT_STANDARD, SETUP_OK, SetupSuccess(2, 0)))])
  {
    hide SetupSuccess;
    var done := Wrote(Frame(EXT_STANDARD, SETUP_OK, SetupSuccess(2, 0)));
    AllowedNext(log, done);
    assert (log + [done])[|log|] == done;
  }

  lemma SetupTracks(s: Session, log: seq<Action>, payload: seq<byte>, c: Context)
    requires Tracks(s, log)
    ensures var (t, more) := OnSetup(s, payload, c); Tracks(t, log + more)
  {
    hide ParseSetup, SetupError, SetupSuccess, Ascii, Tracks;
    var t := OnSetup(s, payload, c).0;
    if ParseSetup(payload).Ok? && c.written {
      SetupDoneTracks(s, t, log);
    } else {
      TracksOnly(s, t, log);
      TracksWritten(t, log, c, EXT_STANDARD, SETUP_FAILED, SetupError(0, Ascii("malformed setup connection")));
      TracksWritten(t, log, c, EXT_STANDARD, SETUP_OK, SetupSuccess(2, 0));
    }
  }

  lemma OpenedTracks(s: Session, t: Session, log: seq<Action>, id: u32)
    requires Tracks(s, log) && s.setup && t.channel == Some(id)
    ensures Tracks(t, log + [Opened(id)])
  {
    AllowedNext(log, Opened(id));
  }

  lemma OpenTracks(s: Session, log: seq<Action>, payload: seq<byte>, c: Context)
    requires Tracks(s, log) && |c.target| == 32
    ensures var (t, more) := OnOpen(s, payload, c); Tracks(t, log + more)
  {
    hide ParseOpen, PutAll, Ascii, Written, Tracks, OpenError, OpenSuccess, RequestId, Sanitized;
    var closed := s.(open := false);
    TracksOnly(s, closed, log);
    match ParseOpen(payload)
    case Err(_) =>
      TracksWritten(closed, log, c, EXT_STANDARD, OPEN_FAILED,
                    OpenError(RequestId(payload), Ascii("malformed open channel")));
    case Ok((request, _)) =>
      if !s.setup {
        TracksWritten(closed, log, c, EXT_STANDARD, OPEN_FAILED, OpenError(request, Ascii("setup not complete")));
      } else if c.identity.None? {
        TracksWritten(closed, log, c, EXT_STANDARD, OPEN_FAILED, OpenError(request, Ascii("invalid wallet")));
      } else {
        var id := ChannelId(s.given + 1);
        var t := s.(open := c.written, identity := c.identity, channel := Some(id), given := s.given + 1);
        OpenedTracks(s, t, log, id);
        TracksWritten(t, log + [Opened(id)], c, EXT_STANDARD, OPEN_OK, OpenSuccess(request, id, c.target, []));
        TracksThen(t, log, Opened(id), Written(c, EXT_STANDARD, OPEN_OK, OpenSuccess(request, id, c.target, [])));
      }
  }

  lemma ShareTracks(s: Session, log: seq<Action>, payload: seq<byte>, c: Context)
    requires Tracks(s, log)
    ensures var (t, more) := OnShare(s, payload, c); Tracks(t, log + more)
  {
    hide ParseSubmit, PutAll, Ascii, Written, StatusCode;
    match ParseSubmit(payload)
    case Err(_) =>
      TracksWritten(s, log, c, EXT_CHANNEL, SHARE_FAILED, SubmitError(0, 0, Ascii("malformed submit")));
    case Ok(m) =>
      if s.channel != Some(m.channel) {
        TracksWritten(s, log, c, EXT_CHANNEL, SHARE_FAILED, SubmitError(m.channel, m.sequence, Ascii("wrong channel")));
      } else {
        var judged := Judged(m.channel, m.job, Nonce(m));
        AllowedNext(log, judged);
        var kind := if c.verdict == Some(Accepted) then SHARE_OK else SHARE_FAILED;
        var reply := if c.verdict == Some(Accepted) then SubmitSuccess(m.channel, m.sequence)
                     else SubmitError(m.channel, m.sequence, Ascii(StatusCode(c.verdict)));
        TracksWritten(s, log + [judged], c, EXT_CHANNEL, kind, reply);
        TracksThen(s, log, judged, Written(c, EXT_CHANNEL, kind, reply));
      }
  }

  lemma {:induction false} RunTracks(given: nat, frames: seq<Frame>, cs: seq<Context>)
    requires |frames| <= |cs| && Contexts(cs)
    ensures var (s, log) := Run(Started(given), frames, cs); Tracks(s, log)
  {
    if frames == [] {
    } else {
      var n := |frames| - 1;
      RunTracks(given, frames[..n], cs);
      var (before, log) := Run(Started(given), frames[..n], cs);
      hide Step;
      StepTracks(before, log, frames[n], cs[n]);
    }
  }

  /** Whatever frames arrive: a channel opens only after a set-up was answered with success, and a share
      reaches the judge only on the channel opened last. */
  lemma SessionSafety(given: nat, frames: seq<Frame>, cs: seq<Context>, i: nat)
    requires |frames| <= |cs| && Contexts(cs)
    requires i < |Run(Started(given), frames, cs).1|
    ensures var log := Run(Started(given), frames, cs).1;
      && (log[i].Opened? ==> SetupDone(log[..i]))
      && (log[i].Judged? ==> Latest(log[..i]) == Some(log[i].channel))
  {
    RunTracks(given, frames, cs);
    var log := Run(Started(given), frames, cs).1;
    assert Allowed(log[..i], log[i]);
  }
}
