/** What an SV2 miner learns before it mines: how its set-ups and openings are answered, and that shares on the
    channel it was granted last, and no others, reach the judge with the job and nonce it put into them. */
module Sv2Openings {
  import opened Bytes
  import opened Wrappers
  import opened Frames
  import opened Sv2Payloads
  import opened Sv2Session
  import Replies = Sv2Replies

  /** An answer to a set-up or an opening, as the miner parses it. */
  datatype Greeting =
    | Ready(version: u16, flags: u32)
    | NotReady(flags: u32, code: seq<byte>)
    | Granted(request: u32, channel: u32, target: seq<byte>)
    | Refused(request: u32, code: seq<byte>)

  ghost function GreetingOf(a: Action): seq<Greeting> {
    if !a.Wrote? || a.frame.extension != 0x0000 then []
    else
      var kind, p := a.frame.kind, a.frame.payload;
      if kind == 0x01 && |p| == 6 then [Ready(Word16(p[..2]), Word(p[2..]))]
      else if kind == 0x02 && TakeAll(SETUP_ERROR, p).Ok? then
        TakenWasPut(SETUP_ERROR, p);
        var v := TakeAll(SETUP_ERROR, p).value.0;
        assert Fits(SETUP_ERROR[0], v[0]);
        [NotReady(Word(v[0]), v[1])]
      else if kind == 0x11 && TakeAll(OPEN_SUCCESS, p).Ok? then
        TakenWasPut(OPEN_SUCCESS, p);
        var v := TakeAll(OPEN_SUCCESS, p).value.0;
        assert Fits(OPEN_SUCCESS[0], v[0]) && Fits(OPEN_SUCCESS[1], v[1]);
        [Granted(Word(v[0]), Word(v[1]), v[2])]
      else if kind == 0x12 && TakeAll(OPEN_ERROR, p).Ok? then
        TakenWasPut(OPEN_ERROR, p);
        var v := TakeAll(OPEN_ERROR, p).value.0;
        assert Fits(OPEN_ERROR[0], v[0]);
        [Refused(Word(v[0]), v[1])]
      else []
  }

  ghost function Greetings(log: seq<Action>): seq<Greeting> {
    if log == [] then [] else Greetings(log[..|log| - 1]) + GreetingOf(log[|log| - 1])
  }

  // ---------------------------------------------------------------- reading the answers

  lemma ReadyRead(version: u16, flags: u32)
    ensures GreetingOf(Wrote(Frame(EXT_STANDARD, SETUP_OK, SetupSuccess(version, flags)))) == [Ready(version, flags)]
  {
    hide PutAll, LE, Word, Word16;
    PutTwo(Fixed(2), Fixed(4), LE(2, version), LE(4, flags));
    WordRoundTrip(flags);
    Word16RoundTrip(version);
    var p := SetupSuccess(version, flags);
    assert p[..2] == LE(2, version) && p[2..] == LE(4, flags);
  }

  lemma Word16RoundTrip(v: u16)
    ensures Word16(LE(2, v)) == v
  {
    Widths();
    LERoundTrip(2, v);
  }

  lemma NotReadyRead(flags: u32, code: seq<byte>)
    ensures GreetingOf(Wrote(Frame(EXT_STANDARD, SETUP_FAILED, SetupError(flags, code)))) ==
            [NotReady(flags, Sanitized(code))]
  {
    hide PutAll, TakeAll, LE, Word, Sanitized;
    LayoutRoundTrip(SETUP_ERROR, [LE(4, flags), Sanitized(code)], []);
    assert SetupError(flags, code) + [] == SetupError(flags, code);
    WordRoundTrip(flags);
  }

  lemma GrantedRead(request: u32, channel: u32, target: seq<byte>)
    requires |target| == 32
    ensures GreetingOf(Wrote(Frame(EXT_STANDARD, OPEN_OK, OpenSuccess(request, channel, target, [])))) ==
            [Granted(request, channel, target)]
  {
    hide PutAll, TakeAll, LE, Word;
    LayoutRoundTrip(OPEN_SUCCESS, [LE(4, request), LE(4, channel), target, [], LE(4, 0)], []);
    assert OpenSuccess(request, channel, target, []) + [] == OpenSuccess(request, channel, target, []);
    WordRoundTrip(request);
    WordRoundTrip(channel);
  }

  lemma RefusedRead(request: u32, code: seq<byte>)
    ensures GreetingOf(Wrote(Frame(EXT_STANDARD, OPEN_FAILED, OpenError(request, code)))) ==
            [Refused(request, Sanitized(code))]
  {
    hide PutAll, TakeAll, LE, Word, Sanitized;
    LayoutRoundTrip(OPEN_ERROR, [LE(4, request), Sanitized(code)], []);
    assert OpenError(request, code) + [] == OpenError(request, code);
    WordRoundTrip(request);
  }

  lemma Plain()
    ensures Sanitized(Ascii("malformed setup connection")) == Ascii("malformed setup connection")
    ensures Sanitized(Ascii("malformed open channel")) == Ascii("malformed open channel")
    ensures Sanitized(Ascii("setup not complete")) == Ascii("setup not complete")
    ensures Sanitized(Ascii("invalid wallet")) == Ascii("invalid wallet")
  {
    hide Sanitized, Ascii;
    Replies.CodeUnchanged("malformed setup connection");
    Replies.CodeUnchanged("malformed open channel");
    Replies.CodeUnchanged("setup not complete");
    Replies.CodeUnchanged("invalid wallet");
  }

  // ---------------------------------------------------------------- logs

  lemma {:induction false} GreetingsAppend(a: seq<Action>, b: seq<Action>)
    ensures Greetings(a + b) == Greetings(a) + Greetings(b)
  {
    hide GreetingOf;
    if b == [] {
      assert a + b == a;
    } else {
      var init := b[..|b| - 1];
      assert (a + b)[..|a + b| - 1] == a + init;
      GreetingsAppend(a, init);
    }
  }

  lemma GreetingsOne(a: Action)
    ensures Greetings([a]) == GreetingOf(a) && Greetings([]) == []
  {
    hide GreetingOf;
    assert [a][..0] == [];
  }

  lemma WrittenGreets(c: Context, extension: u16, kind: byte, payload: seq<byte>)
    ensures Greetings(Written(c, extension, kind, payload)) ==
            if c.written then GreetingOf(Wrote(Frame(extension, kind, payload))) else []
  {
    hide GreetingOf;
    GreetingsOne(Wrote(Frame(extension, kind, payload)));
  }

  lemma ThenWritten(a: Action, more: seq<Action>)
    requires !a.Wrote?
    ensures Greetings([a] + more) == Greetings(more)
  {
    GreetingsAppend([a], more);
    GreetingsOne(a);
    assert [] + Greetings(more) == Greetings(more);
  }

  // ---------------------------------------------------------------- one answer to each

  /** The answer a set-up deserves. */
  ghost function SetupDue(payload: seq<byte>): Greeting {
    if ParseSetup(payload).Ok? then Ready(2, 0) else NotReady(0, Ascii("malformed setup connection"))
  }

  /** The answer an opening deserves in a session, the next channel id being given. */
  ghost function OpenDue(s: Session, payload: seq<byte>, c: Context): Greeting {
    match ParseOpen(payload)
    case Err(_) => Refused(RequestId(payload), Ascii("malformed open channel"))
    case Ok((request, _)) =>
      if !s.setup then Refused(request, Ascii("setup not complete"))
      else if c.identity.None? then Refused(request, Ascii("invalid wallet"))
      else Granted(request, ChannelId(s.given + c.others + 1), c.target)
  }

  ghost function Due(s: Session, f: Frame, c: Context): seq<Greeting> {
    if !s.open || !c.written then []
    else if f.kind == SETUP then [SetupDue(f.payload)]
    else if f.kind == OPEN then [OpenDue(s, f.payload, c)]
    else []
  }

  lemma SetupGreets(s: Session, payload: seq<byte>, c: Context)
    ensures Greetings(OnSetup(s, payload, c).1) == if c.written then [SetupDue(payload)] else []
  {
    hide ParseSetup, SetupSuccess, SetupError, Ascii, Written, Greetings, GreetingOf;
    var code := Ascii("malformed setup connection");
    Plain();
    WrittenGreets(c, EXT_STANDARD, SETUP_FAILED, SetupError(0, code));
    WrittenGreets(c, EXT_STANDARD, SETUP_OK, SetupSuccess(2, 0));
    NotReadyRead(0, code);
    ReadyRead(2, 0);
  }

  lemma RefusalGreets(c: Context, request: u32, code: seq<byte>)
    ensures Greetings(Written(c, EXT_STANDARD, OPEN_FAILED, OpenError(request, code))) ==
            if c.written then [Refused(request, Sanitized(code))] else []
  {
    hide OpenError, Greetings, GreetingOf, Sanitized, Written;
    WrittenGreets(c, EXT_STANDARD, OPEN_FAILED, OpenError(request, code));
    RefusedRead(request, code);
  }

  lemma GrantGreets(c: Context, request: u32, id: u32)
    requires |c.target| == 32
    ensures Greetings([Opened(id)] + Written(c, EXT_STANDARD, OPEN_OK, OpenSuccess(request, id, c.target, []))) ==
            if c.written then [Granted(request, id, c.target)] else []
  {
    hide OpenSuccess, Greetings, GreetingOf, Written;
    var reply := OpenSuccess(request, id, c.target, []);
    WrittenGreets(c, EXT_STANDARD, OPEN_OK, reply);
    ThenWritten(Opened(id), Written(c, EXT_STANDARD, OPEN_OK, reply));
    GrantedRead(request, id, c.target);
  }

  lemma OpenGreets(s: Session, payload: seq<byte>, c: Context)
    requires |c.target| == 32
    ensures Greetings(OnOpen(s.(given := s.given + c.others), payload, c).1) ==
            if c.written then [OpenDue(s, payload, c)] else []
  {
    hide ParseOpen, OpenSuccess, OpenError, Ascii, Written, Greetings, RequestId, ChannelId, Sanitized;
    Plain();
    match ParseOpen(payload)
    case Err(_) => RefusalGreets(c, RequestId(payload), Ascii("malformed open channel"));
    case Ok((request, _)) =>
      RefusalGreets(c, request, Ascii("setup not complete"));
      RefusalGreets(c, request, Ascii("invalid wallet"));
      GrantGreets(c, request, ChannelId(s.given + c.others + 1));
  }

  lemma ShareGreetsNot(s: Session, payload: seq<byte>, c: Context)
    ensures Greetings(OnShare(s, payload, c).1) == []
  {
    hide ParseSubmit, SubmitSuccess, SubmitError, Ascii, StatusCode, Written, Greetings;
    match ParseSubmit(payload)
    case Err(_) => WrittenGreets(c, EXT_CHANNEL, SHARE_FAILED, SubmitError(0, 0, Ascii("malformed submit")));
    case Ok(m) =>
      var wrong := SubmitError(m.channel, m.sequence, Ascii("wrong channel"));
      var refusal := SubmitError(m.channel, m.sequence, Ascii(StatusCode(c.verdict)));
      WrittenGreets(c, EXT_CHANNEL, SHARE_FAILED, wrong);
      WrittenGreets(c, EXT_CHANNEL, SHARE_FAILED, refusal);
      WrittenGreets(c, EXT_CHANNEL, SHARE_OK, SubmitSuccess(m.channel, m.sequence));
      var judged := Judged(m.channel, m.job, Nonce(m));
      ThenWritten(judged, Written(c, EXT_CHANNEL, SHARE_OK, SubmitSuccess(m.channel, m.sequence)));
      ThenWritten(judged, Written(c, EXT_CHANNEL, SHARE_FAILED, refusal));
  }

  lemma StepGreets(s: Session, f: Frame, c: Context)
    requires |c.target| == 32
    ensures Greetings(Step(s, f, c).1) == Due(s, f, c)
  {
    hide Greetings, OnSetup, OnOpen, OnShare, SetupDue, OpenDue;
    GreetingsOne(Opened(0));
    SetupGreets(s.(given := s.given + c.others), f.payload, c);
    OpenGreets(s, f.payload, c);
    ShareGreetsNot(s.(given := s.given + c.others), f.payload, c);
  }

  ghost function DueAll(s: Session, frames: seq<Frame>, cs: seq<Context>): seq<Greeting>
    requires |frames| <= |cs| && Contexts(cs)
  {
    if frames == [] then []
    else
      var n := |frames| - 1;
      DueAll(s, frames[..n], cs) + Due(Run(s, frames[..n], cs).0, frames[n], cs[n])
  }

  /** Every set-up and every opening whose answer could be written is answered once, in order, and nothing else
      is. */
  lemma {:induction false} GreetedInOrder(s: Session, frames: seq<Frame>, cs: seq<Context>)
    requires |frames| <= |cs| && Contexts(cs)
    ensures Greetings(Run(s, frames, cs).1) == DueAll(s, frames, cs)
  {
    hide Greetings, Step, Due;
    if frames == [] {
      GreetingsOne(Opened(0));
    } else {
      var n := |frames| - 1;
      GreetedInOrder(s, frames[..n], cs);
      var (before, log) := Run(s, frames[..n], cs);
      StepGreets(before, frames[n], cs[n]);
      GreetingsAppend(log, Step(before, frames[n], cs[n]).1);
    }
  }

  // ---------------------------------------------------------------- what the miner knows

  /** The miner has read a set-up success. */
  ghost predicate WasReady(greetings: seq<Greeting>) {
    exists i :: 0 <= i < |greetings| && greetings[i].Ready?
  }

  /** The channel of the last success the miner has read. */
  ghost function LastGranted(greetings: seq<Greeting>): Option<u32> {
    if greetings == [] then None
    else
      var last := greetings[|greetings| - 1];
      if last.Granted? then Some(last.channel) else LastGranted(greetings[..|greetings| - 1])
  }

  lemma OneMore(greetings: seq<Greeting>, more: seq<Greeting>)
    requires |more| <= 1
    ensures WasReady(greetings + more) <==> WasReady(greetings) || (more != [] && more[0].Ready?)
    ensures LastGranted(greetings + more) ==
            if more != [] && more[0].Granted? then Some(more[0].channel) else LastGranted(greetings)
  {
    var all := greetings + more;
    if more == [] {
      assert all == greetings;
    } else {
      assert all[..|all| - 1] == greetings;
      assert forall i :: 0 <= i < |greetings| ==> all[i] == greetings[i];
      assert all[|greetings|] == more[0];
    }
  }

  /** As long as the session is open, the miner knows where it stands. */
  ghost predicate Known(s: Session, greetings: seq<Greeting>) {
    s.open ==> (s.setup <==> WasReady(greetings)) && s.channel == LastGranted(greetings)
  }

  lemma StepKnown(s: Session, greetings: seq<Greeting>, f: Frame, c: Context)
    requires |c.target| == 32 && Known(s, greetings)
    ensures Known(Step(s, f, c).0, greetings + Due(s, f, c))
  {
    hide ParseSetup, ParseOpen, ParseSubmit, OpenSuccess, OpenError, Ascii, ChannelId, WasReady, LastGranted;
    OneMore(greetings, Due(s, f, c));
  }

  lemma {:induction false} MinerKnows(given: nat, frames: seq<Frame>, cs: seq<Context>)
    requires |frames| <= |cs| && Contexts(cs)
    ensures var (s, log) := Run(Started(given), frames, cs); Known(s, Greetings(log))
  {
    if frames == [] {
    } else {
      var n := |frames| - 1;
      MinerKnows(given, frames[..n], cs);
      var (before, log) := Run(Started(given), frames[..n], cs);
      hide Step, Due, Greetings, Known;
      StepKnown(before, Greetings(log), frames[n], cs[n]);
      StepGreets(before, frames[n], cs[n]);
      GreetingsAppend(log, Step(before, frames[n], cs[n]).1);
    }
  }

  /** What answers an opening that parses: one greeting to its own request, which is a success naming the channel
      just opened, for the miner's identity, or a refusal that ends the session. */
  ghost predicate OpeningResult(s: Session, f: Frame, c: Context, request: u32, granted: bool)
    requires |c.target| == 32
  {
    var (t, more) := Step(s, f, c);
    && |Greetings(more)| == 1
    && var g := Greetings(more)[0];
       if granted then
         && g.Granted? && g.request == request && Opened(g.channel) in more && g.target == c.target
         && t.open && t.channel == Some(g.channel) && t.identity == c.identity
       else g.Refused? && g.request == request && !t.open
  }

  lemma OpenEffect(s: Session, f: Frame, c: Context)
    requires |c.target| == 32 && s.open && c.written && f.kind == OPEN && ParseOpen(f.payload).Ok?
    ensures var (t, more) := Step(s, f, c);
      && (t.open <==> s.setup && c.identity.Some?)
      && (t.open ==>
            var id := ChannelId(s.given + c.others + 1);
            Opened(id) in more && t.channel == Some(id) && t.identity == c.identity)
  {
    hide ParseOpen, OpenSuccess, OpenError, ChannelId, Written, Ascii;
    if s.setup && c.identity.Some? {
      var more := Step(s, f, c).1;
      assert more[0] == Opened(ChannelId(s.given + c.others + 1));
    }
  }

  lemma OpeningStep(s: Session, f: Frame, c: Context, request: u32, name: seq<byte>)
    requires |c.target| == 32 && s.open && c.written && f.kind == OPEN && ParseOpen(f.payload) == Ok((request, name))
    ensures OpeningResult(s, f, c, request, s.setup && c.identity.Some?)
  {
    StepGreets(s, f, c);
    OpenEffect(s, f, c);
    DueToOpening(s, f, c, request, name);
    hide Step, Due, ChannelId, Greetings;
  }

  lemma DueToOpening(s: Session, f: Frame, c: Context, request: u32, name: seq<byte>)
    requires s.open && c.written && f.kind == OPEN && ParseOpen(f.payload) == Ok((request, name))
    ensures |Due(s, f, c)| == 1
    ensures var g := Due(s, f, c)[0];
      if s.setup && c.identity.Some? then g == Granted(request, ChannelId(s.given + c.others + 1), c.target)
      else g.Refused? && g.request == request
  {
    hide ParseOpen, ChannelId, Ascii;
  }

  /** A set-up in an open session is answered with success and names the miner's software. */
  lemma SetupAnswered(s: Session, f: Frame, c: Context, v: seq<seq<byte>>, rest: seq<byte>)
    requires |c.target| == 32 && s.open && c.written && f.kind == 0x00
    requires AllFit(SETUP_CONNECTION, v) && f.payload == PutAll(SETUP_CONNECTION, v) + rest
    ensures var (t, more) := Step(s, f, c); var vendor, firmware := v[6], v[8];
      && Greetings(more) == [Ready(2, 0)]
      && t.open && t.setup && t.channel == s.channel && t.identity == s.identity
      && t.app == if firmware != [] then firmware else if vendor != [] then vendor else Ascii("sv2-client")
  {
    SetupRoundTrip(v, rest);
    StepGreets(s, f, c);
    DefaultApp();
    hide ParseSetup, PutAll, Greetings, SetupSuccess, Ascii;
  }

  lemma DefaultApp()
    ensures Ascii("sv2-client") == DEFAULT_APP
  {
  }

  /** An opening in an open session, whatever went before: the miner reads one answer to its own request. It is a
      success exactly when it had read a set-up success and its wallet is valid, and then names the channel just
      opened and the advertised target; a refusal ends the session. */
  lemma OpeningAnswered(given: nat, frames: seq<Frame>, cs: seq<Context>, f: Frame, c: Context, request: u32,
                        name: seq<byte>, hashrate: seq<byte>, maxTarget: seq<byte>, rest: seq<byte>)
    requires |frames| <= |cs| && Contexts(cs) && Run(Started(given), frames, cs).0.open
    requires |c.target| == 32 && c.written && f.kind == 0x10
    requires |name| < 256 && |hashrate| == 4 && |maxTarget| == 32
    requires f.payload == PutAll(OPEN_CHANNEL, [LE(4, request), name, hashrate, maxTarget]) + rest
    ensures var (s, log) := Run(Started(given), frames, cs);
      OpeningResult(s, f, c, request, WasReady(Greetings(log)) && c.identity.Some?)
  {
    OpenRoundTrip(request, name, hashrate, maxTarget, rest);
    MinerKnows(given, frames, cs);
    hide Run, Greetings, ParseOpen, WasReady, LastGranted, PutAll, OpeningResult;
    OpeningStep(Run(Started(given), frames, cs).0, f, c, request, name);
  }

  /** The share goes to the judge with the job it names and the 64-bit number whose lower word is its nonce field
      and whose upper word is its time field. */
  ghost predicate GoesToJudge(more: seq<Action>, m: Submit) {
    && more != [] && more[0].Judged? && more[0].channel == m.channel && more[0].job == m.job
    && more[0].nonce % 0x1_0000_0000 == m.nonce && more[0].nonce / 0x1_0000_0000 == m.ntime
    && forall i :: 0 < i < |more| ==> !more[i].Judged?
  }

  lemma ShareStep(s: Session, f: Frame, c: Context, m: Submit)
    requires |c.target| == 32 && s.open && f.kind == SHARE && ParseSubmit(f.payload) == Ok(m)
    ensures if s.channel == Some(m.channel) then GoesToJudge(Step(s, f, c).1, m)
            else forall a :: a in Step(s, f, c).1 ==> !a.Judged?
  {
    hide ParseSubmit, SubmitSuccess, SubmitError, Ascii, StatusCode;
    PackedNonce(m);
    hide Nonce;
  }

  lemma PackedNonce(m: Submit)
    ensures Nonce(m) % 0x1_0000_0000 == m.nonce && Nonce(m) / 0x1_0000_0000 == m.ntime
  {
  }

  /** A share in an open session, whatever went before: it reaches the judge exactly when its channel is the one of
      the last success the miner has read. */
  lemma ShareReachesJudge(given: nat, frames: seq<Frame>, cs: seq<Context>, f: Frame, c: Context, m: Submit,
                          rest: seq<byte>)
    requires |frames| <= |cs| && Contexts(cs) && Run(Started(given), frames, cs).0.open
    requires |c.target| == 32 && f.kind == 0x1A && f.payload == PutAll(SUBMIT, SubmitValues(m)) + rest
    ensures var (s, log) := Run(Started(given), frames, cs); var more := Step(s, f, c).1;
      if LastGranted(Greetings(log)) == Some(m.channel) then GoesToJudge(more, m)
      else forall a :: a in more ==> !a.Judged?
  {
    SubmitRoundTrip(m, rest);
    MinerKnows(given, frames, cs);
    hide Run, Greetings, ParseSubmit, LastGranted, WasReady, PutAll, Step, GoesToJudge;
    ShareStep(Run(Started(given), frames, cs).0, f, c, m);
  }

  /** A frame an open session survives: its answer goes through, and it is well formed; an opening must be granted,
      and a frame of another type needs nothing. */
  ghost predicate Survives(s: Session, f: Frame, c: Context) {
    if f.kind == 0x00 then c.written && ParseSetup(f.payload).Ok?
    else if f.kind == 0x10 then c.written && ParseOpen(f.payload).Ok? && s.setup && c.identity.Some?
    else if f.kind == 0x1A then c.written && |f.payload| >= 24
    else true
  }

  /** Exactly such frames leave a session open, and only a granted opening changes its channel or identity: a share
      on a wrong channel or with a bad verdict ends nothing. */
  lemma SessionGoesOn(s: Session, f: Frame, c: Context)
    requires |c.target| == 32 && s.open
    ensures var t := Step(s, f, c).0;
      && (t.open <==> Survives(s, f, c))
      && (f.kind != 0x10 ==> t.channel == s.channel && t.identity == s.identity && t.given == s.given + c.others)
      && (f.kind != 0x00 ==> t.setup == s.setup && t.app == s.app)
  {
    SubmitNeedsSixWords(f.payload);
    hide ParseSetup, ParseOpen, ParseSubmit, OpenSuccess, OpenError, SubmitSuccess, SubmitError, SetupSuccess,
         SetupError, Ascii, StatusCode, ChannelId, Written;
  }
}
