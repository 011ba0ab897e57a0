/** What a miner reads back from an SV2 session: every frame the session wrote, and among them one answer
    per share submitted, in order. */
module Sv2Replies {
  import opened Bytes
  import opened Wrappers
  import opened Frames
  import opened Sv2Payloads
  import opened ShareHandler
  import opened Sv2Session

  // ---------------------------------------------------------------- answers to shares

  /** A submit answer as the miner parses it; no refusal means the share was accepted. */
  datatype Answer = Answer(channel: u32, sequence: u32, refusal: Option<seq<byte>>)

  ghost function AnswerOf(a: Action): seq<Answer> {
    if !a.Wrote? || a.frame.extension != 0x8000 then []
    else if a.frame.kind == 0x1C then
      match TakeAll(SUBMIT_SUCCESS, a.frame.payload)
      case Err(_) => []
      case Ok((v, _)) =>
        TakenWasPut(SUBMIT_SUCCESS, a.frame.payload);
        assert Fits(SUBMIT_SUCCESS[0], v[0]) && Fits(SUBMIT_SUCCESS[1], v[1]);
        [Answer(Word(v[0]), Word(v[1]), None)]
    else if a.frame.kind == 0x1D then
      match TakeAll(SUBMIT_ERROR, a.frame.payload)
      case Err(_) => []
      case Ok((v, _)) =>
        TakenWasPut(SUBMIT_ERROR, a.frame.payload);
        assert Fits(SUBMIT_ERROR[0], v[0]) && Fits(SUBMIT_ERROR[1], v[1]);
        [Answer(Word(v[0]), Word(v[1]), Some(v[2]))]
    else []
  }

  ghost function Answers(log: seq<Action>): seq<Answer> {
    if log == [] then [] else Answers(log[..|log| - 1]) + AnswerOf(log[|log| - 1])
  }

  /** The answer one frame deserves: a submit whose answer could be written gets one, carrying the
      submit's own channel and sequence numbers; it is a success exactly when the channel is the
      session's and the judge accepted the share. */
  ghost function Due(s: Session, f: Frame, c: Context): seq<Answer> {
    if !s.open || f.kind != SHARE || !c.written then []
    else
      match ParseSubmit(f.payload)
      case Err(_) => [Answer(0, 0, Some(Ascii("malformed submit")))]
      case Ok(m) =>
        [Answer(m.channel, m.sequence,
                if s.channel != Some(m.channel) then Some(Ascii("wrong channel"))
                else if c.verdict == Some(Accepted) then None
                else Some(Ascii(StatusCode(c.verdict))))]
  }

  /** What the refusal read by the miner of a share on its channel says about the verdict. */
  lemma RefusalMeans(s: Session, f: Frame, c: Context)
    requires s.open && f.kind == SHARE && c.written && ParseSubmit(f.payload).Ok?
    requires s.channel == Some(ParseSubmit(f.payload).value.channel)
    ensures |Due(s, f, c)| == 1
    ensures var refusal := Due(s, f, c)[0].refusal;
      && (refusal == None <==> c.verdict == Some(Accepted))
      && (refusal == Some(Ascii("stale share")) <==> c.verdict == Some(Stale))
      && (refusal == Some(Ascii("duplicate share")) <==> c.verdict == Some(Duplicate))
      && (refusal == Some(Ascii("low difficulty")) <==> c.verdict == Some(LowDiff))
      && (refusal == Some(Ascii("invalid share")) <==> c.verdict == None || c.verdict == Some(Bad))
  {
    hide ParseSubmit, Ascii;
    AsciiLength("stale share");
    AsciiLength("duplicate share");
    AsciiLength("low difficulty");
    AsciiLength("invalid share");
  }

  lemma AsciiLength(s: string)
    ensures |Ascii(s)| == |s|
  {
  }

  ghost function DueAll(s: Session, frames: seq<Frame>, cs: seq<Context>): seq<Answer>
    requires |frames| <= |cs| && Contexts(cs)
  {
    if frames == [] then []
    else
      var n := |frames| - 1;
      DueAll(s, frames[..n], cs) + Due(Run(s, frames[..n], cs).0, frames[n], cs[n])
  }

  lemma {:induction false} AnswersAppend(a: seq<Action>, b: seq<Action>)
    ensures Answers(a + b) == Answers(a) + Answers(b)
  {
    hide AnswerOf;
    if b == [] {
      assert a + b == a;
    } else {
      var init := b[..|b| - 1];
      assert (a + b)[..|a + b| - 1] == a + init;
      AnswersAppend(a, init);
    }
  }

  lemma AnswersOne(a: Action)
    ensures Answers([a]) == AnswerOf(a)
  {
    hide AnswerOf;
    assert [a][..0] == [];
  }

  lemma SuccessRead(channel: u32, sequence: u32)
    ensures AnswerOf(Wrote(Frame(EXT_CHANNEL, SHARE_OK, SubmitSuccess(channel, sequence)))) ==
            [Answer(channel, sequence, None)]
  {
    hide PutAll, TakeAll, LE, Word;
    var values := [LE(4, channel), LE(4, sequence)];
    LayoutRoundTrip(SUBMIT_SUCCESS, values, []);
    assert SubmitSuccess(channel, sequence) + [] == SubmitSuccess(channel, sequence);
    WordRoundTrip(channel);
    WordRoundTrip(sequence);
  }

  lemma RefusalRead(channel: u32, sequence: u32, code: seq<byte>)
    ensures AnswerOf(Wrote(Frame(EXT_CHANNEL, SHARE_FAILED, SubmitError(channel, sequence, code)))) ==
            [Answer(channel, sequence, Some(Sanitized(code)))]
  {
    hide PutAll, TakeAll, LE, Word, Sanitized;
    var values := [LE(4, channel), LE(4, sequence), Sanitized(code)];
    LayoutRoundTrip(SUBMIT_ERROR, values, []);
    assert SubmitError(channel, sequence, code) + [] == SubmitError(channel, sequence, code);
    WordRoundTrip(channel);
    WordRoundTrip(sequence);
  }

  /** The refusal texts are printable, so they go out as they are. */
  lemma CodeUnchanged(s: string)
    requires |s| <= 255 && forall i :: 0 <= i < |s| ==> ' ' <= s[i] <= '~'
    ensures Sanitized(Ascii(s)) == Ascii(s)
  {
    SanitizedUnchanged(Ascii(s));
  }

  lemma RefusalTexts(v: Option<Status>)
    ensures Sanitized(Ascii("malformed submit")) == Ascii("malformed submit")
    ensures Sanitized(Ascii("wrong channel")) == Ascii("wrong channel")
    ensures Sanitized(Ascii(StatusCode(v))) == Ascii(StatusCode(v))
  {
    hide Sanitized, Ascii;
    CodeUnchanged("malformed submit");
    CodeUnchanged("wrong channel");
    CodeUnchanged(StatusCode(v));
  }

  lemma WrittenAnswers(c: Context, extension: u16, kind: byte, payload: seq<byte>)
    ensures Answers(Written(c, extension, kind, payload)) ==
            if c.written then AnswerOf(Wrote(Frame(extension, kind, payload))) else []
  {
    hide AnswerOf;
    AnswersOne(Wrote(Frame(extension, kind, payload)));
  }

  lemma ActionThenWritten(a: Action, more: seq<Action>)
    requires !a.Wrote?
    ensures Answers([a] + more) == Answers(more)
  {
    AnswersAppend([a], more);
    AnswersOne(a);
    assert [] + Answers(more) == Answers(more);
  }

  lemma SetupAnswers(s: Session, payload: seq<byte>, c: Context)
    ensures Answers(OnSetup(s, payload, c).1) == []
  {
    hide ParseSetup, PutAll, Answers, Written, Ascii;
    WrittenAnswers(c, EXT_STANDARD, SETUP_FAILED, SetupError(0, Ascii("malformed setup connection")));
    WrittenAnswers(c, EXT_STANDARD, SETUP_OK, SetupSuccess(2, 0));
  }

  lemma OpenAnswers(s: Session, payload: seq<byte>, c: Context)
    requires |c.target| == 32
    ensures Answers(OnOpen(s, payload, c).1) == []
  {
    hide ParseOpen, PutAll, Answers, Written, Ascii, RequestId, Sanitized;
    match ParseOpen(payload)
    case Err(_) =>
      WrittenAnswers(c, EXT_STANDARD, OPEN_FAILED, OpenError(RequestId(payload), Ascii("malformed open channel")));
    case Ok((request, _)) =>
      WrittenAnswers(c, EXT_STANDARD, OPEN_FAILED, OpenError(request, Ascii("setup not complete")));
      WrittenAnswers(c, EXT_STANDARD, OPEN_FAILED, OpenError(request, Ascii("invalid wallet")));
      var id := ChannelId(s.given + 1);
      var reply := OpenSuccess(request, id, c.target, []);
      WrittenAnswers(c, EXT_STANDARD, OPEN_OK, reply);
      ActionThenWritten(Opened(id), Written(c, EXT_STANDARD, OPEN_OK, reply));
  }

  lemma ShareAnswers(s: Session, payload: seq<byte>, c: Context)
    requires s.open
    ensures Answers(OnShare(s, payload, c).1) == Due(s, Frame(EXT_CHANNEL, SHARE, payload), c)
  {
    hide ParseSubmit, PutAll, Answers, AnswerOf, Written, Ascii, Sanitized, StatusCode;
    RefusalTexts(c.verdict);
    match ParseSubmit(payload)
    case Err(_) =>
      WrittenAnswers(c, EXT_CHANNEL, SHARE_FAILED, SubmitError(0, 0, Ascii("malformed submit")));
      RefusalRead(0, 0, Ascii("malformed submit"));
    case Ok(m) =>
      if s.channel != Some(m.channel) {
        WrittenAnswers(c, EXT_CHANNEL, SHARE_FAILED, SubmitError(m.channel, m.sequence, Ascii("wrong channel")));
        RefusalRead(m.channel, m.sequence, Ascii("wrong channel"));
      } else if c.verdict == Some(Accepted) {
        var reply := SubmitSuccess(m.channel, m.sequence);
        ActionThenWritten(Judged(m.channel, m.job, Nonce(m)), Written(c, EXT_CHANNEL, SHARE_OK, reply));
        WrittenAnswers(c, EXT_CHANNEL, SHARE_OK, reply);
        SuccessRead(m.channel, m.sequence);
      } else {
        var code := Ascii(StatusCode(c.verdict));
        var reply := SubmitError(m.channel, m.sequence, code);
        ActionThenWritten(Judged(m.channel, m.job, Nonce(m)), Written(c, EXT_CHANNEL, SHARE_FAILED, reply));
        WrittenAnswers(c, EXT_CHANNEL, SHARE_FAILED, reply);
        RefusalRead(m.channel, m.sequence, code);
      }
  }

  lemma NoAnswers()
    ensures Answers([]) == []
  {
  }

  lemma StepAnswers(s: Session, f: Frame, c: Context)
    requires |c.target| == 32
    ensures Answers(Step(s, f, c).1) == Due(s, f, c)
  {
    hide Answers, OnSetup, OnOpen, OnShare, ParseSubmit, Ascii, StatusCode;
    NoAnswers();
    var t := s.(given := s.given + c.others);
    if f.kind == SETUP {
      SetupAnswers(t, f.payload, c);
    } else if f.kind == OPEN {
      OpenAnswers(t, f.payload, c);
    } else if f.kind == SHARE && s.open {
      ShareAnswers(t, f.payload, c);
    }
  }

  /** Every submit whose answer could be written is answered once, in order, and nothing else is. */
  lemma {:induction false} AnsweredInOrder(s: Session, frames: seq<Frame>, cs: seq<Context>)
    requires |frames| <= |cs| && Contexts(cs)
    ensures Answers(Run(s, frames, cs).1) == DueAll(s, frames, cs)
  {
    hide Answers, Step, Due;
    if frames == [] {
      NoAnswers();
    } else {
      var n := |frames| - 1;
      AnsweredInOrder(s, frames[..n], cs);
      var (before, log) := Run(s, frames[..n], cs);
      StepAnswers(before, frames[n], cs[n]);
      AnswersAppend(log, Step(before, frames[n], cs[n]).1);
    }
  }

  // ---------------------------------------------------------------- the reply stream

  ghost function FramesOf(log: seq<Action>): seq<Frame> {
    if log == [] then []
    else FramesOf(log[..|log| - 1]) + if log[|log| - 1].Wrote? then [log[|log| - 1].frame] else []
  }

  const REPLY_MAX: nat := 1280

  ghost predicate Short(a: Action) {
    a.Wrote? ==> |a.frame.payload| <= REPLY_MAX
  }

  ghost predicate AllShort(log: seq<Action>) {
    forall i :: 0 <= i < |log| ==> Short(log[i])
  }

  lemma {:induction false} PutAllBound(layout: Layout, values: seq<seq<byte>>)
    requires AllFit(layout, values)
    requires forall i :: 0 <= i < |layout| && layout[i].Fixed? ==> layout[i].width <= 256
    ensures |PutAll(layout, values)| <= 256 * |layout|
  {
    if layout == [] {
    } else {
      PutAllBound(layout[1..], values[1..]);
      assert Fits(layout[0], values[0]);
    }
  }

  lemma RepliesShort(request: u32, channel: u32, sequence: u32, target: seq<byte>, code: seq<byte>)
    requires |target| == 32
    ensures |SetupSuccess(2, 0)| <= REPLY_MAX && |SetupError(0, code)| <= REPLY_MAX
    ensures |OpenSuccess(request, channel, target, [])| <= REPLY_MAX && |OpenError(request, code)| <= REPLY_MAX
    ensures |SubmitSuccess(channel, sequence)| <= REPLY_MAX && |SubmitError(channel, sequence, code)| <= REPLY_MAX
  {
    hide PutAll, LE, Sanitized;
    PutAllBound(SETUP_SUCCESS, [LE(2, 2), LE(4, 0)]);
    PutAllBound(SETUP_ERROR, [LE(4, 0), Sanitized(code)]);
    PutAllBound(OPEN_SUCCESS, [LE(4, request), LE(4, channel), target, [], LE(4, 0)]);
    PutAllBound(OPEN_ERROR, [LE(4, request), Sanitized(code)]);
    PutAllBound(SUBMIT_SUCCESS, [LE(4, channel), LE(4, sequence)]);
    PutAllBound(SUBMIT_ERROR, [LE(4, channel), LE(4, sequence), Sanitized(code)]);
  }

  lemma ShortWritten(c: Context, extension: u16, kind: byte, payload: seq<byte>)
    requires |payload| <= REPLY_MAX
    ensures AllShort(Written(c, extension, kind, payload))
  {
  }

  lemma ShortThen(a: Action, more: seq<Action>)
    requires !a.Wrote? && AllShort(more)
    ensures AllShort([a] + more)
  {
    assert forall i :: 0 < i < |more| + 1 ==> ([a] + more)[i] == more[i - 1] && Short(more[i - 1]);
  }

  lemma SetupShort(s: Session, payload: seq<byte>, c: Context)
    requires |c.target| == 32
    ensures AllShort(OnSetup(s, payload, c).1)
  {
    hide ParseSetup, SetupSuccess, SetupError, Ascii, Written, AllShort;
    var code := Ascii("malformed setup connection");
    RepliesShort(0, 0, 0, c.target, code);
    ShortWritten(c, EXT_STANDARD, SETUP_FAILED, SetupError(0, code));
    ShortWritten(c, EXT_STANDARD, SETUP_OK, SetupSuccess(2, 0));
  }

  lemma OpenFailedShort(c: Context, request: u32, code: seq<byte>)
    requires |c.target| == 32
    ensures AllShort(Written(c, EXT_STANDARD, OPEN_FAILED, OpenError(request, code)))
  {
    RepliesShort(request, 0, 0, c.target, code);
  }

  lemma OpenShort(s: Session, payload: seq<byte>, c: Context)
    requires |c.target| == 32
    ensures AllShort(OnOpen(s, payload, c).1)
  {
    hide ParseOpen, OpenSuccess, OpenError, RequestId, Ascii, ChannelId, Written, AllShort;
    match ParseOpen(payload)
    case Err(_) =>
      OpenFailedShort(c, RequestId(payload), Ascii("malformed open channel"));
    case Ok((request, _)) =>
      OpenFailedShort(c, request, Ascii("setup not complete"));
      OpenFailedShort(c, request, Ascii("invalid wallet"));
      var id := ChannelId(s.given + 1);
      RepliesShort(request, id, 0, c.target, []);
      ShortWritten(c, EXT_STANDARD, OPEN_OK, OpenSuccess(request, id, c.target, []));
      ShortThen(Opened(id), Written(c, EXT_STANDARD, OPEN_OK, OpenSuccess(request, id, c.target, [])));
  }

  lemma ShareFailedShort(c: Context, channel: u32, sequence: u32, code: seq<byte>)
    requires |c.target| == 32
    ensures AllShort(Written(c, EXT_CHANNEL, SHARE_FAILED, SubmitError(channel, sequence, code)))
    ensures AllShort(Written(c, EXT_CHANNEL, SHARE_OK, SubmitSuccess(channel, sequence)))
  {
    RepliesShort(0, channel, sequence, c.target, code);
  }

  lemma ShareShort(s: Session, payload: seq<byte>, c: Context)
    requires |c.target| == 32
    ensures AllShort(OnShare(s, payload, c).1)
  {
    hide ParseSubmit, SubmitSuccess, SubmitError, Ascii, StatusCode, Written, AllShort;
    match ParseSubmit(payload)
    case Err(_) =>
      ShareFailedShort(c, 0, 0, Ascii("malformed submit"));
    case Ok(m) =>
      ShareFailedShort(c, m.channel, m.sequence, Ascii("wrong channel"));
      var code := Ascii(StatusCode(c.verdict));
      ShareFailedShort(c, m.channel, m.sequence, code);
      var judged := Judged(m.channel, m.job, Nonce(m));
      ShortThen(judged, Written(c, EXT_CHANNEL, SHARE_OK, SubmitSuccess(m.channel, m.sequence)));
      ShortThen(judged, Written(c, EXT_CHANNEL, SHARE_FAILED, SubmitError(m.channel, m.sequence, code)));
  }

  lemma StepShort(s: Session, f: Frame, c: Context)
    requires |c.target| == 32
    ensures AllShort(Step(s, f, c).1)
  {
    hide OnSetup, OnOpen, OnShare;
    var t := s.(given := s.given + c.others);
    SetupShort(t, f.payload, c);
    OpenShort(t, f.payload, c);
    ShareShort(t, f.payload, c);
  }

  lemma {:induction false} RunShort(s: Session, frames: seq<Frame>, cs: seq<Context>)
    requires |frames| <= |cs| && Contexts(cs)
    ensures AllShort(Run(s, frames, cs).1)
  {
    hide Step;
    if frames == [] {
    } else {
      var n := |frames| - 1;
      RunShort(s, frames[..n], cs);
      StepShort(Run(s, frames[..n], cs).0, frames[n], cs[n]);
    }
  }

  lemma {:induction false} ShortIsReadable(log: seq<Action>)
    requires AllShort(log)
    ensures Readable(FramesOf(log))
  {
    if log == [] {
    } else {
      ShortIsReadable(log[..|log| - 1]);
      assert Short(log[|log| - 1]);
    }
  }

  /** The replies of any session, sent back to back, decode to exactly those replies. */
  lemma RepliesDecode(s: Session, frames: seq<Frame>, cs: seq<Context>)
    requires |frames| <= |cs| && Contexts(cs)
    ensures var replies := FramesOf(Run(s, frames, cs).1);
      Readable(replies) && DecodeAll(EncodeAll(replies)) == (replies, false)
  {
    RunShort(s, frames, cs);
    var log := Run(s, frames, cs).1;
    ShortIsReadable(log);
    var replies := FramesOf(log);
    hide EncodeAll, Run, FramesOf;
    StreamRoundTrip(replies, []);
    assert EncodeAll(replies) + [] == EncodeAll(replies);
    assert DecodeAll([]) == ([], false);
    assert replies + [] == replies;
  }
}
