/** An SV2 session whose shares are judged by the share handler: what a success reply means for the books. */
module Sv2Shares {
  import opened Arithmetic
  import opened Bytes
  import opened Wrappers
  import opened Ledger
  import opened Frames
  import opened MiningState
  import opened ShareHandler
  import opened Sv2Payloads
  import opened Sv2Replies
  import opened Sv2Session
  import opened Targets
  import ShareRuns

  /** What the judge finds when a share reaches it: any state of the books, the session's identity, and what its
      mining state holds. */
  datatype Judging = Judging(state: State, who: Identity, job: Option<Block>, diff: Option<Diff>, world: Surroundings)

  function Judge(j: Judging, m: Submit): Outcome {
    Handle(j.state, j.who, m.job, Nonce(m), j.job, j.diff, j.world)
  }

  /** An error counts as no verdict. */
  function VerdictOf(r: Result<Status, Error>): Option<Status> {
    match r
    case Ok(status) => Some(status)
    case Err(_) => None
  }

  /** The frame is a share on the session's channel. */
  ghost predicate ReachesJudge(s: Session, f: Frame) {
    s.open && f.kind == SHARE && ParseSubmit(f.payload).Ok? && s.channel == Some(ParseSubmit(f.payload).value.channel)
  }

  /** The frame's verdict is the judge's. */
  ghost predicate JudgedBy(s: Session, f: Frame, c: Context, j: Judging) {
    ReachesJudge(s, f) ==> c.verdict == VerdictOf(Judge(j, ParseSubmit(f.payload).value).result)
  }

  ghost function SharesOf(t: Table, who: Identity): nat {
    if StatsKey(who) in t then t[StatsKey(who)].counts.shares else 0
  }

  /** Judging the frame raises the worker's share count by one. */
  ghost predicate Counted(s: Session, f: Frame, j: Judging) {
    && ReachesJudge(s, f)
    && SharesOf(Judge(j, ParseSubmit(f.payload).value).state.books.table, j.who) ==
       SharesOf(Claim(j.state.books.table, j.who), j.who) + 1
  }

  ghost function Successes(answers: seq<Answer>): nat {
    if answers == [] then 0
    else Successes(answers[..|answers| - 1]) + if answers[|answers| - 1].refusal.None? then 1 else 0
  }

  /** The worker's share count goes up exactly when the verdict is Accepted, and else stays. */
  lemma AcceptedIsCounted(j: Judging, m: Submit)
    ensures var o := Judge(j, m); var before, after := Claim(j.state.books.table, j.who), o.state.books.table;
      SharesOf(after, j.who) ==
      SharesOf(before, j.who) + if VerdictOf(o.result) == Some(Accepted) then 1 else 0
  {
    hide Process, Claim, StatsKey;
    ClaimedKey(j.state.books.table, j.who);
    if j.job.Some? {
      var block := j.job.value;
      var sub := Submission(m.job, Nonce(m), block, j.diff, j.world.pow(block, Nonce(m)), j.world.reply);
      ShareRuns.OneMove(j.state, j.who, sub);
    }
  }

  lemma OneAnswer(a: Answer)
    ensures Successes([a]) == if a.refusal.None? then 1 else 0
    ensures Successes([]) == 0
  {
    assert [a][..0] == [];
  }

  /** The answer due to one frame is a success exactly when its share was counted. */
  lemma SuccessIsCounted(s: Session, f: Frame, c: Context, j: Judging)
    requires JudgedBy(s, f, c, j)
    ensures Successes(Due(s, f, c)) == if c.written && Counted(s, f, j) then 1 else 0
  {
    hide ParseSubmit, Judge, Ascii, StatusCode, SharesOf, Successes;
    OneAnswer(Answer(0, 0, Some(Ascii("malformed submit"))));
    if s.open && f.kind == SHARE && c.written && ParseSubmit(f.payload).Ok? {
      var m := ParseSubmit(f.payload).value;
      OneAnswer(Due(s, f, c)[0]);
      AcceptedIsCounted(j, m);
    }
  }

  lemma {:induction false} SuccessesAppend(a: seq<Answer>, b: seq<Answer>)
    ensures Successes(a + b) == Successes(a) + Successes(b)
  {
    if b == [] {
      assert a + b == a;
    } else {
      assert (a + b)[..|a + b| - 1] == a + b[..|b| - 1];
      SuccessesAppend(a, b[..|b| - 1]);
    }
  }

  /** The frames whose shares were counted and whose answers could be written. */
  ghost function CountedFrames(s: Session, frames: seq<Frame>, cs: seq<Context>, js: seq<Judging>): nat
    requires |frames| <= |cs| && |frames| <= |js| && Contexts(cs)
  {
    if frames == [] then 0
    else
      var n := |frames| - 1;
      CountedFrames(s, frames[..n], cs, js) +
      if cs[n].written && Counted(Run(s, frames[..n], cs).0, frames[n], js[n]) then 1 else 0
  }

  ghost predicate AllJudged(s: Session, frames: seq<Frame>, cs: seq<Context>, js: seq<Judging>)
    requires |frames| <= |cs| && |frames| <= |js| && Contexts(cs)
  {
    forall i :: 0 <= i < |frames| ==> JudgedBy(Run(s, frames[..i], cs).0, frames[i], cs[i], js[i])
  }

  /** Over a whole session the miner reads exactly one success for each share of its that was counted, as long as
      the answer could be written. */
  lemma {:induction false} SuccessesAreCounted(s: Session, frames: seq<Frame>, cs: seq<Context>, js: seq<Judging>)
    requires |frames| <= |cs| && |frames| <= |js| && Contexts(cs) && AllJudged(s, frames, cs, js)
    ensures Successes(Answers(Run(s, frames, cs).1)) == CountedFrames(s, frames, cs, js)
  {
    AnsweredInOrder(s, frames, cs);
    DueCounted(s, frames, cs, js);
  }

  lemma {:induction false} DueCounted(s: Session, frames: seq<Frame>, cs: seq<Context>, js: seq<Judging>)
    requires |frames| <= |cs| && |frames| <= |js| && Contexts(cs) && AllJudged(s, frames, cs, js)
    ensures Successes(DueAll(s, frames, cs)) == CountedFrames(s, frames, cs, js)
  {
    hide JudgedBy, Due, Counted, Run, Successes;
    if frames == [] {
      OneAnswer(Answer(0, 0, None));
    } else {
      var n := |frames| - 1;
      assert forall i :: 0 <= i < n ==> frames[..n][i] == frames[i] && frames[..n][..i] == frames[..i];
      DueCounted(s, frames[..n], cs, js);
      var before := Run(s, frames[..n], cs).0;
      SuccessIsCounted(before, frames[n], cs[n], js[n]);
      SuccessesAppend(DueAll(s, frames[..n], cs), Due(before, frames[n], cs[n]));
    }
  }

  /** While the difficulty an SV2 miner was sent is current, a hash below that target is never judged low; from
      0.00001 up, a share that reaches the hash test and is no block is judged low exactly when its hash is not
      below the target. */
  lemma AdvertisedIsNeverLow(s: State, who: Identity, sub: Submission, c: Conversion, diff: real, le: seq<byte>)
    requires IsRounding(c.rnd) && diff > 0.0 && sub.diff == Some(DiffOf(c, diff))
    requires FromLE(le) == DiffToTarget(c.rnd, Max(diff, SMALLEST_DIFF))
    ensures sub.hash < FromLE(le) ==> Process(s, who, sub).result != Ok(LowDiff)
    ensures diff >= 0.00001 && Checked(s.dupes, s.tip, StatsKey(who), sub).2 == Passed && sub.block.convertible
            && sub.hash > sub.block.target ==>
              (Process(s, who, sub).result == Ok(LowDiff) <==> sub.hash >= FromLE(le))
  {
    hide Claim, StatsKey, Checked, DiffToTarget, IsRounding;
    AdvertisedNotAboveChecked(c.rnd, diff, le, sub.hash);
  }
}
