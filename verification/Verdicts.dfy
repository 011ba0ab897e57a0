/** What every share of a whole run is answered, read from the run's events alone. */
module Verdicts {
  import opened Wrappers
  import opened Ledger
  import opened DupeHistory
  import opened MiningState
  import opened Nonces
  import opened ShareHandler
  import opened ShareRuns
  import TipRace

  // ---------------------------------------------------------------- the tip

  function Higher(a: nat, b: nat): nat {
    if a >= b then a else b
  }

  /** The highest blue score a share brings along: what others published before it, or its own job's. */
  function Brings(e: Event): nat
    requires e.Submitted?
  {
    if e.job.Some? then Higher(e.raised, e.job.value.blueScore) else e.raised
  }

  ghost function HighestSeen(events: seq<Event>): nat {
    if events == [] then 0
    else
      var before, e := HighestSeen(events[..|events| - 1]), events[|events| - 1];
      if e.Submitted? then Higher(before, Brings(e)) else before
  }

  lemma StepTip(s: State, e: Event)
    ensures Step(s, e).tip == if e.Submitted? then Higher(s.tip, Brings(e)) else s.tip
  {
    hide Claim, Concluded, StatsKey, ShareKey, Tracked;
  }

  /** The tip is the highest blue score any share has shown, stale ones included. */
  lemma {:induction false} TipIsHighest(events: seq<Event>)
    ensures Run(events).tip == HighestSeen(events)
  {
    if events == [] {
    } else {
      TipIsHighest(events[..|events| - 1]);
      hide Step;
      StepTip(Run(events[..|events| - 1]), events[|events| - 1]);
    }
  }

  /** The verdict of the tip check is that of one thread of the lock-free loop, run with no other in between. */
  lemma CheckedAlone(dupes: Dupes, tip: nat, worker: string, sub: Submission, published: seq<nat>,
                     threads: seq<TipRace.Thread>)
    ensures var i, before := |threads|, TipRace.Shared(tip, published, threads);
      var arrived := TipRace.Step(before, TipRace.Arrive(sub.block.blueScore));
      var after := TipRace.Step(TipRace.Step(arrived, TipRace.Run(i)), TipRace.Run(i));
      var phase := after.threads[i].phase;
      && (phase.Stale? || phase.Current?) && phase.seen == tip
      && after.tip == Checked(dupes, tip, worker, sub).1
      && (phase.Stale? <==> Checked(dupes, tip, worker, sub).2 == StaleShare)
  {
    hide Tracked, ShareKey;
  }

  // ---------------------------------------------------------------- every verdict

  /** The share's job lies more than 8 behind the highest blue score seen. */
  ghost predicate Behind(events: seq<Event>, i: nat)
    requires i < |events| && events[i].Submitted? && events[i].job.Some?
  {
    Higher(HighestSeen(events[..i]), events[i].raised) > events[i].job.value.blueScore + 8
  }

  /** An earlier share of this worker with the same id and nonce was let through, its worker's history has not been
      dropped since, and fewer than 2048 of its other shares have been let through. */
  ghost predicate RepeatOf(events: seq<Event>, i: nat, k: nat)
    requires k < i < |events| && events[i].Submitted?
  {
    var worker, e, f := StatsKey(events[i].who), events[i], events[k];
    && f.Submitted? && StatsKey(f.who) == worker && f.jobId == e.jobId && f.nonce == e.nonce
    && Fresh(Ops(events, worker), k)
    && (forall l :: k < l < i ==> !Forgets(events[l], worker))
    && FreshBetween(Ops(events, worker), k + 1, i) < 2048
  }

  ghost predicate Repeats(events: seq<Event>, i: nat)
    requires i < |events| && events[i].Submitted?
  {
    exists k :: 0 <= k < i && RepeatOf(events, i, k)
  }

  lemma {:induction false} FreshBetweenPrefix(ops: seq<Op>, n: nat, i: nat, j: nat)
    requires i <= j <= n <= |ops|
    ensures FreshBetween(ops[..n], i, j) == FreshBetween(ops, i, j)
    decreases j
  {
    if i == j {
    } else {
      FreshBetweenPrefix(ops, n, i, j - 1);
      assert ops[..n][..j - 1] == ops[..j - 1];
    }
  }

  lemma TrackedOp(events: seq<Event>, k: nat, worker: string)
    requires k < |events| && Fresh(Ops(events, worker), k)
    ensures events[k].Submitted? && StatsKey(events[k].who) == worker
    ensures Ops(events, worker)[k] == Track(ShareKey(events[k].jobId, events[k].nonce))
  {
    OpsPrefix(events, worker, k);
  }

  lemma ClearedOp(events: seq<Event>, l: nat, worker: string)
    requires l < |events|
    ensures Ops(events, worker)[l].Clear? <==> Forgets(events[l], worker)
  {
    OpsPrefix(events, worker, l);
  }

  lemma SameBefore(events: seq<Event>, i: nat, k: nat, worker: string)
    requires k < i < |events|
    ensures var ops, before := Ops(events, worker), Ops(events[..i], worker);
      && before[k] == ops[k] && (Fresh(before, k) <==> Fresh(ops, k))
      && FreshBetween(before, k + 1, i) == FreshBetween(ops, k + 1, i)
      && forall l :: k < l < i ==> (before[l].Clear? <==> Forgets(events[l], worker))
  {
    var ops, before := Ops(events, worker), Ops(events[..i], worker);
    OpsPrefix(events, worker, i);
    FreshBetweenPrefix(ops, i, k + 1, i);
    assert before[..k] == ops[..k];
    hide Ops, Kept, FreshBetween, Forgets;
    forall l | k < l < i
      ensures before[l].Clear? <==> Forgets(events[l], worker)
    {
      ClearedOp(events, l, worker);
    }
  }

  lemma RepeatIsRemembered(events: seq<Event>, i: nat, k: nat)
    requires k < i < |events| && events[i].Submitted?
    ensures RepeatOf(events, i, k) <==>
            Remembered(Ops(events[..i], StatsKey(events[i].who)), k, ShareKey(events[i].jobId, events[i].nonce))
  {
    var worker, e := StatsKey(events[i].who), events[i];
    SameBefore(events, i, k, worker);
    if Fresh(Ops(events, worker), k) {
      TrackedOp(events, k, worker);
      hide Ops, Kept, StatsKey, ShareKey, FreshBetween, Forgets, Fresh;
      if ShareKey(events[k].jobId, events[k].nonce) == ShareKey(e.jobId, e.nonce) {
        ShareKeyInjective(events[k].jobId, events[k].nonce, e.jobId, e.nonce);
      }
    }
  }

  lemma RepeatsExactly(events: seq<Event>, i: nat)
    requires i < |events| && events[i].Submitted?
    ensures ShareKey(events[i].jobId, events[i].nonce) in OrderOf(Run(events[..i]).dupes, StatsKey(events[i].who))
            <==> Repeats(events, i)
  {
    var worker, key := StatsKey(events[i].who), ShareKey(events[i].jobId, events[i].nonce);
    HistoriesFollowOps(events[..i], worker);
    hide Run, OrderOf, StatsKey, ShareKey, Ops, Kept, RepeatOf, Remembered;
    KeptExactly(Ops(events[..i], worker), key);
    forall k | 0 <= k < i
      ensures RepeatOf(events, i, k) <==> Remembered(Ops(events[..i], worker), k, key)
    {
      RepeatIsRemembered(events, i, k);
    }
  }

  /** The share passes the stale and duplicate checks. */
  ghost predicate PassesChecks(events: seq<Event>, i: nat)
    requires i < |events| && events[i].Submitted?
  {
    events[i].job.Some? && !Behind(events, i) && !Repeats(events, i)
  }

  /** And its hash is looked at. */
  ghost predicate Weighed(events: seq<Event>, i: nat)
    requires i < |events| && events[i].Submitted?
  {
    PassesChecks(events, i) && events[i].job.value.convertible && events[i].diff.Some?
  }

  function HashOf(e: Event): nat
    requires e.Submitted? && e.job.Some?
  {
    e.world.pow(e.job.value, e.nonce)
  }

  /** Its hash is good enough for a block. */
  predicate FindsBlock(e: Event)
    requires e.Submitted? && e.job.Some?
  {
    HashOf(e) <= e.job.value.target
  }

  lemma CheckedAs(events: seq<Event>, i: nat, sub: Submission)
    requires i < |events| && events[i].Submitted? && events[i].job == Some(sub.block)
    requires sub.jobId == events[i].jobId && sub.nonce == events[i].nonce
    ensures var s := Raised(Run(events[..i]), events[i].raised);
      Checked(s.dupes, s.tip, StatsKey(events[i].who), sub).2 ==
      if Behind(events, i) then StaleShare else if Repeats(events, i) then DupeShare else Passed
  {
    TipIsHighest(events[..i]);
    RepeatsExactly(events, i);
    hide Run, HighestSeen, StatsKey, ShareKey, Tracked, Repeats, OrderOf;
  }

  /** The answer to each share of a run, in terms of the run: a job unknown or more than 8 blue scores behind is
      stale, a repeat is a duplicate, and otherwise the hash decides, the node having the last word on a block. */
  lemma JudgedExactly(events: seq<Event>, i: nat)
    requires i < |events| && events[i].Submitted?
    ensures var e := events[i]; var r := Judge(Run(events[..i]), e).result;
      && (r == Ok(Duplicate) <==> e.job.Some? && !Behind(events, i) && Repeats(events, i))
      && (r.Err? <==> PassesChecks(events, i) && !Weighed(events, i))
      && (r == Ok(LowDiff) <==> Weighed(events, i) && !FindsBlock(e) && HashOf(e) >= e.diff.value.targetValue)
      && (r == Ok(Accepted) <==>
            (Weighed(events, i) &&
             if FindsBlock(e) then e.world.reply.Taken? else HashOf(e) < e.diff.value.targetValue))
      && (r == Ok(Bad) <==> Weighed(events, i) && FindsBlock(e) && e.world.reply.Rejected?)
      && (r == Ok(Stale) <==>
            e.job.None? || Behind(events, i) || (Weighed(events, i) && FindsBlock(e) && e.world.reply.AlreadyKnown?))
  {
    var e := events[i];
    if e.job.Some? {
      var sub := Submission(e.jobId, e.nonce, e.job.value, e.diff, HashOf(e), e.world.reply);
      CheckedAs(events, i, sub);
      hide Run, Checked, Behind, Repeats, Claim, StatsKey, Added, AddedShare;
      ClaimedKey(Run(events[..i]).books.table, e.who);
    }
  }
}
