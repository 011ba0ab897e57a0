/** The variable-difficulty controller of one worker: what a retarget pass, a counted share, a
    pause and a restart do to its tracker, and what every run of them keeps. Time is in minutes. */
module VarDiff {
  import opened Arithmetic
  import opened Wrappers

  const WINDOWS: seq<nat> := [1, 3, 10, 30, 60, 240, 0]
  const TOLERANCES: seq<real> := [0.5, 0.5, 0.25, 0.15, 0.1, 0.05, 0.05]
  const UINT_RANGE: nat := 0x1_0000_0000_0000_0000

  /** The expected shares per minute, a 64-bit unsigned number; the code replaces a configured 0 by 1. */
  type Rate = x: nat | 1 <= x < UINT_RANGE witness 1

  /** The vardiff fields of a WorkStats. start is None while the tracker is paused. */
  datatype Tracker = Tracker(start: Option<real>, shares: nat, stage: nat, minDiff: real)

  const FRESH := Tracker(None, 0, 0, 0.0)

  function Abs(a: real): real {
    if a < 0.0 then -a else a
  }

  /** The share count a window stands for: a 64-bit unsigned product, so it may wrap. */
  function Quota(stage: nat, rate: Rate): (q: nat)
    requires stage < 7
  {
    (WINDOWS[stage] * rate) % UINT_RANGE
  }

  function Ratio(shares: nat, duration: real, rate: Rate): real
    requires duration > 0.0
  {
    shares as real / duration / rate as real
  }

  predicate Off(ratio: real, tolerance: real) {
    Abs(1.0 - ratio) >= tolerance
  }

  /** A window cleared earlier no longer holds; window 0 is never looked at again. */
  predicate Breached(stage: nat, ratio: real)
    requires stage < 7
  {
    exists i :: 1 <= i < stage && Off(ratio, TOLERANCES[i])
  }

  datatype Verdict = Skip | Hold | Advance | Final | Cleared | Upper | Lower

  /** Which branch a retarget pass takes once the tracker has been running for some time. */
  function Branch(stage: nat, shares: nat, duration: real, ratio: real, quota: nat): (v: Verdict)
    requires stage < 7
  {
    var tolerance := TOLERANCES[stage];
    if WINDOWS[stage] == 0 then (if Off(ratio, tolerance) then Final else Hold)
    else if Breached(stage, ratio) then Cleared
    else if shares as real >= quota as real * (1.0 + tolerance) then Upper
    else if duration >= WINDOWS[stage] as real then
      if shares as real <= quota as real * (1.0 - tolerance) then Lower else Advance
    else Hold
  }

  function Judge(t: Tracker, now: real, rate: Rate): (v: Verdict)
    requires t.stage < 7
  {
    if t.start.None? || now - t.start.value <= 0.0 then Skip
    else
      var duration := now - t.start.value;
      Branch(t.stage, t.shares, duration, Ratio(t.shares, duration, rate), Quota(t.stage, rate))
  }

  predicate Retargets(v: Verdict) {
    v.Final? || v.Cleared? || v.Upper? || v.Lower?
  }

  /** A new difficulty pauses the tracker until the client has been told. */
  function Pause(t: Tracker, minDiff: real): Tracker {
    t.(start := None, stage := 0, minDiff := minDiff)
  }

  function Restart(t: Tracker, now: real): Tracker {
    if t.start.None? then t.(shares := 0, start := Some(now)) else t
  }

  function SetDiff(t: Tracker, minDiff: real, now: real): Tracker {
    Restart(Pause(t, Max(minDiff, SMALLEST_DIFF)), now)
  }

  function Factor(v: Verdict, ratio: real): real {
    if v.Lower? then Max(ratio, 0.1) else ratio
  }

  /** One retarget pass over one worker. */
  function Tick(t: Tracker, now: real, rate: Rate): Tracker
    requires t.stage < 7
  {
    var v := Judge(t, now, rate);
    if v.Advance? then t.(stage := t.stage + 1)
    else if Retargets(v) then Pause(t, t.minDiff * Factor(v, Ratio(t.shares, now - t.start.value, rate)))
    else t
  }

  // ---------------------------------------------------------------- runs

  datatype Event = Passed(time: real) | Retarget | Share | Resume | Assign(minDiff: real)

  datatype World = World(clock: real, tracker: Tracker)

  function Step(w: World, e: Event, rate: Rate): World
    requires w.tracker.stage < 7
  {
    match e
    case Passed(time) => w.(clock := w.clock + Abs(time))
    case Retarget => w.(tracker := Tick(w.tracker, w.clock, rate))
    case Share => w.(tracker := w.tracker.(shares := w.tracker.shares + 1))
    case Resume => w.(tracker := Restart(w.tracker, w.clock))
    case Assign(minDiff) => w.(tracker := SetDiff(w.tracker, minDiff, w.clock))
  }

  /** Every stage a tracking worker sits at was earned: its previous window has elapsed, and it
      beat that window's lower bound. A paused worker sits at stage 0. */
  ghost predicate Earned(w: World, rate: Rate) {
    var t := w.tracker;
    && t.stage < 7
    && (t.start.None? ==> t.stage == 0)
    && (t.start.Some? ==> t.start.value <= w.clock)
    && (t.start.Some? && t.stage >= 1 ==>
          && w.clock - t.start.value >= WINDOWS[t.stage - 1] as real
          && t.shares as real > Quota(t.stage - 1, rate) as real * (1.0 - TOLERANCES[t.stage - 1]))
  }

  lemma StepEarned(w: World, e: Event, rate: Rate)
    requires Earned(w, rate)
    ensures Earned(Step(w, e, rate), rate)
  {
    if e.Retarget? {
      var v := Judge(w.tracker, w.clock, rate);
      if v.Advance? {
        assert w.tracker.stage < 6;
      }
    }
  }

  /** The whole history of a worker, whatever the order of its events. */
  ghost function Run(w: World, events: seq<Event>, rate: Rate): (r: World)
    requires Earned(w, rate)
    ensures Earned(r, rate)
    decreases |events|
  {
    if events == [] then w
    else
      StepEarned(w, events[0], rate);
      Run(Step(w, events[0], rate), events[1..], rate)
  }

  /** A window was cleared: it has elapsed, and its lower bound was beaten unless the quota wraps. */
  ghost predicate ClearedWindow(w: World, k: nat, rate: Rate)
    requires k < 7
  {
    var t := w.tracker;
    && t.start.Some?
    && w.clock - t.start.value >= WINDOWS[k] as real
    && (240 * rate < UINT_RANGE ==> t.shares as real > Floor(k, rate))
  }

  lemma WindowsRise(j: nat, k: nat)
    requires j <= k < 6
    ensures WINDOWS[j] <= WINDOWS[k] <= 240
  {
  }

  lemma StageEarned(w: World, k: nat, rate: Rate)
    requires Earned(w, rate) && k < w.tracker.stage
    ensures ClearedWindow(w, k, rate)
  {
    hide Quota, Floor;
    var last := w.tracker.stage - 1;
    WindowsRise(k, last);
    FloorsRise(k, last, rate);
    if 240 * rate < UINT_RANGE {
      WithinRange(WINDOWS[last], rate);
      QuotaExact(last, rate);
      FloorIs(last, rate);
    }
  }

  lemma FloorIs(stage: nat, rate: Rate)
    requires stage < 7
    ensures Floor(stage, rate) == WINDOWS[stage] as real * rate as real * (1.0 - TOLERANCES[stage])
  {
  }

  lemma WithinRange(window: nat, rate: Rate)
    requires window <= 240 && 240 * rate < UINT_RANGE
    ensures window * rate < UINT_RANGE
  {
    NatGrow(window, 240, rate);
  }

  lemma StagesAreEarned(events: seq<Event>, rate: Rate, clock: real)
    ensures var w := Run(World(clock, FRESH), events, rate); var t := w.tracker;
      && t.stage <= 6
      && (t.start.None? ==> t.stage == 0)
      && forall k :: 0 <= k < t.stage ==> ClearedWindow(w, k, rate)
  {
    var w := Run(World(clock, FRESH), events, rate);
    assert Earned(w, rate);
    hide Run, Quota, ClearedWindow;
    forall k | 0 <= k < w.tracker.stage
      ensures ClearedWindow(w, k, rate)
    {
      StageEarned(w, k, rate);
    }
  }

  /** The lower bound of a window, without wrap-around. */
  function Floor(stage: nat, rate: Rate): real
    requires stage < 7
  {
    WINDOWS[stage] as real * rate as real * (1.0 - TOLERANCES[stage])
  }

  lemma QuotaExact(stage: nat, rate: Rate)
    requires stage < 7 && WINDOWS[stage] * rate < UINT_RANGE
    ensures Quota(stage, rate) as real == WINDOWS[stage] as real * rate as real
  {
    RealProduct(WINDOWS[stage], rate);
  }

  lemma RealProduct(a: nat, b: nat)
    ensures (a * b) as real == a as real * b as real
  {
  }

  lemma FloorsRise(j: nat, k: nat, rate: Rate)
    requires j <= k < 6
    ensures Floor(j, rate) <= Floor(k, rate)
  {
    var a, b := WINDOWS[j] as real * (1.0 - TOLERANCES[j]), WINDOWS[k] as real * (1.0 - TOLERANCES[k]);
    assert a <= b;
    assert Floor(j, rate) == a * rate as real && Floor(k, rate) == b * rate as real;
  }

  // ---------------------------------------------------------------- difficulty never reaches zero

  /** What each branch says about its inputs. */
  lemma BranchFacts(stage: nat, shares: nat, duration: real, ratio: real, quota: nat)
    requires stage < 7
    ensures var v := Branch(stage, shares, duration, ratio, quota);
      && (v.Final? ==> stage == 6 && Off(ratio, 0.05))
      && (v.Cleared? ==> 2 <= stage < 6 && Off(ratio, TOLERANCES[stage - 1]))
      && (v.Upper? ==> stage < 6 && shares as real >= quota as real * (1.0 + TOLERANCES[stage]))
      && (v.Lower? ==> stage < 6 && duration >= WINDOWS[stage] as real &&
                       shares as real <= quota as real * (1.0 - TOLERANCES[stage]))
  {
  }

  /** An unclamped branch has counted a share, so its ratio is not zero. */
  lemma SomeShareCounted(w: World, rate: Rate)
    requires Earned(w, rate)
    requires var v := Judge(w.tracker, w.clock, rate); Retargets(v) && !v.Lower?
    ensures w.tracker.shares >= 1
  {
    hide Branch, Ratio, Off, Breached, Quota;
    var t := w.tracker;
    var d := w.clock - t.start.value;
    BranchFacts(t.stage, t.shares, d, Ratio(t.shares, d, rate), Quota(t.stage, rate));
    if t.stage == 0 {
      FirstCap(t.shares, rate);
    } else {
      AboveFloor(t.shares, Quota(t.stage - 1, rate), 1.0 - TOLERANCES[t.stage - 1]);
    }
  }

  lemma FirstCap(shares: nat, rate: Rate)
    requires shares as real >= Quota(0, rate) as real * 1.5
    ensures shares >= 1
  {
    assert Quota(0, rate) == rate;
  }

  lemma AboveFloor(shares: nat, quota: nat, slack: real)
    requires slack > 0.0 && shares as real > quota as real * slack
    ensures shares >= 1
  {
    assert quota as real * slack >= 0.0;
  }

  lemma RatioPositive(shares: nat, duration: real, rate: Rate)
    requires shares >= 1 && duration > 0.0
    ensures Ratio(shares, duration, rate) > 0.0
  {
    assert shares as real / duration > 0.0;
  }

  /** Every retarget multiplies with something positive. */
  lemma FactorPositive(w: World, rate: Rate)
    requires Earned(w, rate) && Retargets(Judge(w.tracker, w.clock, rate))
    ensures var t := w.tracker;
      Factor(Judge(t, w.clock, rate), Ratio(t.shares, w.clock - t.start.value, rate)) > 0.0
  {
    var t := w.tracker;
    if !Judge(t, w.clock, rate).Lower? {
      SomeShareCounted(w, rate);
      hide Ratio, Branch, Quota;
      RatioPositive(t.shares, w.clock - t.start.value, rate);
    }
  }

  lemma TickKeepsSign(w: World, rate: Rate)
    requires Earned(w, rate)
    ensures w.tracker.minDiff > 0.0 <==> Tick(w.tracker, w.clock, rate).minDiff > 0.0
  {
    hide Ratio, Branch, Quota, Factor;
    var t := w.tracker;
    if Retargets(Judge(t, w.clock, rate)) {
      FactorPositive(w, rate);
      ScaleKeepsSign(t.minDiff, Factor(Judge(t, w.clock, rate), Ratio(t.shares, w.clock - t.start.value, rate)));
    }
  }

  lemma ScaleKeepsSign(a: real, f: real)
    requires f > 0.0
    ensures a > 0.0 <==> a * f > 0.0
  {
  }

  lemma {:induction false} RunKeepsSign(w: World, events: seq<Event>, rate: Rate)
    requires Earned(w, rate)
    ensures Run(w, events, rate).tracker.minDiff > 0.0 <==>
            w.tracker.minDiff > 0.0 || exists i :: 0 <= i < |events| && events[i].Assign?
    decreases |events|
  {
    if events == [] {
    } else {
      var e, rest := events[0], events[1..];
      StepEarned(w, e, rate);
      RunKeepsSign(Step(w, e, rate), rest, rate);
      if e.Retarget? {
        TickKeepsSign(w, rate);
      }
      assert forall i :: 0 < i < |events| ==> events[i] == rest[i - 1];
      assert (exists i :: 0 <= i < |events| && events[i].Assign?) <==>
             e.Assign? || exists i :: 0 <= i < |rest| && rest[i].Assign?;
    }
  }

  /** A worker's difficulty is positive exactly when some setClientVardiff has been part of its
      history: no tick, share or restart ever drives it to zero, and none ever repairs a zero. */
  lemma DifficultyStaysPositive(events: seq<Event>, rate: Rate, clock: real)
    ensures Run(World(clock, FRESH), events, rate).tracker.minDiff > 0.0 <==>
            exists i :: 0 <= i < |events| && events[i].Assign?
  {
    RunKeepsSign(World(clock, FRESH), events, rate);
  }

  // ---------------------------------------------------------------- size of a step

  lemma RatioTimes(shares: nat, duration: real, rate: Rate)
    requires duration > 0.0
    ensures Ratio(shares, duration, rate) * (duration * rate as real) == shares as real
  {
    var q := shares as real / duration;
    assert q * duration == shares as real;
    assert Ratio(shares, duration, rate) * rate as real == q;
  }

  lemma ScaledWindow(window: real, duration: real, rate: real, factor: real)
    requires factor > 0.0 && rate > 0.0
    ensures duration >= window ==> window * rate * factor <= factor * (duration * rate)
    ensures duration <= window ==> window * rate * factor >= factor * (duration * rate)
  {
    Compare(duration, window, rate);
    Compare(duration * rate, window * rate, factor);
  }

  lemma QuotaAtMost(stage: nat, rate: Rate)
    requires stage < 7
    ensures Quota(stage, rate) as real <= WINDOWS[stage] as real * rate as real
  {
    var product := WINDOWS[stage] * rate;
    ModAtMost(product, UINT_RANGE);
    assert Quota(stage, rate) <= product;
    RealProduct(WINDOWS[stage], rate);
    assert Quota(stage, rate) as real <= product as real;
  }

  lemma BelowWindow(window: real, duration: real, ratio: real, rate: real, shares: real, quota: real, slack: real)
    requires 0.0 < window <= duration && rate > 0.0 && slack > 0.0 && quota <= window * rate
    requires ratio * (duration * rate) == shares && shares <= quota * slack
    ensures ratio <= slack
  {
    var q, c := window * rate, duration * rate;
    Compare(q, quota, slack);
    ScaledWindow(window, duration, rate, slack);
    Positive(duration, rate);
    assert ratio * c <= quota * slack <= q * slack <= slack * c;
    Compare(ratio, slack, c);
  }

  lemma AboveWindow(window: real, duration: real, ratio: real, rate: real, shares: real, quota: real, cap: real)
    requires 0.0 < duration <= window && rate > 0.0 && cap > 0.0 && quota == window * rate
    requires ratio * (duration * rate) == shares && shares >= quota * cap
    ensures ratio >= cap
  {
    var c := duration * rate;
    ScaledWindow(window, duration, rate, cap);
    Positive(duration, rate);
    assert ratio * c >= quota * cap >= cap * c;
    Compare(ratio, cap, c);
  }

  lemma ModAtMost(a: nat, m: nat)
    requires m > 0
    ensures a % m <= a
  {
  }

  lemma Slack(stage: nat)
    requires stage < 6
    ensures 1.0 - TOLERANCES[stage] > 0.0 && 1.0 + TOLERANCES[stage] > 0.0 && WINDOWS[stage] as real > 0.0
  {
  }

  lemma LowerStep(t: Tracker, now: real, rate: Rate)
    requires t.stage < 7 && Judge(t, now, rate).Lower?
    ensures Ratio(t.shares, now - t.start.value, rate) <= 1.0 - TOLERANCES[t.stage] && t.stage < 6
  {
    hide Ratio, Branch, Quota;
    var d := now - t.start.value;
    var r := Ratio(t.shares, d, rate);
    BranchFacts(t.stage, t.shares, d, r, Quota(t.stage, rate));
    RatioTimes(t.shares, d, rate);
    QuotaAtMost(t.stage, rate);
    Slack(t.stage);
    BelowWindow(WINDOWS[t.stage] as real, d, r, rate as real, t.shares as real, Quota(t.stage, rate) as real,
                1.0 - TOLERANCES[t.stage]);
  }

  lemma UpperStep(t: Tracker, now: real, rate: Rate)
    requires t.stage < 7 && Judge(t, now, rate).Upper?
    requires now - t.start.value <= WINDOWS[t.stage] as real && WINDOWS[t.stage] * rate < UINT_RANGE
    ensures Ratio(t.shares, now - t.start.value, rate) >= 1.0 + TOLERANCES[t.stage]
  {
    hide Ratio, Branch, Quota;
    var d := now - t.start.value;
    var r := Ratio(t.shares, d, rate);
    BranchFacts(t.stage, t.shares, d, r, Quota(t.stage, rate));
    RatioTimes(t.shares, d, rate);
    QuotaExact(t.stage, rate);
    Slack(t.stage);
    AboveWindow(WINDOWS[t.stage] as real, d, r, rate as real, t.shares as real, Quota(t.stage, rate) as real,
                1.0 + TOLERANCES[t.stage]);
  }

  /** The factor a retarget pass multiplies the difficulty with. */
  function FactorOf(t: Tracker, now: real, rate: Rate): real
    requires t.stage < 7 && Retargets(Judge(t, now, rate))
  {
    Factor(Judge(t, now, rate), Ratio(t.shares, now - t.start.value, rate))
  }

  /** A retarget pauses the tracker at stage 0, keeps its share count and multiplies its difficulty by a factor,
      which is bounded branch by branch. */
  lemma StepBounds(t: Tracker, now: real, rate: Rate)
    requires t.stage < 7 && Retargets(Judge(t, now, rate))
    ensures var v, f := Judge(t, now, rate), FactorOf(t, now, rate);
      && Tick(t, now, rate) == Tracker(None, t.shares, 0, t.minDiff * f)
      && (v.Lower? ==> 0.1 <= f <= 1.0 - TOLERANCES[t.stage])
      && (v.Final? ==> Off(f, 0.05))
      && (v.Cleared? ==> t.stage >= 2 && Off(f, TOLERANCES[t.stage - 1]))
      && (v.Upper? && now - t.start.value <= WINDOWS[t.stage] as real && WINDOWS[t.stage] * rate < UINT_RANGE ==>
            f >= 1.0 + TOLERANCES[t.stage])
  {
    hide Ratio, Branch, Quota;
    var v, d := Judge(t, now, rate), now - t.start.value;
    BranchFacts(t.stage, t.shares, d, Ratio(t.shares, d, rate), Quota(t.stage, rate));
    if v.Lower? {
      LowerStep(t, now, rate);
    } else if v.Upper? && d <= WINDOWS[t.stage] as real && WINDOWS[t.stage] * rate < UINT_RANGE {
      UpperStep(t, now, rate);
    }
  }

  lemma ScaledComparison(r: real, f: real, c: real, diff: real, shares: real)
    requires c > 0.0 && diff > 0.0 && r * c == shares
    ensures f >= r ==> diff * f * c >= diff * shares
    ensures diff * f * c == diff * shares <==> f == r
  {
    Compare(f, r, c);
    assert diff * f * c == (f * c) * diff;
    Compare(f * c, shares, diff);
  }

  /** The promise behind a retarget: work done per minute is unchanged, so at the new difficulty the
      same miner would meet the expected rate exactly; only the clamped step stops short of it. */
  lemma RetargetMeetsRate(t: Tracker, now: real, rate: Rate)
    requires t.stage < 7 && Retargets(Judge(t, now, rate)) && t.minDiff > 0.0
    ensures var d := now - t.start.value; var u := Tick(t, now, rate);
      var done, planned := t.minDiff * t.shares as real, u.minDiff * (d * rate as real);
      && planned >= done
      && (planned == done <==> !Judge(t, now, rate).Lower? || Ratio(t.shares, d, rate) >= 0.1)
  {
    hide Ratio, Branch, Quota;
    var d := now - t.start.value;
    RatioTimes(t.shares, d, rate);
    Positive(d, rate as real);
    StepBounds(t, now, rate);
    MeetsRate(Judge(t, now, rate), Ratio(t.shares, d, rate), d * rate as real, t.minDiff, t.shares as real);
  }

  lemma MeetsRate(v: Verdict, r: real, c: real, diff: real, shares: real)
    requires c > 0.0 && diff > 0.0 && r * c == shares
    ensures var planned := diff * Factor(v, r) * c;
      && planned >= diff * shares
      && (planned == diff * shares <==> !v.Lower? || r >= 0.1)
  {
    ScaledComparison(r, Factor(v, r), c, diff, shares);
  }

  lemma SilentBranch(stage: nat, shares: nat, duration: real, ratio: real, quota: nat)
    requires stage < 7
    requires Branch(stage, shares, duration, ratio, quota).Lower? ==> ratio <= 1.0 - TOLERANCES[stage]
    ensures var v := Branch(stage, shares, duration, ratio, quota);
      (Retargets(v) && Factor(v, ratio) == 1.0 <==>
         stage < 6 && ratio == 1.0 && shares as real >= quota as real * (1.0 + TOLERANCES[stage]))
  {
    BranchFacts(stage, shares, duration, ratio, quota);
  }

  /** The share count has reached the current window's cap. */
  predicate Capped(t: Tracker, rate: Rate)
    requires t.stage < 7
  {
    t.shares as real >= (WINDOWS[t.stage] * rate % UINT_RANGE) as real * (1.0 + TOLERANCES[t.stage])
  }

  /** The shares the elapsed time calls for. */
  function Due(t: Tracker, now: real, rate: Rate): real
    requires t.start.Some?
  {
    (now - t.start.value) * rate as real
  }

  /** The share count is exactly what the elapsed time calls for. */
  predicate OnRate(t: Tracker, now: real, rate: Rate)
    requires t.start.Some?
  {
    t.shares as real == Due(t, now, rate)
  }

  /** A retarget that leaves the difficulty as it was is never delivered, so tracking would stay
      paused. It happens in one place: an upper-tolerance retarget past the window's length whose
      rate meets the expected one exactly. */
  lemma SilentRetarget(t: Tracker, now: real, rate: Rate)
    requires t.stage < 7 && t.minDiff > 0.0 && t.start.Some? && now - t.start.value > 0.0
    ensures Retargets(Judge(t, now, rate)) && Tick(t, now, rate).minDiff == t.minDiff <==>
            t.stage < 6 && OnRate(t, now, rate) && Capped(t, rate)
  {
    hide Ratio, Branch, Quota, Tick, Factor, FactorOf, Capped, OnRate;
    UnitFactor(t, now, rate);
    UnitRatio(t, now, rate);
    if Retargets(Judge(t, now, rate)) {
      SilentScale(t, now, rate);
    }
  }

  lemma SilentScale(t: Tracker, now: real, rate: Rate)
    requires t.stage < 7 && t.minDiff > 0.0 && Retargets(Judge(t, now, rate))
    ensures Tick(t, now, rate).minDiff == t.minDiff <==> FactorOf(t, now, rate) == 1.0
  {
    hide Ratio, Branch, Quota, Tick, Factor, FactorOf;
    StepBounds(t, now, rate);
    Unscaled(t.minDiff, FactorOf(t, now, rate));
  }

  lemma UnitFactor(t: Tracker, now: real, rate: Rate)
    requires t.stage < 7 && t.start.Some? && now - t.start.value > 0.0
    ensures var v, r := Judge(t, now, rate), Ratio(t.shares, now - t.start.value, rate);
      Retargets(v) && FactorOf(t, now, rate) == 1.0 <==> t.stage < 6 && r == 1.0 && Capped(t, rate)
  {
    hide Ratio, Branch, Quota;
    var v, d := Judge(t, now, rate), now - t.start.value;
    var r := Ratio(t.shares, d, rate);
    if v.Lower? {
      LowerStep(t, now, rate);
    }
    CappedQuota(t, rate);
    SilentBranch(t.stage, t.shares, d, r, Quota(t.stage, rate));
  }

  lemma CappedQuota(t: Tracker, rate: Rate)
    requires t.stage < 7
    ensures Capped(t, rate) <==> t.shares as real >= Quota(t.stage, rate) as real * (1.0 + TOLERANCES[t.stage])
  {
  }

  lemma UnitRatio(t: Tracker, now: real, rate: Rate)
    requires t.start.Some? && now - t.start.value > 0.0
    ensures Ratio(t.shares, now - t.start.value, rate) == 1.0 <==> OnRate(t, now, rate)
  {
    hide Ratio;
    var d := now - t.start.value;
    RatioTimes(t.shares, d, rate);
    RatioIsOne(Ratio(t.shares, d, rate), d, rate as real, t.shares as real);
  }

  lemma RatioIsOne(r: real, d: real, rate: real, shares: real)
    requires d > 0.0 && rate > 0.0 && r * (d * rate) == shares
    ensures r == 1.0 <==> shares == d * rate
  {
    Positive(d, rate);
    Compare(r, 1.0, d * rate);
  }

  lemma Unscaled(a: real, f: real)
    requires a > 0.0
    ensures a * f == a <==> f == 1.0
  {
    Compare(f, 1.0, a);
  }

  /** Two minutes at 12 shares a minute, 24 shares: the 1-minute window's cap of 18 is passed, the
      rate is exactly the expected one. */
  lemma SilentRetargetExists()
    ensures var t := Tracker(Some(0.0), 24, 0, 2.0);
      Judge(t, 2.0, 12).Upper? && Tick(t, 2.0, 12) == Tracker(None, 24, 0, 2.0)
  {
    RatioTimes(24, 2.0, 12);
    assert Quota(0, 12) == 12;
  }

  // ---------------------------------------------------------------- when a pass acts

  /** The share count differs from what the elapsed time calls for by at least the given part of it. */
  predicate OffRate(t: Tracker, now: real, rate: Rate, part: real)
    requires t.start.Some?
  {
    Abs(Due(t, now, rate) - t.shares as real) >= part * Due(t, now, rate)
  }

  /** Some window cleared from the second one on no longer holds. */
  predicate OffCleared(t: Tracker, now: real, rate: Rate)
    requires t.stage < 7 && t.start.Some?
  {
    exists i :: 1 <= i < t.stage && OffRate(t, now, rate, TOLERANCES[i])
  }

  predicate WindowOver(t: Tracker, now: real)
    requires t.stage < 7 && t.start.Some?
  {
    now - t.start.value >= WINDOWS[t.stage] as real
  }

  /** The share count has stayed at or below the current window's floor. */
  predicate Floored(t: Tracker, rate: Rate)
    requires t.stage < 7
  {
    t.shares as real <= (WINDOWS[t.stage] * rate % UINT_RANGE) as real * (1.0 - TOLERANCES[t.stage])
  }

  /** A running tracker needs another difficulty: at the last stage when it is 5% off its rate; before, when a
      cleared window no longer holds, the cap is reached, or the window is over at its floor. */
  predicate NeedsRetune(t: Tracker, now: real, rate: Rate)
    requires t.stage < 7 && t.start.Some?
  {
    if t.stage == 6 then OffRate(t, now, rate, 0.05)
    else OffCleared(t, now, rate) || Capped(t, rate) || (WindowOver(t, now) && Floored(t, rate))
  }

  /** Neither a cleared window nor the cap asks for another difficulty. */
  predicate ByFloor(t: Tracker, now: real, rate: Rate)
    requires t.stage < 7 && t.start.Some?
  {
    t.stage < 6 && !OffCleared(t, now, rate) && !Capped(t, rate)
  }

  /** The new difficulty asks for the work done so far at the expected rate; when it is only too easy to keep to
      the floor, it is lowered to a tenth at most. */
  predicate Rescaled(t: Tracker, minDiff: real, now: real, rate: Rate)
    requires t.stage < 7 && t.start.Some?
  {
    var due := Due(t, now, rate);
    minDiff * due == t.minDiff * if ByFloor(t, now, rate) then Max(t.shares as real, 0.1 * due) else t.shares as real
  }

  /** u is what one pass has to make of t: no change while it is not running; paused at stage 0 with a rescaled
      difficulty exactly when it needs another one; one stage further exactly when its window is over without
      that need. */
  ghost predicate Reviewed(t: Tracker, u: Tracker, now: real, rate: Rate)
    requires t.stage < 7
  {
    if t.start.None? || now <= t.start.value then u == t
    else if NeedsRetune(t, now, rate) then
      u == Tracker(None, t.shares, 0, u.minDiff) && Rescaled(t, u.minDiff, now, rate)
    else u == t.(stage := if t.stage < 6 && WindowOver(t, now) then t.stage + 1 else t.stage)
  }

  lemma SharesOverDue(t: Tracker, now: real, rate: Rate)
    requires t.start.Some? && now > t.start.value
    ensures Due(t, now, rate) > 0.0
    ensures Ratio(t.shares, now - t.start.value, rate) * Due(t, now, rate) == t.shares as real
  {
    Positive(now - t.start.value, rate as real);
    RatioTimes(t.shares, now - t.start.value, rate);
  }

  lemma OffIsOffRate(t: Tracker, now: real, rate: Rate, part: real)
    requires t.start.Some? && now > t.start.value
    ensures Off(Ratio(t.shares, now - t.start.value, rate), part) <==> OffRate(t, now, rate, part)
  {
    hide Ratio, Due;
    var r, due := Ratio(t.shares, now - t.start.value, rate), Due(t, now, rate);
    SharesOverDue(t, now, rate);
    assert (1.0 - r) * due == due - t.shares as real;
    Compare(1.0 - r, part, due);
    Compare(r - 1.0, part, due);
    assert (r - 1.0) * due == t.shares as real - due;
    Compare(1.0 - r, 0.0, due);
  }

  lemma ClearedOff(t: Tracker, now: real, rate: Rate)
    requires t.stage < 7 && t.start.Some? && now > t.start.value
    ensures Breached(t.stage, Ratio(t.shares, now - t.start.value, rate)) <==> OffCleared(t, now, rate)
  {
    hide Ratio, Off, OffRate;
    forall i | 1 <= i < t.stage
      ensures Off(Ratio(t.shares, now - t.start.value, rate), TOLERANCES[i]) <==> OffRate(t, now, rate, TOLERANCES[i])
    {
      OffIsOffRate(t, now, rate, TOLERANCES[i]);
    }
  }

  lemma ScaledShares(r: real, due: real, shares: real, diff: real)
    requires due > 0.0 && r * due == shares
    ensures (diff * r) * due == diff * shares
    ensures (diff * Max(r, 0.1)) * due == diff * Max(shares, 0.1 * due)
  {
    Compare(r, 0.1, due);
    assert (diff * r) * due == diff * (r * due);
    assert (diff * 0.1) * due == diff * (0.1 * due);
  }

  lemma BranchNeeds(t: Tracker, now: real, rate: Rate)
    requires t.stage < 7 && t.start.Some? && now > t.start.value
    ensures var v := Judge(t, now, rate);
      && (Retargets(v) <==> NeedsRetune(t, now, rate))
      && (Retargets(v) ==> (v.Lower? <==> ByFloor(t, now, rate)))
      && (v.Advance? <==> t.stage < 6 && WindowOver(t, now) && !NeedsRetune(t, now, rate))
  {
    hide Ratio, Off, OffRate, Breached, OffCleared;
    OffIsOffRate(t, now, rate, TOLERANCES[t.stage]);
    ClearedOff(t, now, rate);
  }

  lemma TickScales(t: Tracker, now: real, rate: Rate)
    requires t.stage < 7 && t.start.Some? && now > t.start.value
    requires Retargets(Judge(t, now, rate)) && (Judge(t, now, rate).Lower? <==> ByFloor(t, now, rate))
    ensures var u := Tick(t, now, rate);
      u == Tracker(None, t.shares, 0, u.minDiff) && Rescaled(t, u.minDiff, now, rate)
  {
    hide Ratio, Judge, Tick, Max, ByFloor, Due;
    var r, due, shares := Ratio(t.shares, now - t.start.value, rate), Due(t, now, rate), t.shares as real;
    SharesOverDue(t, now, rate);
    StepBounds(t, now, rate);
    ScaledShares(r, due, shares, t.minDiff);
    if ByFloor(t, now, rate) {
      assert Tick(t, now, rate).minDiff == t.minDiff * Max(r, 0.1);
    } else {
      assert Tick(t, now, rate).minDiff == t.minDiff * r;
    }
  }

  lemma TickMoves(t: Tracker, now: real, rate: Rate)
    requires t.stage < 7 && !Retargets(Judge(t, now, rate))
    ensures Tick(t, now, rate) == if Judge(t, now, rate).Advance? then t.(stage := t.stage + 1) else t
  {
  }

  lemma TickReviewed(t: Tracker, now: real, rate: Rate)
    requires t.stage < 7
    ensures Reviewed(t, Tick(t, now, rate), now, rate)
  {
    if t.start.Some? && now > t.start.value {
      BranchNeeds(t, now, rate);
      hide Judge, Tick, NeedsRetune, ByFloor, WindowOver, Rescaled;
      if Retargets(Judge(t, now, rate)) {
        TickScales(t, now, rate);
      } else {
        TickMoves(t, now, rate);
      }
    }
  }

  /** A tracker of the given state is started by the event, from no shares. */
  predicate Starts(t: Tracker, e: Event) {
    e.Assign? || (e.Resume? && t.start.None?)
  }

  /** The time of the last start in a run and the shares since then, given those before it. */
  ghost function Since(w: World, events: seq<Event>, rate: Rate, last: (real, nat)): (real, nat)
    requires Earned(w, rate)
    decreases |events|
  {
    if events == [] then last
    else
      StepEarned(w, events[0], rate);
      Since(Step(w, events[0], rate), events[1..], rate,
            if Starts(w.tracker, events[0]) then (w.clock, 0)
            else (last.0, last.1 + if events[0].Share? then 1 else 0))
  }

  lemma StepCounts(w: World, e: Event, rate: Rate, last: (real, nat))
    requires Earned(w, rate) && (w.tracker.start.Some? ==> (w.tracker.start.value, w.tracker.shares) == last)
    ensures var t := Step(w, e, rate).tracker;
      t.start.Some? ==>
        (t.start.value, t.shares) == if Starts(w.tracker, e) then (w.clock, 0)
                                     else (last.0, last.1 + if e.Share? then 1 else 0)
  {
    if e.Retarget? {
      TickReviewed(w.tracker, w.clock, rate);
    }
  }

  /** Whatever happened before, a running tracker counts the shares since its last start, from 0 on. */
  lemma {:induction false} CountsSinceStart(w: World, events: seq<Event>, rate: Rate, last: (real, nat))
    requires Earned(w, rate) && (w.tracker.start.Some? ==> (w.tracker.start.value, w.tracker.shares) == last)
    ensures var t := Run(w, events, rate).tracker;
      t.start.Some? ==> (t.start.value, t.shares) == Since(w, events, rate, last)
    decreases |events|
  {
    if events == [] {
    } else {
      var e := events[0];
      StepEarned(w, e, rate);
      StepCounts(w, e, rate, last);
      hide Step, Earned;
      CountsSinceStart(Step(w, e, rate), events[1..], rate,
                       if Starts(w.tracker, e) then (w.clock, 0)
                       else (last.0, last.1 + if e.Share? then 1 else 0));
    }
  }
}
