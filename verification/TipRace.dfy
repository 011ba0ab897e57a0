/** The lock-free stale check: any number of threads loading and compare-and-swapping the highest
    blue score seen, in any interleaving. */
module TipRace {
  const WORK_WINDOW: nat := 8

  /** Where a thread stands: about to load; about to swap, having loaded a lower tip; finished, having
      loaded the tip its verdict rests on. */
  datatype Phase = Loading | Swapping(seen: nat) | Current(seen: nat) | Stale(seen: nat)

  /** tipAtStart, retries and steps only observe the thread: the tip when it arrived, its failed
      swaps, and the atomic operations it has made. */
  datatype Thread = Thread(score: nat, phase: Phase, tipAtStart: nat, retries: nat, steps: nat)

  datatype Shared = Shared(tip: nat, published: seq<nat>, threads: seq<Thread>)

  /** A new share enters the check, or some thread makes its next atomic operation. */
  datatype Event = Arrive(score: nat) | Run(thread: nat)

  const INITIAL := Shared(0, [], [])

  function Next(s: Shared, i: nat): Shared
    requires i < |s.threads|
  {
    var t := s.threads[i].(steps := s.threads[i].steps + 1);
    match t.phase
    case Loading =>
      var phase := if t.score > s.tip then Swapping(s.tip)
                   else if s.tip - t.score > WORK_WINDOW then Stale(s.tip)
                   else Current(s.tip);
      s.(threads := s.threads[i := t.(phase := phase)])
    case Swapping(seen) =>
      if s.tip == seen then
        Shared(t.score, s.published + [t.score], s.threads[i := t.(phase := Current(seen))])
      else s.(threads := s.threads[i := t.(phase := Loading, retries := t.retries + 1)])
    case _ => s
  }

  function Step(s: Shared, e: Event): Shared {
    match e
    case Arrive(score) => s.(threads := s.threads + [Thread(score, Loading, s.tip, 0, 0)])
    case Run(i) => if i < |s.threads| then Next(s, i) else s
  }

  ghost function Reach(events: seq<Event>): Shared {
    if events == [] then INITIAL else Step(Reach(events[..|events| - 1]), events[|events| - 1])
  }

  ghost function Highest(s: seq<nat>): nat {
    if s == [] then 0
    else
      var before, last := Highest(s[..|s| - 1]), s[|s| - 1];
      if last > before then last else before
  }

  ghost predicate Sound(tip: nat, t: Thread) {
    && t.tipAtStart <= tip
    && (t.steps == if t.phase.Swapping? then 2 * t.retries + 1
                   else if t.phase.Loading? then 2 * t.retries else t.steps)
    && t.steps <= 2 * t.retries + 2
    && (t.retries > 0 ==> t.tipAtStart + t.retries <= t.score)
    && match t.phase
       case Loading => t.tipAtStart + t.retries <= tip
       case Swapping(seen) => t.tipAtStart + t.retries <= seen <= tip && seen < t.score
       case Current(seen) => t.score <= tip && seen <= tip && seen <= t.score + WORK_WINDOW
       case Stale(seen) => t.score + WORK_WINDOW < seen <= tip
  }

  ghost predicate Inv(s: Shared) {
    && s.tip == Highest(s.published)
    && forall i :: 0 <= i < |s.threads| ==> Sound(s.tip, s.threads[i])
  }

  lemma SoundLater(low: nat, high: nat, t: Thread)
    requires low <= high && Sound(low, t)
    ensures Sound(high, t)
  {
  }

  lemma StepKeepsInv(s: Shared, e: Event)
    requires Inv(s)
    ensures Inv(Step(s, e)) && s.tip <= Step(s, e).tip
  {
    var n := Step(s, e);
    if e.Run? && e.thread < |s.threads| {
      var t := s.threads[e.thread];
      assert Sound(s.tip, t);
      if t.phase.Swapping? && s.tip == t.phase.seen {
        assert n.published[..|n.published| - 1] == s.published;
        forall i | 0 <= i < |n.threads|
          ensures Sound(n.tip, n.threads[i])
        {
          if i != e.thread {
            SoundLater(s.tip, n.tip, s.threads[i]);
          }
        }
      }
    }
  }

  lemma {:induction false} AlwaysInv(events: seq<Event>)
    ensures Inv(Reach(events))
  {
    if events == [] {
    } else {
      AlwaysInv(events[..|events| - 1]);
      StepKeepsInv(Reach(events[..|events| - 1]), events[|events| - 1]);
    }
  }

  /** The tip only rises, whatever the interleaving, and is the highest score ever swapped in. */
  lemma {:induction false} TipRises(events: seq<Event>, more: seq<Event>)
    ensures Reach(events).tip <= Reach(events + more).tip
    ensures Reach(events).tip == Highest(Reach(events).published)
    decreases |more|
  {
    AlwaysInv(events);
    if more == [] {
      assert events + more == events;
    } else {
      var shorter, last := more[..|more| - 1], more[|more| - 1];
      TipRises(events, shorter);
      assert (events + more)[..|events + more| - 1] == events + shorter;
      AlwaysInv(events + shorter);
      StepKeepsInv(Reach(events + shorter), last);
    }
  }

  lemma {:induction false} VerdictStands(events: seq<Event>, more: seq<Event>, i: nat)
    requires i < |Reach(events).threads|
    ensures i < |Reach(events + more).threads|
    ensures var t := Reach(events).threads[i];
      t.phase.Stale? || t.phase.Current? ==> Reach(events + more).threads[i] == t
    decreases |more|
  {
    if more == [] {
      assert events + more == events;
    } else {
      var shorter := more[..|more| - 1];
      VerdictStands(events, shorter, i);
      assert (events + more)[..|events + more| - 1] == events + shorter;
    }
  }

  /** A stale verdict stays justified: at every later time the tip is more than 8 above the share. */
  lemma StaleForever(events: seq<Event>, more: seq<Event>, i: nat)
    requires i < |Reach(events).threads| && Reach(events).threads[i].phase.Stale?
    ensures i < |Reach(events + more).threads|
    ensures var s := Reach(events + more);
      s.threads[i] == Reach(events).threads[i] && s.tip > s.threads[i].score + 8
  {
    VerdictStands(events, more, i);
    AlwaysInv(events + more);
    assert Sound(Reach(events + more).tip, Reach(events + more).threads[i]);
  }

  /** A share let through was at most 8 behind the tip it loaded, and has since been reached by the
      tip: publishing a score never loses to an older one. */
  lemma CurrentReachesTip(events: seq<Event>, i: nat)
    requires i < |Reach(events).threads| && Reach(events).threads[i].phase.Current?
    ensures var t, tip := Reach(events).threads[i], Reach(events).tip;
      t.score <= tip && t.phase.seen <= tip && t.phase.seen <= t.score + 8
  {
    AlwaysInv(events);
    assert Sound(Reach(events).tip, Reach(events).threads[i]);
  }

  /** Retries end: each failed swap means the tip strictly rose, so a thread fails at most as often as
      its score was above the tip it started from, and makes at most two operations a try. */
  lemma RetriesBounded(events: seq<Event>, i: nat)
    requires i < |Reach(events).threads|
    ensures var t := Reach(events).threads[i];
      var room := if t.score > t.tipAtStart then t.score - t.tipAtStart else 0;
      && t.retries <= room
      && t.steps <= 2 * room + 2
      && (t.steps == 2 * room + 2 ==> t.phase.Current? || t.phase.Stale?)
  {
    AlwaysInv(events);
    assert Sound(Reach(events).tip, Reach(events).threads[i]);
  }

  /** And every time an unfinished thread runs, it does make one of those operations. */
  lemma RunningProgresses(events: seq<Event>, i: nat)
    requires i < |Reach(events).threads|
    requires var p := Reach(events).threads[i].phase; !p.Current? && !p.Stale?
    ensures i < |Reach(events + [Run(i)]).threads|
    ensures Reach(events + [Run(i)]).threads[i].steps == Reach(events).threads[i].steps + 1
  {
    assert (events + [Run(i)])[..|events|] == events;
  }
}
