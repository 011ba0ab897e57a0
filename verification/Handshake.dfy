/** The difficulty handshake of one client outside solo mode: every step of its block jobs, of the vardiff
    thread and of the SV2 channel opening, with any number of jobs in flight, in any interleaving. */
module Handshake {
  import opened Arithmetic
  import opened Wrappers
  import opened VarDiff

  /** Where a block job or a channel opening stands. The number beside a difficulty only observes: it says
      which decision of the controller, counting from 1, the difficulty is. */
  datatype Phase =
    | OpenInit | OpenSet | OpenRead | OpenTell(diff: real, n: nat)
    | Init | Set | Announce | Read | Compare(diff: real, n: nat)
    | Store(diff: real, n: nat) | Deliver(diff: real, n: nat) | Resume
    | Done

  datatype Told = Told(n: nat, diff: real)

  /** stratum is the client's current difficulty, 0 before it has one, and stratumNo the decision it is.
      decided lists what the controller has settled on; tried the decisions a write of which was attempted,
      sent those whose write went through, each in order. */
  datatype Client = Client(sv2: bool, connected: bool, initialized: bool, stratum: real, stratumNo: nat,
                           tracker: Tracker, clock: real, jobs: seq<Phase>,
                           decided: seq<real>, tried: seq<nat>, sent: seq<Told>)

  /** written is what the job's write, if its step is one, comes to. */
  datatype Event =
    | Passed(time: real)
    | Shared
    | Ticked
    | OpenChannel
    | Block
    | Advance(job: nat, written: bool)
    | Dropped

  function Connect(sv2: bool, clock: real): Client {
    Client(sv2, true, false, 0.0, 0, FRESH, clock, [], [], [], [])
  }

  function At(c: Client, i: nat, p: Phase): (d: Client)
    requires i < |c.jobs|
    ensures |d.jobs| == |c.jobs|
  {
    c.(jobs := c.jobs[i := p])
  }

  function Decided(c: Client, min: real): Client {
    c.(tracker := SetDiff(c.tracker, min, c.clock), decided := c.decided + [Max(min, SMALLEST_DIFF)])
  }

  function Initialized(c: Client, min: real): Client {
    if c.initialized then c else c.(initialized := true, stratum := min, stratumNo := 1)
  }

  function Tell(c: Client, n: nat, diff: real, written: bool): Client {
    c.(tried := c.tried + [n], sent := if written then c.sent + [Told(n, diff)] else c.sent)
  }

  /** One step of a job: what it changes, and the step that comes next. A failed V1 difficulty write is only
      logged; a failed SV2 write ends the connection. */
  function Effect(c: Client, p: Phase, written: bool, min: real): (r: (Client, Phase))
    ensures r.0.jobs == c.jobs
  {
    match p
    case OpenInit => (Initialized(c, min), OpenSet)
    case OpenSet => (Decided(c, min), OpenRead)
    case OpenRead =>
      var diff := if c.stratum <= 0.0 then min else c.stratum;
      (c.(stratum := diff), OpenTell(diff, c.stratumNo))
    case OpenTell(diff, n) => (if written then Tell(c, n, diff, true) else c.(connected := false), Done)
    case Init => (Initialized(c, min), if c.initialized then Read else Set)
    case Set => (Decided(c, min), if c.sv2 then Read else Announce)
    case Announce => (Tell(c, 1, min, written), Read)
    case Read => (c, Compare(c.tracker.minDiff, |c.decided|))
    case Compare(diff, n) => (c, if diff == 0.0 || diff == c.stratum then Done else Store(diff, n))
    case Store(diff, n) => (c.(stratum := diff, stratumNo := n), Deliver(diff, n))
    case Deliver(diff, n) =>
      if c.sv2 && !written then (c.(connected := false), Done) else (Tell(c, n, diff, written), Phase.Resume)
    case Resume => (c.(tracker := Restart(c.tracker, c.clock)), Done)
    case Done => (c, Done)
  }

  function JobStep(c: Client, i: nat, written: bool, min: real): (d: Client)
    requires i < |c.jobs|
    ensures |d.jobs| == |c.jobs|
  {
    var (d, next) := Effect(c, c.jobs[i], written, min);
    At(d, i, next)
  }

  function TickClient(c: Client, rate: Rate): Client {
    // The stage is below 7 in every run (VarDiff.StagesAreEarned).
    if c.tracker.stage >= 7 then c
    else
      var next := Tick(c.tracker, c.clock, rate);
      c.(tracker := next,
         decided := if Retargets(VarDiff.Judge(c.tracker, c.clock, rate)) then c.decided + [next.minDiff]
                    else c.decided)
  }

  function Step(c: Client, e: Event, min: real, rate: Rate): Client {
    match e
    case Passed(time) => c.(clock := c.clock + Abs(time))
    case Shared => c.(tracker := c.tracker.(shares := c.tracker.shares + 1))
    case Ticked => TickClient(c, rate)
    case OpenChannel => if c.sv2 && c.connected then c.(jobs := c.jobs + [OpenInit]) else c
    case Block => if c.connected && (c.sv2 ==> c.initialized) then c.(jobs := c.jobs + [Init]) else c
    case Advance(job, written) => if job < |c.jobs| then JobStep(c, job, written, min) else c
    case Dropped => c.(connected := false)
  }

  ghost function Run(c: Client, events: seq<Event>, min: real, rate: Rate): Client {
    if events == [] then c
    else Step(Run(c, events[..|events| - 1], min, rate), events[|events| - 1], min, rate)
  }

  // ---------------------------------------------------------------- the conditions

  /** The retarget pass that leaves the difficulty unchanged; see VarDiff.SilentRetarget. */
  predicate Silent(t: Tracker, now: real, rate: Rate) {
    t.start.Some? && now > t.start.value && t.stage < 6 && OnRate(t, now, rate) && Capped(t, rate)
  }

  ghost predicate OtherStores(jobs: seq<Phase>, i: nat) {
    exists j :: 0 <= j < |jobs| && j != i && jobs[j].Store?
  }

  ghost predicate OtherReads(jobs: seq<Phase>, i: nat) {
    exists j :: 0 <= j < |jobs| && j != i && jobs[j].OpenRead?
  }

  ghost predicate OtherTells(jobs: seq<Phase>, i: nat) {
    exists j :: 0 <= j < |jobs| && j != i && (jobs[j].Announce? || jobs[j].OpenTell?)
  }

  /** Two jobs get in each other's way: one is about to change the difficulty after the controller has
      decided anew, or while another is about to change it too; or one changes or delivers it while the
      first contact has still to read or tell its own. */
  ghost predicate Clash(c: Client, e: Event) {
    && e.Advance? && e.job < |c.jobs|
    && match c.jobs[e.job]
       case Compare(diff, n) =>
         diff != 0.0 && diff != c.stratum && (n < |c.decided| || OtherStores(c.jobs, e.job))
       case Store(_, _) => OtherReads(c.jobs, e.job)
       case Deliver(_, _) => OtherTells(c.jobs, e.job)
       case _ => false
  }

  /** An SV2 miner opens another channel. */
  predicate Reopens(c: Client, e: Event) {
    e.OpenChannel? && c.sv2 && c.jobs != []
  }

  /** A difficulty write to a V1 client that does not go through. */
  predicate Lost(c: Client, e: Event) {
    e.Advance? && !e.written && e.job < |c.jobs| &&
    (c.jobs[e.job].Announce? || (c.jobs[e.job].Deliver? && !c.sv2))
  }

  ghost predicate OpensOnce(c: Client, events: seq<Event>, min: real, rate: Rate) {
    forall i :: 0 <= i < |events| ==> !Reopens(Run(c, events[..i], min, rate), events[i])
  }

  ghost predicate NoClash(c: Client, events: seq<Event>, min: real, rate: Rate) {
    forall i :: 0 <= i < |events| ==> !Clash(Run(c, events[..i], min, rate), events[i])
  }

  ghost predicate Quiet(c: Client, e: Event, rate: Rate) {
    !e.Ticked? || !Silent(c.tracker, c.clock, rate)
  }

  ghost predicate NoSilence(c: Client, events: seq<Event>, min: real, rate: Rate) {
    forall i :: 0 <= i < |events| ==> Quiet(Run(c, events[..i], min, rate), events[i], rate)
  }

  ghost predicate NoneLost(c: Client, events: seq<Event>, min: real, rate: Rate) {
    forall i :: 0 <= i < |events| ==> !Lost(Run(c, events[..i], min, rate), events[i])
  }

  // ---------------------------------------------------------------- the promise

  ghost predicate AtRest(c: Client) {
    c.connected && c.initialized && forall i :: 0 <= i < |c.jobs| ==> c.jobs[i] == Done
  }

  /** The decisions 1, 2, 3 and so on, each once. */
  ghost predicate Ordered(tried: seq<nat>) {
    forall x :: 0 <= x < |tried| ==> tried[x] == x + 1
  }

  /** Tracking at the client's difficulty, a write of every decision having been tried once, in order; or
      paused with exactly one different difficulty still to deliver. */
  ghost predicate InStep(c: Client) {
    && Ordered(c.tried)
    && if c.tracker.start.Some? then c.tracker.minDiff == c.stratum && |c.tried| == |c.decided|
       else c.tracker.minDiff != c.stratum && |c.tried| + 1 == |c.decided|
  }

  /** The client was told the first m decisions, in order and once each. */
  ghost predicate ToldFirst(c: Client, m: nat)
    requires m <= |c.decided|
  {
    |c.sent| == m && forall x :: 0 <= x < m ==> c.sent[x] == Told(x + 1, c.decided[x])
  }

  /** Tracking at the difficulty the client has, everything decided having been told; or paused with exactly
      one different difficulty still to tell. */
  ghost predicate Settled(c: Client) {
    && c.tracker.minDiff > 0.0
    && if c.tracker.start.Some? then c.tracker.minDiff == c.stratum && ToldFirst(c, |c.decided|)
       else c.tracker.minDiff != c.stratum && c.decided != [] && c.tracker.minDiff == c.decided[|c.decided| - 1]
            && ToldFirst(c, |c.decided| - 1)
  }

  // ---------------------------------------------------------------- what clash-free runs keep

  predicate Busy(p: Phase) {
    p.Store? || p.Deliver? || p.Resume?
  }

  predicate First(p: Phase) {
    p.OpenInit? || p.OpenSet? || p.OpenRead? || p.OpenTell? || p.Set? || p.Announce?
  }

  /** b is the one busy job, -1 when there is none. */
  ghost predicate OnlyBusy(jobs: seq<Phase>, b: int) {
    && -1 <= b < |jobs| && (b >= 0 ==> Busy(jobs[b]))
    && forall i :: 0 <= i < |jobs| && i != b ==> !Busy(jobs[i])
  }

  /** f is the one job of first contact, -1 when there is none. */
  ghost predicate OnlyFirst(jobs: seq<Phase>, f: int) {
    && -1 <= f < |jobs| && (f >= 0 ==> First(jobs[f]))
    && forall i :: 0 <= i < |jobs| && i != f ==> !First(jobs[i])
  }

  /** A job remembers a decision that was really taken. */
  ghost predicate Remembers(p: Phase, decided: seq<real>) {
    p.Compare? ==> p.n <= |decided| && (if p.n == 0 then p.diff == 0.0 else p.diff == decided[p.n - 1])
  }

  ghost predicate Places(jobs: seq<Phase>, decided: seq<real>, b: int, f: int) {
    && OnlyBusy(jobs, b) && OnlyFirst(jobs, f)
    && forall i :: 0 <= i < |jobs| ==> Remembers(jobs[i], decided)
  }

  function PhaseAt(jobs: seq<Phase>, b: int): Phase
    requires -1 <= b < |jobs|
  {
    if b < 0 then Done else jobs[b]
  }

  /** What was told is the decision it is said to be. */
  ghost predicate TrueTo(t: Told, decided: seq<real>) {
    1 <= t.n <= |decided| && t.diff == decided[t.n - 1]
  }

  ghost predicate Decisions(c: Client) {
    && (forall x :: 0 <= x < |c.decided| ==> c.decided[x] > 0.0)
    && (if c.decided == [] then c.tracker.start.None? && c.tracker.minDiff == 0.0
        else c.tracker.minDiff == c.decided[|c.decided| - 1])
    && Ordered(c.tried) && |c.tried| <= |c.decided| && |c.sent| <= |c.tried|
    && (forall x :: 0 <= x < |c.sent| ==> TrueTo(c.sent[x], c.decided))
    && (|c.sent| == |c.tried| ==> forall x :: 0 <= x < |c.sent| ==> c.sent[x].n == x + 1)
  }

  /** First contact: pf is its step, Done once it is over. */
  ghost predicate Contact(c: Client, pf: Phase, min: real) {
    if !c.initialized then
      c.decided == [] && if c.sv2 then (if pf.Done? then c.jobs == [] else c.jobs == [OpenInit]) else pf.Done?
    else if c.jobs == [] then false
    else if c.decided == [] then
      c.stratum == min && c.stratumNo == 1 && (if c.sv2 then pf.OpenSet? else pf.Set?)
    else
      && 1 <= c.stratumNo <= |c.decided| && c.stratum == c.decided[c.stratumNo - 1]
      && match pf
         case Done => c.tried != []
         case OpenRead => c.sv2 && c.stratumNo == 1 && c.tried == []
         case OpenTell(diff, n) => c.sv2 && n == 1 && diff == c.decided[0] && c.tried == []
         case Announce => !c.sv2 && c.decided[0] == min && c.tried == []
         case _ => false
  }

  function OneIf(b: bool): nat {
    if b then 1 else 0
  }

  /** How far delivery is: pb is the step of the job that changes the difficulty, Done when there is none. */
  ghost predicate Progress(c: Client, pb: Phase, contacting: bool) {
    c.decided != [] ==>
      var k, reached := |c.decided|, |c.tried| + OneIf(contacting);
      match pb
      case Done =>
        if c.tracker.start.Some? then c.stratumNo == k && reached == k
        else c.stratumNo + 1 == k && reached + 1 == k
      case Store(diff, n) =>
        && n == k && diff == c.tracker.minDiff != c.stratum && c.tracker.start.None?
        && c.stratumNo + 1 == k && reached + 1 == k
      case Deliver(diff, n) =>
        n == k && diff == c.tracker.minDiff && c.tracker.start.None? && c.stratumNo == k && reached + 1 == k
      case Resume => c.tracker.start.None? && c.stratumNo == k && reached == k && !contacting
      case _ => false
  }

  ghost predicate Inv(c: Client, min: real, rate: Rate, b: int, f: int) {
    && Earned(World(c.clock, c.tracker), rate)
    && Places(c.jobs, c.decided, b, f)
    && Decisions(c)
    && Contact(c, PhaseAt(c.jobs, f), min)
    && (c.decided == [] ==> b == -1)
    && Progress(c, PhaseAt(c.jobs, b), f >= 0)
  }

  /** Paused at the very difficulty the client has, and nothing under way to change that. */
  ghost predicate Stuck(c: Client) {
    && c.initialized && c.decided != [] && c.tracker.start.None?
    && c.stratumNo < |c.decided| && c.tracker.minDiff == c.stratum
  }

  // ---------------------------------------------------------------- every clash-free step keeps it

  lemma PlacesSet(jobs: seq<Phase>, decided: seq<real>, b: int, f: int, i: nat, p: Phase)
    requires Places(jobs, decided, b, f) && i < |jobs| && Remembers(p, decided)
    requires (Busy(p) ==> b == -1 || b == i) && (First(p) ==> f == -1 || f == i)
    ensures Places(jobs[i := p], decided, if Busy(p) then i else if b == i then -1 else b,
                   if First(p) then i else if f == i then -1 else f)
  {
  }

  lemma PlacesAdd(jobs: seq<Phase>, decided: seq<real>, b: int, f: int, p: Phase)
    requires Places(jobs, decided, b, f) && (p == Init || (p == OpenInit && f == -1))
    ensures Places(jobs + [p], decided, b, if p == Init then f else |jobs|)
  {
  }

  lemma PlacesDecide(jobs: seq<Phase>, decided: seq<real>, x: real, b: int, f: int)
    requires Places(jobs, decided, b, f)
    ensures Places(jobs, decided + [x], b, f)
  {
  }

  lemma EarnedMove(c: Client, d: Client, e: VarDiff.Event, rate: Rate)
    requires Earned(World(c.clock, c.tracker), rate)
    requires World(d.clock, d.tracker) == VarDiff.Step(World(c.clock, c.tracker), e, rate)
    ensures Earned(World(d.clock, d.tracker), rate)
  {
    hide Earned, VarDiff.Step;
    StageLegal(World(c.clock, c.tracker), rate);
    StepEarned(World(c.clock, c.tracker), e, rate);
  }

  lemma StageLegal(w: World, rate: Rate)
    requires Earned(w, rate)
    ensures w.tracker.stage < 7
  {
  }

  /** The new places after job i of a state moved to p. */
  function NewBusy(b: int, i: nat, p: Phase): int {
    if Busy(p) then i else if b == i then -1 else b
  }

  function NewFirst(f: int, i: nat, p: Phase): int {
    if First(p) then i else if f == i then -1 else f
  }

  lemma OnlyPlace(c: Client, i: nat, b: int, f: int)
    requires Places(c.jobs, c.decided, b, f) && i < |c.jobs|
    ensures Busy(c.jobs[i]) ==> b == i
    ensures First(c.jobs[i]) ==> f == i
    ensures -1 <= b < |c.jobs| && -1 <= f < |c.jobs| && Remembers(c.jobs[i], c.decided)
    ensures f >= 0 <==> First(PhaseAt(c.jobs, f))
    ensures b >= 0 <==> Busy(PhaseAt(c.jobs, b))
  {
  }

  ghost predicate Kept(c: Client, i: nat, written: bool, min: real, rate: Rate, b: int, f: int)
    requires i < |c.jobs|
  {
    var d := JobStep(c, i, written, min);
    d.connected ==> Inv(d, min, rate, NewBusy(b, i, d.jobs[i]), NewFirst(f, i, d.jobs[i]))
  }

  lemma OpeningKeeps(c: Client, i: nat, written: bool, min: real, rate: Rate, b: int, f: int)
    requires min >= 0.0001 && Inv(c, min, rate, b, f) && i < |c.jobs|
    requires c.jobs[i].OpenInit? || c.jobs[i].OpenRead? || c.jobs[i].OpenTell?
    ensures Kept(c, i, written, min, rate, b, f)
  {
    hide Earned, Places;
    OnlyPlace(c, i, b, f);
    PlacesSet(c.jobs, c.decided, b, f, i, JobStep(c, i, written, min).jobs[i]);
  }

  lemma DecidingKeeps(c: Client, i: nat, written: bool, min: real, rate: Rate, b: int, f: int)
    requires min >= 0.0001 && Inv(c, min, rate, b, f) && i < |c.jobs| && (c.jobs[i].OpenSet? || c.jobs[i].Set?)
    ensures Kept(c, i, written, min, rate, b, f)
  {
    hide Earned, Places;
    OnlyPlace(c, i, b, f);
    var d := JobStep(c, i, written, min);
    EarnedMove(c, d, Assign(min), rate);
    PlacesDecide(c.jobs, c.decided, min, b, f);
    PlacesSet(c.jobs, d.decided, b, f, i, d.jobs[i]);
  }

  lemma InitKeeps(c: Client, i: nat, written: bool, min: real, rate: Rate, b: int, f: int)
    requires min >= 0.0001 && Inv(c, min, rate, b, f) && i < |c.jobs| && c.jobs[i].Init?
    ensures Kept(c, i, written, min, rate, b, f)
  {
    hide Earned, Places;
    OnlyPlace(c, i, b, f);
    PlacesSet(c.jobs, c.decided, b, f, i, if c.initialized then Read else Set);
  }

  lemma ReadKeeps(c: Client, i: nat, written: bool, min: real, rate: Rate, b: int, f: int)
    requires Inv(c, min, rate, b, f) && i < |c.jobs| && c.jobs[i].Read?
    ensures Kept(c, i, written, min, rate, b, f)
  {
    hide Earned, Places;
    OnlyPlace(c, i, b, f);
    PlacesSet(c.jobs, c.decided, b, f, i, Compare(c.tracker.minDiff, |c.decided|));
  }

  lemma AnnounceKeeps(c: Client, i: nat, written: bool, min: real, rate: Rate, b: int, f: int)
    requires min >= 0.0001 && Inv(c, min, rate, b, f) && i < |c.jobs| && c.jobs[i].Announce?
    ensures Kept(c, i, written, min, rate, b, f)
  {
    hide Earned, Places;
    OnlyPlace(c, i, b, f);
    PlacesSet(c.jobs, c.decided, b, f, i, Read);
  }

  /** A job ends that has found no new difficulty. */
  lemma CompareEnds(c: Client, i: nat, min: real, rate: Rate, b: int, f: int)
    requires Inv(c, min, rate, b, f) && i < |c.jobs| && c.jobs[i].Compare?
    ensures Inv(At(c, i, Done), min, rate, NewBusy(b, i, Done), NewFirst(f, i, Done))
  {
    hide Earned, Places;
    OnlyPlace(c, i, b, f);
    PlacesSet(c.jobs, c.decided, b, f, i, Done);
  }

  lemma StoringElsewhere(jobs: seq<Phase>, i: nat, b: int)
    ensures 0 <= b < |jobs| && b != i && jobs[b].Store? ==> OtherStores(jobs, i)
  {
  }

  /** Without a clash, what a job is to store is the pending decision, and no other job is busy. */
  lemma StoresPending(c: Client, i: nat, min: real, rate: Rate, b: int, f: int)
    requires Inv(c, min, rate, b, f) && i < |c.jobs| && c.jobs[i].Compare?
    requires c.jobs[i].diff != 0.0 && c.jobs[i].diff != c.stratum
    requires c.jobs[i].n >= |c.decided| && !OtherStores(c.jobs, i)
    ensures b == -1 && c.initialized && c.tracker.start.None? && c.decided != []
    ensures c.jobs[i].n == |c.decided| == c.stratumNo + 1 && c.jobs[i].diff == c.tracker.minDiff
  {
    hide Earned, Places;
    StoringElsewhere(c.jobs, i, b);
    OnlyPlace(c, i, b, f);
  }

  lemma CompareStores(c: Client, i: nat, min: real, rate: Rate, b: int, f: int)
    requires Inv(c, min, rate, b, f) && i < |c.jobs| && c.jobs[i].Compare?
    requires c.jobs[i].diff != 0.0 && c.jobs[i].diff != c.stratum
    requires c.jobs[i].n >= |c.decided| && !OtherStores(c.jobs, i)
    ensures var p := Store(c.jobs[i].diff, c.jobs[i].n);
      Inv(At(c, i, p), min, rate, NewBusy(b, i, p), NewFirst(f, i, p))
  {
    StoresPending(c, i, min, rate, b, f);
    hide Earned, Places, OtherStores;
    OnlyPlace(c, i, b, f);
    PlacesSet(c.jobs, c.decided, b, f, i, Store(c.jobs[i].diff, c.jobs[i].n));
  }

  lemma CompareKeeps(c: Client, i: nat, written: bool, min: real, rate: Rate, b: int, f: int)
    requires min >= 0.0001 && Inv(c, min, rate, b, f) && i < |c.jobs| && c.jobs[i].Compare?
    requires !Clash(c, Event.Advance(i, written))
    ensures Kept(c, i, written, min, rate, b, f)
  {
    hide Inv, OtherStores;
    if c.jobs[i].diff == 0.0 || c.jobs[i].diff == c.stratum {
      CompareEnds(c, i, min, rate, b, f);
    } else {
      CompareStores(c, i, min, rate, b, f);
    }
  }

  lemma StoreKeeps(c: Client, i: nat, written: bool, min: real, rate: Rate, b: int, f: int)
    requires min >= 0.0001 && Inv(c, min, rate, b, f) && i < |c.jobs| && c.jobs[i].Store?
    requires !Clash(c, Event.Advance(i, written))
    ensures Kept(c, i, written, min, rate, b, f)
  {
    hide Earned, Places;
    OnlyPlace(c, i, b, f);
    assert f == -1 || !c.jobs[f].OpenRead?;
    PlacesSet(c.jobs, c.decided, b, f, i, JobStep(c, i, written, min).jobs[i]);
  }

  lemma DeliverKeeps(c: Client, i: nat, written: bool, min: real, rate: Rate, b: int, f: int)
    requires min >= 0.0001 && Inv(c, min, rate, b, f) && i < |c.jobs| && c.jobs[i].Deliver?
    requires !Clash(c, Event.Advance(i, written))
    ensures Kept(c, i, written, min, rate, b, f)
  {
    hide Earned, Places;
    OnlyPlace(c, i, b, f);
    PlacesSet(c.jobs, c.decided, b, f, i, JobStep(c, i, written, min).jobs[i]);
  }

  lemma ResumeKeeps(c: Client, i: nat, written: bool, min: real, rate: Rate, b: int, f: int)
    requires min >= 0.0001 && Inv(c, min, rate, b, f) && i < |c.jobs| && c.jobs[i].Resume?
    ensures Kept(c, i, written, min, rate, b, f)
  {
    hide Earned, Places;
    OnlyPlace(c, i, b, f);
    var d := JobStep(c, i, written, min);
    EarnedMove(c, d, VarDiff.Resume, rate);
    PlacesSet(c.jobs, c.decided, b, f, i, Done);
  }

  lemma DoneKeeps(c: Client, i: nat, written: bool, min: real, rate: Rate, b: int, f: int)
    requires Inv(c, min, rate, b, f) && i < |c.jobs| && c.jobs[i].Done?
    ensures Kept(c, i, written, min, rate, b, f)
  {
    hide Earned, Decisions, Contact, Progress;
    assert b != i && f != i;
    assert c.jobs[i := Done] == c.jobs;
  }

  lemma JobKeeps(c: Client, i: nat, written: bool, min: real, rate: Rate, b: int, f: int)
    requires min >= 0.0001 && Inv(c, min, rate, b, f) && i < |c.jobs| && !Clash(c, Event.Advance(i, written))
    ensures Kept(c, i, written, min, rate, b, f)
  {
    hide Inv, Clash, Kept;
    match c.jobs[i] {
      case OpenInit => OpeningKeeps(c, i, written, min, rate, b, f);
      case OpenRead => OpeningKeeps(c, i, written, min, rate, b, f);
      case OpenTell(_, _) => OpeningKeeps(c, i, written, min, rate, b, f);
      case OpenSet => DecidingKeeps(c, i, written, min, rate, b, f);
      case Set => DecidingKeeps(c, i, written, min, rate, b, f);
      case Init => InitKeeps(c, i, written, min, rate, b, f);
      case Read => ReadKeeps(c, i, written, min, rate, b, f);
      case Announce => AnnounceKeeps(c, i, written, min, rate, b, f);
      case Compare(_, _) => CompareKeeps(c, i, written, min, rate, b, f);
      case Store(_, _) => StoreKeeps(c, i, written, min, rate, b, f);
      case Deliver(_, _) => DeliverKeeps(c, i, written, min, rate, b, f);
      case Resume => ResumeKeeps(c, i, written, min, rate, b, f);
      case Done => DoneKeeps(c, i, written, min, rate, b, f);
    }
  }

  /** A retarget pass, seen from the handshake: nothing; or a pause at a new positive difficulty, which is the
      old one exactly when the pass is silent. */
  ghost predicate Passes(t: Tracker, u: Tracker, retargets: bool, silent: bool) {
    && (silent ==> retargets)
    && if retargets then
         t.start.Some? && u.start.None? && u.minDiff > 0.0 && (u.minDiff == t.minDiff <==> silent)
       else u.minDiff == t.minDiff && u.start == t.start
  }

  lemma TickEffect(w: World, rate: Rate)
    requires Earned(w, rate) && (w.tracker.start.Some? ==> w.tracker.minDiff > 0.0)
    ensures Passes(w.tracker, Tick(w.tracker, w.clock, rate), Retargets(VarDiff.Judge(w.tracker, w.clock, rate)),
                   Silent(w.tracker, w.clock, rate))
  {
    hide Branch, Quota, Ratio, Capped, OnRate;
    var t := w.tracker;
    if t.start.Some? && w.clock > t.start.value {
      SilentRetarget(t, w.clock, rate);
      if Retargets(VarDiff.Judge(t, w.clock, rate)) {
        TickKeepsSign(w, rate);
      }
    }
  }

  /** Paused at the difficulty the client has only after a silent pass; otherwise a pass leaves a clash-free
      client with at most one new decision pending. */
  lemma TickKeeps(c: Client, min: real, rate: Rate, b: int, f: int)
    requires Inv(c, min, rate, b, f)
    ensures Inv(TickClient(c, rate), min, rate, b, f)
    ensures Stuck(TickClient(c, rate)) <==> Stuck(c) || Silent(c.tracker, c.clock, rate)
  {
    hide VarDiff.Judge, Tick, Earned, Silent, Places;
    var d := TickClient(c, rate);
    StageLegal(World(c.clock, c.tracker), rate);
    EarnedMove(c, d, Retarget, rate);
    TickEffect(World(c.clock, c.tracker), rate);
    PlacesDecide(c.jobs, c.decided, d.tracker.minDiff, b, f);
  }

  lemma PlaceBounds(c: Client, b: int, f: int)
    requires Places(c.jobs, c.decided, b, f)
    ensures -1 <= b < |c.jobs| && -1 <= f < |c.jobs|
  {
  }

  lemma OpenKeeps(c: Client, min: real, rate: Rate, b: int, f: int)
    requires c.connected && Inv(c, min, rate, b, f) && c.sv2 && c.jobs == []
    ensures Inv(c.(jobs := [OpenInit]), min, rate, -1, 0)
  {
    hide Earned;
    PlaceBounds(c, b, f);
  }

  lemma BlockKeeps(c: Client, min: real, rate: Rate, b: int, f: int)
    requires c.connected && Inv(c, min, rate, b, f) && (c.sv2 ==> c.initialized)
    ensures Inv(c.(jobs := c.jobs + [Init]), min, rate, b, f)
  {
    hide Earned, Places;
    PlaceBounds(c, b, f);
    PlacesAdd(c.jobs, c.decided, b, f, Init);
  }

  lemma ClockKeeps(c: Client, d: Client, e: VarDiff.Event, min: real, rate: Rate, b: int, f: int)
    requires Inv(c, min, rate, b, f) && (e.Passed? || e.Share?)
    requires World(d.clock, d.tracker) == VarDiff.Step(World(c.clock, c.tracker), e, rate)
    requires d == c.(clock := d.clock, tracker := d.tracker)
    ensures Inv(d, min, rate, b, f) && (Stuck(d) <==> Stuck(c))
  {
    hide Earned, Places;
    EarnedMove(c, d, e, rate);
  }

  lemma OthersKeep(c: Client, e: Event, min: real, rate: Rate, b: int, f: int) returns (g: int)
    requires c.connected && Inv(c, min, rate, b, f) && !e.Ticked? && !e.Advance? && !e.Dropped? && !Reopens(c, e)
    ensures var d := Step(c, e, min, rate); Inv(d, min, rate, b, g) && (Stuck(d) <==> Stuck(c))
  {
    g := f;
    PlaceBounds(c, b, f);
    StageLegal(World(c.clock, c.tracker), rate);
    hide Inv;
    match e
    case Passed(time) => ClockKeeps(c, Step(c, e, min, rate), VarDiff.Passed(time), min, rate, b, f);
    case Shared => ClockKeeps(c, Step(c, e, min, rate), VarDiff.Share, min, rate, b, f);
    case OpenChannel =>
      if c.sv2 {
        g := 0;
        assert c.jobs + [OpenInit] == [OpenInit];
        OpenKeeps(c, min, rate, b, f);
      }
    case Block =>
      if c.sv2 ==> c.initialized {
        BlockKeeps(c, min, rate, b, f);
      }
  }

  /** Stuck comes from silent passes only, and a clash-free job does not undo it. */
  lemma JobKeepsStuck(c: Client, i: nat, written: bool, min: real, rate: Rate, b: int, f: int)
    requires Inv(c, min, rate, b, f) && i < |c.jobs| && !Clash(c, Event.Advance(i, written))
    ensures Stuck(JobStep(c, i, written, min)) <==> Stuck(c)
  {
    hide Earned, Places;
    OnlyPlace(c, i, b, f);
  }

  // ---------------------------------------------------------------- a clash is never made good

  /** The decision a job is bound to try to deliver. */
  function Carried(p: Phase): Option<nat> {
    match p
    case Store(_, n) => Some(n)
    case Deliver(_, n) => Some(n)
    case OpenTell(_, n) => Some(n)
    case Announce => Some(1)
    case _ => None
  }

  ghost predicate CarriedAgain(c: Client, i: nat) {
    i < |c.jobs| && Carried(c.jobs[i]).Some? && Carried(c.jobs[i]).value in c.tried
  }

  ghost predicate CarriedTwice(c: Client, i: nat, j: nat) {
    i < j < |c.jobs| && Carried(c.jobs[i]).Some? && Carried(c.jobs[i]) == Carried(c.jobs[j])
  }

  predicate Opening(p: Phase) {
    p.OpenInit? || p.OpenSet? || p.OpenRead?
  }

  /** A channel opening will read a decision that was tried already or that another job carries; or another
      channel is being opened, which will read what this one reads. */
  ghost predicate ReadAgain(c: Client, i: nat, j: nat) {
    && i < |c.jobs| && Opening(c.jobs[i])
    && ((c.initialized && c.stratumNo in c.tried)
        || (c.initialized && j < |c.jobs| && Carried(c.jobs[j]) == Some(c.stratumNo))
        || (i != j && j < |c.jobs| && Opening(c.jobs[j])))
  }

  /** Until first contact a client's jobs have not got beyond their first step. */
  ghost predicate Entering(c: Client) {
    !c.initialized ==> forall i :: 0 <= i < |c.jobs| ==> c.jobs[i].OpenInit? || c.jobs[i].Init?
  }

  /** Some decision has been tried out of order, or will have been tried twice. */
  ghost predicate Doomed(c: Client) {
    || !Ordered(c.tried)
    || (exists i :: CarriedAgain(c, i))
    || (exists i, j :: CarriedTwice(c, i, j))
    || (exists i, j :: ReadAgain(c, i, j))
  }

  lemma TriedTwice(c: Client, n: nat)
    requires n in c.tried
    ensures !Ordered(c.tried + [n])
  {
    var x :| 0 <= x < |c.tried| && c.tried[x] == n;
    assert (c.tried + [n])[x] == n && (c.tried + [n])[|c.tried|] == n;
  }

  lemma OrderLost(tried: seq<nat>, n: nat)
    requires !Ordered(tried)
    ensures !Ordered(tried + [n])
  {
    var x :| 0 <= x < |tried| && tried[x] != x + 1;
    assert (tried + [n])[x] == tried[x];
  }

  /** What one step does to the job that makes it: what it carries it keeps or tries. */
  lemma CarriedMoves(c: Client, i: nat, written: bool, min: real)
    requires i < |c.jobs| && JobStep(c, i, written, min).connected && Carried(c.jobs[i]).Some?
    ensures var d, n := JobStep(c, i, written, min), Carried(c.jobs[i]).value;
      d.tried == c.tried + [n] || (d.tried == c.tried && Carried(d.jobs[i]) == Some(n))
  {
  }

  lemma OtherJobsStay(c: Client, i: nat, written: bool, min: real)
    requires i < |c.jobs|
    ensures |JobStep(c, i, written, min).jobs| == |c.jobs|
    ensures forall k :: 0 <= k < |c.jobs| && k != i ==> JobStep(c, i, written, min).jobs[k] == c.jobs[k]
  {
    hide Effect;
  }

  lemma TriedGrows(c: Client, i: nat, written: bool, min: real)
    requires i < |c.jobs|
    ensures var d := JobStep(c, i, written, min); d.tried != c.tried ==> exists n :: d.tried == c.tried + [n]
  {
    match c.jobs[i]
    case OpenTell(_, n) => assert c.tried + [n] == c.tried + [n];
    case Announce => assert c.tried + [1] == c.tried + [1];
    case Deliver(_, n) => assert c.tried + [n] == c.tried + [n];
    case _ =>
  }

  lemma JobEffect(c: Client, i: nat, written: bool, min: real)
    requires i < |c.jobs|
    ensures var d := JobStep(c, i, written, min);
      && |d.jobs| == |c.jobs| && (forall k :: 0 <= k < |c.jobs| && k != i ==> d.jobs[k] == c.jobs[k])
      && (d.tried != c.tried ==> exists n :: d.tried == c.tried + [n])
      && (d.stratumNo == c.stratumNo || c.jobs[i].Store? || !c.initialized)
  {
    OtherJobsStay(c, i, written, min);
    TriedGrows(c, i, written, min);
    assert JobStep(c, i, written, min).stratumNo == c.stratumNo || c.jobs[i].Store? || !c.initialized;
    hide JobStep;
  }

  lemma OrderStaysLost(c: Client, i: nat, written: bool, min: real)
    requires i < |c.jobs| && !Ordered(c.tried)
    ensures Doomed(JobStep(c, i, written, min))
  {
    JobEffect(c, i, written, min);
    var d := JobStep(c, i, written, min);
    if d.tried != c.tried {
      var n :| d.tried == c.tried + [n];
      OrderLost(c.tried, n);
    }
  }

  lemma AgainStays(c: Client, k: nat, i: nat, written: bool, min: real)
    requires i < |c.jobs| && CarriedAgain(c, k) && JobStep(c, i, written, min).connected
    ensures Doomed(JobStep(c, i, written, min))
  {
    JobEffect(c, i, written, min);
    var d := JobStep(c, i, written, min);
    var n := Carried(c.jobs[k]).value;
    hide JobStep, Carried;
    if k == i {
      CarriedMoves(c, i, written, min);
      if d.tried == c.tried + [n] {
        TriedTwice(c, n);
      } else {
        assert CarriedAgain(d, k);
      }
    } else {
      assert CarriedAgain(d, k);
    }
  }

  lemma TwiceStays(c: Client, k: nat, l: nat, i: nat, written: bool, min: real)
    requires i < |c.jobs| && CarriedTwice(c, k, l) && JobStep(c, i, written, min).connected
    ensures Doomed(JobStep(c, i, written, min))
  {
    JobEffect(c, i, written, min);
    var d := JobStep(c, i, written, min);
    var n := Carried(c.jobs[k]).value;
    hide JobStep, Carried;
    if k == i || l == i {
      CarriedMoves(c, i, written, min);
      if d.tried == c.tried + [n] {
        assert d.tried[|c.tried|] == n;
        assert CarriedAgain(d, if k == i then l else k);
      } else {
        assert CarriedTwice(d, k, l);
      }
    } else {
      assert CarriedTwice(d, k, l);
    }
  }

  /** What a step does to a channel opening and to what the client stands at. */
  lemma OpeningMoves(c: Client, i: nat, written: bool, min: real)
    requires i < |c.jobs| && Entering(c)
    ensures var d := JobStep(c, i, written, min);
      && (Opening(c.jobs[i]) ==> d.initialized && d.tried == c.tried)
      && (c.initialized ==> d.initialized)
      && (c.jobs[i].OpenInit? || c.jobs[i].OpenSet? ==> Opening(d.jobs[i]))
      && (c.jobs[i].OpenRead? ==> Carried(d.jobs[i]) == Some(c.stratumNo))
      && (c.jobs[i].Store? ==> c.initialized && Carried(d.jobs[i]) == Some(d.stratumNo))
      && (c.initialized && !c.jobs[i].Store? ==> d.stratumNo == c.stratumNo)
  {
  }

  /** The opening itself takes the step. */
  lemma ReaderMoves(c: Client, k: nat, l: nat, written: bool, min: real)
    requires ReadAgain(c, k, l) && Entering(c) && JobStep(c, k, written, min).connected
    ensures Doomed(JobStep(c, k, written, min))
  {
    JobEffect(c, k, written, min);
    OpeningMoves(c, k, written, min);
    var d := JobStep(c, k, written, min);
    var again := c.initialized && c.stratumNo in c.tried;
    var carried := c.initialized && l < |c.jobs| && Carried(c.jobs[l]) == Some(c.stratumNo);
    hide JobStep;
    if !c.jobs[k].OpenRead? {
      assert ReadAgain(d, k, l);
    } else if again {
      assert CarriedAgain(d, k);
    } else if carried {
      assert l != k && d.jobs[l] == c.jobs[l];
      assert CarriedTwice(d, if k < l then k else l, if k < l then l else k);
    } else {
      assert d.jobs[l] == c.jobs[l];
      assert ReadAgain(d, l, k);
    }
  }

  /** The other job takes the step. */
  lemma OtherMoves(c: Client, k: nat, l: nat, written: bool, min: real)
    requires ReadAgain(c, k, l) && Entering(c) && k != l < |c.jobs| && JobStep(c, l, written, min).connected
    ensures Doomed(JobStep(c, l, written, min))
  {
    JobEffect(c, l, written, min);
    OpeningMoves(c, l, written, min);
    var d := JobStep(c, l, written, min);
    if c.initialized && Carried(c.jobs[l]) == Some(c.stratumNo) {
      CarriedMoves(c, l, written, min);
      hide JobStep;
      if d.tried == c.tried + [c.stratumNo] {
        assert d.tried[|c.tried|] == c.stratumNo;
      }
      assert ReadAgain(d, k, l);
    } else {
      hide JobStep;
      assert c.initialized && c.stratumNo in c.tried ==> c.stratumNo in d.tried;
      assert ReadAgain(d, k, l);
    }
  }

  lemma ReadStays(c: Client, k: nat, l: nat, i: nat, written: bool, min: real)
    requires i < |c.jobs| && ReadAgain(c, k, l) && Entering(c) && JobStep(c, i, written, min).connected
    ensures Doomed(JobStep(c, i, written, min))
  {
    if i == k {
      ReaderMoves(c, k, l, written, min);
    } else if i == l {
      OtherMoves(c, k, l, written, min);
    } else {
      JobEffect(c, i, written, min);
      OpeningMoves(c, i, written, min);
      var d := JobStep(c, i, written, min);
      hide JobStep;
      if c.jobs[i].Store? {
        assert ReadAgain(d, k, i);
      } else {
        assert c.initialized && c.stratumNo in c.tried ==> c.stratumNo in d.tried;
        assert ReadAgain(d, k, l);
      }
    }
  }

  lemma DoomedJob(c: Client, i: nat, written: bool, min: real)
    requires i < |c.jobs| && Doomed(c) && Entering(c) && JobStep(c, i, written, min).connected
    ensures Doomed(JobStep(c, i, written, min))
  {
    hide JobStep, Ordered, CarriedAgain, CarriedTwice, ReadAgain;
    if !Ordered(c.tried) {
      OrderStaysLost(c, i, written, min);
    } else if k :| CarriedAgain(c, k) {
      AgainStays(c, k, i, written, min);
    } else if k, l :| CarriedTwice(c, k, l) {
      TwiceStays(c, k, l, i, written, min);
    } else {
      var k, l :| ReadAgain(c, k, l);
      ReadStays(c, k, l, i, written, min);
    }
  }

  lemma DoomedMoreJobs(c: Client, d: Client)
    requires Doomed(c) && d.tried == c.tried && d.stratumNo == c.stratumNo && c.jobs <= d.jobs
    requires d.initialized == c.initialized
    ensures Doomed(d)
  {
    hide Carried, Ordered;
    if k :| CarriedAgain(c, k) {
      assert CarriedAgain(d, k);
    } else if k, l :| CarriedTwice(c, k, l) {
      assert CarriedTwice(d, k, l);
    } else if k, l :| ReadAgain(c, k, l) {
      assert ReadAgain(d, k, l);
    }
  }

  lemma DoomedStep(c: Client, e: Event, min: real, rate: Rate)
    requires Doomed(c) && Entering(c) && Step(c, e, min, rate).connected
    ensures Doomed(Step(c, e, min, rate))
  {
    hide Doomed, Entering, Tick, VarDiff.Judge;
    if e.Advance? {
      if e.job < |c.jobs| {
        DoomedJob(c, e.job, e.written, min);
      }
    } else {
      DoomedMoreJobs(c, Step(c, e, min, rate));
    }
  }

  lemma DoomedAtRest(c: Client)
    requires Doomed(c) && AtRest(c)
    ensures !Ordered(c.tried)
  {
  }

  /** From a clash-free state every clash is fatal. */
  lemma ClashDooms(c: Client, e: Event, min: real, rate: Rate, b: int, f: int)
    requires Inv(c, min, rate, b, f) && Clash(c, e) && JobStep(c, e.job, e.written, min).connected
    ensures Doomed(JobStep(c, e.job, e.written, min))
  {
    hide Earned, Places;
    var i, d := e.job, JobStep(c, e.job, e.written, min);
    OnlyPlace(c, i, b, f);
    if c.jobs[i].Compare? {
      ClashingCompare(c, i, e.written, min, rate, b, f);
    } else if c.jobs[i].Store? {
      var j :| 0 <= j < |c.jobs| && j != i && c.jobs[j].OpenRead?;
      assert ReadAgain(d, j, i);
    } else {
      var j :| 0 <= j < |c.jobs| && j != i && (c.jobs[j].Announce? || c.jobs[j].OpenTell?);
      OnlyPlace(c, j, b, f);
      assert c.tried == [] && d.tried == [c.jobs[i].n] && c.jobs[i].n == |c.decided| == 2;
      assert d.tried[0] != 1;
    }
  }

  lemma ClashingCompare(c: Client, i: nat, written: bool, min: real, rate: Rate, b: int, f: int)
    requires Inv(c, min, rate, b, f) && i < |c.jobs| && c.jobs[i].Compare? && Clash(c, Event.Advance(i, written))
    ensures Doomed(JobStep(c, i, written, min))
  {
    hide Earned, Places;
    var n, d := c.jobs[i].n, JobStep(c, i, written, min);
    OnlyPlace(c, i, b, f);
    assert d.jobs[i].Store? && d.jobs[i].n == n >= 1;
    if n < |c.decided| {
      if n <= |c.tried| {
        assert c.tried[n - 1] == n;
        assert CarriedAgain(d, i);
      } else {
        assert f >= 0 && c.tried == [] && n == 1;
        assert d.jobs[f] == c.jobs[f] && Carried(c.jobs[f]) == Some(1);
        assert CarriedTwice(d, if i < f then i else f, if i < f then f else i);
      }
    } else {
      var j :| 0 <= j < |c.jobs| && j != i && c.jobs[j].Store?;
      OnlyPlace(c, j, b, f);
      assert d.jobs[j] == c.jobs[j] && c.jobs[j].n == n;
      assert CarriedTwice(d, if i < j then i else j, if i < j then j else i);
    }
  }

  /** And so is every other channel opening. */
  lemma ReopeningDooms(c: Client, min: real, rate: Rate, b: int, f: int)
    requires Inv(c, min, rate, b, f) && c.sv2 && c.jobs != []
    ensures Doomed(c.(jobs := c.jobs + [OpenInit]))
  {
    hide Earned, Places;
    PlaceBounds(c, b, f);
    FirstAndBusy(c, b, f);
    var d := c.(jobs := c.jobs + [OpenInit]);
    var i := |c.jobs|;
    if f >= 0 {
      assert d.jobs[f] == c.jobs[f];
      if Opening(c.jobs[f]) {
        assert ReadAgain(d, i, f);
      } else if b >= 0 && c.jobs[b].Deliver? {
        assert d.jobs[b] == c.jobs[b];
        assert ReadAgain(d, i, b);
      } else {
        assert ReadAgain(d, i, f);
      }
    } else if b >= 0 && c.jobs[b].Deliver? {
      assert d.jobs[b] == c.jobs[b];
      assert ReadAgain(d, i, b);
    } else {
      assert c.tried[c.stratumNo - 1] == c.stratumNo;
      assert ReadAgain(d, i, i);
    }
  }

  lemma FirstAndBusy(c: Client, b: int, f: int)
    requires Places(c.jobs, c.decided, b, f)
    ensures -1 <= b < |c.jobs| && -1 <= f < |c.jobs|
    ensures b >= 0 ==> Busy(c.jobs[b])
    ensures f >= 0 ==> First(c.jobs[f])
  {
  }

  lemma StaysEntering(c: Client, e: Event, min: real, rate: Rate)
    requires Entering(c)
    ensures Entering(Step(c, e, min, rate))
  {
    hide Tick, VarDiff.Judge;
  }

  // ---------------------------------------------------------------- whole runs

  /** The conditions under which a run keeps in step, but for silent retargets. */
  ghost predicate Orderly(c: Client, events: seq<Event>, min: real, rate: Rate) {
    OpensOnce(c, events, min, rate) && NoClash(c, events, min, rate)
  }

  lemma RunNext(c: Client, events: seq<Event>, min: real, rate: Rate)
    requires events != []
    ensures var before, e := events[..|events| - 1], events[|events| - 1]; var d := Run(c, before, min, rate);
      && Run(c, events, min, rate) == Step(d, e, min, rate)
      && (OpensOnce(c, events, min, rate) <==> OpensOnce(c, before, min, rate) && !Reopens(d, e))
      && (NoClash(c, events, min, rate) <==> NoClash(c, before, min, rate) && !Clash(d, e))
      && (NoSilence(c, events, min, rate) <==> NoSilence(c, before, min, rate) && Quiet(d, e, rate))
      && (NoneLost(c, events, min, rate) <==> NoneLost(c, before, min, rate) && !Lost(d, e))
  {
    hide Run, Reopens, Clash, Quiet, Lost, Step;
    var before := events[..|events| - 1];
    assert forall i :: 0 <= i < |before| ==> before[i] == events[i] && before[..i] == events[..i];
    LastStep(c, events, min, rate);
  }

  lemma LastStep(c: Client, events: seq<Event>, min: real, rate: Rate)
    requires events != []
    ensures Run(c, events, min, rate) ==
            Step(Run(c, events[..|events| - 1], min, rate), events[|events| - 1], min, rate)
  {
  }

  lemma Connected(sv2: bool, clock: real, min: real, rate: Rate)
    ensures Inv(Connect(sv2, clock), min, rate, -1, -1) && !Stuck(Connect(sv2, clock))
  {
  }

  /** One more step of a clash-free run. */
  lemma StepKeeps(c: Client, e: Event, min: real, rate: Rate, b: int, f: int) returns (b1: int, f1: int)
    requires min >= 0.0001 && c.connected && Inv(c, min, rate, b, f) && !Reopens(c, e) && !Clash(c, e)
    requires Step(c, e, min, rate).connected
    ensures Inv(Step(c, e, min, rate), min, rate, b1, f1)
    ensures Stuck(Step(c, e, min, rate)) <==> Stuck(c) || !Quiet(c, e, rate)
  {
    b1, f1 := b, f;
    if e.Ticked? {
      hide Inv, Stuck, Clash, TickClient, Silent;
      TickKeeps(c, min, rate, b, f);
    } else if e.Advance? {
      if e.job < |c.jobs| {
        JobKeeps(c, e.job, e.written, min, rate, b, f);
        JobKeepsStuck(c, e.job, e.written, min, rate, b, f);
        hide Inv, Stuck, Clash, JobStep;
        var d := JobStep(c, e.job, e.written, min);
        OtherJobsStay(c, e.job, e.written, min);
        b1, f1 := NewBusy(b, e.job, d.jobs[e.job]), NewFirst(f, e.job, d.jobs[e.job]);
      }
    } else {
      hide Inv, Stuck, Clash;
      f1 := OthersKeep(c, e, min, rate, b, f);
    }
  }

  lemma WasConnected(c: Client, e: Event, min: real, rate: Rate)
    requires Step(c, e, min, rate).connected
    ensures c.connected
  {
    hide Tick, VarDiff.Judge;
  }

  lemma OneReopening(c: Client, e: Event, min: real, rate: Rate)
    requires Reopens(c, e) && c.connected
    ensures Step(c, e, min, rate) == c.(jobs := c.jobs + [OpenInit])
  {
  }

  /** A run is either orderly, and then stuck exactly after a silent pass, or doomed. */
  lemma {:induction false} RunKeeps(sv2: bool, clock: real, events: seq<Event>, min: real, rate: Rate)
    returns (b: int, f: int)
    requires min >= 0.0001 && Run(Connect(sv2, clock), events, min, rate).connected
    ensures var c0 := Connect(sv2, clock); var c := Run(c0, events, min, rate);
      && Entering(c)
      && (Orderly(c0, events, min, rate) ==>
            Inv(c, min, rate, b, f) && (Stuck(c) <==> !NoSilence(c0, events, min, rate)))
      && (!Orderly(c0, events, min, rate) ==> Doomed(c))
  {
    var c0 := Connect(sv2, clock);
    if events == [] {
      b, f := -1, -1;
      Connected(sv2, clock, min, rate);
    } else {
      hide Run, Step, Inv, Stuck, Doomed, Clash, Quiet, Reopens, OpensOnce, NoClash, NoSilence, NoneLost, Connect,
           Entering;
      RunNext(c0, events, min, rate);
      var before, e := events[..|events| - 1], events[|events| - 1];
      var c := Run(c0, before, min, rate);
      WasConnected(c, e, min, rate);
      b, f := RunKeeps(sv2, clock, before, min, rate);
      StaysEntering(c, e, min, rate);
      if !Orderly(c0, before, min, rate) {
        DoomedStep(c, e, min, rate);
      } else if Clash(c, e) {
        ClashIsStep(c, e, min, rate);
        ClashDooms(c, e, min, rate, b, f);
      } else if Reopens(c, e) {
        OneReopening(c, e, min, rate);
        ReopeningJobs(c, e);
        ReopeningDooms(c, min, rate, b, f);
      } else {
        b, f := StepKeeps(c, e, min, rate, b, f);
      }
    }
  }

  lemma ReopeningJobs(c: Client, e: Event)
    requires Reopens(c, e)
    ensures c.sv2 && c.jobs != []
  {
  }

  lemma ClashIsStep(c: Client, e: Event, min: real, rate: Rate)
    requires Clash(c, e)
    ensures e.Advance? && e.job < |c.jobs| && Step(c, e, min, rate) == JobStep(c, e.job, e.written, min)
  {
  }

  lemma RestingInv(c: Client, min: real, rate: Rate, b: int, f: int)
    requires AtRest(c) && Inv(c, min, rate, b, f)
    ensures InStep(c) <==> !Stuck(c)
    ensures !Stuck(c) ==> (Settled(c) <==> |c.sent| == |c.tried|)
  {
    hide Earned;
    assert b == -1 && f == -1;
    assert c.decided != [];
  }

  /** Writes that went through and writes that were tried are as many exactly when none was lost. */
  lemma {:induction false} LostCounts(sv2: bool, clock: real, events: seq<Event>, min: real, rate: Rate)
    requires Run(Connect(sv2, clock), events, min, rate).connected
    ensures var c0 := Connect(sv2, clock); var c := Run(c0, events, min, rate);
      && |c.sent| <= |c.tried| && (|c.sent| == |c.tried| <==> NoneLost(c0, events, min, rate))
  {
    var c0 := Connect(sv2, clock);
    if events == [] {
    } else {
      hide Run, Step, Clash, Quiet, Lost, Reopens, OpensOnce, NoClash, NoSilence, NoneLost, Connect;
      RunNext(c0, events, min, rate);
      var before, e := events[..|events| - 1], events[|events| - 1];
      var c := Run(c0, before, min, rate);
      WasConnected(c, e, min, rate);
      LostCounts(sv2, clock, before, min, rate);
      LostStep(c, e, min, rate);
    }
  }

  /** Only the steps that write try or tell anything. */
  lemma WhatIsWritten(c: Client, i: nat, written: bool, min: real)
    requires i < |c.jobs| && JobStep(c, i, written, min).connected
    ensures var d := JobStep(c, i, written, min);
      match c.jobs[i]
      case OpenTell(diff, n) => written && d.tried == c.tried + [n] && d.sent == c.sent + [Told(n, diff)]
      case Announce => d.tried == c.tried + [1] && d.sent == c.sent + if written then [Told(1, min)] else []
      case Deliver(diff, n) =>
        && (c.sv2 ==> written)
        && d.tried == c.tried + [n] && d.sent == c.sent + if written then [Told(n, diff)] else []
      case _ => d.tried == c.tried && d.sent == c.sent
  {
    assert c.sent + [] == c.sent;
  }

  lemma LostJob(c: Client, i: nat, written: bool, min: real)
    requires i < |c.jobs| && |c.sent| <= |c.tried| && JobStep(c, i, written, min).connected
    ensures var d := JobStep(c, i, written, min);
      |d.tried| - |d.sent| == |c.tried| - |c.sent| + if Lost(c, Event.Advance(i, written)) then 1 else 0
  {
    WhatIsWritten(c, i, written, min);
    hide JobStep;
  }

  lemma LostStep(c: Client, e: Event, min: real, rate: Rate)
    requires |c.sent| <= |c.tried| && Step(c, e, min, rate).connected
    ensures var d := Step(c, e, min, rate);
      |d.tried| - |d.sent| == |c.tried| - |c.sent| + if Lost(c, e) then 1 else 0
  {
    hide Tick, VarDiff.Judge, JobStep;
    if e.Advance? && e.job < |c.jobs| {
      LostJob(c, e.job, e.written, min);
    }
  }

  /** The handshake, exactly. Whatever the interleaving, with any number of jobs in flight and of channels opened: a
      connected client at rest is in step, a write of each decision having been tried once and in order, if and
      only if no second channel was opened, no two jobs clashed and no retarget was silent. And then what it was
      told is what was decided, short of at most one pending difficulty, if and only if every difficulty write to a
      V1 client went through. */
  lemma EachRetargetDeliveredOnce(sv2: bool, clock: real, events: seq<Event>, min: real, rate: Rate)
    requires min >= 0.0001 && AtRest(Run(Connect(sv2, clock), events, min, rate))
    ensures var c0 := Connect(sv2, clock); var c := Run(c0, events, min, rate);
      && (InStep(c) <==> OpensOnce(c0, events, min, rate) && NoClash(c0, events, min, rate) &&
                         NoSilence(c0, events, min, rate))
      && (InStep(c) ==> (Settled(c) <==> NoneLost(c0, events, min, rate)))
  {
    var c0 := Connect(sv2, clock);
    hide Run, Inv, Stuck, Doomed, OpensOnce, NoClash, NoSilence, NoneLost, Connect, Settled;
    var b, f := RunKeeps(sv2, clock, events, min, rate);
    LostCounts(sv2, clock, events, min, rate);
    var c := Run(c0, events, min, rate);
    if Orderly(c0, events, min, rate) {
      RestingInv(c, min, rate, b, f);
    } else {
      DoomedAtRest(c);
    }
  }

  // ---------------------------------------------------------------- told the difficulty it is tracked at

  /** A step that writes a difficulty. */
  predicate Writes(c: Client, e: Event) {
    e.Advance? && e.job < |c.jobs| && (c.jobs[e.job].OpenTell? || c.jobs[e.job].Announce? || c.jobs[e.job].Deliver?)
  }

  /** What became of the last difficulty write of a run. */
  ghost function LastWrite(c: Client, events: seq<Event>, min: real, rate: Rate): Option<bool> {
    if events == [] then None
    else
      var before, e := events[..|events| - 1], events[|events| - 1];
      if Writes(Run(c, before, min, rate), e) then Some(e.written) else LastWrite(c, before, min, rate)
  }

  /** Of the decisions tried, the last was told if its write went through, and otherwise only earlier ones were. */
  ghost predicate LastTold(tried: seq<nat>, sent: seq<Told>, last: Option<bool>) {
    match last
    case None => tried == [] && sent == []
    case Some(written) =>
      && tried != []
      && if written then sent != [] && sent[|sent| - 1].n == tried[|tried| - 1]
         else forall x :: 0 <= x < |sent| ==> sent[x].n in tried[..|tried| - 1]
  }

  ghost predicate AllTried(tried: seq<nat>, sent: seq<Told>) {
    forall x :: 0 <= x < |sent| ==> sent[x].n in tried
  }

  lemma TellKeeps(tried: seq<nat>, sent: seq<Told>, n: nat, diff: real, written: bool)
    requires AllTried(tried, sent)
    ensures var t, u := tried + [n], sent + if written then [Told(n, diff)] else [];
      AllTried(t, u) && LastTold(t, u, Some(written))
  {
    var t := tried + [n];
    assert t[..|tried|] == tried && t[|tried|] == n;
    assert sent + [] == sent;
  }

  lemma WriteStep(c: Client, e: Event, min: real, rate: Rate)
    requires AllTried(c.tried, c.sent) && Step(c, e, min, rate).connected
    ensures var d := Step(c, e, min, rate);
      && AllTried(d.tried, d.sent)
      && (if Writes(c, e) then LastTold(d.tried, d.sent, Some(e.written)) else d.tried == c.tried && d.sent == c.sent)
  {
    hide Tick, VarDiff.Judge, JobStep, AllTried, LastTold;
    if e.Advance? && e.job < |c.jobs| {
      WhatIsWritten(c, e.job, e.written, min);
      match c.jobs[e.job]
      case OpenTell(diff, n) => TellKeeps(c.tried, c.sent, n, diff, true);
      case Announce => TellKeeps(c.tried, c.sent, 1, min, e.written);
      case Deliver(diff, n) => TellKeeps(c.tried, c.sent, n, diff, e.written);
      case _ =>
    }
  }

  lemma {:induction false} LastWriteTold(sv2: bool, clock: real, events: seq<Event>, min: real, rate: Rate)
    requires Run(Connect(sv2, clock), events, min, rate).connected
    ensures var c0 := Connect(sv2, clock); var c := Run(c0, events, min, rate);
      AllTried(c.tried, c.sent) && LastTold(c.tried, c.sent, LastWrite(c0, events, min, rate))
  {
    var c0 := Connect(sv2, clock);
    if events == [] {
    } else {
      var before, e := events[..|events| - 1], events[|events| - 1];
      var c := Run(c0, before, min, rate);
      LastStep(c0, events, min, rate);
      hide Run, Step, Writes, AllTried, LastTold, Connect;
      WasConnected(c, e, min, rate);
      LastWriteTold(sv2, clock, before, min, rate);
      WriteStep(c, e, min, rate);
    }
  }

  /** The difficulty an in-step client is tracked at is the last decision, and the client was told that decision
      if and only if the last difficulty write of the run went through, whatever was lost before. */
  lemma TrackedAsTold(sv2: bool, clock: real, events: seq<Event>, min: real, rate: Rate)
    requires min >= 0.0001
    requires var c := Run(Connect(sv2, clock), events, min, rate); AtRest(c) && InStep(c) && c.tracker.start.Some?
    ensures var c0 := Connect(sv2, clock); var c := Run(c0, events, min, rate);
      Told(|c.decided|, c.tracker.minDiff) in c.sent <==> LastWrite(c0, events, min, rate) == Some(true)
  {
    var c0 := Connect(sv2, clock);
    var c := Run(c0, events, min, rate);
    hide Run, Inv, Stuck, Doomed, Orderly, NoSilence, NoneLost, Connect, LastWrite;
    var b, f := RunKeeps(sv2, clock, events, min, rate);
    DoomedNotInStep(c);
    LastWriteTold(sv2, clock, events, min, rate);
    LastDecisionTold(c, min, rate, b, f, LastWrite(c0, events, min, rate));
  }

  lemma DoomedNotInStep(c: Client)
    requires AtRest(c) && InStep(c)
    ensures !Doomed(c)
  {
  }

  lemma LastDecisionTold(c: Client, min: real, rate: Rate, b: int, f: int, last: Option<bool>)
    requires AtRest(c) && InStep(c) && c.tracker.start.Some? && Inv(c, min, rate, b, f)
    requires AllTried(c.tried, c.sent) && LastTold(c.tried, c.sent, last)
    ensures Told(|c.decided|, c.tracker.minDiff) in c.sent <==> last == Some(true)
  {
    hide Earned, Places;
    var k := |c.decided|;
    assert b == -1 && f == -1 by { RestingPlaces(c, b, f); }
    assert c.decided != [] && |c.tried| == k && c.tried[k - 1] == k && last.Some?;
    if last.value {
      var t := c.sent[|c.sent| - 1];
      assert TrueTo(t, c.decided) && t == Told(k, c.tracker.minDiff);
    }
  }

  lemma RestingPlaces(c: Client, b: int, f: int)
    requires AtRest(c) && Places(c.jobs, c.decided, b, f)
    ensures b == -1 && f == -1
  {
  }

  // ---------------------------------------------------------------- one job undisturbed

  function Thrice(c: Client, i: nat, written: bool, min: real): Client
    requires i < |c.jobs|
  {
    var c1 := JobStep(c, i, written, min);
    var c2 := JobStep(c1, i, written, min);
    JobStep(c2, i, written, min)
  }

  /** A job that finds a new difficulty is about to store it; one that finds none has ended. */
  lemma Reads(c: Client, i: nat, written: bool, min: real)
    requires i < |c.jobs| && c.jobs[i] == Init && c.initialized
    ensures var d := c.tracker.minDiff;
      Thrice(c, i, written, min) == At(c, i, if d == 0.0 || d == c.stratum then Done else Store(d, |c.decided|))
  {
    var d, n := c.tracker.minDiff, |c.decided|;
    assert JobStep(c, i, written, min) == At(c, i, Read);
    assert At(At(c, i, Read), i, Compare(d, n)) == At(c, i, Compare(d, n));
    assert At(At(c, i, Compare(d, n)), i, Done) == At(c, i, Done);
    assert At(At(c, i, Compare(d, n)), i, Store(d, n)) == At(c, i, Store(d, n));
  }

  /** Storing, delivering and resuming; a V1 write may be lost without anyone noticing. */
  lemma Changes(c: Client, i: nat, written: bool, min: real)
    requires i < |c.jobs| && c.jobs[i].Store? && (c.sv2 ==> written)
    ensures var Store(d, n) := c.jobs[i];
      Thrice(c, i, written, min) ==
      At(Tell(c, n, d, written), i, Done).(stratum := d, stratumNo := n, tracker := Restart(c.tracker, c.clock))
  {
    var Store(d, n) := c.jobs[i];
    var c1 := At(c, i, Deliver(d, n)).(stratum := d, stratumNo := n);
    assert JobStep(c, i, written, min) == c1;
    var c2 := At(Tell(c, n, d, written), i, Phase.Resume).(stratum := d, stratumNo := n);
    assert c1.jobs[i := Phase.Resume] == c2.jobs;
    assert JobStep(c1, i, written, min) == c2;
    assert c2.jobs[i := Done] == c.jobs[i := Done];
  }

  /** The steps of one block job for an initialised client, with nothing in between. */
  function BlockPass(c: Client, written: bool, min: real): Client {
    var blocked := c.(jobs := c.jobs + [Init]);
    var read := Thrice(blocked, |c.jobs|, written, min);
    if |c.jobs| < |read.jobs| && read.jobs[|c.jobs|].Store? then Thrice(read, |c.jobs|, written, min) else read
  }

  /** Tracking never stalls: from a settled state the next block, written successfully, leaves the client
      tracked at the controller's difficulty, told everything decided. */
  lemma NextBlockResumes(c: Client, min: real)
    requires AtRest(c) && Settled(c)
    ensures var d := BlockPass(c, true, min);
      && AtRest(d) && Settled(d)
      && d.decided == c.decided && d.tracker == Restart(c.tracker, c.clock) && d.stratum == d.tracker.minDiff
  {
    var i := |c.jobs|;
    var blocked := c.(jobs := c.jobs + [Init]);
    Reads(blocked, i, true, min);
    var diff, n := c.tracker.minDiff, |c.decided|;
    hide Thrice;
    assert blocked.jobs[i := Done] == c.jobs + [Done];
    if c.tracker.start.None? {
      var read := At(blocked, i, Store(diff, n));
      Changes(read, i, true, min);
      assert read.jobs[i := Done] == c.jobs + [Done];
    }
  }

  // ---------------------------------------------------------------- silent retargets

  ghost predicate Idle(p: Phase, stratum: real) {
    p.Init? || p.Read? || p.Done? || (p.Compare? && p.diff == stratum)
  }

  ghost predicate Stalled(c: Client) {
    && c.initialized && c.connected
    && c.tracker.start.None? && c.tracker.minDiff == c.stratum > 0.0
    && forall i :: 0 <= i < |c.jobs| ==> Idle(c.jobs[i], c.stratum)
  }

  /** After a silent retarget tracking is off for good: no later block, tick or share, with any number of jobs
      in flight, ever sends a difficulty or restarts the tracker while the client stays connected and opens no
      other channel. */
  lemma {:induction false} SilentRetargetStalls(c: Client, events: seq<Event>, min: real, rate: Rate)
    requires Stalled(c)
    requires forall i :: 0 <= i < |events| ==> !events[i].Dropped? && !events[i].OpenChannel?
    ensures var d := Run(c, events, min, rate);
      Stalled(d) && d.sent == c.sent && d.tracker.minDiff == c.tracker.minDiff
  {
    if events == [] {
    } else {
      var before, e := events[..|events| - 1], events[|events| - 1];
      SilentRetargetStalls(c, before, min, rate);
      hide Stalled, Step;
      StalledStep(Run(c, before, min, rate), e, min, rate);
    }
  }

  lemma StalledStep(c: Client, e: Event, min: real, rate: Rate)
    requires Stalled(c) && !e.Dropped? && !e.OpenChannel?
    ensures var d := Step(c, e, min, rate);
      Stalled(d) && d.sent == c.sent && d.tracker.minDiff == c.tracker.minDiff
  {
    if e.Advance? && e.job < |c.jobs| {
      assert Idle(c.jobs[e.job], c.stratum);
    }
  }

  /** Such a retarget does lead there: a settled tracked client is stalled right after it. */
  lemma SilentRetargetEnters(c: Client, min: real, rate: Rate)
    requires AtRest(c) && Settled(c) && c.tracker.stage < 7
    requires Silent(c.tracker, c.clock, rate)
    ensures Stalled(Step(c, Ticked, min, rate))
  {
    hide VarDiff.Judge, Tick, Capped, OnRate;
    SilentRetarget(c.tracker, c.clock, rate);
    StepBounds(c.tracker, c.clock, rate);
  }

  // ---------------------------------------------------------------- runs that break the promise

  lemma Snoc(c: Client, events: seq<Event>, e: Event, min: real, rate: Rate)
    ensures Run(c, events + [e], min, rate) == Step(Run(c, events, min, rate), e, min, rate)
  {
    assert (events + [e])[..|events|] == events;
  }

  lemma Start(c: Client, min: real, rate: Rate)
    ensures Run(c, [], min, rate) == c
  {
  }

  /** Three steps of job i. */
  lemma Go(c: Client, events: seq<Event>, i: nat, written: bool, min: real, rate: Rate) returns (longer: seq<Event>)
    requires i < |Run(c, events, min, rate).jobs|
    ensures Run(c, longer, min, rate) == Thrice(Run(c, events, min, rate), i, written, min)
  {
    hide Run, JobStep;
    var e := Event.Advance(i, written);
    var d := Run(c, events, min, rate);
    Snoc(c, events, e, min, rate);
    Snoc(c, events + [e], e, min, rate);
    Snoc(c, events + [e] + [e], e, min, rate);
    longer := events + [e] + [e] + [e];
  }

  /** A new V1 client's first block; the announcement of its difficulty goes through or is lost. */
  lemma FirstBlock(clock: real, announced: bool, min: real, rate: Rate) returns (events: seq<Event>)
    requires min >= 0.0001
    ensures Run(Connect(false, clock), events, min, rate) ==
            Client(false, true, true, min, 1, Tracker(Some(clock), 0, 0, min), clock, [Done], [min], [1],
                   if announced then [Told(1, min)] else [])
  {
    var c := Connect(false, clock);
    var c1 := c.(jobs := [Init]);
    hide Run, JobStep, Thrice;
    Start(c, min, rate);
    events := [] + [Block];
    Snoc(c, [], Block, min, rate);
    assert c.jobs + [Init] == [Init];
    FirstSteps(c1, announced, min);
    LastSteps(Thrice(c1, 0, announced, min), min);
    hide Connect;
    events := Go(c, events, 0, announced, min, rate);
    var e := Event.Advance(0, true);
    Snoc(c, events, e, min, rate);
    Snoc(c, events + [e], e, min, rate);
    events := events + [e] + [e];
  }

  lemma FirstSteps(c: Client, announced: bool, min: real)
    requires min >= 0.0001 && c == Connect(false, c.clock).(jobs := [Init])
    ensures var d := Thrice(c, 0, announced, min);
      d == Client(false, true, true, min, 1, Tracker(Some(c.clock), 0, 0, min), c.clock, [Read], [min], [1],
                  if announced then [Told(1, min)] else [])
  {
    var c1 := c.(initialized := true, stratum := min, stratumNo := 1, jobs := [Set]);
    assert JobStep(c, 0, announced, min) == c1;
    var c2 := c1.(tracker := Tracker(Some(c.clock), 0, 0, min), decided := [min], jobs := [Announce]);
    assert JobStep(c1, 0, announced, min) == c2;
  }

  lemma LastSteps(c: Client, min: real)
    requires c.jobs == [Read] && c.tracker.minDiff == c.stratum
    ensures JobStep(JobStep(c, 0, true, min), 0, true, min) == c.(jobs := [Done])
  {
    assert JobStep(c, 0, true, min) == c.(jobs := [Compare(c.stratum, |c.decided|)]);
  }

  /** The last condition is needed: when the first difficulty write is lost, a connected client at rest is
      tracked at a difficulty it was never told. */
  lemma LostWriteMisleads(clock: real, min: real, rate: Rate) returns (events: seq<Event>)
    requires min >= 0.0001
    ensures var c := Run(Connect(false, clock), events, min, rate);
      && AtRest(c) && InStep(c) && !Settled(c)
      && c.tracker.start.Some? && c.tracker.minDiff == c.stratum == min && c.sent == []
  {
    hide Run;
    events := FirstBlock(clock, false, min, rate);
  }

  /** At one share a minute, a minute without shares cuts the difficulty to a tenth. */
  lemma Cut(t: Tracker, now: real)
    requires t.start == Some(now - 1.0) && t.shares == 0 && t.stage == 0
    ensures Retargets(VarDiff.Judge(t, now, 1)) && Tick(t, now, 1) == Tracker(None, 0, 0, t.minDiff * 0.1)
  {
    assert Quota(0, 1) == 1 && Ratio(0, 1.0, 1) == 0.0;
  }

  lemma MinutePasses(c: Client, events: seq<Event>, min: real) returns (longer: seq<Event>)
    requires var t := Run(c, events, min, 1).tracker;
      t.start == Some(Run(c, events, min, 1).clock) && t.shares == 0 && t.stage == 0
    ensures var d := Run(c, events, min, 1); var diff := d.tracker.minDiff * 0.1;
      Run(c, longer, min, 1) ==
      d.(clock := d.clock + 1.0, tracker := Tracker(None, 0, 0, diff), decided := d.decided + [diff])
  {
    hide Run;
    var d := Run(c, events, min, 1);
    var e := Event.Passed(1.0);
    Snoc(c, events, e, min, 1);
    Snoc(c, events + [e], Ticked, min, 1);
    longer := events + [e] + [Ticked];
    Cut(d.tracker, d.clock + 1.0);
    hide Tick, VarDiff.Judge;
  }

  lemma NewBlock(c: Client, events: seq<Event>, min: real, rate: Rate)
    requires var d := Run(c, events, min, rate); d.connected && d.initialized
    ensures var d := Run(c, events, min, rate);
      Run(c, events + [Block], min, rate) == d.(jobs := d.jobs + [Init])
  {
    hide Run;
    Snoc(c, events, Block, min, rate);
  }

  /** Two jobs that both find a pending difficulty, run up to their stores. */
  lemma BothRead(c: Client, events: seq<Event>, min: real) returns (longer: seq<Event>)
    requires var d := Run(c, events, min, 1);
      d.connected && d.initialized && d.jobs == [Done] && d.tracker.minDiff != 0.0 && d.tracker.minDiff != d.stratum
    ensures var d := Run(c, events, min, 1); var p := Store(d.tracker.minDiff, |d.decided|);
      Run(c, longer, min, 1) == d.(jobs := [Done, p, p])
  {
    hide Run, Thrice;
    var d := Run(c, events, min, 1);
    var p := Store(d.tracker.minDiff, |d.decided|);
    NewBlock(c, events, min, 1);
    NewBlock(c, events + [Block], min, 1);
    var d2 := d.(jobs := [Done, Init, Init]);
    assert d.jobs + [Init] + [Init] == d2.jobs;
    Reads(d2, 1, true, min);
    longer := Go(c, events + [Block] + [Block], 1, true, min, 1);
    var d3 := d.(jobs := [Done, p, Init]);
    assert d2.jobs[1 := p] == d3.jobs;
    Reads(d3, 2, true, min);
    longer := Go(c, longer, 2, true, min, 1);
    assert d3.jobs[2 := p] == [Done, p, p];
  }

  /** Clashes do happen: two blocks in quick succession both find the same pending difficulty and store it. The
      first resumes tracking; a retarget follows; the second sends the old difficulty again and resumes tracking
      at the new one, which the client is never told. */
  lemma OverlappingJobsMisdeliver(min: real) returns (events: seq<Event>)
    requires min >= 0.0001
    ensures var c := Run(Connect(false, 0.0), events, min, 1);
      && AtRest(c) && !InStep(c) && !Settled(c)
      && c.decided == [min, min * 0.1, min * 0.1 * 0.1]
      && c.sent == [Told(1, min), Told(2, min * 0.1), Told(2, min * 0.1)]
      && c.stratum == min * 0.1 && c.tracker == Tracker(Some(2.0), 0, 0, min * 0.1 * 0.1)
  {
    var c := Connect(false, 0.0);
    var low, lower := min * 0.1, min * 0.1 * 0.1;
    hide Run, Thrice;
    events := FirstBlock(0.0, true, min, 1);
    events := MinutePasses(c, events, min);
    events := BothRead(c, events, min);
    var d := Run(c, events, min, 1);
    Changes(d, 1, true, min);
    events := Go(c, events, 1, true, min, 1);
    var d1 := d.(stratum := low, stratumNo := 2, tracker := Tracker(Some(1.0), 0, 0, low), tried := [1, 2],
                 sent := [Told(1, min), Told(2, low)], jobs := [Done, Done, Store(low, 2)]);
    assert Run(c, events, min, 1) == d1;
    events := MinutePasses(c, events, min);
    var d2 := Run(c, events, min, 1);
    assert d2.jobs == [Done, Done, Store(low, 2)];
    Changes(d2, 2, true, min);
    events := Go(c, events, 2, true, min, 1);
    assert Run(c, events, min, 1).jobs == [Done, Done, Done];
  }

  // ---------------------------------------------------------------- a second channel

  lemma OpenSteps(c: Client, i: nat, min: real)
    requires min >= 0.0001 && i < |c.jobs| && c.jobs[i] == OpenInit && (c.initialized ==> c.stratum > 0.0)
    ensures var diff, n := if c.initialized then c.stratum else min, if c.initialized then c.stratumNo else 1;
      JobStep(Thrice(c, i, true, min), i, true, min) ==
      At(Tell(Decided(Initialized(c, min), min), n, diff, true), i, Done)
  {
    var c1 := At(Initialized(c, min), i, OpenSet);
    assert JobStep(c, i, true, min) == c1;
    var c2 := At(Decided(Initialized(c, min), min), i, OpenRead);
    assert c1.jobs[i := OpenRead] == c2.jobs;
    assert JobStep(c1, i, true, min) == c2;
    var c3 := At(c2, i, OpenTell(c2.stratum, c2.stratumNo));
    assert JobStep(c2, i, true, min) == c3;
    assert c3.jobs[i := Done] == c.jobs[i := Done];
  }

  /** Opening a channel, its steps undisturbed. */
  lemma Opens(c: Client, events: seq<Event>, min: real, rate: Rate) returns (longer: seq<Event>)
    requires min >= 0.0001
    requires var d := Run(c, events, min, rate); d.sv2 && d.connected && (d.initialized ==> d.stratum > 0.0)
    ensures var d := Run(c, events, min, rate);
      var diff, n := if d.initialized then d.stratum else min, if d.initialized then d.stratumNo else 1;
      Run(c, longer, min, rate) ==
      Tell(Decided(Initialized(d, min), min), n, diff, true).(jobs := d.jobs + [Done])
  {
    hide Run, JobStep, Thrice, Decided;
    var d := Run(c, events, min, rate);
    var i := |d.jobs|;
    Snoc(c, events, OpenChannel, min, rate);
    var d1 := d.(jobs := d.jobs + [OpenInit]);
    assert Run(c, events + [OpenChannel], min, rate) == d1;
    OpenSteps(d1, i, min);
    longer := Go(c, events + [OpenChannel], i, true, min, rate);
    OpenedLast(d, d1, i, min);
    Snoc(c, longer, Event.Advance(i, true), min, rate);
    longer := longer + [Event.Advance(i, true)];
  }

  lemma OpenedLast(d: Client, d1: Client, i: nat, min: real)
    requires i == |d.jobs| && d1 == d.(jobs := d.jobs + [OpenInit])
    ensures forall n, diff ::
      At(Tell(Decided(Initialized(d1, min), min), n, diff, true), i, Done) ==
      Tell(Decided(Initialized(d, min), min), n, diff, true).(jobs := d.jobs + [Done])
  {
    assert d1.jobs[i := Done] == d.jobs + [Done];
  }

  /** In values: opening another channel undisturbed puts the controller of a client at rest to the minimum, keeps
      the client's difficulty and tells it that. The two are the same exactly when the client stood at the minimum
      before. */
  lemma ReopenedValues(c: Client, events: seq<Event>, min: real, rate: Rate) returns (longer: seq<Event>)
    requires min >= 0.0001
    requires var d := Run(c, events, min, rate); AtRest(d) && d.sv2 && d.stratum > 0.0
    ensures var d, r := Run(c, events, min, rate), Run(c, longer, min, rate);
      && AtRest(r) && r.tracker.start.Some? && r.tracker.minDiff == min && r.stratum == d.stratum
      && r.sent == d.sent + [Told(d.stratumNo, d.stratum)]
      && (r.tracker.minDiff == r.stratum <==> d.stratum == min)
  {
    hide Run;
    longer := Opens(c, events, min, rate);
  }

  /** So a second channel opened after a retarget has been delivered leaves the client at rest tracked at a
      difficulty other than the one it was last told. */
  lemma ReopeningMisleads(min: real) returns (events: seq<Event>)
    requires min >= 0.0001
    ensures var c := Run(Connect(true, 0.0), events, min, 1);
      && AtRest(c) && !InStep(c) && !Settled(c)
      && c.decided == [min, min * 0.1, min]
      && c.sent == [Told(1, min), Told(2, min * 0.1), Told(2, min * 0.1)]
      && c.tracker.start.Some? && c.tracker.minDiff == min && c.stratum == min * 0.1
  {
    var c := Connect(true, 0.0);
    var low := min * 0.1;
    hide Run, Thrice;
    Start(c, min, 1);
    events := Opens(c, [], min, 1);
    events := MinutePasses(c, events, min);
    NewBlock(c, events, min, 1);
    var d := Run(c, events + [Block], min, 1);
    assert d.jobs == [Done, Init];
    Reads(d, 1, true, min);
    events := Go(c, events + [Block], 1, true, min, 1);
    var d1 := Run(c, events, min, 1);
    assert d1.jobs == [Done, Store(low, 2)];
    Changes(d1, 1, true, min);
    events := Go(c, events, 1, true, min, 1);
    assert Run(c, events, min, 1).jobs == [Done, Done];
    events := Opens(c, events, min, 1);
  }
}
