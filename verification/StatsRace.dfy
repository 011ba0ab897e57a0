/** Shares counted by many goroutines at once: a worker's counter and the overall counter are separate
    atomic additions, and entries migrate between keys in between. */
module StatsRace {
  import opened Ledger
  import opened VarDiff

  /** What a submit still has to do: claim its entry again, or add to a worker's counters or the totals.
      Main is the entry claimed first, other the one claimed last. */
  datatype Act = FindAgain(who: Identity) | AddMain(c: Counts) | AddOther(c: Counts) | AddTotal(c: Counts)

  /** How a submit ends: one counter moves; the node takes or refuses a block, with the identity the
      connection has by then; or an error moves nothing. */
  datatype Outcome = Simple(c: Counts) | BlockFound(later: Identity) | BlockRefused(later: Identity, c: Counts) | Error

  function Program(o: Outcome): seq<Act> {
    match o
    case Simple(c) => [AddMain(c), AddTotal(c)]
    case BlockFound(later) =>
      [FindAgain(later), AddOther(ONE_BLOCK), AddTotal(ONE_BLOCK), AddMain(ONE_SHARE), AddTotal(ONE_SHARE)]
    case BlockRefused(later, c) => [FindAgain(later), AddOther(c), AddTotal(c)]
    case Error => []
  }

  /** outcome only observes: it is what the submit set out to do. */
  datatype Task = Task(main: nat, other: nat, todo: seq<Act>, outcome: Outcome)

  /** The table maps keys to entries, which keep their place in memory when their key changes. */
  datatype State = State(index: map<string, nat>, records: seq<Counts>, overall: Counts, tasks: seq<Task>)

  const EMPTY := State(map[], [], ZERO, [])

  /** A submit starts by claiming its entry; any goroutine may also just look one up. */
  datatype Event = Submit(who: Identity, outcome: Outcome) | Look(who: Identity) | Run(i: nat)

  /** getCreateStats, one step under the table's lock. */
  function Found(s: State, who: Identity): (State, nat) {
    var key := StatsKey(who);
    if key in s.index then (s, s.index[key])
    else if who.remoteAddr in s.index then
      (s.(index := (s.index - {who.remoteAddr})[key := s.index[who.remoteAddr]]), s.index[who.remoteAddr])
    else (s.(index := s.index[key := |s.records|], records := s.records + [ZERO]), |s.records|)
  }

  function Credit(s: State, r: nat, c: Counts): State {
    if r < |s.records| then s.(records := s.records[r := Plus(s.records[r], c)]) else s
  }

  function Advance(s: State, i: nat): (n: State)
    requires i < |s.tasks| && s.tasks[i].todo != []
    ensures |n.tasks| == |s.tasks| && n.tasks[i].todo == s.tasks[i].todo[1..]
  {
    var t := s.tasks[i];
    var rest := t.(todo := t.todo[1..]);
    match t.todo[0]
    case FindAgain(who) => Found(s, who).0.(tasks := s.tasks[i := rest.(other := Found(s, who).1)])
    case AddMain(c) => Credit(s, t.main, c).(tasks := s.tasks[i := rest])
    case AddOther(c) => Credit(s, t.other, c).(tasks := s.tasks[i := rest])
    case AddTotal(c) => s.(overall := Plus(s.overall, c), tasks := s.tasks[i := rest])
  }

  function Step(s: State, e: Event): State {
    match e
    case Submit(who, outcome) =>
      var (t, r) := Found(s, who);
      t.(tasks := t.tasks + [Task(r, r, Program(outcome), outcome)])
    case Look(who) => Found(s, who).0
    case Run(i) => if i < |s.tasks| && s.tasks[i].todo != [] then Advance(s, i) else s
  }

  ghost function Reach(events: seq<Event>): State {
    if events == [] then EMPTY else Step(Reach(events[..|events| - 1]), events[|events| - 1])
  }

  // ---------------------------------------------------------------- what is owed

  /** Every addition to a worker is directly followed by the same addition to the totals. */
  ghost predicate Paired(todo: seq<Act>) {
    todo != [] ==>
      match todo[0]
      case FindAgain(_) => Paired(todo[1..])
      case AddMain(c) => |todo| >= 2 && todo[1] == AddTotal(c) && Paired(todo[2..])
      case AddOther(c) => |todo| >= 2 && todo[1] == AddTotal(c) && Paired(todo[2..])
      case AddTotal(_) => false
  }

  /** Counted for the worker, not yet overall. */
  ghost function Owed(t: Task): Counts {
    if t.todo != [] && t.todo[0].AddTotal? then t.todo[0].c else ZERO
  }

  /** All that will still be counted overall. */
  ghost function Ahead(todo: seq<Act>): Counts {
    if todo == [] then ZERO
    else if todo[0].AddTotal? then Plus(todo[0].c, Ahead(todo[1..]))
    else Ahead(todo[1..])
  }

  ghost predicate SoundTask(t: Task, records: nat) {
    && t.main < records && t.other < records
    && (if t.todo != [] && t.todo[0].AddTotal? then Paired(t.todo[1..]) else Paired(t.todo))
  }

  ghost function AllOwed(tasks: seq<Task>): Counts {
    if tasks == [] then ZERO else Plus(AllOwed(tasks[..|tasks| - 1]), Owed(tasks[|tasks| - 1]))
  }

  ghost function AllAhead(tasks: seq<Task>): Counts {
    if tasks == [] then ZERO else Plus(AllAhead(tasks[..|tasks| - 1]), Ahead(tasks[|tasks| - 1].todo))
  }

  ghost predicate HasKey(index: map<string, nat>, r: nat) {
    exists k :: k in index && index[k] == r
  }

  /** Every entry sits under exactly one key. */
  ghost predicate OneKeyEach(s: State) {
    && (forall k :: k in s.index ==> s.index[k] < |s.records|)
    && (forall j, k :: j in s.index && k in s.index && s.index[j] == s.index[k] ==> j == k)
    && (forall r: nat :: r < |s.records| ==> HasKey(s.index, r))
  }

  /** The table as a reader of the statistics sees it. */
  ghost function View(s: State): Table
    requires OneKeyEach(s)
  {
    map k | k in s.index :: Worker("", s.records[s.index[k]], 0.0, FRESH)
  }

  ghost predicate Inv(s: State) {
    && OneKeyEach(s)
    && (forall i :: 0 <= i < |s.tasks| ==> SoundTask(s.tasks[i], |s.records|))
    && Plus(s.overall, AllOwed(s.tasks)) == Total(View(s))
  }

  // ---------------------------------------------------------------- sums

  lemma PlusZero(a: Counts)
    ensures Plus(a, ZERO) == a == Plus(ZERO, a)
  {
  }

  lemma PlusSwap(a: Counts, b: Counts)
    ensures Plus(a, b) == Plus(b, a)
  {
  }

  lemma PlusShift(a: Counts, b: Counts, c: Counts)
    ensures Plus(Plus(a, b), c) == Plus(Plus(a, Plus(b, c)), ZERO)
  {
  }

  // ---------------------------------------------------------------- one step

  lemma {:induction false} OwedUpdate(tasks: seq<Task>, i: nat, t: Task)
    requires i < |tasks|
    ensures Plus(AllOwed(tasks[i := t]), Owed(tasks[i])) == Plus(AllOwed(tasks), Owed(t))
    ensures Plus(AllAhead(tasks[i := t]), Ahead(tasks[i].todo)) == Plus(AllAhead(tasks), Ahead(t.todo))
  {
    hide Owed, Ahead;
    var n := |tasks| - 1;
    if i == n {
      assert tasks[i := t][..n] == tasks[..n];
    } else {
      assert tasks[i := t][..n] == tasks[..n][i := t];
      OwedUpdate(tasks[..n], i, t);
    }
  }

  lemma OwedSnoc(tasks: seq<Task>, t: Task)
    ensures AllOwed(tasks + [t]) == Plus(AllOwed(tasks), Owed(t))
    ensures AllAhead(tasks + [t]) == Plus(AllAhead(tasks), Ahead(t.todo))
  {
    assert (tasks + [t])[..|tasks|] == tasks;
  }

  lemma FoundKeys(s: State, who: Identity)
    requires OneKeyEach(s)
    ensures var (t, r) := Found(s, who);
      OneKeyEach(t) && r < |t.records| && |t.records| >= |s.records| && t.tasks == s.tasks && t.overall == s.overall
  {
    hide StatsKey;
    var (t, r) := Found(s, who);
    var key := StatsKey(who);
    forall q: nat | q < |t.records|
      ensures HasKey(t.index, q)
    {
      if q < |s.records| {
        assert HasKey(s.index, q);
        var k :| k in s.index && s.index[k] == q;
        assert t.index[if k in t.index then k else key] == q;
      } else {
        assert t.index[key] == q;
      }
    }
  }

  lemma ViewMoved(s: State, t: State, remote: string, key: string)
    requires OneKeyEach(s) && OneKeyEach(t) && remote in s.index && key !in s.index && t.records == s.records
    requires t.index == (s.index - {remote})[key := s.index[remote]]
    ensures Total(View(t)) == Total(View(s))
  {
    hide Total;
    var v := View(s);
    TotalMove(v, remote, key, v[remote]);
    assert View(t) == (v - {remote})[key := v[remote]];
  }

  lemma ViewNew(s: State, t: State, key: string)
    requires OneKeyEach(s) && OneKeyEach(t) && key !in s.index && t.records == s.records + [ZERO]
    requires t.index == s.index[key := |s.records|]
    ensures Total(View(t)) == Total(View(s))
  {
    hide Total;
    var w := Worker("", ZERO, 0.0, FRESH);
    TotalInsert(View(s), key, w);
    assert View(t) == View(s)[key := w];
    PlusZero(Total(View(s)));
  }

  /** Claiming an entry moves no count, whichever way it is found. */
  lemma FoundTotal(s: State, who: Identity)
    requires OneKeyEach(s)
    ensures OneKeyEach(Found(s, who).0) && Total(View(Found(s, who).0)) == Total(View(s))
  {
    hide StatsKey, Total, View, OneKeyEach;
    FoundKeys(s, who);
    var t := Found(s, who).0;
    var key, remote := StatsKey(who), who.remoteAddr;
    if key !in s.index {
      if remote in s.index {
        ViewMoved(s, t, remote, key);
      } else {
        ViewNew(s, t, key);
      }
    }
  }

  lemma CreditView(s: State, r: nat, c: Counts, key: string)
    requires OneKeyEach(s) && r < |s.records| && key in s.index && s.index[key] == r
    ensures OneKeyEach(Credit(s, r, c))
    ensures View(Credit(s, r, c)) == View(s)[key := View(s)[key].(counts := Plus(View(s)[key].counts, c))]
  {
    hide Plus;
    assert forall q: nat :: q < |s.records| ==> HasKey(s.index, q);
  }

  lemma CreditTotal(s: State, r: nat, c: Counts)
    requires OneKeyEach(s) && r < |s.records|
    ensures OneKeyEach(Credit(s, r, c)) && Total(View(Credit(s, r, c))) == Plus(Total(View(s)), c)
  {
    assert HasKey(s.index, r);
    var key :| key in s.index && s.index[key] == r;
    assert key in View(s);
    CreditView(s, r, c, key);
    hide Total, Plus, Credit, View, OneKeyEach;
    TotalAdd(View(s), key, c);
  }

  lemma PairedPair(act: Act, c: Counts, rest: seq<Act>)
    requires (act == AddMain(c) || act == AddOther(c)) && Paired(rest)
    ensures Paired([act, AddTotal(c)] + rest) && Ahead([act, AddTotal(c)] + rest) == Plus(c, Ahead(rest))
  {
    var todo := [act, AddTotal(c)] + rest;
    assert todo[1..] == [AddTotal(c)] + rest && todo[2..] == rest && todo[1..][1..] == rest;
  }

  lemma PairedFind(who: Identity, rest: seq<Act>)
    requires Paired(rest)
    ensures Paired([FindAgain(who)] + rest) && Ahead([FindAgain(who)] + rest) == Ahead(rest)
  {
    assert ([FindAgain(who)] + rest)[1..] == rest;
  }

  lemma NoActs()
    ensures Paired([]) && Ahead([]) == ZERO
  {
  }

  lemma SimpleShape(act: Act, c: Counts)
    requires act == AddMain(c) || act == AddOther(c)
    ensures Paired([act, AddTotal(c)]) && Ahead([act, AddTotal(c)]) == c
  {
    NoActs();
    PlusZero(c);
    hide Paired, Ahead, Plus;
    PairedPair(act, c, []);
    assert [act, AddTotal(c)] + [] == [act, AddTotal(c)];
  }

  lemma BlockShape(later: Identity)
    ensures Paired(Program(BlockFound(later))) && Ahead(Program(BlockFound(later))) == Plus(ONE_BLOCK, ONE_SHARE)
  {
    hide Paired, Ahead, Plus;
    var rest := [AddMain(ONE_SHARE), AddTotal(ONE_SHARE)];
    SimpleShape(AddMain(ONE_SHARE), ONE_SHARE);
    PairedPair(AddOther(ONE_BLOCK), ONE_BLOCK, rest);
    PairedFind(later, [AddOther(ONE_BLOCK), AddTotal(ONE_BLOCK)] + rest);
    assert Program(BlockFound(later)) == [FindAgain(later)] + ([AddOther(ONE_BLOCK), AddTotal(ONE_BLOCK)] + rest);
  }

  lemma RefusedShape(later: Identity, c: Counts)
    ensures Paired(Program(BlockRefused(later, c))) && Ahead(Program(BlockRefused(later, c))) == c
  {
    hide Paired, Ahead, Plus;
    SimpleShape(AddOther(c), c);
    PairedFind(later, [AddOther(c), AddTotal(c)]);
    assert Program(BlockRefused(later, c)) == [FindAgain(later)] + [AddOther(c), AddTotal(c)];
  }

  lemma ProgramShape(o: Outcome)
    ensures Paired(Program(o)) && (Program(o) != [] ==> !Program(o)[0].AddTotal?)
    ensures Ahead(Program(o)) == OutcomeCounts(o)
  {
    hide Paired, Ahead, Plus;
    match o
    case Simple(c) => SimpleShape(AddMain(c), c);
    case BlockFound(later) => BlockShape(later);
    case BlockRefused(later, c) => RefusedShape(later, c);
    case Error => NoActs();
  }

  /** What a submit adds to the totals in the end. */
  function OutcomeCounts(o: Outcome): Counts {
    match o
    case Simple(c) => c
    case BlockFound(_) => Plus(ONE_BLOCK, ONE_SHARE)
    case BlockRefused(_, c) => c
    case Error => ZERO
  }

  function Outcomes(events: seq<Event>): Counts {
    if events == [] then ZERO
    else
      var last := events[|events| - 1];
      Plus(Outcomes(events[..|events| - 1]), if last.Submit? then OutcomeCounts(last.outcome) else ZERO)
  }

  lemma FoundKeepsInv(s: State, who: Identity)
    requires Inv(s)
    ensures Inv(Found(s, who).0)
  {
    hide Found, SoundTask;
    FoundKeys(s, who);
    FoundTotal(s, who);
    TasksGrow(s.tasks, |s.records|, |Found(s, who).0.records|);
  }

  lemma TasksGrow(tasks: seq<Task>, m: nat, n: nat)
    requires m <= n && forall i :: 0 <= i < |tasks| ==> SoundTask(tasks[i], m)
    ensures forall i :: 0 <= i < |tasks| ==> SoundTask(tasks[i], n)
  {
  }

  /** One task goes on, the totals and the table having changed in step. */
  lemma TaskMoves(s: State, u: State, i: nat, t: Task)
    requires Inv(s) && OneKeyEach(u) && i < |s.tasks| && SoundTask(t, |u.records|)
    requires |u.records| >= |s.records| && u.tasks == s.tasks[i := t]
    requires Plus(Plus(u.overall, Total(View(s))), Owed(t)) == Plus(Plus(s.overall, Total(View(u))), Owed(s.tasks[i]))
    ensures Inv(u)
  {
    hide SoundTask, Owed, Total, View, OneKeyEach;
    OwedUpdate(s.tasks, i, t);
    TasksGrow(s.tasks, |s.records|, |u.records|);
  }

  lemma PopFind(t: Task, n: nat)
    requires SoundTask(t, n) && t.todo != [] && t.todo[0].FindAgain?
    ensures Paired(t.todo[1..]) && Owed(t) == ZERO == Owed(t.(todo := t.todo[1..]))
  {
  }

  lemma PopAdd(t: Task, n: nat)
    requires SoundTask(t, n) && t.todo != [] && (t.todo[0].AddMain? || t.todo[0].AddOther?)
    ensures SoundTask(t.(todo := t.todo[1..]), n)
    ensures Owed(t) == ZERO && Owed(t.(todo := t.todo[1..])) == t.todo[0].c
  {
    assert t.todo[1..][1..] == t.todo[2..];
  }

  lemma PopTotal(t: Task, n: nat)
    requires SoundTask(t, n) && t.todo != [] && t.todo[0].AddTotal?
    ensures SoundTask(t.(todo := t.todo[1..]), n)
    ensures Owed(t) == t.todo[0].c && Owed(t.(todo := t.todo[1..])) == ZERO
  {
  }

  lemma SameView(s: State, t: State)
    requires OneKeyEach(s) && s.index == t.index && s.records == t.records
    ensures OneKeyEach(t) && View(t) == View(s)
  {
  }

  lemma TaskOf(s: State, i: nat)
    requires Inv(s) && i < |s.tasks|
    ensures SoundTask(s.tasks[i], |s.records|) && OneKeyEach(s)
  {
  }

  lemma MovedTask(t: Task, r: nat, n: nat)
    requires Paired(t.todo) && Owed(t) == ZERO && t.main < n && r < n && (t.todo != [] ==> !t.todo[0].AddTotal?)
    ensures SoundTask(t.(other := r), n) && Owed(t.(other := r)) == ZERO
  {
  }

  lemma NotTotal(todo: seq<Act>)
    requires Paired(todo)
    ensures todo != [] ==> !todo[0].AddTotal?
  {
  }

  lemma AdvanceFind(s: State, i: nat)
    requires Inv(s) && i < |s.tasks| && s.tasks[i].todo != [] && s.tasks[i].todo[0].FindAgain?
    ensures Inv(Advance(s, i))
  {
    TaskOf(s, i);
    var t := s.tasks[i];
    var who := t.todo[0].who;
    assert t.main < |s.records|;
    PopFind(t, |s.records|);
    hide Found, Total, Inv, OneKeyEach, View, SoundTask, Paired, Owed, AllOwed;
    FoundKeys(s, who);
    FoundTotal(s, who);
    var (v, r) := Found(s, who);
    var u := Advance(s, i);
    assert u == v.(tasks := s.tasks[i := t.(todo := t.todo[1..], other := r)]);
    SameView(v, u);
    NotTotal(t.todo[1..]);
    MovedTask(t.(todo := t.todo[1..]), r, |u.records|);
    hide Advance;
    TaskMoves(s, u, i, t.(todo := t.todo[1..], other := r));
  }

  lemma AdvanceAdd(s: State, i: nat)
    requires Inv(s) && i < |s.tasks| && s.tasks[i].todo != []
    requires s.tasks[i].todo[0].AddMain? || s.tasks[i].todo[0].AddOther?
    ensures Inv(Advance(s, i))
  {
    TaskOf(s, i);
    var t := s.tasks[i];
    var c := t.todo[0].c;
    var r := if t.todo[0].AddMain? then t.main else t.other;
    assert r < |s.records|;
    PopAdd(t, |s.records|);
    hide Total, Inv, OneKeyEach, View, SoundTask, Paired, Owed, AllOwed, Plus;
    CreditTotal(s, r, c);
    PlusShift(s.overall, Total(View(s)), c);
    var v := Credit(s, r, c);
    var u := Advance(s, i);
    assert u == v.(tasks := s.tasks[i := t.(todo := t.todo[1..])]);
    SameView(v, u);
    hide Advance, Credit;
    TaskMoves(s, u, i, t.(todo := t.todo[1..]));
  }

  lemma AdvanceTotal(s: State, i: nat)
    requires Inv(s) && i < |s.tasks| && s.tasks[i].todo != [] && s.tasks[i].todo[0].AddTotal?
    ensures Inv(Advance(s, i))
  {
    TaskOf(s, i);
    var t := s.tasks[i];
    PopTotal(t, |s.records|);
    hide Total, Inv, OneKeyEach, View, SoundTask, Paired, Owed, AllOwed;
    var u := Advance(s, i);
    SameView(s, u);
    hide Advance;
    TaskMoves(s, u, i, t.(todo := t.todo[1..]));
  }

  lemma NewTask(r: nat, n: nat, o: Outcome)
    requires r < n
    ensures SoundTask(Task(r, r, Program(o), o), n) && Owed(Task(r, r, Program(o), o)) == ZERO
  {
    hide Program;
    ProgramShape(o);
  }

  lemma TaskJoins(t: State, task: Task)
    requires Inv(t) && SoundTask(task, |t.records|) && Owed(task) == ZERO
    ensures Inv(t.(tasks := t.tasks + [task]))
  {
    hide Total, SoundTask, Owed, View, AllOwed, AllAhead, Ahead;
    OwedSnoc(t.tasks, task);
    SameView(t, t.(tasks := t.tasks + [task]));
  }

  lemma SubmitKeepsInv(s: State, who: Identity, o: Outcome)
    requires Inv(s)
    ensures Inv(Step(s, Submit(who, o)))
  {
    FoundKeepsInv(s, who);
    assert OneKeyEach(s);
    hide Found, Inv, SoundTask, Program, OneKeyEach, Owed;
    FoundKeys(s, who);
    var (t, r) := Found(s, who);
    NewTask(r, |t.records|, o);
    TaskJoins(t, Task(r, r, Program(o), o));
  }

  lemma StepKeepsInv(s: State, e: Event)
    requires Inv(s)
    ensures Inv(Step(s, e))
  {
    hide Inv, Found, Advance, Program;
    match e
    case Submit(who, o) => SubmitKeepsInv(s, who, o);
    case Look(who) => FoundKeepsInv(s, who);
    case Run(i) =>
      if i < |s.tasks| && s.tasks[i].todo != [] {
        if s.tasks[i].todo[0].FindAgain? {
          AdvanceFind(s, i);
        } else if s.tasks[i].todo[0].AddTotal? {
          AdvanceTotal(s, i);
        } else {
          AdvanceAdd(s, i);
        }
      }
  }

  /** Totals now and what is still to come change only when a submit starts. */
  lemma StepCounts(s: State, e: Event)
    requires Inv(s)
    ensures Plus(Step(s, e).overall, AllAhead(Step(s, e).tasks)) ==
            Plus(Plus(s.overall, AllAhead(s.tasks)), if e.Submit? then OutcomeCounts(e.outcome) else ZERO)
  {
    hide Paired, StatsKey, AllAhead;
    match e
    case Submit(who, o) =>
      var (t, r) := Found(s, who);
      ProgramShape(o);
      OwedSnoc(s.tasks, Task(r, r, Program(o), o));
    case Look(who) =>
    case Run(i) =>
      if i < |s.tasks| && s.tasks[i].todo != [] {
        AdvanceCounts(s, i);
      }
  }

  lemma {:induction false} AheadPop(todo: seq<Act>)
    requires todo != []
    ensures Ahead(todo) == Plus(Ahead(todo[1..]), if todo[0].AddTotal? then todo[0].c else ZERO)
  {
    var first, rest := todo[0], Ahead(todo[1..]);
    assert Ahead(todo) == if first.AddTotal? then Plus(first.c, rest) else rest;
    hide Ahead;
    PlusZero(rest);
    if first.AddTotal? {
      PlusSwap(first.c, rest);
    }
  }

  lemma AdvanceEffect(s: State, i: nat)
    requires i < |s.tasks| && s.tasks[i].todo != []
    ensures var t, u := s.tasks[i], Advance(s, i);
      && i < |u.tasks| && u.tasks == s.tasks[i := u.tasks[i]] && u.tasks[i].todo == t.todo[1..]
      && u.overall == if t.todo[0].AddTotal? then Plus(s.overall, t.todo[0].c) else s.overall
  {
  }

  lemma AdvanceCounts(s: State, i: nat)
    requires i < |s.tasks| && s.tasks[i].todo != []
    ensures Plus(Advance(s, i).overall, AllAhead(Advance(s, i).tasks)) == Plus(s.overall, AllAhead(s.tasks))
  {
    var t := s.tasks[i];
    var u := Advance(s, i);
    hide AllAhead, Ahead, Advance, Owed, AllOwed;
    AdvanceEffect(s, i);
    OwedUpdate(s.tasks, i, u.tasks[i]);
    AheadPop(t.todo);
  }

  lemma Untouched()
    ensures Inv(EMPTY) && AllAhead(EMPTY.tasks) == ZERO
  {
    assert OneKeyEach(EMPTY);
    NoEntries(EMPTY);
    assert AllOwed([]) == ZERO;
  }

  lemma NoEntries(s: State)
    requires OneKeyEach(s) && s.index == map[]
    ensures Total(View(s)) == ZERO
  {
    assert View(s) == map[];
  }

  lemma {:induction false} AlwaysSound(events: seq<Event>)
    ensures Inv(Reach(events))
    ensures Plus(Reach(events).overall, AllAhead(Reach(events).tasks)) == Outcomes(events)
  {
    PlusZero(ZERO);
    hide Inv, Step, AllAhead, Plus;
    if events == [] {
      Untouched();
    } else {
      var before := events[..|events| - 1];
      AlwaysSound(before);
      StepKeepsInv(Reach(before), events[|events| - 1]);
      StepCounts(Reach(before), events[|events| - 1]);
    }
  }

  // ---------------------------------------------------------------- at rest

  ghost predicate AtRest(s: State) {
    forall i :: 0 <= i < |s.tasks| ==> s.tasks[i].todo == []
  }

  lemma {:induction false} NothingAhead(tasks: seq<Task>)
    requires forall i :: 0 <= i < |tasks| ==> tasks[i].todo == []
    ensures AllOwed(tasks) == ZERO && AllAhead(tasks) == ZERO
  {
    PlusZero(ZERO);
    hide Owed, Ahead, Plus;
    if tasks == [] {
    } else {
      NothingAhead(tasks[..|tasks| - 1]);
      NothingTodo(tasks[|tasks| - 1]);
    }
  }

  lemma {:induction false} NothingTodo(t: Task)
    requires t.todo == []
    ensures Owed(t) == ZERO == Ahead(t.todo)
  {
  }

  lemma {:induction false} BlocksWithinShares(events: seq<Event>)
    requires forall e :: e in events && e.Submit? ==> SingleMove(e.outcome)
    ensures Outcomes(events).blocks <= Outcomes(events).shares
  {
    if events == [] {
    } else {
      BlocksWithinShares(events[..|events| - 1]);
      assert events[|events| - 1] in events;
    }
  }

  /** The counters processSubmit moves: one of shares, stale and invalid. */
  predicate SingleMove(o: Outcome) {
    match o
    case Simple(c) => c == ONE_SHARE || c == ONE_STALE || c == ONE_INVALID
    case BlockRefused(_, c) => c == ONE_STALE || c == ONE_INVALID
    case _ => true
  }

  /** Once no submit is under way, whatever the interleaving and whichever entries changed their keys: the
      totals are the sums over the table, they count every submit's outcome once, and there are no more
      blocks than shares. */
  lemma {:induction false} TotalsAtRest(events: seq<Event>)
    requires AtRest(Reach(events))
    requires forall e :: e in events && e.Submit? ==> SingleMove(e.outcome)
    ensures var s := Reach(events);
      && OneKeyEach(s)
      && s.overall == Total(View(s)) == Outcomes(events)
      && s.overall.blocks <= s.overall.shares
  {
    AlwaysSound(events);
    NothingAhead(Reach(events).tasks);
    BlocksWithinShares(events);
    PlusZero(Reach(events).overall);
    hide Total, View, OneKeyEach, Reach, Outcomes, SoundTask, AllOwed, AllAhead, Plus;
  }

  // ---------------------------------------------------------------- a submit left alone

  /** Task i runs to its end with nothing in between. */
  function Finish(s: State, i: nat): State
    decreases if i < |s.tasks| then |s.tasks[i].todo| else 0
  {
    if i < |s.tasks| && s.tasks[i].todo != [] then Finish(Advance(s, i), i) else s
  }

  lemma {:induction false} FinishReached(events: seq<Event>, i: nat) returns (longer: seq<Event>)
    ensures Reach(longer) == Finish(Reach(events), i)
    ensures Outcomes(longer) == Outcomes(events)
    decreases if i < |Reach(events).tasks| then |Reach(events).tasks[i].todo| else 0
  {
    var s := Reach(events);
    if i < |s.tasks| && s.tasks[i].todo != [] {
      assert (events + [Run(i)])[..|events|] == events;
      assert Reach(events + [Run(i)]) == Advance(s, i);
      PlusZero(Outcomes(events));
      longer := FinishReached(events + [Run(i)], i);
    } else {
      longer := events;
    }
  }

  /** Without another claim only the counts of the task's entries and the totals change. */
  lemma {:induction false} FinishEnds(s: State, i: nat)
    requires i < |s.tasks| && forall x :: x in s.tasks[i].todo ==> !x.FindAgain?
    ensures var n := Finish(s, i);
      && n.tasks == s.tasks[i := s.tasks[i].(todo := [])] && n.index == s.index && |n.records| == |s.records|
    decreases |s.tasks[i].todo|
  {
    if s.tasks[i].todo == [] {
      assert s.tasks[i := s.tasks[i].(todo := [])] == s.tasks;
    } else {
      FinishEnds(Advance(s, i), i);
    }
  }
}
