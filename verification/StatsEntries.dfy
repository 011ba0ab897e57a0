/** Single entries of the statistics table under the interleavings of StatsRace: what each one holds once no
    submit is under way, and which keys and migrations make a found block land on another entry. */
module StatsEntries {
  import opened Wrappers
  import opened Ledger
  import opened StatsRace

  // ---------------------------------------------------------------- what a submit books where

  function OnlyIf(b: bool, c: Counts): Counts {
    if b then c else ZERO
  }

  /** What a submit will have added to entry r. */
  function Booked(t: Task, r: nat): Counts {
    match t.outcome
    case Simple(c) => OnlyIf(t.main == r, c)
    case BlockFound(_) => Plus(OnlyIf(t.other == r, ONE_BLOCK), OnlyIf(t.main == r, ONE_SHARE))
    case BlockRefused(_, c) => OnlyIf(t.other == r, c)
    case Error => ZERO
  }

  /** What the rest of a submit still adds to entry r. */
  ghost function Left(todo: seq<Act>, main: nat, other: nat, r: nat): Counts {
    if todo == [] then ZERO
    else
      var rest := Left(todo[1..], main, other, r);
      match todo[0]
      case AddMain(c) => Plus(OnlyIf(main == r, c), rest)
      case AddOther(c) => Plus(OnlyIf(other == r, c), rest)
      case _ => rest
  }

  ghost function LeftOf(t: Task, r: nat): Counts {
    Left(t.todo, t.main, t.other, r)
  }

  ghost function AllLeft(tasks: seq<Task>, r: nat): Counts {
    if tasks == [] then ZERO else Plus(AllLeft(tasks[..|tasks| - 1], r), LeftOf(tasks[|tasks| - 1], r))
  }

  ghost function AllBooked(tasks: seq<Task>, r: nat): Counts {
    if tasks == [] then ZERO else Plus(AllBooked(tasks[..|tasks| - 1], r), Booked(tasks[|tasks| - 1], r))
  }

  function RecordAt(s: State, r: nat): Counts {
    if r < |s.records| then s.records[r] else ZERO
  }

  /** What is left of a submit is the end of what it set out to do. */
  ghost predicate Ends(t: Task) {
    var p := Program(t.outcome);
    |t.todo| <= |p| && t.todo == p[|p| - |t.todo|..]
  }

  ghost predicate Accounts(s: State) {
    && (forall i :: 0 <= i < |s.tasks| ==>
          Ends(s.tasks[i]) && s.tasks[i].main < |s.records| && s.tasks[i].other < |s.records|)
    && forall r: nat :: Plus(RecordAt(s, r), AllLeft(s.tasks, r)) == AllBooked(s.tasks, r)
  }

  // ---------------------------------------------------------------- every step keeps the accounts

  lemma {:induction false} SumsUpdate(tasks: seq<Task>, i: nat, t: Task, r: nat)
    requires i < |tasks|
    ensures Plus(AllLeft(tasks[i := t], r), LeftOf(tasks[i], r)) == Plus(AllLeft(tasks, r), LeftOf(t, r))
    ensures Plus(AllBooked(tasks[i := t], r), Booked(tasks[i], r)) == Plus(AllBooked(tasks, r), Booked(t, r))
  {
    hide LeftOf, Booked;
    var n := |tasks| - 1;
    if i == n {
      assert tasks[i := t][..n] == tasks[..n];
    } else {
      assert tasks[i := t][..n] == tasks[..n][i := t];
      SumsUpdate(tasks[..n], i, t, r);
    }
  }

  lemma SumsSnoc(tasks: seq<Task>, t: Task, r: nat)
    ensures AllLeft(tasks + [t], r) == Plus(AllLeft(tasks, r), LeftOf(t, r))
    ensures AllBooked(tasks + [t], r) == Plus(AllBooked(tasks, r), Booked(t, r))
  {
    assert (tasks + [t])[..|tasks|] == tasks;
  }

  lemma LeftPair(act: Act, c: Counts, rest: seq<Act>, main: nat, other: nat, r: nat)
    requires act == AddMain(c) || act == AddOther(c)
    ensures Left([act, AddTotal(c)] + rest, main, other, r) ==
            Plus(OnlyIf((if act.AddMain? then main else other) == r, c), Left(rest, main, other, r))
  {
    var todo := [act, AddTotal(c)] + rest;
    assert todo[1..] == [AddTotal(c)] + rest && todo[1..][1..] == rest;
  }

  lemma LeftNothing(main: nat, other: nat, r: nat)
    ensures Left([], main, other, r) == ZERO
  {
  }

  lemma LeftFind(who: Identity, rest: seq<Act>, main: nat, other: nat, r: nat)
    ensures Left([FindAgain(who)] + rest, main, other, r) == Left(rest, main, other, r)
  {
    assert ([FindAgain(who)] + rest)[1..] == rest;
  }

  /** A whole submit books what its outcome says, wherever its second claim leads. */
  lemma ProgramBooks(main: nat, other: nat, o: Outcome, r: nat)
    ensures LeftOf(Task(main, other, Program(o), o), r) == Booked(Task(main, other, Program(o), o), r)
  {
    LeftNothing(main, other, r);
    hide Left, Plus;
    match o
    case Simple(c) =>
      LeftPair(AddMain(c), c, [], main, other, r);
      assert Program(o) == [AddMain(c), AddTotal(c)] + [];
      PlusZero(OnlyIf(main == r, c));
    case BlockFound(later) =>
      var rest := [AddMain(ONE_SHARE), AddTotal(ONE_SHARE)] + [];
      LeftPair(AddMain(ONE_SHARE), ONE_SHARE, [], main, other, r);
      LeftPair(AddOther(ONE_BLOCK), ONE_BLOCK, rest, main, other, r);
      LeftFind(later, [AddOther(ONE_BLOCK), AddTotal(ONE_BLOCK)] + rest, main, other, r);
      assert Program(o) == [FindAgain(later)] + ([AddOther(ONE_BLOCK), AddTotal(ONE_BLOCK)] + rest);
      PlusZero(OnlyIf(main == r, ONE_SHARE));
    case BlockRefused(later, c) =>
      LeftPair(AddOther(c), c, [], main, other, r);
      LeftFind(later, [AddOther(c), AddTotal(c)] + [], main, other, r);
      assert Program(o) == [FindAgain(later)] + ([AddOther(c), AddTotal(c)] + []);
      PlusZero(OnlyIf(other == r, c));
    case Error =>
  }

  lemma EndsPop(t: Task)
    requires Ends(t) && t.todo != []
    ensures Ends(t.(todo := t.todo[1..]))
    ensures t.todo[0].FindAgain? ==> t.todo == Program(t.outcome)
  {
    var p := Program(t.outcome);
    assert t.todo[1..] == p[|p| - |t.todo| + 1..];
    assert t.todo[0] == p[|p| - |t.todo|];
    if |t.todo| == |p| {
      assert p[0..] == p;
    }
  }

  /** The step of a task: what it adds to an entry, it has no longer to add. */
  lemma TaskBooks(t: Task, u: Task, r: nat)
    requires Ends(t) && t.todo != []
    requires u == t.(todo := t.todo[1..]) || (t.todo[0].FindAgain? && u == t.(todo := t.todo[1..], other := u.other))
    ensures Ends(u)
    ensures match t.todo[0]
            case AddMain(c) => u.other == t.other ==>
                LeftOf(t, r) == Plus(OnlyIf(t.main == r, c), LeftOf(u, r)) && Booked(t, r) == Booked(u, r)
            case AddOther(c) => u.other == t.other ==>
                LeftOf(t, r) == Plus(OnlyIf(t.other == r, c), LeftOf(u, r)) && Booked(t, r) == Booked(u, r)
            case AddTotal(_) => LeftOf(t, r) == LeftOf(u, r) && Booked(t, r) == Booked(u, r)
            case FindAgain(_) => LeftOf(t, r) == Booked(t, r) && LeftOf(u, r) == Booked(u, r)
  {
    EndsPop(t);
    if t.todo[0].FindAgain? {
      ProgramBooks(t.main, t.other, t.outcome, r);
      ProgramBooks(t.main, u.other, t.outcome, r);
      hide Program;
      assert t == Task(t.main, t.other, Program(t.outcome), t.outcome);
      assert [t.todo[0]] + t.todo[1..] == t.todo;
      LeftFind(t.todo[0].who, t.todo[1..], t.main, u.other, r);
    }
  }

  lemma FoundRecords(s: State, who: Identity)
    requires OneKeyEach(s)
    ensures var (t, q) := Found(s, who);
      && t.tasks == s.tasks && q < |t.records| && |s.records| <= |t.records|
      && forall r: nat :: RecordAt(t, r) == RecordAt(s, r)
  {
    hide StatsKey;
    FoundKeys(s, who);
  }

  lemma SumsBalance(before: Counts, after: Counts, left: Counts, left1: Counts, booked: Counts, booked1: Counts,
                    l: Counts, l1: Counts, k: Counts, k1: Counts)
    requires Plus(before, left) == booked
    requires Plus(left1, l) == Plus(left, l1) && Plus(booked1, k) == Plus(booked, k1)
    requires Plus(Plus(after, l1), k) == Plus(Plus(before, l), k1)
    ensures Plus(after, left1) == booked1
  {
  }

  /** One task goes on while at most one entry changes. */
  lemma TaskMoves(s: State, u: State, i: nat, t: Task)
    requires Accounts(s) && i < |s.tasks| && u.tasks == s.tasks[i := t] && |u.records| >= |s.records|
    requires Ends(t) && t.main < |u.records| && t.other < |u.records|
    requires forall r: nat ::
      Plus(Plus(RecordAt(u, r), LeftOf(t, r)), Booked(s.tasks[i], r)) ==
      Plus(Plus(RecordAt(s, r), LeftOf(s.tasks[i], r)), Booked(t, r))
    ensures Accounts(u)
  {
    hide Ends, LeftOf, Booked, RecordAt, Plus;
    forall r: nat
      ensures Plus(RecordAt(u, r), AllLeft(u.tasks, r)) == AllBooked(u.tasks, r)
    {
      SumsUpdate(s.tasks, i, t, r);
      SumsBalance(RecordAt(s, r), RecordAt(u, r), AllLeft(s.tasks, r), AllLeft(u.tasks, r),
                  AllBooked(s.tasks, r), AllBooked(u.tasks, r), LeftOf(s.tasks[i], r), LeftOf(t, r),
                  Booked(s.tasks[i], r), Booked(t, r));
    }
  }

  lemma CreditRecords(s: State, q: nat, c: Counts, r: nat)
    requires q < |s.records|
    ensures RecordAt(Credit(s, q, c), r) == Plus(RecordAt(s, r), OnlyIf(q == r, c))
  {
  }

  lemma Shifted(a: Counts, x: Counts, l: Counts, k: Counts)
    ensures Plus(Plus(Plus(a, x), l), k) == Plus(Plus(a, Plus(x, l)), k)
  {
  }

  lemma AddKeeps(s: State, i: nat)
    requires Accounts(s) && i < |s.tasks| && s.tasks[i].todo != []
    requires s.tasks[i].todo[0].AddMain? || s.tasks[i].todo[0].AddOther?
    ensures Accounts(Advance(s, i))
  {
    var t := s.tasks[i];
    var u := t.(todo := t.todo[1..]);
    var c := t.todo[0].c;
    var q := if t.todo[0].AddMain? then t.main else t.other;
    var d := Advance(s, i);
    hide Ends, LeftOf, Booked, Plus;
    forall r: nat
      ensures Plus(Plus(RecordAt(d, r), LeftOf(u, r)), Booked(t, r)) ==
              Plus(Plus(RecordAt(s, r), LeftOf(t, r)), Booked(u, r))
    {
      TaskBooks(t, u, r);
      CreditRecords(s, q, c, r);
      Shifted(RecordAt(s, r), OnlyIf(q == r, c), LeftOf(u, r), Booked(t, r));
    }
    TaskBooks(t, u, 0);
    TaskMoves(s, d, i, u);
  }

  lemma TotalKeeps(s: State, i: nat)
    requires Accounts(s) && i < |s.tasks| && s.tasks[i].todo != [] && s.tasks[i].todo[0].AddTotal?
    ensures Accounts(Advance(s, i))
  {
    var t := s.tasks[i];
    var u := t.(todo := t.todo[1..]);
    var d := Advance(s, i);
    hide Ends, LeftOf, Booked, Plus;
    forall r: nat
      ensures Plus(Plus(RecordAt(d, r), LeftOf(u, r)), Booked(t, r)) ==
              Plus(Plus(RecordAt(s, r), LeftOf(t, r)), Booked(u, r))
    {
      TaskBooks(t, u, r);
    }
    TaskBooks(t, u, 0);
    TaskMoves(s, d, i, u);
  }

  lemma Swapped(a: Counts, x: Counts, y: Counts)
    ensures Plus(Plus(a, x), y) == Plus(Plus(a, y), x)
  {
  }

  lemma FindKeeps(s: State, i: nat)
    requires OneKeyEach(s) && Accounts(s) && i < |s.tasks| && s.tasks[i].todo != [] && s.tasks[i].todo[0].FindAgain?
    ensures Accounts(Advance(s, i))
  {
    var t := s.tasks[i];
    var (v, q) := Found(s, t.todo[0].who);
    FoundRecords(s, t.todo[0].who);
    var u := t.(todo := t.todo[1..], other := q);
    var d := Advance(s, i);
    assert d == v.(tasks := s.tasks[i := u]);
    hide Ends, LeftOf, Booked, Plus, Found, Advance, OneKeyEach;
    forall r: nat
      ensures Plus(Plus(RecordAt(d, r), LeftOf(u, r)), Booked(t, r)) ==
              Plus(Plus(RecordAt(s, r), LeftOf(t, r)), Booked(u, r))
    {
      TaskBooks(t, u, r);
      assert RecordAt(d, r) == RecordAt(v, r) == RecordAt(s, r);
      Swapped(RecordAt(s, r), Booked(u, r), Booked(t, r));
    }
    TaskBooks(t, u, 0);
    TaskMoves(s, d, i, u);
  }

  lemma SubmitKeeps(s: State, who: Identity, o: Outcome)
    requires OneKeyEach(s) && Accounts(s)
    ensures Accounts(Step(s, Submit(who, o)))
  {
    var (v, q) := Found(s, who);
    FoundRecords(s, who);
    var t := Task(q, q, Program(o), o);
    var d := Step(s, Submit(who, o));
    assert d == v.(tasks := s.tasks + [t]);
    assert Program(o)[0..] == Program(o);
    assert Ends(t);
    hide Ends, LeftOf, Booked, Plus, Found, Step, OneKeyEach, Program;
    forall r: nat
      ensures Plus(RecordAt(d, r), AllLeft(d.tasks, r)) == AllBooked(d.tasks, r)
    {
      SumsSnoc(s.tasks, t, r);
      ProgramBooks(q, q, o, r);
      assert RecordAt(d, r) == RecordAt(v, r) == RecordAt(s, r);
      PlusGroups(RecordAt(s, r), AllLeft(s.tasks, r), LeftOf(t, r));
    }
  }

  lemma PlusGroups(a: Counts, b: Counts, c: Counts)
    ensures Plus(a, Plus(b, c)) == Plus(Plus(a, b), c)
  {
  }

  lemma LookKeeps(s: State, who: Identity)
    requires OneKeyEach(s) && Accounts(s)
    ensures Accounts(Found(s, who).0)
  {
    FoundRecords(s, who);
    hide Ends, Found, OneKeyEach, Plus, RecordAt;
  }

  lemma StepKeeps(s: State, e: Event)
    requires OneKeyEach(s) && Accounts(s)
    ensures Accounts(Step(s, e))
  {
    hide Accounts, OneKeyEach, Advance, Found, Program;
    match e
    case Submit(who, o) => SubmitKeeps(s, who, o);
    case Look(who) => LookKeeps(s, who);
    case Run(i) =>
      if i < |s.tasks| && s.tasks[i].todo != [] {
        if s.tasks[i].todo[0].FindAgain? {
          FindKeeps(s, i);
        } else if s.tasks[i].todo[0].AddTotal? {
          TotalKeeps(s, i);
        } else {
          AddKeeps(s, i);
        }
      }
  }

  lemma NoAccounts()
    ensures Accounts(EMPTY)
  {
    PlusZero(ZERO);
    hide Plus;
  }

  lemma {:induction false} AlwaysAccounts(events: seq<Event>)
    ensures Accounts(Reach(events))
  {
    hide Accounts, Step, OneKeyEach, Inv;
    if events == [] {
      NoAccounts();
    } else {
      var before := events[..|events| - 1];
      AlwaysAccounts(before);
      KeysSound(before);
      StepKeeps(Reach(before), events[|events| - 1]);
    }
  }

  lemma KeysSound(events: seq<Event>)
    ensures OneKeyEach(Reach(events))
  {
    AlwaysSound(events);
  }

  // ---------------------------------------------------------------- one entry at rest

  lemma {:induction false} NothingLeft(tasks: seq<Task>, r: nat)
    requires forall i :: 0 <= i < |tasks| ==> tasks[i].todo == []
    ensures AllLeft(tasks, r) == ZERO
  {
    PlusZero(ZERO);
    hide Plus;
    if tasks == [] {
    } else {
      NothingLeft(tasks[..|tasks| - 1], r);
    }
  }

  /** Once no submit is under way, an entry holds exactly what the submits have booked on it. */
  lemma EntryAtRest(events: seq<Event>, r: nat)
    requires AtRest(Reach(events)) && r < |Reach(events).records|
    ensures Reach(events).records[r] == AllBooked(Reach(events).tasks, r)
  {
    var s := Reach(events);
    AlwaysAccounts(events);
    NothingLeft(s.tasks, r);
    hide Plus, Reach, AllLeft, AllBooked;
    assert RecordAt(s, r) == s.records[r];
    PlusZero(s.records[r]);
  }

  /** Of the blocks found: those booked on r for another entry's submit, those of r's own submits booked
      elsewhere; and the shares of r's submits that were not blocks. */
  ghost function Received(tasks: seq<Task>, r: nat): nat {
    if tasks == [] then 0
    else
      var t := tasks[|tasks| - 1];
      Received(tasks[..|tasks| - 1], r) + if t.outcome.BlockFound? && t.other == r && t.main != r then 1 else 0
  }

  ghost function Away(tasks: seq<Task>, r: nat): nat {
    if tasks == [] then 0
    else
      var t := tasks[|tasks| - 1];
      Away(tasks[..|tasks| - 1], r) + if t.outcome.BlockFound? && t.main == r && t.other != r then 1 else 0
  }

  ghost function Plain(tasks: seq<Task>, r: nat): nat {
    if tasks == [] then 0
    else
      var t := tasks[|tasks| - 1];
      Plain(tasks[..|tasks| - 1], r) + if t.outcome == Simple(ONE_SHARE) && t.main == r then 1 else 0
  }

  lemma TaskBalance(t: Task, r: nat)
    requires SingleMove(t.outcome)
    ensures Booked(t, r).shares - Booked(t, r).blocks ==
            (if t.outcome == Simple(ONE_SHARE) && t.main == r then 1 else 0) +
            (if t.outcome.BlockFound? && t.main == r && t.other != r then 1 else 0) -
            (if t.outcome.BlockFound? && t.other == r && t.main != r then 1 else 0)
  {
  }

  lemma {:induction false} SharesOverBlocks(tasks: seq<Task>, r: nat)
    requires forall i :: 0 <= i < |tasks| ==> SingleMove(tasks[i].outcome)
    ensures AllBooked(tasks, r).shares - AllBooked(tasks, r).blocks ==
            Plain(tasks, r) + Away(tasks, r) - Received(tasks, r)
  {
    hide SingleMove, Booked;
    if tasks == [] {
    } else {
      SharesOverBlocks(tasks[..|tasks| - 1], r);
      TaskBalance(tasks[|tasks| - 1], r);
    }
  }

  lemma {:induction false} TasksSingle(events: seq<Event>)
    requires forall e :: e in events && e.Submit? ==> SingleMove(e.outcome)
    ensures forall i :: 0 <= i < |Reach(events).tasks| ==> SingleMove(Reach(events).tasks[i].outcome)
  {
    if events == [] {
    } else {
      var before, e := events[..|events| - 1], events[|events| - 1];
      TasksSingle(before);
      assert e in events;
      OutcomesStay(Reach(before), e);
    }
  }

  /** A step changes no task's outcome, and adds only the submit's own. */
  lemma OutcomesStay(s: State, e: Event)
    ensures var n := Step(s, e).tasks;
      && |s.tasks| <= |n| <= |s.tasks| + 1
      && (forall i :: 0 <= i < |s.tasks| ==> n[i].outcome == s.tasks[i].outcome && n[i].main == s.tasks[i].main)
      && (|n| > |s.tasks| ==> e.Submit? && n[|s.tasks|].outcome == e.outcome)
  {
    hide StatsKey, Program;
  }

  /** Blocks within shares, entry by entry and exactly: an entry meets it if and only if it received no more
      blocks of other entries' submits than it has plain shares and blocks given away. */
  lemma EntryBlocksWithinShares(events: seq<Event>, r: nat)
    requires AtRest(Reach(events)) && r < |Reach(events).records|
    requires forall e :: e in events && e.Submit? ==> SingleMove(e.outcome)
    ensures var s := Reach(events);
      s.records[r].blocks <= s.records[r].shares <==> Received(s.tasks, r) <= Plain(s.tasks, r) + Away(s.tasks, r)
  {
    hide Reach, AllBooked, Received, Plain, Away;
    EntryAtRest(events, r);
    TasksSingle(events);
    SharesOverBlocks(Reach(events).tasks, r);
  }

  // ---------------------------------------------------------------- booking on one's own entry

  /** A found block's second claim leads back to the entry claimed first. */
  ghost predicate FindsOwn(s: State, e: Event) {
    e.Run? && e.i < |s.tasks| && s.tasks[e.i].outcome.BlockFound?
    && s.tasks[e.i].todo != [] && s.tasks[e.i].todo[0].FindAgain? ==>
      Found(s, s.tasks[e.i].todo[0].who).1 == s.tasks[e.i].main
  }

  ghost predicate AllFindOwn(events: seq<Event>) {
    forall j :: 0 <= j < |events| ==> FindsOwn(Reach(events[..j]), events[j])
  }

  ghost predicate OnOwn(s: State) {
    forall i :: 0 <= i < |s.tasks| && s.tasks[i].outcome.BlockFound? ==> s.tasks[i].other == s.tasks[i].main
  }

  /** A task's second entry is its first until it claims again, which it does once. */
  ghost predicate Fresh(s: State) {
    forall i :: 0 <= i < |s.tasks| ==> FreshTask(s.tasks[i])
  }

  ghost predicate FreshTask(t: Task) {
    Ends(t) && (t.todo != [] && t.todo[0].FindAgain? ==> t.other == t.main)
  }

  lemma FreshPop(t: Task, u: Task)
    requires FreshTask(t) && t.todo != [] && u == t.(todo := t.todo[1..], other := u.other)
    ensures FreshTask(u)
  {
    EndsPop(t);
  }

  lemma NewTaskFresh(q: nat, o: Outcome)
    ensures FreshTask(Task(q, q, Program(o), o))
  {
    assert Program(o)[0..] == Program(o);
  }

  lemma StillOwn(t: Task)
    requires FreshTask(t) && t.todo != [] && t.todo[0].FindAgain?
    ensures t.other == t.main
  {
  }

  /** One task is replaced. */
  lemma OneTask(s: State, n: State, i: nat, u: Task)
    requires Fresh(s) && i < |s.tasks| && n.tasks == s.tasks[i := u] && FreshTask(u)
    requires u.outcome == s.tasks[i].outcome && u.main == s.tasks[i].main
    requires s.tasks[i].other != s.tasks[i].main ==> u.other != u.main
    ensures Fresh(n)
    ensures OnOwn(n) <==> OnOwn(s) && (u.outcome.BlockFound? ==> u.other == u.main)
  {
    hide FreshTask;
    assert n.tasks[i] == u && forall k :: 0 <= k < |s.tasks| && k != i ==> n.tasks[k] == s.tasks[k];
    if OnOwn(n) {
      forall k | 0 <= k < |s.tasks| && s.tasks[k].outcome.BlockFound?
        ensures s.tasks[k].other == s.tasks[k].main
      {
        assert n.tasks[k].outcome == s.tasks[k].outcome;
        assert n.tasks[k].other == n.tasks[k].main;
      }
    }
  }

  lemma OwnRun(s: State, i: nat)
    requires Fresh(s) && i < |s.tasks| && s.tasks[i].todo != []
    ensures Fresh(Advance(s, i)) && (OnOwn(Advance(s, i)) <==> OnOwn(s) && FindsOwn(s, Run(i)))
  {
    var t := s.tasks[i];
    assert FreshTask(t);
    var q := if t.todo[0].FindAgain? then Found(s, t.todo[0].who).1 else t.other;
    var u := t.(todo := t.todo[1..], other := q);
    FreshPop(t, u);
    if t.todo[0].FindAgain? {
      StillOwn(t);
    }
    hide FreshTask, Fresh, OnOwn, Found;
    assert Advance(s, i).tasks == s.tasks[i := u];
    OneTask(s, Advance(s, i), i, u);
    if OnOwn(s) && !t.todo[0].FindAgain? {
      OwnAlready(s, i);
    }
  }

  lemma OwnAlready(s: State, i: nat)
    requires i < |s.tasks| && OnOwn(s)
    ensures s.tasks[i].outcome.BlockFound? ==> s.tasks[i].other == s.tasks[i].main
  {
  }

  lemma OwnSubmit(s: State, who: Identity, o: Outcome)
    requires Fresh(s)
    ensures Fresh(Step(s, Submit(who, o))) && (OnOwn(Step(s, Submit(who, o))) <==> OnOwn(s))
  {
    hide StatsKey, FreshTask, Program;
    var q := Found(s, who).1;
    var n := Step(s, Submit(who, o));
    NewTaskFresh(q, o);
    assert n.tasks == s.tasks + [Task(q, q, Program(o), o)];
    assert forall k :: 0 <= k < |s.tasks| ==> n.tasks[k] == s.tasks[k];
  }

  lemma OwnStep(s: State, e: Event)
    requires Fresh(s)
    ensures Fresh(Step(s, e)) && (OnOwn(Step(s, e)) <==> OnOwn(s) && FindsOwn(s, e))
  {
    match e
    case Submit(who, o) => OwnSubmit(s, who, o);
    case Look(who) =>
      assert Step(s, e).tasks == s.tasks;
    case Run(i) =>
      if i < |s.tasks| && s.tasks[i].todo != [] {
        hide Fresh, OnOwn, FindsOwn, Advance;
        OwnRun(s, i);
      }
  }

  lemma OwnNext(events: seq<Event>)
    requires events != []
    ensures var before, e := events[..|events| - 1], events[|events| - 1];
      AllFindOwn(events) <==> AllFindOwn(before) && FindsOwn(Reach(before), e)
  {
    hide FindsOwn, Reach;
    var before := events[..|events| - 1];
    assert forall i :: 0 <= i < |before| ==> before[i] == events[i] && before[..i] == events[..i];
  }

  /** Every found block is booked on its own submit's entry if and only if every second claim of one has led
      back there. */
  lemma {:induction false} OwnEntries(events: seq<Event>)
    ensures Fresh(Reach(events)) && (OnOwn(Reach(events)) <==> AllFindOwn(events))
  {
    hide Fresh, OnOwn, FindsOwn, Step, AllFindOwn;
    if events == [] {
      NoTasks();
    } else {
      var before := events[..|events| - 1];
      OwnEntries(before);
      OwnNext(events);
      OwnStep(Reach(before), events[|events| - 1]);
    }
  }

  lemma NoTasks()
    ensures Fresh(EMPTY) && OnOwn(EMPTY) && AllFindOwn([])
  {
  }

  lemma {:induction false} NothingReceived(tasks: seq<Task>, r: nat)
    requires forall i :: 0 <= i < |tasks| && tasks[i].outcome.BlockFound? ==> tasks[i].other == tasks[i].main
    ensures Received(tasks, r) == 0
  {
    if tasks == [] {
    } else {
      NothingReceived(tasks[..|tasks| - 1], r);
    }
  }

  /** In any run in which the second claims of found blocks lead back to their entries, every entry has its blocks
      within its shares once no submit is under way. */
  lemma OwnBlocksWithinShares(events: seq<Event>, r: nat)
    requires AtRest(Reach(events)) && r < |Reach(events).records| && AllFindOwn(events)
    requires forall e :: e in events && e.Submit? ==> SingleMove(e.outcome)
    ensures Reach(events).records[r].blocks <= Reach(events).records[r].shares
  {
    hide Reach, AllFindOwn, Fresh, Received, Plain, Away;
    OwnEntries(events);
    NothingReceived(Reach(events).tasks, r);
    EntryBlocksWithinShares(events, r);
  }

  // ---------------------------------------------------------------- keys and migrations

  /** Whose entry an event looks up. */
  function LooksUp(s: State, e: Event): Option<Identity> {
    match e
    case Submit(who, _) => Some(who)
    case Look(who) => Some(who)
    case Run(i) =>
      if i < |s.tasks| && s.tasks[i].todo != [] && s.tasks[i].todo[0].FindAgain? then Some(s.tasks[i].todo[0].who)
      else None
  }

  /** A lookup moves the entry under an identity's remote address to its own key, when that is unused. */
  predicate Migrates(s: State, who: Identity, key: string) {
    key == who.remoteAddr && StatsKey(who) !in s.index
  }

  function Rekeyed(s: State, e: Event, key: string): string {
    var who := LooksUp(s, e);
    if who.Some? && Migrates(s, who.value, key) then StatsKey(who.value) else key
  }

  /** The key of an entry at the end of a run that had the given key after its first i events. */
  ghost function KeyAfter(events: seq<Event>, i: nat, key: string): string
    requires i <= |events|
    decreases |events|
  {
    if i == |events| then key
    else
      var before := events[..|events| - 1];
      Rekeyed(Reach(before), events[|events| - 1], KeyAfter(before, i, key))
  }

  lemma StepRekeys(s: State, e: Event, key: string)
    requires key in s.index && OneKeyEach(s)
    ensures var k := Rekeyed(s, e, key); k in Step(s, e).index && Step(s, e).index[k] == s.index[key]
  {
    hide StatsKey, Program;
  }

  lemma {:induction false} KeyFollows(events: seq<Event>, i: nat, key: string)
    requires i <= |events| && key in Reach(events[..i]).index
    ensures var k := KeyAfter(events, i, key);
      k in Reach(events).index && Reach(events).index[k] == Reach(events[..i]).index[key]
    decreases |events|
  {
    if i == |events| {
      assert events[..i] == events;
    } else {
      var before := events[..|events| - 1];
      assert before[..i] == events[..i];
      KeyFollows(before, i, key);
      KeysSound(before);
      hide OneKeyEach, Step, Rekeyed;
      StepRekeys(Reach(before), events[|events| - 1], KeyAfter(before, i, key));
    }
  }

  lemma {:induction false} MainStays(events: seq<Event>, i: nat, t: nat)
    requires i <= |events| && t < |Reach(events[..i]).tasks|
    ensures t < |Reach(events).tasks| && Reach(events).tasks[t].main == Reach(events[..i]).tasks[t].main
    decreases |events|
  {
    if i == |events| {
      assert events[..i] == events;
    } else {
      var before := events[..|events| - 1];
      assert before[..i] == events[..i];
      MainStays(before, i, t);
      hide Step;
      OutcomesStay(Reach(before), events[|events| - 1]);
    }
  }

  /** Which entry a lookup leads to, told by that entry's one key. */
  lemma FoundByKey(s: State, who: Identity, key: string)
    requires OneKeyEach(s) && key in s.index
    ensures Found(s, who).1 == s.index[key] <==> key == StatsKey(who) || Migrates(s, who, key)
  {
    hide StatsKey;
  }

  /** When a second claim leads back: exactly when the entry claimed first, followed through all migrations since,
      now has the identity's key; or has its remote address as key, and the identity's key is unused. */
  lemma LeadsBack(events: seq<Event>, i: nat, t: nat, later: Identity)
    requires i < |events| && events[i].Submit? && |Reach(events[..i]).tasks| == t
    ensures var s, key := Reach(events), KeyAfter(events, i + 1, StatsKey(events[i].who));
      && t < |s.tasks|
      && (Found(s, later).1 == s.tasks[t].main <==> key == StatsKey(later) || Migrates(s, later, key))
  {
    var who := events[i].who;
    var before, after := Reach(events[..i]), Reach(events[..i + 1]);
    assert events[..i + 1][..i] == events[..i];
    assert after == Step(before, events[i]);
    SubmitClaims(before, who, events[i].outcome);
    hide Step, Found, Migrates, StatsKey, OneKeyEach, Reach;
    MainStays(events, i + 1, t);
    KeyFollows(events, i + 1, StatsKey(who));
    KeysSound(events);
    FoundByKey(Reach(events), later, KeyAfter(events, i + 1, StatsKey(who)));
  }

  /** A submit's first entry is the one under its identity's key. */
  lemma SubmitClaims(s: State, who: Identity, o: Outcome)
    ensures var n := Step(s, Submit(who, o));
      && |n.tasks| == |s.tasks| + 1 && StatsKey(who) in n.index
      && n.tasks[|s.tasks|].main == n.index[StatsKey(who)]
  {
    hide StatsKey, Program;
  }

  /** Not every entry does so: the block is booked on the entry claimed after the node answered, its share on the
      one claimed before. A connection whose key changes in between, without its entry migrating, leaves one entry
      with a block and no share. */
  lemma BlockOnAnotherEntry(was: Identity, now: Identity) returns (events: seq<Event>)
    requires StatsKey(was) != StatsKey(now) && StatsKey(was) != now.remoteAddr
    ensures var s := Reach(events);
      && AtRest(s) && s.index == map[StatsKey(was) := 0, StatsKey(now) := 1]
      && s.records == [ONE_SHARE, ONE_BLOCK] && s.overall == Plus(ONE_BLOCK, ONE_SHARE)
  {
    var submit := Submit(was, BlockFound(now));
    ClaimsTwo(was, now);
    events := FinishReached([submit], 0);
    hide StatsKey, Reach, Finish, AllBooked, Outcomes, Plus;
    TwoEntries(events);
    BookedAlone(now);
    TotalCounted(events);
    BlockCounts(submit);
  }

  lemma TwoEntries(events: seq<Event>)
    requires AtRest(Reach(events)) && |Reach(events).records| == 2
    ensures var s := Reach(events); s.records == [AllBooked(s.tasks, 0), AllBooked(s.tasks, 1)]
  {
    hide Reach, AllBooked;
    EntryAtRest(events, 0);
    EntryAtRest(events, 1);
  }

  lemma TotalCounted(events: seq<Event>)
    requires AtRest(Reach(events))
    ensures Reach(events).overall == Outcomes(events)
  {
    AlwaysSound(events);
    NothingAhead(Reach(events).tasks);
    PlusZero(Reach(events).overall);
    hide Reach, Outcomes, Plus, AllAhead, Inv;
  }

  /** The task claims the two entries and then only counts. */
  lemma ClaimsTwo(was: Identity, now: Identity)
    requires StatsKey(was) != StatsKey(now) && StatsKey(was) != now.remoteAddr
    ensures var n := Finish(Reach([Submit(was, BlockFound(now))]), 0);
      && n.tasks == [Task(0, 1, [], BlockFound(now))] && |n.records| == 2
      && n.index == map[StatsKey(was) := 0, StatsKey(now) := 1]
  {
    var o := BlockFound(now);
    FirstSubmit(was, o);
    hide StatsKey, Reach;
    var s := Reach([Submit(was, o)]);
    var rest := Program(o)[1..];
    var d := Advance(s, 0);
    assert d.tasks == [Task(0, 1, rest, o)] && |d.records| == 2;
    assert d.index == map[StatsKey(was) := 0, StatsKey(now) := 1];
    assert Finish(s, 0) == Finish(d, 0);
    FinishEnds(d, 0);
  }

  lemma FirstSubmit(who: Identity, o: Outcome)
    ensures Reach([Submit(who, o)]) == State(map[StatsKey(who) := 0], [ZERO], ZERO, [Task(0, 0, Program(o), o)])
  {
    hide StatsKey, Program;
    assert [Submit(who, o)][..0] == [];
    assert Reach([]) == EMPTY;
  }

  lemma BlockCounts(e: Event)
    requires e.Submit? && e.outcome.BlockFound?
    ensures Outcomes([e]) == Plus(ONE_BLOCK, ONE_SHARE)
  {
    assert [e][..0] == [];
    PlusZero(Plus(ONE_BLOCK, ONE_SHARE));
  }

  lemma OneBooked(t: Task, r: nat)
    ensures AllBooked([t], r) == Booked(t, r)
  {
    assert [t][..0] == [];
    assert AllBooked([], r) == ZERO;
    PlusZero(Booked(t, r));
    hide Booked, Plus;
  }

  lemma BookedAlone(now: Identity)
    ensures AllBooked([Task(0, 1, [], BlockFound(now))], 0) == ONE_SHARE
    ensures AllBooked([Task(0, 1, [], BlockFound(now))], 1) == ONE_BLOCK
  {
    hide AllBooked, Plus;
    OneBooked(Task(0, 1, [], BlockFound(now)), 0);
    OneBooked(Task(0, 1, [], BlockFound(now)), 1);
    PlusZero(ONE_SHARE);
    PlusZero(ONE_BLOCK);
  }
}
