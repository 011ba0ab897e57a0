/** The atomic steps a submit's booking is taken apart into, put together again: left alone, they book what the
    judge books. */
module StatsAlone {
  import opened Wrappers
  import opened Ledger
  import opened StatsRace
  import opened StatsEntries
  import ShareHandler
  import VarDiff

  /** How a share that has passed its first checks ends. */
  function ProvedOutcome(who: Identity, sub: ShareHandler.Submission): Outcome {
    if !sub.block.convertible || sub.diff.None? then Outcome.Error
    else if sub.hash <= sub.block.target then
      match sub.reply
      case AlreadyKnown => BlockRefused(who, ONE_STALE)
      case Rejected => BlockRefused(who, ONE_INVALID)
      case Taken => BlockFound(who)
    else if sub.hash >= sub.diff.value.targetValue then Simple(ONE_INVALID)
    else Simple(ONE_SHARE)
  }

  function OutcomeOf(who: Identity, sub: ShareHandler.Submission, check: ShareHandler.Check): Outcome {
    match check
    case StaleShare => Simple(ONE_STALE)
    case DupeShare => Simple(ONE_INVALID)
    case Passed => ProvedOutcome(who, sub)
  }

  /** The same keys with the same counts, and the same totals. */
  ghost predicate SameCounts(s: State, b: Books) {
    && OneKeyEach(s) && s.index.Keys == b.table.Keys && s.overall == b.overall
    && forall k :: k in s.index ==> s.records[s.index[k]] == b.table[k].counts
  }

  // ---------------------------------------------------------------- the steps

  ghost predicate SameEntries(index: map<string, nat>, records: seq<Counts>, t: Table) {
    && index.Keys == t.Keys
    && forall k :: k in index ==> index[k] < |records| && records[index[k]] == t[k].counts
  }

  lemma EntriesMove(index: map<string, nat>, records: seq<Counts>, t: Table, from: string, key: string, w: Worker)
    requires SameEntries(index, records, t) && from in index && w.counts == t[from].counts
    ensures SameEntries((index - {from})[key := index[from]], records, (t - {from})[key := w])
  {
  }

  lemma EntriesAdd(index: map<string, nat>, records: seq<Counts>, t: Table, key: string, w: Worker)
    requires SameEntries(index, records, t) && w.counts == ZERO
    ensures SameEntries(index[key := |records|], records + [ZERO], t[key := w])
  {
  }

  lemma EntriesRename(index: map<string, nat>, records: seq<Counts>, t: Table, key: string, w: Worker)
    requires SameEntries(index, records, t) && key in t && w.counts == t[key].counts
    ensures SameEntries(index, records, t[key := w])
  {
  }

  lemma FoundEntries(s: State, t: Table, who: Identity)
    requires SameEntries(s.index, s.records, t)
    ensures var (n, r) := Found(s, who);
      && SameEntries(n.index, n.records, Claim(t, who))
      && StatsKey(who) in n.index && n.index[StatsKey(who)] == r
  {
    hide StatsKey, DisplayName, SameEntries;
    assert s.index.Keys == t.Keys by { KeysAgree(s.index, s.records, t); }
    var key, remote := StatsKey(who), who.remoteAddr;
    if key in t {
      EntriesRename(s.index, s.records, t, key, t[key].(name := DisplayName(who)));
    } else if remote in t {
      EntriesMove(s.index, s.records, t, remote, key, t[remote].(name := DisplayName(who)));
    } else {
      EntriesAdd(s.index, s.records, t, key, Worker(DisplayName(who), ZERO, 0.0, VarDiff.FRESH));
    }
  }

  lemma KeysAgree(index: map<string, nat>, records: seq<Counts>, t: Table)
    requires SameEntries(index, records, t)
    ensures index.Keys == t.Keys
  {
  }

  lemma FoundClaims(s: State, b: Books, who: Identity)
    requires SameCounts(s, b)
    ensures var (t, r) := Found(s, who);
      && SameCounts(t, b.(table := Claim(b.table, who)))
      && StatsKey(who) in t.index && t.index[StatsKey(who)] == r
  {
    FoundKeys(s, who);
    assert SameEntries(s.index, s.records, b.table);
    hide StatsKey, Claim, Found;
    FoundEntries(s, b.table, who);
  }

  /** A task all of whose claims lead to its one entry, under the key given. */
  ghost predicate OnEntry(s: State, i: nat, key: string) {
    && OneKeyEach(s) && i < |s.tasks| && key in s.index
    && s.tasks[i].main == s.tasks[i].other == s.index[key]
    && forall x :: x in s.tasks[i].todo && x.FindAgain? ==> StatsKey(x.who) == key
  }

  lemma OneStep(s: State, i: nat, key: string)
    requires OnEntry(s, i, key) && s.tasks[i].todo != []
    ensures var n, r, a := Advance(s, i), s.index[key], s.tasks[i].todo[0];
      && OnEntry(n, i, key) && n.index == s.index
      && (n.records == if a.AddMain? || a.AddOther? then s.records[r := Plus(s.records[r], a.c)] else s.records)
      && (n.overall == if a.AddTotal? then Plus(s.overall, a.c) else s.overall)
  {
    hide StatsKey;
    var n := Advance(s, i);
    assert s.tasks[i].todo[0] in s.tasks[i].todo;
    assert forall q: nat :: q < |s.records| ==> HasKey(s.index, q);
    assert forall x :: x in n.tasks[i].todo ==> x in s.tasks[i].todo;
  }

  /** Left alone it adds what it has left to its entry, and what is ahead to the totals. */
  lemma {:induction false} FinishBooks(s: State, i: nat, key: string)
    requires OnEntry(s, i, key)
    ensures var n, r, todo := Finish(s, i), s.index[key], s.tasks[i].todo;
      && OneKeyEach(n) && n.index == s.index
      && n.records == s.records[r := Plus(s.records[r], Left(todo, r, r, r))]
      && n.overall == Plus(s.overall, Ahead(todo))
    decreases |s.tasks[i].todo|
  {
    var r, todo := s.index[key], s.tasks[i].todo;
    if todo == [] {
      PlusZero(s.records[r]);
      PlusZero(s.overall);
    } else {
      hide Advance, Plus;
      OneStep(s, i, key);
      FinishBooks(Advance(s, i), i, key);
      LeftHead(todo, r);
      AheadPop(todo);
      Grouped(s.records[r], todo[0], Left(todo[1..], r, r, r));
      Grouped(s.overall, todo[0], Ahead(todo[1..]));
    }
  }

  lemma LeftHead(todo: seq<Act>, r: nat)
    requires todo != []
    ensures Left(todo, r, r, r) ==
            if todo[0].AddMain? || todo[0].AddOther? then Plus(todo[0].c, Left(todo[1..], r, r, r))
            else Left(todo[1..], r, r, r)
  {
  }

  lemma Grouped(a: Counts, x: Act, rest: Counts)
    ensures !x.FindAgain? ==> Plus(Plus(a, x.c), rest) == Plus(a, Plus(x.c, rest)) == Plus(a, Plus(rest, x.c))
    ensures Plus(a, Plus(rest, ZERO)) == Plus(a, rest)
  {
  }

  /** A submit whose identity stays as it is, with nothing in between. */
  lemma SubmitAlone(s: State, who: Identity, o: Outcome)
    requires OneKeyEach(s) && (o.BlockFound? || o.BlockRefused? ==> o.later == who)
    ensures var t, n := Found(s, who).0, Finish(Step(s, Submit(who, o)), |s.tasks|);
      && OneKeyEach(t) && StatsKey(who) in t.index
      && var r := t.index[StatsKey(who)];
         && OneKeyEach(n) && n.index == t.index
         && n.records == t.records[r := Plus(t.records[r], OutcomeCounts(o))]
         && n.overall == Plus(t.overall, OutcomeCounts(o))
  {
    hide StatsKey, Finish, Left, Ahead, Plus;
    FoundKeys(s, who);
    var (t, r) := Found(s, who);
    var d := Step(s, Submit(who, o));
    assert d == t.(tasks := s.tasks + [Task(r, r, Program(o), o)]);
    assert OneKeyEach(d);
    ProgramBooks(r, r, o, r);
    ProgramShape(o);
    BooksOwn(r, o);
    FinishBooks(d, |s.tasks|, StatsKey(who));
  }

  lemma BooksOwn(r: nat, o: Outcome)
    ensures Booked(Task(r, r, Program(o), o), r) == OutcomeCounts(o)
  {
    hide Program;
  }

  // ---------------------------------------------------------------- the judge

  ghost predicate Counted(b: Books, n: Books, key: string, c: Counts) {
    && key in b.table && n.table.Keys == b.table.Keys && n.overall == Plus(b.overall, c)
    && n.table[key].counts == Plus(b.table[key].counts, c)
    && forall k :: k in b.table && k != key ==> n.table[k] == b.table[k]
  }

  lemma AddedCounts(b: Books, key: string, c: Counts, hashValue: real)
    requires key in b.table
    ensures Counted(b, Added(b, key, c), key, c)
    ensures c == ONE_SHARE ==> Counted(b, AddedShare(b, key, hashValue), key, c)
  {
    hide Plus;
  }

  lemma CountedTwice(a: Books, b: Books, n: Books, key: string, c: Counts, d: Counts)
    requires Counted(a, b, key, c) && Counted(b, n, key, d)
    ensures Counted(a, n, key, Plus(c, d))
  {
    PlusGroups(a.overall, c, d);
    PlusGroups(a.table[key].counts, c, d);
    hide Plus;
  }

  lemma CountedNone(b: Books, key: string)
    requires key in b.table
    ensures Counted(b, b, key, ZERO)
  {
    PlusZero(b.overall);
    PlusZero(b.table[key].counts);
    hide Plus;
  }

  lemma BlockCounted(b: Books, key: string, hashValue: real)
    requires key in b.table
    ensures var block := Added(b, key, ONE_BLOCK);
      key in block.table && Counted(b, AddedShare(block, key, hashValue), key, Plus(ONE_BLOCK, ONE_SHARE))
  {
    AddedKey(b, key, ONE_BLOCK);
    hide Counted, Added, AddedShare, Plus;
    var block := Added(b, key, ONE_BLOCK);
    AddedCounts(b, key, ONE_BLOCK, 0.0);
    AddedCounts(block, key, ONE_SHARE, hashValue);
    CountedTwice(b, block, AddedShare(block, key, hashValue), key, ONE_BLOCK, ONE_SHARE);
  }

  lemma ProvedCounts(b: Books, key: string, who: Identity, sub: ShareHandler.Submission)
    requires key in b.table
    ensures Counted(b, ShareHandler.Proved(b, key, sub).0, key, OutcomeCounts(ProvedOutcome(who, sub)))
  {
    hide Counted, Added, AddedShare, Plus;
    if !sub.block.convertible || sub.diff.None? {
      CountedNone(b, key);
    } else {
      BlockCounted(b, key, sub.diff.value.hashValue);
      AddedCounts(b, key, ONE_INVALID, 0.0);
      AddedCounts(b, key, ONE_STALE, 0.0);
      AddedCounts(b, key, ONE_SHARE, sub.diff.value.hashValue);
    }
  }

  lemma AddedKey(b: Books, key: string, c: Counts)
    requires key in b.table
    ensures key in Added(b, key, c).table
  {
  }

  lemma ConcludedCounts(b: Books, key: string, who: Identity, sub: ShareHandler.Submission, check: ShareHandler.Check)
    requires key in b.table
    ensures Counted(b, ShareHandler.Concluded(b, key, sub, check).0, key, OutcomeCounts(OutcomeOf(who, sub, check)))
  {
    hide Counted, Added, ShareHandler.Proved, ProvedOutcome;
    match check
    case StaleShare => AddedCounts(b, key, ONE_STALE, 0.0);
    case DupeShare => AddedCounts(b, key, ONE_INVALID, 0.0);
    case Passed => ProvedCounts(b, key, who, sub);
  }

  /** The steps of a submit left alone leave exactly the counts that the judge leaves. */
  lemma AloneAsProcess(s: State, h: ShareHandler.State, who: Identity, sub: ShareHandler.Submission)
    requires SameCounts(s, h.books)
    ensures var check := ShareHandler.Checked(h.dupes, h.tip, StatsKey(who), sub).2;
      SameCounts(Finish(Step(s, Submit(who, OutcomeOf(who, sub, check))), |s.tasks|),
                 ShareHandler.Process(h, who, sub).state.books)
  {
    var check := ShareHandler.Checked(h.dupes, h.tip, StatsKey(who), sub).2;
    var o := OutcomeOf(who, sub, check);
    hide StatsKey, ShareHandler.Checked, ShareHandler.Concluded, Claim, Finish, Step, Found, Plus, OutcomeCounts;
    var claimed := h.books.(table := Claim(h.books.table, who));
    FoundClaims(s, h.books, who);
    SubmitAlone(s, who, o);
    ConcludedCounts(claimed, StatsKey(who), who, sub, check);
  }
}
