/** Whole runs of the share handler: shares of every connection, identity changes, difficulty changes
    and disconnects in any order. */
module ShareRuns {
  import opened Bytes
  import opened Wrappers
  import VarDiff
  import opened Ledger
  import opened DupeHistory
  import opened MiningState
  import opened Nonces
  import opened ShareHandler

  /** raised is how far other threads lifted the tip before this share's check. Tuned stands for every
      operation that only touches one entry's tracker. */
  datatype Event =
    | Submitted(who: Identity, jobId: int, nonce: u64, job: Option<Block>, diff: Option<Diff>,
                world: Surroundings, raised: nat)
    | NewJob(block: Block)
    | Looked(who: Identity)
    | Tuned(key: string, tracker: VarDiff.Tracker)
    | Left(who: Identity)

  const START := State(Books(map[], ZERO), map[], 0)

  function Raised(s: State, tip: nat): State {
    s.(tip := if tip > s.tip then tip else s.tip)
  }

  function Judge(s: State, e: Event): Outcome
    requires e.Submitted?
  {
    Handle(Raised(s, e.raised), e.who, e.jobId, e.nonce, e.job, e.diff, e.world)
  }

  function Step(s: State, e: Event): State {
    match e
    case Submitted(_, _, _, _, _, _, _) => Judge(s, e).state
    case NewJob(_) => s
    case Looked(who) => s.(books := s.books.(table := Claim(s.books.table, who)))
    case Tuned(key, tracker) =>
      if key in s.books.table then
        s.(books := s.books.(table := s.books.table[key := s.books.table[key].(tracker := tracker)]))
      else s
    case Left(who) => s.(dupes := Forget(s.dupes, who))
  }

  ghost function Run(events: seq<Event>): State {
    if events == [] then START else Step(Run(events[..|events| - 1]), events[|events| - 1])
  }

  // ---------------------------------------------------------------- the books

  function OneIf(b: bool): nat {
    if b then 1 else 0
  }

  /** One share more of the status it got, and one block more if it was a block the node took. */
  ghost predicate Moved(before: Counts, after: Counts, status: Status, block: bool) {
    && after.shares == before.shares + OneIf(status.Accepted?)
    && after.stale == before.stale + OneIf(status.Stale?)
    && after.invalid == before.invalid + OneIf(status.Duplicate? || status.LowDiff? || status.Bad?)
    && after.blocks == before.blocks + OneIf(status.Accepted? && block)
  }

  /** An accepted share also counts for its worker's tracker and with its difficulty's hash value. */
  ghost predicate Credited(before: Worker, after: Worker, status: Status, hashValue: real) {
    var one := OneIf(status.Accepted?);
    && after.name == before.name
    && after.tracker == before.tracker.(shares := before.tracker.shares + one)
    && after.sharesDiff == before.sharesDiff + if status.Accepted? then hashValue else 0.0
  }

  function HashValue(sub: Submission): real {
    if sub.diff.Some? then sub.diff.value.hashValue else 0.0
  }

  /** Only the entry and the totals move, both by the same share. */
  ghost predicate Judged(b: Books, after: Books, key: string, status: Status, block: bool, hashValue: real) {
    && key in b.table && key in after.table
    && Moved(b.table[key].counts, after.table[key].counts, status, block)
    && Moved(b.overall, after.overall, status, block)
    && Credited(b.table[key], after.table[key], status, hashValue)
    && after.table.Keys == b.table.Keys
    && forall k :: k in b.table && k != key ==> after.table[k] == b.table[k]
  }

  lemma RefusedMoves(b: Books, key: string, block: bool, hashValue: real)
    requires key in b.table
    ensures Judged(b, Added(b, key, ONE_STALE), key, Stale, block, hashValue)
    ensures forall status: Status :: status.Duplicate? || status.LowDiff? || status.Bad? ==>
              Judged(b, Added(b, key, ONE_INVALID), key, status, block, hashValue)
  {
  }

  lemma AcceptedMoves(b: Books, key: string, hashValue: real)
    requires key in b.table
    ensures Judged(b, AddedShare(b, key, hashValue), key, Accepted, false, hashValue)
  {
  }

  lemma BlockMoves(b: Books, key: string, hashValue: real)
    requires key in b.table
    ensures var taken := Added(b, key, ONE_BLOCK);
      key in taken.table && Judged(b, AddedShare(taken, key, hashValue), key, Accepted, true, hashValue)
  {
  }

  lemma ConcludedMoves(b: Books, key: string, sub: Submission, check: Check)
    requires key in b.table
    ensures var (after, result) := Concluded(b, key, sub, check); var block := sub.hash <= sub.block.target;
      && (result.Ok? ==> Judged(b, after, key, result.value, block, HashValue(sub)))
      && (result.Err? ==> after == b)
      && (result == Ok(Bad) ==> sub.reply.Rejected? && block)
  {
    RefusedMoves(b, key, sub.hash <= sub.block.target, HashValue(sub));
    AcceptedMoves(b, key, HashValue(sub));
    BlockMoves(b, key, HashValue(sub));
    hide Judged, Added, AddedShare;
  }

  /** Each share judged without an error moves exactly one of shares, stale and invalid by one, for the
      worker and overall alike, and blocks with it when the node took it as one; one that fails with an error moves
      nothing. Bad is only the answer to a block the node refused, so the branch for unknown check errors is never
      taken. */
  lemma OneMove(s: State, who: Identity, sub: Submission)
    ensures var o := Process(s, who, sub); var block := sub.hash <= sub.block.target;
      var before, after := s.books.(table := Claim(s.books.table, who)), o.state.books;
      && (o.result.Ok? ==> Judged(before, after, StatsKey(who), o.result.value, block, HashValue(sub)))
      && (o.result.Err? ==> after == before)
      && (o.result == Ok(Bad) ==> sub.reply.Rejected? && block)
  {
    hide Claim, StatsKey, Checked, Concluded, Judged;
    ClaimedKey(s.books.table, who);
    var claimed := s.books.(table := Claim(s.books.table, who));
    ConcludedMoves(claimed, StatsKey(who), sub, Checked(s.dupes, s.tip, StatsKey(who), sub).2);
  }

  ghost predicate BlocksAreShares(b: Books) {
    && b.overall.blocks <= b.overall.shares
    && forall k :: k in b.table ==> b.table[k].counts.blocks <= b.table[k].counts.shares
  }

  ghost predicate Sound(b: Books) {
    Balanced(b) && BlocksAreShares(b)
  }

  lemma ClaimSound(b: Books, who: Identity)
    requires Sound(b)
    ensures Sound(b.(table := Claim(b.table, who)))
  {
    ClaimKeepsBalance(b, who);
  }

  lemma AddedSound(b: Books, key: string, hashValue: real)
    requires Sound(b) && key in b.table
    ensures Sound(Added(b, key, ONE_STALE)) && Sound(Added(b, key, ONE_INVALID)) && Sound(AddedShare(b, key, hashValue))
  {
    hide Balanced;
    AddedKeepsBalance(b, key, ONE_STALE);
    AddedKeepsBalance(b, key, ONE_INVALID);
    AddedShareKeepsBalance(b, key, hashValue);
  }

  lemma BlockSound(b: Books, key: string, hashValue: real)
    requires Sound(b) && key in b.table
    ensures key in Added(b, key, ONE_BLOCK).table && Sound(AddedShare(Added(b, key, ONE_BLOCK), key, hashValue))
  {
    hide Balanced;
    AddedKeepsBalance(b, key, ONE_BLOCK);
    AddedShareKeepsBalance(Added(b, key, ONE_BLOCK), key, hashValue);
  }

  lemma ConcludedSound(b: Books, key: string, sub: Submission, check: Check)
    requires Sound(b) && key in b.table
    ensures Sound(Concluded(b, key, sub, check).0)
  {
    AddedSound(b, key, HashValue(sub));
    BlockSound(b, key, HashValue(sub));
    hide Sound, Added, AddedShare;
  }

  lemma StepSound(s: State, e: Event)
    requires Sound(s.books)
    ensures Sound(Step(s, e).books)
  {
    hide Balanced, Claim, Concluded, Checked;
    match e
    case Submitted(who, jobId, nonce, job, diff, w, raised) =>
      ClaimSound(s.books, who);
      ClaimedKey(s.books.table, who);
      var claimed := s.books.(table := Claim(s.books.table, who));
      if job.None? {
        AddedKeepsBalance(claimed, StatsKey(who), ONE_STALE);
      } else {
        var sub := Submission(jobId, nonce, job.value, diff, w.pow(job.value, nonce), w.reply);
        var r := Raised(s, raised);
        ConcludedSound(claimed, StatsKey(who), sub, Checked(r.dupes, r.tip, StatsKey(who), sub).2);
      }
    case NewJob(_) =>
    case Looked(who) => ClaimSound(s.books, who);
    case Tuned(key, tracker) =>
      if key in s.books.table {
        Relabelled(s.books, key, tracker);
      }
    case Left(_) =>
  }

  lemma Relabelled(b: Books, key: string, tracker: VarDiff.Tracker)
    requires Balanced(b) && key in b.table
    ensures Balanced(b.(table := b.table[key := b.table[key].(tracker := tracker)]))
  {
    TotalRelabel(b.table, key, b.table[key].(tracker := tracker));
  }

  /** After any history the totals are the sums over the table, and no worker, nor all of them, has
      more blocks than shares. */
  lemma {:induction false} TotalsAreSums(events: seq<Event>)
    ensures Run(events).books.overall == Total(Run(events).books.table)
    ensures BlocksAreShares(Run(events).books)
  {
    BooksSound(events);
  }

  lemma {:induction false} BooksSound(events: seq<Event>)
    ensures Sound(Run(events).books)
  {
    if events == [] {
    } else {
      BooksSound(events[..|events| - 1]);
      StepSound(Run(events[..|events| - 1]), events[|events| - 1]);
    }
  }

  // ---------------------------------------------------------------- no share counts twice

  predicate Forgets(e: Event, worker: string) {
    e.Left? && (worker == e.who.remoteAddr || worker == e.who.workerName || worker == StatsKey(e.who))
  }

  /** What an event does to one worker's duplicate history. A stale share never reaches it. */
  function OpOf(s: State, e: Event, worker: string): Op {
    if e.Submitted? && StatsKey(e.who) == worker && e.job.Some?
       && Raised(s, e.raised).tip <= e.job.value.blueScore + 8 then Track(ShareKey(e.jobId, e.nonce))
    else if Forgets(e, worker) then Clear
    else Elsewhere
  }

  ghost function Ops(events: seq<Event>, worker: string): (ops: seq<Op>)
    ensures |ops| == |events|
  {
    if events == [] then []
    else
      var before := events[..|events| - 1];
      Ops(before, worker) + [OpOf(Run(before), events[|events| - 1], worker)]
  }

  lemma {:induction false} OpsPrefix(events: seq<Event>, worker: string, i: nat)
    requires i <= |events|
    ensures Ops(events, worker)[..i] == Ops(events[..i], worker)
    ensures i < |events| ==> Ops(events, worker)[i] == OpOf(Run(events[..i]), events[i], worker)
  {
    var n := |events|;
    if i == n {
      assert events[..i] == events;
    } else if i == n - 1 {
    } else {
      OpsPrefix(events[..n - 1], worker, i);
      assert events[..n - 1][..i] == events[..i];
      assert Ops(events, worker)[..i] == Ops(events[..n - 1], worker)[..i];
    }
  }

  lemma StepTracks(s: State, e: Event, worker: string)
    ensures OrderOf(Step(s, e).dupes, worker) ==
            match OpOf(s, e, worker)
            case Track(key) => Tracked(OrderOf(s.dupes, worker), key)
            case Clear => []
            case Elsewhere => OrderOf(s.dupes, worker)
  {
    hide Tracked, StatsKey, ShareKey, Concluded, Claim;
  }

  /** The handler's histories are the ones its events spell out. */
  lemma {:induction false} HistoriesFollowOps(events: seq<Event>, worker: string)
    ensures OrderOf(Run(events).dupes, worker) == Kept(Ops(events, worker))
  {
    if events == [] {
    } else {
      var before := events[..|events| - 1];
      HistoriesFollowOps(before, worker);
      StepTracks(Run(before), events[|events| - 1], worker);
      assert Ops(events, worker)[..|events| - 1] == Ops(before, worker);
    }
  }

  ghost predicate AcceptedAt(events: seq<Event>, i: nat, worker: string)
    requires i < |events|
  {
    && events[i].Submitted? && StatsKey(events[i].who) == worker
    && Judge(Run(events[..i]), events[i]).result == Ok(Accepted)
  }

  lemma AcceptedIsFresh(events: seq<Event>, i: nat, worker: string)
    requires i < |events| && AcceptedAt(events, i, worker)
    ensures Fresh(Ops(events, worker), i)
    ensures Ops(events, worker)[i] == Track(ShareKey(events[i].jobId, events[i].nonce))
  {
    hide Proved, Claim, StatsKey, ShareKey;
    OpsPrefix(events, worker, i);
    HistoriesFollowOps(events[..i], worker);
  }

  /** Two accepted shares of one worker with the same id and nonce are separated by a disconnect that
      cleared its history or by at least 2048 other freshly tracked shares. */
  lemma SameIdOnce(events: seq<Event>, i: nat, j: nat, worker: string)
    requires i < j < |events| && AcceptedAt(events, i, worker) && AcceptedAt(events, j, worker)
    requires events[i].jobId == events[j].jobId && events[i].nonce == events[j].nonce
    ensures (exists k :: i < k < j && Forgets(events[k], worker))
         || FreshBetween(Ops(events, worker), i + 1, j) >= 2048
  {
    AcceptedIsFresh(events, i, worker);
    AcceptedIsFresh(events, j, worker);
    var ops := Ops(events, worker);
    LetThroughTwice(ops, i, j);
    if k :| i < k < j && ops[k].Clear? {
      OpsPrefix(events, worker, k);
      assert Forgets(events[k], worker);
    }
  }

  // ---------------------------------------------------------------- jobs of one connection

  /** The jobs handed to the connection under study. */
  ghost function Jobs(events: seq<Event>): seq<Block> {
    if events == [] then []
    else
      var before, e := Jobs(events[..|events| - 1]), events[|events| - 1];
      if e.NewJob? then before + [e.block] else before
  }

  /** The share names a job by one of the last 32 ids given out, and was judged on that job. */
  ghost predicate Recent(events: seq<Event>, i: nat)
    requires i < |events| && events[i].Submitted?
  {
    var n := |Jobs(events[..i])|;
    && n - 32 < events[i].jobId <= n && events[i].jobId >= 1
    && events[i].job == Lookup(Jobs(events[..i]), events[i].jobId)
  }

  /** The number of the job a share was judged on. */
  ghost function JobNumber(events: seq<Event>, i: nat): nat
    requires i < |events| && events[i].Submitted? && events[i].jobId >= 0
  {
    Newest(|Jobs(events[..i])|, events[i].jobId % MAX_JOBS)
  }

  /** For a connection that owns its worker key and names recent ids: the same job and nonce count at
      most once per 2048 fresh shares. */
  lemma SameJobOnce(events: seq<Event>, i: nat, j: nat, worker: string)
    requires i < j < |events| && AcceptedAt(events, i, worker) && AcceptedAt(events, j, worker)
    requires Recent(events, i) && Recent(events, j)
    requires JobNumber(events, i) == JobNumber(events, j) && events[i].nonce == events[j].nonce
    ensures (exists k :: i < k < j && Forgets(events[k], worker))
         || FreshBetween(Ops(events, worker), i + 1, j) >= 2048
  {
    hide Jobs, Ops, Run, Judge, Newest, FreshBetween, Lookup;
    RecentNumber(|Jobs(events[..i])|, events[i].jobId);
    RecentNumber(|Jobs(events[..j])|, events[j].jobId);
    SameIdOnce(events, i, j, worker);
  }

  /** The clear is needed in both: once its worker's history is dropped, the very same share of the very
      same recent job is accepted again. */
  lemma ClearedShareCountsAgain(block: Block, who: Identity, diff: Diff, pow: (Block, u64) -> nat)
    requires block.convertible && pow(block, 7) < diff.targetValue && pow(block, 7) > block.target
    ensures var w := Surroundings(pow, Taken);
      var share := Submitted(who, 1, 7, Lookup([block], 1), Some(diff), w, 0);
      var events := [NewJob(block), share, Left(who), share];
      && AcceptedAt(events, 1, StatsKey(who)) && AcceptedAt(events, 3, StatsKey(who))
      && Recent(events, 1) && Recent(events, 3) && JobNumber(events, 1) == JobNumber(events, 3) == 1
  {
    var share := Submitted(who, 1, 7, Lookup([block], 1), Some(diff), Surroundings(pow, Taken), 0);
    var events := [NewJob(block), share, Left(who), share];
    OneJob(block);
    hide Run, Jobs, Judge, StatsKey, ShareKey, Forget, Lookup, Recent, JobNumber, AcceptedAt;
    AcceptedAgain(START, share);
    ClearedRun(events, block, share, who);
    AcceptedThere(events, 1, START);
    AcceptedThere(events, 3, Step(Judge(START, share).state, Left(who)));
    RecentOne(events, 1, block);
    RecentOne(events, 3, block);
  }

  /** The states and jobs before the two shares. */
  lemma ClearedRun(events: seq<Event>, block: Block, share: Event, who: Identity)
    requires share.Submitted? && events == [NewJob(block), share, Left(who), share]
    ensures Run(events[..1]) == START && Run(events[..3]) == Step(Judge(START, share).state, Left(who))
    ensures Jobs(events[..1]) == Jobs(events[..3]) == [block]
  {
    hide Run, Jobs, Judge, Forget;
    NothingYet();
    assert events[..0] == [];
    RunOf(events, NewJob(block), 0);
    RunOf(events, share, 1);
    RunOf(events, Left(who), 2);
    assert [] + [block] == [block];
  }

  lemma AcceptedThere(events: seq<Event>, i: nat, s: State)
    requires i < |events| && events[i].Submitted? && Run(events[..i]) == s
    requires Judge(s, events[i]).result == Ok(Accepted)
    ensures AcceptedAt(events, i, StatsKey(events[i].who))
  {
    hide Run, Judge, StatsKey;
  }

  lemma RecentOne(events: seq<Event>, i: nat, block: Block)
    requires i < |events| && events[i].Submitted? && Jobs(events[..i]) == [block]
    requires events[i].jobId == 1 && events[i].job == Lookup([block], 1)
    ensures Recent(events, i) && JobNumber(events, i) == 1
  {
    hide Jobs;
    OneJob(block);
  }

  lemma OneJob(block: Block)
    ensures Lookup([block], 1) == Some(block) && Newest(1, 1) == 1
  {
  }

  lemma AcceptedAgain(s: State, e: Event)
    requires e.Submitted? && e.job.Some? && e.diff.Some? && e.job.value.convertible
    requires e.job.value.target < e.world.pow(e.job.value, e.nonce) < e.diff.value.targetValue
    requires Raised(s, e.raised).tip <= e.job.value.blueScore + 8
    requires ShareKey(e.jobId, e.nonce) !in OrderOf(s.dupes, StatsKey(e.who))
    ensures Judge(s, e).result == Ok(Accepted)
    ensures Judge(Step(Judge(s, e).state, Left(e.who)), e).result == Ok(Accepted)
  {
    AcceptedWhenUntracked(s, e);
    hide ShareKey, StatsKey, Judge;
    AcceptedWhenUntracked(Step(Judge(s, e).state, Left(e.who)), e);
  }

  lemma NothingYet()
    ensures Run([]) == START && Jobs([]) == []
  {
  }

  lemma RunOf(events: seq<Event>, e: Event, k: nat)
    requires k < |events| && events[k] == e
    ensures Run(events[..k + 1]) == Step(Run(events[..k]), e)
    ensures Jobs(events[..k + 1]) == if e.NewJob? then Jobs(events[..k]) + [e.block] else Jobs(events[..k])
  {
    assert events[..k + 1][..k] == events[..k];
  }

  /** A share of a convertible block that is good enough, not a block itself, not too old and not tracked. */
  lemma AcceptedWhenUntracked(s: State, e: Event)
    requires e.Submitted? && e.job.Some? && e.diff.Some? && e.job.value.convertible
    requires e.job.value.target < e.world.pow(e.job.value, e.nonce) < e.diff.value.targetValue
    requires Raised(s, e.raised).tip <= e.job.value.blueScore + 8
    requires ShareKey(e.jobId, e.nonce) !in OrderOf(s.dupes, StatsKey(e.who))
    ensures Judge(s, e).result == Ok(Accepted)
    ensures Judge(s, e).state.tip == if e.job.value.blueScore > Raised(s, e.raised).tip then e.job.value.blueScore
                                     else Raised(s, e.raised).tip
  {
    hide ShareKey, StatsKey, Claim, Tracked;
  }

  /** Without the age condition the promise fails, and exactly so: of two ids, the first reaching a job, both
      reach that job and are yet remembered as different shares if and only if they are a nonzero multiple of 32
      apart and the second is not negative or is itself a multiple of 32. */
  lemma AliasedIds(added: seq<Block>, a: int, b: int, nonce: u64)
    requires Lookup(added, a).Some?
    ensures Reached(|added|, a) == Reached(|added|, b) && ShareKey(a, nonce) != ShareKey(b, nonce)
            <==> a != b && (a - b) % MAX_JOBS == 0 && (b >= 0 || b % MAX_JOBS == 0)
  {
    hide Reached, ShareKey;
    SameJobReached(|added|, a, b);
    if ShareKey(a, nonce) == ShareKey(b, nonce) {
      ShareKeyInjective(a, nonce, b, nonce);
    }
  }

  /** Every such pair of ids gets one share accepted twice. */
  lemma AliasAcceptedTwice(added: seq<Block>, a: int, b: int, nonce: u64, block: Block, who: Identity, diff: Diff,
                           pow: (Block, u64) -> nat)
    requires a != b && Lookup(added, a) == Lookup(added, b) == Some(block)
    requires block.convertible && pow(block, nonce) < diff.targetValue && pow(block, nonce) > block.target
    ensures var w := Surroundings(pow, Taken);
      var events := [Submitted(who, a, nonce, Lookup(added, a), Some(diff), w, 0),
                     Submitted(who, b, nonce, Lookup(added, b), Some(diff), w, 0)];
      AcceptedAt(events, 0, StatsKey(who)) && AcceptedAt(events, 1, StatsKey(who))
  {
    var w := Surroundings(pow, Taken);
    var first := Submitted(who, a, nonce, Lookup(added, a), Some(diff), w, 0);
    var again := Submitted(who, b, nonce, Lookup(added, b), Some(diff), w, 0);
    var events := [first, again];
    hide Run, Jobs, Judge, StatsKey, ShareKey, Lookup;
    NothingYet();
    assert events[..0] == [];
    RunOf(events, first, 0);
    if ShareKey(a, nonce) == ShareKey(b, nonce) {
      ShareKeyInjective(a, nonce, b, nonce);
    }
    AcceptedBeside(START, first, again);
  }

  /** After one accepted share another is accepted, of the same job and worker under another key. */
  lemma AcceptedBeside(s: State, e: Event, again: Event)
    requires s == START && e.Submitted? && e.job.Some? && e.diff.Some? && e.job.value.convertible && e.raised == 0
    requires e.job.value.target < e.world.pow(e.job.value, e.nonce) < e.diff.value.targetValue
    requires again.Submitted? && again == e.(jobId := again.jobId)
    requires ShareKey(e.jobId, e.nonce) != ShareKey(again.jobId, e.nonce)
    ensures Judge(s, e).result == Ok(Accepted)
    ensures Judge(Step(s, e), again).result == Ok(Accepted)
  {
    AcceptedWhenUntracked(s, e);
    OrderAfter(s, e);
    hide ShareKey, StatsKey, Judge;
    AcceptedWhenUntracked(Step(s, e), again);
  }

  lemma OrderAfter(s: State, e: Event)
    requires s == START && e.Submitted? && e.job.Some? && Raised(s, e.raised).tip <= e.job.value.blueScore + 8
    ensures OrderOf(Judge(s, e).state.dupes, StatsKey(e.who)) == [ShareKey(e.jobId, e.nonce)]
  {
    hide ShareKey, StatsKey, Claim, Concluded;
    assert [] + [ShareKey(e.jobId, e.nonce)] == [ShareKey(e.jobId, e.nonce)];
  }
}
