/** Judging a submitted share: stale check, duplicate check, proof of work, and the books. */
module ShareHandler {
  import opened Bytes
  import opened Wrappers
  import opened Ledger
  import opened ShareStats
  import opened DupeHistory
  import opened MiningState
  import opened Nonces
  import TipRace

  datatype Status = Accepted | Stale | Duplicate | LowDiff | Bad
  datatype Error = CannotConvert | NotInitialized

  /** The node's answer to a submitted block. */
  datatype Reply = Taken | AlreadyKnown | Rejected

  /** A share, the difficulty snapshot it is judged against, the hash its nonce gives the block's header,
      and the node's answer should it turn out to be a block. */
  datatype Submission = Submission(jobId: int, nonce: u64, block: Block, diff: Option<Diff>, hash: nat, reply: Reply)

  /** All that judging reads and writes. */
  datatype State = State(books: Books, dupes: Dupes, tip: nat)

  datatype Outcome = Outcome(state: State, result: Result<Status, Error>)

  predicate TooOld(tip: nat, blueScore: nat) {
    tip > blueScore + TipRace.WORK_WINDOW
  }

  datatype Check = Passed | StaleShare | DupeShare

  /** checkStales: a share too old leaves no trace; any other one lifts the tip and has its key
      tracked. */
  function Checked(dupes: Dupes, tip: nat, worker: string, sub: Submission): (Dupes, nat, Check) {
    if TooOld(tip, sub.block.blueScore) then (dupes, tip, StaleShare)
    else
      var order, key := OrderOf(dupes, worker), ShareKey(sub.jobId, sub.nonce);
      (dupes[worker := Tracked(order, key)],
       if sub.block.blueScore > tip then sub.block.blueScore else tip,
       if key in order then DupeShare else Passed)
  }

  /** What the node's answer to a block books, and the status it becomes. */
  function BlockBooked(reply: Reply): (Counts, Status) {
    match reply
    case AlreadyKnown => (ONE_STALE, Stale)
    case Rejected => (ONE_INVALID, Bad)
    case Taken => (ONE_BLOCK, Accepted)
  }

  /** The verdict on a new share that is not stale, and what it books under the worker's key. */
  function Proved(b: Books, key: string, sub: Submission): (Books, Result<Status, Error>)
    requires key in b.table
  {
    if !sub.block.convertible then (b, Err(CannotConvert))
    else if sub.diff.None? then (b, Err(NotInitialized))
    else if sub.hash <= sub.block.target then
      var (counts, status) := BlockBooked(sub.reply);
      var booked := Added(b, key, counts);
      (if status.Accepted? then AddedShare(booked, key, sub.diff.value.hashValue) else booked, Ok(status))
    else if sub.hash >= sub.diff.value.targetValue then (Added(b, key, ONE_INVALID), Ok(LowDiff))
    else (AddedShare(b, key, sub.diff.value.hashValue), Ok(Accepted))
  }

  /** The booking that follows a stale and duplicate check. */
  function Concluded(b: Books, key: string, sub: Submission, check: Check): (Books, Result<Status, Error>)
    requires key in b.table
  {
    match check
    case StaleShare => (Added(b, key, ONE_STALE), Ok(Stale))
    case DupeShare => (Added(b, key, ONE_INVALID), Ok(Duplicate))
    case Passed => Proved(b, key, sub)
  }

  /** The verdict on a share of a known job. */
  function Process(s: State, who: Identity, sub: Submission): Outcome {
    var claimed := s.books.(table := Claim(s.books.table, who));
    var (dupes, tip, check) := Checked(s.dupes, s.tip, StatsKey(who), sub);
    var (books, result) := Concluded(claimed, StatsKey(who), sub, check);
    Outcome(State(books, dupes, tip), result)
  }

  /** The bridge's surroundings while it judges: the hash a nonce gives a block's header, and the
      node's answer to a block. */
  datatype Surroundings = Surroundings(pow: (Block, u64) -> nat, reply: Reply)

  /** A share for whatever the job ring holds under its id. */
  function Handle(s: State, who: Identity, jobId: int, nonce: u64, job: Option<Block>, diff: Option<Diff>,
                  w: Surroundings): Outcome {
    match job
    case None =>
      var claimed := s.books.(table := Claim(s.books.table, who));
      Outcome(s.(books := Added(claimed, StatsKey(who), ONE_STALE)), Ok(Stale))
    case Some(block) =>
      Process(s, who, Submission(jobId, nonce, block, diff, w.pow(block, nonce), w.reply))
  }

  /** A parameter of a JSON submit event. */
  datatype Param = Text(s: string) | Other

  /** A V1 submit: malformed events are answered and booked nowhere. */
  function HandleV1(s: State, who: Identity, extranonce: string, params: seq<Param>, added: seq<Block>,
                    diff: Option<Diff>, w: Surroundings): Outcome {
    if |params| < 3 || params[1].Other? then Outcome(s, Ok(Bad))
    else
      var id := ParseInt64(params[1].s);
      if id.None? then Outcome(s, Ok(Bad))
      else
        var job := Lookup(added, id.value);
        if job.None? then Handle(s, who, id.value, 0, None, diff, w)
        else if params[2].Other? then Outcome(s, Ok(Bad))
        else
          var nonce := ParseV1SubmitNonce(extranonce, WithoutPrefix(params[2].s));
          if nonce.None? then Outcome(s, Ok(Bad))
          else Handle(s, who, id.value, nonce.value, job, diff, w)
  }

  class ShareHandler {
    const table: StatsTable
    const dupes: DupeTable
    var tipBlueScore: nat

    ghost predicate Valid()
      reads this, table, dupes, dupes.dupeShares.Values
    {
      table.Valid() && dupes.Valid()
    }

    ghost function Snapshot(): State
      reads this, table, table.stats.Values, table.overall, dupes
    {
      State(table.Entries(), dupes.orders, tipBlueScore)
    }

    constructor ()
      ensures Valid() && Snapshot() == State(Books(map[], ZERO), map[], 0)
    {
      table := new StatsTable();
      dupes := new DupeTable();
      tipBlueScore := 0;
    }

    /** Whatever other threads may do to the tip between two of our atomic operations. */
    method OthersRun()
      modifies `tipBlueScore
      ensures tipBlueScore >= old(tipBlueScore)
    {
      var raised :| raised >= tipBlueScore;
      tipBlueScore := raised;
    }

    /** The load and compare-and-swap loop. seen is the tip the verdict rests on: the outcome is the
        one a single thread would have had, starting from that tip. */
    method CheckTip(blueScore: nat) returns (stale: bool, ghost seen: nat)
      modifies `tipBlueScore
      ensures seen >= old(tipBlueScore)
      ensures stale <==> seen > blueScore + 8
      ensures tipBlueScore == if blueScore > seen then blueScore else seen
    {
      while true
        invariant tipBlueScore >= old(tipBlueScore)
        decreases if blueScore > tipBlueScore then blueScore - tipBlueScore else 0
      {
        OthersRun();
        var tip := tipBlueScore;
        if blueScore > tip {
          OthersRun();
          if tipBlueScore == tip {
            tipBlueScore := blueScore;
            return false, tip;
          }
        } else {
          return tip - blueScore > TipRace.WORK_WINDOW, tip;
        }
      }
    }

    method CheckStales(who: Identity, sub: Submission) returns (check: Check, ghost seen: nat)
      requires dupes.Valid()
      modifies `tipBlueScore, dupes, dupes.dupeShares.Values
      ensures dupes.Valid() && seen >= old(tipBlueScore)
      ensures (dupes.orders, tipBlueScore, check) == Checked(old(dupes.orders), seen, StatsKey(who), sub)
      ensures table.Entries() == old(table.Entries())
    {
      hide StatsKey, ShareKey, Tracked, StatsTable.View, WorkStats.Tally, DupeTable.Valid;
      var stale;
      stale, seen := CheckTip(sub.block.blueScore);
      if stale {
        return StaleShare, seen;
      }
      var duplicate := dupes.TrackDupeShare(who, ShareKey(sub.jobId, sub.nonce));
      check := if duplicate then DupeShare else Passed;
    }

    method SubmitBlock(who: Identity, reply: Reply) returns (status: Status)
      requires table.Valid()
      modifies table`stats, table.stats.Values, table.overall
      ensures table.Valid()
      ensures StatsKey(who) in old(table.stats) ==> table.stats == old(table.stats)
      ensures forall o :: o in table.stats.Values ==> o in old(table.stats.Values) || fresh(o)
      ensures table.Entries() == Book(old(table.Entries()), who, BlockBooked(reply).0)
      ensures status == BlockBooked(reply).1
    {
      hide StatsKey, Claim, StatsTable.View, WorkStats.Tally;
      var stats := table.GetCreateStats(who);
      label claimed:
      match reply {
        case AlreadyKnown =>
          table.AddStale(StatsKey(who), stats);
          status := Stale;
        case Rejected =>
          table.AddInvalid(StatsKey(who), stats);
          status := Bad;
        case Taken =>
          table.AddBlock(StatsKey(who), stats);
          status := Accepted;
      }
    }

    /** The checks after the duplicate one, for an identity whose entry has been fetched. */
    method Prove(who: Identity, sub: Submission, stats: WorkStats) returns (result: Result<Status, Error>)
      requires table.Valid() && StatsKey(who) in table.stats && table.stats[StatsKey(who)] == stats
      requires Claim(table.View(), who) == table.View()
      modifies table`stats, table.stats.Values, table.overall
      ensures table.Valid()
      ensures (table.Entries(), result) == Proved(old(table.Entries()), StatsKey(who), sub)
    {
      hide StatsKey, Claim, StatsTable.View, WorkStats.Tally;
      if !sub.block.convertible {
        return Err(CannotConvert);
      }
      if sub.diff.None? {
        return Err(NotInitialized);
      }
      if sub.hash <= sub.block.target {
        var status := SubmitBlock(who, sub.reply);
        if status != Accepted {
          return Ok(status);
        }
      } else if sub.hash >= sub.diff.value.targetValue {
        table.AddInvalid(StatsKey(who), stats);
        return Ok(LowDiff);
      }
      table.AddShare(StatsKey(who), stats, sub.diff.value.hashValue);
      return Ok(Accepted);
    }

    method Conclude(who: Identity, sub: Submission, stats: WorkStats, check: Check)
      returns (result: Result<Status, Error>)
      requires table.Valid() && StatsKey(who) in table.stats && table.stats[StatsKey(who)] == stats
      requires Claim(table.View(), who) == table.View()
      modifies table`stats, table.stats.Values, table.overall
      ensures table.Valid()
      ensures (table.Entries(), result) == Concluded(old(table.Entries()), StatsKey(who), sub, check)
    {
      hide StatsKey, Claim, Proved, StatsTable.View, WorkStats.Tally;
      match check {
        case DupeShare =>
          table.AddInvalid(StatsKey(who), stats);
          result := Ok(Duplicate);
        case StaleShare =>
          table.AddStale(StatsKey(who), stats);
          result := Ok(Stale);
        case Passed =>
          result := Prove(who, sub, stats);
      }
    }

    method ProcessSubmit(who: Identity, sub: Submission) returns (result: Result<Status, Error>, ghost seen: nat)
      requires Valid()
      modifies `tipBlueScore, table`stats, table.stats.Values, table.overall, dupes, dupes.dupeShares.Values
      ensures Valid() && seen >= old(tipBlueScore)
      ensures Outcome(Snapshot(), result) == Process(old(Snapshot()).(tip := seen), who, sub)
    {
      hide StatsKey, Claim, Checked, Concluded, StatsTable.View, WorkStats.Tally, DupeTable.Valid;
      ghost var before := Snapshot();
      var stats := table.GetCreateStats(who);
      ClaimAgain(before.books.table, who);
      assert table.Entries() == before.books.(table := Claim(before.books.table, who));
      var check;
      check, seen := CheckStales(who, sub);
      result := Conclude(who, sub, stats, check);
    }

    method MissingJob(who: Identity)
      requires table.Valid()
      modifies table`stats, table.stats.Values, table.overall
      ensures table.Valid()
      ensures var b := old(table.Entries());
        table.Entries() == Added(b.(table := Claim(b.table, who)), StatsKey(who), ONE_STALE)
    {
      hide StatsKey, Claim, StatsTable.View, WorkStats.Tally;
      var stats := table.GetCreateStats(who);
      table.AddStale(StatsKey(who), stats);
    }

    method HandleSubmitSV2(who: Identity, ms: MiningState, jobId: u32, nonce: u64, w: Surroundings)
      returns (result: Result<Status, Error>, ghost seen: nat)
      requires Valid() && ms.Valid()
      modifies `tipBlueScore, table`stats, table.stats.Values, table.overall, dupes, dupes.dupeShares.Values
      ensures Valid() && seen >= old(tipBlueScore)
      ensures Outcome(Snapshot(), result)
              == Handle(old(Snapshot()).(tip := seen), who, jobId, nonce, Lookup(ms.added, jobId), ms.stratumDiff, w)
    {
      hide Process, Lookup, Claim, StatsKey, StatsTable.View, WorkStats.Tally, StatsTable.Valid, DupeTable.Valid;
      var job := ms.GetJob(jobId);
      if job.None? {
        MissingJob(who);
        return Ok(Stale), tipBlueScore;
      }
      var hash := w.pow(job.value, nonce);
      result, seen := ProcessSubmit(who, Submission(jobId, nonce, job.value, ms.stratumDiff, hash, w.reply));
    }

    method HandleSubmit(who: Identity, extranonce: string, ms: MiningState, params: seq<Param>, w: Surroundings)
      returns (result: Result<Status, Error>, ghost seen: nat)
      requires Valid() && ms.Valid()
      modifies `tipBlueScore, table`stats, table.stats.Values, table.overall, dupes, dupes.dupeShares.Values
      ensures Valid() && seen >= old(tipBlueScore)
      ensures Outcome(Snapshot(), result)
              == HandleV1(old(Snapshot()).(tip := seen), who, extranonce, params, ms.added, ms.stratumDiff, w)
    {
      hide Process, Lookup, Claim, StatsKey, ParseInt64, ParseV1SubmitNonce, WithoutPrefix, StatsTable.View,
           WorkStats.Tally, StatsTable.Valid, DupeTable.Valid;
      seen := tipBlueScore;
      if |params| < 3 || params[1].Other? {
        return Ok(Bad), seen;
      }
      var id := ParseInt64(params[1].s);
      if id.None? {
        return Ok(Bad), seen;
      }
      var job := ms.GetJob(id.value);
      if job.None? {
        MissingJob(who);
        return Ok(Stale), seen;
      }
      if params[2].Other? {
        return Ok(Bad), seen;
      }
      var nonce := ParseV1SubmitNonce(extranonce, WithoutPrefix(params[2].s));
      if nonce.None? {
        return Ok(Bad), seen;
      }
      var hash := w.pow(job.value, nonce.value);
      result, seen := ProcessSubmit(who, Submission(id.value, nonce.value, job.value, ms.stratumDiff, hash, w.reply));
    }
  }
}
