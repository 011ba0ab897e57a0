/** The state kept for one mining connection: the 32-slot job ring and the stratum difficulty. */
module MiningState {
  import opened Wrappers
  import opened Targets

  const MAX_JOBS: nat := 32

  /** A block template, reduced to what judging a share reads from it. convertible says whether the
      node library accepts the RPC form, and target is the block's own proof-of-work target. */
  datatype Block = Block(id: nat, blueScore: nat, convertible: bool, target: nat)

  /** Go's remainder, which takes the sign of the dividend. */
  function Rem(a: int, n: nat): int
    requires n > 0
  {
    if a >= 0 then a % n else -((-a) % n)
  }

  /** The number of the newest of n jobs that went into a slot, 0 when none did. Jobs count from 1. */
  function Newest(n: nat, slot: nat): (j: nat)
    requires slot < MAX_JOBS
    ensures j <= n
  {
    var j := n - (n - slot) % MAX_JOBS;
    if j >= 1 then j else 0
  }

  lemma NewestNext(n: nat, slot: nat)
    requires slot < MAX_JOBS
    ensures Newest(n + 1, slot) == if (n + 1) % MAX_JOBS == slot then n + 1 else Newest(n, slot)
  {
    NextRemainder(n - slot);
    SlotReached(n + 1, slot);
  }

  lemma NextRemainder(a: int)
    ensures (a + 1) % MAX_JOBS == if a % MAX_JOBS == MAX_JOBS - 1 then 0 else a % MAX_JOBS + 1
  {
    var q, r := a / MAX_JOBS, a % MAX_JOBS;
    assert a + 1 == if r == MAX_JOBS - 1 then (q + 1) * MAX_JOBS else q * MAX_JOBS + (r + 1);
  }

  lemma SlotReached(n: int, slot: nat)
    requires slot < MAX_JOBS
    ensures (n - slot) % MAX_JOBS == 0 <==> n % MAX_JOBS == slot
  {
    Congruent(n, slot);
  }

  /** The number of the job an id reaches among n jobs, 0 for none. */
  function Reached(n: nat, id: int): (j: nat)
    ensures j <= n
  {
    var slot := Rem(id, MAX_JOBS);
    if slot < 0 then 0 else Newest(n, slot)
  }

  /** What GetJob answers after the given jobs were added, oldest first. */
  function Lookup(added: seq<Block>, id: int): Option<Block> {
    var j := Reached(|added|, id);
    if j == 0 then None else Some(added[j - 1])
  }

  /** Two ids, of which the first reaches a job, reach the same one exactly when they differ by a multiple of 32
      and the second is not negative or is itself a multiple of 32. */
  lemma SameJobReached(n: nat, a: int, b: int)
    requires Reached(n, a) > 0
    ensures Reached(n, a) == Reached(n, b) <==> (a - b) % MAX_JOBS == 0 && (b >= 0 || b % MAX_JOBS == 0)
  {
    SlotOf(a);
    SlotOf(b);
    hide Rem, Newest;
    Congruent(a, b);
    NewestIsLatest(n, a % MAX_JOBS);
    NewestIsLatest(n, b % MAX_JOBS);
  }

  /** Go's remainder selects a slot exactly for ids that are not negative and for multiples of 32. */
  lemma SlotOf(id: int)
    ensures Rem(id, MAX_JOBS) >= 0 <==> id >= 0 || id % MAX_JOBS == 0
    ensures Rem(id, MAX_JOBS) >= 0 ==> Rem(id, MAX_JOBS) == id % MAX_JOBS
  {
  }

  lemma Congruent(a: int, b: int)
    ensures (a - b) % MAX_JOBS == 0 <==> a % MAX_JOBS == b % MAX_JOBS
  {
  }

  /** Which jobs an id can reach: the latest one congruent to it, and nothing exactly when no job is. */
  lemma LookupIsLatestCongruent(added: seq<Block>, id: nat)
    ensures Lookup(added, id) == None <==> forall j :: 1 <= j <= |added| ==> j % 32 != id % 32
    ensures forall j :: 1 <= j <= |added| && j % 32 == id % 32 && (forall k :: j < k <= |added| ==> k % 32 != id % 32)
              ==> Lookup(added, id) == Some(added[j - 1])
  {
    NewestIsLatest(|added|, id % MAX_JOBS);
  }

  lemma {:induction false} NewestIsLatest(n: nat, slot: nat)
    requires slot < MAX_JOBS
    ensures var j := Newest(n, slot);
      && (j > 0 ==> j % MAX_JOBS == slot)
      && forall k :: j < k <= n ==> k % MAX_JOBS != slot
  {
    if n == 0 {
    } else {
      NewestIsLatest(n - 1, slot);
      NewestNext(n - 1, slot);
    }
  }

  lemma RecentNumber(n: nat, id: nat)
    requires n - MAX_JOBS < id <= n && id >= 1
    ensures Newest(n, id % MAX_JOBS) == id
  {
  }

  /** The last 32 ids select exactly the job they were given out for. */
  lemma RecentIdIsItsJob(added: seq<Block>, id: int)
    requires |added| - 32 < id <= |added| && id >= 1
    ensures Lookup(added, id) == Some(added[id - 1])
  {
  }

  /** A negative id reaches a job only through slot 0, because Go's remainder keeps the sign. */
  lemma NegativeId(added: seq<Block>, id: int)
    requires id < 0
    ensures Lookup(added, id).Some? <==> id % MAX_JOBS == 0 && |added| >= MAX_JOBS
    ensures Lookup(added, id).Some? ==> Lookup(added, id) == Lookup(added, 0)
  {
    SlotOf(id);
    SlotOf(0);
    FirstRound(|added|);
    hide Rem, Newest;
  }

  /** Slot 0 is reached by the 32nd job. */
  lemma FirstRound(n: nat)
    ensures Newest(n, 0) > 0 <==> n >= MAX_JOBS
  {
  }

  datatype Diff = Diff(hashValue: real, diffValue: real, targetValue: nat)

  /** The hash value only feeds statistics, so its conversion is a parameter. */
  datatype Conversion = Conversion(rnd: real -> real, hashOf: real -> real)

  function DiffOf(c: Conversion, d: real): Diff
    requires d > 0.0
  {
    Diff(c.hashOf(d), d, DiffToTarget(c.rnd, d))
  }

  class MiningState {
    var jobs: map<int, Block>
    var jobCounter: nat
    var initialized: bool
    var useBigJob: bool
    var stratumDiff: Option<Diff>
    /** Every job ever added, oldest first. */
    ghost var added: seq<Block>

    ghost predicate Valid()
      reads this
    {
      && jobCounter == |added|
      && (initialized ==> stratumDiff.Some?)
      && (forall slot :: slot in jobs ==> 0 <= slot < MAX_JOBS)
      && forall slot :: 0 <= slot < MAX_JOBS ==>
           && (slot in jobs <==> Newest(|added|, slot) > 0)
           && (slot in jobs ==> jobs[slot] == added[Newest(|added|, slot) - 1])
    }

    constructor ()
      ensures Valid() && added == [] && !initialized && !useBigJob && stratumDiff == None
    {
      jobs, jobCounter, initialized, useBigJob, stratumDiff := map[], 0, false, false, None;
      added := [];
    }

    method AddJob(job: Block) returns (id: nat)
      requires Valid()
      modifies `jobs, `jobCounter, `added
      ensures Valid()
      ensures added == old(added) + [job] && id == |added|
    {
      jobCounter := jobCounter + 1;
      id := jobCounter;
      jobs := jobs[id % MAX_JOBS := job];
      forall slot | 0 <= slot < MAX_JOBS {
        NewestNext(|added|, slot);
      }
      added := added + [job];
    }

    method GetJob(id: int) returns (job: Option<Block>)
      requires Valid()
      ensures job == Lookup(added, id)
    {
      var slot := Rem(id, MAX_JOBS);
      job := if slot in jobs then Some(jobs[slot]) else None;
    }

    /** First use only: the difficulty starts at the configured minimum. */
    method InitializeIfNeeded(c: Conversion, bigJob: bool, minShareDiff: real) returns (first: bool)
      requires minShareDiff > 0.0 && Valid()
      modifies `initialized, `useBigJob, `stratumDiff
      ensures Valid()
      ensures first == !old(initialized) && initialized
      ensures first ==> useBigJob == bigJob && stratumDiff == Some(DiffOf(c, minShareDiff))
      ensures !first ==> useBigJob == old(useBigJob) && stratumDiff == old(stratumDiff)
    {
      if initialized {
        return false;
      }
      initialized := true;
      useBigJob := bigJob;
      stratumDiff := Some(DiffOf(c, minShareDiff));
      return true;
    }

    method SetStratumDiff(c: Conversion, diffValue: real) returns (previous: real)
      requires diffValue > 0.0 && Valid()
      modifies `stratumDiff
      ensures Valid()
      ensures stratumDiff == Some(DiffOf(c, diffValue)) && previous == old(DiffValue())
    {
      previous := DiffValue();
      stratumDiff := Some(DiffOf(c, diffValue));
    }

    function DiffValue(): real
      reads this
    {
      if stratumDiff.None? then 0.0 else stratumDiff.value.diffValue
    }
  }
}
