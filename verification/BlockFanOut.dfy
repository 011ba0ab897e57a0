/** What a new block does for one client when its job runs undisturbed: difficulty, then work. */
module BlockFanOut {
  import opened Arithmetic
  import opened Wrappers
  import opened VarDiff
  import opened Ledger
  import opened ShareStats
  import opened MiningState
  import Handshake

  /** The client's tracker and difficulty after the block, the difficulties whose writes went through, and
      whether it stayed connected to get the job. A failed V1 write is not noticed. */
  datatype Served = Served(tracker: Tracker, stratum: real, sent: seq<real>, working: bool)

  /** The configuration and surroundings of one block job. announced and written say whether the write of the
      first difficulty and that of a changed one go through. */
  datatype Job = Job(sv2: bool, solo: bool, minShareDiff: real, netDiff: real, nowSet: real, nowStart: real,
                     announced: bool, written: bool)

  function If(told: bool, diff: real): seq<real> {
    if told then [diff] else []
  }

  function Serve(tracker: Tracker, stratum: Option<real>, j: Job): Served {
    var first := stratum.None?;
    var t := if first then SetDiff(tracker, j.minShareDiff, j.nowSet) else tracker;
    var current := if first then j.minShareDiff else stratum.value;
    var told := If(first && !j.solo && !j.sv2 && j.announced, j.minShareDiff);
    var varDiff := if j.solo then j.netDiff else t.minDiff;
    var wanted := if varDiff == 0.0 then current else varDiff;
    if wanted == current then Served(t, current, told, true)
    else if j.sv2 && !j.written then Served(t, wanted, told, false)
    else Served(Restart(t, j.nowStart), wanted, told + If(j.written, wanted), true)
  }

  ghost function StratumOf(ms: MiningState): Option<real>
    reads ms
  {
    if ms.initialized then Some(ms.DiffValue()) else None
  }

  /** A V1 difficulty write, whose failure is only logged. */
  method SendClientDiff(diff: real, written: bool) returns (told: seq<real>)
    ensures told == If(written, diff)
  {
    told := [];
    if written {
      told := [diff];
    }
  }

  /** First contact: the client's difficulty and tracker start at the configured minimum. */
  method Prepare(table: StatsTable, ms: MiningState, c: Conversion, bigJob: bool, who: Identity, j: Job)
    returns (told: seq<real>)
    requires table.Valid() && ms.Valid() && StatsKey(who) in table.stats
    requires Claim(table.View(), who) == table.View()
    requires j.minShareDiff > 0.0
    modifies table`stats, table.stats.Values, ms`initialized, ms`useBigJob, ms`stratumDiff
    ensures table.Valid() && ms.Valid() && ms.initialized && table.stats == old(table.stats)
    ensures var t, key, first := old(table.View()), StatsKey(who), !old(ms.initialized);
      && table.View() == Retracked(t, key, if first then SetDiff(t[key].tracker, j.minShareDiff, j.nowSet)
                                           else t[key].tracker)
      && ms.stratumDiff == (if first then Some(DiffOf(c, j.minShareDiff)) else old(ms.stratumDiff))
      && told == If(first && !j.solo && !j.sv2 && j.announced, j.minShareDiff)
  {
    hide StatsKey, Claim, SetDiff, DiffOf, StatsTable.View;
    var first := ms.InitializeIfNeeded(c, bigJob, j.minShareDiff);
    told := [];
    if first {
      var _ := table.SetClientVardiff(who, j.minShareDiff, j.nowSet);
      if !j.solo && !j.sv2 {
        told := SendClientDiff(j.minShareDiff, j.announced);
      }
    }
  }

  /** A difficulty that differs from the client's own is stored, written, and tracking resumes. */
  method Retune(table: StatsTable, ms: MiningState, c: Conversion, who: Identity, wanted: real, j: Job)
    returns (working: bool, sent: seq<real>)
    requires table.Valid() && ms.Valid() && StatsKey(who) in table.stats
    requires Claim(table.View(), who) == table.View() && wanted > 0.0
    modifies table`stats, table.stats.Values, ms`stratumDiff
    ensures table.Valid() && ms.Valid() && table.stats == old(table.stats)
    ensures var t, key := old(table.View()), StatsKey(who); var changed := wanted != old(ms.DiffValue());
      && working == (!changed || !j.sv2 || j.written)
      && sent == If(changed && j.written, wanted)
      && ms.stratumDiff == (if changed then Some(DiffOf(c, wanted)) else old(ms.stratumDiff))
      && table.View() == Retracked(t, key, if changed && working then Restart(t[key].tracker, j.nowStart)
                                           else t[key].tracker)
  {
    hide StatsKey, Claim, Restart, DiffOf, StatsTable.View;
    sent := [];
    working := true;
    if wanted != ms.DiffValue() {
      var _ := ms.SetStratumDiff(c, wanted);
      if j.sv2 {
        if !j.written {
          return false, sent;
        }
        sent := [wanted];
      } else {
        sent := SendClientDiff(wanted, j.written);
      }
      table.StartClientVardiff(who, j.nowStart);
    }
  }

  /** The difficulty the block calls for: the network's in solo mode, else the controller's, and the
      client's own when that is zero. */
  method Wanted(table: StatsTable, ms: MiningState, who: Identity, j: Job) returns (wanted: real)
    requires table.Valid() && StatsKey(who) in table.stats && Claim(table.View(), who) == table.View()
    modifies table`stats, table.stats.Values
    ensures table.Valid() && table.stats == old(table.stats) && table.View() == old(table.View())
    ensures var varDiff := if j.solo then j.netDiff else table.View()[StatsKey(who)].tracker.minDiff;
      wanted == if varDiff == 0.0 then ms.DiffValue() else varDiff
  {
    hide StatsKey, Claim, StatsTable.View;
    wanted := j.netDiff;
    if !j.solo {
      wanted := table.GetClientVardiff(who);
    }
    if wanted == 0.0 {
      wanted := ms.DiffValue();
    }
  }

  /** The whole difficulty part of a block job, for a client whose entry has been fetched. */
  method Settle(table: StatsTable, ms: MiningState, c: Conversion, bigJob: bool, who: Identity, j: Job)
    returns (sent: seq<real>, working: bool)
    requires table.Valid() && ms.Valid() && StatsKey(who) in table.stats
    requires Claim(table.View(), who) == table.View() && table.View()[StatsKey(who)].tracker.minDiff >= 0.0
    requires j.minShareDiff > 0.0 && j.netDiff >= 0.0
    requires ms.initialized ==> ms.DiffValue() > 0.0 && ms.stratumDiff == Some(DiffOf(c, ms.DiffValue()))
    modifies table`stats, table.stats.Values, ms`initialized, ms`useBigJob, ms`stratumDiff
    ensures table.Valid() && ms.Valid() && ms.initialized
    ensures var t, key := old(table.View()), StatsKey(who);
      var served := Serve(t[key].tracker, old(StratumOf(ms)), j);
      && served.stratum > 0.0
      && (table.View(), ms.stratumDiff) == (Retracked(t, key, served.tracker), Some(DiffOf(c, served.stratum)))
      && (sent, working) == (served.sent, served.working)
  {
    hide StatsKey, Claim, SetDiff, Restart, Retracked, If, Serve, StatsTable.View;
    ghost var t, key := table.View(), StatsKey(who);
    var told := Prepare(table, ms, c, bigJob, who, j);
    ghost var prepared := if !old(ms.initialized) then SetDiff(t[key].tracker, j.minShareDiff, j.nowSet)
                          else t[key].tracker;
    assert table.View() == Retracked(t, key, prepared);
    RetrackedClaim(t, who, prepared);
    SetDiffPositive(t[key].tracker, j.minShareDiff, j.nowSet);
    ghost var current := ms.DiffValue();
    var wanted := Wanted(table, ms, who, j);
    var retuned;
    working, retuned := Retune(table, ms, c, who, wanted, j);
    ghost var final := if wanted != current && working then Restart(prepared, j.nowStart) else prepared;
    assert table.View() == Retracked(Retracked(t, key, prepared), key, final);
    RetrackedTwice(t, key, prepared, final);
    sent := told + retuned;
    Serves(t[key].tracker, old(StratumOf(ms)), j, prepared, current, told, wanted, working, retuned);
  }

  method NewBlock(table: StatsTable, ms: MiningState, c: Conversion, bigJob: bool, who: Identity, block: Block,
                  j: Job)
    returns (sent: seq<real>, jobId: Option<nat>)
    requires table.Valid() && ms.Valid()
    requires j.minShareDiff > 0.0 && j.netDiff >= 0.0
    requires forall k :: k in table.stats ==> table.stats[k].minDiff >= 0.0
    requires ms.initialized ==> ms.DiffValue() > 0.0 && ms.stratumDiff == Some(DiffOf(c, ms.DiffValue()))
    modifies table`stats, table.stats.Values, ms
    ensures table.Valid() && ms.Valid() && ms.initialized
    ensures var t, key := Claim(old(table.View()), who), StatsKey(who);
      var served := Serve(t[key].tracker, old(StratumOf(ms)), j);
      && served.stratum > 0.0
      && (table.View(), ms.stratumDiff) == (Retracked(t, key, served.tracker), Some(DiffOf(c, served.stratum)))
      && sent == served.sent
      && (ms.added, jobId) == if served.working then (old(ms.added) + [block], Some(|ms.added|))
                              else (old(ms.added), None)
  {
    hide StatsKey, Claim, Serve, Retracked, DiffOf, StatsTable.View;
    table.NoNegative();
    ClaimNoNegative(table.View(), who);
    ClaimAgain(table.View(), who);
    var _ := table.GetCreateStats(who);
    var working;
    sent, working := Settle(table, ms, c, bigJob, who, j);
    if !working {
      return sent, None;
    }
    var id := ms.AddJob(block);
    jobId := Some(id);
  }

  /** First contact, choice and change of the difficulty, put together. */
  lemma Serves(tracker: Tracker, stratum: Option<real>, j: Job, prepared: Tracker, current: real, told: seq<real>,
               wanted: real, working: bool, retuned: seq<real>)
    requires prepared == if stratum.None? then SetDiff(tracker, j.minShareDiff, j.nowSet) else tracker
    requires current == if stratum.None? then j.minShareDiff else stratum.value
    requires told == If(stratum.None? && !j.solo && !j.sv2 && j.announced, j.minShareDiff)
    requires var varDiff := if j.solo then j.netDiff else prepared.minDiff;
      wanted == if varDiff == 0.0 then current else varDiff
    requires working == (wanted == current || !j.sv2 || j.written)
    requires retuned == If(wanted != current && j.written, wanted)
    ensures Serve(tracker, stratum, j) ==
            Served(if wanted != current && working then Restart(prepared, j.nowStart) else prepared,
                   wanted, told + retuned, working)
  {
    hide SetDiff, Restart;
    assert told + [] == told;
  }

  /** The difficulty a block leaves the client at: the network's in solo mode, else the controller's; at first contact
      both start from the configured minimum, and tracking starts anew. Only an SV2 client whose changed difficulty
      cannot be written gets no job. */
  lemma BlockSettles(tracker: Tracker, stratum: Option<real>, j: Job)
    requires j.minShareDiff > 0.0 && j.netDiff >= 0.0 && tracker.minDiff >= 0.0
    ensures stratum.None? ==> Serve(tracker, stratum, j).tracker ==
                              Tracker(Some(j.nowSet), 0, 0, Max(j.minShareDiff, 0.00001))
    ensures var s := Serve(tracker, stratum, j);
      !s.working <==> j.sv2 && !j.written && s.stratum != if stratum.None? then j.minShareDiff else stratum.value
    ensures var d := Serve(tracker, stratum, j).stratum;
      && (j.solo && j.netDiff > 0.0 ==> d == j.netDiff)
      && (j.solo && j.netDiff == 0.0 ==> d == if stratum.None? then j.minShareDiff else stratum.value)
      && (!j.solo && stratum.None? ==> d == Max(j.minShareDiff, 0.00001))
      && (!j.solo && stratum.Some? && tracker.minDiff > 0.0 ==> d == tracker.minDiff)
  {
  }

  /** What a V1 client has heard last after a block all of whose difficulty writes go through. */
  function Heard(stratum: Option<real>, s: Served): Option<real> {
    if s.sent != [] then Some(s.sent[|s.sent| - 1]) else stratum
  }

  /** A V1 client that knew its difficulty knows it after the block too. At first contact it learns it, except in
      exactly one case: in solo mode, when the network's difficulty is the configured minimum or zero. */
  lemma BlockIsHeard(tracker: Tracker, stratum: Option<real>, j: Job)
    requires j.minShareDiff > 0.0 && j.netDiff >= 0.0 && !j.sv2 && j.announced && j.written
    ensures var s := Serve(tracker, stratum, j);
      Heard(stratum, s) == Some(s.stratum) <==>
      !(stratum.None? && j.solo && (j.netDiff == 0.0 || j.netDiff == j.minShareDiff))
  {
    var s := Serve(tracker, stratum, j);
    assert [] + [s.stratum] == [s.stratum];
  }

  lemma RetrackedTwice(t: Table, key: string, a: Tracker, b: Tracker)
    requires key in t
    ensures key in Retracked(t, key, a) && Retracked(t, key, a)[key].tracker == a
    ensures Retracked(Retracked(t, key, a), key, b) == Retracked(t, key, b)
  {
  }

  lemma SetDiffPositive(t: Tracker, diff: real, now: real)
    ensures SetDiff(t, diff, now).minDiff > 0.0
  {
  }

  lemma ClaimNoNegative(t: Table, who: Identity)
    requires forall k :: k in t ==> t[k].tracker.minDiff >= 0.0
    ensures StatsKey(who) in Claim(t, who) && Claim(t, who)[StatsKey(who)].tracker.minDiff >= 0.0
  {
  }

  /** Changing a claimed entry's tracker leaves it claimed. */
  lemma RetrackedClaim(t: Table, who: Identity, tracker: Tracker)
    requires StatsKey(who) in t && Claim(t, who) == t
    ensures Claim(Retracked(t, StatsKey(who), tracker), who) == Retracked(t, StatsKey(who), tracker)
    ensures StatsKey(who) in Retracked(t, StatsKey(who), tracker)
    ensures Retracked(t, StatsKey(who), tracker)[StatsKey(who)].tracker == tracker
  {
  }

  /** The difficulties told, without their numbers. */
  function Values(sent: seq<Handshake.Told>): (r: seq<real>)
    ensures |r| == |sent|
  {
    seq(|sent|, i requires 0 <= i < |sent| => sent[i].diff)
  }

  lemma ValuesTell(c: Handshake.Client, n: nat, diff: real, written: bool)
    ensures Values(Handshake.Tell(c, n, diff, written).sent) == Values(c.sent) + If(written, diff)
  {
  }

  /** The undisturbed job is the step-by-step one of the handshake: outside solo mode, for an initialised client
      at rest, it leaves the same tracker and difficulty and tells the same, whether or not its write goes
      through. */
  lemma ServedAsInHandshake(c: Handshake.Client, j: Job, min: real)
    requires Handshake.AtRest(c) && !j.solo && j.sv2 == c.sv2 && (j.sv2 ==> j.written) && j.nowStart == c.clock
    ensures var d, served := Handshake.BlockPass(c, j.written, min), Serve(c.tracker, Some(c.stratum), j);
      && Handshake.AtRest(d) && served.working
      && served.tracker == d.tracker && served.stratum == d.stratum
      && Values(c.sent) + served.sent == Values(d.sent)
  {
    var i, diff, n := |c.jobs|, c.tracker.minDiff, |c.decided|;
    var blocked := c.(jobs := c.jobs + [Handshake.Init]);
    Handshake.Reads(blocked, i, j.written, min);
    hide Handshake.Thrice;
    assert blocked.jobs[i := Handshake.Done] == c.jobs + [Handshake.Done];
    if diff != 0.0 && diff != c.stratum {
      var read := Handshake.At(blocked, i, Handshake.Store(diff, n));
      Handshake.Changes(read, i, j.written, min);
      assert read.jobs[i := Handshake.Done] == c.jobs + [Handshake.Done];
      ValuesTell(c, n, diff, j.written);
      assert [] + If(j.written, diff) == If(j.written, diff);
    } else {
      assert Values(c.sent) + [] == Values(c.sent);
    }
  }
}
