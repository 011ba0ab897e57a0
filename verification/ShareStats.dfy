/** The statistics table as the code keeps it: shared WorkStats objects, found by key, counted into
    and retuned in place. Each method is tied to the table seen as a value. */
module ShareStats {
  import opened Arithmetic
  import opened Wrappers
  import opened VarDiff
  import opened Ledger

  class WorkStats {
    var blocksFound: nat
    var sharesFound: nat
    var sharesDiff: real
    var staleShares: nat
    var invalidShares: nat
    var workerName: string
    var varDiffStartTime: Option<real>
    var varDiffSharesFound: nat
    var varDiffWindow: nat
    var minDiff: real

    function Tracker(): Tracker
      reads this
    {
      VarDiff.Tracker(varDiffStartTime, varDiffSharesFound, varDiffWindow, minDiff)
    }

    function Tally(): Counts
      reads this
    {
      Counts(blocksFound, sharesFound, staleShares, invalidShares)
    }

    function View(): Worker
      reads this
    {
      Worker(workerName, Tally(), sharesDiff, Tracker())
    }

    constructor (name: string)
      ensures View() == Worker(name, ZERO, 0.0, FRESH)
    {
      blocksFound, sharesFound, sharesDiff, staleShares, invalidShares := 0, 0, 0.0, 0, 0;
      workerName, varDiffStartTime, varDiffSharesFound, varDiffWindow, minDiff := name, None, 0, 0, 0.0;
    }

    method CountStale()
      modifies this
      ensures Tally() == Plus(old(Tally()), ONE_STALE) && View() == old(View()).(counts := Tally())
    {
      staleShares := staleShares + 1;
    }

    method CountInvalid()
      modifies this
      ensures Tally() == Plus(old(Tally()), ONE_INVALID) && View() == old(View()).(counts := Tally())
    {
      invalidShares := invalidShares + 1;
    }

    method CountBlock()
      modifies this
      ensures Tally() == Plus(old(Tally()), ONE_BLOCK) && View() == old(View()).(counts := Tally())
    {
      blocksFound := blocksFound + 1;
    }

    method CountShare()
      modifies this
      ensures Tally() == Plus(old(Tally()), ONE_SHARE) && View() == old(View()).(counts := Tally())
    {
      sharesFound := sharesFound + 1;
    }

    /** What an accepted share adds beside the count. */
    method CreditShare(hashValue: real)
      modifies this
      ensures View() == old(View()).(sharesDiff := old(sharesDiff) + hashValue,
                                     tracker := old(Tracker()).(shares := old(Tracker()).shares + 1))
    {
      varDiffSharesFound := varDiffSharesFound + 1;
      sharesDiff := sharesDiff + hashValue;
    }

    lemma Viewed()
      ensures View() == Worker(workerName, Tally(), sharesDiff, Tracker())
    {
    }

    method Rename(name: string)
      modifies this
      ensures View() == old(View()).(name := name)
    {
      if workerName != name {
        workerName := name;
      }
    }

    /** New difficulty: the tracker is off until the client has been told. */
    method UpdateVarDiff(diff: real) returns (previous: real)
      modifies this
      ensures View() == old(View()).(tracker := Pause(old(Tracker()), diff)) && previous == old(minDiff)
    {
      varDiffStartTime := None;
      varDiffWindow := 0;
      previous := minDiff;
      minDiff := diff;
    }

    method StartVarDiff(now: real)
      modifies this
      ensures View() == old(View()).(tracker := Restart(old(Tracker()), now))
    {
      if varDiffStartTime.None? {
        varDiffSharesFound := 0;
        varDiffStartTime := Some(now);
      }
    }

    /** The loop over the windows cleared so far, from window 1 on. */
    method BreachedCleared(ratio: real) returns (breached: bool)
      requires varDiffWindow < 7
      ensures breached == Breached(varDiffWindow, ratio)
    {
      hide Off;
      var i := 1;
      while i < varDiffWindow
        invariant 1 <= i && (i <= varDiffWindow || i == 1)
        invariant forall k :: 1 <= k < i ==> !Off(ratio, TOLERANCES[k])
      {
        if Off(ratio, TOLERANCES[i]) {
          return true;
        }
        i := i + 1;
      }
      return false;
    }

    /** The retarget pass for one worker. */
    method Retarget(now: real, rate: Rate)
      requires varDiffWindow < 7
      modifies this
      ensures View() == old(View()).(tracker := Tick(old(Tracker()), now, rate))
      ensures Reviewed(old(Tracker()), Tracker(), now, rate)
    {
      hide Off, Ratio, Quota, Breached, Reviewed;
      TickReviewed(Tracker(), now, rate);
      if varDiffStartTime.None? {
        return;
      }
      var diff, shares, duration := minDiff, varDiffSharesFound, now - varDiffStartTime.value;
      if duration <= 0.0 {
        return;
      }
      var ratio := Ratio(shares, duration, rate);
      var window, tolerance := WINDOWS[varDiffWindow], TOLERANCES[varDiffWindow];
      if window == 0 {
        if Off(ratio, tolerance) {
          var _ := UpdateVarDiff(diff * ratio);
        }
        return;
      }
      var breached := BreachedCleared(ratio);
      if breached {
        var _ := UpdateVarDiff(diff * ratio);
        return;
      }
      var quota := Quota(varDiffWindow, rate);
      if shares as real >= quota as real * (1.0 + tolerance) {
        var _ := UpdateVarDiff(diff * ratio);
        return;
      }
      if duration >= window as real {
        if shares as real <= quota as real * (1.0 - tolerance) {
          var _ := UpdateVarDiff(diff * Max(ratio, 0.1));
          return;
        }
        varDiffWindow := varDiffWindow + 1;
      }
    }
  }

  class StatsTable {
    var stats: map<string, WorkStats>
    const overall: WorkStats

    /** No two keys share an object, and the totals are no worker's entry. */
    ghost predicate Valid()
      reads this
    {
      && (forall k, l :: k in stats && l in stats && k != l ==> stats[k] != stats[l])
      && overall !in stats.Values
    }

    ghost function View(): (t: Table)
      reads this, stats.Values
      ensures t.Keys == stats.Keys
    {
      map k | k in stats :: stats[k].View()
    }

    ghost function Entries(): Books
      reads this, stats.Values, overall
    {
      Books(View(), overall.Tally())
    }

    lemma NoNegative()
      requires forall k :: k in stats ==> stats[k].minDiff >= 0.0
      ensures forall k :: k in View() ==> View()[k].tracker.minDiff >= 0.0
    {
    }

    constructor ()
      ensures Valid() && fresh(overall) && stats == map[] && Entries() == Books(map[], ZERO)
    {
      stats := map[];
      overall := new WorkStats("");
    }

    /** When one entry's object changes, one entry of the view does. */
    twostate lemma OneChanged(key: string)
      requires old(Valid()) && Valid() && stats == old(stats) && key in stats
      requires forall k :: k in stats && k != key ==> unchanged(stats[k])
      ensures View() == old(View())[key := stats[key].View()]
    {
    }

    /** The lookup itself, before the display name is refreshed. */
    method Locate(who: Identity) returns (w: WorkStats)
      requires Valid()
      modifies `stats
      ensures Valid()
      ensures StatsKey(who) in stats && stats[StatsKey(who)] == w
      ensures View()[StatsKey(who) := w.View().(name := DisplayName(who))] == Claim(old(View()), who)
      ensures StatsKey(who) in old(stats) ==> stats == old(stats)
      ensures old(stats.Values) <= stats.Values <= old(stats.Values) + {w}
      ensures w in old(stats.Values) || fresh(w)
    {
      hide StatsKey, DisplayName, View, Claim, WorkStats.View, WorkStats.Tally, WorkStats.Tracker;
      var key := StatsKey(who);
      if key in stats {
        w := stats[key];
        FoundView(who, w);
      } else if key != who.remoteAddr && who.remoteAddr in stats {
        w := stats[who.remoteAddr];
        stats := stats - {who.remoteAddr};
        stats := stats[key := w];
        TakenView(who, w);
        Kept(old(stats), stats, key, who.remoteAddr);
      } else {
        w := new WorkStats(DisplayName(who));
        stats := stats[key := w];
        NewView(who, w);
        Kept(old(stats), stats, key, key);
      }
    }

    /** Find, migrate or create the entry of an identity. No object ever leaves the table. */
    method GetCreateStats(who: Identity) returns (w: WorkStats)
      requires Valid()
      modifies `stats, stats.Values
      ensures Valid()
      ensures View() == Claim(old(View()), who)
      ensures StatsKey(who) in stats && stats[StatsKey(who)] == w
      ensures old(stats.Values) <= stats.Values <= old(stats.Values) + {w}
      ensures StatsKey(who) in old(stats) ==> stats == old(stats)
      ensures w in old(stats.Values) || fresh(w)
    {
      hide StatsKey, DisplayName, View, Claim, WorkStats.View, WorkStats.Tally, WorkStats.Tracker;
      var key := StatsKey(who);
      w := Locate(who);
      label located:
      w.Rename(DisplayName(who));
      OneChanged@located(key);
    }

    /** The entry was there. */
    twostate lemma FoundView(who: Identity, new w: WorkStats)
      requires stats == old(stats) && forall k :: k in stats ==> unchanged(stats[k])
      requires StatsKey(who) in stats && w == stats[StatsKey(who)]
      ensures View()[StatsKey(who) := w.View().(name := DisplayName(who))] == Claim(old(View()), who)
    {
      hide StatsKey, DisplayName;
      assert View() == old(View());
    }

    /** It was taken over from the remote address. */
    twostate lemma TakenView(who: Identity, new w: WorkStats)
      requires StatsKey(who) !in old(stats) && who.remoteAddr in old(stats) && w == old(stats)[who.remoteAddr]
      requires forall k :: k in old(stats) ==> unchanged(old(stats)[k])
      requires stats == (old(stats) - {who.remoteAddr})[StatsKey(who) := w]
      ensures View()[StatsKey(who) := w.View().(name := DisplayName(who))] == Claim(old(View()), who)
    {
      hide StatsKey, DisplayName;
      var before, key := old(View()), StatsKey(who);
      assert View() == (before - {who.remoteAddr})[key := w.View()];
    }

    /** It is new. */
    twostate lemma NewView(who: Identity, new w: WorkStats)
      requires StatsKey(who) !in old(stats) && who.remoteAddr !in old(stats)
      requires forall k :: k in old(stats) ==> unchanged(old(stats)[k])
      requires stats == old(stats)[StatsKey(who) := w] && w.View() == Worker(DisplayName(who), ZERO, 0.0, FRESH)
      ensures View()[StatsKey(who) := w.View().(name := DisplayName(who))] == Claim(old(View()), who)
    {
      hide StatsKey, DisplayName;
      assert View() == old(View())[StatsKey(who) := w.View()];
    }

    // -------------------------------------------------------------- counting

    ghost predicate EntryIs(t: Table, key: string)
      requires key in stats && key in t
      reads this, stats.Values
    {
      t[key] == stats[key].View() && t[key].counts == stats[key].Tally()
    }

    lemma EntryAt(key: string)
      requires key in stats
      ensures EntryIs(View(), key)
    {
    }

    method AddStale(ghost key: string, w: WorkStats)
      requires Valid() && key in stats && stats[key] == w
      modifies w, overall
      ensures Valid() && Entries() == Added(old(Entries()), key, ONE_STALE)
    {
      hide View, WorkStats.View, WorkStats.Tally, WorkStats.Tracker;
      EntryAt(key);
      w.CountStale();
      overall.CountStale();
      OneChanged(key);
    }

    method AddInvalid(ghost key: string, w: WorkStats)
      requires Valid() && key in stats && stats[key] == w
      modifies w, overall
      ensures Valid() && Entries() == Added(old(Entries()), key, ONE_INVALID)
    {
      hide View, WorkStats.View, WorkStats.Tally, WorkStats.Tracker;
      EntryAt(key);
      w.CountInvalid();
      overall.CountInvalid();
      OneChanged(key);
    }

    method AddBlock(ghost key: string, w: WorkStats)
      requires Valid() && key in stats && stats[key] == w
      modifies w, overall
      ensures Valid() && Entries() == Added(old(Entries()), key, ONE_BLOCK)
    {
      hide View, WorkStats.View, WorkStats.Tally, WorkStats.Tracker;
      EntryAt(key);
      w.CountBlock();
      overall.CountBlock();
      OneChanged(key);
    }

    method AddShare(ghost key: string, w: WorkStats, hashValue: real)
      requires Valid() && key in stats && stats[key] == w
      modifies w, overall
      ensures Valid() && Entries() == AddedShare(old(Entries()), key, hashValue)
    {
      hide View, WorkStats.View, WorkStats.Tally, WorkStats.Tracker, Plus, AddedShare, Added;
      EntryAt(key);
      ghost var before := View()[key];
      w.Viewed();
      w.CountShare();
      w.Viewed();
      w.CreditShare(hashValue);
      overall.CountShare();
      OneChanged(key);
      SharedEntry(old(Entries()), key, hashValue, before.(counts := Plus(before.counts, ONE_SHARE)));
    }

    // -------------------------------------------------------------- difficulty

    /** One pass of the vardiff thread over the whole table, in whatever order the map yields. now
        holds the clock reading taken for each entry. */
    method RetargetAll(now: map<string, real>, rate: Rate)
      requires Valid() && stats.Keys <= now.Keys
      requires forall k :: k in stats ==> stats[k].varDiffWindow < 7
      modifies stats.Values
      ensures Valid()
      ensures forall k :: k in stats ==>
                View()[k] == old(View())[k].(tracker := Tick(old(View())[k].tracker, now[k], rate))
    {
      hide Tick;
      var todo := stats.Keys;
      while todo != {}
        invariant todo <= stats.Keys
        invariant forall k :: k in todo ==> unchanged(stats[k])
        invariant forall k :: k in stats && k !in todo ==>
                    stats[k].View() == old(stats[k].View()).(tracker := Tick(old(stats[k].Tracker()), now[k], rate))
      {
        var k :| k in todo;
        stats[k].Retarget(now[k], rate);
        todo := todo - {k};
      }
    }

    method StartClientVardiff(who: Identity, now: real)
      requires Valid()
      modifies `stats, stats.Values
      ensures Valid()
      ensures StatsKey(who) in old(stats) ==> stats == old(stats)
      ensures var t, key := Claim(old(View()), who), StatsKey(who);
        View() == t[key := t[key].(tracker := Restart(t[key].tracker, now))]
    {
      hide StatsKey, Claim, Restart;
      var w := GetCreateStats(who);
      label claimed:
      w.StartVarDiff(now);
      OneChanged@claimed(StatsKey(who));
    }

    method GetClientVardiff(who: Identity) returns (diff: real)
      requires Valid()
      modifies `stats, stats.Values
      ensures Valid()
      ensures StatsKey(who) in old(stats) ==> stats == old(stats)
      ensures View() == Claim(old(View()), who)
      ensures StatsKey(who) in View() && diff == View()[StatsKey(who)].tracker.minDiff
    {
      hide StatsKey, Claim;
      var w := GetCreateStats(who);
      diff := w.minDiff;
    }

    method SetClientVardiff(who: Identity, diff: real, now: real) returns (previous: real)
      requires Valid()
      modifies `stats, stats.Values
      ensures Valid()
      ensures StatsKey(who) in old(stats) ==> stats == old(stats)
      ensures var t, key := Claim(old(View()), who), StatsKey(who);
        && View() == t[key := t[key].(tracker := SetDiff(t[key].tracker, diff, now))]
        && View()[key].tracker == VarDiff.Tracker(Some(now), 0, 0, Max(diff, 0.00001))
        && previous == t[key].tracker.minDiff
    {
      hide StatsKey, Claim;
      var w := GetCreateStats(who);
      label claimed:
      previous := w.UpdateVarDiff(Max(diff, SMALLEST_DIFF));
      w.StartVarDiff(now);
      OneChanged@claimed(StatsKey(who));
    }
  }

  lemma SharedEntry(b: Books, key: string, hashValue: real, w: Worker)
    requires key in b.table && w == b.table[key].(counts := Plus(b.table[key].counts, ONE_SHARE))
    ensures AddedShare(b, key, hashValue) ==
            Books(b.table[key := w.(sharesDiff := w.sharesDiff + hashValue,
                                    tracker := w.tracker.(shares := w.tracker.shares + 1))],
                  Plus(b.overall, ONE_SHARE))
  {
    hide Plus;
  }

  /** Moving one value to a fresh key, or adding one, loses no value. */
  lemma Kept<T>(m: map<string, T>, n: map<string, T>, key: string, from: string)
    requires forall k :: k in m && k != from ==> k in n && n[k] == m[k]
    requires from in m ==> (from in n && n[from] == m[from]) || (key in n && n[key] == m[from])
    ensures m.Values <= n.Values
  {
    forall v | v in m.Values
      ensures v in n.Values
    {
      var k :| k in m && m[k] == v;
      assert k != from ==> n[k] in n.Values;
    }
  }
}
