/** The statistics table as a value: who owns which entry, and how entries add up to the totals. */
module Ledger {
  import opened VarDiff

  const ANONYMOUS := "anonymous"

  /** The identity fields of a connection, which authorizing may change. */
  datatype Identity = Identity(remoteAddr: string, walletAddr: string, workerName: string)

  function StatsKey(who: Identity): string {
    if who.workerName != "" && who.workerName != ANONYMOUS then who.workerName
    else if who.walletAddr != "" then who.walletAddr + "#" + ANONYMOUS
    else who.remoteAddr
  }

  function DisplayName(who: Identity): string {
    if who.workerName == "" then ANONYMOUS else who.workerName
  }

  datatype Counts = Counts(blocks: nat, shares: nat, stale: nat, invalid: nat)

  const ZERO := Counts(0, 0, 0, 0)
  const ONE_SHARE := Counts(0, 1, 0, 0)
  const ONE_BLOCK := Counts(1, 0, 0, 0)
  const ONE_STALE := Counts(0, 0, 1, 0)
  const ONE_INVALID := Counts(0, 0, 0, 1)

  function Plus(a: Counts, b: Counts): Counts {
    Counts(a.blocks + b.blocks, a.shares + b.shares, a.stale + b.stale, a.invalid + b.invalid)
  }

  datatype Worker = Worker(name: string, counts: Counts, sharesDiff: real, tracker: Tracker)

  type Table = map<string, Worker>

  /** The table after getCreateStats: an entry is found, taken over from the remote address, or new. */
  function Claim(t: Table, who: Identity): Table {
    var key := StatsKey(who);
    if key in t then t[key := t[key].(name := DisplayName(who))]
    else if who.remoteAddr in t then
      (t - {who.remoteAddr})[key := t[who.remoteAddr].(name := DisplayName(who))]
    else t[key := Worker(DisplayName(who), ZERO, 0.0, FRESH)]
  }

  /** The same table with another tracker in one entry. */
  function Retracked(t: Table, key: string, tracker: Tracker): Table
    requires key in t
  {
    t[key := t[key].(tracker := tracker)]
  }

  /** Every worker's entry and the totals beside them. */
  datatype Books = Books(table: Table, overall: Counts)

  /** One entry and the totals go up alike. */
  function Added(b: Books, key: string, c: Counts): Books
    requires key in b.table
  {
    Books(b.table[key := b.table[key].(counts := Plus(b.table[key].counts, c))], Plus(b.overall, c))
  }

  /** An accepted share also feeds the worker's difficulty tracker and its hash total. */
  function AddedShare(b: Books, key: string, hashValue: real): Books
    requires key in b.table
  {
    var a := Added(b, key, ONE_SHARE);
    var w := a.table[key];
    a.(table := a.table[key := w.(sharesDiff := w.sharesDiff + hashValue,
                                  tracker := w.tracker.(shares := w.tracker.shares + 1))])
  }

  /** Claim the identity's entry and count into it. */
  function Book(b: Books, who: Identity, c: Counts): Books {
    Added(b.(table := Claim(b.table, who)), StatsKey(who), c)
  }

  // ---------------------------------------------------------------- sums

  ghost function Total(t: Table): Counts {
    if t == map[] then ZERO
    else
      var key :| key in t;
      Plus(t[key].counts, Total(t - {key}))
  }

  lemma {:induction false} TotalSplit(t: Table, key: string)
    requires key in t
    ensures Total(t) == Plus(t[key].counts, Total(t - {key}))
  {
    var first :| first in t && Total(t) == Plus(t[first].counts, Total(t - {first}));
    if first != key {
      var a, b := t - {first}, t - {key};
      TotalSplit(a, key);
      TotalSplit(b, first);
      assert a - {key} == b - {first};
      var rest := Total(a - {key});
      assert Total(a) == Plus(t[key].counts, rest);
      assert Total(b) == Plus(t[first].counts, rest);
      assert Total(t) == Plus(t[first].counts, Total(a));
      assert Total(t) == Plus(t[key].counts, Total(b));
    }
  }

  lemma TotalInsert(t: Table, key: string, w: Worker)
    requires key !in t
    ensures Total(t[key := w]) == Plus(w.counts, Total(t))
  {
    TotalSplit(t[key := w], key);
    assert t[key := w] - {key} == t;
  }

  lemma TotalReplace(t: Table, key: string, w: Worker)
    requires key in t
    ensures Total(t[key := w]) == Plus(w.counts, Total(t - {key}))
  {
    TotalSplit(t[key := w], key);
    assert t[key := w] - {key} == t - {key};
  }

  /** Changing one entry without touching its counts changes no sum. */
  lemma TotalRelabel(t: Table, key: string, w: Worker)
    requires key in t && w.counts == t[key].counts
    ensures Total(t[key := w]) == Total(t)
  {
    TotalReplace(t, key, w);
    TotalSplit(t, key);
  }

  lemma TotalMove(t: Table, from: string, key: string, w: Worker)
    requires from in t && key !in t && w.counts == t[from].counts
    ensures Total((t - {from})[key := w]) == Total(t)
  {
    TotalInsert(t - {from}, key, w);
    TotalSplit(t, from);
  }

  /** Finding, migrating and creating entries moves no count anywhere. */
  lemma ClaimKeepsTotal(t: Table, who: Identity)
    ensures StatsKey(who) in Claim(t, who)
    ensures Total(Claim(t, who)) == Total(t)
  {
    hide Total, StatsKey;
    var key, remote := StatsKey(who), who.remoteAddr;
    if key in t {
      TotalRelabel(t, key, t[key].(name := DisplayName(who)));
    } else if remote in t {
      TotalMove(t, remote, key, t[remote].(name := DisplayName(who)));
    } else {
      TotalInsert(t, key, Worker(DisplayName(who), ZERO, 0.0, FRESH));
    }
  }

  lemma ClaimedKey(t: Table, who: Identity)
    ensures StatsKey(who) in Claim(t, who)
    ensures forall k :: k != StatsKey(who) && k != who.remoteAddr ==>
              (k in Claim(t, who) <==> k in t) && (k in t ==> Claim(t, who)[k] == t[k])
  {
  }

  /** Claiming twice is claiming once. */
  lemma ClaimAgain(t: Table, who: Identity)
    ensures Claim(Claim(t, who), who) == Claim(t, who)
  {
  }

  predicate Named(who: Identity) {
    who.workerName != "" && who.workerName != "anonymous"
  }

  /** Who shares an entry: workers of one name; without a name, one wallet's connections; without either, one
      remote address; and a worker whose name spells another's key. */
  lemma SharedKey(a: Identity, b: Identity)
    ensures Named(a) && Named(b) ==> (StatsKey(a) == StatsKey(b) <==> a.workerName == b.workerName)
    ensures !Named(a) && !Named(b) && a.walletAddr != "" && b.walletAddr != "" ==>
              (StatsKey(a) == StatsKey(b) <==> a.walletAddr == b.walletAddr)
    ensures !Named(a) && !Named(b) && a.walletAddr == b.walletAddr == "" ==>
              (StatsKey(a) == StatsKey(b) <==> a.remoteAddr == b.remoteAddr)
    ensures Named(a) && !Named(b) && b.walletAddr != "" ==>
              (StatsKey(a) == StatsKey(b) <==> a.workerName == b.walletAddr + "#anonymous")
    ensures Named(a) && !Named(b) && b.walletAddr == "" ==>
              (StatsKey(a) == StatsKey(b) <==> a.workerName == b.remoteAddr)
  {
    Suffixed(a.walletAddr);
    Suffixed(b.walletAddr);
  }

  lemma Suffixed(wallet: string)
    ensures wallet + "#" + ANONYMOUS == wallet + "#anonymous"
    ensures (wallet + "#anonymous")[..|wallet|] == wallet && |wallet + "#anonymous"| == |wallet| + 10
  {
    assert "#" + ANONYMOUS == "#anonymous";
  }

  /** A connection that authorizes under a key not yet in use keeps its entry, whatever was counted on it before, and
      its entry alone changes its key. */
  lemma AuthorizingKeepsEntry(t: Table, before: Identity, after: Identity)
    requires before.walletAddr == "" && !Named(before) && after.remoteAddr == before.remoteAddr
    requires StatsKey(after) !in Claim(t, before)
    ensures before.remoteAddr in Claim(t, before) && StatsKey(after) in Claim(Claim(t, before), after)
    ensures var first, authorized, key := Claim(t, before), Claim(Claim(t, before), after), StatsKey(after);
      && authorized[key] == first[before.remoteAddr].(name := if after.workerName == "" then "anonymous"
                                                              else after.workerName)
      && authorized.Keys == first.Keys - {before.remoteAddr} + {key}
      && forall k :: k in authorized && k != key ==> authorized[k] == first[k]
  {
  }

  ghost predicate Balanced(b: Books) {
    b.overall == Total(b.table)
  }

  lemma ClaimKeepsBalance(b: Books, who: Identity)
    requires Balanced(b)
    ensures Balanced(b.(table := Claim(b.table, who)))
  {
    ClaimKeepsTotal(b.table, who);
  }

  lemma AddedKeepsBalance(b: Books, key: string, c: Counts)
    requires Balanced(b) && key in b.table
    ensures Balanced(Added(b, key, c))
  {
    hide Total;
    TotalAdd(b.table, key, c);
  }

  lemma TotalAdd(t: Table, key: string, c: Counts)
    requires key in t
    ensures Total(t[key := t[key].(counts := Plus(t[key].counts, c))]) == Plus(Total(t), c)
  {
    TotalReplace(t, key, t[key].(counts := Plus(t[key].counts, c)));
    TotalSplit(t, key);
  }

  lemma AddedShareKeepsBalance(b: Books, key: string, hashValue: real)
    requires Balanced(b) && key in b.table
    ensures Balanced(AddedShare(b, key, hashValue))
  {
    hide Total;
    AddedKeepsBalance(b, key, ONE_SHARE);
    TotalRelabel(Added(b, key, ONE_SHARE).table, key, AddedShare(b, key, hashValue).table[key]);
  }
}
