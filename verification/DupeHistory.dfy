/** The bounded duplicate detector: a FIFO of share keys with a set beside it, and the unbounded
    history it stands for. */
module DupeHistory {
  import opened Ledger

  const MAX_TRACKED: nat := 2048

  function Last<T>(s: seq<T>, n: nat): (r: seq<T>)
    ensures |r| == if |s| <= n then |s| else n
  {
    if |s| <= n then s else s[|s| - n..]
  }

  ghost predicate NoRepeats<T>(s: seq<T>) {
    forall i, j :: 0 <= i < j < |s| ==> s[i] != s[j]
  }

  /** The tracked keys after one lookup: a new key enters at the end, the oldest leaves when full. */
  function Tracked(order: seq<string>, key: string): seq<string> {
    if key in order then order else Last(order + [key], MAX_TRACKED)
  }

  class ShareHistory {
    var order: seq<string>
    var keys: set<string>

    ghost predicate Valid()
      reads this
    {
      && |order| <= MAX_TRACKED
      && NoRepeats(order)
      && forall k :: k in keys <==> k in order
    }

    constructor ()
      ensures Valid() && order == []
    {
      order, keys := [], {};
    }

    method Track(key: string) returns (duplicate: bool)
      requires Valid()
      modifies this
      ensures Valid()
      ensures duplicate == (key in old(order)) && order == Tracked(old(order), key)
    {
      if key in keys {
        return true;
      }
      keys := keys + {key};
      order := order + [key];
      if |order| > MAX_TRACKED {
        TailMembers(order);
        var evicted := order[0];
        order := order[1..];
        keys := keys - {evicted};
      }
      return false;
    }
  }

  lemma TailMembers<T>(s: seq<T>)
    requires s != [] && NoRepeats(s)
    ensures forall k :: k in s[1..] <==> k in s && k != s[0]
  {
  }

  type Dupes = map<string, seq<string>>

  function OrderOf(d: Dupes, worker: string): seq<string> {
    if worker in d then d[worker] else []
  }

  class DupeTable {
    var dupeShares: map<string, ShareHistory>
    /** The tracked keys of every worker. */
    ghost var orders: Dupes

    ghost predicate Valid()
      reads this, dupeShares.Values
    {
      && (forall k, l :: k in dupeShares && l in dupeShares && k != l ==> dupeShares[k] != dupeShares[l])
      && orders.Keys == dupeShares.Keys
      && forall k :: k in dupeShares ==> dupeShares[k].Valid() && orders[k] == dupeShares[k].order
    }

    constructor ()
      ensures Valid() && dupeShares == map[] && orders == map[]
    {
      dupeShares := map[];
      orders := map[];
    }

    /** True exactly for a key among the worker's last 2048 tracked ones; only then nothing changes. */
    method TrackDupeShare(who: Identity, key: string) returns (duplicate: bool)
      requires Valid()
      modifies this, dupeShares.Values
      ensures Valid() && fresh(dupeShares.Values - old(dupeShares.Values))
      ensures var worker, d := StatsKey(who), old(orders);
        && duplicate == (key in OrderOf(d, worker))
        && orders == d[worker := Tracked(OrderOf(d, worker), key)]
    {
      hide StatsKey, Tracked;
      var worker := StatsKey(who);
      if worker !in dupeShares {
        var history := new ShareHistory();
        dupeShares := dupeShares[worker := history];
      }
      duplicate := dupeShares[worker].Track(key);
      orders := orders[worker := dupeShares[worker].order];
    }

    method Delete(key: string)
      requires Valid()
      modifies this
      ensures Valid() && dupeShares.Values <= old(dupeShares.Values)
      ensures orders == old(orders) - {key}
    {
      dupeShares := dupeShares - {key};
      orders := orders - {key};
    }

    /** A disconnect drops the history under each name the connection may have used. */
    method ClearClientDupeHistory(who: Identity)
      requires Valid()
      modifies this
      ensures Valid() && dupeShares.Values <= old(dupeShares.Values)
      ensures orders == Forget(old(orders), who)
    {
      hide StatsKey;
      Delete(who.remoteAddr);
      Delete(who.workerName);
      Delete(StatsKey(who));
      MinusThree(old(orders), who.remoteAddr, who.workerName, StatsKey(who));
    }
  }

  lemma MinusThree(d: Dupes, a: string, b: string, c: string)
    ensures d - {a} - {b} - {c} == d - {a, b, c}
  {
  }

  function Forget(d: Dupes, who: Identity): Dupes {
    d - {who.remoteAddr, who.workerName, StatsKey(who)}
  }

  // ---------------------------------------------------------------- the history behind the window

  /** One event of a run, as one worker's history sees it. */
  datatype Op = Track(key: string) | Clear | Elsewhere

  /** What the detector keeps for the worker after a run. */
  ghost function Kept(ops: seq<Op>): seq<string> {
    if ops == [] then []
    else
      var before, op := Kept(ops[..|ops| - 1]), ops[|ops| - 1];
      match op
      case Track(key) => Tracked(before, key)
      case Clear => []
      case Elsewhere => before
  }

  /** Every key let through since the last clear, never forgotten. */
  ghost function LetThrough(ops: seq<Op>): seq<string> {
    if ops == [] then []
    else
      var before, op := LetThrough(ops[..|ops| - 1]), ops[|ops| - 1];
      match op
      case Track(key) => if key in Last(before, MAX_TRACKED) then before else before + [key]
      case Clear => []
      case Elsewhere => before
  }

  ghost predicate Fresh(ops: seq<Op>, i: nat)
    requires i < |ops|
  {
    ops[i].Track? && ops[i].key !in Kept(ops[..i])
  }

  /** The bounded window is exactly the last 2048 entries of the full history, without repeats. */
  lemma {:induction false} WindowOfHistory(ops: seq<Op>)
    ensures Kept(ops) == Last(LetThrough(ops), 2048)
    ensures NoRepeats(Kept(ops)) && |Kept(ops)| <= 2048
  {
    if ops == [] {
    } else {
      var before, op := ops[..|ops| - 1], ops[|ops| - 1];
      WindowOfHistory(before);
      if op.Track? && op.key !in Kept(before) {
        LastOfLast(LetThrough(before), op.key, MAX_TRACKED);
      }
    }
  }

  lemma LastOfLast(s: seq<string>, k: string, n: nat)
    ensures Last(Last(s, n) + [k], n) == Last(s + [k], n)
  {
  }

  ghost function FreshBetween(ops: seq<Op>, i: nat, j: nat): nat
    requires i <= j <= |ops|
  {
    if i == j then 0 else FreshBetween(ops, i, j - 1) + if Fresh(ops, j - 1) then 1 else 0
  }

  /** With no clear in between, the history grows by exactly the fresh keys. */
  lemma {:induction false} HistoryGrows(ops: seq<Op>, i: nat, j: nat)
    requires i <= j <= |ops|
    requires forall k :: i <= k < j ==> !ops[k].Clear?
    ensures LetThrough(ops[..i]) <= LetThrough(ops[..j])
    ensures |LetThrough(ops[..j])| == |LetThrough(ops[..i])| + FreshBetween(ops, i, j)
  {
    if i == j {
    } else {
      HistoryGrows(ops, i, j - 1);
      assert ops[..j][..j - 1] == ops[..j - 1];
      WindowOfHistory(ops[..j - 1]);
      assert !ops[j - 1].Clear?;
    }
  }

  /** The same key is let through twice only after a clear or after 2048 other fresh keys. */
  lemma LetThroughTwice(ops: seq<Op>, i: nat, j: nat)
    requires i < j < |ops| && Fresh(ops, i) && Fresh(ops, j) && ops[i] == ops[j]
    ensures (exists k :: i < k < j && ops[k].Clear?) || FreshBetween(ops, i + 1, j) >= 2048
  {
    if forall k :: i < k < j ==> !ops[k].Clear? {
      HistoryGrows(ops, i + 1, j);
      WindowOfHistory(ops[..i]);
      WindowOfHistory(ops[..j]);
      assert ops[..i + 1][..i] == ops[..i];
      var first, all := LetThrough(ops[..i + 1]), LetThrough(ops[..j]);
      assert first[|first| - 1] == all[|first| - 1] == ops[i].key;
    }
  }

  /** The k-th event let the key through, no clear came since, and fewer than 2048 fresh keys. */
  ghost predicate Remembered(ops: seq<Op>, k: nat, key: string)
    requires k < |ops|
  {
    && Fresh(ops, k) && ops[k].key == key
    && (forall l :: k < l < |ops| ==> !ops[l].Clear?)
    && FreshBetween(ops, k + 1, |ops|) < 2048
  }

  /** The last event leaves the history as it was or adds its own key, unless it clears. */
  lemma LetThroughNext(ops: seq<Op>)
    requires ops != [] && LetThrough(ops) != []
    ensures var n := |ops| - 1; var before, after := LetThrough(ops[..n]), LetThrough(ops);
      && !ops[n].Clear?
      && (after == before || (Fresh(ops, n) && after == before + [ops[n].key]))
  {
    WindowOfHistory(ops[..|ops| - 1]);
  }

  /** The q-th key let through since the last clear entered at some event, with no clear after it. */
  lemma {:induction false} Entered(ops: seq<Op>, q: nat) returns (k: nat)
    requires q < |LetThrough(ops)|
    ensures k < |ops| && Fresh(ops, k) && ops[k].key == LetThrough(ops)[q]
    ensures |LetThrough(ops[..k + 1])| == q + 1 && forall l :: k < l < |ops| ==> !ops[l].Clear?
  {
    NothingThrough();
    LetThroughNext(ops);
    hide Kept, LetThrough;
    var n := |ops| - 1;
    var before := ops[..n];
    if q < |LetThrough(before)| {
      k := Entered(before, q);
      assert before[..k] == ops[..k] && before[..k + 1] == ops[..k + 1];
    } else {
      k := n;
      assert ops[..n + 1] == ops;
    }
  }

  lemma NothingThrough()
    ensures LetThrough([]) == []
  {
  }

  lemma LastHas(s: seq<string>, n: nat, key: string) returns (q: nat)
    requires key in Last(s, n)
    ensures |s| - n <= q < |s| && s[q] == key
  {
    var x :| 0 <= x < |Last(s, n)| && Last(s, n)[x] == key;
    q := x + |s| - |Last(s, n)|;
  }

  lemma InLast(s: seq<string>, n: nat, q: nat)
    requires |s| - n <= q < |s|
    ensures s[q] in Last(s, n)
  {
    assert s[q] == Last(s, n)[q - (|s| - |Last(s, n)|)];
  }

  lemma RecognisedEntered(ops: seq<Op>, key: string) returns (k: nat)
    requires key in Kept(ops)
    ensures k < |ops| && Remembered(ops, k, key)
  {
    WindowOfHistory(ops);
    hide Kept, LetThrough, FreshBetween, Last, Fresh;
    assert ops[..|ops|] == ops;
    var q := LastHas(LetThrough(ops), 2048, key);
    k := Entered(ops, q);
    HistoryGrows(ops, k + 1, |ops|);
  }

  lemma RememberedIsKept(ops: seq<Op>, k: nat, key: string)
    requires k < |ops| && Remembered(ops, k, key)
    ensures key in Kept(ops)
  {
    WindowOfHistory(ops);
    HistoryGrows(ops, k + 1, |ops|);
    LastEntered(ops, k);
    hide Kept, LetThrough, FreshBetween, Last, Fresh;
    assert ops[..|ops|] == ops;
    InLast(LetThrough(ops), 2048, |LetThrough(ops[..k + 1])| - 1);
  }

  /** A key is recognised exactly when it was let through, not cleared since, and followed by fewer than 2048 other
      fresh keys. */
  lemma KeptExactly(ops: seq<Op>, key: string)
    ensures key in Kept(ops) <==> exists k :: 0 <= k < |ops| && Remembered(ops, k, key)
  {
    hide Kept, Remembered;
    if key in Kept(ops) {
      var k := RecognisedEntered(ops, key);
    }
    if k :| 0 <= k < |ops| && Remembered(ops, k, key) {
      RememberedIsKept(ops, k, key);
    }
  }

  /** A fresh key is the last one let through. */
  lemma LastEntered(ops: seq<Op>, k: nat)
    requires k < |ops| && Fresh(ops, k)
    ensures var through := LetThrough(ops[..k + 1]); through != [] && through[|through| - 1] == ops[k].key
  {
    WindowOfHistory(ops[..k]);
    assert ops[..k + 1][..k] == ops[..k];
  }
}
