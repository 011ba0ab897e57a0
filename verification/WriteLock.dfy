/** Many goroutines writing to, and disconnecting, one client: the compare-and-swap write lock with its
    three attempts, and the once-only disconnect, in any interleaving of their atomic steps. */
module WriteLock {
  import opened Bytes
  import opened Wrappers
  import opened Frames

  const ATTEMPTS: nat := 3

  /** How a write call can end: nil, the client already disconnecting, three blocked attempts, no deadline
      set, or the socket failing. */
  datatype Result = Sent | Gone | Blocked | NoDeadline | Failed

  datatype Pc = Entering | Trying(blocked: nat) | Locked | Writing | Releasing(result: Result) | Done(result: Result)

  /** calls and succeeded count the socket writes issued and those that returned nil; sent is how much of the
      message the socket has taken. */
  datatype Writer = Writer(message: seq<byte>, pc: Pc, calls: nat, succeeded: nat, sent: nat)

  datatype Closer = Asked | Won | Closed | Over(first: bool)

  /** served lists the writers in the order in which they reached the socket. */
  datatype State = State(lock: bool, wire: seq<byte>, served: seq<nat>, writers: seq<Writer>,
                         disconnecting: bool, closes: nat, queued: nat, closers: seq<Closer>)

  const INITIAL := State(false, [], [], [], false, 0, 0, [])

  /** A write or a disconnect is called; or a goroutine takes its next step, with what the socket or the
      event queue answers. */
  datatype Event =
    | Call(message: seq<byte>)
    | Leave
    | Check(i: nat)
    | Cas(i: nat)
    | Deadline(i: nat, ok: bool)
    | Chunk(i: nat, n: nat)
    | EndWrite(i: nat, ok: bool)
    | Release(i: nat)
    | Win(i: nat)
    | Close(i: nat)
    | Queue(i: nat, room: bool)

  function With(s: State, i: nat, w: Writer): State
    requires i < |s.writers|
  {
    s.(writers := s.writers[i := w])
  }

  /** One step of writer i, when it is at that step. */
  function Move(s: State, e: Event): (t: State)
    requires e.Check? || e.Cas? || e.Deadline? || e.Chunk? || e.EndWrite? || e.Release?
    requires e.i < |s.writers|
    ensures |t.writers| == |s.writers|
  {
    var w := s.writers[e.i];
    match e
    case Check(i) =>
      if w.pc != Entering then s
      else With(s, i, w.(pc := if s.disconnecting then Done(Gone) else Trying(0)))
    case Cas(i) =>
      if !w.pc.Trying? then s
      else if !s.lock then With(s, i, w.(pc := Locked)).(lock := true)
      else With(s, i, w.(pc := if w.pc.blocked + 1 < ATTEMPTS then Trying(w.pc.blocked + 1) else Done(Blocked)))
    case Deadline(i, ok) =>
      if w.pc != Locked then s
      else if !ok then With(s, i, w.(pc := Releasing(NoDeadline)))
      else With(s, i, w.(pc := Writing, calls := w.calls + 1)).(served := s.served + [i])
    case Chunk(i, n) =>
      if w.pc != Writing || n == 0 || w.sent + n > |w.message| then s
      else With(s, i, w.(sent := w.sent + n)).(wire := s.wire + w.message[w.sent..w.sent + n])
    case EndWrite(i, ok) =>
      if w.pc != Writing || (ok && w.sent != |w.message|) then s
      else if ok then With(s, i, w.(pc := Releasing(Sent), succeeded := w.succeeded + 1))
      else With(s, i, w.(pc := Releasing(Failed))).(closers := s.closers + [Asked])
    case Release(i) =>
      if !w.pc.Releasing? then s
      else With(s, i, w.(pc := Done(w.pc.result))).(lock := false)
  }

  /** One step of disconnect i. */
  function Retire(s: State, e: Event): State
    requires e.Win? || e.Close? || e.Queue?
    requires e.i < |s.closers|
  {
    var c := s.closers[e.i];
    match e
    case Win(i) =>
      if c != Asked then s
      else if s.disconnecting then s.(closers := s.closers[i := Over(false)])
      else s.(closers := s.closers[i := Won], disconnecting := true)
    case Close(i) =>
      if c != Won then s else s.(closers := s.closers[i := Closed], closes := s.closes + 1)
    case Queue(i, room) =>
      if c != Closed then s
      else s.(closers := s.closers[i := Over(true)], queued := s.queued + if room then 1 else 0)
  }

  function Step(s: State, e: Event): (t: State)
    ensures |t.writers| >= |s.writers|
  {
    match e
    case Call(message) => s.(writers := s.writers + [Writer(message, Entering, 0, 0, 0)])
    case Leave => s.(closers := s.closers + [Asked])
    case Check(i) => if i < |s.writers| then Move(s, e) else s
    case Cas(i) => if i < |s.writers| then Move(s, e) else s
    case Deadline(i, _) => if i < |s.writers| then Move(s, e) else s
    case Chunk(i, _) => if i < |s.writers| then Move(s, e) else s
    case EndWrite(i, _) => if i < |s.writers| then Move(s, e) else s
    case Release(i) => if i < |s.writers| then Move(s, e) else s
    case Win(i) => if i < |s.closers| then Retire(s, e) else s
    case Close(i) => if i < |s.closers| then Retire(s, e) else s
    case Queue(i, _) => if i < |s.closers| then Retire(s, e) else s
  }

  ghost function Reach(events: seq<Event>): State {
    if events == [] then INITIAL else Step(Reach(events[..|events| - 1]), events[|events| - 1])
  }

  /** The same from any state on. */
  ghost function Play(s: State, script: seq<Event>): State
    decreases |script|
  {
    if script == [] then s else Play(Step(s, script[0]), script[1..])
  }

  lemma {:induction false} Appended(events: seq<Event>, script: seq<Event>)
    ensures Reach(events + script) == Play(Reach(events), script)
    decreases |script|
  {
    hide Step;
    if script == [] {
      assert events + script == events;
    } else {
      assert (events + [script[0]])[..|events|] == events;
      assert events + script == (events + [script[0]]) + script[1..];
      Appended(events + [script[0]], script[1..]);
    }
  }

  lemma {:induction false} PlayOn(s: State, a: seq<Event>, b: seq<Event>)
    ensures Play(s, a + b) == Play(Play(s, a), b)
    decreases |a|
  {
    hide Step;
    if a == [] {
      assert a + b == b;
    } else {
      assert (a + b)[1..] == a[1..] + b;
      PlayOn(Step(s, a[0]), a[1..], b);
    }
  }

  lemma PlayOne(s: State, e: Event)
    ensures Play(s, [e]) == Step(s, e)
  {
    hide Step;
    assert [e][1..] == [];
  }

  lemma PlayTwo(s: State, d: Event, e: Event)
    ensures Play(s, [d, e]) == Step(Step(s, d), e)
  {
    hide Step;
    assert [d, e][1..] == [e];
    PlayOne(Step(s, d), e);
  }

  // ---------------------------------------------------------------- the invariant

  predicate Holds(w: Writer) {
    w.pc.Locked? || w.pc.Writing? || w.pc.Releasing?
  }

  predicate Settled(w: Writer, r: Result) {
    match r
    case Sent => w.calls == 1 && w.succeeded == 1 && w.sent == |w.message|
    case Failed => w.calls == 1 && w.succeeded == 0 && w.sent <= |w.message|
    case _ => w.calls == 0 && w.succeeded == 0 && w.sent == 0
  }

  predicate Sound(w: Writer) {
    match w.pc
    case Writing => w.calls == 1 && w.succeeded == 0 && w.sent <= |w.message|
    case Releasing(r) => Settled(w, r)
    case Done(r) => Settled(w, r)
    case Trying(blocked) => blocked < ATTEMPTS && w.calls == 0 && w.succeeded == 0 && w.sent == 0
    case _ => w.calls == 0 && w.succeeded == 0 && w.sent == 0
  }

  ghost predicate AllSound(s: State) {
    forall i :: 0 <= i < |s.writers| ==> Sound(s.writers[i])
  }

  /** At most one writer is between winning and releasing the lock, and the lock is taken exactly then. */
  ghost predicate Exclusive(s: State) {
    && (forall i, j ::
          0 <= i < |s.writers| && 0 <= j < |s.writers| && Holds(s.writers[i]) && Holds(s.writers[j]) ==> i == j)
    && (s.lock <==> exists i :: 0 <= i < |s.writers| && Holds(s.writers[i]))
  }

  /** What the socket has taken, writer by writer. */
  ghost function Text(served: seq<nat>, ws: seq<Writer>): seq<byte>
    requires forall k :: 0 <= k < |served| ==> served[k] < |ws| && ws[served[k]].sent <= |ws[served[k]].message|
  {
    if served == [] then []
    else
      var w := ws[served[|served| - 1]];
      Text(served[..|served| - 1], ws) + w.message[..w.sent]
  }

  ghost predicate ServedSound(s: State) {
    && (forall k :: 0 <= k < |s.served| ==> s.served[k] < |s.writers|)
    && (forall j, k :: 0 <= j < k < |s.served| ==> s.served[j] != s.served[k])
    && (forall i :: 0 <= i < |s.writers| ==> (i in s.served <==> s.writers[i].calls == 1))
    && (forall i :: 0 <= i < |s.writers| && s.writers[i].pc == Writing ==>
          s.served != [] && s.served[|s.served| - 1] == i)
  }

  ghost predicate Bounded(s: State) {
    forall k :: 0 <= k < |s.served| ==>
      s.served[k] < |s.writers| && s.writers[s.served[k]].sent <= |s.writers[s.served[k]].message|
  }

  ghost predicate WireSound(s: State) {
    Bounded(s) && s.wire == Text(s.served, s.writers)
  }

  predicate First(c: Closer) {
    c == Won || c == Closed || c == Over(true)
  }

  ghost predicate Once(s: State) {
    && (forall i, j ::
          0 <= i < |s.closers| && 0 <= j < |s.closers| && First(s.closers[i]) && First(s.closers[j]) ==> i == j)
    && (forall i :: 0 <= i < |s.closers| && s.closers[i] == Over(false) ==> s.disconnecting)
    && (forall i :: 0 <= i < |s.closers| && First(s.closers[i]) ==>
          && s.disconnecting
          && s.closes == (if s.closers[i] == Won then 0 else 1)
          && s.queued <= (if s.closers[i] == Over(true) then 1 else 0))
    && (s.disconnecting <==> exists i :: 0 <= i < |s.closers| && First(s.closers[i]))
    && (!s.disconnecting ==> s.closes == 0 && s.queued == 0)
  }

  ghost predicate Inv(s: State) {
    AllSound(s) && Exclusive(s) && ServedSound(s) && WireSound(s) && Once(s)
  }

  // ---------------------------------------------------------------- every step keeps it

  lemma {:induction false} SameText(served: seq<nat>, ws: seq<Writer>, vs: seq<Writer>)
    requires forall k :: 0 <= k < |served| ==>
      && served[k] < |ws| && served[k] < |vs| && ws[served[k]].sent <= |ws[served[k]].message|
      && vs[served[k]].message == ws[served[k]].message && vs[served[k]].sent == ws[served[k]].sent
    ensures Text(served, vs) == Text(served, ws)
  {
    if served == [] {
    } else {
      SameText(served[..|served| - 1], ws, vs);
    }
  }

  /** A step that leaves every message and what was sent of it alone. */
  lemma QuietStep(s: State, t: State)
    requires WireSound(s) && t.served == s.served && t.wire == s.wire && |t.writers| >= |s.writers|
    requires forall i :: 0 <= i < |s.writers| ==>
      t.writers[i].message == s.writers[i].message && t.writers[i].sent == s.writers[i].sent
    ensures WireSound(t)
  {
    SameText(s.served, s.writers, t.writers);
  }

  lemma CallKeepsWriters(s: State, message: seq<byte>)
    requires AllSound(s) && Exclusive(s) && ServedSound(s)
    ensures var t := Step(s, Call(message)); AllSound(t) && Exclusive(t) && ServedSound(t)
  {
    var t := Step(s, Call(message));
    assert forall i :: 0 <= i < |s.writers| ==> t.writers[i] == s.writers[i];
    var i := |s.writers|;
    assert t.writers[i] == Writer(message, Entering, 0, 0, 0) && !Holds(t.writers[i]);
  }

  lemma SameWriters(s: State, t: State)
    requires AllSound(s) && Exclusive(s) && ServedSound(s) && WireSound(s)
    requires t.writers == s.writers && t.lock == s.lock && t.served == s.served && t.wire == s.wire
    ensures AllSound(t) && Exclusive(t) && ServedSound(t) && WireSound(t)
  {
    hide Sound, Holds, Text;
  }

  lemma SameClosers(s: State, t: State)
    requires Once(s) && t.closers == s.closers
    requires t.disconnecting == s.disconnecting && t.closes == s.closes && t.queued == s.queued
    ensures Once(t)
  {
  }

  lemma CallKeeps(s: State, message: seq<byte>)
    requires Inv(s)
    ensures Inv(Step(s, Call(message)))
  {
    hide AllSound, Exclusive, ServedSound, WireSound, Once;
    CallKeepsWriters(s, message);
    SameClosers(s, Step(s, Call(message)));
    QuietStep(s, Step(s, Call(message)));
  }

  lemma SoundMove(s: State, e: Event)
    requires AllSound(s) && (e.Check? || e.Cas? || e.Deadline? || e.Chunk? || e.EndWrite? || e.Release?)
    requires e.i < |s.writers|
    ensures AllSound(Move(s, e))
  {
  }

  lemma OneHolder(s: State, i: nat)
    requires Exclusive(s) && i < |s.writers| && Holds(s.writers[i])
    ensures s.lock && forall j :: 0 <= j < |s.writers| && j != i ==> !Holds(s.writers[j])
  {
  }

  /** Only writer i changes: it keeps its hold and the lock is left alone, it takes a free lock, or it lets go. */
  lemma ExclusiveChange(s: State, t: State, i: nat)
    requires Exclusive(s) && i < |s.writers| == |t.writers|
    requires forall j :: 0 <= j < |s.writers| && j != i ==> t.writers[j] == s.writers[j]
    requires || (t.lock == s.lock && Holds(t.writers[i]) == Holds(s.writers[i]))
             || (!s.lock && t.lock && Holds(t.writers[i]))
             || (!t.lock && Holds(s.writers[i]) && !Holds(t.writers[i]))
    ensures Exclusive(t)
  {
    hide Holds;
    if t.lock && !Holds(t.writers[i]) {
      var j :| 0 <= j < |s.writers| && Holds(s.writers[j]);
      assert Holds(t.writers[j]);
    }
  }

  lemma ExclusiveMove(s: State, e: Event)
    requires Exclusive(s) && (e.Check? || e.Cas? || e.Deadline? || e.Chunk? || e.EndWrite? || e.Release?)
    requires e.i < |s.writers|
    ensures Exclusive(Move(s, e))
  {
    if Holds(s.writers[e.i]) {
      OneHolder(s, e.i);
    }
    hide Exclusive;
    ExclusiveChange(s, Move(s, e), e.i);
  }

  lemma ServedStart(s: State, i: nat)
    requires AllSound(s) && Exclusive(s) && ServedSound(s) && i < |s.writers| && s.writers[i].pc == Locked
    ensures ServedSound(Move(s, Deadline(i, true)))
  {
    var t := Move(s, Deadline(i, true));
    OneHolder(s, i);
    assert i !in s.served by { assert Sound(s.writers[i]); }
    hide AllSound, Sound, Exclusive, Move;
    assert t.served == s.served + [i];
    assert forall j :: 0 <= j < |s.writers| && j != i ==> t.writers[j] == s.writers[j];
    assert forall j :: j in t.served <==> j in s.served || j == i;
  }

  lemma ServedSame(s: State, t: State)
    requires ServedSound(s) && t.served == s.served && |t.writers| == |s.writers|
    requires forall j :: 0 <= j < |s.writers| ==> t.writers[j].calls == s.writers[j].calls
    requires forall j :: 0 <= j < |s.writers| && t.writers[j].pc == Writing ==> s.writers[j].pc == Writing
    ensures ServedSound(t)
  {
  }

  lemma ServedMove(s: State, e: Event)
    requires AllSound(s) && Exclusive(s) && ServedSound(s)
    requires e.Check? || e.Cas? || e.Deadline? || e.Chunk? || e.EndWrite? || e.Release?
    requires e.i < |s.writers|
    ensures ServedSound(Move(s, e))
  {
    if e.Deadline? && e.ok && s.writers[e.i].pc == Locked {
      ServedStart(s, e.i);
    } else {
      hide ServedSound, AllSound, Exclusive;
      ServedSame(s, Move(s, e));
    }
  }

  lemma WireStart(s: State, i: nat)
    requires AllSound(s) && WireSound(s) && i < |s.writers| && s.writers[i].pc == Locked
    ensures WireSound(Move(s, Deadline(i, true)))
  {
    var t := Move(s, Deadline(i, true));
    var w := s.writers[i];
    assert w.sent == 0 by { assert Sound(w); }
    hide AllSound, Sound, Move;
    assert t.served == s.served + [i] && t.served[..|s.served|] == s.served;
    SameText(s.served, s.writers, t.writers);
    assert w.message[..0] == [];
  }

  lemma TextLast(served: seq<nat>, ws: seq<Writer>)
    requires served != []
    requires forall k :: 0 <= k < |served| ==> served[k] < |ws| && ws[served[k]].sent <= |ws[served[k]].message|
    ensures var w := ws[served[|served| - 1]];
      Text(served, ws) == Text(served[..|served| - 1], ws) + w.message[..w.sent]
  {
  }

  lemma NoText(ws: seq<Writer>)
    ensures Text([], ws) == []
  {
  }

  lemma TextGrows(served: seq<nat>, ws: seq<Writer>, vs: seq<Writer>, i: nat, n: nat)
    requires served != [] && served[|served| - 1] == i < |ws| == |vs|
    requires forall k :: 0 <= k < |served| ==> served[k] < |ws| && ws[served[k]].sent <= |ws[served[k]].message|
    requires forall k :: 0 <= k < |served| - 1 ==> served[k] != i
    requires forall j :: 0 <= j < |ws| && j != i ==> vs[j] == ws[j]
    requires ws[i].sent + n <= |ws[i].message| && vs[i] == ws[i].(sent := ws[i].sent + n)
    ensures Text(served, vs) == Text(served, ws) + ws[i].message[ws[i].sent..ws[i].sent + n]
  {
    hide Text;
    var before := served[..|served| - 1];
    TextLast(served, ws);
    TextLast(served, vs);
    SameText(before, ws, vs);
    Joined(Text(before, ws), ws[i].message, ws[i].sent, n);
  }

  lemma Joined(head: seq<byte>, message: seq<byte>, m: nat, n: nat)
    requires m + n <= |message|
    ensures head + message[..m + n] == (head + message[..m]) + message[m..m + n]
  {
    assert message[..m] + message[m..m + n] == message[..m + n];
  }

  lemma WireGrows(s: State, i: nat, n: nat)
    requires ServedSound(s) && WireSound(s) && i < |s.writers|
    requires s.writers[i].pc == Writing && 0 < n && s.writers[i].sent + n <= |s.writers[i].message|
    ensures WireSound(Move(s, Chunk(i, n)))
  {
    assert forall k :: 0 <= k < |s.served| - 1 ==> s.served[k] != i;
    assert s.served != [] && s.served[|s.served| - 1] == i;
    hide ServedSound, Text;
    TextGrows(s.served, s.writers, Move(s, Chunk(i, n)).writers, i, n);
  }

  lemma WireMove(s: State, e: Event)
    requires AllSound(s) && ServedSound(s) && WireSound(s)
    requires e.Check? || e.Cas? || e.Deadline? || e.Chunk? || e.EndWrite? || e.Release?
    requires e.i < |s.writers|
    ensures WireSound(Move(s, e))
  {
    hide ServedSound, AllSound, WireSound, Text;
    if e.Deadline? && e.ok && s.writers[e.i].pc == Locked {
      WireStart(s, e.i);
    } else if e.Chunk? && Move(s, e) != s {
      WireGrows(s, e.i, e.n);
    } else {
      QuietStep(s, Move(s, e));
    }
  }

  lemma OnceMore(s: State, t: State)
    requires Once(s) && t.closers == s.closers + [Asked]
    requires t.disconnecting == s.disconnecting && t.closes == s.closes && t.queued == s.queued
    ensures Once(t)
  {
    assert forall i :: 0 <= i < |s.closers| ==> t.closers[i] == s.closers[i];
    if s.disconnecting {
      var i :| 0 <= i < |s.closers| && First(s.closers[i]);
      assert First(t.closers[i]);
    }
  }

  lemma OnceRetire(s: State, e: Event)
    requires Once(s) && (e.Win? || e.Close? || e.Queue?) && e.i < |s.closers|
    ensures Once(Retire(s, e))
  {
    var t := Retire(s, e);
    var i := e.i;
    assert forall j :: 0 <= j < |s.closers| && j != i ==> t.closers[j] == s.closers[j];
    if First(s.closers[i]) {
      assert First(t.closers[i]);
    } else if s.disconnecting {
      var j :| 0 <= j < |s.closers| && First(s.closers[j]);
      assert First(t.closers[j]) && !First(t.closers[i]);
    } else if t != s {
      assert t.closers[i] == Won;
    }
  }

  lemma StepKeepsInv(s: State, e: Event)
    requires Inv(s)
    ensures Inv(Step(s, e))
  {
    hide Sound, Settled, AllSound, Exclusive, ServedSound, WireSound, Once, Text, Bounded;
    match e {
      case Call(message) => CallKeeps(s, message);
      case Leave =>
        LeaveKeeps(s);
      case Win(i) => if i < |s.closers| { RetireKeeps(s, e); }
      case Close(i) => if i < |s.closers| { RetireKeeps(s, e); }
      case Queue(i, _) => if i < |s.closers| { RetireKeeps(s, e); }
      case _ => if e.i < |s.writers| { MoveKeeps(s, e); }
    }
  }

  lemma LeaveKeeps(s: State)
    requires Inv(s)
    ensures Inv(Step(s, Leave))
  {
    hide AllSound, Exclusive, ServedSound, WireSound, Once;
    OnceMore(s, Step(s, Leave));
    SameWriters(s, Step(s, Leave));
  }

  lemma RetireKeeps(s: State, e: Event)
    requires Inv(s) && (e.Win? || e.Close? || e.Queue?) && e.i < |s.closers|
    ensures Inv(Retire(s, e))
  {
    hide AllSound, Exclusive, ServedSound, WireSound, Once;
    OnceRetire(s, e);
    SameWriters(s, Retire(s, e));
  }

  lemma MoveKeeps(s: State, e: Event)
    requires Inv(s) && (e.Check? || e.Cas? || e.Deadline? || e.Chunk? || e.EndWrite? || e.Release?)
    requires e.i < |s.writers|
    ensures Inv(Move(s, e))
  {
    hide Sound, Settled, AllSound, Exclusive, ServedSound, WireSound, Text, Bounded;
    SoundMove(s, e);
    ExclusiveMove(s, e);
    ServedMove(s, e);
    WireMove(s, e);
    OnceMove(s, e);
  }

  lemma OnceMove(s: State, e: Event)
    requires Once(s) && (e.Check? || e.Cas? || e.Deadline? || e.Chunk? || e.EndWrite? || e.Release?)
    requires e.i < |s.writers|
    ensures Once(Move(s, e))
  {
    var t := Move(s, e);
    hide Once;
    if t.closers == s.closers {
      SameClosers(s, t);
    } else {
      OnceMore(s, t);
    }
  }

  ghost predicate Untouched(s: State) {
    && s.writers == [] && s.closers == [] && s.served == [] && s.wire == []
    && !s.lock && !s.disconnecting && s.closes == 0 && s.queued == 0
  }

  lemma UntouchedWriters(s: State)
    requires Untouched(s)
    ensures AllSound(s) && Exclusive(s) && ServedSound(s)
  {
  }

  lemma UntouchedWire(s: State)
    requires Untouched(s)
    ensures WireSound(s)
  {
    hide Text;
    NoText(s.writers);
  }

  lemma UntouchedClosers(s: State)
    requires Untouched(s)
    ensures Once(s)
  {
  }

  lemma UntouchedInv(s: State)
    requires Untouched(s)
    ensures Inv(s)
  {
    hide AllSound, Exclusive, ServedSound, WireSound, Once;
    UntouchedWriters(s);
    UntouchedWire(s);
    UntouchedClosers(s);
  }

  lemma {:induction false} AlwaysInv(events: seq<Event>)
    ensures Inv(Reach(events))
  {
    hide Inv, Step;
    if events == [] {
      UntouchedInv(INITIAL);
    } else {
      AlwaysInv(events[..|events| - 1]);
      StepKeepsInv(Reach(events[..|events| - 1]), events[|events| - 1]);
    }
  }

  // ---------------------------------------------------------------- what it means

  /** Never two writers hold the lock at once; while one does, the lock is taken, and once none does it
      is free again. */
  lemma MutualExclusion(events: seq<Event>, i: nat, j: nat)
    requires i < |Reach(events).writers| && j < |Reach(events).writers|
    ensures var s := Reach(events);
      && (Holds(s.writers[i]) && Holds(s.writers[j]) ==> i == j)
      && (Holds(s.writers[i]) ==> s.lock)
      && ((forall k :: 0 <= k < |s.writers| ==> !Holds(s.writers[k])) ==> !s.lock)
  {
    AlwaysInv(events);
  }

  /** A write call issues at most one socket write; it returns nil exactly when that write succeeded, and
      then the socket took the whole message. */
  lemma AtMostOneWrite(events: seq<Event>, i: nat)
    requires i < |Reach(events).writers|
    ensures var w := Reach(events).writers[i];
      && w.calls <= 1 && w.succeeded <= w.calls
      && (w.pc.Done? ==> (w.pc.result == Sent <==> w.succeeded == 1))
      && (w.pc == Done(Sent) ==> w.sent == |w.message|)
      && (w.pc == Done(Blocked) ==> w.calls == 0)
  {
    AlwaysInv(events);
    assert Sound(Reach(events).writers[i]);
  }

  /** What is on the wire: one stretch per writer that reached the socket, in that order, each a prefix of
      its message, and the whole message where the write succeeded. */
  lemma WireIsMessages(events: seq<Event>)
    ensures var s := Reach(events);
      && Bounded(s) && s.wire == Text(s.served, s.writers)
      && (forall j, k :: 0 <= j < k < |s.served| ==> s.served[j] != s.served[k])
      && (forall i :: 0 <= i < |s.writers| ==> (i in s.served <==> s.writers[i].calls == 1))
      && (forall i :: 0 <= i < |s.writers| && s.writers[i].succeeded == 1 ==>
            s.writers[i].sent == |s.writers[i].message|)
  {
    AlwaysInv(events);
    hide Text;
    var s := Reach(events);
    forall i | 0 <= i < |s.writers| && s.writers[i].succeeded == 1
      ensures s.writers[i].sent == |s.writers[i].message|
    {
      assert Sound(s.writers[i]);
    }
  }

  /** However many disconnects are called, the connection is closed at most once and at most one event is
      queued, after the close. */
  lemma DisconnectedOnce(events: seq<Event>)
    ensures var s := Reach(events);
      && s.queued <= s.closes <= 1
      && (s.closes == 1 ==> s.disconnecting)
  {
    AlwaysInv(events);
    var s := Reach(events);
    if s.disconnecting {
      var i :| 0 <= i < |s.closers| && First(s.closers[i]);
      assert s.closes <= 1;
    }
  }

  /** Once every disconnect that was called is over, the connection has been closed exactly once if there
      was any, and not at all if there was none. */
  lemma DisconnectsClose(events: seq<Event>)
    requires forall i :: 0 <= i < |Reach(events).closers| ==> Reach(events).closers[i].Over?
    ensures var s := Reach(events);
      && s.closes == (if s.closers == [] then 0 else 1)
      && (s.disconnecting <==> s.closers != [])
  {
    AlwaysInv(events);
    var s := Reach(events);
    if s.closers != [] {
      assert s.closers[0].Over?;
      assert s.closers[0] == Over(false) || First(s.closers[0]);
      var i :| 0 <= i < |s.closers| && First(s.closers[i]);
      assert s.closers[i].Over?;
    }
  }

  function Rank(w: Writer): int {
    match w.pc
    case Entering => |w.message| + 9
    case Trying(blocked) => |w.message| + 8 - blocked
    case Locked => |w.message| + 4
    case Writing => |w.message| - w.sent + 3
    case Releasing(_) => 2
    case Done(_) => 1
  }

  /** Whatever changes a writer brings it nearer its end. */
  lemma WritersFinish(s: State, e: Event, i: nat)
    requires i < |s.writers| && Sound(s.writers[i])
    ensures Rank(s.writers[i]) >= 1
    ensures Step(s, e).writers[i] != s.writers[i] ==> Rank(Step(s, e).writers[i]) < Rank(s.writers[i])
  {
    if (e.Check? || e.Cas? || e.Deadline? || e.Chunk? || e.EndWrite? || e.Release?) && e.i == i {
      MoveFalls(s, e);
    }
  }

  lemma MoveFalls(s: State, e: Event)
    requires e.Check? || e.Cas? || e.Deadline? || e.Chunk? || e.EndWrite? || e.Release?
    requires e.i < |s.writers| && Sound(s.writers[e.i])
    ensures var w, v := s.writers[e.i], Move(s, e).writers[e.i]; v == w || Rank(v) < Rank(w)
  {
  }

  /** An unfinished writer always has a step of its own. */
  function OwnStep(w: Writer, i: nat): Event {
    match w.pc
    case Entering => Check(i)
    case Trying(_) => Cas(i)
    case Locked => Deadline(i, true)
    case Writing => EndWrite(i, false)
    case _ => Release(i)
  }

  lemma OwnStepMoves(s: State, i: nat)
    requires i < |s.writers| && Sound(s.writers[i]) && !s.writers[i].pc.Done?
    ensures Step(s, OwnStep(s.writers[i], i)).writers[i] != s.writers[i]
  {
  }

  lemma ReachedSound(events: seq<Event>, i: nat)
    requires i < |Reach(events).writers|
    ensures Sound(Reach(events).writers[i])
  {
    AlwaysInv(events);
  }

  /** Left alone, a writer ends within as many steps as its rank, wherever the others stand. */
  lemma {:induction false} WriterEndsAlone(events: seq<Event>, i: nat) returns (longer: seq<Event>)
    requires i < |Reach(events).writers|
    ensures i < |Reach(longer).writers| && Reach(longer).writers[i].pc.Done?
    ensures events <= longer && |longer| <= |events| + Rank(Reach(events).writers[i])
    decreases Rank(Reach(events).writers[i])
  {
    hide Reach, Step, Sound, Rank, OwnStep;
    var w := Reach(events).writers[i];
    ReachedSound(events, i);
    longer := events;
    WritersFinish(Reach(events), Leave, i);
    if !w.pc.Done? {
      var e := OwnStep(w, i);
      OwnStepMoves(Reach(events), i);
      WritersFinish(Reach(events), e, i);
      Appended(events, [e]);
      PlayOne(Reach(events), e);
      longer := WriterEndsAlone(events + [e], i);
    }
  }

  // ---------------------------------------------------------------- whole messages

  ghost predicate AllBounded(served: seq<nat>, ws: seq<Writer>) {
    forall k :: 0 <= k < |served| ==> served[k] < |ws| && ws[served[k]].sent <= |ws[served[k]].message|
  }

  /** A message of which some bytes are on the wire and some are not. */
  predicate Torn(w: Writer) {
    0 < w.sent < |w.message|
  }

  /** The messages the socket took whole, in order. */
  ghost function WholeText(served: seq<nat>, ws: seq<Writer>): seq<byte>
    requires AllBounded(served, ws)
  {
    if served == [] then []
    else
      var w := ws[served[|served| - 1]];
      WholeText(served[..|served| - 1], ws) + if w.sent == |w.message| then w.message else []
  }

  /** Whole messages and at most one cut one, which is the last thing on the wire. */
  ghost function WholeThenCut(served: seq<nat>, ws: seq<Writer>): seq<byte>
    requires AllBounded(served, ws)
  {
    if served == [] then []
    else
      var w, before := ws[served[|served| - 1]], served[..|served| - 1];
      if w.sent == 0 then WholeThenCut(before, ws) else WholeText(before, ws) + w.message[..w.sent]
  }

  ghost predicate NoneTorn(served: seq<nat>, ws: seq<Writer>)
    requires AllBounded(served, ws)
  {
    forall j :: 0 <= j < |served| ==> !Torn(ws[served[j]])
  }

  /** No message is torn that the socket has taken anything after. */
  ghost predicate TornLast(served: seq<nat>, ws: seq<Writer>)
    requires AllBounded(served, ws)
  {
    forall j, k :: 0 <= j < k < |served| && ws[served[k]].sent > 0 ==> !Torn(ws[served[j]])
  }

  lemma {:induction false} TextWhole(served: seq<nat>, ws: seq<Writer>)
    requires AllBounded(served, ws)
    ensures |WholeText(served, ws)| <= |Text(served, ws)|
    ensures |WholeText(served, ws)| == |Text(served, ws)| <==> NoneTorn(served, ws)
    ensures NoneTorn(served, ws) ==> WholeText(served, ws) == Text(served, ws)
  {
    if served == [] {
    } else {
      var n := |served| - 1;
      TextWhole(served[..n], ws);
      NoneTornLast(served, ws);
      var w := ws[served[n]];
      if w.sent == |w.message| {
        assert w.message[..w.sent] == w.message;
      }
    }
  }

  lemma NoneTornLast(served: seq<nat>, ws: seq<Writer>)
    requires served != [] && AllBounded(served, ws)
    ensures var n := |served| - 1;
      AllBounded(served[..n], ws) && (NoneTorn(served, ws) <==> NoneTorn(served[..n], ws) && !Torn(ws[served[n]]))
  {
    var before := served[..|served| - 1];
    assert forall j :: 0 <= j < |before| ==> before[j] == served[j];
  }

  lemma TornLastLast(served: seq<nat>, ws: seq<Writer>)
    requires served != [] && AllBounded(served, ws)
    ensures var n := |served| - 1;
      && AllBounded(served[..n], ws)
      && (TornLast(served, ws) <==>
            if ws[served[n]].sent == 0 then TornLast(served[..n], ws) else NoneTorn(served[..n], ws))
  {
    hide Torn;
    var n := |served| - 1;
    var before := served[..n];
    assert forall j :: 0 <= j < |before| ==> before[j] == served[j];
    if ws[served[n]].sent > 0 && TornLast(served, ws) {
      forall j | 0 <= j < |before| ensures !Torn(ws[before[j]]) {
        assert served[j] == before[j];
      }
    }
  }

  /** Exactly then the wire holds whole messages and at most a cut last one. */
  lemma {:induction false} TextIntact(served: seq<nat>, ws: seq<Writer>)
    requires AllBounded(served, ws)
    ensures Text(served, ws) == WholeThenCut(served, ws) <==> TornLast(served, ws)
  {
    if served == [] {
    } else {
      var n := |served| - 1;
      var before, w := served[..n], ws[served[n]];
      TornLastLast(served, ws);
      TextLast(served, ws);
      hide TornLast, NoneTorn, Text;
      if w.sent == 0 {
        TextIntact(before, ws);
        assert w.message[..0] == [];
        assert Text(before, ws) + [] == Text(before, ws);
      } else {
        TextWhole(before, ws);
        if Text(served, ws) == WholeThenCut(served, ws) {
          assert |Text(before, ws)| == |WholeText(before, ws)|;
        }
      }
    }
  }

  /** In every interleaving: the wire holds whole messages and at most a cut last one if and only if no message
      was torn that the socket took anything after. */
  lemma WireIntact(events: seq<Event>)
    ensures var s := Reach(events);
      && AllBounded(s.served, s.writers)
      && (s.wire == WholeThenCut(s.served, s.writers) <==> TornLast(s.served, s.writers))
  {
    AlwaysInv(events);
    hide Text, TornLast, WholeThenCut;
    TextIntact(Reach(events).served, Reach(events).writers);
  }

  // ---------------------------------------------------------------- what the miner decodes

  /** The frames of the messages the socket took whole, in order. */
  ghost function WholeFrames(served: seq<nat>, ws: seq<Writer>, frames: seq<Frame>): seq<Frame>
    requires AllBounded(served, ws) && |frames| == |ws|
  {
    if served == [] then []
    else
      var i := served[|served| - 1];
      WholeFrames(served[..|served| - 1], ws, frames) + if ws[i].sent == |ws[i].message| then [frames[i]] else []
  }

  ghost predicate Encoded(ws: seq<Writer>, frames: seq<Frame>) {
    && |frames| == |ws| && Readable(frames)
    && forall i :: 0 <= i < |ws| ==> ws[i].message == Encode(frames[i]).value
  }

  lemma {:induction false} WholeDecodes(served: seq<nat>, ws: seq<Writer>, frames: seq<Frame>, tail: seq<byte>)
    requires AllBounded(served, ws) && Encoded(ws, frames)
    ensures DecodeAll(WholeText(served, ws) + tail) ==
            (WholeFrames(served, ws, frames) + DecodeAll(tail).0, DecodeAll(tail).1)
  {
    hide DecodeAll, Encode;
    if served == [] {
      assert [] + tail == tail;
      assert [] + DecodeAll(tail).0 == DecodeAll(tail).0;
    } else {
      var n := |served| - 1;
      var before, i := served[..n], served[n];
      var whole := if ws[i].sent == |ws[i].message| then ws[i].message else [];
      var frame := if ws[i].sent == |ws[i].message| then [frames[i]] else [];
      Regroup(WholeText(before, ws), whole, tail);
      Regroup(WholeFrames(before, ws, frames), frame, DecodeAll(tail).0);
      WholeDecodes(before, ws, frames, whole + tail);
      if whole == [] {
        assert [] + tail == tail;
        assert [] + DecodeAll(tail).0 == DecodeAll(tail).0;
        EncodeFits(frames[i]);
      } else {
        DecodeFirst(frames[i], tail);
      }
    }
  }

  lemma {:induction false} CutDecodes(served: seq<nat>, ws: seq<Writer>, frames: seq<Frame>)
    requires AllBounded(served, ws) && Encoded(ws, frames)
    ensures DecodeAll(WholeThenCut(served, ws)) == (WholeFrames(served, ws, frames), false)
  {
    NothingLeft();
    hide DecodeAll, Encode;
    if served == [] {
    } else {
      var n := |served| - 1;
      var before, i := served[..n], served[n];
      var w := ws[i];
      EncodeFits(frames[i]);
      if w.sent == 0 {
        CutDecodes(before, ws, frames);
        assert WholeFrames(before, ws, frames) + [] == WholeFrames(before, ws, frames);
      } else {
        WholeDecodes(before, ws, frames, w.message[..w.sent]);
        if w.sent < |w.message| {
          CutFirst(frames[i], w.sent);
        } else {
          assert w.message[..w.sent] == w.message + [];
          DecodeFirst(frames[i], []);
          assert [frames[i]] + [] == [frames[i]];
        }
      }
    }
  }

  /** Goroutines that write SV2 frames concurrently: as long as no torn message is followed, the miner decodes
      exactly the frames the socket took whole, in the order the lock was won, whatever is still under way or has
      failed; every write that succeeded is among them. */
  lemma FramesArriveWhole(events: seq<Event>, frames: seq<Frame>)
    requires Encoded(Reach(events).writers, frames)
    requires var s := Reach(events); AllBounded(s.served, s.writers) && TornLast(s.served, s.writers)
    ensures var s := Reach(events);
      && DecodeAll(s.wire) == (WholeFrames(s.served, s.writers, frames), false)
      && (forall i :: 0 <= i < |s.writers| && s.writers[i].succeeded == 1 ==>
            i in s.served && s.writers[i].sent == |s.writers[i].message|)
  {
    var s := Reach(events);
    WireIsMessages(events);
    forall i | 0 <= i < |s.writers| && s.writers[i].succeeded == 1
      ensures i in s.served
    {
      AtMostOneWrite(events, i);
    }
    WireIntact(events);
    hide Text, WholeThenCut, WholeFrames, DecodeAll, TornLast, Encoded, Reach;
    CutDecodes(s.served, s.writers, frames);
  }

  lemma NothingLeft()
    ensures DecodeAll([]) == ([], false)
  {
  }

  lemma EnterAlone(s: State, message: seq<byte>)
    requires !s.lock && !s.disconnecting
    ensures var i := |s.writers|;
      Step(Step(Step(s, Call(message)), Check(i)), Cas(i)) ==
      s.(lock := true, writers := s.writers + [Writer(message, Locked, 0, 0, 0)])
  {
    var i := |s.writers|;
    assert Step(s, Call(message)).writers[i := Writer(message, Trying(0), 0, 0, 0)] ==
           s.writers + [Writer(message, Trying(0), 0, 0, 0)];
    assert (s.writers + [Writer(message, Trying(0), 0, 0, 0)])[i := Writer(message, Locked, 0, 0, 0)] ==
           s.writers + [Writer(message, Locked, 0, 0, 0)];
  }

  lemma WriteAlone(s: State, message: seq<byte>, n: nat)
    requires 0 < n <= |message|
    ensures var i := |s.writers|;
      var t := s.(writers := s.writers + [Writer(message, Locked, 0, 0, 0)]);
      Step(Step(t, Deadline(i, true)), Chunk(i, n)) ==
      s.(served := s.served + [i], wire := s.wire + message[..n],
         writers := s.writers + [Writer(message, Writing, 1, 0, n)])
  {
    var i := |s.writers|;
    var t := s.(writers := s.writers + [Writer(message, Locked, 0, 0, 0)]);
    var w := Writer(message, Writing, 1, 0, 0);
    assert t.writers[i := w] == s.writers + [w];
    assert Step(t, Deadline(i, true)) == s.(served := s.served + [i], writers := s.writers + [w]);
    assert (s.writers + [w])[i := w.(sent := n)] == s.writers + [w.(sent := n)];
  }

  lemma LeaveAlone(s: State, w: Writer, ok: bool)
    requires w.pc == Writing && (ok ==> w.sent == |w.message|)
    ensures var i := |s.writers|;
      var t := s.(writers := s.writers + [w]);
      var v := if ok then w.(pc := Done(Sent), succeeded := w.succeeded + 1) else w.(pc := Done(Failed));
      Step(Step(t, EndWrite(i, ok)), Release(i)) ==
      s.(lock := false, writers := s.writers + [v], closers := if ok then s.closers else s.closers + [Asked])
  {
    var i := |s.writers|;
    var t := s.(writers := s.writers + [w]);
    var u := if ok then w.(pc := Releasing(Sent), succeeded := w.succeeded + 1) else w.(pc := Releasing(Failed));
    assert t.writers[i := u] == s.writers + [u];
    assert (s.writers + [u])[i := u.(pc := Done(u.pc.result))] == s.writers + [u.(pc := Done(u.pc.result))];
  }

  /** A write that nothing interferes with: the socket takes n bytes of its message and then answers. */
  lemma Undisturbed(events: seq<Event>, message: seq<byte>, n: nat, ok: bool) returns (longer: seq<Event>)
    requires var s := Reach(events); !s.lock && !s.disconnecting
    requires 0 < n <= |message| && (ok ==> n == |message|)
    ensures var s := Reach(events);
      Reach(longer) ==
      s.(served := s.served + [|s.writers|], wire := s.wire + message[..n],
         writers := s.writers + [Writer(message, Done(if ok then Sent else Failed), 1, if ok then 1 else 0, n)],
         closers := if ok then s.closers else s.closers + [Asked])
  {
    hide Step, Reach, Play;
    var s := Reach(events);
    var i := |s.writers|;
    var enter, write, leave := [Call(message), Check(i)] + [Cas(i)], [Deadline(i, true), Chunk(i, n)],
                               [EndWrite(i, ok), Release(i)];
    longer := events + (enter + (write + leave));
    Appended(events, enter + (write + leave));
    PlayOn(s, enter, write + leave);
    PlayOn(Play(s, enter), write, leave);
    PlayOn(s, [Call(message), Check(i)], [Cas(i)]);
    PlayTwo(s, Call(message), Check(i));
    PlayOne(Step(Step(s, Call(message)), Check(i)), Cas(i));
    PlayTwo(Play(s, enter), Deadline(i, true), Chunk(i, n));
    PlayTwo(Play(Play(s, enter), write), EndWrite(i, ok), Release(i));
    EnterAlone(s, message);
    WriteAlone(s.(lock := true), message, n);
    LeaveAlone(s.(lock := true, served := s.served + [i], wire := s.wire + message[..n]),
               Writer(message, Writing, 1, 0, n), ok);
  }

  /** The condition can fail: a socket write that fails half way lets go of the lock before
      the disconnect it asks for has run, so a later message follows a torn one. */
  lemma TornMessageIsFollowed(torn: seq<byte>, n: nat, whole: seq<byte>) returns (events: seq<Event>)
    requires 0 < n < |torn| && whole != []
    ensures var s := Reach(events);
      && s.wire == torn[..n] + whole
      && s.writers == [Writer(torn, Done(Failed), 1, 0, n), Writer(whole, Done(Sent), 1, 1, |whole|)]
  {
    events := Undisturbed([], torn, n, false);
    events := Undisturbed(events, whole, |whole|, true);
    assert whole[..|whole|] == whole;
  }
}
