/** How write calls and disconnects end, in any interleaving: when a call gives up, when it is turned away, and what
    a failed write brings about. */
module WriteEnds {
  import opened WriteLock

  // ---------------------------------------------------------------- attempts

  /** The event is an attempt of writer i that finds the lock taken. */
  predicate FindsTaken(s: State, e: Event, i: nat) {
    e == Cas(i) && i < |s.writers| && s.writers[i].pc.Trying? && s.lock
  }

  ghost function Refusals(events: seq<Event>, i: nat): nat {
    if events == [] then 0
    else
      var before, e := events[..|events| - 1], events[|events| - 1];
      Refusals(before, i) + if FindsTaken(Reach(before), e, i) then 1 else 0
  }

  /** Attempts refused so far, by where the call stands. */
  ghost predicate Spent(pc: Pc, refusals: nat) {
    match pc
    case Entering => refusals == 0
    case Trying(blocked) => refusals == blocked < 3
    case Done(Blocked) => refusals == 3
    case Done(Gone) => refusals == 0
    case _ => refusals <= 2
  }

  ghost predicate SpentIn(s: State, i: nat, refusals: nat) {
    if i < |s.writers| then Spent(s.writers[i].pc, refusals) else refusals == 0
  }

  /** The event is a step of writer i. */
  predicate StepOf(e: Event, i: nat) {
    (e.Check? || e.Cas? || e.Deadline? || e.Chunk? || e.EndWrite? || e.Release?) && e.i == i
  }

  lemma OthersStay(s: State, e: Event, i: nat)
    requires !StepOf(e, i)
    ensures i < |s.writers| ==> Step(s, e).writers[i] == s.writers[i]
    ensures |s.writers| <= i < |Step(s, e).writers| ==> Step(s, e).writers[i].pc == Entering
  {
  }

  predicate NoOddRelease(pc: Pc) {
    pc != Releasing(Blocked) && pc != Releasing(Gone)
  }

  lemma OwnSpends(s: State, e: Event, i: nat, refusals: nat)
    requires StepOf(e, i) && i < |s.writers| && Spent(s.writers[i].pc, refusals) && NoOddRelease(s.writers[i].pc)
    ensures Spent(Move(s, e).writers[i].pc, refusals + if FindsTaken(s, e, i) then 1 else 0)
    ensures NoOddRelease(Move(s, e).writers[i].pc)
  {
  }

  lemma StepSpends(s: State, e: Event, i: nat, refusals: nat)
    requires SpentIn(s, i, refusals) && (i < |s.writers| ==> NoOddRelease(s.writers[i].pc))
    ensures SpentIn(Step(s, e), i, refusals + if FindsTaken(s, e, i) then 1 else 0)
    ensures i < |Step(s, e).writers| ==> NoOddRelease(Step(s, e).writers[i].pc)
  {
    hide Move, Retire;
    if StepOf(e, i) && i < |s.writers| {
      hide Spent;
      OwnSpends(s, e, i, refusals);
    } else {
      hide Step;
      StepKeepsCount(s, e);
      if !StepOf(e, i) {
        OthersStay(s, e, i);
      }
    }
  }

  lemma StepKeepsCount(s: State, e: Event)
    ensures |s.writers| <= |Step(s, e).writers| && (!e.Call? ==> |Step(s, e).writers| == |s.writers|)
  {
  }

  lemma {:induction false} AlwaysSpent(events: seq<Event>, i: nat)
    ensures SpentIn(Reach(events), i, Refusals(events, i))
    ensures i < |Reach(events).writers| ==> NoOddRelease(Reach(events).writers[i].pc)
  {
    if events == [] {
    } else {
      var before := events[..|events| - 1];
      AlwaysSpent(before, i);
      hide Step, SpentIn, NoOddRelease;
      StepSpends(Reach(before), events[|events| - 1], i, Refusals(before, i));
    }
  }

  /** A write call is given up as blocked exactly when it has found the lock taken three times; no call tries
      more often. */
  lemma BlockedAfterThree(events: seq<Event>, i: nat)
    requires i < |Reach(events).writers|
    ensures Refusals(events, i) <= 3
    ensures Reach(events).writers[i].pc == Done(Blocked) <==> Refusals(events, i) == 3
  {
    AlwaysSpent(events, i);
  }

  // ---------------------------------------------------------------- after a disconnect

  /** A writer that has come too late. */
  predicate TurnedAway(w: Writer) {
    (w.pc == Entering || w.pc == Done(Gone)) && w.calls == 0 && w.sent == 0
  }

  lemma StepTurnsAway(s: State, e: Event, i: nat)
    requires s.disconnecting && i < |s.writers| && TurnedAway(s.writers[i])
    ensures Step(s, e).disconnecting && TurnedAway(Step(s, e).writers[i])
  {
  }

  lemma StepCalls(s: State, e: Event)
    requires s.disconnecting
    ensures var t := Step(s, e);
      && t.disconnecting && |s.writers| <= |t.writers| <= |s.writers| + 1
      && (|t.writers| > |s.writers| ==> TurnedAway(t.writers[|s.writers|]))
  {
  }

  lemma {:induction false} LateInPlay(s: State, more: seq<Event>, i: nat)
    requires s.disconnecting && i < |Play(s, more).writers|
    requires i < |s.writers| ==> TurnedAway(s.writers[i])
    ensures TurnedAway(Play(s, more).writers[i])
    decreases |more|
  {
    hide Step;
    if more != [] {
      StepCalls(s, more[0]);
      if i < |s.writers| {
        StepTurnsAway(s, more[0], i);
      }
      LateInPlay(Step(s, more[0]), more[1..], i);
    }
  }

  /** No call made once a disconnect has been won ever reaches the socket, whatever happens later. */
  lemma LateWriterGone(events: seq<Event>, more: seq<Event>, i: nat)
    requires Reach(events).disconnecting
    requires |Reach(events).writers| <= i < |Reach(events + more).writers|
    ensures TurnedAway(Reach(events + more).writers[i]) && i !in Reach(events + more).served
  {
    Appended(events, more);
    LateInPlay(Reach(events), more, i);
    WireIsMessages(events + more);
  }

  lemma StepGone(s: State, e: Event, i: nat)
    requires i < |Step(s, e).writers| && Step(s, e).writers[i].pc == Done(Gone)
    requires i < |s.writers| ==> NoOddRelease(s.writers[i].pc)
    ensures i < |s.writers| && (s.writers[i].pc == Done(Gone) || s.disconnecting)
    ensures s.disconnecting ==> Step(s, e).disconnecting
  {
    if !StepOf(e, i) {
      OthersStay(s, e, i);
    }
  }

  /** And only such calls are told that the client is gone. */
  lemma {:induction false} GoneMeansDisconnecting(events: seq<Event>, i: nat)
    requires i < |Reach(events).writers| && Reach(events).writers[i].pc == Done(Gone)
    ensures Reach(events).disconnecting
  {
    hide Step;
    var before, e := events[..|events| - 1], events[|events| - 1];
    AlwaysSpent(before, i);
    StepGone(Reach(before), e, i);
    if Reach(before).writers[i].pc == Done(Gone) {
      GoneMeansDisconnecting(before, i);
    }
  }

  // ---------------------------------------------------------------- failures and events

  predicate Fails(w: Writer) {
    w.pc == Releasing(Failed) || w.pc == Done(Failed)
  }

  lemma StepFails(s: State, e: Event, i: nat)
    requires i < |Step(s, e).writers| && Fails(Step(s, e).writers[i])
    ensures (i < |s.writers| && Fails(s.writers[i])) || Step(s, e).closers != []
    ensures |Step(s, e).closers| >= |s.closers|
  {
    if !StepOf(e, i) {
      OthersStay(s, e, i);
    }
  }

  lemma {:induction false} FailureAsks(events: seq<Event>, i: nat)
    requires i < |Reach(events).writers| && Fails(Reach(events).writers[i])
    ensures Reach(events).closers != []
  {
    hide Step;
    var before, e := events[..|events| - 1], events[|events| - 1];
    StepFails(Reach(before), e, i);
    if i < |Reach(before).writers| && Fails(Reach(before).writers[i]) {
      FailureAsks(before, i);
    }
  }

  /** Once the disconnects under way are over, a write that failed has closed the connection. */
  lemma FailureDisconnects(events: seq<Event>, i: nat)
    requires i < |Reach(events).writers| && Fails(Reach(events).writers[i])
    requires forall j :: 0 <= j < |Reach(events).closers| ==> Reach(events).closers[j].Over?
    ensures Reach(events).closes == 1
  {
    FailureAsks(events, i);
    DisconnectsClose(events);
  }

  /** The k-th event offers a disconnect event to a queue with room, after the close. */
  ghost predicate Offers(events: seq<Event>, k: nat)
    requires k < |events|
  {
    var s, e := Reach(events[..k]), events[k];
    e.Queue? && e.room && e.i < |s.closers| && s.closers[e.i] == Closed
  }

  ghost predicate Offered(events: seq<Event>) {
    exists k :: 0 <= k < |events| && Offers(events, k)
  }

  lemma OfferedNext(events: seq<Event>)
    requires events != []
    ensures var n := |events| - 1; Offered(events) <==> Offered(events[..n]) || Offers(events, n)
  {
    var n := |events| - 1;
    forall k | 0 <= k < n
      ensures Offers(events, k) <==> Offers(events[..n], k)
    {
      SameOffer(events, n, k);
    }
    hide Offers;
  }

  lemma SameOffer(events: seq<Event>, n: nat, k: nat)
    requires k < n <= |events|
    ensures Offers(events, k) <==> Offers(events[..n], k)
  {
    hide Reach;
    assert events[..n][..k] == events[..k];
  }

  /** The one disconnect event is queued exactly when the queue had room for it. */
  lemma {:induction false} QueuedExactly(events: seq<Event>)
    ensures Reach(events).queued == 1 <==> exists k :: 0 <= k < |events| && Offers(events, k)
  {
    if events == [] {
    } else {
      var before, e := events[..|events| - 1], events[|events| - 1];
      QueuedExactly(before);
      DisconnectedOnce(before);
      DisconnectedOnce(events);
      OfferedNext(events);
      StepQueues(Reach(before), e);
      hide Step;
    }
  }

  lemma StepQueues(s: State, e: Event)
    ensures Step(s, e).queued ==
            s.queued + if e.Queue? && e.room && e.i < |s.closers| && s.closers[e.i] == Closed then 1 else 0
  {
  }
}
