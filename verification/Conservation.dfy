/**
 * Slot accounting: in_flight is exactly the number of handlers that have taken
 * a slot and not given it back, and the exact events that break this.
 */
module Conservation {
  import opened Wrappers
  import opened Tables
  import opened Queue
  import opened Placement
  import opened Protocol

  /** The replica whose in_flight still counts a handler at this point. */
  function Charge(pc: Pc): Option<ReplicaId> {
    match pc
    case Holding(r) => Some(r)
    case Generating(r) => Some(r)
    case Auditing(r, freed) => if freed then None else Some(r)
    case Failing(r, freed) => if freed then None else Some(r)
    case Leaked(r) => Some(r)
    case _ => None
  }

  function Charged(handlers: Handlers, r: ReplicaId): set<RequestId> {
    set h | h in handlers && Charge(handlers[h].pc) == Some(r)
  }

  /** Handlers still running on the replica, as opposed to slots nobody will ever give back. */
  function LiveHolders(handlers: Handlers, r: ReplicaId): set<RequestId> {
    set h | h in handlers && Charge(handlers[h].pc) == Some(r) && !handlers[h].pc.Leaked?
  }

  function LeakedSlots(handlers: Handlers, r: ReplicaId): set<RequestId> {
    set h | h in handlers && handlers[h].pc == Leaked(r)
  }

  predicate Conserved(s: Sys) {
    forall r :: r in s.replicas ==> s.replicas[r].inFlight == |Charged(s.handlers, r)|
  }

  /**
   * The two ways accounting breaks: a slot that completing already released is
   * released again because the audit write threw, and a replica id that comes
   * back as a new row while handlers from its former life still hold it.
   */
  predicate Drifts(s: Sys, e: Event) {
    match e
    case FreeAfterFailure(h) =>
      && h in s.handlers
      && s.handlers[h].pc.Failing?
      && s.handlers[h].pc.freed
      && s.handlers[h].pc.replica in s.replicas
      && s.replicas[s.handlers[h].pc.replica].inFlight > 0
    case Upsert(r, _, _, _) => r !in s.replicas && Charged(s.handlers, r) != {}
    case _ => false
  }

  // ------------------------------------------------------------ bookkeeping

  /** How much `h` contributes to the charge on `r`. */
  function Share(handlers: Handlers, h: RequestId, r: ReplicaId): int {
    if h in handlers && Charge(handlers[h].pc) == Some(r) then 1 else 0
  }

  lemma Recharge(handlers: Handlers, h: RequestId, handler: Handler, r: ReplicaId)
    ensures var after := handlers[h := handler];
            |Charged(after, r)| == |Charged(handlers, r)| - Share(handlers, h, r) + Share(after, h, r)
  {
    RechargeOnlyOne(handlers, h, handler, r);
    Remove(Charged(handlers, r), h);
    Remove(Charged(handlers[h := handler], r), h);
  }

  lemma RechargeOnlyOne(handlers: Handlers, h: RequestId, handler: Handler, r: ReplicaId)
    ensures Charged(handlers[h := handler], r) - {h} == Charged(handlers, r) - {h}
  {
  }

  lemma Remove(s: set<RequestId>, h: RequestId)
    ensures |s - {h}| == |s| - (if h in s then 1 else 0)
  {
    if h !in s { assert s - {h} == s; }
  }

  /** Forgiving the leaks of deleted rows leaves the charge on every surviving row alone. */
  lemma ForgivingKeepsCharges(handlers: Handlers, kept: ReplicaTable, r: ReplicaId)
    requires r in kept
    ensures Charged(Forgiven(handlers, kept), r) == Charged(handlers, r)
  {
  }

  /** A second release of a slot that is already free. */
  predicate FreesTwice(s: Sys, e: Event) {
    e.FreeAfterFailure? && e.h in s.handlers && s.handlers[e.h].pc.Failing? && s.handlers[e.h].pc.freed
  }

  /** Apart from a second release, a handler's step moves in_flight as it moves that handler's charge, clamped at zero. */
  lemma ActorDelta(s: Sys, e: Event, h: RequestId, r: ReplicaId)
    requires Actor(e) == Some(h) && r in s.replicas && !FreesTwice(s, e)
    requires h in s.requests ==> h in s.handlers && RowMatches(s.requests[h], s.handlers[h], s.clock)
    requires s.replicas[r].inFlight >= 0
    ensures var t := Apply(s, e);
            && t.replicas.Keys == s.replicas.Keys
            && t.replicas[r].inFlight
                 == Max(0, s.replicas[r].inFlight + Share(t.handlers, h, r) - Share(s.handlers, h, r))
  {
    if e.Complete? { CompletionDelta(s, e, h, r); } else { OtherDelta(s, e, h, r); }
  }

  lemma CompletionDelta(s: Sys, e: Event, h: RequestId, r: ReplicaId)
    requires e.Complete? && e.h == h && r in s.replicas
    requires h in s.requests ==> h in s.handlers && RowMatches(s.requests[h], s.handlers[h], s.clock)
    requires s.replicas[r].inFlight >= 0
    ensures var t := Apply(s, e);
            && t.replicas.Keys == s.replicas.Keys
            && t.replicas[r].inFlight
                 == Max(0, s.replicas[r].inFlight + Share(t.handlers, h, r) - Share(s.handlers, h, r))
  {
  }

  lemma OtherDelta(s: Sys, e: Event, h: RequestId, r: ReplicaId)
    requires Actor(e) == Some(h) && !e.Complete? && r in s.replicas && !FreesTwice(s, e)
    requires s.replicas[r].inFlight >= 0
    ensures var t := Apply(s, e);
            && t.replicas.Keys == s.replicas.Keys
            && t.replicas[r].inFlight
                 == Max(0, s.replicas[r].inFlight + Share(t.handlers, h, r) - Share(s.handlers, h, r))
  {
    if Opens(e) { OpeningDelta(s, e, h, r); }
  }

  lemma OpeningDelta(s: Sys, e: Event, h: RequestId, r: ReplicaId)
    requires Actor(e) == Some(h) && Opens(e) && r in s.replicas && s.replicas[r].inFlight >= 0
    ensures var t := Apply(s, e);
            && t.replicas.Keys == s.replicas.Keys
            && t.replicas[r].inFlight
                 == Max(0, s.replicas[r].inFlight + Share(t.handlers, h, r) - Share(s.handlers, h, r))
  {
  }

  lemma ActorMovesOnlyItself(s: Sys, e: Event, h: RequestId)
    requires Actor(e) == Some(h)
    ensures var t := Apply(s, e);
            t.handlers == s.handlers || (h in t.handlers && t.handlers == s.handlers[h := t.handlers[h]])
  {
  }

  lemma ActorCharge(s: Sys, e: Event, h: RequestId, r: ReplicaId)
    requires Actor(e) == Some(h)
    ensures var t := Apply(s, e);
            |Charged(t.handlers, r)| == |Charged(s.handlers, r)| - Share(s.handlers, h, r) + Share(t.handlers, h, r)
  {
    var t := Apply(s, e);
    ActorMovesOnlyItself(s, e, h);
    if t.handlers != s.handlers {
      Recharge(s.handlers, h, t.handlers[h], r);
    }
  }

  lemma HandlerStepAccounting(s: Sys, e: Event, h: RequestId)
    requires Actor(e) == Some(h) && RowsMatchHandlers(s) && Conserved(s)
    ensures Conserved(Apply(s, e)) <==> !Drifts(s, e)
  {
    var t := Apply(s, e);
    if FreesTwice(s, e) {
      SecondReleaseAccounting(s, e, h);
    } else {
      forall r | r in t.replicas ensures t.replicas[r].inFlight == |Charged(t.handlers, r)| {
        ActorCharge(s, e, h, r);
        if Share(s.handlers, h, r) == 1 { ChargedMeansBusy(s, h); }
        if r in s.replicas { ActorDelta(s, e, h, r); }
        else { ActorKeepsReplicas(s, e, h); }
      }
    }
  }

  lemma ActorKeepsReplicas(s: Sys, e: Event, h: RequestId)
    requires Actor(e) == Some(h)
    ensures Apply(s, e).replicas.Keys == s.replicas.Keys
  {
  }

  lemma SecondReleaseAccounting(s: Sys, e: Event, h: RequestId)
    requires Actor(e) == Some(h) && FreesTwice(s, e) && Conserved(s)
    ensures Conserved(Apply(s, e)) <==> !Drifts(s, e)
  {
    var t := Apply(s, e);
    var p := s.handlers[h].pc.replica;
    forall r ensures |Charged(t.handlers, r)| == |Charged(s.handlers, r)| { ActorCharge(s, e, h, r); }
    if p in s.replicas {
      assert t.replicas[p].inFlight == Max(0, s.replicas[p].inFlight - 1);
      assert s.replicas[p].inFlight == |Charged(s.handlers, p)|;
    }
  }

  /** While accounting holds, a handler that holds a slot of an existing row sees in_flight >= 1. */
  lemma ChargedMeansBusy(s: Sys, h: RequestId)
    requires Conserved(s) && h in s.handlers && Charge(s.handlers[h].pc).Some?
    ensures Charge(s.handlers[h].pc).value in s.replicas ==>
              s.replicas[Charge(s.handlers[h].pc).value].inFlight >= 1
  {
    var r := Charge(s.handlers[h].pc).value;
    assert h in Charged(s.handlers, r);
    assert Charged(s.handlers, r) != {};
  }

  lemma TableStepAccounting(s: Sys, e: Event)
    requires Actor(e).None? && Conserved(s)
    ensures Conserved(Apply(s, e)) <==> !Drifts(s, e)
  {
    var t := Apply(s, e);
    if e.Prune? {
      forall r | r in t.replicas ensures t.replicas[r].inFlight == |Charged(t.handlers, r)| {
        ForgivingKeepsCharges(s.handlers, t.replicas, r);
      }
    }
    if e.Upsert? && e.r !in s.replicas {
      assert t.replicas[e.r].inFlight == 0;
      assert t.handlers == s.handlers;
      if Charged(s.handlers, e.r) != {} {
        assert |Charged(t.handlers, e.r)| != 0;
        assert !Conserved(t);
      }
    }
  }

  /** Accounting that held before a step holds after it if and only if the step is not one of the two drifts. */
  lemma StepConservesExactlyWhenNoDrift(s: Sys, e: Event)
    requires RowsMatchHandlers(s) && Conserved(s)
    ensures Conserved(Apply(s, e)) <==> !Drifts(s, e)
  {
    if Actor(e).Some? {
      HandlerStepAccounting(s, e, Actor(e).value);
    } else {
      TableStepAccounting(s, e);
    }
  }

  // ------------------------------------------------------------- whole runs

  ghost predicate DriftFree(s: Sys, events: seq<Event>)
    decreases |events|
  {
    events == [] || (!Drifts(s, events[0]) && DriftFree(Apply(s, events[0]), events[1..]))
  }

  /** From any good state, every interleaving without a drift keeps the books exact. */
  lemma {:induction false} SlotsAreConserved(s: Sys, events: seq<Event>)
    requires RowsMatchHandlers(s) && Conserved(s) && DriftFree(s, events)
    ensures RowsMatchHandlers(Run(s, events)) && Conserved(Run(s, events))
    decreases |events|
  {
    if events != [] {
      StepKeepsRows(s, events[0]);
      StepConservesExactlyWhenNoDrift(s, events[0]);
      SlotsAreConserved(Apply(s, events[0]), events[1..]);
    }
  }

  lemma InitialIsConserved(s: Sys)
    requires Initial(s)
    ensures RowsMatchHandlers(s) && Conserved(s)
  {
    forall r | r in s.replicas ensures |Charged(s.handlers, r)| == 0 {
      assert Charged(s.handlers, r) == {};
    }
  }

  /**
   * Two decompositions of in_flight in every reachable state: it counts the live
   * holders plus the leaked slots, so it never undercounts the work in progress,
   * and without leaks it is exactly the live holders.
   */
  lemma ReachableAccounting(s: Sys, events: seq<Event>, r: ReplicaId)
    requires Initial(s) && DriftFree(s, events) && r in Run(s, events).replicas
    ensures var t := Run(s, events);
            && t.replicas[r].inFlight == |LiveHolders(t.handlers, r)| + |LeakedSlots(t.handlers, r)|
            && |LiveHolders(t.handlers, r)| <= t.replicas[r].inFlight
            && (LeakedSlots(t.handlers, r) == {} ==> t.replicas[r].inFlight == |LiveHolders(t.handlers, r)|)
  {
    InitialIsConserved(s);
    SlotsAreConserved(s, events);
    ChargedAreLiveOrLeaked(Run(s, events).handlers, r);
  }

  lemma ChargedAreLiveOrLeaked(handlers: Handlers, r: ReplicaId)
    ensures |Charged(handlers, r)| == |LiveHolders(handlers, r)| + |LeakedSlots(handlers, r)|
  {
    assert Charged(handlers, r) == LiveHolders(handlers, r) + LeakedSlots(handlers, r);
    assert LiveHolders(handlers, r) !! LeakedSlots(handlers, r);
  }

  /** The two ways to leave a slot behind: an embedding call that throws, and deleting the row of a live request. */
  predicate MayLeak(s: Sys, e: Event) {
    match e
    case EmbeddingThrows(_) => true
    case Retain(olderThanMs) =>
      exists h :: h in s.requests && s.requests[h].arrivedAt < s.clock - olderThanMs
               && h in s.handlers && s.handlers[h].pc != Gone
    case _ => false
  }

  ghost predicate LeakFree(s: Sys, events: seq<Event>)
    decreases |events|
  {
    events == [] || (!MayLeak(s, events[0]) && LeakFree(Apply(s, events[0]), events[1..]))
  }

  predicate NoLeaks(handlers: Handlers) {
    forall h :: h in handlers ==>
      && !handlers[h].pc.Leaked?
      && (handlers[h].pc.Auditing? ==> handlers[h].pc.freed)
  }

  predicate RowsSurvive(s: Sys) {
    forall h :: h in s.handlers && s.handlers[h].pc != Gone ==> h in s.requests
  }

  /** What one handler looks like in a state where nothing has leaked. */
  predicate Sound(s: Sys, h: RequestId)
    requires h in s.handlers
  {
    && !s.handlers[h].pc.Leaked?
    && (s.handlers[h].pc.Auditing? ==> s.handlers[h].pc.freed)
    && (s.handlers[h].pc != Gone ==> h in s.requests)
  }

  lemma HandlerStaysSound(s: Sys, e: Event, h: RequestId)
    requires Actor(e) == Some(h) && !e.EmbeddingThrows? && (h in s.handlers ==> Sound(s, h))
    ensures h in Apply(s, e).handlers ==> Sound(Apply(s, e), h)
  {
  }

  lemma TableStepStaysSound(s: Sys, e: Event, h: RequestId)
    requires Actor(e).None? && !MayLeak(s, e) && h in s.handlers && Sound(s, h)
    ensures h in Apply(s, e).handlers && Sound(Apply(s, e), h)
  {
  }

  lemma StepLeaksNothing(s: Sys, e: Event)
    requires NoLeaks(s.handlers) && RowsSurvive(s) && !MayLeak(s, e)
    ensures NoLeaks(Apply(s, e).handlers) && RowsSurvive(Apply(s, e))
  {
    var t := Apply(s, e);
    forall h | h in t.handlers ensures Sound(t, h) {
      match Actor(e)
      case None => TableStepStaysSound(s, e, h);
      case Some(g) =>
        if g == h { HandlerStaysSound(s, e, h); } else { HandlersDoNotInterfere(s, e, h); }
    }
  }

  /** Without those two events nothing ever leaks, so in_flight is exactly the live holders throughout. */
  lemma {:induction false} NothingElseLeaks(s: Sys, events: seq<Event>)
    requires NoLeaks(s.handlers) && RowsSurvive(s) && LeakFree(s, events)
    ensures NoLeaks(Run(s, events).handlers)
    decreases |events|
  {
    if events != [] {
      StepLeaksNothing(s, events[0]);
      NothingElseLeaks(Apply(s, events[0]), events[1..]);
    }
  }

  /** An embedding call that throws leaves the slot taken and the row streaming: nothing but the handler's memory is gone. */
  lemma EmbeddingThrowLeavesItsSlot(s: Sys, h: RequestId, r: ReplicaId)
    requires At(s, h, Generating(r)) && r in s.replicas
    ensures var t := Apply(s, EmbeddingThrows(h));
            At(t, h, Leaked(r)) && t.replicas == s.replicas && t.requests == s.requests
  {
  }

  /** So does finishing a request whose row retention has deleted. */
  lemma DeletedRowLeavesItsSlot(s: Sys, h: RequestId, r: ReplicaId, tokens: int)
    requires At(s, h, Generating(r)) && r in s.replicas && h !in s.requests
    ensures var t := Apply(s, Complete(h, tokens, false));
            At(t, h, Leaked(r)) && t.replicas == s.replicas && t.requests == s.requests
    ensures var t := Apply(Apply(s, Complete(h, tokens, true)), AuditWritten(h));
            At(t, h, Leaked(r)) && t.replicas == s.replicas && t.requests == s.requests
  {
  }

  /** And nothing gives such a slot back while the replica's row lives. */
  lemma {:induction false} LeaksAreForGood(s: Sys, events: seq<Event>, h: RequestId, r: ReplicaId)
    requires At(s, h, Leaked(r)) && r in s.replicas
    requires forall e :: e in events && e.Prune? ==> r in e.seen
    ensures At(Run(s, events), h, Leaked(r)) && r in Run(s, events).replicas
    decreases |events|
  {
    if events != [] {
      LeakStays(s, events[0], h, r);
      LeaksAreForGood(Apply(s, events[0]), events[1..], h, r);
    }
  }

  lemma LeakStays(s: Sys, e: Event, h: RequestId, r: ReplicaId)
    requires At(s, h, Leaked(r)) && r in s.replicas && (e.Prune? ==> r in e.seen)
    ensures At(Apply(s, e), h, Leaked(r)) && r in Apply(s, e).replicas
  {
    match Actor(e)
    case None =>
    case Some(g) =>
      ActorKeepsReplicas(s, e, g);
      if g != h { HandlersDoNotInterfere(s, e, h); }
  }

  /** The headline: no drift and no leak, and in_flight is the number of live holders in every reachable state. */
  lemma InFlightIsTheLiveHolders(s: Sys, events: seq<Event>, r: ReplicaId)
    requires Initial(s) && DriftFree(s, events) && LeakFree(s, events) && r in Run(s, events).replicas
    ensures var t := Run(s, events); t.replicas[r].inFlight == |LiveHolders(t.handlers, r)|
  {
    NothingElseLeaks(s, events);
    ReachableAccounting(s, events, r);
    assert LeakedSlots(Run(s, events).handlers, r) == {};
  }

  /** Whether a step decrements in_flight of `r` on a handler's behalf. */
  predicate Releases(s: Sys, e: Event, r: ReplicaId) {
    match e
    case Complete(h, _, _) =>
      h in s.handlers && s.handlers[h].pc == Generating(r) && h in s.requests
    case FreeAfterFailure(h) => h in s.handlers && s.handlers[h].pc.Failing? && s.handlers[h].pc.replica == r
    case _ => false
  }

  /**
   * GREATEST(0, in_flight - 1) never clamps on a drift-free run: every release finds a slot to give back.
   * The one exception is a second release of a row already at zero, where clamping is what keeps the books.
   */
  lemma ReleaseNeverClamps(s: Sys, events: seq<Event>, e: Event, r: ReplicaId)
    requires Initial(s) && DriftFree(s, events)
    requires var t := Run(s, events);
             && r in t.replicas && Releases(t, e, r) && !Drifts(t, e)
             && !(e.FreeAfterFailure? && t.handlers[e.h].pc.freed)
    ensures var t := Run(s, events);
            && t.replicas[r].inFlight >= 1
            && Apply(t, e).replicas[r].inFlight == t.replicas[r].inFlight - 1
  {
    InitialIsConserved(s);
    SlotsAreConserved(s, events);
    var t := Run(s, events);
    ChargedMeansBusy(t, e.h);
    if e.Complete? { assert RowMatches(t.requests[e.h], t.handlers[e.h], t.clock); }
  }
}
