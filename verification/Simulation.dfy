/**
 * The step machine of `Protocol` is what the operations of `Store` do: each event is
 * one of its statements, run when the handler it belongs to is where the event needs
 * it. So everything proved about runs holds of the shared tables.
 */
module Simulation {
  import opened Wrappers
  import opened Tables
  import opened Placement
  import opened Protocol
  import opened ScaleSignals
  import Queue
  import Store

  /** The two tables, with what the handlers and the database clock have to add to make a state of the machine. */
  function StateOf(db: Store.Database, handlers: Handlers, clock: Time): Sys
    reads db
  {
    Sys(db.replicas, db.requests, handlers, clock)
  }

  /** Any interleaving, performed on the tables statement by statement, is that run of the machine. */
  method PerformAll(db: Store.Database, handlers: Handlers, clock: Time, events: seq<Event>)
    returns (handlers': Handlers, clock': Time)
    requires RowsMatchHandlers(StateOf(db, handlers, clock))
    modifies db`replicas, db`requests
    ensures StateOf(db, handlers', clock') == Run(old(StateOf(db, handlers, clock)), events)
    ensures RowsMatchHandlers(StateOf(db, handlers', clock'))
  {
    handlers', clock' := handlers, clock;
    ghost var start := StateOf(db, handlers, clock);
    for n := 0 to |events|
      invariant RowsMatchHandlers(StateOf(db, handlers', clock'))
      invariant Run(StateOf(db, handlers', clock'), events[n..]) == Run(start, events)
    {
      assert events[n..][1..] == events[n + 1..];
      StepKeepsRows(StateOf(db, handlers', clock'), events[n]);
      handlers', clock' := Perform(db, handlers', clock', events[n]);
    }
  }

  /** One event, as the statement that carries it out. */
  method Perform(db: Store.Database, handlers: Handlers, clock: Time, e: Event)
    returns (handlers': Handlers, clock': Time)
    requires RowsMatchHandlers(StateOf(db, handlers, clock))
    modifies db`replicas, db`requests
    ensures StateOf(db, handlers', clock') == Apply(old(StateOf(db, handlers, clock)), e)
  {
    clock' := clock;
    if Actor(e).None? {
      handlers', clock' := PerformOnTables(db, handlers, clock, e);
    } else if e.Arrive? {
      handlers' := PerformArrival(db, handlers, clock, e);
    } else if e.h !in handlers {
      handlers' := handlers;
    } else if Opens(e) {
      handlers' := PerformOpening(db, handlers, clock, e);
    } else {
      handlers' := PerformEnding(db, handlers, clock, e);
    }
  }

  /** A fresh id has no row to collide with. */
  method PerformArrival(db: Store.Database, handlers: Handlers, clock: Time, e: Event) returns (handlers': Handlers)
    requires e.Arrive? && (e.h in db.requests ==> e.h in handlers)
    modifies db`requests
    ensures StateOf(db, handlers', clock) == Apply(old(StateOf(db, handlers, clock)), e)
  {
    handlers' := handlers;
    if e.h !in handlers {
      var inserted := db.EnqueueRequest(e.h, clock);
      handlers' := handlers[e.h := Handler(e.model, e.backend, Enqueued)];
    }
  }

  /** From routing to being marked as started. */
  method PerformOpening(db: Store.Database, handlers: Handlers, clock: Time, e: Event) returns (handlers': Handlers)
    requires Actor(e).Some? && Opens(e) && !e.Arrive? && e.h in handlers
    modifies db`replicas, db`requests
    ensures StateOf(db, handlers', clock) == Apply(old(StateOf(db, handlers, clock)), e)
  {
    handlers' := handlers;
    var h, handler := e.h, handlers[e.h];
    if e.Route? && handler.pc.Enqueued? {
      db.RouteRequest(h, handler.model);
      handlers' := Moved(handlers, h, Waiting);
    } else if e.ClaimAffine? && handler.pc.Waiting? {
      var was := db.ClaimAffine(handler.backend, e.target, e.locked);
      if was.Some? { handlers' := Moved(handlers, h, Holding(e.target)); }
    } else if e.ClaimLeast? && handler.pc.Waiting? {
      var choice, was := db.ClaimLeast(handler.backend, e.locked, clock);
      if choice.Some? { handlers' := Moved(handlers, h, Holding(choice.value)); }
    } else if e.GiveUp? && handler.pc.Waiting? {
      var expired := db.ExpireQueuedRequest(h, clock);
      handlers' := Moved(handlers, h, Gone);
    } else if e.Start? && handler.pc.Holding? {
      db.MarkStreamStarted(h, handler.pc.replica, clock);
      handlers' := Moved(handlers, h, Generating(handler.pc.replica));
    }
  }

  /** From the first token to the end. */
  method PerformEnding(db: Store.Database, handlers: Handlers, clock: Time, e: Event) returns (handlers': Handlers)
    requires Actor(e).Some? && !Opens(e) && e.h in handlers
    modifies db`replicas, db`requests
    ensures StateOf(db, handlers', clock) == Apply(old(StateOf(db, handlers, clock)), e)
  {
    handlers' := handlers;
    var h, pc := e.h, handlers[e.h].pc;
    if e.Token? && pc.Generating? {
      db.RecordTokenEmitted(h, clock);
    } else if e.Complete? && pc.Generating? {
      var freed := h in db.requests;
      db.CompleteRequest(h, e.tokens, clock, Queue.EWMA_ALPHA);
      handlers' := Moved(handlers, h, if e.streaming then Auditing(pc.replica, freed)
                                      else if freed then Gone else Abandoned(db.replicas, pc.replica));
    } else if e.AuditWritten? && pc.Auditing? {
      handlers' := Moved(handlers, h, if pc.freed then Gone else Abandoned(db.replicas, pc.replica));
    } else if e.AuditThrows? && pc.Auditing? {
      db.MarkFailed(h, e.code, clock);
      handlers' := Moved(handlers, h, Failing(pc.replica, pc.freed));
    } else if e.BackendThrows? && pc.Generating? {
      db.MarkFailed(h, e.code, clock);
      handlers' := Moved(handlers, h, Failing(pc.replica, false));
    } else if e.FreeAfterFailure? && pc.Failing? {
      db.ReleaseSlot(pc.replica);
      handlers' := Moved(handlers, h, Gone);
    } else if e.EmbeddingThrows? && pc.Generating? {
      handlers' := Moved(handlers, h, Abandoned(db.replicas, pc.replica));
    }
  }

  /** The clock, the sweeps, retention and the reconciler. */
  method PerformOnTables(db: Store.Database, handlers: Handlers, clock: Time, e: Event)
    returns (handlers': Handlers, clock': Time)
    requires Actor(e).None?
    modifies db`replicas, db`requests
    ensures StateOf(db, handlers', clock') == Apply(old(StateOf(db, handlers, clock)), e)
  {
    handlers', clock' := handlers, clock;
    match e {
      case Tick(ms) => clock' := clock + ms;
      case QueueSweep(timeoutMs) => var swept := db.SweepQueueTimeouts(clock, timeoutMs);
      case StallSweep(thresholdMs) => var swept := db.SweepStallTimeouts(clock, thresholdMs);
      case ColdStartSweep(allowances, defaultMs) =>
        var swept := db.SweepFirstTokenTimeouts(allowances, clock, defaultMs);
      case Retain(olderThanMs) => db.DeleteOldRequests(clock, olderThanMs);
      case Upsert(r, model, status, ceiling) => db.UpsertReplica(r, model, status, ceiling);
      case Prune(seen) =>
        var removed := db.PruneReplicas(seen);
        handlers' := Forgiven(handlers, db.replicas);
    }
  }

  // ------------------------------------- operations of more than one statement

  lemma RunOfTwo(s: Sys, d: Event, e: Event)
    ensures Run(s, [d, e]) == Apply(Apply(s, d), e)
    ensures Run(s, [e]) == Apply(s, e)
  {
    assert [d, e][1..] == [e] && [e][1..] == [];
    assert Run(s, [e]) == Run(Apply(s, e), []) == Apply(s, e);
    assert Run(Apply(s, d), [e]) == Run(Apply(Apply(s, d), e), []);
  }

  /** A call to placeRequest with nothing in between is the affine claim, if there is a target, then the general one. */
  method PerformPlacement(db: Store.Database, handlers: Handlers, clock: Time, h: RequestId, key: Option<string>,
                          affineLocked: set<ReplicaId>, locked: set<ReplicaId>) returns (handlers': Handlers)
    requires h in handlers && handlers[h].pc.Waiting?
    modifies db`replicas, db`signals, db`affinities
    ensures var target := old(db.AffinityTarget(key, handlers[h].backend, clock));
            StateOf(db, handlers', clock)
              == Run(old(StateOf(db, handlers, clock)),
                     if target.Some? then [ClaimAffine(h, target.value, affineLocked), ClaimLeast(h, locked)]
                     else [ClaimLeast(h, locked)])
  {
    ghost var s := StateOf(db, handlers, clock);
    ghost var target := db.AffinityTarget(key, handlers[h].backend, clock);
    var outcome := db.PlaceRequest(handlers[h].backend, key, affineLocked, locked, clock);
    handlers' := if outcome.Placed? then Moved(handlers, h, Holding(outcome.replica)) else handlers;
    RunOfTwo(s, ClaimAffine(h, target.GetOr(ReplicaId(0)), affineLocked), ClaimLeast(h, locked));
  }

  /** A call to failRequest with nothing in between is the failing handler's two events. */
  method PerformFailure(db: Store.Database, handlers: Handlers, clock: Time, h: RequestId, code: Tables.ErrorCode)
    returns (handlers': Handlers)
    requires h in handlers && handlers[h].pc.Generating?
    modifies db`replicas, db`requests
    ensures StateOf(db, handlers', clock)
         == Run(old(StateOf(db, handlers, clock)), [BackendThrows(h, code), FreeAfterFailure(h)])
  {
    RunOfTwo(StateOf(db, handlers, clock), BackendThrows(h, code), FreeAfterFailure(h));
    db.FailRequest(h, code, Some(handlers[h].pc.replica), clock);
    handlers' := Moved(handlers, h, Gone);
  }

  // ------------------------------------------------------- the scale-up signal

  /**
   * Routers ask in any interleaving, then the autoscaler looks: it is told to scale a
   * model up whenever some ask is still young enough to outlive the debounce, and
   * only if a signal was there already or some router really asked inside the window.
   */
  method AskThenPoll(db: Store.Database, asks: seq<Ask>, model: ModelId, now: Time, debounceMs: nat, withinMs: nat)
    returns (wanted: bool)
    requires InOrder(asks) && (asks != [] ==> NotAhead(db.signals, asks[0].at)) && forall a :: a in asks ==> a.at <= now
    modifies db`signals
    ensures (exists a :: a in asks && a.model == model && now < a.at + withinMs - debounceMs) ==> wanted
    ensures wanted ==>
              (Wants(old(db.signals), model, now, withinMs)
               || exists a :: a in asks && a.model == model && a.at > now - withinMs)
  {
    for n := 0 to |asks|
      invariant db.signals == AfterAsks(old(db.signals), asks[..n], debounceMs)
    {
      assert asks[..n + 1][..n] == asks[..n];
      db.RequestScaleUp(asks[n].model, asks[n].at, debounceMs);
    }
    assert asks[..|asks|] == asks;
    wanted := db.WantsScaleUp(model, now, withinMs);
    forall i | 0 <= i < |asks| && asks[i].model == model && now < asks[i].at + withinMs - debounceMs ensures wanted {
      SignalSurvivesDebouncing(old(db.signals), asks, i, debounceMs, withinMs, now);
    }
    if wanted { WantedOnlyIfAsked(old(db.signals), asks, debounceMs, model, now, withinMs); }
  }
}
