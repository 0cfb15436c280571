/**
 * The autoscaling metric: what in_flight + queued actually counts, handler by
 * handler, in any state where slot accounting holds.
 */
module Demand {
  import opened Wrappers
  import opened Tables
  import opened Queue
  import opened Placement
  import opened Protocol
  import opened Conservation
  import opened Aliases

  datatype Metric = Metric(pendingRequests: int, inFlight: int, queued: int)

  function RowsOf(replicas: ReplicaTable, backend: ModelId): set<ReplicaId> {
    set r | r in replicas && replicas[r].modelId == backend
  }

  ghost function KedaMetric(s: Sys, registry: Registry, backend: ModelId, recentlyRequested: bool): Metric {
    var inFlight := SumInFlight(s.replicas, RowsOf(s.replicas, backend));
    var queued := |QueuedFor(s.requests, ServedBy(registry, backend))|;
    var demand := inFlight + queued;
    Metric(demand + (if demand > 0 || recentlyRequested then 1 else 0), inFlight, queued)
  }

  // ---------------------------------------------------- handlers, by backend

  function Waiters(handlers: Handlers, backend: ModelId): set<RequestId> {
    set h | h in handlers && handlers[h].backend == backend && handlers[h].pc.Waiting?
  }

  /** Placed, but not yet marked as streaming. */
  function Unmarked(handlers: Handlers, backend: ModelId): set<RequestId> {
    set h | h in handlers && handlers[h].backend == backend && handlers[h].pc.Holding?
  }

  function HoldersFor(handlers: Handlers, backend: ModelId): set<RequestId> {
    set h | h in handlers && handlers[h].backend == backend
         && Charge(handlers[h].pc).Some? && !handlers[h].pc.Leaked?
  }

  /** The requests a backend is answerable for: waiting for it, or holding one of its slots. */
  function Live(handlers: Handlers, backend: ModelId): set<RequestId> {
    Waiters(handlers, backend) + HoldersFor(handlers, backend)
  }

  /** Waiting or just placed, but the row no longer says so: swept by the queue timeout, or deleted. */
  function Unqueued(s: Sys, backend: ModelId): set<RequestId> {
    set h | h in Waiters(s.handlers, backend) + Unmarked(s.handlers, backend)
         && !(h in s.requests && s.requests[h].status == Queued)
  }

  /** Holding a slot of a row that is gone or has been given to another backend. */
  function Orphaned(s: Sys, backend: ModelId): set<RequestId> {
    set h | h in HoldersFor(s.handlers, backend)
         && Charge(s.handlers[h].pc).value !in RowsOf(s.replicas, backend)
  }

  /** Charged to this backend's rows without being its live holder: leaked, or another backend's. */
  function Stray(s: Sys, backend: ModelId): set<RequestId> {
    set h | h in s.handlers && Charge(s.handlers[h].pc).Some?
         && Charge(s.handlers[h].pc).value in RowsOf(s.replicas, backend)
         && h !in HoldersFor(s.handlers, backend)
  }

  predicate BackendsResolved(handlers: Handlers, registry: Registry) {
    forall h :: h in handlers ==>
      handlers[h].model in registry && handlers[h].backend == Resolve(registry, handlers[h].model)
  }

  function ChargedTo(handlers: Handlers, ids: set<ReplicaId>): set<RequestId> {
    set h | h in handlers && Charge(handlers[h].pc).Some? && Charge(handlers[h].pc).value in ids
  }

  lemma ChargedToOneMore(handlers: Handlers, ids: set<ReplicaId>, r: ReplicaId)
    requires r in ids
    ensures |ChargedTo(handlers, ids)| == |Charged(handlers, r)| + |ChargedTo(handlers, ids - {r})|
  {
    assert ChargedTo(handlers, ids) == Charged(handlers, r) + ChargedTo(handlers, ids - {r});
    assert Charged(handlers, r) !! ChargedTo(handlers, ids - {r});
  }

  lemma {:induction false} InFlightCountsCharges(s: Sys, ids: set<ReplicaId>)
    requires Conserved(s) && ids <= s.replicas.Keys
    ensures SumInFlight(s.replicas, ids) == |ChargedTo(s.handlers, ids)|
    decreases ids
  {
    if ids == {} {
      assert ChargedTo(s.handlers, ids) == {};
    } else {
      var r :| r in ids;
      SumSplit(s.replicas, ids, r);
      InFlightCountsCharges(s, ids - {r});
      ChargedToOneMore(s.handlers, ids, r);
    }
  }

  lemma Difference(s: set<RequestId>, part: set<RequestId>)
    requires part <= s
    ensures |s - part| == |s| - |part|
  {
  }

  lemma ChargedAreHeldOrStray(s: Sys, backend: ModelId)
    ensures ChargedTo(s.handlers, RowsOf(s.replicas, backend))
         == (HoldersFor(s.handlers, backend) - Orphaned(s, backend)) + Stray(s, backend)
    ensures Orphaned(s, backend) <= HoldersFor(s.handlers, backend)
    ensures HoldersFor(s.handlers, backend) !! Stray(s, backend)
  {
  }

  lemma ChargesOfABackend(s: Sys, backend: ModelId)
    ensures |ChargedTo(s.handlers, RowsOf(s.replicas, backend))|
         == |HoldersFor(s.handlers, backend)| - |Orphaned(s, backend)| + |Stray(s, backend)|
  {
    ChargedAreHeldOrStray(s, backend);
    Difference(HoldersFor(s.handlers, backend), Orphaned(s, backend));
  }

  lemma QueuedIsWaiting(s: Sys, registry: Registry, backend: ModelId, h: RequestId)
    requires RowsMatchHandlers(s) && OneLevel(registry) && backend in Owners(registry)
    requires BackendsResolved(s.handlers, registry)
    ensures h in QueuedFor(s.requests, ServedBy(registry, backend)) <==>
              h in Waiters(s.handlers, backend) + Unmarked(s.handlers, backend) && h !in Unqueued(s, backend)
  {
    if h in s.requests {
      assert RowMatches(s.requests[h], s.handlers[h], s.clock);
      ResolutionIsIdempotent(registry, s.handlers[h].model);
    }
  }

  lemma QueuedRowsOfABackend(s: Sys, registry: Registry, backend: ModelId)
    requires RowsMatchHandlers(s) && OneLevel(registry) && backend in Owners(registry)
    requires BackendsResolved(s.handlers, registry)
    ensures |QueuedFor(s.requests, ServedBy(registry, backend))|
         == |Waiters(s.handlers, backend)| + |Unmarked(s.handlers, backend)| - |Unqueued(s, backend)|
  {
    var waiting := Waiters(s.handlers, backend) + Unmarked(s.handlers, backend);
    assert |waiting| == |Waiters(s.handlers, backend)| + |Unmarked(s.handlers, backend)|;
    Difference(waiting, Unqueued(s, backend));
    forall h ensures h in QueuedFor(s.requests, ServedBy(registry, backend)) <==> h in waiting - Unqueued(s, backend) {
      QueuedIsWaiting(s, registry, backend, h);
    }
    assert QueuedFor(s.requests, ServedBy(registry, backend)) == waiting - Unqueued(s, backend);
  }

  /**
   * The exact account, in every state where slots are conserved: the metric
   * counts each live request once, each placed but unmarked one twice, adds
   * stray charges, and misses requests whose row or replica has been taken away.
   */
  lemma DemandAccounting(s: Sys, registry: Registry, backend: ModelId, recentlyRequested: bool)
    requires RowsMatchHandlers(s) && Conserved(s)
    requires OneLevel(registry) && backend in Owners(registry) && BackendsResolved(s.handlers, registry)
    ensures var metric := KedaMetric(s, registry, backend, recentlyRequested);
            var demand := |Live(s.handlers, backend)| + |Unmarked(s.handlers, backend)|
                        + |Stray(s, backend)| - |Unqueued(s, backend)| - |Orphaned(s, backend)|;
            && metric.inFlight == |HoldersFor(s.handlers, backend)| + |Stray(s, backend)| - |Orphaned(s, backend)|
            && metric.inFlight + metric.queued == demand
            && metric.pendingRequests == demand + (if demand != 0 || recentlyRequested then 1 else 0)
  {
    InFlightCountsCharges(s, RowsOf(s.replicas, backend));
    ChargesOfABackend(s, backend);
    QueuedRowsOfABackend(s, registry, backend);
    assert |Live(s.handlers, backend)| == |Waiters(s.handlers, backend)| + |HoldersFor(s.handlers, backend)|;
  }

  predicate NotStarted(pc: Pc) {
    pc.Enqueued? || pc.Waiting? || pc.Holding?
  }

  /**
   * One handler, as a backend sees it: its charge is on the backend's rows exactly
   * if it is the backend's own; and then it has its row, queued until it starts,
   * and no slot it will not give back.
   */
  predicate UndisturbedAt(s: Sys, backend: ModelId, h: RequestId)
    requires h in s.handlers
  {
    var handler := s.handlers[h];
    && (Charge(handler.pc).Some? ==>
          (Charge(handler.pc).value in RowsOf(s.replicas, backend) <==> handler.backend == backend))
    && (handler.backend == backend ==>
          && !handler.pc.Leaked?
          && (handler.pc.Auditing? ==> handler.pc.freed)
          && (handler.pc != Gone ==> h in s.requests && (NotStarted(handler.pc) ==> s.requests[h].status == Queued)))
  }

  predicate Undisturbed(s: Sys, backend: ModelId) {
    forall h :: h in s.handlers ==> UndisturbedAt(s, backend, h)
  }

  lemma UndisturbedHasNoExceptions(s: Sys, backend: ModelId)
    requires Undisturbed(s, backend)
    ensures Stray(s, backend) == {} && Unqueued(s, backend) == {} && Orphaned(s, backend) == {}
  {
    forall h | h in s.handlers
      ensures h !in Stray(s, backend) && h !in Orphaned(s, backend) && h !in Unqueued(s, backend)
    {
      assert UndisturbedAt(s, backend, h);
    }
  }

  /**
   * Then, whatever has become of other backends' slots, the metric is the live
   * requests plus those placed but not yet marked, plus the one warm spare asked for
   * while there is any live request or a scale-up was signalled.
   */
  lemma DemandIsLiveWork(s: Sys, registry: Registry, backend: ModelId, recentlyRequested: bool)
    requires RowsMatchHandlers(s) && Conserved(s) && Undisturbed(s, backend)
    requires OneLevel(registry) && backend in Owners(registry) && BackendsResolved(s.handlers, registry)
    ensures var metric := KedaMetric(s, registry, backend, recentlyRequested);
            var live, unmarked := Live(s.handlers, backend), Unmarked(s.handlers, backend);
            && metric.inFlight + metric.queued == |live| + |unmarked|
            && metric.pendingRequests == |live| + |unmarked| + (if live != {} || recentlyRequested then 1 else 0)
  {
    DemandAccounting(s, registry, backend, recentlyRequested);
    UndisturbedHasNoExceptions(s, backend);
    assert Unmarked(s.handlers, backend) <= Live(s.handlers, backend);
    if Live(s.handlers, backend) == {} {
      assert Unmarked(s.handlers, backend) == {};
    }
  }

  /**
   * The events that put the metric out for a backend: an embedding call of its own
   * that throws, a queue sweep or retention that reaches one of its live requests,
   * and a reconcile pass that drops a replica it holds or moves a held one between
   * backends.
   */
  predicate Disturbs(s: Sys, e: Event, backend: ModelId) {
    match e
    case EmbeddingThrows(h) => h in s.handlers && s.handlers[h].backend == backend
    case QueueSweep(timeoutMs) =>
      exists h :: h in s.handlers && s.handlers[h].backend == backend && NotStarted(s.handlers[h].pc)
               && h in s.requests && QueueExpired(s.requests[h], s.clock, timeoutMs)
    case Retain(olderThanMs) =>
      exists h :: h in s.handlers && s.handlers[h].backend == backend && s.handlers[h].pc != Gone
               && h in s.requests && s.requests[h].arrivedAt < s.clock - olderThanMs
    case Prune(seen) =>
      exists h :: h in s.handlers && s.handlers[h].backend == backend
               && Charge(s.handlers[h].pc).Some? && Charge(s.handlers[h].pc).value !in seen
    case Upsert(r, model, _, _) =>
      exists h :: h in s.handlers && Charge(s.handlers[h].pc) == Some(r)
               && (s.handlers[h].backend == backend) != (model == backend)
    case _ => false
  }

  lemma ActorKeepsRowsOf(s: Sys, e: Event, h: RequestId, backend: ModelId)
    requires Actor(e) == Some(h)
    ensures RowsOf(Apply(s, e).replicas, backend) == RowsOf(s.replicas, backend)
  {
    ActorKeepsReplicas(s, e, h);
    forall r | r in s.replicas ensures Apply(s, e).replicas[r].modelId == s.replicas[r].modelId {
      ActorKeepsModel(s, e, h, r);
    }
  }

  lemma ActorKeepsModel(s: Sys, e: Event, h: RequestId, r: ReplicaId)
    requires Actor(e) == Some(h) && r in s.replicas && r in Apply(s, e).replicas
    ensures Apply(s, e).replicas[r].modelId == s.replicas[r].modelId
  {
  }

  lemma ActorIsUndisturbed(s: Sys, e: Event, h: RequestId, backend: ModelId)
    requires Actor(e) == Some(h) && !Disturbs(s, e, backend)
    requires h in s.handlers ==> UndisturbedAt(s, backend, h)
    ensures h in Apply(s, e).handlers ==> UndisturbedAt(Apply(s, e), backend, h)
  {
    ActorKeepsRowsOf(s, e, h, backend);
    if Opens(e) { OpeningIsUndisturbed(s, e, h, backend); } else { EndingIsUndisturbed(s, e, h, backend); }
  }

  lemma OpeningIsUndisturbed(s: Sys, e: Event, h: RequestId, backend: ModelId)
    requires Actor(e) == Some(h) && Opens(e)
    requires h in s.handlers ==> UndisturbedAt(s, backend, h)
    requires RowsOf(Apply(s, e).replicas, backend) == RowsOf(s.replicas, backend)
    ensures h in Apply(s, e).handlers ==> UndisturbedAt(Apply(s, e), backend, h)
  {
  }

  lemma EndingIsUndisturbed(s: Sys, e: Event, h: RequestId, backend: ModelId)
    requires Actor(e) == Some(h) && !Opens(e) && !Disturbs(s, e, backend)
    requires h in s.handlers ==> UndisturbedAt(s, backend, h)
    requires RowsOf(Apply(s, e).replicas, backend) == RowsOf(s.replicas, backend)
    ensures h in Apply(s, e).handlers ==> UndisturbedAt(Apply(s, e), backend, h)
  {
  }

  lemma TableStepIsUndisturbed(s: Sys, e: Event, h: RequestId, backend: ModelId)
    requires Actor(e).None? && !Disturbs(s, e, backend) && h in s.handlers && UndisturbedAt(s, backend, h)
    ensures h in Apply(s, e).handlers && UndisturbedAt(Apply(s, e), backend, h)
  {
  }

  lemma StepIsUndisturbed(s: Sys, e: Event, backend: ModelId)
    requires Undisturbed(s, backend) && !Disturbs(s, e, backend)
    ensures Undisturbed(Apply(s, e), backend)
  {
    var t := Apply(s, e);
    forall h | h in t.handlers ensures UndisturbedAt(t, backend, h) {
      match Actor(e)
      case None => TableStepIsUndisturbed(s, e, h, backend);
      case Some(g) =>
        if g == h {
          ActorIsUndisturbed(s, e, h, backend);
        } else {
          HandlersDoNotInterfere(s, e, h);
          ActorKeepsRowsOf(s, e, g, backend);
          assert UndisturbedAt(s, backend, h);
        }
    }
  }

  ghost predicate DisturbanceFree(s: Sys, events: seq<Event>, backend: ModelId)
    decreases |events|
  {
    events == [] || (!Disturbs(s, events[0], backend) && DisturbanceFree(Apply(s, events[0]), events[1..], backend))
  }

  lemma {:induction false} RunIsUndisturbed(s: Sys, events: seq<Event>, backend: ModelId)
    requires Undisturbed(s, backend) && DisturbanceFree(s, events, backend)
    ensures Undisturbed(Run(s, events), backend)
    decreases |events|
  {
    if events != [] {
      StepIsUndisturbed(s, events[0], backend);
      RunIsUndisturbed(Apply(s, events[0]), events[1..], backend);
    }
  }

  /** Handlers look their backend up when they arrive; with a fixed registry every run keeps that true. */
  lemma {:induction false} RunKeepsBackendsResolved(s: Sys, registry: Registry, events: seq<Event>)
    requires BackendsResolved(s.handlers, registry)
    requires forall e :: e in events && e.Arrive? ==> e.model in registry && e.backend == Resolve(registry, e.model)
    ensures BackendsResolved(Run(s, events).handlers, registry)
    decreases |events|
  {
    if events != [] {
      var t := Apply(s, events[0]);
      forall h | h in t.handlers
        ensures t.handlers[h].model in registry && t.handlers[h].backend == Resolve(registry, t.handlers[h].model)
      {
        if Actor(events[0]).Some? && Actor(events[0]).value != h { HandlersDoNotInterfere(s, events[0], h); }
      }
      RunKeepsBackendsResolved(t, registry, events[1..]);
    }
  }

  /** The account holds in every reachable drift-free state. */
  lemma ReachableDemand(s: Sys, events: seq<Event>, registry: Registry, backend: ModelId, recentlyRequested: bool)
    requires Initial(s) && DriftFree(s, events)
    requires forall e :: e in events && e.Arrive? ==> e.model in registry && e.backend == Resolve(registry, e.model)
    requires OneLevel(registry) && backend in Owners(registry)
    ensures var t := Run(s, events);
            var metric := KedaMetric(t, registry, backend, recentlyRequested);
            var demand := |Live(t.handlers, backend)| + |Unmarked(t.handlers, backend)|
                        + |Stray(t, backend)| - |Unqueued(t, backend)| - |Orphaned(t, backend)|;
            && metric.inFlight == |HoldersFor(t.handlers, backend)| + |Stray(t, backend)| - |Orphaned(t, backend)|
            && metric.inFlight + metric.queued == demand
            && metric.pendingRequests == demand + (if demand != 0 || recentlyRequested then 1 else 0)
  {
    InitialIsConserved(s);
    SlotsAreConserved(s, events);
    RunKeepsBackendsResolved(s, registry, events);
    DemandAccounting(Run(s, events), registry, backend, recentlyRequested);
  }

  /** In every state reached without a drift or one of those events, the metric is live work. */
  lemma ReachableDemandIsLiveWork(s: Sys, events: seq<Event>, registry: Registry, backend: ModelId, recentlyRequested: bool)
    requires Initial(s) && DriftFree(s, events) && DisturbanceFree(s, events, backend)
    requires forall e :: e in events && e.Arrive? ==> e.model in registry && e.backend == Resolve(registry, e.model)
    requires OneLevel(registry) && backend in Owners(registry)
    ensures var t := Run(s, events);
            var metric := KedaMetric(t, registry, backend, recentlyRequested);
            var live, unmarked := Live(t.handlers, backend), Unmarked(t.handlers, backend);
            && metric.inFlight + metric.queued == |live| + |unmarked|
            && metric.pendingRequests == |live| + |unmarked| + (if live != {} || recentlyRequested then 1 else 0)
  {
    InitialIsConserved(s);
    SlotsAreConserved(s, events);
    RunKeepsBackendsResolved(s, registry, events);
    RunIsUndisturbed(s, events, backend);
    DemandIsLiveWork(Run(s, events), registry, backend, recentlyRequested);
  }
}
