/**
 * The replica-slot protocol as a step machine: any number of router handlers,
 * the three sweeps, retention and the reconciler, all interleaved one SQL
 * statement (or transaction) at a time over the shared tables.
 *
 * An event that its handler is not in a position to take changes nothing, so a
 * run is any sequence of events at all and every interleaving is one.
 */
module Protocol {
  import opened Wrappers
  import opened Tables
  import opened Queue
  import opened Placement

  /**
   * Where a handler is. `freed` says whether the slot it holds has already been
   * released: completing a request whose row has been deleted releases nothing.
   */
  datatype Pc =
    | Enqueued
    | Waiting
    | Holding(replica: ReplicaId)
    | Generating(replica: ReplicaId)
    | Auditing(replica: ReplicaId, freed: bool)
    | Failing(replica: ReplicaId, freed: bool)
    | Leaked(replica: ReplicaId)
    | Gone

  datatype Handler = Handler(model: ModelId, backend: ModelId, pc: Pc)

  type Handlers = map<RequestId, Handler>

  datatype Sys = Sys(replicas: ReplicaTable, requests: RequestTable, handlers: Handlers, clock: Time)

  datatype Event =
    | Tick(ms: nat)
      // the handler's path, statement by statement
    | Arrive(h: RequestId, model: ModelId, backend: ModelId)
    | Route(h: RequestId)
    | ClaimAffine(h: RequestId, target: ReplicaId, locked: set<ReplicaId>)
    | ClaimLeast(h: RequestId, locked: set<ReplicaId>)
    | GiveUp(h: RequestId)
    | Start(h: RequestId)
    | Token(h: RequestId)
    | Complete(h: RequestId, tokens: int, streaming: bool)
    | AuditWritten(h: RequestId)
    | AuditThrows(h: RequestId, code: ErrorCode)
    | BackendThrows(h: RequestId, code: ErrorCode)
    | FreeAfterFailure(h: RequestId)
    | EmbeddingThrows(h: RequestId)
      // everything else that writes the tables
    | QueueSweep(timeoutMs: int)
    | StallSweep(thresholdMs: int)
    | ColdStartSweep(allowances: Allowances, defaultMs: int)
    | Retain(olderThanMs: int)
    | Upsert(r: ReplicaId, model: ModelId, status: ReplicaStatus, ceiling: Option<Ceiling>)
    | Prune(seen: set<ReplicaId>)

  predicate At(s: Sys, h: RequestId, pc: Pc) {
    h in s.handlers && s.handlers[h].pc == pc
  }

  function Moved(handlers: Handlers, h: RequestId, pc: Pc): Handlers
    requires h in handlers
  {
    handlers[h := handlers[h].(pc := pc)]
  }

  /** A handler that stops without releasing leaks its slot, if the slot's row is still there to leak from. */
  function Abandoned(replicas: ReplicaTable, r: ReplicaId): Pc {
    if r in replicas then Leaked(r) else Gone
  }

  function Retained(requests: RequestTable, now: Time, olderThanMs: int): RequestTable {
    map h | h in requests && !(requests[h].arrivedAt < now - olderThanMs) :: requests[h]
  }

  function LoadPct(inFlight: int, ceiling: Ceiling): real {
    var pct := inFlight as real / ceiling as real * 100.0;
    if pct > 100.0 then 100.0 else pct
  }

  /** The reconciler's INSERT ... ON CONFLICT DO UPDATE for one probe. */
  function Upserted(replicas: ReplicaTable, r: ReplicaId, model: ModelId, status: ReplicaStatus,
                    ceiling: Option<Ceiling>): ReplicaTable
  {
    if r in replicas then
      var was := replicas[r];
      var ceiling' := ceiling.GetOr(was.maxConcurrency);
      replicas[r := was.(modelId := model, status := status, maxConcurrency := ceiling',
                         loadPct := LoadPct(was.inFlight, ceiling'))]
    else
      replicas[r := Replica(model, status, 0, ceiling.GetOr(1), 0.0, None, None)]
  }

  /** DELETE FROM replicas WHERE NOT (id = ANY(seen)); a leaked slot disappears with its row. */
  function Pruned(replicas: ReplicaTable, seen: set<ReplicaId>): ReplicaTable {
    map r | r in replicas && r in seen :: replicas[r]
  }

  function Forgiven(handlers: Handlers, kept: ReplicaTable): Handlers {
    map h | h in handlers ::
      if handlers[h].pc.Leaked? && handlers[h].pc.replica !in kept then handlers[h].(pc := Gone) else handlers[h]
  }

  ghost function Apply(s: Sys, e: Event): Sys {
    match e
    case Tick(ms) => s.(clock := s.clock + ms)
    case Arrive(h, model, backend) =>
      if h in s.handlers then s
      else s.(requests := s.requests[h := NewRequest(s.clock)],
              handlers := s.handlers[h := Handler(model, backend, Enqueued)])
    case Route(h) =>
      if !At(s, h, Enqueued) then s
      else s.(requests := RouteTo(s.requests, h, s.handlers[h].model), handlers := Moved(s.handlers, h, Waiting))
    case ClaimAffine(h, target, locked) =>
      if !(At(s, h, Waiting) && target in Candidates(s.replicas, s.handlers[h].backend, locked)) then s
      else s.(replicas := Claim(s.replicas, target), handlers := Moved(s.handlers, h, Holding(target)))
    case ClaimLeast(h, locked) =>
      if !At(s, h, Waiting) then s
      else
        var choice := Selected(s.replicas, s.handlers[h].backend, locked, s.clock, THROUGHPUT_FRESH_MS);
        if choice.None? then s
        else s.(replicas := Claim(s.replicas, choice.value), handlers := Moved(s.handlers, h, Holding(choice.value)))
    case GiveUp(h) =>
      if !At(s, h, Waiting) then s
      else s.(requests := Expire(s.requests, h, s.clock), handlers := Moved(s.handlers, h, Gone))
    case Start(h) =>
      if !(h in s.handlers && s.handlers[h].pc.Holding?) then s
      else
        var r := s.handlers[h].pc.replica;
        s.(requests := MarkStarted(s.requests, h, r, s.clock), handlers := Moved(s.handlers, h, Generating(r)))
    case Token(h) =>
      if !(h in s.handlers && s.handlers[h].pc.Generating?) then s
      else s.(requests := RecordToken(s.requests, h, s.clock))
    case Complete(h, tokens, streaming) =>
      if !(h in s.handlers && s.handlers[h].pc.Generating?) then s
      else
        var r := s.handlers[h].pc.replica;
        var freed := h in s.requests;
        s.(requests := CompleteRequests(s.requests, h, tokens, s.clock),
           replicas := CompleteReplicas(s.replicas, s.requests, h, tokens, s.clock, EWMA_ALPHA),
           handlers := Moved(s.handlers, h,
                             if streaming then Auditing(r, freed)
                             else if freed then Gone else Abandoned(s.replicas, r)))
    case AuditWritten(h) =>
      if !(h in s.handlers && s.handlers[h].pc.Auditing?) then s
      else
        var pc := s.handlers[h].pc;
        s.(handlers := Moved(s.handlers, h, if pc.freed then Gone else Abandoned(s.replicas, pc.replica)))
    case AuditThrows(h, code) =>
      if !(h in s.handlers && s.handlers[h].pc.Auditing?) then s
      else
        var pc := s.handlers[h].pc;
        s.(requests := MarkFailed(s.requests, h, code, s.clock),
           handlers := Moved(s.handlers, h, Failing(pc.replica, pc.freed)))
    case BackendThrows(h, code) =>
      if !(h in s.handlers && s.handlers[h].pc.Generating?) then s
      else s.(requests := MarkFailed(s.requests, h, code, s.clock),
              handlers := Moved(s.handlers, h, Failing(s.handlers[h].pc.replica, false)))
    case FreeAfterFailure(h) =>
      if !(h in s.handlers && s.handlers[h].pc.Failing?) then s
      else s.(replicas := ReleaseSlot(s.replicas, s.handlers[h].pc.replica), handlers := Moved(s.handlers, h, Gone))
    case EmbeddingThrows(h) =>
      if !(h in s.handlers && s.handlers[h].pc.Generating?) then s
      else s.(handlers := Moved(s.handlers, h, Abandoned(s.replicas, s.handlers[h].pc.replica)))
    case QueueSweep(timeoutMs) => s.(requests := SweepQueue(s.requests, s.clock, timeoutMs))
    case StallSweep(thresholdMs) => s.(requests := SweepStalls(s.requests, s.clock, thresholdMs))
    case ColdStartSweep(allowances, defaultMs) =>
      s.(requests := SweepColdStarts(s.requests, allowances, s.clock, defaultMs))
    case Retain(olderThanMs) => s.(requests := Retained(s.requests, s.clock, olderThanMs))
    case Upsert(r, model, status, ceiling) => s.(replicas := Upserted(s.replicas, r, model, status, ceiling))
    case Prune(seen) =>
      var kept := Pruned(s.replicas, seen);
      s.(replicas := kept, handlers := Forgiven(s.handlers, kept))
  }

  ghost function Run(s: Sys, events: seq<Event>): Sys
    decreases |events|
  {
    if events == [] then s else Run(Apply(s, events[0]), events[1..])
  }

  ghost predicate Initial(s: Sys) {
    s.requests == map[] && s.handlers == map[] && forall r :: r in s.replicas ==> s.replicas[r].inFlight == 0
  }

  // ------------------------------------------------- what every step keeps

  predicate RowMatches(row: Request, handler: Handler, clock: Time) {
    && (match handler.pc
        case Enqueued => row.status in {Queued, QueueTimeout} && row.routedModel == None
        case Waiting => row.status in {Queued, QueueTimeout} && row.routedModel == Some(handler.model)
        case Holding(_) => row.status in {Queued, QueueTimeout} && row.routedModel == Some(handler.model)
        case Gone => row.status != Queued
        case _ => row.status != Queued && row.replicaId == Some(handler.pc.replica))
    && (handler.pc.Enqueued? || row.routedModel == Some(handler.model))
    && (handler.pc.Enqueued? || handler.pc.Waiting? || handler.pc.Holding? ==> row.startedAt == None)
    && (handler.pc.Generating? ==> row.startedAt.Some?)
    && OrderedTimes(row, clock)
  }

  /** arrived <= started <= first token <= last token <= now, as far as each has happened. */
  predicate OrderedTimes(row: Request, clock: Time) {
    && row.arrivedAt <= clock
    && (row.startedAt.Some? <==> row.lastTokenAt.Some?)
    && (row.firstTokenAt.Some? ==> row.startedAt.Some?)
    && (row.startedAt.Some? ==> row.arrivedAt <= row.startedAt.value <= row.lastTokenAt.value <= clock)
    && (row.firstTokenAt.Some? ==> row.startedAt.value <= row.firstTokenAt.value <= row.lastTokenAt.value)
  }

  /** Every request row belongs to a handler, and says what that handler has done to it. */
  ghost predicate RowsMatchHandlers(s: Sys) {
    forall h :: h in s.requests ==> h in s.handlers && RowMatches(s.requests[h], s.handlers[h], s.clock)
  }

  function Actor(e: Event): Option<RequestId> {
    if e.Arrive? || e.Route? || e.ClaimAffine? || e.ClaimLeast? || e.GiveUp? || e.Start? || e.Token? || e.Complete?
       || e.AuditWritten? || e.AuditThrows? || e.BackendThrows? || e.FreeAfterFailure? || e.EmbeddingThrows?
    then Some(e.h) else None
  }

  ghost predicate Apart(s: Sys, t: Sys, g: RequestId) {
    && (g in t.requests <==> g in s.requests)
    && (g in s.requests ==> t.requests[g] == s.requests[g])
    && (g in t.handlers <==> g in s.handlers)
    && (g in s.handlers ==> t.handlers[g] == s.handlers[g])
    && t.clock == s.clock
  }

  /** A handler's statements touch no other request's row and no other handler. */
  lemma HandlersDoNotInterfere(s: Sys, e: Event, g: RequestId)
    requires Actor(e).Some? && Actor(e).value != g
    ensures Apart(s, Apply(s, e), g)
  {
    if Opens(e) { OpeningKeepsApart(s, e, g); } else { EndingKeepsApart(s, e, g); }
  }

  lemma OpeningKeepsApart(s: Sys, e: Event, g: RequestId)
    requires Actor(e).Some? && Actor(e).value != g && Opens(e)
    ensures Apart(s, Apply(s, e), g)
  {
  }

  lemma EndingKeepsApart(s: Sys, e: Event, g: RequestId)
    requires Actor(e).Some? && Actor(e).value != g && !Opens(e)
    ensures Apart(s, Apply(s, e), g)
  {
  }

  lemma ActorKeepsItsRow(s: Sys, e: Event, h: RequestId)
    requires Actor(e) == Some(h)
    requires h in s.requests ==> h in s.handlers && RowMatches(s.requests[h], s.handlers[h], s.clock)
    ensures var t := Apply(s, e);
            h in t.requests ==> h in t.handlers && RowMatches(t.requests[h], t.handlers[h], t.clock)
  {
    if Opens(e) { OpeningKeepsItsRow(s, e, h); } else { EndingKeepsItsRow(s, e, h); }
  }

  /** The half of a handler's path up to its first token. */
  predicate Opens(e: Event) {
    e.Arrive? || e.Route? || e.ClaimAffine? || e.ClaimLeast? || e.GiveUp? || e.Start?
  }

  lemma OpeningKeepsItsRow(s: Sys, e: Event, h: RequestId)
    requires Actor(e) == Some(h) && Opens(e)
    requires h in s.requests ==> h in s.handlers && RowMatches(s.requests[h], s.handlers[h], s.clock)
    ensures var t := Apply(s, e);
            h in t.requests ==> h in t.handlers && RowMatches(t.requests[h], t.handlers[h], t.clock)
  {
  }

  lemma EndingKeepsItsRow(s: Sys, e: Event, h: RequestId)
    requires Actor(e) == Some(h) && !Opens(e)
    requires h in s.requests ==> h in s.handlers && RowMatches(s.requests[h], s.handlers[h], s.clock)
    ensures var t := Apply(s, e);
            h in t.requests ==> h in t.handlers && RowMatches(t.requests[h], t.handlers[h], t.clock)
  {
  }

  lemma TableStepsKeepRows(s: Sys, e: Event, h: RequestId)
    requires Actor(e).None?
    requires h in s.requests ==> h in s.handlers && RowMatches(s.requests[h], s.handlers[h], s.clock)
    ensures var t := Apply(s, e);
            h in t.requests ==> h in t.handlers && RowMatches(t.requests[h], t.handlers[h], t.clock)
  {
  }

  lemma StepKeepsRows(s: Sys, e: Event)
    requires RowsMatchHandlers(s)
    ensures RowsMatchHandlers(Apply(s, e))
  {
    var t := Apply(s, e);
    forall h | h in t.requests
      ensures h in t.handlers && RowMatches(t.requests[h], t.handlers[h], t.clock)
    {
      match Actor(e)
      case None => TableStepsKeepRows(s, e, h);
      case Some(g) =>
        if g == h { ActorKeepsItsRow(s, e, h); } else { HandlersDoNotInterfere(s, e, h); }
    }
  }

  lemma {:induction false} RunKeepsRows(s: Sys, events: seq<Event>)
    requires RowsMatchHandlers(s)
    ensures RowsMatchHandlers(Run(s, events))
    decreases |events|
  {
    if events != [] {
      StepKeepsRows(s, events[0]);
      RunKeepsRows(Apply(s, events[0]), events[1..]);
    }
  }
}
