/**
 * The clocks never kill work that is progressing: over any run, a stream is
 * swept exactly when a sweep meets a silence longer than the allowance it is under.
 */
module Progress {
  import opened Wrappers
  import opened Tables
  import opened Queue
  import opened Placement
  import opened Protocol

  /**
   * What a sweep must find to leave a stream alone: after the first token, a
   * last token within the stall threshold; before it, a start within the
   * model's first-token allowance (or a model the registry does not list).
   */
  predicate Spares(e: Event, row: Request, now: Time) {
    match e
    case StallSweep(thresholdMs) =>
      row.firstTokenAt.Some? && row.lastTokenAt.Some? ==> now - row.lastTokenAt.value <= thresholdMs
    case ColdStartSweep(allowances, defaultMs) =>
      row.firstTokenAt.None? && row.startedAt.Some? && row.routedModel.Some? && row.routedModel.value in allowances
      ==> now - row.startedAt.value <= allowances[row.routedModel.value].GetOr(defaultMs)
    case _ => true
  }

  /**
   * The silences of one stream, read off the events alone: the clock adds to the
   * current one and the stream's own tokens end it. No stall sweep meets one longer
   * than its threshold once a token has come, and no first-token sweep one longer
   * than the model's allowance before that.
   */
  predicate NeverSilentTooLong(events: seq<Event>, h: RequestId, model: ModelId, seen: bool, silence: int) {
    events == [] ||
    var rest := events[1..];
    match events[0]
    case Tick(ms) => NeverSilentTooLong(rest, h, model, seen, silence + ms)
    case Token(g) =>
      if g == h then NeverSilentTooLong(rest, h, model, true, 0) else NeverSilentTooLong(rest, h, model, seen, silence)
    case StallSweep(thresholdMs) =>
      (seen ==> silence <= thresholdMs) && NeverSilentTooLong(rest, h, model, seen, silence)
    case ColdStartSweep(allowances, defaultMs) =>
      && (!seen && model in allowances ==> silence <= allowances[model].GetOr(defaultMs))
      && NeverSilentTooLong(rest, h, model, seen, silence)
    case _ => NeverSilentTooLong(rest, h, model, seen, silence)
  }

  function SilenceOf(row: Request, now: Time): int
    requires row.startedAt.Some? && row.lastTokenAt.Some?
  {
    now - (if row.firstTokenAt.Some? then row.lastTokenAt.value else row.startedAt.value)
  }

  /** A stream in progress: `seen` and `silence` are how its next event finds it. */
  ghost predicate Flowing(s: Sys, h: RequestId, model: ModelId, seen: bool, silence: int) {
    && InGeneration(s, h)
    && s.requests[h].startedAt.Some? && s.requests[h].lastTokenAt.Some?
    && s.requests[h].routedModel == Some(model)
    && seen == s.requests[h].firstTokenAt.Some?
    && silence == SilenceOf(s.requests[h], s.clock)
  }

  /** The handler's own ending, or retention deleting the row: not what the clocks decide. */
  predicate Ends(e: Event, h: RequestId) {
    || e.Retain?
    || ((e.Complete? || e.BackendThrows? || e.EmbeddingThrows?) && e.h == h)
  }

  ghost predicate InGeneration(s: Sys, h: RequestId) {
    h in s.requests && h in s.handlers && s.handlers[h].pc.Generating?
  }

  lemma GenerationStep(s: Sys, e: Event, h: RequestId)
    requires InGeneration(s, h) && !Ends(e, h)
    ensures var t := Apply(s, e);
            && InGeneration(t, h)
            && (t.requests[h].status == Streaming <==>
                  (s.requests[h].status == Streaming && Spares(e, s.requests[h], s.clock)))
  {
    if Actor(e).Some? && Actor(e).value != h { HandlersDoNotInterfere(s, e, h); }
  }

  lemma {:induction false} OnceSweptStaysSwept(s: Sys, events: seq<Event>, h: RequestId)
    requires InGeneration(s, h) && forall e :: e in events ==> !Ends(e, h)
    requires s.requests[h].status != Streaming
    ensures InGeneration(Run(s, events), h) && Run(s, events).requests[h].status != Streaming
    decreases |events|
  {
    if events != [] {
      GenerationStep(s, events[0], h);
      OnceSweptStaysSwept(Apply(s, events[0]), events[1..], h);
    }
  }

  /** How one event leaves the silence of a stream in progress. */
  lemma SilenceStep(s: Sys, e: Event, h: RequestId, model: ModelId, seen: bool, silence: int)
    requires Flowing(s, h, model, seen, silence) && !Ends(e, h)
    ensures Flowing(Apply(s, e), h, model, seen || e == Token(h),
                    if e == Token(h) then 0 else if e.Tick? then silence + e.ms else silence)
  {
    match Actor(e)
    case None => SilenceOverTableStep(s, e, h, model, seen, silence);
    case Some(g) =>
      if g == h { SilenceOverOwnStep(s, e, h, model, seen, silence); } else { HandlersDoNotInterfere(s, e, h); }
  }

  lemma SilenceOverTableStep(s: Sys, e: Event, h: RequestId, model: ModelId, seen: bool, silence: int)
    requires Flowing(s, h, model, seen, silence) && Actor(e).None? && !e.Retain?
    ensures Flowing(Apply(s, e), h, model, seen, if e.Tick? then silence + e.ms else silence)
  {
  }

  lemma SilenceOverOwnStep(s: Sys, e: Event, h: RequestId, model: ModelId, seen: bool, silence: int)
    requires Flowing(s, h, model, seen, silence) && Actor(e) == Some(h) && !Ends(e, h)
    ensures Flowing(Apply(s, e), h, model, seen || e.Token?, if e.Token? then 0 else silence)
  {
  }

  lemma {:induction false} SilenceDecides(s: Sys, events: seq<Event>, h: RequestId, model: ModelId, seen: bool, silence: int)
    requires Flowing(s, h, model, seen, silence) && s.requests[h].status == Streaming
    requires forall e :: e in events ==> !Ends(e, h)
    ensures InGeneration(Run(s, events), h)
    ensures Run(s, events).requests[h].status == Streaming <==> NeverSilentTooLong(events, h, model, seen, silence)
    decreases |events|
  {
    if events != [] {
      var e, t := events[0], Apply(s, events[0]);
      GenerationStep(s, e, h);
      SilenceStep(s, e, h, model, seen, silence);
      if t.requests[h].status == Streaming {
        SilenceDecides(t, events[1..], h, model, seen || e == Token(h),
                       if e == Token(h) then 0 else if e.Tick? then silence + e.ms else silence);
      } else {
        OnceSweptStaysSwept(t, events[1..], h);
      }
    }
  }

  /**
   * However long a stream runs and whatever else happens, from the moment it starts
   * it is still streaming exactly when no sweep has met too long a silence.
   */
  lemma SweptExactlyWhenSilent(s: Sys, events: seq<Event>, h: RequestId)
    requires RowsMatchHandlers(s)
    requires h in s.requests && h in s.handlers && s.handlers[h].pc.Holding?
    requires forall e :: e in events ==> !Ends(e, h)
    ensures var t := Run(Apply(s, Start(h)), events);
            && InGeneration(t, h)
            && (t.requests[h].status == Streaming
                <==> NeverSilentTooLong(events, h, s.handlers[h].model, false, 0))
  {
    var started := Apply(s, Start(h));
    assert RowMatches(s.requests[h], s.handlers[h], s.clock);
    SilenceDecides(started, events, h, s.handlers[h].model, false, 0);
  }

  // ---------------------------------------------------------- while it is queued

  /** No queue sweep meets a wait, the clock's ticks added up, longer than its timeout. */
  predicate NeverWaitedTooLong(events: seq<Event>, waited: int) {
    events == [] ||
    match events[0]
    case Tick(ms) => NeverWaitedTooLong(events[1..], waited + ms)
    case QueueSweep(timeoutMs) => waited <= timeoutMs && NeverWaitedTooLong(events[1..], waited)
    case _ => NeverWaitedTooLong(events[1..], waited)
  }

  /** The handler starting or giving up, or retention deleting the row. */
  predicate Leaves(e: Event, h: RequestId) {
    e.Retain? || ((e.Start? || e.GiveUp?) && e.h == h)
  }

  ghost predicate InQueue(s: Sys, h: RequestId, waited: int) {
    && h in s.requests && h in s.handlers
    && (s.handlers[h].pc.Enqueued? || s.handlers[h].pc.Waiting? || s.handlers[h].pc.Holding?)
    && s.clock - s.requests[h].arrivedAt == waited
  }

  lemma QueueStep(s: Sys, e: Event, h: RequestId, waited: int)
    requires InQueue(s, h, waited) && !Leaves(e, h)
    ensures var t := Apply(s, e);
            && InQueue(t, h, if e.Tick? then waited + e.ms else waited)
            && (t.requests[h].status == Queued
                <==> s.requests[h].status == Queued && (e.QueueSweep? ==> waited <= e.timeoutMs))
  {
    match Actor(e)
    case None => QueueTableStep(s, e, h, waited);
    case Some(g) =>
      if g == h { QueueOwnStep(s, e, h, waited); } else { HandlersDoNotInterfere(s, e, h); }
  }

  lemma QueueTableStep(s: Sys, e: Event, h: RequestId, waited: int)
    requires InQueue(s, h, waited) && Actor(e).None? && !e.Retain?
    ensures var t := Apply(s, e);
            && InQueue(t, h, if e.Tick? then waited + e.ms else waited)
            && (t.requests[h].status == Queued
                <==> s.requests[h].status == Queued && (e.QueueSweep? ==> waited <= e.timeoutMs))
  {
  }

  lemma QueueOwnStep(s: Sys, e: Event, h: RequestId, waited: int)
    requires InQueue(s, h, waited) && Actor(e) == Some(h) && !Leaves(e, h)
    ensures InQueue(Apply(s, e), h, waited)
    ensures Apply(s, e).requests[h].status == s.requests[h].status
  {
  }

  lemma {:induction false} OnceExpiredStaysExpired(s: Sys, events: seq<Event>, h: RequestId, waited: int)
    requires InQueue(s, h, waited) && s.requests[h].status != Queued
    requires forall e :: e in events ==> !Leaves(e, h)
    ensures h in Run(s, events).requests && Run(s, events).requests[h].status != Queued
    decreases |events|
  {
    if events != [] {
      QueueStep(s, events[0], h, waited);
      OnceExpiredStaysExpired(Apply(s, events[0]), events[1..], h, if events[0].Tick? then waited + events[0].ms else waited);
    }
  }

  lemma {:induction false} WaitDecides(s: Sys, events: seq<Event>, h: RequestId, waited: int)
    requires InQueue(s, h, waited) && s.requests[h].status == Queued
    requires forall e :: e in events ==> !Leaves(e, h)
    ensures h in Run(s, events).requests
    ensures Run(s, events).requests[h].status == Queued <==> NeverWaitedTooLong(events, waited)
    decreases |events|
  {
    if events != [] {
      var e, t := events[0], Apply(s, events[0]);
      var waited' := if e.Tick? then waited + e.ms else waited;
      QueueStep(s, e, h, waited);
      if t.requests[h].status == Queued {
        WaitDecides(t, events[1..], h, waited');
      } else {
        OnceExpiredStaysExpired(t, events[1..], h, waited');
      }
    }
  }

  /**
   * From arrival until its handler starts or gives up, whatever else happens, a request
   * is still queued exactly when no queue sweep has met too long a wait.
   */
  lemma SweptFromTheQueueExactlyWhenOverdue(s: Sys, h: RequestId, model: ModelId, backend: ModelId, events: seq<Event>)
    requires h !in s.handlers
    requires forall e :: e in events ==> !Leaves(e, h)
    ensures var t := Run(Apply(s, Arrive(h, model, backend)), events);
            && h in t.requests
            && (t.requests[h].status == Queued <==> NeverWaitedTooLong(events, 0))
  {
    WaitDecides(Apply(s, Arrive(h, model, backend)), events, h, 0);
  }

  // ------------------------------------------------------------------ timestamps

  /** In every reachable state: arrived <= started <= first token <= last token <= now. */
  lemma TimesAreOrdered(s: Sys, events: seq<Event>, h: RequestId)
    requires Initial(s) && h in Run(s, events).requests
    ensures OrderedTimes(Run(s, events).requests[h], Run(s, events).clock)
  {
    RunKeepsRows(s, events);
    var t := Run(s, events);
    assert RowMatches(t.requests[h], t.handlers[h], t.clock);
  }

  lemma FirstTokenStep(s: Sys, e: Event, h: RequestId)
    requires h in s.requests && h in s.handlers && h in Apply(s, e).requests && s.requests[h].firstTokenAt.Some?
    ensures h in Apply(s, e).handlers && Apply(s, e).requests[h].firstTokenAt == s.requests[h].firstTokenAt
  {
    if Actor(e).Some? && Actor(e).value != h { HandlersDoNotInterfere(s, e, h); }
  }

  lemma DeletedStaysDeleted(s: Sys, e: Event, h: RequestId)
    requires h !in s.requests && h in s.handlers
    ensures h !in Apply(s, e).requests && h in Apply(s, e).handlers
  {
    if Actor(e).Some? && Actor(e).value != h { HandlersDoNotInterfere(s, e, h); }
  }

  lemma {:induction false} DeletedForGood(s: Sys, events: seq<Event>, h: RequestId)
    requires h !in s.requests && h in s.handlers
    ensures h !in Run(s, events).requests
    decreases |events|
  {
    if events != [] {
      DeletedStaysDeleted(s, events[0], h);
      DeletedForGood(Apply(s, events[0]), events[1..], h);
    }
  }

  /** first_token_at is stamped once: no later event of any kind moves it while the row exists. */
  lemma {:induction false} FirstTokenIsStampedOnce(s: Sys, events: seq<Event>, h: RequestId)
    requires h in s.requests && h in s.handlers && s.requests[h].firstTokenAt.Some?
    requires h in Run(s, events).requests
    ensures Run(s, events).requests[h].firstTokenAt == s.requests[h].firstTokenAt
    decreases |events|
  {
    if events != [] {
      var t := Apply(s, events[0]);
      if h in t.requests {
        FirstTokenStep(s, events[0], h);
        FirstTokenIsStampedOnce(t, events[1..], h);
      } else {
        HandlersSurvive(s, events[0], h);
        DeletedForGood(t, events[1..], h);
        assert false;
      }
    }
  }

  lemma HandlersSurvive(s: Sys, e: Event, h: RequestId)
    requires h in s.handlers
    ensures h in Apply(s, e).handlers
  {
  }

  /**
   * Timeout statuses are not final. A request swept out of the queue while its
   * handler was being placed streams anyway, still carrying the completion time
   * and error code of the sweep; and once it is generating, completing or
   * failing overwrites any status a sweep has given it.
   */
  lemma SweptStatusesAreOverwritten(s: Sys, h: RequestId, tokens: int, streaming: bool, code: ErrorCode)
    requires h in s.requests && h in s.handlers
    ensures s.handlers[h].pc.Holding? ==>
              var row := Apply(s, Start(h)).requests[h];
              && row.status == Streaming
              && row.errorCode == s.requests[h].errorCode
              && row.completedAt == s.requests[h].completedAt
    ensures s.handlers[h].pc.Generating? ==>
              && Apply(s, Complete(h, tokens, streaming)).requests[h].status == Completed
              && Apply(s, Complete(h, tokens, streaming)).requests[h].errorCode == s.requests[h].errorCode
              && Apply(s, BackendThrows(h, code)).requests[h].status == StatusFor(code)
  {
  }
}
