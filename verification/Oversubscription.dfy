/**
 * The ceiling: no interleaving, however it leaks, runs more work on a replica
 * than the replica admits, unless accounting has drifted or the ceiling itself
 * was lowered. Concrete runs show that each of the two drifts does break it.
 */
module Oversubscription {
  import opened Wrappers
  import opened Tables
  import opened Queue
  import opened Placement
  import opened Protocol
  import opened Conservation

  predicate WithinCeilings(replicas: ReplicaTable) {
    forall r :: r in replicas ==> 0 <= replicas[r].inFlight <= replicas[r].maxConcurrency
  }

  /** The reconciler only ever raises the ceilings of the rows that stay. */
  ghost predicate CeilingsNeverDrop(s: Sys, events: seq<Event>)
    decreases |events|
  {
    events == [] ||
    (var t := Apply(s, events[0]);
     && (forall r :: r in s.replicas && r in t.replicas ==>
           s.replicas[r].maxConcurrency <= t.replicas[r].maxConcurrency)
     && CeilingsNeverDrop(t, events[1..]))
  }

  /** in_flight of a surviving row rises only by a claim, one at a time, from below its ceiling. */
  lemma RisesOnlyBelowTheCeiling(s: Sys, e: Event, r: ReplicaId)
    requires r in s.replicas && s.replicas[r].inFlight >= 0 && r in Apply(s, e).replicas
    ensures var was, now := s.replicas[r], Apply(s, e).replicas[r];
            now.inFlight > was.inFlight ==>
              && now.inFlight == was.inFlight + 1
              && was.inFlight < was.maxConcurrency == now.maxConcurrency
    ensures Apply(s, e).replicas[r].inFlight >= 0
  {
  }

  lemma NewRowsStartEmpty(s: Sys, e: Event, r: ReplicaId)
    requires r !in s.replicas && r in Apply(s, e).replicas
    ensures Apply(s, e).replicas[r].inFlight == 0
  {
  }

  /** Leaks and drifts included: while ceilings do not drop, in_flight stays between 0 and the ceiling. */
  lemma {:induction false} InFlightStaysWithinCeilings(s: Sys, events: seq<Event>)
    requires WithinCeilings(s.replicas) && CeilingsNeverDrop(s, events)
    ensures WithinCeilings(Run(s, events).replicas)
    decreases |events|
  {
    if events != [] {
      var t := Apply(s, events[0]);
      forall r | r in t.replicas
        ensures 0 <= t.replicas[r].inFlight <= t.replicas[r].maxConcurrency
      {
        if r in s.replicas { RisesOnlyBelowTheCeiling(s, events[0], r); } else { NewRowsStartEmpty(s, events[0], r); }
      }
      InFlightStaysWithinCeilings(t, events[1..]);
    }
  }

  /** So the handlers actually running on a replica never exceed its ceiling, even when slots have leaked. */
  lemma NeverOversubscribed(s: Sys, events: seq<Event>, r: ReplicaId)
    requires Initial(s) && DriftFree(s, events) && CeilingsNeverDrop(s, events)
    requires r in Run(s, events).replicas
    ensures var t := Run(s, events);
            |LiveHolders(t.handlers, r)| <= t.replicas[r].inFlight <= t.replicas[r].maxConcurrency
  {
    InFlightStaysWithinCeilings(s, events);
    ReachableAccounting(s, events, r);
  }

  // ------------------------------------------------- drifts, and what they cost

  /**
   * By how much in_flight may fall short of the handlers it should count: one more
   * for each second release, and from scratch, the holders still about, when the row
   * comes back as a new one.
   */
  function Debt(s: Sys, e: Event, r: ReplicaId, debt: nat): nat {
    if FreesTwice(s, e) && s.handlers[e.h].pc.replica == r then debt + 1
    else if e.Upsert? && e.r == r && r !in s.replicas then |Charged(s.handlers, r)|
    else debt
  }

  ghost function DebtAfter(s: Sys, events: seq<Event>, r: ReplicaId, debt: nat): nat
    decreases |events|
  {
    if events == [] then debt else DebtAfter(Apply(s, events[0]), events[1..], r, Debt(s, events[0], r, debt))
  }

  /** in_flight falls short of the handlers charged to the row by no more than the debt. */
  predicate ShortBy(s: Sys, r: ReplicaId, debt: nat) {
    r in s.replicas ==> 0 <= s.replicas[r].inFlight && |Charged(s.handlers, r)| <= s.replicas[r].inFlight + debt
  }

  lemma SecondReleaseCostsOne(s: Sys, e: Event, r: ReplicaId)
    requires FreesTwice(s, e) && r in s.replicas && s.replicas[r].inFlight >= 0
    ensures var t := Apply(s, e);
            && r in t.replicas
            && t.replicas[r].inFlight >= 0
            && t.replicas[r].inFlight >= s.replicas[r].inFlight - (if s.handlers[e.h].pc.replica == r then 1 else 0)
            && |Charged(t.handlers, r)| == |Charged(s.handlers, r)|
  {
    ActorCharge(s, e, e.h, r);
  }

  lemma TableStepKeepsCharges(s: Sys, e: Event, r: ReplicaId)
    requires Actor(e).None? && r in Apply(s, e).replicas
    ensures Charged(Apply(s, e).handlers, r) == Charged(s.handlers, r)
    ensures Apply(s, e).replicas[r].inFlight == if r in s.replicas then s.replicas[r].inFlight else 0
    ensures r !in s.replicas ==> e.Upsert? && e.r == r
  {
    if e.Prune? { ForgivingKeepsCharges(s.handlers, Apply(s, e).replicas, r); }
  }

  lemma StepShortBy(s: Sys, e: Event, r: ReplicaId, debt: nat)
    requires RowsMatchHandlers(s) && ShortBy(s, r, debt)
    ensures ShortBy(Apply(s, e), r, Debt(s, e, r, debt))
  {
    if r in Apply(s, e).replicas {
      match Actor(e)
      case None => TableStepKeepsCharges(s, e, r);
      case Some(h) =>
        ActorKeepsReplicas(s, e, h);
        if FreesTwice(s, e) {
          SecondReleaseCostsOne(s, e, r);
        } else {
          ActorDelta(s, e, h, r);
          ActorCharge(s, e, h, r);
        }
    }
  }

  lemma {:induction false} RunShortBy(s: Sys, events: seq<Event>, r: ReplicaId, debt: nat)
    requires RowsMatchHandlers(s) && ShortBy(s, r, debt)
    ensures ShortBy(Run(s, events), r, DebtAfter(s, events, r, debt))
    decreases |events|
  {
    if events != [] {
      StepKeepsRows(s, events[0]);
      StepShortBy(s, events[0], r, debt);
      RunShortBy(Apply(s, events[0]), events[1..], r, Debt(s, events[0], r, debt));
    }
  }

  /** Over every run, drifts included: oversubscription is never worse than the drifts that have happened. */
  lemma OversubscribedByTheDebtAtMost(s: Sys, events: seq<Event>, r: ReplicaId)
    requires Initial(s) && CeilingsNeverDrop(s, events) && r in Run(s, events).replicas
    ensures var t := Run(s, events);
            |LiveHolders(t.handlers, r)| <= t.replicas[r].inFlight + DebtAfter(s, events, r, 0)
                                         <= t.replicas[r].maxConcurrency + DebtAfter(s, events, r, 0)
  {
    InitialIsConserved(s);
    RunShortBy(s, events, r, 0);
    InFlightStaysWithinCeilings(s, events);
    ChargedAreLiveOrLeaked(Run(s, events).handlers, r);
  }

  /** Before every event of the run the row is present and at or above its ceiling. */
  ghost predicate SaturatedThroughout(s: Sys, events: seq<Event>, r: ReplicaId)
    decreases |events|
  {
    events == [] ||
    (&& r in s.replicas
     && s.replicas[r].inFlight >= s.replicas[r].maxConcurrency
     && SaturatedThroughout(Apply(s, events[0]), events[1..], r))
  }

  /** After a ceiling drops, in_flight cannot rise again until it has been back under the ceiling. */
  lemma {:induction false} CannotRiseWhileSaturated(s: Sys, events: seq<Event>, r: ReplicaId)
    requires r in s.replicas && s.replicas[r].inFlight >= 0 && SaturatedThroughout(s, events, r)
    requires r in Run(s, events).replicas
    ensures Run(s, events).replicas[r].inFlight <= s.replicas[r].inFlight
    decreases |events|
  {
    if events != [] {
      var t := Apply(s, events[0]);
      if r in t.replicas {
        RisesOnlyBelowTheCeiling(s, events[0], r);
        CannotRiseWhileSaturated(t, events[1..], r);
      }
    }
  }

  // --------------------------------------------------------- how drift hurts

  const A := RequestId(1)
  const B := RequestId(2)
  const C := RequestId(3)
  const R := ReplicaId(0)

  function OneSlot(): Sys {
    Sys(map[R := Replica("m", Ready, 0, 1, 0.0, None, None)], map[], map[], 0)
  }

  function Admit(h: RequestId): seq<Event> {
    [Arrive(h, "m", "m"), Route(h), ClaimAffine(h, R, {}), Start(h)]
  }

  lemma {:induction false} RunConcat(s: Sys, xs: seq<Event>, ys: seq<Event>)
    ensures Run(s, xs + ys) == Run(Run(s, xs), ys)
    decreases |xs|
  {
    if xs == [] {
      assert xs + ys == ys;
    } else {
      assert (xs + ys)[0] == xs[0] && (xs + ys)[1..] == xs[1..] + ys;
      RunConcat(Apply(s, xs[0]), xs[1..], ys);
    }
  }

  /** What admitting one fresh handler does while R has headroom. */
  lemma AdmitTakesOneSlot(s: Sys, h: RequestId)
    requires h !in s.handlers && R in s.replicas && Eligible(s.replicas[R], "m")
    ensures var t := Run(s, Admit(h));
            && t.replicas == Claim(s.replicas, R)
            && t.handlers == s.handlers[h := Handler("m", "m", Generating(R))]
            && t.requests.Keys == s.requests.Keys + {h}
            && (forall g :: g in s.requests && g != h ==> t.requests[g] == s.requests[g])
            && t.requests[h].replicaId == Some(R)
  {
    var first, second := [Arrive(h, "m", "m"), Route(h)], [ClaimAffine(h, R, {}), Start(h)];
    assert Admit(h) == first + second;
    RunConcat(s, first, second);
    ArrivedAndRouted(s, h);
    ClaimedAndStarted(Run(s, first), h);
  }

  lemma ArrivedAndRouted(s: Sys, h: RequestId)
    requires h !in s.handlers
    ensures var t := Run(s, [Arrive(h, "m", "m"), Route(h)]);
            && t.replicas == s.replicas
            && t.handlers == s.handlers[h := Handler("m", "m", Waiting)]
            && t.requests.Keys == s.requests.Keys + {h}
            && (forall g :: g in s.requests && g != h ==> t.requests[g] == s.requests[g])
  {
    RunTwo(s, Arrive(h, "m", "m"), Route(h));
  }

  lemma ClaimedAndStarted(s: Sys, h: RequestId)
    requires h in s.handlers && s.handlers[h] == Handler("m", "m", Waiting) && h in s.requests
    requires R in s.replicas && Eligible(s.replicas[R], "m")
    ensures var t := Run(s, [ClaimAffine(h, R, {}), Start(h)]);
            && t.replicas == Claim(s.replicas, R)
            && t.handlers == s.handlers[h := Handler("m", "m", Generating(R))]
            && t.requests.Keys == s.requests.Keys
            && (forall g :: g in s.requests && g != h ==> t.requests[g] == s.requests[g])
            && t.requests[h].replicaId == Some(R)
  {
    RunTwo(s, ClaimAffine(h, R, {}), Start(h));
    assert R in Candidates(s.replicas, "m", {});
  }

  lemma RunOne(s: Sys, e: Event)
    ensures Run(s, [e]) == Apply(s, e)
  {
    assert [e][1..] == [];
    assert Run(Apply(s, e), []) == Apply(s, e);
  }

  lemma RunTwo(s: Sys, d: Event, e: Event)
    ensures Run(s, [d, e]) == Apply(Apply(s, d), e)
  {
    assert [d, e][1..] == [e];
    RunOne(Apply(s, d), e);
  }

  /** Completing, then failing because the audit write threw, releases one handler's slot and another's. */
  lemma SecondReleaseTakesAnothersSlot(s: Sys, h: RequestId)
    requires At(s, h, Auditing(R, true)) && R in s.replicas && s.replicas[R].inFlight == 1
    ensures var t := Run(s, [AuditThrows(h, CodeReplicaUnavailable), FreeAfterFailure(h)]);
            && t.handlers == s.handlers[h := s.handlers[h].(pc := Gone)]
            && t.replicas == s.replicas[R := s.replicas[R].(inFlight := 0)]
  {
    RunTwo(s, AuditThrows(h, CodeReplicaUnavailable), FreeAfterFailure(h));
  }

  lemma CompletionFrees(s: Sys, h: RequestId)
    requires At(s, h, Generating(R)) && h in s.requests && s.requests[h].replicaId == Some(R)
    requires R in s.replicas && s.replicas[R].inFlight == 1
    ensures var t := Run(s, [Complete(h, 0, true)]);
            && t.handlers == s.handlers[h := s.handlers[h].(pc := Auditing(R, true))]
            && t.replicas == s.replicas[R := s.replicas[R].(inFlight := 0)]
  {
    RunOne(s, Complete(h, 0, true));
  }

  lemma ReturningRowStartsEmpty(s: Sys)
    requires forall h :: h in s.handlers ==> !s.handlers[h].pc.Leaked?
    ensures var t := Run(s, [Prune({}), Upsert(R, "m", Ready, None)]);
            && t.handlers == s.handlers
            && t.replicas == map[R := Replica("m", Ready, 0, 1, 0.0, None, None)]
  {
    RunTwo(s, Prune({}), Upsert(R, "m", Ready, None));
    assert Forgiven(s.handlers, map[]) == s.handlers;
    assert Pruned(s.replicas, {}) == map[];
  }

  /** One request has completed and is writing its audit record while another runs in the slot it gave back. */
  lemma OneAuditing() returns (events: seq<Event>)
    ensures var t := Run(OneSlot(), events);
            t.handlers == map[A := Handler("m", "m", Auditing(R, true))] && t.replicas == OneSlot().replicas
  {
    var s := OneSlot();
    AdmitTakesOneSlot(s, A);
    CompletionFrees(Run(s, Admit(A)), A);
    RunConcat(s, Admit(A), [Complete(A, 0, true)]);
    events := Admit(A) + [Complete(A, 0, true)];
  }

  lemma OneAuditingOneRunning() returns (events: seq<Event>)
    ensures var t := Run(OneSlot(), events);
            && t.handlers == map[A := Handler("m", "m", Auditing(R, true)), B := Handler("m", "m", Generating(R))]
            && t.replicas == map[R := OneSlot().replicas[R].(inFlight := 1)]
  {
    events := OneAuditing();
    AdmitTakesOneSlot(Run(OneSlot(), events), B);
    RunConcat(OneSlot(), events, Admit(B));
    events := events + Admit(B);
  }

  /**
   * A streaming request whose audit write throws after completion releases its
   * slot twice, and a one-slot replica then runs two requests at once.
   */
  lemma DoubleReleaseOversubscribes() returns (events: seq<Event>)
    ensures var t := Run(OneSlot(), events);
            R in t.replicas && t.replicas[R].maxConcurrency == 1 && |LiveHolders(t.handlers, R)| == 2
  {
    var s := OneSlot();
    events := OneAuditingOneRunning();
    var s3 := Run(s, events);
    SecondReleaseTakesAnothersSlot(s3, A);
    var throws := [AuditThrows(A, CodeReplicaUnavailable), FreeAfterFailure(A)];
    RunConcat(s, events, throws);
    events := events + throws;
    AdmitTakesOneSlot(Run(s, events), C);
    RunConcat(s, events, Admit(C));
    events := events + Admit(C);
    assert LiveHolders(Run(s, events).handlers, R) == {B, C};
  }

  /** A replica that drops out of one probe pass and returns in the next comes back at zero while still held. */
  lemma ReinsertionOversubscribes() returns (events: seq<Event>)
    ensures var t := Run(OneSlot(), events);
            R in t.replicas && t.replicas[R].maxConcurrency == 1 && |LiveHolders(t.handlers, R)| == 2
  {
    var s := OneSlot();
    AdmitTakesOneSlot(s, A);
    events := Admit(A);
    var s1 := Run(s, events);
    ReturningRowStartsEmpty(s1);
    RunConcat(s, events, [Prune({}), Upsert(R, "m", Ready, None)]);
    events := events + [Prune({}), Upsert(R, "m", Ready, None)];
    var s2 := Run(s, events);
    AdmitTakesOneSlot(s2, B);
    RunConcat(s, events, Admit(B));
    events := events + Admit(B);
    assert LiveHolders(Run(s, events).handlers, R) == {A, B};
  }
}
