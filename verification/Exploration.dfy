/** A replica with no current measurement is tried before any equally busy one that has it, so none is starved for long. */
module Exploration {
  import opened Wrappers
  import opened Tables
  import opened Queue
  import opened Placement

  /** One request served alone: placed, and finished with a sample before the next is placed. */
  datatype Visit = Visit(placedAt: Time, durationMs: int, tokens: int, doneAt: Time)

  /** The candidates with the fewest slots in use: the ones the ORDER BY can put first. */
  function LeastLoaded(rows: ReplicaTable, model: ModelId): set<ReplicaId> {
    var candidates := Candidates(rows, model, {});
    set r | r in candidates && forall q :: q in candidates ==> rows[r].inFlight <= rows[q].inFlight
  }

  ghost function Chosen(rows: ReplicaTable, model: ModelId, visit: Visit): Option<ReplicaId> {
    Selected(rows, model, {}, visit.placedAt, THROUGHPUT_FRESH_MS)
  }

  ghost function Served(rows: ReplicaTable, model: ModelId, visit: Visit, alpha: real): ReplicaTable {
    match Chosen(rows, model, visit)
    case None => rows
    case Some(r) =>
      var claimed := Claim(rows, r);
      claimed[r := Settled(claimed[r], visit.durationMs, visit.tokens, visit.doneAt, alpha)]
  }

  ghost function AfterVisits(rows: ReplicaTable, model: ModelId, visits: seq<Visit>, alpha: real): ReplicaTable {
    if visits == [] then rows
    else Served(AfterVisits(rows, model, visits[..|visits| - 1], alpha), model, visits[|visits| - 1], alpha)
  }

  /** The replicas the visits have reached. */
  ghost function Sampled(rows: ReplicaTable, model: ModelId, visits: seq<Visit>, alpha: real): set<ReplicaId> {
    if visits == [] then {}
    else
      var before := visits[..|visits| - 1];
      var choice := Chosen(AfterVisits(rows, model, before, alpha), model, visits[|visits| - 1]);
      Sampled(rows, model, before, alpha) + (if choice.Some? then {choice.value} else {})
  }

  /** Every visit qualifies, and all of them fall inside one freshness window opening at `start`. */
  predicate OneWindow(visits: seq<Visit>, start: Time) {
    forall v :: v in visits ==> InWindow(v, start)
  }

  predicate InWindow(v: Visit, start: Time) {
    && start <= v.placedAt < start + THROUGHPUT_FRESH_MS
    && start <= v.doneAt
    && Qualifies(v.durationMs, v.tokens)
  }

  predicate NoneNegative(rows: ReplicaTable) {
    forall r :: r in rows ==> 0 <= rows[r].inFlight
  }

  /** What a visit leaves of a row, apart from its throughput reading and stamp. */
  predicate SameLoad(a: Replica, b: Replica) {
    a.modelId == b.modelId && a.status == b.status && a.inFlight == b.inFlight && a.maxConcurrency == b.maxConcurrency
  }

  predicate SameLoads(rows: ReplicaTable, now: ReplicaTable) {
    now.Keys == rows.Keys && forall r :: r in rows ==> SameLoad(rows[r], now[r])
  }

  /** What the visits leave behind: sampled rows measured inside the window, the others untouched, loads as they were. */
  ghost predicate Explored(rows: ReplicaTable, now: ReplicaTable, sampled: set<ReplicaId>, model: ModelId, start: Time) {
    && SameLoads(rows, now)
    && sampled <= LeastLoaded(rows, model)
    && (forall r :: r in sampled ==>
          now[r].tokensPerSec.Some? && now[r].tokensPerSecAt.Some? && start <= now[r].tokensPerSecAt.value)
    && (forall r :: r in rows && r !in sampled ==> now[r] == rows[r])
  }

  lemma SameLoadsSameChoices(rows: ReplicaTable, now: ReplicaTable, model: ModelId)
    requires SameLoads(rows, now)
    ensures Candidates(now, model, {}) == Candidates(rows, model, {})
    ensures LeastLoaded(now, model) == LeastLoaded(rows, model)
  {
    assert Candidates(now, model, {}) == Candidates(rows, model, {});
  }

  lemma ChosenIsLeastLoaded(rows: ReplicaTable, model: ModelId, visit: Visit)
    ensures var choice := Chosen(rows, model, visit);
            && (choice.Some? ==> choice.value in LeastLoaded(rows, model))
            && (choice.None? ==> Candidates(rows, model, {}) == {})
  {
    var choice := Chosen(rows, model, visit);
    if choice.Some? {
      forall q | q in Candidates(rows, model, {}) ensures rows[choice.value].inFlight <= rows[q].inFlight {
        assert q != choice.value ==> Before(RankOf(rows, choice.value, visit.placedAt, THROUGHPUT_FRESH_MS),
                                            RankOf(rows, q, visit.placedAt, THROUGHPUT_FRESH_MS));
      }
    }
  }

  lemma ServingMeasures(now: ReplicaTable, model: ModelId, visit: Visit, start: Time, alpha: real)
    requires NoneNegative(now) && InWindow(visit, start)
    ensures var choice, after := Chosen(now, model, visit), Served(now, model, visit, alpha);
            && SameLoads(now, after)
            && (choice.Some? ==>
                  && after[choice.value].tokensPerSec.Some? && after[choice.value].tokensPerSecAt == Some(visit.doneAt)
                  && (forall r :: r in now && r != choice.value ==> after[r] == now[r]))
            && (choice.None? ==> after == now)
  {
  }

  lemma VisitExplores(rows: ReplicaTable, now: ReplicaTable, sampled: set<ReplicaId>, model: ModelId, start: Time,
                      visit: Visit, alpha: real)
    requires NoneNegative(rows) && Explored(rows, now, sampled, model, start) && InWindow(visit, start)
    ensures var choice := Chosen(now, model, visit);
            Explored(rows, Served(now, model, visit, alpha),
                     sampled + (if choice.Some? then {choice.value} else {}), model, start)
  {
    SameLoadsSameChoices(rows, now, model);
    ChosenIsLeastLoaded(now, model, visit);
    assert NoneNegative(now);
    ServingMeasures(now, model, visit, start, alpha);
  }

  /** While some stale replica among the least loaded is unsampled, the next visit goes to one that is unsampled too. */
  lemma VisitGoesSomewhereNew(rows: ReplicaTable, now: ReplicaTable, sampled: set<ReplicaId>, model: ModelId,
                              start: Time, visit: Visit, x: ReplicaId)
    requires Explored(rows, now, sampled, model, start) && InWindow(visit, start)
    requires x in LeastLoaded(rows, model) && x !in sampled && FreshRate(rows[x], start, THROUGHPUT_FRESH_MS).None?
    ensures var choice := Chosen(now, model, visit); choice.Some? && choice.value !in sampled
  {
    SameLoadsSameChoices(rows, now, model);
    ChosenIsLeastLoaded(now, model, visit);
    assert FreshRate(now[x], visit.placedAt, THROUGHPUT_FRESH_MS).None?;
    var r := Chosen(now, model, visit).value;
    if r != x {
      assert Before(RankOf(now, r, visit.placedAt, THROUGHPUT_FRESH_MS), RankOf(now, x, visit.placedAt, THROUGHPUT_FRESH_MS));
      assert FreshRate(now[r], visit.placedAt, THROUGHPUT_FRESH_MS).None?;
    }
  }

  lemma {:induction false} VisitsExplore(rows: ReplicaTable, model: ModelId, visits: seq<Visit>, alpha: real, start: Time)
    requires NoneNegative(rows) && OneWindow(visits, start)
    ensures Explored(rows, AfterVisits(rows, model, visits, alpha), Sampled(rows, model, visits, alpha), model, start)
    decreases |visits|
  {
    if visits != [] {
      var last := |visits| - 1;
      OneWindowBefore(visits, start);
      VisitsExplore(rows, model, visits[..last], alpha, start);
      VisitExplores(rows, AfterVisits(rows, model, visits[..last], alpha), Sampled(rows, model, visits[..last], alpha),
                    model, start, visits[last], alpha);
    }
  }

  lemma OneWindowBefore(visits: seq<Visit>, start: Time)
    requires visits != [] && OneWindow(visits, start)
    ensures OneWindow(visits[..|visits| - 1], start) && InWindow(visits[|visits| - 1], start)
  {
    assert visits[|visits| - 1] in visits && forall v :: v in visits[..|visits| - 1] ==> v in visits;
  }

  lemma {:induction false} EveryVisitIsNewUntil(rows: ReplicaTable, model: ModelId, visits: seq<Visit>, alpha: real,
                                                start: Time, x: ReplicaId)
    requires NoneNegative(rows) && OneWindow(visits, start)
    requires x in LeastLoaded(rows, model) && FreshRate(rows[x], start, THROUGHPUT_FRESH_MS).None?
    ensures x in Sampled(rows, model, visits, alpha) || |Sampled(rows, model, visits, alpha)| == |visits|
    decreases |visits|
  {
    if visits != [] {
      var before, visit := visits[..|visits| - 1], visits[|visits| - 1];
      OneWindowBefore(visits, start);
      EveryVisitIsNewUntil(rows, model, before, alpha, start, x);
      VisitsExplore(rows, model, before, alpha, start);
      var now, sampled := AfterVisits(rows, model, before, alpha), Sampled(rows, model, before, alpha);
      if x !in sampled {
        VisitGoesSomewhereNew(rows, now, sampled, model, start, visit, x);
      }
    }
  }

  lemma SubsetSize(a: set<ReplicaId>, b: set<ReplicaId>)
    requires a <= b
    ensures |a| <= |b|
  {
    assert b == a + (b - a);
  }

  /**
   * Re-exploration, exactly: in one freshness window, as many visits as there are
   * least-loaded candidates reach a stale replica if and only if it is one of them.
   */
  lemma ReexplorationIsBounded(rows: ReplicaTable, model: ModelId, visits: seq<Visit>, alpha: real,
                               start: Time, x: ReplicaId)
    requires NoneNegative(rows) && OneWindow(visits, start)
    requires |visits| >= |LeastLoaded(rows, model)|
    requires x in rows && FreshRate(rows[x], start, THROUGHPUT_FRESH_MS).None?
    ensures x in Sampled(rows, model, visits, alpha) <==> x in LeastLoaded(rows, model)
  {
    VisitsExplore(rows, model, visits, alpha, start);
    var sampled := Sampled(rows, model, visits, alpha);
    if x in LeastLoaded(rows, model) && x !in sampled {
      EveryVisitIsNewUntil(rows, model, visits, alpha, start, x);
      SubsetSize(sampled + {x}, LeastLoaded(rows, model));
    }
  }

  /** On an idle fleet of n ready replicas, n visits in one window therefore sample every stale one. */
  lemma IdleFleetIsExplored(rows: ReplicaTable, model: ModelId, visits: seq<Visit>, alpha: real,
                            start: Time, x: ReplicaId)
    requires NoneNegative(rows) && OneWindow(visits, start)
    requires forall r :: r in Pool(rows, model) ==> rows[r].inFlight == 0
    requires |visits| >= |Pool(rows, model)|
    requires x in Pool(rows, model) && FreshRate(rows[x], start, THROUGHPUT_FRESH_MS).None?
    ensures x in Sampled(rows, model, visits, alpha)
  {
    assert Candidates(rows, model, {}) == Pool(rows, model);
    assert LeastLoaded(rows, model) == Pool(rows, model);
    ReexplorationIsBounded(rows, model, visits, alpha, start, x);
  }
}
