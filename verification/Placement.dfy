/**
 * Placement: which replica a request gets, and the conditional increment that
 * claims it. `locked` is the set of rows other transactions hold, which
 * SKIP LOCKED passes over; it is arbitrary in every result below.
 */
module Placement {
  import opened Wrappers
  import opened Tables

  const THROUGHPUT_FRESH_MS := 120_000

  predicate Eligible(row: Replica, model: ModelId) {
    row.modelId == model && row.status == Ready && row.inFlight < row.maxConcurrency
  }

  /** The ready rows of one model; the table also holds other models' rows, and rows that are not ready. */
  function Pool(rows: ReplicaTable, model: ModelId): set<ReplicaId> {
    set r | r in rows && rows[r].modelId == model && rows[r].status == Ready
  }

  /** A throughput reading counts only while it is younger than `freshMs`. */
  function FreshRate(row: Replica, now: Time, freshMs: int): Option<real> {
    if row.tokensPerSecAt.Some? && row.tokensPerSecAt.value > now - freshMs then row.tokensPerSec else None
  }

  /** The ORDER BY key of one row. */
  datatype Rank = Rank(inFlight: int, rate: Option<real>, loadPct: real, id: ReplicaId)

  function RankOf(rows: ReplicaTable, r: ReplicaId, now: Time, freshMs: int): Rank
    requires r in rows
  {
    Rank(rows[r].inFlight, FreshRate(rows[r], now, freshMs), rows[r].loadPct, r)
  }

  /** Descending, unknown first. */
  predicate RateBefore(a: Option<real>, b: Option<real>) {
    b.Some? && (a.None? || a.value > b.value)
  }

  predicate Before(a: Rank, b: Rank) {
    || a.inFlight < b.inFlight
    || (a.inFlight == b.inFlight &&
        (|| RateBefore(a.rate, b.rate)
         || (a.rate == b.rate &&
             (|| a.loadPct < b.loadPct
              || (a.loadPct == b.loadPct && a.id.rank < b.id.rank)))))
  }

  /** The order is a strict total order on distinct rows, so "the least" means one row. */
  lemma BeforeIsStrictTotal(a: Rank, b: Rank, c: Rank)
    ensures !(Before(a, b) && Before(b, a))
    ensures Before(a, b) && Before(b, c) ==> Before(a, c)
    ensures a.id != b.id ==> Before(a, b) || Before(b, a)
  {
  }

  function Candidates(rows: ReplicaTable, model: ModelId, locked: set<ReplicaId>): set<ReplicaId> {
    set r | r in rows && r !in locked && Eligible(rows[r], model)
  }

  predicate IsLeast(rows: ReplicaTable, among: set<ReplicaId>, r: ReplicaId, now: Time, freshMs: int)
    requires among <= rows.Keys
  {
    r in among &&
    forall q :: q in among && q != r ==> Before(RankOf(rows, r, now, freshMs), RankOf(rows, q, now, freshMs))
  }

  lemma {:induction false} LeastExists(rows: ReplicaTable, among: set<ReplicaId>, now: Time, freshMs: int)
    requires among <= rows.Keys && among != {}
    ensures exists r :: IsLeast(rows, among, r, now, freshMs)
    decreases among
  {
    var r :| r in among;
    var rest := among - {r};
    if rest == {} {
      assert among == {r};
      assert IsLeast(rows, among, r, now, freshMs);
    } else {
      LeastExists(rows, rest, now, freshMs);
      var q :| IsLeast(rows, rest, q, now, freshMs);
      var best := if Before(RankOf(rows, r, now, freshMs), RankOf(rows, q, now, freshMs)) then r else q;
      forall p | p in among && p != best
        ensures Before(RankOf(rows, best, now, freshMs), RankOf(rows, p, now, freshMs))
      {
        BeforeIsStrictTotal(RankOf(rows, r, now, freshMs), RankOf(rows, q, now, freshMs), RankOf(rows, p, now, freshMs));
      }
      assert IsLeast(rows, among, best, now, freshMs);
    }
  }

  lemma LeastIsUnique(rows: ReplicaTable, among: set<ReplicaId>, r: ReplicaId, q: ReplicaId, now: Time, freshMs: int)
    requires among <= rows.Keys
    requires IsLeast(rows, among, r, now, freshMs) && IsLeast(rows, among, q, now, freshMs)
    ensures r == q
  {
    if r != q {
      BeforeIsStrictTotal(RankOf(rows, r, now, freshMs), RankOf(rows, q, now, freshMs), RankOf(rows, r, now, freshMs));
    }
  }

  /** What the general statement's CTE selects. */
  ghost function Selected(rows: ReplicaTable, model: ModelId, locked: set<ReplicaId>, now: Time, freshMs: int)
    : (choice: Option<ReplicaId>)
    ensures choice.None? <==> Candidates(rows, model, locked) == {}
    ensures choice.Some? ==> IsLeast(rows, Candidates(rows, model, locked), choice.value, now, freshMs)
  {
    var among := Candidates(rows, model, locked);
    if among == {} then None
    else
      LeastExists(rows, among, now, freshMs);
      var r :| IsLeast(rows, among, r, now, freshMs);
      Some(r)
  }

  function Claim(rows: ReplicaTable, r: ReplicaId): ReplicaTable
    requires r in rows
  {
    rows[r := rows[r].(inFlight := rows[r].inFlight + 1)]
  }

  datatype Outcome =
    | Placed(replica: ReplicaId, oldInFlight: int, affinityHit: bool)
    | NeedsQueue

  /**
   * The outcome of one placeRequest call: `target` is whatever the affinity
   * lookup returned, and the two statements may meet different locks.
   */
  ghost function Outcomes(rows: ReplicaTable, model: ModelId, target: Option<ReplicaId>,
                          affineLocked: set<ReplicaId>, locked: set<ReplicaId>, now: Time, freshMs: int): Outcome
  {
    if target.Some? && target.value in Candidates(rows, model, affineLocked) then
      Placed(target.value, rows[target.value].inFlight, true)
    else
      match Selected(rows, model, locked, now, freshMs)
      case None => NeedsQueue
      case Some(r) => Placed(r, rows[r].inFlight, false)
  }

  function ClaimedBy(rows: ReplicaTable, outcome: Outcome): ReplicaTable
    requires outcome.Placed? ==> outcome.replica in rows
  {
    if outcome.Placed? then Claim(rows, outcome.replica) else rows
  }

  predicate AffineUsable(rows: ReplicaTable, model: ModelId, target: Option<ReplicaId>, affineLocked: set<ReplicaId>) {
    target.Some? && target.value in rows && target.value !in affineLocked && Eligible(rows[target.value], model)
  }

  /**
   * The placement specification, for every affinity lookup and every set of
   * locked rows: the affine replica when it is a candidate; otherwise the one
   * least candidate; a wait exactly when there is none.
   */
  lemma PlacementRefinesItsSpecification(
      rows: ReplicaTable, model: ModelId, target: Option<ReplicaId>,
      affineLocked: set<ReplicaId>, locked: set<ReplicaId>, now: Time, freshMs: int)
    ensures var outcome := Outcomes(rows, model, target, affineLocked, locked, now, freshMs);
            if AffineUsable(rows, model, target, affineLocked)
            then outcome == Placed(target.value, rows[target.value].inFlight, true)
            else
              && (outcome.NeedsQueue? <==> forall r :: r in rows && Eligible(rows[r], model) ==> r in locked)
              && (outcome.Placed? ==> !outcome.affinityHit)
    ensures forall r :: !AffineUsable(rows, model, target, affineLocked)
                     && IsLeast(rows, Candidates(rows, model, locked), r, now, freshMs)
              ==> Outcomes(rows, model, target, affineLocked, locked, now, freshMs)
                  == Placed(r, rows[r].inFlight, false)
    ensures var outcome := Outcomes(rows, model, target, affineLocked, locked, now, freshMs);
            outcome.Placed? ==>
              && outcome.replica in rows
              && Eligible(rows[outcome.replica], model)
              && outcome.oldInFlight == rows[outcome.replica].inFlight
  {
    var among := Candidates(rows, model, locked);
    forall r, q | IsLeast(rows, among, r, now, freshMs) && IsLeast(rows, among, q, now, freshMs)
      ensures r == q
    {
      LeastIsUnique(rows, among, r, q, now, freshMs);
    }
    if forall r :: r in rows && Eligible(rows[r], model) ==> r in locked {
      assert forall r :: r !in among;
      assert among == {};
    } else {
      var r :| r in rows && Eligible(rows[r], model) && r !in locked;
      assert r in among;
    }
  }

  /** Affinity is a preference only: it never turns a placement into a wait. */
  lemma AffinityNeverCausesAWait(
      rows: ReplicaTable, model: ModelId, target: Option<ReplicaId>,
      affineLocked: set<ReplicaId>, locked: set<ReplicaId>, now: Time, freshMs: int)
    requires Outcomes(rows, model, None, affineLocked, locked, now, freshMs).Placed?
    ensures Outcomes(rows, model, target, affineLocked, locked, now, freshMs).Placed?
  {
  }

  /** A claim takes exactly one slot of exactly one row, and only where there was headroom. */
  lemma ClaimTakesOneFreeSlot(
      rows: ReplicaTable, model: ModelId, target: Option<ReplicaId>,
      affineLocked: set<ReplicaId>, locked: set<ReplicaId>, now: Time, freshMs: int)
    ensures
      var outcome := Outcomes(rows, model, target, affineLocked, locked, now, freshMs);
      var after := ClaimedBy(rows, outcome);
      && after.Keys == rows.Keys
      && (forall r :: r in rows && !(outcome.Placed? && outcome.replica == r) ==> after[r] == rows[r])
      && (outcome.Placed? ==>
            && after[outcome.replica].inFlight == outcome.oldInFlight + 1
            && after[outcome.replica].inFlight <= after[outcome.replica].maxConcurrency)
      && SumInFlight(after, after.Keys) == SumInFlight(rows, rows.Keys) + (if outcome.Placed? then 1 else 0)
  {
    var outcome := Outcomes(rows, model, target, affineLocked, locked, now, freshMs);
    if outcome.Placed? {
      ClaimAddsOne(rows, rows.Keys, outcome.replica);
    }
  }

  lemma ClaimAddsOne(rows: ReplicaTable, ids: set<ReplicaId>, r: ReplicaId)
    requires ids <= rows.Keys && r in ids
    ensures Claim(rows, r).Keys == rows.Keys
    ensures SumInFlight(Claim(rows, r), ids) == SumInFlight(rows, ids) + 1
  {
    var after := Claim(rows, r);
    assert after.Keys == rows.Keys;
    SumSplit(rows, ids, r);
    SumSplit(after, ids, r);
    SumFrame(rows, after, ids - {r});
  }
}
