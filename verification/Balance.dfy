/** Least-loaded placement keeps a model's ready replicas level, whatever breaks the ties and whatever else is in the table. */
module Balance {
  import opened Wrappers
  import opened Tables
  import opened Placement

  /**
   * One placement: the rows as it finds them. Throughput, load, the clock and
   * every row outside the model's pool may have changed in any way since the
   * last one; the pool's slots have not.
   */
  datatype Turn = Turn(rows: ReplicaTable, now: Time)

  predicate SameSlots(a: ReplicaTable, b: ReplicaTable, model: ModelId) {
    && Pool(a, model) == Pool(b, model)
    && forall r :: r in Pool(a, model) ==>
         a[r].inFlight == b[r].inFlight && a[r].maxConcurrency == b[r].maxConcurrency
  }

  /** The table left by one unlocked placement without affinity. */
  ghost function Placed(turn: Turn, model: ModelId): ReplicaTable {
    match Selected(turn.rows, model, {}, turn.now, THROUGHPUT_FRESH_MS)
    case None => turn.rows
    case Some(r) => Claim(turn.rows, r)
  }

  /** The table after all the turns, each of which finds the slots the one before left. */
  ghost function AfterTurns(rows: ReplicaTable, turns: seq<Turn>, model: ModelId): ReplicaTable {
    if turns == [] then rows else Placed(turns[|turns| - 1], model)
  }

  ghost predicate Consecutive(rows: ReplicaTable, turns: seq<Turn>, model: ModelId) {
    forall i :: 0 <= i < |turns| ==> SameSlots(AfterTurns(rows, turns[..i], model), turns[i].rows, model)
  }

  lemma ConsecutiveBefore(rows: ReplicaTable, turns: seq<Turn>, model: ModelId)
    requires turns != [] && Consecutive(rows, turns, model)
    ensures var last := |turns| - 1;
            && Consecutive(rows, turns[..last], model)
            && SameSlots(AfterTurns(rows, turns[..last], model), turns[last].rows, model)
  {
    var before := turns[..|turns| - 1];
    forall i | 0 <= i < |before| ensures SameSlots(AfterTurns(rows, before[..i], model), before[i].rows, model) {
      assert before[..i] == turns[..i] && before[i] == turns[i];
    }
  }

  /** Nobody in the pool is two ahead of a member that still has headroom. */
  predicate Level(rows: ReplicaTable, model: ModelId) {
    forall a, b :: a in Pool(rows, model) && b in Pool(rows, model) && rows[b].inFlight < rows[b].maxConcurrency
      ==> rows[a].inFlight <= rows[b].inFlight + 1
  }

  lemma PlacementKeepsThePool(turn: Turn, model: ModelId)
    ensures Pool(Placed(turn, model), model) == Pool(turn.rows, model)
    ensures forall r :: r in Pool(turn.rows, model) ==>
              Placed(turn, model)[r].maxConcurrency == turn.rows[r].maxConcurrency
  {
  }

  lemma PlacementKeepsLevel(turn: Turn, model: ModelId)
    requires Level(turn.rows, model)
    ensures Level(Placed(turn, model), model)
  {
    var rows, after := turn.rows, Placed(turn, model);
    PlacementKeepsThePool(turn, model);
    forall a, b | a in Pool(after, model) && b in Pool(after, model) && after[b].inFlight < after[b].maxConcurrency
      ensures after[a].inFlight <= after[b].inFlight + 1
    {
      assert b in Candidates(rows, model, {});
    }
  }

  /** For any ceilings: a replica is two ahead of another only if the other is saturated. */
  lemma {:induction false} PlacementsStayLevel(rows: ReplicaTable, turns: seq<Turn>, model: ModelId)
    requires Level(rows, model) && Consecutive(rows, turns, model)
    ensures Level(AfterTurns(rows, turns, model), model)
    decreases |turns|
  {
    if turns != [] {
      var last := |turns| - 1;
      ConsecutiveBefore(rows, turns, model);
      PlacementsStayLevel(rows, turns[..last], model);
      PlacementKeepsLevel(turns[last], model);
    }
  }

  // ------------------------------------------------------------ uniform pools

  /** Every ready replica of the model has the same ceiling. */
  predicate UniformPool(rows: ReplicaTable, model: ModelId, ceiling: Ceiling) {
    forall r :: r in Pool(rows, model) ==> rows[r].maxConcurrency == ceiling
  }

  predicate WithinCeiling(rows: ReplicaTable, model: ModelId, ceiling: Ceiling) {
    forall r :: r in Pool(rows, model) ==> rows[r].inFlight <= ceiling
  }

  predicate IdlePool(rows: ReplicaTable, model: ModelId) {
    forall r :: r in Pool(rows, model) ==> rows[r].inFlight == 0
  }

  ghost function PoolInFlight(rows: ReplicaTable, model: ModelId): int {
    SumInFlight(rows, Pool(rows, model))
  }

  lemma IdlePoolHoldsNothing(rows: ReplicaTable, model: ModelId)
    requires IdlePool(rows, model)
    ensures PoolInFlight(rows, model) == 0
  {
    SumAtLeast(rows, Pool(rows, model), 0);
    SumAtMost(rows, Pool(rows, model), 0);
  }

  /** A pool without a candidate has every slot taken. */
  lemma FullPool(rows: ReplicaTable, model: ModelId, ceiling: Ceiling)
    requires UniformPool(rows, model, ceiling) && Candidates(rows, model, {}) == {}
    ensures PoolInFlight(rows, model) >= ceiling * |Pool(rows, model)|
  {
    forall r | r in Pool(rows, model) ensures ceiling <= rows[r].inFlight {
      assert r !in Candidates(rows, model, {});
    }
    SumAtLeast(rows, Pool(rows, model), ceiling);
  }

  /** While the pool has a free slot, a placement fills exactly one. */
  lemma TurnFillsASlot(turn: Turn, model: ModelId, ceiling: Ceiling)
    requires UniformPool(turn.rows, model, ceiling) && WithinCeiling(turn.rows, model, ceiling)
    requires PoolInFlight(turn.rows, model) < ceiling * |Pool(turn.rows, model)|
    ensures var after := Placed(turn, model);
            && Pool(after, model) == Pool(turn.rows, model)
            && UniformPool(after, model, ceiling) && WithinCeiling(after, model, ceiling)
            && PoolInFlight(after, model) == PoolInFlight(turn.rows, model) + 1
  {
    PlacementKeepsThePool(turn, model);
    if Candidates(turn.rows, model, {}) == {} {
      FullPool(turn.rows, model, ceiling);
    } else {
      ClaimAddsOne(turn.rows, Pool(turn.rows, model),
                   Selected(turn.rows, model, {}, turn.now, THROUGHPUT_FRESH_MS).value);
    }
  }

  lemma SameSlotsCarryOver(a: ReplicaTable, b: ReplicaTable, model: ModelId, ceiling: Ceiling)
    requires SameSlots(a, b, model) && UniformPool(a, model, ceiling) && WithinCeiling(a, model, ceiling)
    ensures UniformPool(b, model, ceiling) && WithinCeiling(b, model, ceiling)
    ensures PoolInFlight(b, model) == PoolInFlight(a, model)
  {
    SumFrame(a, b, Pool(a, model));
  }

  /** What a uniform pool looks like with k of its slots taken. */
  ghost predicate Filled(after: ReplicaTable, rows: ReplicaTable, model: ModelId, ceiling: Ceiling, k: nat) {
    && Pool(after, model) == Pool(rows, model)
    && UniformPool(after, model, ceiling) && WithinCeiling(after, model, ceiling)
    && PoolInFlight(after, model) == k
  }

  /** Each of the first n * ceiling placements finds a free slot of the pool and fills exactly one. */
  lemma {:induction false} PlacementsFillSlots(rows: ReplicaTable, turns: seq<Turn>, model: ModelId, ceiling: Ceiling)
    requires UniformPool(rows, model, ceiling) && IdlePool(rows, model) && Consecutive(rows, turns, model)
    requires |turns| <= ceiling * |Pool(rows, model)|
    ensures Filled(AfterTurns(rows, turns, model), rows, model, ceiling, |turns|)
    decreases |turns|
  {
    if turns == [] {
      IdlePoolHoldsNothing(rows, model);
    } else {
      var last := |turns| - 1;
      ConsecutiveBefore(rows, turns, model);
      PlacementsFillSlots(rows, turns[..last], model, ceiling);
      SameSlotsCarryOver(AfterTurns(rows, turns[..last], model), turns[last].rows, model, ceiling);
      TurnFillsASlot(turns[last], model, ceiling);
    }
  }

  lemma NobodyIsTwoAhead(rows: ReplicaTable, model: ModelId, ceiling: Ceiling, r: ReplicaId, q: ReplicaId)
    requires UniformPool(rows, model, ceiling) && WithinCeiling(rows, model, ceiling) && Level(rows, model)
    requires r in Pool(rows, model) && q in Pool(rows, model)
    ensures rows[r].inFlight <= rows[q].inFlight + 1
  {
  }

  /**
   * k placements on a model's n idle ready replicas leave every one at
   * floor(k / n) or ceil(k / n), whatever other rows the table holds.
   */
  lemma PlacementsAreEven(rows: ReplicaTable, turns: seq<Turn>, model: ModelId, ceiling: Ceiling, r: ReplicaId)
    requires UniformPool(rows, model, ceiling) && IdlePool(rows, model) && Consecutive(rows, turns, model)
    requires |turns| <= ceiling * |Pool(rows, model)| && r in Pool(rows, model)
    ensures |Pool(rows, model)| > 0 && r in AfterTurns(rows, turns, model)
    ensures var n, k, x := |Pool(rows, model)|, |turns|, AfterTurns(rows, turns, model)[r].inFlight;
            k / n <= x <= k / n + (if k % n == 0 then 0 else 1)
  {
    PlacementsFillSlots(rows, turns, model, ceiling);
    PlacementsStayLevel(rows, turns, model);
    EvenWhenLevel(AfterTurns(rows, turns, model), model, ceiling, r);
  }

  /** A level pool with k slots taken holds floor(k / n) or ceil(k / n) everywhere. */
  lemma EvenWhenLevel(rows: ReplicaTable, model: ModelId, ceiling: Ceiling, r: ReplicaId)
    requires UniformPool(rows, model, ceiling) && WithinCeiling(rows, model, ceiling) && Level(rows, model)
    requires r in Pool(rows, model)
    ensures |Pool(rows, model)| > 0
    ensures var n, k, x := |Pool(rows, model)|, PoolInFlight(rows, model), rows[r].inFlight;
            k / n <= x <= k / n + (if k % n == 0 then 0 else 1)
  {
    var pool, x := Pool(rows, model), rows[r].inFlight;
    assert |pool| > 0 by { assert r in pool; }
    forall q | q in pool ensures x - 1 <= rows[q].inFlight <= x + 1 {
      NobodyIsTwoAhead(rows, model, ceiling, r, q);
      NobodyIsTwoAhead(rows, model, ceiling, q, r);
    }
    SumAbove(rows, pool, x - 1, r);
    SumBelow(rows, pool, x + 1, r);
    Average(|pool|, PoolInFlight(rows, model), x);
  }

  lemma Average(n: int, k: int, x: int)
    requires n > 0 && (x - 1) * n < k < (x + 1) * n
    ensures k / n <= x <= k / n + (if k % n == 0 then 0 else 1)
  {
    var q, m := k / n, k % n;
    assert k == n * q + m;
    if x + 1 <= q { Scale(n, x + 1, q); }
    if q + 1 <= x - 1 { Scale(n, q + 1, x - 1); }
  }

  lemma Scale(n: int, a: int, b: int)
    requires n > 0 && a <= b
    ensures a * n <= b * n && n * a <= n * b
  {
  }
}
