/**
 * What the statements do, said in the tables' own columns and constants, for every
 * table, row and clock. Nothing here goes through the names the other modules use
 * to put an operation together, so each lemma is a second account of what it does.
 */
module Statements {
  import opened Wrappers
  import opened Tables
  import opened Queue
  import opened Placement
  import opened Protocol

  // ------------------------------------------------------------------ the queue

  /** A caller waits exactly as long as it may: a queued row is swept once its wait exceeds the timeout, never before. */
  lemma QueueSweepByColumns(requests: RequestTable, now: Time, timeoutMs: int, h: RequestId)
    requires h in requests
    ensures var row, after := requests[h], SweepQueue(requests, now, timeoutMs);
            && after.Keys == requests.Keys
            && after[h] == if row.status == Queued && now - row.arrivedAt > timeoutMs
                           then row.(status := QueueTimeout, errorCode := Some(CodeQueueTimeout), completedAt := Some(now))
                           else row
  {
  }

  /** The stall sweep takes exactly the streaming rows that have had a token, but none for longer than the threshold. */
  lemma StallSweepByColumns(requests: RequestTable, now: Time, thresholdMs: int, h: RequestId)
    requires h in requests
    ensures var row, after := requests[h], SweepStalls(requests, now, thresholdMs);
            && after.Keys == requests.Keys
            && after[h] == if row.status == Streaming && row.firstTokenAt != None && row.lastTokenAt.Some?
                              && now - row.lastTokenAt.value > thresholdMs
                           then row.(status := StallTimeout, errorCode := Some(CodeStallTimeout), completedAt := Some(now))
                           else row
  {
  }

  /**
   * The first-token sweep takes exactly the streaming rows of registered models that
   * have had no token since starting, for longer than the model's own allowance, or
   * than the default where the model has none.
   */
  lemma ColdStartSweepByColumns(requests: RequestTable, allowances: Allowances, now: Time, defaultMs: int, h: RequestId,
                                model: ModelId, allowance: int)
    requires h in requests && (requests[h].routedModel.Some? ==> requests[h].routedModel.value == model)
    requires model in allowances ==>
               (allowances[model] == Some(allowance) || (allowances[model] == None && allowance == defaultMs))
    ensures var row, after := requests[h], SweepColdStarts(requests, allowances, now, defaultMs);
            && after.Keys == requests.Keys
            && after[h] == if row.status == Streaming && row.firstTokenAt == None && row.startedAt.Some?
                              && row.routedModel.Some? && model in allowances && now - row.startedAt.value > allowance
                           then row.(status := StallTimeout, errorCode := Some(CodeStallTimeout), completedAt := Some(now))
                           else row
  {
  }

  lemma ExpireByColumns(requests: RequestTable, h: RequestId, now: Time)
    requires h in requests
    ensures Expire(requests, h, now)
         == requests[h := if requests[h].status != Queued then requests[h]
                          else requests[h].(status := QueueTimeout, errorCode := Some(CodeQueueTimeout),
                                            completedAt := Some(now))]
  {
  }

  /** A token is stamped with the time it came: always as the last, and as the first if none came before. */
  lemma TokenByColumns(requests: RequestTable, h: RequestId, now: Time)
    requires h in requests
    ensures var row, after := requests[h], RecordToken(requests, h, now);
            && after == requests[h := after[h]]
            && after[h].lastTokenAt == Some(now)
            && after[h].firstTokenAt == Some(if row.firstTokenAt.Some? then row.firstTokenAt.value else now)
            && after[h] == row.(lastTokenAt := after[h].lastTokenAt, firstTokenAt := after[h].firstTokenAt)
  {
  }

  lemma StartByColumns(requests: RequestTable, h: RequestId, r: ReplicaId, now: Time)
    requires h in requests
    ensures MarkStarted(requests, h, r, now)
         == requests[h := requests[h].(status := Streaming, replicaId := Some(r),
                                       startedAt := Some(now), lastTokenAt := Some(now))]
  {
  }

  /**
   * One event, one name: a live request that fails with a timeout is filed exactly as
   * the sweep files the same timeout, whichever notices first. An unavailable replica
   * has its own status and every other code is filed as a plain error.
   */
  lemma FailureIsFiledAsTheSweepWould(requests: RequestTable, h: RequestId, code: ErrorCode, now: Time)
    requires h in requests
    ensures var row, after := requests[h], MarkFailed(requests, h, code, now);
            && after == requests[h := after[h]]
            && after[h].errorCode == Some(code) && after[h].completedAt == Some(now)
            && after[h] == row.(status := after[h].status, errorCode := Some(code), completedAt := Some(now))
            && (after[h].status == StallTimeout <==> code == CodeStallTimeout)
            && (after[h].status == QueueTimeout <==> code == CodeQueueTimeout)
            && (after[h].status == ReplicaUnavailable <==> code == CodeReplicaUnavailable)
            && (after[h].status == Failed
                <==> code != CodeStallTimeout && code != CodeQueueTimeout && code != CodeReplicaUnavailable)
    ensures forall thresholdMs :: Stalled(requests[h], now, thresholdMs) ==>
              MarkFailed(requests, h, CodeStallTimeout, now)[h] == SweepStalls(requests, now, thresholdMs)[h]
    ensures forall timeoutMs :: QueueExpired(requests[h], now, timeoutMs) ==>
              MarkFailed(requests, h, CodeQueueTimeout, now)[h] == SweepQueue(requests, now, timeoutMs)[h]
  {
  }

  /** Retention deletes exactly the rows that arrived more than the given age ago, and changes no other. */
  lemma RetentionByColumns(requests: RequestTable, now: Time, olderThanMs: int)
    ensures var after := Retained(requests, now, olderThanMs);
            && (forall h :: h in after <==> h in requests && now - requests[h].arrivedAt <= olderThanMs)
            && (forall h :: h in after ==> after[h] == requests[h])
  {
  }

  // ----------------------------------------------------------------- completion

  lemma RateTimesDuration(durationMs: int, tokens: int)
    requires durationMs > 0
    ensures Rate(durationMs, tokens) * durationMs as real == 1000.0 * tokens as real
  {
    var d, t := durationMs as real, tokens as real;
    assert d / 1000.0 > 0.0;
    assert Rate(durationMs, tokens) * (d / 1000.0) == t;
    assert (d / 1000.0) * 1000.0 == d;
    assert Rate(durationMs, tokens) * d == (Rate(durationMs, tokens) * (d / 1000.0)) * 1000.0;
  }

  lemma MixTimesDuration(v: real, x: real, alpha: real, d: real)
    ensures Mix(v, x, alpha) * d == (1.0 - alpha) * v * d + alpha * (x * d)
  {
  }

  /** The finished row: its duration is the time since it started, never negative, and zero if it never did. */
  lemma FinishedByColumns(requests: RequestTable, h: RequestId, tokens: int, now: Time)
    requires h in requests
    ensures var row, after := requests[h], CompleteRequests(requests, h, tokens, now);
            && after == requests[h := after[h]]
            && after[h] == row.(status := Completed, completedAt := Some(now), outputTokens := tokens,
                                durationMs := after[h].durationMs)
            && after[h].durationMs.Some?
            && (row.startedAt.None? || now < row.startedAt.value ==> after[h].durationMs.value == 0)
            && (row.startedAt.Some? && now >= row.startedAt.value ==>
                  after[h].durationMs.value == now - row.startedAt.value)
  {
  }

  /** Completing frees one slot of the replica the row names, of no other, and never goes below none. */
  lemma CompletionFreesByColumns(replicas: ReplicaTable, requests: RequestTable, h: RequestId, tokens: int,
                                 now: Time, alpha: real, r: ReplicaId)
    requires h in requests && requests[h].replicaId == Some(r) && r in replicas
    ensures var row, after := replicas[r], CompleteReplicas(replicas, requests, h, tokens, now, alpha);
            && after == replicas[r := after[r]]
            && after[r].inFlight == (if row.inFlight > 0 then row.inFlight - 1 else 0)
            && after[r] == row.(inFlight := after[r].inFlight, tokensPerSec := after[r].tokensPerSec,
                                tokensPerSecAt := after[r].tokensPerSecAt)
  {
  }

  /**
   * The reading after one completion, in tokens per second. A request that ran d >= 250
   * ms and made at least 5 tokens is a sample: 1000 * tokens / d on its own if the
   * replica had no reading, and weighed `alpha` against the reading it had. Anything
   * smaller, or never started, changes neither reading nor stamp.
   */
  lemma ThroughputByColumns(replicas: ReplicaTable, requests: RequestTable, h: RequestId, tokens: int,
                            now: Time, alpha: real, r: ReplicaId)
    requires h in requests && requests[h].replicaId == Some(r) && r in replicas
    ensures var was, after := replicas[r], CompleteReplicas(replicas, requests, h, tokens, now, alpha)[r];
            if requests[h].startedAt.Some? && now - requests[h].startedAt.value >= 250 && tokens >= 5 then
              var d := (now - requests[h].startedAt.value) as real;
              && after.tokensPerSecAt == Some(now)
              && after.tokensPerSec.Some?
              && (was.tokensPerSec.None? ==> after.tokensPerSec.value * d == 1000.0 * tokens as real)
              && (was.tokensPerSec.Some? ==>
                    after.tokensPerSec.value * d
                      == (1.0 - alpha) * was.tokensPerSec.value * d + alpha * (1000.0 * tokens as real))
            else after.tokensPerSec == was.tokensPerSec && after.tokensPerSecAt == was.tokensPerSecAt
  {
    var was := replicas[r];
    if requests[h].startedAt.Some? && now - requests[h].startedAt.value >= 250 && tokens >= 5 {
      var durationMs := now - requests[h].startedAt.value;
      RateTimesDuration(durationMs, tokens);
      if was.tokensPerSec.Some? {
        MixTimesDuration(was.tokensPerSec.value, Rate(durationMs, tokens), alpha, durationMs as real);
      }
    }
  }

  // ------------------------------------------------------------------ placement

  /**
   * The choice, column by column. Among the ready replicas of the model with a free slot
   * that nobody has locked, the one chosen has fewer requests in flight than any other;
   * or as many, and no reading younger than two minutes where the other has one, or a
   * higher such reading; or nothing to tell them apart by, and a lower load, or the same
   * load and the lower id. The affine replica is taken whatever its readings, and
   * nothing is chosen exactly when nothing can be.
   */
  lemma PlacementByColumns(rows: ReplicaTable, model: ModelId, target: Option<ReplicaId>,
                           affineLocked: set<ReplicaId>, locked: set<ReplicaId>, now: Time, q: ReplicaId)
    requires q in rows && q !in locked
    requires rows[q].modelId == model && rows[q].status == Ready && rows[q].inFlight < rows[q].maxConcurrency
    ensures var outcome := Outcomes(rows, model, target, affineLocked, locked, now, THROUGHPUT_FRESH_MS);
            && outcome.Placed? && outcome.replica in rows
            && var r := outcome.replica;
               && rows[r].modelId == model && rows[r].status == Ready && rows[r].inFlight < rows[r].maxConcurrency
               && (if outcome.affinityHit then target == Some(r) && r !in affineLocked
                   else
                     && r !in locked
                     && (r == q || rows[r].inFlight <= rows[q].inFlight)
                     && (r != q && rows[r].inFlight == rows[q].inFlight ==>
                           var rKnown := rows[r].tokensPerSec.Some? && rows[r].tokensPerSecAt.Some?
                                      && rows[r].tokensPerSecAt.value > now - 120_000;
                           var qKnown := rows[q].tokensPerSec.Some? && rows[q].tokensPerSecAt.Some?
                                      && rows[q].tokensPerSecAt.value > now - 120_000;
                           || (!rKnown && qKnown)
                           || (rKnown && qKnown && rows[r].tokensPerSec.value > rows[q].tokensPerSec.value)
                           || (&& rKnown == qKnown
                               && (rKnown ==> rows[r].tokensPerSec.value == rows[q].tokensPerSec.value)
                               && (|| rows[r].loadPct < rows[q].loadPct
                                   || (rows[r].loadPct == rows[q].loadPct && r.rank < q.rank)))))
  {
    PlacementRefinesItsSpecification(rows, model, target, affineLocked, locked, now, THROUGHPUT_FRESH_MS);
    var among := Candidates(rows, model, locked);
    assert q in among;
    if !AffineUsable(rows, model, target, affineLocked) {
      var r := Selected(rows, model, locked, now, THROUGHPUT_FRESH_MS).value;
      assert r in among;
      assert r != q ==> Before(RankOf(rows, r, now, THROUGHPUT_FRESH_MS), RankOf(rows, q, now, THROUGHPUT_FRESH_MS));
    }
  }

  /** The affine replica is taken exactly when it is a ready replica of the model with a free slot and not locked. */
  lemma AffinityByColumns(rows: ReplicaTable, model: ModelId, target: Option<ReplicaId>,
                          affineLocked: set<ReplicaId>, locked: set<ReplicaId>, now: Time)
    ensures var outcome := Outcomes(rows, model, target, affineLocked, locked, now, THROUGHPUT_FRESH_MS);
            && (outcome.Placed? && outcome.affinityHit <==>
                  && target.Some? && target.value in rows && target.value !in affineLocked
                  && rows[target.value].modelId == model && rows[target.value].status == Ready
                  && rows[target.value].inFlight < rows[target.value].maxConcurrency)
            && (outcome.NeedsQueue? ==>
                  forall q :: q in rows && q !in locked ==>
                    rows[q].modelId != model || rows[q].status != Ready || rows[q].inFlight >= rows[q].maxConcurrency)
  {
    forall q | q in rows && q !in locked && rows[q].modelId == model && rows[q].status == Ready
            && rows[q].inFlight < rows[q].maxConcurrency
      ensures Outcomes(rows, model, target, affineLocked, locked, now, THROUGHPUT_FRESH_MS).Placed?
    {
      PlacementByColumns(rows, model, target, affineLocked, locked, now, q);
    }
  }

  // ------------------------------------------------------------------ reconcile

  /**
   * The upsert. A known row keeps its requests in flight, its reading, and its ceiling
   * unless the probe reported one; a new row starts empty with one slot unless it did.
   * Its load is the percentage of the ceiling in use, at most a hundred.
   */
  lemma UpsertByColumns(replicas: ReplicaTable, r: ReplicaId, model: ModelId, status: ReplicaStatus, ceiling: Option<Ceiling>)
    ensures var after := Upserted(replicas, r, model, status, ceiling);
            && after.Keys == replicas.Keys + {r}
            && (forall q :: q in replicas && q != r ==> after[q] == replicas[q])
            && after[r].modelId == model && after[r].status == status
            && (ceiling.Some? ==> after[r].maxConcurrency == ceiling.value)
            && (r in replicas ==>
                  && (ceiling.None? ==> after[r].maxConcurrency == replicas[r].maxConcurrency)
                  && after[r].inFlight == replicas[r].inFlight
                  && after[r].tokensPerSec == replicas[r].tokensPerSec
                  && after[r].tokensPerSecAt == replicas[r].tokensPerSecAt
                  && (if after[r].inFlight >= after[r].maxConcurrency then after[r].loadPct == 100.0
                      else after[r].loadPct * after[r].maxConcurrency as real == 100.0 * after[r].inFlight as real))
            && (r !in replicas ==>
                  && (ceiling.None? ==> after[r].maxConcurrency == 1)
                  && after[r].inFlight == 0 && after[r].loadPct == 0.0
                  && after[r].tokensPerSec == None && after[r].tokensPerSecAt == None)
  {
    if r in replicas { LoadByColumns(replicas[r].inFlight, ceiling.GetOr(replicas[r].maxConcurrency)); }
  }

  lemma LoadByColumns(inFlight: int, ceiling: Ceiling)
    ensures if inFlight >= ceiling then LoadPct(inFlight, ceiling) == 100.0
            else LoadPct(inFlight, ceiling) * ceiling as real == 100.0 * inFlight as real
  {
    var n, c := inFlight as real, ceiling as real;
    var share := n / c;
    assert share * c == n;
    if inFlight >= ceiling {
      assert share >= 1.0 by { if share < 1.0 { Below(share, c); } }
    } else {
      assert share < 1.0 by { if share >= 1.0 { Above(share, c); } }
      assert (share * 100.0) * c == 100.0 * (share * c);
    }
  }

  lemma Below(share: real, c: real)
    requires share < 1.0 && c > 0.0
    ensures share * c < c
  {
  }

  lemma Above(share: real, c: real)
    requires share >= 1.0 && c > 0.0
    ensures share * c >= c
  {
  }

  /** The reconciler's delete drops exactly the rows it did not see and changes no other. */
  lemma PruneByColumns(replicas: ReplicaTable, seen: set<ReplicaId>)
    ensures Pruned(replicas, seen).Keys == replicas.Keys * seen
    ensures forall r :: r in Pruned(replicas, seen) ==> Pruned(replicas, seen)[r] == replicas[r]
  {
  }
}
