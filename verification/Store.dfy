/**
 * The shared Postgres state and the router's operations on it, statement by
 * statement. `now` is the database clock; `locked` is what other transactions
 * hold at that moment.
 */
module Store {
  import opened Wrappers
  import opened Tables
  import Queue
  import opened Placement
  import opened ScaleSignals
  import Protocol
  import opened Reconcile

  const AFFINITY_TTL_MS := 1_800_000

  datatype Affinity = Affinity(model: ModelId, replica: ReplicaId, lastUsedAt: Time)

  class Database {
    var requests: RequestTable
    var replicas: ReplicaTable
    var signals: Signals
    var affinities: map<string, Affinity>

    constructor ()
      ensures requests == map[] && replicas == map[] && signals == map[] && affinities == map[]
    {
      requests, replicas, signals, affinities := map[], map[], map[], map[];
    }

    // --------------------------------------------------------------- queue.ts

    /** A second insert under the same id violates the primary key and is refused. */
    method EnqueueRequest(h: RequestId, now: Time) returns (inserted: bool)
      modifies this`requests
      ensures inserted <==> h !in old(requests)
      ensures requests == if inserted then old(requests)[h := Queue.NewRequest(now)] else old(requests)
    {
      inserted := h !in requests;
      if inserted {
        requests := requests[h := Request(Queued, None, None, None, now, None, None, None, None, None, 0)];
      }
    }

    method RouteRequest(h: RequestId, model: ModelId)
      modifies this`requests
      ensures requests == Queue.RouteTo(old(requests), h, model)
    {
      if h in requests { requests := requests[h := requests[h].(routedModel := Some(model))]; }
    }

    method SweepQueueTimeouts(now: Time, timeoutMs: int) returns (swept: set<RequestId>)
      modifies this`requests
      ensures requests == Queue.SweepQueue(old(requests), now, timeoutMs)
      ensures forall h :: h in swept <==>
                h in old(requests) && old(requests)[h].status == Queued && now - old(requests)[h].arrivedAt > timeoutMs
      ensures forall h :: h in swept <==> h in old(requests) && requests[h] != old(requests)[h]
    {
      swept := set h | h in requests && requests[h].status == Queued && requests[h].arrivedAt < now - timeoutMs;
      requests := map h | h in requests ::
        if h in swept
        then requests[h].(status := QueueTimeout, errorCode := Some(CodeQueueTimeout), completedAt := Some(now))
        else requests[h];
    }

    method ExpireQueuedRequest(h: RequestId, now: Time) returns (expired: bool)
      modifies this`requests
      ensures requests == Queue.Expire(old(requests), h, now)
      ensures expired <==> requests != old(requests)
    {
      expired := h in requests && requests[h].status == Queued;
      if expired {
        requests := requests[h := requests[h].(status := QueueTimeout, errorCode := Some(CodeQueueTimeout),
                                               completedAt := Some(now))];
        assert requests[h].status != old(requests)[h].status;
      }
    }

    method MarkStreamStarted(h: RequestId, r: ReplicaId, now: Time)
      modifies this`requests
      ensures requests == Queue.MarkStarted(old(requests), h, r, now)
    {
      if h in requests {
        requests := requests[h := requests[h].(status := Streaming, replicaId := Some(r),
                                               startedAt := Some(now), lastTokenAt := Some(now))];
      }
    }

    method RecordTokenEmitted(h: RequestId, now: Time)
      modifies this`requests
      ensures requests == Queue.RecordToken(old(requests), h, now)
    {
      if h in requests {
        var first := requests[h].firstTokenAt;
        requests := requests[h := requests[h].(lastTokenAt := Some(now),
                                               firstTokenAt := if first.None? then Some(now) else first)];
      }
    }

    method SweepStallTimeouts(now: Time, thresholdMs: int) returns (swept: set<RequestId>)
      modifies this`requests
      ensures requests == Queue.SweepStalls(old(requests), now, thresholdMs)
      ensures forall h :: h in swept <==>
                && h in old(requests) && old(requests)[h].status == Streaming && old(requests)[h].firstTokenAt.Some?
                && old(requests)[h].lastTokenAt.Some? && now - old(requests)[h].lastTokenAt.value > thresholdMs
      ensures forall h :: h in swept <==> h in old(requests) && requests[h] != old(requests)[h]
    {
      swept := set h | h in requests && Queue.Stalled(requests[h], now, thresholdMs);
      requests := map h | h in requests ::
        if h in swept
        then requests[h].(status := StallTimeout, errorCode := Some(CodeStallTimeout), completedAt := Some(now))
        else requests[h];
    }

    method SweepFirstTokenTimeouts(allowances: Queue.Allowances, now: Time, defaultMs: int) returns (swept: set<RequestId>)
      modifies this`requests
      ensures requests == Queue.SweepColdStarts(old(requests), allowances, now, defaultMs)
      ensures forall h :: h in swept <==> h in old(requests) && requests[h] != old(requests)[h]
    {
      swept := set h | h in requests && Queue.ColdStartExpired(requests[h], allowances, now, defaultMs);
      requests := map h | h in requests ::
        if h in swept
        then requests[h].(status := StallTimeout, errorCode := Some(CodeStallTimeout), completedAt := Some(now))
        else requests[h];
    }

    /** One transaction: finish the row, then settle the replica the row names. */
    method CompleteRequest(h: RequestId, tokens: int, now: Time, alpha: real)
      modifies this`requests, this`replicas
      ensures requests == Queue.CompleteRequests(old(requests), h, tokens, now)
      ensures replicas == Queue.CompleteReplicas(old(replicas), old(requests), h, tokens, now, alpha)
    {
      if h !in requests { return; }
      var duration := if requests[h].startedAt.Some? then Max(0, now - requests[h].startedAt.value) else 0;
      requests := requests[h := requests[h].(status := Completed, completedAt := Some(now), outputTokens := tokens,
                                             durationMs := Some(duration))];
      var replicaId := requests[h].replicaId;
      if replicaId.None? || replicaId.value !in replicas { return; }
      var r := replicas[replicaId.value];
      var settled := r.(inFlight := Max(0, r.inFlight - 1));
      if duration >= Queue.MIN_SAMPLE_DURATION_MS && tokens >= Queue.MIN_SAMPLE_TOKENS {
        var sample := tokens as real / (duration as real / 1000.0);
        assert sample == Queue.Rate(duration, tokens);
        var average := if r.tokensPerSec.None? then sample else Queue.Mix(r.tokensPerSec.value, sample, alpha);
        settled := settled.(tokensPerSec := Some(average), tokensPerSecAt := Some(now));
      }
      assert settled == Queue.Settled(r, duration, tokens, now, alpha);
      assert duration == Queue.Finished(old(requests)[h], tokens, now).durationMs.value;
      replicas := replicas[replicaId.value := settled];
    }

    // ------------------------------------------------------------------ v1.ts

    method MarkFailed(h: RequestId, code: ErrorCode, now: Time)
      modifies this`requests
      ensures requests == Queue.MarkFailed(old(requests), h, code, now)
    {
      if h in requests {
        requests := requests[h := requests[h].(status := Queue.StatusFor(code), errorCode := Some(code),
                                               completedAt := Some(now))];
      }
    }

    method ReleaseSlot(r: ReplicaId)
      modifies this`replicas
      ensures replicas == Queue.ReleaseSlot(old(replicas), r)
    {
      if r in replicas { replicas := replicas[r := replicas[r].(inFlight := Max(0, replicas[r].inFlight - 1))]; }
    }

    /** Two statements: the row's status, then the caller's own idea of which slot to free. */
    method FailRequest(h: RequestId, code: ErrorCode, replicaId: Option<ReplicaId>, now: Time)
      modifies this`requests, this`replicas
      ensures requests == Queue.MarkFailed(old(requests), h, code, now)
      ensures replicas == if replicaId.Some? then Queue.ReleaseSlot(old(replicas), replicaId.value) else old(replicas)
    {
      MarkFailed(h, code, now);
      if replicaId.Some? { ReleaseSlot(replicaId.value); }
    }

    // ----------------------------------------------------------- retention.ts

    method DeleteOldRequests(now: Time, olderThanMs: int)
      modifies this`requests
      ensures requests == Protocol.Retained(old(requests), now, olderThanMs)
    {
      var expired := set h | h in requests && requests[h].arrivedAt < now - olderThanMs;
      requests := map h | h in requests && h !in expired :: requests[h];
    }

    // ---------------------------------------------------------------- keda.ts

    method RequestScaleUp(model: ModelId, now: Time, debounceMs: nat)
      modifies this`signals
      ensures signals == Requested(old(signals), model, now, debounceMs)
    {
      if model !in signals {
        signals := signals[model := now];
      } else if signals[model] < now - debounceMs {
        signals := signals[model := now];
      }
    }

    method WantsScaleUp(model: ModelId, now: Time, withinMs: nat) returns (wanted: bool)
      ensures wanted <==> Wants(signals, model, now, withinMs)
    {
      wanted := if model in signals then signals[model] > now - withinMs else false;
    }

    // ---------------------------------------------------- affinity.ts, placing

    function AffinityTarget(key: Option<string>, model: ModelId, now: Time): Option<ReplicaId>
      reads this`affinities
    {
      if key.Some? && key.value in affinities && affinities[key.value].model == model
         && affinities[key.value].lastUsedAt > now - AFFINITY_TTL_MS
      then Some(affinities[key.value].replica) else None
    }

    method RecordAffinity(key: string, model: ModelId, r: ReplicaId, now: Time)
      modifies this`affinities
      ensures affinities == old(affinities)[key := Affinity(model, r, now)]
      ensures forall later :: AffinityTarget(Some(key), model, later)
                           == if later < now + 1_800_000 then Some(r) else None
      ensures forall other: string, m, t :: other != key ==>
                AffinityTarget(Some(other), m, t) == old(AffinityTarget(Some(other), m, t))
      ensures forall m, t :: m != model ==> AffinityTarget(Some(key), m, t) == None
    {
      affinities := affinities[key := Affinity(model, r, now)];
    }

    /** The affine replica's conditional increment. A claim returns what in_flight was. */
    method ClaimAffine(model: ModelId, target: ReplicaId, locked: set<ReplicaId>) returns (was: Option<int>)
      modifies this`replicas
      ensures was.Some? <==> target in Candidates(old(replicas), model, locked)
      ensures was.Some? ==> was.value == old(replicas)[target].inFlight && replicas == Claim(old(replicas), target)
      ensures was.None? ==> replicas == old(replicas)
    {
      was := None;
      if target in replicas && target !in locked && replicas[target].modelId == model
         && replicas[target].status == Ready && replicas[target].inFlight < replicas[target].maxConcurrency {
        was := Some(replicas[target].inFlight);
        replicas := replicas[target := replicas[target].(inFlight := replicas[target].inFlight + 1)];
      }
    }

    /** The general statement: select the least, and increment it. */
    method ClaimLeast(model: ModelId, locked: set<ReplicaId>, now: Time) returns (choice: Option<ReplicaId>, was: int)
      modifies this`replicas
      ensures choice == Selected(old(replicas), model, locked, now, THROUGHPUT_FRESH_MS)
      ensures choice.Some? ==> was == old(replicas)[choice.value].inFlight && replicas == Claim(old(replicas), choice.value)
      ensures choice.None? ==> replicas == old(replicas)
    {
      choice := SelectLeast(replicas, model, locked, now);
      was := 0;
      if choice.Some? {
        was := replicas[choice.value].inFlight;
        replicas := replicas[choice.value := replicas[choice.value].(inFlight := was + 1)];
      }
    }

    /**
     * placeRequest: the affine claim, then the general one. A placed request
     * has taken one slot, signalled a scale-up if it woke an idle replica, and
     * left its conversation's affinity on the replica it got.
     */
    method PlaceRequest(model: ModelId, key: Option<string>, affineLocked: set<ReplicaId>, locked: set<ReplicaId>, now: Time)
      returns (outcome: Outcome)
      modifies this`replicas, this`signals, this`affinities
      ensures outcome == Outcomes(old(replicas), model, old(AffinityTarget(key, model, now)), affineLocked, locked,
                                  now, THROUGHPUT_FRESH_MS)
      ensures outcome.Placed? ==> outcome.replica in old(replicas)
      ensures replicas == ClaimedBy(old(replicas), outcome)
      ensures signals == if outcome.Placed? && outcome.oldInFlight == 0
                         then Requested(old(signals), model, now, DEBOUNCE_MS) else old(signals)
      ensures signals == if outcome.Placed? && outcome.oldInFlight == 0
                            && (model in old(signals) ==> now - old(signals)[model] > 1_000)
                         then old(signals)[model := now] else old(signals)
      ensures affinities == if outcome.Placed? && key.Some?
                            then old(affinities)[key.value := Affinity(model, outcome.replica, now)] else old(affinities)
      ensures outcome.Placed? && key.Some? ==> AffinityTarget(key, model, now) == Some(outcome.replica)
    {
      if key.Some? {
        var target := AffinityTarget(key, model, now);
        if target.Some? {
          var was := ClaimAffine(model, target.value, affineLocked);
          if was.Some? {
            if was.value == 0 { RequestScaleUp(model, now, DEBOUNCE_MS); }
            RecordAffinity(key.value, model, target.value, now);
            return Placed(target.value, was.value, true);
          }
        }
      }
      var choice, was := ClaimLeast(model, locked, now);
      if choice.None? {
        return NeedsQueue;
      }
      if key.Some? { RecordAffinity(key.value, model, choice.value, now); }
      if was == 0 { RequestScaleUp(model, now, DEBOUNCE_MS); }
      return Placed(choice.value, was, false);
    }

    // ----------------------------------------------------------- reconcile.ts

    /** INSERT ... ON CONFLICT DO UPDATE: a known row keeps its slots and its reading. */
    method UpsertReplica(r: ReplicaId, model: ModelId, status: ReplicaStatus, ceiling: Option<Ceiling>)
      modifies this`replicas
      ensures replicas == Protocol.Upserted(old(replicas), r, model, status, ceiling)
    {
      if r !in replicas {
        replicas := replicas[r := Replica(model, status, 0, if ceiling.Some? then ceiling.value else 1, 0.0, None, None)];
      } else {
        var row := replicas[r].(modelId := model, status := status);
        if ceiling.Some? { row := row.(maxConcurrency := ceiling.value); }
        replicas := replicas[r := row.(loadPct := Protocol.LoadPct(row.inFlight, row.maxConcurrency))];
      }
    }

    method PruneReplicas(seen: set<ReplicaId>) returns (removed: nat)
      modifies this`replicas
      ensures replicas == Protocol.Pruned(old(replicas), seen) && removed == |old(replicas).Keys - seen|
    {
      removed := |replicas.Keys - seen|;
      replicas := map r | r in replicas && r in seen :: replicas[r];
    }

    /** One pass, with nothing else running between its statements; `fleet` is what discovery and probing answer. */
    method ReconcileReplicas(entries: seq<Entry>, fleet: Entry -> seq<Probe>) returns (summary: Summary)
      modifies this`replicas
      ensures var sightings := Sightings(Probed(entries, |entries|), fleet);
              && replicas == Reconciled(old(replicas), sightings)
              && summary == Tally(|entries|, sightings).(removed := |old(replicas).Keys - SeenIds(sightings)|)
              && summary.ready == Count(sightings, ProbedReady)
              && summary.loading == Count(sightings, ProbedLoading)
              && summary.error == Count(sightings, ProbedError)
              && summary.ready + summary.loading + summary.error == |sightings|
    {
      var backends := BackendsToProbe(entries);
      ghost var sightings: seq<Sighting> := [];
      var seen: set<ReplicaId> := {};
      summary := Summary(|entries|, 0, 0, 0, 0);
      for b := 0 to |backends|
        invariant sightings == Sightings(backends[..b], fleet)
        invariant Recorded(old(replicas), replicas, sightings, seen, summary, |entries|)
      {
        assert backends[..b + 1][..b] == backends[..b];
        seen, summary := RecordProbes(backends[b], fleet(backends[b]), old(replicas), sightings, seen, summary);
        sightings := sightings + SightingsOf(backends[b], fleet(backends[b]));
      }
      assert backends[..|backends|] == backends;
      UpsertsKeepSlots(old(replicas), sightings);
      assert replicas.Keys - seen == old(replicas).Keys - seen;
      CountsAddUp(sightings);
      var removed := PruneReplicas(seen);
      summary := summary.(removed := removed);
    }

    /** The upserts for one backend's probes. */
    method RecordProbes(entry: Entry, probes: seq<Probe>, ghost start: ReplicaTable, ghost before: seq<Sighting>,
                        seen: set<ReplicaId>, summary: Summary)
      returns (seen': set<ReplicaId>, summary': Summary)
      requires Recorded(start, replicas, before, seen, summary, summary.models)
      modifies this`replicas
      ensures Recorded(start, replicas, before + SightingsOf(entry, probes), seen', summary', summary.models)
    {
      seen', summary' := seen, summary;
      ghost var sightings := before;
      for p := 0 to |probes|
        invariant sightings == before + SightingsOf(entry, probes[..p])
        invariant Recorded(start, replicas, sightings, seen', summary', summary.models)
      {
        seen', summary' := RecordProbe(entry, probes[p], start, sightings, seen', summary');
        sightings := sightings + [Sighting(entry.backend, probes[p])];
        assert SightingsOf(entry, probes[..p + 1]) == SightingsOf(entry, probes[..p]) + [Sighting(entry.backend, probes[p])];
      }
      assert probes[..|probes|] == probes;
    }

    /** One probe's upsert. */
    method RecordProbe(entry: Entry, probe: Probe, ghost start: ReplicaTable, ghost before: seq<Sighting>,
                       seen: set<ReplicaId>, summary: Summary)
      returns (seen': set<ReplicaId>, summary': Summary)
      requires Recorded(start, replicas, before, seen, summary, summary.models)
      modifies this`replicas
      ensures Recorded(start, replicas, before + [Sighting(entry.backend, probe)], seen', summary', summary.models)
    {
      OneMoreSighting(start, before, Sighting(entry.backend, probe));
      seen' := seen + {probe.id};
      summary' := match probe.status
        case ProbedReady => summary.(ready := summary.ready + 1)
        case ProbedLoading => summary.(loading := summary.loading + 1)
        case ProbedError => summary.(error := summary.error + 1);
      UpsertReplica(probe.id, entry.backend, StatusOf(probe.status), probe.ceiling);
    }
  }

  /** The table, the ids seen and the counts, after the upserts for these sightings. */
  ghost predicate Recorded(start: ReplicaTable, now: ReplicaTable, sightings: seq<Sighting>,
                           seen: set<ReplicaId>, summary: Summary, models: int)
  {
    now == UpsertAll(start, sightings) && seen == SeenIds(sightings) && summary == Tally(models, sightings)
  }

  /** Which entries to probe: one per distinct backend, the owner's own where it is registered. */
  method BackendsToProbe(entries: seq<Entry>) returns (backends: seq<Entry>)
    ensures backends == Probed(entries, |entries|)
  {
    var mentioned: seq<ModelId> := [];
    backends := [];
    for n := 0 to |entries|
      invariant mentioned == Mentioned(entries[..n]) && backends == Probed(entries, n)
    {
      assert entries[..n + 1][..n] == entries[..n];
      if entries[n].backend !in mentioned {
        mentioned := mentioned + [entries[n].backend];
        backends := backends + [FindEntry(entries, entries[n].backend).GetOr(entries[n])];
      }
    }
  }

  ghost function Tally(models: int, sightings: seq<Sighting>): Summary {
    Summary(models, Count(sightings, ProbedReady), Count(sightings, ProbedLoading), Count(sightings, ProbedError), 0)
  }

  lemma OneMoreSighting(replicas: ReplicaTable, sightings: seq<Sighting>, s: Sighting)
    ensures UpsertAll(replicas, sightings + [s])
         == Protocol.Upserted(UpsertAll(replicas, sightings), s.probe.id, s.backend, StatusOf(s.probe.status), s.probe.ceiling)
    ensures SeenIds(sightings + [s]) == SeenIds(sightings) + {s.probe.id}
    ensures forall status :: Count(sightings + [s], status)
                          == Count(sightings, status) + (if s.probe.status == status then 1 else 0)
  {
    var more := sightings + [s];
    assert more[..|more| - 1] == sightings;
    assert forall i :: 0 <= i < |sightings| ==> more[i] == sightings[i];
    assert more[|sightings|] == s;
    forall r | r in SeenIds(sightings) ensures r in SeenIds(more) {
      var i :| 0 <= i < |sightings| && sightings[i].probe.id == r;
      assert more[i].probe.id == r;
    }
  }

  // --------------------------------------------------------- the general SELECT

  predicate AllRows(rows: ReplicaTable, ids: seq<ReplicaId>) {
    forall k :: 0 <= k < |ids| ==> ids[k] in rows
  }

  predicate Ordered(rows: ReplicaTable, ids: seq<ReplicaId>, now: Time)
    requires AllRows(rows, ids)
  {
    forall i, j :: 0 <= i < j < |ids| ==>
      Before(RankOf(rows, ids[i], now, THROUGHPUT_FRESH_MS), RankOf(rows, ids[j], now, THROUGHPUT_FRESH_MS))
  }

  /** Insertion into an ordered sequence of rows: before the first row that ranks after it. */
  method InsertByRank(rows: ReplicaTable, ids: seq<ReplicaId>, r: ReplicaId, now: Time) returns (more: seq<ReplicaId>)
    requires AllRows(rows, ids) && Ordered(rows, ids, now) && r in rows && r !in ids
    ensures AllRows(rows, more) && Ordered(rows, more, now)
    ensures forall q :: q in more <==> q == r || q in ids
  {
    var k := 0;
    while k < |ids|
           && Before(RankOf(rows, ids[k], now, THROUGHPUT_FRESH_MS), RankOf(rows, r, now, THROUGHPUT_FRESH_MS))
      invariant 0 <= k <= |ids|
      invariant forall i :: 0 <= i < k ==>
        Before(RankOf(rows, ids[i], now, THROUGHPUT_FRESH_MS), RankOf(rows, r, now, THROUGHPUT_FRESH_MS))
    {
      k := k + 1;
    }
    more := ids[..k] + [r] + ids[k..];
    RestRankAfter(rows, ids, r, now, k);
    Inserted(rows, ids, r, now, k);
  }

  lemma RestRankAfter(rows: ReplicaTable, ids: seq<ReplicaId>, r: ReplicaId, now: Time, k: nat)
    requires AllRows(rows, ids) && Ordered(rows, ids, now) && r in rows && r !in ids && k <= |ids|
    requires k < |ids| ==>
      !Before(RankOf(rows, ids[k], now, THROUGHPUT_FRESH_MS), RankOf(rows, r, now, THROUGHPUT_FRESH_MS))
    ensures forall j :: k <= j < |ids| ==>
      Before(RankOf(rows, r, now, THROUGHPUT_FRESH_MS), RankOf(rows, ids[j], now, THROUGHPUT_FRESH_MS))
  {
    forall j | k <= j < |ids|
      ensures Before(RankOf(rows, r, now, THROUGHPUT_FRESH_MS), RankOf(rows, ids[j], now, THROUGHPUT_FRESH_MS))
    {
      assert ids[k] in ids;
      BeforeIsStrictTotal(RankOf(rows, r, now, THROUGHPUT_FRESH_MS), RankOf(rows, ids[k], now, THROUGHPUT_FRESH_MS),
                          RankOf(rows, ids[j], now, THROUGHPUT_FRESH_MS));
    }
  }

  lemma Inserted(rows: ReplicaTable, ids: seq<ReplicaId>, r: ReplicaId, now: Time, k: nat)
    requires AllRows(rows, ids) && Ordered(rows, ids, now) && r in rows && k <= |ids|
    requires forall i :: 0 <= i < k ==>
      Before(RankOf(rows, ids[i], now, THROUGHPUT_FRESH_MS), RankOf(rows, r, now, THROUGHPUT_FRESH_MS))
    requires forall j :: k <= j < |ids| ==>
      Before(RankOf(rows, r, now, THROUGHPUT_FRESH_MS), RankOf(rows, ids[j], now, THROUGHPUT_FRESH_MS))
    ensures var more := ids[..k] + [r] + ids[k..];
            && AllRows(rows, more) && Ordered(rows, more, now)
            && forall q :: q in more <==> q == r || q in ids
  {
    assert ids == ids[..k] + ids[k..];
  }

  /** ORDER BY: the eligible rows, least first. */
  method OrderEligible(rows: ReplicaTable, model: ModelId, now: Time) returns (ids: seq<ReplicaId>)
    ensures AllRows(rows, ids) && Ordered(rows, ids, now)
    ensures forall r :: r in ids <==> r in rows && Eligible(rows[r], model)
  {
    ids := [];
    var rest := set r | r in rows && rows[r].modelId == model && rows[r].status == Ready
                     && rows[r].inFlight < rows[r].maxConcurrency;
    while rest != {}
      invariant AllRows(rows, ids) && Ordered(rows, ids, now)
      invariant forall r :: r in rest ==> r in rows && Eligible(rows[r], model) && r !in ids
      invariant forall r :: r in rows && Eligible(rows[r], model) ==> r in rest || r in ids
      invariant forall r :: r in ids ==> r in rows && Eligible(rows[r], model)
      decreases rest
    {
      var r :| r in rest;
      ids := InsertByRank(rows, ids, r, now);
      rest := rest - {r};
    }
  }

  /** LIMIT 1 FOR UPDATE SKIP LOCKED: down the ordered rows to the first that is not locked. */
  method SelectLeast(rows: ReplicaTable, model: ModelId, locked: set<ReplicaId>, now: Time)
    returns (choice: Option<ReplicaId>)
    ensures choice == Selected(rows, model, locked, now, THROUGHPUT_FRESH_MS)
  {
    var ids := OrderEligible(rows, model, now);
    for k := 0 to |ids|
      invariant forall j :: 0 <= j < k ==> ids[j] in locked
    {
      if ids[k] !in locked {
        FirstUnlockedIsLeast(rows, model, locked, now, ids, k);
        return Some(ids[k]);
      }
    }
    assert Candidates(rows, model, locked) == {};
    return None;
  }

  lemma FirstUnlockedIsLeast(rows: ReplicaTable, model: ModelId, locked: set<ReplicaId>, now: Time,
                             ids: seq<ReplicaId>, k: nat)
    requires AllRows(rows, ids) && Ordered(rows, ids, now)
    requires forall r :: r in ids <==> r in rows && Eligible(rows[r], model)
    requires k < |ids| && ids[k] !in locked && forall j :: 0 <= j < k ==> ids[j] in locked
    ensures Selected(rows, model, locked, now, THROUGHPUT_FRESH_MS) == Some(ids[k])
  {
    var among := Candidates(rows, model, locked);
    assert ids[k] in ids && ids[k] in among;
    forall q | q in among && q != ids[k]
      ensures Before(RankOf(rows, ids[k], now, THROUGHPUT_FRESH_MS), RankOf(rows, q, now, THROUGHPUT_FRESH_MS))
    {
      assert q in ids;
      var m :| 0 <= m < |ids| && ids[m] == q;
      assert !(m < k);
    }
    LeastIsUnique(rows, among, ids[k], Selected(rows, model, locked, now, THROUGHPUT_FRESH_MS).value,
                  now, THROUGHPUT_FRESH_MS);
  }

  // ------------------------------------------------------- waitForPlacement

  /** What one turn of the retry loop meets: the clock, the tables as other sessions left them, and the locks. */
  datatype Poll = Poll(now: Time, replicas: ReplicaTable, requests: RequestTable, target: Option<ReplicaId>,
                       affineLocked: set<ReplicaId>, locked: set<ReplicaId>)

  ghost function At(poll: Poll, model: ModelId): Outcome {
    Outcomes(poll.replicas, model, poll.target, poll.affineLocked, poll.locked, poll.now, THROUGHPUT_FRESH_MS)
  }

  /** Poll `i` is the one that places the request: in time, and no earlier one could. */
  ghost predicate PlacesFirst(polls: seq<Poll>, i: int, model: ModelId, deadline: Time) {
    && 0 <= i < |polls|
    && (forall k :: 0 <= k <= i ==> polls[k].now < deadline)
    && (forall k :: 0 <= k < i ==> At(polls[k], model).NeedsQueue?)
    && At(polls[i], model).Placed?
  }

  /**
   * The retry loop. The request is placed by the first poll before the deadline
   * that finds a slot; otherwise the first poll at or past the deadline expires
   * that request's own row, if it is still queued, and takes no slot.
   */
  method WaitForPlacement(model: ModelId, h: RequestId, startedAt: Time, polls: seq<Poll>)
    returns (outcome: Outcome, stopped: nat, replicas: ReplicaTable, requests: RequestTable)
    requires polls != [] && polls[|polls| - 1].now >= startedAt + Queue.QUEUE_TIMEOUT_MS
    ensures stopped < |polls|
    ensures outcome.Placed? <==> PlacesFirst(polls, stopped, model, startedAt + 300_000)
    ensures outcome.Placed? ==>
              && outcome == At(polls[stopped], model)
              && outcome.replica in polls[stopped].replicas
              && replicas == Claim(polls[stopped].replicas, outcome.replica)
              && requests == polls[stopped].requests
    ensures outcome.NeedsQueue? ==>
              && polls[stopped].now >= startedAt + 300_000
              && (forall k :: 0 <= k < stopped ==>
                    polls[k].now < startedAt + 300_000 && At(polls[k], model).NeedsQueue?)
              && replicas == polls[stopped].replicas
              && requests == Queue.Expire(polls[stopped].requests, h, polls[stopped].now)
  {
    var deadline := startedAt + Queue.QUEUE_TIMEOUT_MS;
    stopped := 0;
    while polls[stopped].now < deadline
      invariant stopped < |polls|
      invariant forall k :: 0 <= k < stopped ==> polls[k].now < deadline && At(polls[k], model).NeedsQueue?
      decreases |polls| - stopped
    {
      var poll := polls[stopped];
      outcome := Attempt(poll, model);
      if outcome.Placed? {
        replicas := poll.replicas[outcome.replica := poll.replicas[outcome.replica].(
                                    inFlight := poll.replicas[outcome.replica].inFlight + 1)];
        requests := poll.requests;
        return;
      }
      stopped := stopped + 1;
    }
    outcome := NeedsQueue;
    replicas := polls[stopped].replicas;
    requests := Queue.Expire(polls[stopped].requests, h, polls[stopped].now);
  }

  method Attempt(poll: Poll, model: ModelId) returns (outcome: Outcome)
    ensures outcome == At(poll, model)
    ensures outcome.Placed? ==> outcome.replica in poll.replicas
  {
    if poll.target.Some? && poll.target.value in Candidates(poll.replicas, model, poll.affineLocked) {
      return Placed(poll.target.value, poll.replicas[poll.target.value].inFlight, true);
    }
    var choice := SelectLeast(poll.replicas, model, poll.locked, poll.now);
    outcome := if choice.None? then NeedsQueue else Placed(choice.value, poll.replicas[choice.value].inFlight, false);
  }
}
