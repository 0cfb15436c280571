/**
 * What each statement of server/src/scheduler/queue.ts does to the two tables,
 * as a function of the tables and of the database clock `now`. The methods of
 * `Store` are proved against these functions; everything the queue promises is
 * proved about them.
 */
module Queue {
  import opened Wrappers
  import opened Tables

  const QUEUE_TIMEOUT_MS := 300_000
  const EWMA_ALPHA := 0.3
  const MIN_SAMPLE_DURATION_MS := 250
  const MIN_SAMPLE_TOKENS := 5

  /** The registry column the first-token sweep joins on: an optional per-model allowance. */
  type Allowances = map<ModelId, Option<int>>

  // ---------------------------------------------------------------- requests

  function NewRequest(now: Time): Request {
    Request(Queued, None, None, None, now, None, None, None, None, None, 0)
  }

  function TimedOut(row: Request, status: RequestStatus, code: ErrorCode, now: Time): Request {
    row.(status := status, errorCode := Some(code), completedAt := Some(now))
  }

  predicate QueueExpired(row: Request, now: Time, timeoutMs: int) {
    row.status == Queued && row.arrivedAt < now - timeoutMs
  }

  /** A null timestamp makes the SQL comparison null, so the row is not selected. */
  predicate Stalled(row: Request, now: Time, thresholdMs: int) {
    && row.status == Streaming
    && row.firstTokenAt.Some?
    && row.lastTokenAt.Some?
    && row.lastTokenAt.value < now - thresholdMs
  }

  predicate ColdStartExpired(row: Request, allowances: Allowances, now: Time, defaultMs: int) {
    && row.routedModel.Some?
    && row.routedModel.value in allowances
    && row.status == Streaming
    && row.firstTokenAt.None?
    && row.startedAt.Some?
    && row.startedAt.value < now - allowances[row.routedModel.value].GetOr(defaultMs)
  }

  function QueueSwept(row: Request, now: Time, timeoutMs: int): Request {
    if QueueExpired(row, now, timeoutMs) then TimedOut(row, QueueTimeout, CodeQueueTimeout, now) else row
  }

  function StallSwept(row: Request, now: Time, thresholdMs: int): Request {
    if Stalled(row, now, thresholdMs) then TimedOut(row, StallTimeout, CodeStallTimeout, now) else row
  }

  function ColdStartSwept(row: Request, allowances: Allowances, now: Time, defaultMs: int): Request {
    if ColdStartExpired(row, allowances, now, defaultMs)
    then TimedOut(row, StallTimeout, CodeStallTimeout, now) else row
  }

  function SweepQueue(requests: RequestTable, now: Time, timeoutMs: int): RequestTable {
    map h | h in requests :: QueueSwept(requests[h], now, timeoutMs)
  }

  function SweepStalls(requests: RequestTable, now: Time, thresholdMs: int): RequestTable {
    map h | h in requests :: StallSwept(requests[h], now, thresholdMs)
  }

  function SweepColdStarts(requests: RequestTable, allowances: Allowances, now: Time, defaultMs: int): RequestTable {
    map h | h in requests :: ColdStartSwept(requests[h], allowances, now, defaultMs)
  }

  function Expire(requests: RequestTable, h: RequestId, now: Time): RequestTable {
    if h in requests && requests[h].status == Queued
    then requests[h := TimedOut(requests[h], QueueTimeout, CodeQueueTimeout, now)] else requests
  }

  function RouteTo(requests: RequestTable, h: RequestId, model: ModelId): RequestTable {
    if h in requests then requests[h := requests[h].(routedModel := Some(model))] else requests
  }

  function MarkStarted(requests: RequestTable, h: RequestId, r: ReplicaId, now: Time): RequestTable {
    if h in requests
    then requests[h := requests[h].(status := Streaming, replicaId := Some(r),
                                    startedAt := Some(now), lastTokenAt := Some(now))]
    else requests
  }

  function TokenEmitted(row: Request, now: Time): Request {
    row.(lastTokenAt := Some(now),
         firstTokenAt := if row.firstTokenAt.Some? then row.firstTokenAt else Some(now))
  }

  function RecordToken(requests: RequestTable, h: RequestId, now: Time): RequestTable {
    if h in requests then requests[h := TokenEmitted(requests[h], now)] else requests
  }

  function StatusFor(code: ErrorCode): RequestStatus {
    match code
    case CodeQueueTimeout => QueueTimeout
    case CodeStallTimeout => StallTimeout
    case CodeReplicaUnavailable => ReplicaUnavailable
    case _ => Failed
  }

  /** The first of failRequest's two statements; the second is `ReleaseSlot`. */
  function MarkFailed(requests: RequestTable, h: RequestId, code: ErrorCode, now: Time): RequestTable {
    if h in requests then requests[h := TimedOut(requests[h], StatusFor(code), code, now)] else requests
  }

  function Finished(row: Request, tokens: int, now: Time): Request {
    row.(status := Completed, completedAt := Some(now), outputTokens := tokens,
         durationMs := Some(if row.startedAt.Some? then Max(0, now - row.startedAt.value) else 0))
  }

  // ---------------------------------------------------------------- replicas

  function Freed(row: Replica): Replica {
    row.(inFlight := Max(0, row.inFlight - 1))
  }

  function ReleaseSlot(replicas: ReplicaTable, r: ReplicaId): ReplicaTable {
    if r in replicas then replicas[r := Freed(replicas[r])] else replicas
  }

  predicate Qualifies(durationMs: int, tokens: int) {
    durationMs >= MIN_SAMPLE_DURATION_MS && tokens >= MIN_SAMPLE_TOKENS
  }

  /** Tokens per second over one request. */
  function Rate(durationMs: int, tokens: int): real
    requires durationMs > 0
  {
    tokens as real / (durationMs as real / 1000.0)
  }

  /** The weighted average, `alpha` being the newest sample's weight. */
  function Mix(average: real, sample: real, alpha: real): real {
    (1.0 - alpha) * average + alpha * sample
  }

  function FoldSample(row: Replica, durationMs: int, tokens: int, now: Time, alpha: real): Replica {
    if Qualifies(durationMs, tokens) then
      row.(tokensPerSec := Some(match row.tokensPerSec
                                case None => Rate(durationMs, tokens)
                                case Some(v) => Mix(v, Rate(durationMs, tokens), alpha)),
           tokensPerSecAt := Some(now))
    else row
  }

  /** The replica row after one completion: its slot freed and its throughput sample folded in. */
  function Settled(row: Replica, durationMs: int, tokens: int, now: Time, alpha: real): Replica {
    FoldSample(Freed(row), durationMs, tokens, now, alpha)
  }

  /** completeRequest's transaction. The slot freed is the one the request row names, not the caller's. */
  function CompleteRequests(requests: RequestTable, h: RequestId, tokens: int, now: Time): RequestTable {
    if h in requests then requests[h := Finished(requests[h], tokens, now)] else requests
  }

  function CompleteReplicas(replicas: ReplicaTable, requests: RequestTable, h: RequestId, tokens: int,
                            now: Time, alpha: real): ReplicaTable
  {
    if h in requests && requests[h].replicaId.Some? && requests[h].replicaId.value in replicas then
      var r := requests[h].replicaId.value;
      replicas[r := Settled(replicas[r], Finished(requests[h], tokens, now).durationMs.value, tokens, now, alpha)]
    else replicas
  }

  // ---------------------------------------------------- what the sweeps promise

  /** No row is ever selected by two of the three sweeps, whenever each runs. */
  lemma SweepGuardsAreDisjoint(row: Request, allowances: Allowances, t: Time, u: Time, v: Time,
                               queueMs: int, stallMs: int, firstMs: int)
    ensures !(QueueExpired(row, t, queueMs) && Stalled(row, u, stallMs))
    ensures !(QueueExpired(row, t, queueMs) && ColdStartExpired(row, allowances, v, firstMs))
    ensures !(Stalled(row, u, stallMs) && ColdStartExpired(row, allowances, v, firstMs))
  {
  }

  lemma SweepsCommuteOnARow(row: Request, allowances: Allowances, t: Time, u: Time, v: Time,
                            queueMs: int, stallMs: int, firstMs: int)
    ensures QueueSwept(StallSwept(row, u, stallMs), t, queueMs) == StallSwept(QueueSwept(row, t, queueMs), u, stallMs)
    ensures QueueSwept(ColdStartSwept(row, allowances, v, firstMs), t, queueMs)
         == ColdStartSwept(QueueSwept(row, t, queueMs), allowances, v, firstMs)
    ensures StallSwept(ColdStartSwept(row, allowances, v, firstMs), u, stallMs)
         == ColdStartSwept(StallSwept(row, u, stallMs), allowances, v, firstMs)
  {
  }

  /** So the order in which two different sweeps reach the table cannot be observed afterwards. */
  lemma SweepsCommute(requests: RequestTable, allowances: Allowances, t: Time, u: Time, v: Time,
                      queueMs: int, stallMs: int, firstMs: int)
    ensures SweepQueue(SweepStalls(requests, u, stallMs), t, queueMs)
         == SweepStalls(SweepQueue(requests, t, queueMs), u, stallMs)
    ensures SweepQueue(SweepColdStarts(requests, allowances, v, firstMs), t, queueMs)
         == SweepColdStarts(SweepQueue(requests, t, queueMs), allowances, v, firstMs)
    ensures SweepStalls(SweepColdStarts(requests, allowances, v, firstMs), u, stallMs)
         == SweepColdStarts(SweepStalls(requests, u, stallMs), allowances, v, firstMs)
  {
    forall h | h in requests
      ensures QueueSwept(StallSwept(requests[h], u, stallMs), t, queueMs)
           == StallSwept(QueueSwept(requests[h], t, queueMs), u, stallMs)
      ensures QueueSwept(ColdStartSwept(requests[h], allowances, v, firstMs), t, queueMs)
           == ColdStartSwept(QueueSwept(requests[h], t, queueMs), allowances, v, firstMs)
      ensures StallSwept(ColdStartSwept(requests[h], allowances, v, firstMs), u, stallMs)
           == ColdStartSwept(StallSwept(requests[h], u, stallMs), allowances, v, firstMs)
    {
      SweepsCommuteOnARow(requests[h], allowances, t, u, v, queueMs, stallMs, firstMs);
    }
  }

  /** Expiring one caller's request leaves other callers' rows, and the time they have left, alone. */
  lemma ExpireTouchesOnlyItsOwnRow(requests: RequestTable, h: RequestId, now: Time)
    ensures Expire(requests, h, now).Keys == requests.Keys
    ensures forall g :: g in requests && g != h ==> Expire(requests, h, now)[g] == requests[g]
    ensures h in requests ==>
              (Expire(requests, h, now)[h] == requests[h] <==> requests[h].status != Queued)
  {
  }
}
