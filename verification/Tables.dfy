/**
 * The two tables every router handler shares, and the column types they use.
 * A nullable column is an Option; a timestamp is a count of milliseconds.
 */
module Tables {
  import opened Wrappers

  // A replica's id stands for its position in the id column's collation order,
  // which is all that `ORDER BY id` and equality can see of it.
  datatype ReplicaId = ReplicaId(rank: int)
  datatype RequestId = RequestId(uuid: int)
  type ModelId = string
  type Time = int

  datatype ReplicaStatus = Ready | Loading | Busy | Idle | Errored

  // The table's CHECK (max_concurrency >= 1).
  type Ceiling = n: int | 1 <= n witness 1

  datatype Replica = Replica(
    modelId: ModelId,
    status: ReplicaStatus,
    inFlight: int,
    maxConcurrency: Ceiling,
    loadPct: real,
    tokensPerSec: Option<real>,
    tokensPerSecAt: Option<Time>)

  datatype RequestStatus =
    | Queued
    | Routed
    | Streaming
    | Completed
    | QueueTimeout
    | StallTimeout
    | ReplicaUnavailable
    | CapabilityMismatch
    | AuthInvalid
    | Failed

  datatype ErrorCode =
    | ModelNotFound
    | CodeQueueTimeout
    | CodeStallTimeout
    | CodeReplicaUnavailable
    | CodeCapabilityMismatch
    | CodeAuthInvalid
    | InvalidRequest
    | ContextLengthExceeded

  datatype Request = Request(
    status: RequestStatus,
    errorCode: Option<ErrorCode>,
    routedModel: Option<ModelId>,
    replicaId: Option<ReplicaId>,
    arrivedAt: Time,
    startedAt: Option<Time>,
    firstTokenAt: Option<Time>,
    lastTokenAt: Option<Time>,
    completedAt: Option<Time>,
    durationMs: Option<int>,
    outputTokens: int)

  type ReplicaTable = map<ReplicaId, Replica>
  type RequestTable = map<RequestId, Request>

  function Max(a: int, b: int): int {
    if a < b then b else a
  }

  /** The sum of in_flight over some of the table's rows. */
  ghost function SumInFlight(rows: ReplicaTable, ids: set<ReplicaId>): int
    requires ids <= rows.Keys
  {
    if ids == {} then 0
    else
      var r :| r in ids;
      rows[r].inFlight + SumInFlight(rows, ids - {r})
  }

  lemma {:induction false} SumSplit(rows: ReplicaTable, ids: set<ReplicaId>, r: ReplicaId)
    requires ids <= rows.Keys && r in ids
    ensures SumInFlight(rows, ids) == rows[r].inFlight + SumInFlight(rows, ids - {r})
    decreases ids
  {
    var p :| p in ids && SumInFlight(rows, ids) == rows[p].inFlight + SumInFlight(rows, ids - {p});
    if p != r {
      SumSplit(rows, ids - {p}, r);
      SumSplit(rows, ids - {r}, p);
      assert ids - {p} - {r} == ids - {r} - {p};
    }
  }

  lemma {:induction false} SumFrame(a: ReplicaTable, b: ReplicaTable, ids: set<ReplicaId>)
    requires ids <= a.Keys && ids <= b.Keys
    requires forall r :: r in ids ==> a[r].inFlight == b[r].inFlight
    ensures SumInFlight(a, ids) == SumInFlight(b, ids)
    decreases ids
  {
    if ids != {} {
      var r :| r in ids;
      SumSplit(a, ids, r);
      SumSplit(b, ids, r);
      SumFrame(a, b, ids - {r});
    }
  }

  /** Every row at least `lo` gives a sum of at least lo * n. */
  lemma {:induction false} SumAtLeast(rows: ReplicaTable, ids: set<ReplicaId>, lo: int)
    requires ids <= rows.Keys && forall r :: r in ids ==> lo <= rows[r].inFlight
    ensures SumInFlight(rows, ids) >= lo * |ids|
    decreases ids
  {
    if ids != {} {
      var p :| p in ids;
      SumSplit(rows, ids, p);
      SumAtLeast(rows, ids - {p}, lo);
      OneMore(lo, |ids|, |ids - {p}|);
    }
  }

  lemma OneMore(x: int, n: int, m: int)
    requires n == m + 1
    ensures x * n == x * m + x
  {
  }

  /** And more than that if some row is above `lo`. */
  lemma SumAbove(rows: ReplicaTable, ids: set<ReplicaId>, lo: int, p: ReplicaId)
    requires ids <= rows.Keys && forall r :: r in ids ==> lo <= rows[r].inFlight
    requires p in ids && lo < rows[p].inFlight
    ensures SumInFlight(rows, ids) > lo * |ids|
  {
    SumSplit(rows, ids, p);
    SumAtLeast(rows, ids - {p}, lo);
    OneMore(lo, |ids|, |ids - {p}|);
  }

  lemma {:induction false} SumAtMost(rows: ReplicaTable, ids: set<ReplicaId>, hi: int)
    requires ids <= rows.Keys && forall r :: r in ids ==> rows[r].inFlight <= hi
    ensures SumInFlight(rows, ids) <= hi * |ids|
    decreases ids
  {
    if ids != {} {
      var p :| p in ids;
      SumSplit(rows, ids, p);
      SumAtMost(rows, ids - {p}, hi);
      OneMore(hi, |ids|, |ids - {p}|);
    }
  }

  lemma SumBelow(rows: ReplicaTable, ids: set<ReplicaId>, hi: int, p: ReplicaId)
    requires ids <= rows.Keys && forall r :: r in ids ==> rows[r].inFlight <= hi
    requires p in ids && rows[p].inFlight < hi
    ensures SumInFlight(rows, ids) < hi * |ids|
  {
    SumSplit(rows, ids, p);
    SumAtMost(rows, ids - {p}, hi);
    OneMore(hi, |ids|, |ids - {p}|);
  }
}
