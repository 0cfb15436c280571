/** What one reconcile pass leaves in the replica table. */
module Reconcile {
  import opened Wrappers
  import opened Tables
  import opened Protocol
  import opened Aliases

  datatype Entry = Entry(id: ModelId, backend: ModelId, port: int)

  datatype Probe = Probe(id: ReplicaId, status: ProbeStatus, ceiling: Option<Ceiling>)

  datatype ProbeStatus = ProbedReady | ProbedLoading | ProbedError

  function StatusOf(status: ProbeStatus): ReplicaStatus {
    match status
    case ProbedReady => Ready
    case ProbedLoading => Loading
    case ProbedError => Errored
  }

  datatype Summary = Summary(models: int, ready: int, loading: int, error: int, removed: int)

  // ---------------------------------------------------------------- backends

  function FindEntry(entries: seq<Entry>, id: ModelId): (found: Option<Entry>)
    ensures found.Some? ==> found.value.id == id
  {
    if entries == [] then None else if entries[0].id == id then Some(entries[0]) else FindEntry(entries[1..], id)
  }

  /** The entry probed on a backend's behalf: the owner's own if it is registered. */
  function Representative(entries: seq<Entry>, entry: Entry): Entry {
    FindEntry(entries, entry.backend).GetOr(entry)
  }

  /** The distinct backends named so far, in order of first mention. */
  function Mentioned(entries: seq<Entry>): seq<ModelId> {
    if entries == [] then []
    else
      var before := Mentioned(entries[..|entries| - 1]);
      var backend := entries[|entries| - 1].backend;
      if backend in before then before else before + [backend]
  }

  /** The entries probed, one per distinct backend, among the first `n` of `entries`. */
  function Probed(entries: seq<Entry>, n: nat): seq<Entry>
    requires n <= |entries|
  {
    if n == 0 then []
    else
      var before := Probed(entries, n - 1);
      if entries[n - 1].backend in Mentioned(entries[..n - 1]) then before
      else before + [Representative(entries, entries[n - 1])]
  }

  // --------------------------------------------------------------- one pass

  /** One row of a pass: a probe, and the backend it was made for. */
  datatype Sighting = Sighting(backend: ModelId, probe: Probe)

  function SightingsOf(entry: Entry, probes: seq<Probe>): seq<Sighting> {
    seq(|probes|, i requires 0 <= i < |probes| => Sighting(entry.backend, probes[i]))
  }

  function Sightings(entries: seq<Entry>, fleet: Entry -> seq<Probe>): seq<Sighting> {
    if entries == [] then []
    else Sightings(entries[..|entries| - 1], fleet) + SightingsOf(entries[|entries| - 1], fleet(entries[|entries| - 1]))
  }

  function UpsertAll(replicas: ReplicaTable, sightings: seq<Sighting>): ReplicaTable {
    if sightings == [] then replicas
    else
      var last := sightings[|sightings| - 1];
      Upserted(UpsertAll(replicas, sightings[..|sightings| - 1]), last.probe.id, last.backend,
               StatusOf(last.probe.status), last.probe.ceiling)
  }

  function SeenIds(sightings: seq<Sighting>): set<ReplicaId> {
    set i | 0 <= i < |sightings| :: sightings[i].probe.id
  }

  function Reconciled(replicas: ReplicaTable, sightings: seq<Sighting>): ReplicaTable {
    Pruned(UpsertAll(replicas, sightings), SeenIds(sightings))
  }

  function Count(sightings: seq<Sighting>, status: ProbeStatus): nat {
    if sightings == [] then 0
    else Count(sightings[..|sightings| - 1], status)
         + (if sightings[|sightings| - 1].probe.status == status then 1 else 0)
  }

  // ------------------------------------------------- what a pass guarantees

  lemma {:induction false} UpsertsKeepSlots(replicas: ReplicaTable, sightings: seq<Sighting>)
    ensures UpsertAll(replicas, sightings).Keys == replicas.Keys + SeenIds(sightings)
    ensures forall r :: r in UpsertAll(replicas, sightings) ==>
              var now := UpsertAll(replicas, sightings)[r];
              if r in replicas then
                && now.inFlight == replicas[r].inFlight
                && now.tokensPerSec == replicas[r].tokensPerSec
                && now.tokensPerSecAt == replicas[r].tokensPerSecAt
              else now.inFlight == 0 && now.tokensPerSec == None
    decreases |sightings|
  {
    if sightings != [] {
      var last := |sightings| - 1;
      UpsertsKeepSlots(replicas, sightings[..last]);
      assert SeenIds(sightings) == SeenIds(sightings[..last]) + {sightings[last].probe.id};
    }
  }

  /**
   * A pass leaves exactly the replicas it saw. It never touches in_flight or the
   * throughput reading of one that was already there, and a new one starts empty.
   */
  lemma PassOwnsExistenceNotSlots(replicas: ReplicaTable, sightings: seq<Sighting>)
    ensures Reconciled(replicas, sightings).Keys == SeenIds(sightings)
    ensures forall r :: r in SeenIds(sightings) ==>
              var now := Reconciled(replicas, sightings)[r];
              if r in replicas then
                && now.inFlight == replicas[r].inFlight
                && now.tokensPerSec == replicas[r].tokensPerSec
                && now.tokensPerSecAt == replicas[r].tokensPerSecAt
              else now.inFlight == 0 && now.tokensPerSec == None
  {
    UpsertsKeepSlots(replicas, sightings);
  }

  /** The last sighting of a replica decides its status and backend, and its ceiling if it reported one. */
  lemma LastSightingWins(replicas: ReplicaTable, sightings: seq<Sighting>, i: nat)
    requires i < |sightings| && forall j :: i < j < |sightings| ==> sightings[j].probe.id != sightings[i].probe.id
    ensures var r := sightings[i].probe.id;
            && r in Reconciled(replicas, sightings)
            && var now := Reconciled(replicas, sightings)[r];
               && (now.status == Ready <==> sightings[i].probe.status == ProbedReady)
               && (now.status == Loading <==> sightings[i].probe.status == ProbedLoading)
               && (now.status == Errored <==> sightings[i].probe.status == ProbedError)
               && now.modelId == sightings[i].backend
               && (sightings[i].probe.ceiling.Some? ==> now.maxConcurrency == sightings[i].probe.ceiling.value)
  {
    PassOwnsExistenceNotSlots(replicas, sightings);
    LastUpsertWins(replicas, sightings, i);
    assert sightings[i].probe.id in SeenIds(sightings);
  }

  lemma {:induction false} LastUpsertWins(replicas: ReplicaTable, sightings: seq<Sighting>, i: nat)
    requires i < |sightings| && forall j :: i < j < |sightings| ==> sightings[j].probe.id != sightings[i].probe.id
    ensures var r := sightings[i].probe.id;
            && r in UpsertAll(replicas, sightings)
            && var now := UpsertAll(replicas, sightings)[r];
               && now.status == StatusOf(sightings[i].probe.status)
               && now.modelId == sightings[i].backend
               && (sightings[i].probe.ceiling.Some? ==> now.maxConcurrency == sightings[i].probe.ceiling.value)
    decreases |sightings|
  {
    var last := |sightings| - 1;
    if i < last {
      LastUpsertWins(replicas, sightings[..last], i);
    }
  }

  /** A replica's ceiling is the last one a probe of it reported; failing that the one it had, or one slot if it is new. */
  lemma {:induction false} UnreportedCeilingStays(replicas: ReplicaTable, sightings: seq<Sighting>, r: ReplicaId)
    requires r in UpsertAll(replicas, sightings)
    requires forall j :: 0 <= j < |sightings| && sightings[j].probe.id == r ==> sightings[j].probe.ceiling == None
    ensures UpsertAll(replicas, sightings)[r].maxConcurrency == if r in replicas then replicas[r].maxConcurrency else 1
    decreases |sightings|
  {
    if sightings != [] {
      var before := sightings[..|sightings| - 1];
      if r in UpsertAll(replicas, before) {
        UnreportedCeilingStays(replicas, before, r);
      } else {
        UpsertsKeepSlots(replicas, before);
      }
    }
  }

  lemma {:induction false} LastReportedCeilingWins(replicas: ReplicaTable, sightings: seq<Sighting>, i: nat)
    requires i < |sightings| && sightings[i].probe.ceiling.Some?
    requires forall j :: i < j < |sightings| && sightings[j].probe.id == sightings[i].probe.id
               ==> sightings[j].probe.ceiling == None
    ensures sightings[i].probe.id in UpsertAll(replicas, sightings)
    ensures UpsertAll(replicas, sightings)[sightings[i].probe.id].maxConcurrency == sightings[i].probe.ceiling.value
    decreases |sightings|
  {
    var last := |sightings| - 1;
    if i < last { LastReportedCeilingWins(replicas, sightings[..last], i); }
  }

  /** The pass makes one sighting of each probe of each entry, for that entry's backend. */
  lemma {:induction false} SightingsAreTheProbes(entries: seq<Entry>, fleet: Entry -> seq<Probe>, s: Sighting)
    ensures s in Sightings(entries, fleet) <==> exists e :: e in entries && s.backend == e.backend && s.probe in fleet(e)
    decreases |entries|
  {
    if entries != [] {
      var last := |entries| - 1;
      SightingsAreTheProbes(entries[..last], fleet, s);
      SightingsOfOne(entries[last], fleet(entries[last]), s);
      assert forall e :: e in entries <==> e == entries[last] || e in entries[..last];
    }
  }

  lemma SightingsOfOne(entry: Entry, probes: seq<Probe>, s: Sighting)
    ensures s in SightingsOf(entry, probes) <==> s.backend == entry.backend && s.probe in probes
  {
    var made := SightingsOf(entry, probes);
    if s.backend == entry.backend && s.probe in probes {
      var i :| 0 <= i < |probes| && probes[i] == s.probe;
      assert made[i] == s;
    }
    if s in made {
      var i :| 0 <= i < |made| && made[i] == s;
      assert probes[i] == s.probe;
    }
  }

  lemma {:induction false} CountsAddUp(sightings: seq<Sighting>)
    ensures Count(sightings, ProbedReady) + Count(sightings, ProbedLoading) + Count(sightings, ProbedError) == |sightings|
  {
    if sightings != [] { CountsAddUp(sightings[..|sightings| - 1]); }
  }

  // --------------------------------------------------- each backend once

  /** The entries of a one-level registry: every backend named is a registered entry that is its own backend. */
  predicate OwnersRegistered(entries: seq<Entry>) {
    forall i :: 0 <= i < |entries| ==>
      var owner := FindEntry(entries, entries[i].backend);
      owner.Some? && owner.value.backend == entries[i].backend
  }

  function BackendsOf(entries: seq<Entry>): seq<ModelId> {
    seq(|entries|, i requires 0 <= i < |entries| => entries[i].backend)
  }

  lemma {:induction false} MentionedAreDistinct(entries: seq<Entry>)
    ensures forall k, l :: 0 <= k < l < |Mentioned(entries)| ==> Mentioned(entries)[k] != Mentioned(entries)[l]
    ensures forall e :: e in entries ==> e.backend in Mentioned(entries)
    decreases |entries|
  {
    if entries != [] {
      var last := |entries| - 1;
      MentionedAreDistinct(entries[..last]);
      assert entries == entries[..last] + [entries[last]];
    }
  }

  lemma {:induction false} ProbedAreTheMentioned(entries: seq<Entry>, n: nat)
    requires OwnersRegistered(entries) && n <= |entries|
    ensures BackendsOf(Probed(entries, n)) == Mentioned(entries[..n])
    decreases n
  {
    if n > 0 {
      ProbedAreTheMentioned(entries, n - 1);
      assert entries[..n][..n - 1] == entries[..n - 1];
      assert Representative(entries, entries[n - 1]).backend == entries[n - 1].backend;
      BackendsOfSnoc(Probed(entries, n - 1), Representative(entries, entries[n - 1]));
    }
  }

  lemma BackendsOfSnoc(entries: seq<Entry>, entry: Entry)
    ensures BackendsOf(entries + [entry]) == BackendsOf(entries) + [entry.backend]
  {
  }

  lemma {:induction false} ProbedIsItsOwner(entries: seq<Entry>, n: nat, k: nat)
    requires OwnersRegistered(entries) && n <= |entries| && k < |Probed(entries, n)|
    ensures Probed(entries, n)[k].id == Probed(entries, n)[k].backend
    decreases n
  {
    if k < |Probed(entries, n - 1)| {
      ProbedIsItsOwner(entries, n - 1, k);
    } else {
      assert Representative(entries, entries[n - 1]).backend == entries[n - 1].backend;
    }
  }

  /** The first of the first `n` entries to name the backend stands for it, or the owner's own entry does. */
  predicate ProbedFor(entries: seq<Entry>, n: nat, backend: ModelId, probed: Entry)
    requires n <= |entries|
  {
    exists i :: 0 <= i < n && FirstToName(entries, i, backend) && probed == FindEntry(entries, backend).GetOr(entries[i])
  }

  predicate FirstToName(entries: seq<Entry>, i: nat, backend: ModelId)
    requires i < |entries|
  {
    entries[i].backend == backend && forall j :: 0 <= j < i ==> entries[j].backend != backend
  }

  lemma {:induction false} ProbedForEachMention(entries: seq<Entry>, n: nat)
    requires n <= |entries|
    ensures |Probed(entries, n)| == |Mentioned(entries[..n])|
    ensures forall k :: 0 <= k < |Probed(entries, n)| ==>
              ProbedFor(entries, n, Mentioned(entries[..n])[k], Probed(entries, n)[k])
    decreases n
  {
    if n > 0 {
      assert entries[..n][..n - 1] == entries[..n - 1];
      ProbedForEachMention(entries, n - 1);
      var named, probed := Mentioned(entries[..n - 1]), Probed(entries, n - 1);
      forall k | 0 <= k < |probed| ensures ProbedFor(entries, n, named[k], probed[k]) {
        ProbedForMore(entries, n, named[k], probed[k]);
      }
      if entries[n - 1].backend !in Mentioned(entries[..n - 1]) { NewlyNamed(entries, n - 1); }
    }
  }

  lemma ProbedForMore(entries: seq<Entry>, n: nat, backend: ModelId, probed: Entry)
    requires 0 < n <= |entries| && ProbedFor(entries, n - 1, backend, probed)
    ensures ProbedFor(entries, n, backend, probed)
  {
  }

  lemma NewlyNamed(entries: seq<Entry>, i: nat)
    requires i < |entries| && entries[i].backend !in Mentioned(entries[..i])
    ensures ProbedFor(entries, i + 1, entries[i].backend, Representative(entries, entries[i]))
  {
    MentionedAreDistinct(entries[..i]);
    forall j | 0 <= j < i ensures entries[j].backend != entries[i].backend { assert entries[..i][j] in entries[..i]; }
    assert FirstToName(entries, i, entries[i].backend);
  }

  /** Aliases never make a pass probe a workload twice: one entry per distinct backend, and it is the owner's. */
  lemma EachBackendIsProbedOnce(entries: seq<Entry>)
    requires OwnersRegistered(entries)
    ensures var probed := Probed(entries, |entries|);
            && (forall k, l :: 0 <= k < l < |probed| ==> probed[k].backend != probed[l].backend)
            && (forall k :: 0 <= k < |probed| ==> probed[k].id == probed[k].backend)
            && (forall e :: e in entries ==> e.backend in BackendsOf(probed))
  {
    assert entries[..|entries|] == entries;
    ProbedAreTheMentioned(entries, |entries|);
    MentionedAreDistinct(entries);
    var probed := Probed(entries, |entries|);
    forall k | 0 <= k < |probed| ensures probed[k].id == probed[k].backend {
      ProbedIsItsOwner(entries, |entries|, k);
    }
    forall k, l | 0 <= k < l < |probed| ensures probed[k].backend != probed[l].backend {
      assert BackendsOf(probed)[k] != BackendsOf(probed)[l];
    }
  }
}
