/**
 * The model registry: config validation, the sync that makes the table match
 * the config, and the resolution of an alias to the model that owns the
 * workload. Only the columns that decide routing are modelled.
 */
module Aliases {
  import opened Wrappers
  import opened Tables

  /** One entry of the config file. A missing id reads as "", a missing capability list as None. */
  datatype ConfigModel = ConfigModel(
    id: ModelId,
    capabilities: Option<seq<string>>,
    backendRef: Option<ModelId>,
    firstTokenTimeoutMs: Option<int>)

  datatype ConfigError =
    | MissingId
    | NoCapabilities(id: ModelId)
    | UnknownBackend(id: ModelId, ref: ModelId)
    | SelfReference(id: ModelId)
    | ChainedBackend(id: ModelId, ref: ModelId)

  datatype RegistryRow = RegistryRow(backend: Option<ModelId>, firstTokenTimeoutMs: Option<int>)

  type Registry = map<ModelId, RegistryRow>

  // -------------------------------------------------------------- validation

  /** Helm writes an absent reference as "". */
  function Normalised(model: ConfigModel): ConfigModel {
    if model.backendRef == Some("") then model.(backendRef := None) else model
  }

  function AllNormalised(models: seq<ConfigModel>): seq<ConfigModel> {
    seq(|models|, i requires 0 <= i < |models| => Normalised(models[i]))
  }

  function Ids(models: seq<ConfigModel>): set<ModelId> {
    set i | 0 <= i < |models| :: models[i].id
  }

  /** JavaScript's find: the first entry with this id. */
  function Find(models: seq<ConfigModel>, id: ModelId): (found: ConfigModel)
    requires id in Ids(models)
    ensures found in models && found.id == id
  {
    if models[0].id == id then models[0] else Find(models[1..], id)
  }

  function Complaint(models: seq<ConfigModel>, model: ConfigModel): Option<ConfigError> {
    if model.id == "" then Some(MissingId)
    else if model.capabilities.None? || model.capabilities.value == [] then Some(NoCapabilities(model.id))
    else if model.backendRef.None? then None
    else if model.backendRef.value !in Ids(models) then Some(UnknownBackend(model.id, model.backendRef.value))
    else if model.backendRef.value == model.id then Some(SelfReference(model.id))
    else if Find(models, model.backendRef.value).backendRef.Some?
      then Some(ChainedBackend(model.id, model.backendRef.value))
    else None
  }

  predicate Valid(models: seq<ConfigModel>) {
    forall m :: m in models ==> Complaint(models, m).None?
  }

  /** The first loop of readModelsConfig, which changes the entries in place. */
  method Normalise(parsed: seq<ConfigModel>) returns (models: seq<ConfigModel>)
    ensures models == AllNormalised(parsed)
  {
    models := parsed;
    for i := 0 to |models|
      invariant |models| == |parsed|
      invariant forall j :: 0 <= j < i ==> models[j] == Normalised(parsed[j])
      invariant forall j :: i <= j < |models| ==> models[j] == parsed[j]
    {
      if models[i].backendRef == Some("") {
        models := models[i := models[i].(backendRef := None)];
      }
    }
  }

  /** readModelsConfig: normalise every entry, then stop at the first complaint. */
  method ReadModelsConfig(parsed: seq<ConfigModel>) returns (result: Result<seq<ConfigModel>, ConfigError>)
    ensures result.Ok? <==> Valid(AllNormalised(parsed))
    ensures result.Ok? ==> result.value == AllNormalised(parsed)
    ensures result.Err? ==>
              exists i :: 0 <= i < |parsed|
                && Complaint(AllNormalised(parsed), AllNormalised(parsed)[i]) == Some(result.error)
                && forall j :: 0 <= j < i ==> Complaint(AllNormalised(parsed), AllNormalised(parsed)[j]).None?
  {
    var models := Normalise(parsed);
    var ids := Ids(models);
    for i := 0 to |models|
      invariant forall j :: 0 <= j < i ==> Complaint(models, models[j]).None?
    {
      var model := models[i];
      assert model in models && model == AllNormalised(parsed)[i];
      if model.id == "" {
        return Err(MissingId);
      }
      if model.capabilities.None? || |model.capabilities.value| == 0 {
        return Err(NoCapabilities(model.id));
      }
      if model.backendRef.Some? {
        if model.backendRef.value !in ids {
          return Err(UnknownBackend(model.id, model.backendRef.value));
        }
        if model.backendRef.value == model.id {
          return Err(SelfReference(model.id));
        }
        if Find(models, model.backendRef.value).backendRef.Some? {
          return Err(ChainedBackend(model.id, model.backendRef.value));
        }
      }
    }
    return Ok(models);
  }

  /** The first entry with the referenced id exists, is another one, and refers to nothing itself. */
  predicate RefersToAnOwner(models: seq<ConfigModel>, model: ConfigModel, ref: ModelId) {
    && ref != model.id
    && exists i :: 0 <= i < |models| && models[i].id == ref && models[i].backendRef == None
                && forall j :: 0 <= j < i ==> models[j].id != ref
  }

  lemma {:induction false} FindIsFirst(models: seq<ConfigModel>, id: ModelId) returns (i: nat)
    requires id in Ids(models)
    ensures i < |models| && models[i].id == id && Find(models, id) == models[i]
    ensures forall j :: 0 <= j < i ==> models[j].id != id
  {
    if models[0].id == id {
      i := 0;
    } else {
      var k := FindIsFirst(models[1..], id);
      i := k + 1;
      assert forall j :: 1 <= j < i ==> models[j] == models[1..][j - 1];
    }
  }

  /** What is accepted, and what each complaint is about, in the entry's own fields. */
  lemma ComplaintByFields(models: seq<ConfigModel>, model: ConfigModel)
    ensures Complaint(models, model) == None <==>
              && model.id != ""
              && model.capabilities.Some? && |model.capabilities.value| > 0
              && (model.backendRef.Some? ==> RefersToAnOwner(models, model, model.backendRef.value))
    ensures match Complaint(models, model)
            case None => true
            case Some(MissingId) => model.id == ""
            case Some(NoCapabilities(id)) =>
              id == model.id != "" && (model.capabilities == None || model.capabilities == Some([]))
            case Some(UnknownBackend(id, ref)) =>
              id == model.id && model.backendRef == Some(ref) && forall i :: 0 <= i < |models| ==> models[i].id != ref
            case Some(SelfReference(id)) => id == model.id && model.backendRef == Some(id)
            case Some(ChainedBackend(id, ref)) =>
              && id == model.id && model.backendRef == Some(ref) && ref != id
              && exists i :: 0 <= i < |models| && models[i].id == ref && models[i].backendRef.Some?
  {
    if model.backendRef.Some? {
      var ref := model.backendRef.value;
      if ref in Ids(models) {
        var i := FindIsFirst(models, ref);
        assert models[i].id == ref;
      } else {
        forall i | 0 <= i < |models| ensures models[i].id != ref { assert models[i].id in Ids(models); }
      }
    }
  }

  /** Reading leaves every entry as it was, except that an empty reference is no reference. */
  lemma NormalisedByFields(model: ConfigModel)
    ensures Normalised(model).backendRef != Some("")
    ensures model.backendRef != Some("") ==> Normalised(model) == model
    ensures model.backendRef == Some("") ==>
              Normalised(model) == ConfigModel(model.id, model.capabilities, None, model.firstTokenTimeoutMs)
  {
  }

  // -------------------------------------------------------------------- sync

  function RowFor(model: ConfigModel): RegistryRow {
    RegistryRow(model.backendRef, model.firstTokenTimeoutMs)
  }

  /** The registry a config describes: one row per id, a repeated id keeping its last entry. */
  function Described(models: seq<ConfigModel>): (registry: Registry)
    ensures registry.Keys == Ids(models)
  {
    if models == [] then map[]
    else
      var last := |models| - 1;
      assert Ids(models) == Ids(models[..last]) + {models[last].id};
      Described(models[..last])[models[last].id := RowFor(models[last])]
  }

  lemma DescribedOneMore(registry: Registry, models: seq<ConfigModel>, i: nat)
    requires i < |models|
    ensures (registry + Described(models[..i]))[models[i].id := RowFor(models[i])]
         == registry + Described(models[..i + 1])
  {
    assert models[..i + 1][..i] == models[..i];
    assert Described(models[..i + 1]) == Described(models[..i])[models[i].id := RowFor(models[i])];
  }

  /** syncModelsFromConfig: upsert every entry, then delete the rows the config does not name. */
  method SyncModels(registry: Registry, models: seq<ConfigModel>)
    returns (synced: Registry, upserted: int, removed: set<ModelId>)
    ensures synced == Described(models)
    ensures upserted == |models|
    ensures removed == registry.Keys - Ids(models)
  {
    var rows := registry;
    for i := 0 to |models|
      invariant rows == registry + Described(models[..i])
    {
      rows := rows[models[i].id := RowFor(models[i])];
      DescribedOneMore(registry, models, i);
    }
    assert models[..|models|] == models;
    var ids := Ids(models);
    removed := set m | m in rows && m !in ids;
    synced := map m | m in rows && m in ids :: rows[m];
    upserted := |models|;
  }

  // -------------------------------------------------------------- resolution

  /** backend_model_id || id, where "" counts as absent. */
  function Resolve(registry: Registry, model: ModelId): ModelId
    requires model in registry
  {
    var backend := registry[model].backend;
    if backend.Some? && backend.value != "" then backend.value else model
  }

  /** The metric's served_by: the backend's own row and every row that points at it. */
  function ServedBy(registry: Registry, backend: ModelId): set<ModelId> {
    set m | m in registry && (m == backend || registry[m].backend == Some(backend))
  }

  function Owners(registry: Registry): set<ModelId> {
    set m | m in registry && registry[m].backend.None?
  }

  predicate DistinctIds(models: seq<ConfigModel>) {
    forall i, j :: 0 <= i < j < |models| ==> models[i].id != models[j].id
  }

  /** Every alias names a row that is not itself an alias. */
  predicate OneLevel(registry: Registry) {
    && "" !in registry
    && forall m :: m in registry && registry[m].backend.Some? ==> registry[m].backend.value in Owners(registry)
  }

  /** The row of an id is what its last entry says. */
  lemma {:induction false} LastEntryWins(models: seq<ConfigModel>, i: nat)
    requires i < |models| && forall j :: i < j < |models| ==> models[j].id != models[i].id
    ensures models[i].id in Described(models)
    ensures Described(models)[models[i].id] == RegistryRow(models[i].backendRef, models[i].firstTokenTimeoutMs)
    decreases |models|
  {
    var last := |models| - 1;
    if i < last {
      LastEntryWins(models[..last], i);
      assert models[i].id != models[last].id;
    }
  }

  lemma DistinctAndValidIsOneLevel(models: seq<ConfigModel>)
    requires DistinctIds(models) && Valid(models)
    ensures OneLevel(Described(models))
  {
    var registry := Described(models);
    forall m | m in registry ensures m != "" {
      var i :| 0 <= i < |models| && models[i].id == m;
      assert Complaint(models, models[i]).None?;
    }
    forall m | m in registry && registry[m].backend.Some? ensures registry[m].backend.value in Owners(registry) {
      var i :| 0 <= i < |models| && models[i].id == m;
      LastEntryWins(models, i);
      assert Complaint(models, models[i]).None?;
      var target := Find(models, models[i].backendRef.value);
      var j :| 0 <= j < |models| && models[j] == target;
      LastEntryWins(models, j);
    }
  }

  /** What validation is for: a config with distinct ids that passes describes a one-level registry. */
  lemma ValidConfigIsOneLevel(parsed: seq<ConfigModel>)
    requires DistinctIds(parsed) && Valid(AllNormalised(parsed))
    ensures OneLevel(Described(AllNormalised(parsed)))
  {
    DistinctAndValidIsOneLevel(AllNormalised(parsed));
  }

  const CAPS := Some(["chat"])
  const REPEATED := [ConfigModel("a", CAPS, None, None), ConfigModel("b", CAPS, None, None),
                     ConfigModel("a", CAPS, Some("b"), None), ConfigModel("c", CAPS, Some("a"), None)]

  lemma RepeatedIsValid()
    ensures Valid(REPEATED)
  {
    assert REPEATED[0].id in Ids(REPEATED) && REPEATED[1].id in Ids(REPEATED);
    assert Find(REPEATED, "a") == REPEATED[0];
    assert REPEATED[1..][0] == REPEATED[1] && REPEATED[1..][0].id in Ids(REPEATED[1..]);
    assert Find(REPEATED[1..], "b") == REPEATED[1];
  }

  lemma RepeatedDescribes()
    ensures Described(REPEATED)
         == map["a" := RowFor(REPEATED[2]), "b" := RowFor(REPEATED[1]), "c" := RowFor(REPEATED[3])]
  {
    assert REPEATED[..3][..2] == REPEATED[..2] && REPEATED[..2][..1] == REPEATED[..1] && REPEATED[..1][..0] == [];
    assert Described(REPEATED[..1]) == map["a" := RowFor(REPEATED[0])];
    assert Described(REPEATED[..2]) == map["a" := RowFor(REPEATED[0]), "b" := RowFor(REPEATED[1])];
    assert Described(REPEATED[..3]) == map["a" := RowFor(REPEATED[2]), "b" := RowFor(REPEATED[1])];
  }

  /** Distinct ids are needed: a repeated id can slip an alias of an alias past the check. */
  lemma RepeatedIdsAllowAChain()
    ensures Valid(REPEATED)
    ensures var registry := Described(REPEATED);
            && !OneLevel(registry)
            && "c" in registry && Resolve(registry, "c") == "a"
            && "a" in registry && Resolve(registry, "a") == "b"
  {
    RepeatedIsValid();
    RepeatedDescribes();
    assert Described(REPEATED)["c"].backend == Some("a") && "a" !in Owners(Described(REPEATED));
  }

  /** A model without a backend, or with an empty one, is its own. */
  lemma ResolveByColumn(registry: Registry, m: ModelId)
    requires m in registry
    ensures registry[m].backend == None || registry[m].backend == Some("") ==> Resolve(registry, m) == m
    ensures registry[m].backend.Some? && registry[m].backend.value != "" ==> Some(Resolve(registry, m)) == registry[m].backend
  {
  }

  /** One level of aliases resolves in one step, to an owner, and owners serve exactly what resolves to them. */
  lemma ResolutionIsIdempotent(registry: Registry, m: ModelId)
    requires OneLevel(registry) && m in registry
    ensures Resolve(registry, m) in Owners(registry)
    ensures Resolve(registry, Resolve(registry, m)) == Resolve(registry, m)
    ensures forall b :: b in Owners(registry) ==> (m in ServedBy(registry, b) <==> Resolve(registry, m) == b)
  {
  }

  /** The sets the owners serve are non-empty, pairwise disjoint, and together are the whole registry. */
  lemma OwnersPartitionTheRegistry(registry: Registry)
    requires OneLevel(registry)
    ensures forall b :: b in Owners(registry) ==> b in ServedBy(registry, b)
    ensures forall b, c :: b in Owners(registry) && c in Owners(registry) && b != c
              ==> ServedBy(registry, b) !! ServedBy(registry, c)
    ensures forall m :: m in registry ==>
              Resolve(registry, m) in Owners(registry) && m in ServedBy(registry, Resolve(registry, m))
  {
    forall b, c | b in Owners(registry) && c in Owners(registry) && b != c
      ensures ServedBy(registry, b) !! ServedBy(registry, c)
    {
      OwnersAreDisjoint(registry, b, c);
    }
    forall m | m in registry
      ensures Resolve(registry, m) in Owners(registry) && m in ServedBy(registry, Resolve(registry, m))
    {
      ResolutionIsIdempotent(registry, m);
    }
  }

  lemma OwnersAreDisjoint(registry: Registry, b: ModelId, c: ModelId)
    requires OneLevel(registry) && b in Owners(registry) && c in Owners(registry) && b != c
    ensures ServedBy(registry, b) !! ServedBy(registry, c)
  {
    forall m | m in registry ensures !(m in ServedBy(registry, b) && m in ServedBy(registry, c)) {
      ResolutionIsIdempotent(registry, m);
    }
  }

  // ------------------------------------------------------------ queued counts

  function QueuedFor(requests: RequestTable, models: set<ModelId>): set<RequestId> {
    set h | h in requests && requests[h].status == Queued
         && requests[h].routedModel.Some? && requests[h].routedModel.value in models
  }

  ghost function SumQueued(requests: RequestTable, registry: Registry, owners: set<ModelId>): nat {
    if owners == {} then 0
    else
      var b :| b in owners;
      |QueuedFor(requests, ServedBy(registry, b))| + SumQueued(requests, registry, owners - {b})
  }

  function ResolvedInto(registry: Registry, owners: set<ModelId>): set<ModelId> {
    set m | m in registry && Resolve(registry, m) in owners
  }

  lemma ServedSplits(registry: Registry, owners: set<ModelId>, b: ModelId)
    requires OneLevel(registry) && owners <= Owners(registry) && b in owners
    ensures ServedBy(registry, b) !! ResolvedInto(registry, owners - {b})
    ensures ResolvedInto(registry, owners) == ServedBy(registry, b) + ResolvedInto(registry, owners - {b})
  {
    forall m | m in registry ensures m in ServedBy(registry, b) <==> Resolve(registry, m) == b {
      ResolutionIsIdempotent(registry, m);
    }
  }

  lemma QueuedSplits(requests: RequestTable, some: set<ModelId>, more: set<ModelId>)
    requires some !! more
    ensures |QueuedFor(requests, some + more)| == |QueuedFor(requests, some)| + |QueuedFor(requests, more)|
  {
    assert QueuedFor(requests, some + more) == QueuedFor(requests, some) + QueuedFor(requests, more);
    assert QueuedFor(requests, some) !! QueuedFor(requests, more);
  }

  lemma {:induction false} SumOverOwners(requests: RequestTable, registry: Registry, owners: set<ModelId>)
    requires OneLevel(registry) && owners <= Owners(registry)
    ensures SumQueued(requests, registry, owners) == |QueuedFor(requests, ResolvedInto(registry, owners))|
    decreases owners
  {
    if owners == {} {
      assert QueuedFor(requests, ResolvedInto(registry, owners)) == {};
    } else {
      var b :| b in owners && SumQueued(requests, registry, owners)
                 == |QueuedFor(requests, ServedBy(registry, b))| + SumQueued(requests, registry, owners - {b});
      SumOverOwners(requests, registry, owners - {b});
      ServedSplits(registry, owners, b);
      QueuedSplits(requests, ServedBy(registry, b), ResolvedInto(registry, owners - {b}));
    }
  }

  /** Every queued request for a registered model is counted by exactly one backend's metric. */
  lemma QueuedCountsAddUp(requests: RequestTable, registry: Registry)
    requires OneLevel(registry)
    ensures SumQueued(requests, registry, Owners(registry)) == |QueuedFor(requests, registry.Keys)|
  {
    SumOverOwners(requests, registry, Owners(registry));
    forall m | m in registry ensures Resolve(registry, m) in Owners(registry) { ResolutionIsIdempotent(registry, m); }
    assert ResolvedInto(registry, Owners(registry)) == registry.Keys;
  }
}
