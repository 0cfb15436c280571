# The router's shared state, verified

controlDeck runs many stateless router handlers over one Postgres database. This
project models what they do to it and to the streams they carry, and proves what
that guarantees:

- **The replica-slot protocol** (`Tables`, `Queue`, `Placement`, `Protocol`,
  `Conservation`, `Oversubscription`, `Demand`, `Progress`, `Throughput`,
  `Balance`, `Exploration`). Handlers enqueue, claim a slot, generate and
  finish; three sweeps, retention and the reconciler run beside them. `Protocol`
  is a step machine whose steps are single SQL statements or transactions; a run
  is any sequence of events, so every interleaving is one. Row locks met by
  `FOR UPDATE SKIP LOCKED` are an arbitrary set.
- **The operations in the form the router runs them** (`Store`): a `Database`
  object whose methods update its tables, each proved to do what the functions
  the step machine uses say it does, and the placement retry loop. `Simulation`
  proves that performing any interleaving on a `Database` statement by statement
  is the run of the step machine, so what is proved of runs holds of its tables.
- **A second account of every statement** (`Statements`), in the tables' own
  columns and literal constants: what is chosen, swept, filed, measured, upserted
  and deleted, without the names the operations are built from.
- **The live clock** (`Deadline`) beside the sweep that watches the same row.
- **Stream reassembly** (`ToolCalls`, `Chat`, `LogPump`).
- **The registry, reconcile pass, scale-up signal, complexity heuristic and
  system prompt** (`Aliases`, `Reconcile`, `ScaleSignals`, `Complexity`,
  `SystemPrompt`).

## Assumptions

- A statement or transaction is atomic and succeeds; the database clock does not
  run backwards. A failed statement is modelled only where a handler reacts to
  it: an audit write that throws.
- A handler's timer fires when it is due, at the first turn of the event loop at
  or after that time, and the handler's clock is the database's: the live deadline
  and the sweeps are compared on one clock (`Deadline`).
- Settings an operator can change by environment variable are at their defaults
  where a number is named; sweep thresholds, allowances and the average's weight are
  parameters.
- Durations and timestamps are whole milliseconds. Throughput is computed over
  real numbers.
- Handler ids are fresh UUIDs. A replica id stands for its rank in the id
  column's collation order. A `char` of a prompt is one UTF-16 code unit.
- Network calls, health probes, JSON parsing and lower-casing are parameters or
  arbitrary inputs.

## What the code does that its comments do not say

- Slot accounting drifts in exactly two ways: an audit write that throws after a
  streaming completion frees the slot a second time, and a replica row deleted
  and inserted again while handlers still hold it restarts at zero
  (`Conservation.StepConservesExactlyWhenNoDrift`). Each really does put two
  requests on a one-slot replica (`Oversubscription.DoubleReleaseOversubscribes`,
  `Oversubscription.ReinsertionOversubscribes`), and the drifts so far bound how
  far it can go (`Oversubscription.OversubscribedByTheDebtAtMost`).
- Timeout statuses are not final (`Progress.SweptStatusesAreOverwritten`).
- The first-token sweep measures from the row's start and the handler's deadline
  from when it was armed, so in an exact window the sweep goes first
  (`Deadline.FirstTokenSweepCanGoFirst`, `Deadline.SweepGoesFirst`); and a first
  token that comes after the first-token timer has fired renames the failure a
  stall (`Deadline.ReasonNamesTheClockThatRanOut`).
- Only the least-loaded ready replicas are re-explored: a stale one that is busier
  than another is not reached, however stale (`Exploration.ReexplorationIsBounded`).
- A default prompt of nothing but whitespace is injected again each time a
  conversation passes through (`SystemPrompt.DefaultInjectedExactlyWhenUnset`).
- A frame without an id that carries reasoning and tool calls but no text is
  dropped as a loading banner, calls and all, and reasoning that shares a frame
  with text or tool calls is dropped (`Chat.WhatIsDelivered`).
- `streamChat` splits each read on its own, so it sees the backend's lines only
  when no read ends inside one (`LogPump.UnbufferedIsExactWhenCutsAreClean`).
- Config validation looks at the first entry with an id and the sync keeps the
  last, so a repeated id can hide an alias of an alias
  (`Aliases.RepeatedIdsAllowAChain`).

## Model

| member | source | states |
|---|---|---|
| Conservation.StepConservesExactlyWhenNoDrift | server/src/http/routes/v1.ts:54-63 | from a conserved state a step keeps in_flight equal to the charged handlers if and only if it is not a second release of a freed slot or the re-insertion of a still-held replica id |
| Conservation.SlotsAreConserved | server/src/scheduler/queue.ts:215-275 | every interleaving of handlers, sweeps, retention and reconcile passes without a drift keeps each replica's in_flight equal to the handlers that took a slot and have not released it |
| Conservation.ReachableAccounting | server/src/scheduler/place-request.ts:110-153 | in every reachable drift-free state in_flight is live holders plus leaked slots, so holders never exceed it |
| Conservation.InFlightIsTheLiveHolders | server/src/http/routes/v1.ts:337-361 | with no drift and no leak, in_flight is exactly the number of handlers between a placement and their single complete or fail |
| Conservation.NothingElseLeaks | server/src/http/routes/v1.ts:670-684 | only an embedding call that throws, or deleting the row of a live request, ever leaves a slot unreleased |
| Conservation.EmbeddingThrowLeavesItsSlot | server/src/http/routes/v1.ts:670-684 | an embedding call that throws leaves in_flight and its row as they were, and its slot leaked |
| Conservation.DeletedRowLeavesItsSlot | server/src/audit/retention.ts:14-17 | finishing a request whose row has been deleted frees nothing, and its slot is leaked |
| Conservation.LeaksAreForGood | server/src/replicas/reconcile.ts:171-194 | no later event of any kind gives a leaked slot back while the replica's row lives |
| Conservation.ReleaseNeverClamps | server/src/scheduler/queue.ts:252 | on drift-free runs every release finds in_flight at least 1, so GREATEST(0, ...) never clamps, apart from a second release of an already empty row |
| Conservation.ActorDelta | server/src/scheduler/queue.ts:250-273 | apart from a second release, a handler's step changes in_flight of each replica as it changes that handler's claim on it, clamped at zero |
| Protocol.RunKeepsRows | server/src/scheduler/queue.ts:118-129 | over any run every request row's status, model, replica and timestamps agree with where its handler is |
| Protocol.HandlersDoNotInterfere | server/src/scheduler/queue.ts:99-110 | no handler's statement touches another request's row or another handler |
| Oversubscription.NeverOversubscribed | server/src/scheduler/place-request.ts:136-151 | leaks included, live holders <= in_flight <= max_concurrency in every reachable drift-free state while ceilings do not drop |
| Oversubscription.OversubscribedByTheDebtAtMost | server/src/http/routes/v1.ts:54-63 | over every run, drifts included, while ceilings do not drop, live holders exceed in_flight and the ceiling by at most one per second release plus the holders met when the row was re-inserted |
| Oversubscription.InFlightStaysWithinCeilings | server/src/scheduler/place-request.ts:113-118 | in_flight stays between 0 and the ceiling over every run in which ceilings do not drop, drifts included |
| Oversubscription.CannotRiseWhileSaturated | server/src/replicas/reconcile.ts:187 | after a ceiling is lowered, in_flight does not rise until it has been back under the ceiling |
| Oversubscription.DoubleReleaseOversubscribes | server/src/http/routes/v1.ts:526-540 | a concrete run: completing, then an audit write that throws, lets two requests run on a one-slot replica |
| Oversubscription.ReinsertionOversubscribes | server/src/replicas/reconcile.ts:213-218 | a concrete run: a held replica that misses one pass and returns lets two requests run on a one-slot replica |
| Placement.PlacementRefinesItsSpecification | server/src/scheduler/place-request.ts:107-158 | for any locks and any affinity lookup: the affine replica if eligible and unlocked, else the one least eligible unlocked row, and a wait exactly when there is none |
| Placement.LeastIsUnique | server/src/scheduler/place-request.ts:140-143 | the ORDER BY (in_flight, fresh throughput descending with unknown first, load, id) has a single least row |
| Placement.AffinityNeverCausesAWait | server/src/scheduler/place-request.ts:107-133 | whenever a request would be placed without affinity it is placed with it |
| Placement.ClaimTakesOneFreeSlot | server/src/scheduler/place-request.ts:147-152 | a placement adds one to one row that had headroom, changes no other row, and one to the total |
| Statements.PlacementByColumns | server/src/scheduler/place-request.ts:107-158 | against every other free, unlocked, ready replica of the model, the one chosen has fewer in flight; or as many, and no reading younger than two minutes where the other has one, or a higher one; or the same, and a lower load, or the lower id |
| Statements.AffinityByColumns | server/src/scheduler/place-request.ts:107-133 | the affine replica is taken if and only if it is a ready, free, unlocked replica of the model, and a wait means there is no such replica at all |
| Balance.PlacementsStayLevel | server/src/scheduler/place-request.ts:136-146 | among a model's ready replicas, whatever breaks ties and whatever other rows do, in_flight(a) > in_flight(b) + 1 only if b is saturated |
| Balance.PlacementsAreEven | server/src/scheduler/place-request.ts:136-152 | k placements on a model's n idle ready replicas with ceiling c, k <= n*c, leave each at floor(k/n) or ceil(k/n), whatever other models' or unready rows share the table |
| Balance.PlacementsFillSlots | server/src/scheduler/place-request.ts:154-156 | each of the first n*c placements succeeds and fills exactly one slot of the pool |
| Exploration.ReexplorationIsBounded | server/src/scheduler/place-request.ts:140-143 | in one freshness window, as many completed placements as there are least-loaded candidates sample an unmeasured or stale replica if and only if it is one of those candidates |
| Exploration.IdleFleetIsExplored | server/src/scheduler/place-request.ts:140-143 | on an idle fleet of n ready replicas, n completed placements in one window sample every one that was unmeasured or stale |
| Exploration.ChosenIsLeastLoaded | server/src/scheduler/place-request.ts:140 | a placement picks a candidate with the fewest slots in use, so a busier one is never selected however stale its reading, and picks none only when there is no candidate |
| Throughput.AverageIsBounded | server/src/scheduler/queue.ts:253-262 | for alpha in [0,1] the average lies within the range of its qualifying samples, and is null exactly until the first |
| Throughput.AverageConverges | server/src/scheduler/queue.ts:258-260 | n equal samples shrink the error by exactly (1 - alpha)^n |
| Throughput.TenSamplesSettleIt | server/src/scheduler/queue.ts:26-31 | at alpha 0.3, ten samples leave under 3% of the error |
| Throughput.StampIsTheLastSample | server/src/scheduler/queue.ts:263-268 | tokens_per_sec_at is the time of the last qualifying sample; other completions change neither value nor stamp |
| Throughput.EveryReadingIsBounded | server/src/scheduler/queue.ts:250-273 | in every interleaving every replica's reading stays within the range of the samples taken during the run |
| Statements.ThroughputByColumns | server/src/scheduler/queue.ts:250-273 | a request that ran d >= 250 ms for at least 5 tokens makes the reading 1000 * tokens / d, or its alpha-weighted mean with the one held, stamped now; anything smaller changes neither |
| Statements.CompletionFreesByColumns | server/src/scheduler/queue.ts:250-273 | completing frees one slot of the replica its row names, of no other, never below zero |
| Statements.FinishedByColumns | server/src/scheduler/queue.ts:220-234 | the finished row's duration is the time since it started, never negative, zero if it never did |
| Demand.DemandAccounting | server/src/metrics/index.ts:87-109 | in_flight + queued is live requests plus placed-but-unmarked ones, plus stray charges, less requests whose row or replica has been taken away; the in_flight part is the holders' share; pending_requests is that demand plus the one spare |
| Demand.DemandIsLiveWork | server/src/metrics/index.ts:101-109 | when none of this backend's own requests is leaked, swept, deleted or re-keyed, whatever has happened to others', pending_requests is live plus unmarked requests, plus one while anything is live or a scale-up was signalled |
| Demand.ReachableDemand | server/src/metrics/index.ts:87-109 | the account holds in every reachable drift-free state of a fixed registry |
| Demand.ReachableDemandIsLiveWork | server/src/metrics/index.ts:87-109 | the same in every state reached without a drift, a throwing embedding call of this backend, a sweep or deletion of one of its live rows, or a pass that drops or re-keys a replica it holds |
| Progress.SweptExactlyWhenSilent | server/src/scheduler/queue.ts:118-202 | from the moment it starts, however long it lasts, a stream is still streaming if and only if no sweep event met a silence, measured from its own token events, longer than the allowance it was under |
| Progress.SilenceDecides | server/src/scheduler/queue.ts:158-202 | the same from any point of a stream, given its current silence and whether it has had a token |
| Progress.SweptFromTheQueueExactlyWhenOverdue | server/src/scheduler/queue.ts:72-86 | from arrival until its handler starts or gives up, a request is still queued if and only if no queue sweep met a wait, added up from the clock's ticks, longer than its timeout |
| Progress.TimesAreOrdered | server/src/scheduler/queue.ts:118-149 | arrived <= started <= first token <= last token in every reachable state |
| Progress.FirstTokenIsStampedOnce | server/src/scheduler/queue.ts:139-148 | no later event moves first_token_at while the row exists |
| Statements.TokenByColumns | server/src/scheduler/queue.ts:137-149 | every token is stamped with its own time as the last, and as the first if none came before |
| Progress.SweptStatusesAreOverwritten | server/src/scheduler/queue.ts:120-128 | a swept request can still stream, complete or fail, keeping the sweep's error code until it fails |
| Queue.SweepsCommute | server/src/scheduler/queue.ts:158-202 | the three sweeps, whenever each runs, leave the same table in either order |
| Queue.SweepGuardsAreDisjoint | server/src/scheduler/queue.ts:78-82 | no row is ever eligible for two sweeps |
| Queue.ExpireTouchesOnlyItsOwnRow | server/src/scheduler/queue.ts:99-110 | expiring one caller's request leaves every other row alone and changes its own only if still queued |
| Statements.QueueSweepByColumns | server/src/scheduler/queue.ts:72-86 | a queued row is filed as a queue timeout if and only if its wait exceeds the timeout, and no other row changes |
| Statements.StallSweepByColumns | server/src/scheduler/queue.ts:158-175 | a streaming row that has had a token is filed as a stall if and only if its last is older than the threshold, and no other row changes |
| Statements.ColdStartSweepByColumns | server/src/scheduler/queue.ts:183-202 | a streaming row of a registered model without a token is filed as a stall if and only if it started longer ago than the model's allowance, or the default where it has none |
| Statements.FailureIsFiledAsTheSweepWould | server/src/http/routes/v1.ts:40-63 | a timeout enforced on the live request is filed exactly as the sweep files it; an unavailable replica by its own name; every other code as an error |
| Statements.RetentionByColumns | server/src/audit/retention.ts:12-19 | retention deletes exactly the rows older than asked and changes no other |
| Statements.ExpireByColumns | server/src/scheduler/queue.ts:99-110 | one caller's expiry files its row as a queue timeout if still queued, and otherwise changes nothing |
| Statements.StartByColumns | server/src/scheduler/queue.ts:118-129 | marking sets the status, the replica and both clocks of one row, whatever its status was |
| Deadline.LiveClockFiresBeforeTheStallSweep | server/src/http/routes/v1.ts:163-193 | for every token trace the stall sweep can select a row only after its handler's own deadline has fired |
| Deadline.ReasonNamesTheClockThatRanOut | server/src/http/routes/v1.ts:178-181 | for every trace, the reason given for an expiry is wrong about whether a token preceded it if and only if the first token comes after a silence of at least the first-token allowance |
| Deadline.FirstTokenSweepCanGoFirst | server/src/scheduler/queue.ts:183-202 | before any token, the sweep selects the row while the deadline is pending if and only if the silence is above the allowance and below it plus the arming lag |
| Deadline.SweepGoesFirst | server/src/scheduler/queue.ts:183-202 | a concrete trace inside that window |
| Deadline.LateFirstTokenRenamesTheFailure | server/src/http/routes/v1.ts:446-451 | a first token processed after the first-token expiry reports a stall |
| Deadline.Generate | server/src/http/routes/v1.ts:163-193 | the deadline object, armed, told of every token and put away, aborts if and only if some silence reaches the allowance it is under, and blames the stall clock if and only if a token came |
| Store.Database.EnqueueRequest | server/src/scheduler/queue.ts:50-64 | inserts one queued row stamped now, or nothing under a taken id |
| Store.Database.SweepQueueTimeouts | server/src/scheduler/queue.ts:72-86 | the table after the sweep, and the ids returned are exactly the rows it changed |
| Store.Database.ExpireQueuedRequest | server/src/scheduler/queue.ts:99-110 | expires the one row if still queued and says whether it did |
| Store.Database.SweepStallTimeouts | server/src/scheduler/queue.ts:158-175 | the table after the sweep, and the ids returned are exactly the rows it changed |
| Store.Database.SweepFirstTokenTimeouts | server/src/scheduler/queue.ts:183-202 | the table after the sweep with per-model allowances, and the ids returned are exactly the rows it changed |
| Store.Database.CompleteRequest | server/src/scheduler/queue.ts:215-283 | both tables after the transaction: the row finished, the replica it names freed and its sample folded in |
| Store.Database.PlaceRequest | server/src/scheduler/place-request.ts:96-178 | the outcome is the specified one, one slot is claimed, a scale-up is signalled exactly when an idle replica woke, and the conversation's next lookup returns the replica it got |
| Simulation.AskThenPoll | server/src/adapters/keda.ts:66-83 | after any interleaving of asks on the table, the poll says yes if some ask for the model is younger than within - debounce, and only if a signal was there before or some ask falls inside the window |
| Store.Database.ReconcileReplicas | server/src/replicas/reconcile.ts:83-222 | the replica table and summary after one pass: how many probes found each status, adding up to the probes, and how many rows were dropped |
| Store.SelectLeast | server/src/scheduler/place-request.ts:137-146 | going down the eligible rows in order to the first that is not locked finds the least unlocked one |
| Simulation.PerformAll | server/src/scheduler/queue.ts:50-283 | performing any interleaving on the tables, statement by statement, leaves exactly the state the step machine's run leaves |
| Simulation.Perform | server/src/http/routes/v1.ts:337-361 | each event of the machine is what its statement does to the tables and its handler |
| Simulation.PerformPlacement | server/src/scheduler/place-request.ts:96-178 | placeRequest uninterrupted is the machine's affine claim, if the lookup finds a target, followed by its general claim |
| Simulation.PerformFailure | server/src/http/routes/v1.ts:54-63 | failRequest uninterrupted is the machine's failing step followed by its release |
| Store.BackendsToProbe | server/src/replicas/reconcile.ts:96-103 | the map of backends to probe, in order of first mention |
| Store.WaitForPlacement | server/src/http/routes/v1.ts:227-253 | placed by the first poll before the deadline that finds a slot; otherwise only this request's row is expired and no slot is taken |
| Reconcile.PassOwnsExistenceNotSlots | server/src/replicas/reconcile.ts:171-218 | a pass leaves exactly the replicas it saw, never touches in_flight or readings of known ones, and starts new ones at zero |
| Reconcile.LastSightingWins | server/src/replicas/reconcile.ts:175-188 | the last sighting decides status and backend, and the ceiling if reported |
| Reconcile.LastReportedCeilingWins | server/src/replicas/reconcile.ts:185-187 | a replica's ceiling is the last one any probe of it reported |
| Reconcile.UnreportedCeilingStays | server/src/replicas/reconcile.ts:185-187 | with none reported it keeps the one it had, or one slot if it is new |
| Statements.UpsertByColumns | server/src/replicas/reconcile.ts:171-194 | an upsert keeps a known row's slots, reading and unreported ceiling, starts a new row empty, and records the percentage of the ceiling in use, at most a hundred |
| Statements.PruneByColumns | server/src/replicas/reconcile.ts:213-218 | the delete drops exactly the rows not seen and changes no other |
| Reconcile.SightingsAreTheProbes | server/src/replicas/reconcile.ts:105-170 | a pass upserts one row for each probe of each probed entry, under that entry's backend |
| Reconcile.ProbedForEachMention | server/src/replicas/reconcile.ts:96-103 | in any registry, each distinct backend is probed through the entry of that id if there is one, else through the first entry naming it |
| Reconcile.EachBackendIsProbedOnce | server/src/replicas/reconcile.ts:90-103 | in a one-level registry every backend is probed once, through its owner's entry |
| Aliases.ReadModelsConfig | server/src/registry/gitops.ts:67-116 | accepts exactly the valid configs, normalised, and otherwise reports the first entry's complaint |
| Aliases.ComplaintByFields | server/src/registry/gitops.ts:86-114 | an entry passes if and only if it has an id and a capability and any reference is to another entry, the first of that id, that has none itself; each complaint is about what it names |
| Aliases.NormalisedByFields | server/src/registry/gitops.ts:78-83 | an empty reference becomes none and nothing else about an entry changes |
| Aliases.SyncModels | server/src/registry/gitops.ts:127-198 | the registry becomes exactly what the config describes, whatever it held, and the removed ids are returned |
| Aliases.LastEntryWins | server/src/registry/gitops.ts:134-180 | the row of an id has the backend and the first-token allowance of its last entry |
| Aliases.ValidConfigIsOneLevel | server/src/registry/gitops.ts:85-114 | a valid config with distinct ids describes a registry in which every alias names an owner |
| Aliases.RepeatedIdsAllowAChain | server/src/registry/gitops.ts:103-104 | a valid config with a repeated id whose registry has an alias of an alias |
| Aliases.ResolveByColumn | server/src/registry/merge.ts:54-55 | a model with no backend, or an empty one, is its own, and any other is its backend's |
| Aliases.ResolutionIsIdempotent | server/src/registry/merge.ts:54-55 | backend resolution lands on an owner in one step, and owners serve exactly what resolves to them |
| Aliases.OwnersPartitionTheRegistry | server/src/metrics/index.ts:88-93 | the sets the owners serve are disjoint and make up the registry |
| Aliases.QueuedCountsAddUp | server/src/metrics/index.ts:94-97 | queued counts summed over owners are all queued requests for registered models |
| ToolCalls.AssembleToolCalls | server/src/http/routes/v1.ts:74-86 | one call per index, ascending, each the join of that index's fragments in order |
| ToolCalls.OneCallPerIndex | server/src/http/routes/v1.ts:85 | the result has one entry per index that appears, strictly ascending |
| ToolCalls.LastFragmentDecides | server/src/http/routes/v1.ts:79-82 | a call's id, type and name are those of the last fragment to give one, and its arguments are all the fragments' in order |
| ToolCalls.UnsaidFields | server/src/http/routes/v1.ts:78 | a field no fragment gives keeps its default |
| ToolCalls.WhereAFragmentGoes | server/src/http/routes/v1.ts:77 | a fragment joins the call of its own index, or call 0 if it has none, and no other |
| ToolCalls.ReassemblyRoundTrips | server/src/http/routes/v1.ts:65-73 | any interleaving of any fragmentation reassembles to the original calls sorted by index, if and only if none has an empty type or id |
| Chat.StreamChat | server/src/adapters/llama-swap.ts:309-379 | what is yielded from whole lines, ending with the last finish reason and usage seen |
| Chat.DeliveredInOrder | server/src/adapters/llama-swap.ts:315-379 | everything before [DONE] in order, then one ending |
| Chat.WhatIsDelivered | server/src/adapters/llama-swap.ts:338-373 | text arrives whole; the reasoning that arrives is that of exactly the lines with an id, no text and no calls; calls are lost exactly on lines with reasoning, no text and no id; all calls, or all reasoning, arrive if and only if no line loses any |
| Chat.StreamReply | server/src/http/routes/v1.ts:401-518 | the frames written for a turn that ends normally, and the usage recorded |
| Chat.StreamShape | server/src/http/routes/v1.ts:401-518 | the role frame, one frame per piece in order, the reply's finish reason, the reply's usage if asked for, then [DONE] |
| Chat.WholeReply | server/src/http/routes/v1.ts:548-631 | the reply for a turn that ends normally |
| Chat.StreamingAndNonStreamingAgree | server/src/http/routes/v1.ts:431-517 | a client folding the stream has the reply's content, reasoning, tool calls, finish reason and token counts |
| Chat.ReplySaysWhatTheBackendSaid | server/src/adapters/llama-swap.ts:309-379 | from lines to reply: content (null if and only if it is empty and tools are called), reasoning, calls, finish reason and token counts, each from the fields of the lines before [DONE] |
| Chat.BeforeDoneIsThePrefix | server/src/adapters/llama-swap.ts:315-321 | reading stops at the first [DONE] or at the end |
| Chat.TheLastIsNoted | server/src/adapters/llama-swap.ts:327-348 | the finish reason and usage noted are those of the last line to give one |
| Chat.PiecesOfALine | server/src/adapters/llama-swap.ts:361-373 | how many pieces, and so estimated tokens, a line counts for |
| LogPump.Pump | server/src/logs/sources.ts:98-130 | for every chunking, exactly the newline-terminated lines of the whole text are handed on, once, in order |
| LogPump.HandedOnInOrder | server/src/logs/sources.ts:115-128 | every line its parser accepts is handed on once, in order, and nothing else is |
| LogPump.WhatALineBecomes | server/src/logs/sources.ts:116-127 | over SSE what follows `data:` goes to the JSON parser and other lines are skipped; otherwise the line goes to the plain parser |
| LogPump.LinesAreUnique | server/src/logs/sources.ts:112-113 | there is one way to read a text as newline-terminated lines and a remainder, and splitting finds it |
| LogPump.LinesAndRestMakeTheText | server/src/logs/sources.ts:112-113 | the lines and the remainder make up the text and contain no newline |
| LogPump.UnbufferedIsExactWhenCutsAreClean | server/src/adapters/llama-swap.ts:311-315 | a reader that splits each read on its own sees the text's lines if and only if no read ends inside one |
| ScaleSignals.SignalSurvivesDebouncing | server/src/adapters/keda.ts:61-82 | over any interleaving of routers a request is visible at every later time before its own + within - debounce |
| ScaleSignals.WantedOnlyIfAsked | server/src/adapters/keda.ts:75-83 | a visible signal was there before or comes from an ask inside the window |
| ScaleSignals.SurvivalBoundIsTight | server/src/adapters/keda.ts:61-82 | at exactly that time it can already be invisible |
| ScaleSignals.AcceptedWritesAreSpaced | server/src/adapters/keda.ts:66-72 | accepted writes for one model are more than the debounce apart |
| Complexity.ComplexityIsMonotone | server/src/routing/complexity.ts:60-104 | appending messages never makes a complex conversation simple |
| Complexity.WhatIsComplex | server/src/routing/complexity.ts:60-104 | a prompt is complex if and only if it has 4000 characters, a marker, a fenced block of 800 among the pattern's matches, two separate numbered items, or three question marks |
| Complexity.MarkersAreThese | server/src/routing/complexity.ts:25-34 | the eight phrases looked for in the lower-cased text |
| Complexity.FlattenSnoc | server/src/routing/complexity.ts:69-83 | the text is every message's in order with a newline between |
| Complexity.PartsSnoc | server/src/routing/complexity.ts:79-81 | a message's parts are its texts in order with a space between |
| Complexity.SpacesAreThese | server/src/routing/complexity.ts:97 | the characters the pattern takes for white space |
| Complexity.BlocksSurvive | server/src/routing/complexity.ts:85-89 | a large fenced block matched in a prefix is matched in the whole text |
| Complexity.ScannerFindsLargeMatches | server/src/routing/complexity.ts:85-89 | the scanner says yes if and only if one of the pattern's successive leftmost, shortest matches is large |
| Complexity.ItemsSurvive | server/src/routing/complexity.ts:97 | the scanner counts no fewer numbered items in a longer text |
| Complexity.CountsTwoExactlyWhenTwoApart | server/src/routing/complexity.ts:97-98 | the leftmost-first scan counts two items if and only if the text has two that do not overlap |
| SystemPrompt.DefaultInjectedExactlyWhenUnset | server/src/adapters/llama-swap.ts:234-242 | the conversation changes if and only if there is a default and the caller sent nothing effective; the caller's messages stay whole behind it; the model then has an effective system prompt unless neither side gave one; injecting again changes nothing unless the default is blank |
| SystemPrompt.DefaultReachesTheModel | server/src/adapters/llama-swap.ts:239-245 | in merge mode an injected default opens the first user turn and no system role remains |
| SystemPrompt.MergingIsIdempotent | server/src/adapters/llama-swap.ts:179-198 | merging twice is merging once |
| SystemPrompt.MergingKeepsTheConversation | server/src/adapters/llama-swap.ts:188-197 | by an increasing index map covering exactly the messages that are not system messages, each is kept in order and unchanged, except that the first user turn's content gets the preamble in front |
| SystemPrompt.OthersSelects | server/src/adapters/llama-swap.ts:188 | filtering keeps exactly the messages that are not system messages, in order |
| SystemPrompt.MergingRemovesSystemRoles | server/src/adapters/llama-swap.ts:182-186 | a system role remains if and only if there was one and the combined text is empty |
| SystemPrompt.PreambleIsEmptyExactlyWhen | server/src/adapters/llama-swap.ts:185-186 | the combined text is empty only with no system message or a single empty one |
| SystemPrompt.PreambleSnoc | server/src/adapters/llama-swap.ts:182-185 | every system or developer message adds its text to the preamble, in order, a blank line between, and no other message adds anything |

## Left out

- Store.Database.PlaceRequest: its two statements run back to back here; `Protocol` runs them as separate steps with anything in between, and retries (`Simulation.PerformPlacement` ties the two).
- Store.Database.ReconcileReplicas: runs its statements with nothing in between; `Protocol` runs each upsert and the final delete as separate steps.
- Store.WaitForPlacement: other sessions' writes between polls appear as the tables each poll finds.
- Exploration.ReexplorationIsBounded: load_pct is fixed during the window; it only breaks ties the result does not depend on.
- Placement.LeastIsUnique: PostgreSQL's re-check of a row that changes between the snapshot and its lock is inside one atomic step.
- Complexity.ComplexityIsMonotone: lower-casing is per code unit, so the final-sigma rule is not modelled; every marker is ASCII.
- Chat.WholeReply: cost, audit content and error endings; the error endings' effect on slots is in `Protocol`.
- Registry columns other than the backend and the first-token allowance, and dashboard overrides: defaults read off one line each.
- Sampling options of the request body, and the dry run: each is one conditional field.
- `affinityKeyFor`, `sweepAffinities`: placement holds for every lookup result.
- Log level parsing, redaction, context-overflow matching and HPA messages: regular expressions over single lines.
- Model selection, cost, error-to-status tables, audit filters: one branch or one query each.
- Sign-in, Kubernetes and health-probe calls, the dashboard: outside the router's state.
