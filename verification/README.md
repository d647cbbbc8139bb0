# A verified model of the Yeoul engine

Yeoul is a bitemporal knowledge store: episodes, sources, entities and facts, with an
append-only revision log, historical reads, and graph stores underneath. This project
models its engine and stores in Dafny and proves what they promise over every input,
every run and every answer of the environment.

`dafny verify dfyconfig.toml` checks everything.

## How the model is laid out

| files | what they hold |
|---|---|
| Wrappers, Text, Sorting, Records, Identity | results, strings, sorting, the stored records, generated IDs and the revision order |
| EngineSpec, Invariants, Preservation, AnyState | every mutation as a function on the state, what every run keeps, that every mutation keeps it, and what holds of databases older than the revision log |
| Cuts, TimeTravel, EntityHistory | historical cuts: they never change, and they show the past exactly; what entities from before the log remember of themselves |
| Lineage, Slots | supersession chains with atomic handover; single-value slots |
| Storage, Rhiza, Lattice, Backends, Engine | deltas and loading, the service protocol, the graph store and its edges, and the engine class with its commit bracket over either store |
| LookupSpec, Lookup, TemporalIndex, Redirects, Reads | fact lookups on both paths, the revision index, merge redirects, and the reads of an engine after any run |
| Merge, Forest | entity merging and what any sequence of merges does to the redirects |
| Neighborhood, NeighborhoodQuery, VisitOrder, Timeline, TimelineQuery | breadth-first neighbourhoods, what the order of a map can do to them, and event timelines |
| Clone, Encoding, Compaction, Migration | deep copies of cyclic graphs, injective identities, fact compaction, crash-safe migration |
| Witnesses | concrete runs that reach the failing side of an exact condition |

A time is an integer number of nanoseconds with 0 as "unset"; clock readings are positive
and otherwise arbitrary, so they may be stuck or run backwards. Where a property needs a
forward clock its lemma says so. Go's seven record maps are maps; the engine, the stores,
the temporal index, the copier and the disk are classes that change them in place, and
each method is proved against a function of the old state. Loops that Go runs over a map
visit its keys in an arbitrary order here too.

The environment is nondeterministic: the database service may acknowledge, refuse or
leave a request in doubt, and a request in doubt may still commit later; a graph
transaction may fail; a caller may give up at any check; a migration may crash after any
step. Derived IDs (slugs and SHA-256 fingerprints) are arbitrary functions. Three things are
assumed. A fresh request ID differs from every committed one. A definite answer of the
service about a request is final: what it refuses, a retry of a request in doubt included,
does not commit later. And the printed form of a number or an instant determines it; such
printing exists (`Encoding.SomePrint`).

## What the proofs show about the code

* A merge takes effect only if no participant was ever updated. `mergeEntities` passes the
  stored metadata on, and `upsertEntityLocked` refuses the `_history` that an update
  leaves there (`Forest.MergeAppliesIff`). The target of an applied merge is itself
  updated by it, so nothing can be merged twice (`Forest.NoSecondMerge`); a refused merge
  changes nothing. One consequence is that redirects written by merges stay one hop long.
* The redirect loop allows 64 steps, the last of which must already stand on an unmarked
  entity, so chains of up to 63 redirects resolve (`Redirects.CanonicalExact`).
* Supersession is exempt from the single-value guard. It keeps a slot exclusive exactly
  when the replacement overlaps no other holder (`Slots.SupersedeExclusiveIff`), and a
  run reaches the other case (`Witnesses.SupersedeCanCollide`).
* Fact transitions are pushed past the stamp they replace, so lineage needs no clock
  assumption. Entity writes are not pushed. A read at the top of the log shows the live
  entities exactly if no revision is stamped later than its entity's last write
  (`TimeTravel.CutAtTheTopIff`); a clock that runs back between two writes breaks that
  (`Witnesses.BackwardClockHidesUpdate`).
* The one-time seed checks no ID. A fact `f` and an entity `f:current` get one revision ID,
  so such a database opens once and is refused after its next save
  (`AnyState.SeedKeepsIdsIff`, `AnyState.SeedCanCollide`).
* Lineage edges look a superseded fact up under its trimmed ID. On Lattice the supersession
  of a fact whose ID is padded with whitespace is refused unless the trimmed ID is a fact's
  or the replacement's own (`Lattice.SupersedeDanglesIff`, `Witnesses.PaddedIdDangles`); on
  Rhiza it is saved.
* A neighbourhood adds an edge while it visits the edge's record, if both ends are nodes by
  then. No live read misses an edge where references hold, and every run keeps references
  that hold, in old databases too (`VisitOrder.LiveReadsStayWhole`). A historical read of a
  state of the engine can miss one, and can depend on the order in which a map is visited,
  only through a blank ID that a hidden source or entity shares with a shown episode or
  fact (`VisitOrder.ReadIsWhole`, `Witnesses.OrderCanShow`).
* A save whose outcome stays unknown poisons the engine. Whoever opens the database next
  finds the state before the mutation or the state after it (`Reads.MutateThenReopen`).
* Lattice refuses to load a record without an ID, and no mutation stores one. That is why
  lookups through edges, which no such record has, miss nothing (`Reads.RunThenLookup`).
* An entity from before the revision log is rebuilt from its `_history` on a historical
  read, as it was at every instant before its last update, if each update came later than
  the one before (`TimeTravel.OldEntitiesAreRebuilt`).

## Model

| member | source | states |
|---|---|---|
| Text.Pad6RoundTrip | pkg/yeoul/id.go:160-204 | a number rendered with six-digit padding is read back as itself, at any width |
| Identity.RevisionOrderRecovered | pkg/yeoul/id.go:189-204 | the order recovered from a generated revision ID is the number it was generated with, across digit boundaries |
| Identity.ComesAfterIsStrictTotal | pkg/yeoul/temporal.go:72-80 | the revision order is irreflexive, transitive, asymmetric, and total on distinct IDs, so a newest revision is well defined |
| Identity.NewestUnique | pkg/yeoul/temporal_index.go:52-90 | a log has at most one newest revision, whatever order it is scanned in |
| Identity.NextFree | pkg/yeoul/id.go:160-168 | the generated number is the first one above the sequence whose ID no record of any kind holds; the search ends because finitely many higher numbers are taken |
| Identity.IdTextInjective | pkg/yeoul/id.go:160-168 | two generated IDs of one prefix are equal only if their numbers are |
| Engine.Engine.NewIDLocked | pkg/yeoul/id.go:160-168 | the loop settles on exactly the number of the specification and stores it as the sequence |
| Engine.Engine.EnsureGlobalIDAvailable | pkg/yeoul/id.go:239-276 | succeeds exactly when the ID is blank or no record of another kind holds it |
| Engine.ValidateGlobalRecordIDs | pkg/yeoul/id.go:297-336 | accepts a loaded state exactly when no non-blank ID names records of two kinds |
| Preservation.AddingAvailableIdKeepsUnique | pkg/yeoul/id.go:239-276 | adding a record under an available ID keeps the seven ID sets disjoint on non-blank IDs |
| AnyState.StepKeepsIds | pkg/yeoul/id.go:239-276 | from any state whose ID sets are disjoint on non-blank IDs, every mutation, batches of explicit, derived and generated IDs included, leaves such a state, under any clock |
| AnyState.RunKeepsIds | pkg/yeoul/engine.go:1151-1202 | and so does every run, from databases older than the revision log too |
| AnyState.RunCarries | pkg/yeoul/engine.go:1151-1202 | from any loadable state, every run keeps IDs unique, records under their own and non-empty IDs, and references that hold; it deletes no entity or fact and leaves the seed's mark alone |
| AnyState.StepKeepsWellKeyed | pkg/yeoul/engine.go:1151-1202 | every mutation of any loadable state keeps each record under its own ID |
| AnyState.SeedKeepsWellKeyed | pkg/yeoul/temporal.go:144-197 | and so does the one-time seed |
| AnyState.SeedKeepsNames | pkg/yeoul/temporal.go:144-197 | the seed stores no record without an ID |
| AnyState.SeedKeepsIdsIff | pkg/yeoul/temporal.go:155-180 | the seed, which checks no ID, keeps the ID sets disjoint exactly if no record of another kind holds a seed ID and no entity is named like a fact with `:current` or `:initial` |
| AnyState.SeedCanCollide | pkg/yeoul/temporal.go:155-180 | a database with distinct IDs whose seed gives two records one ID |
| Invariants.SeededInv | pkg/yeoul/temporal.go:144-197 | what the one-time seed makes of an empty database satisfies the invariant |
| Invariants.AppendKeepsFactLog | pkg/yeoul/temporal.go:134-137 | storing a fact with its revision, stamped no earlier than before, keeps the newest revision equal to the current fact |
| Invariants.HandoverKeepsLifecycle | pkg/yeoul/engine.go:683-745 | a supersession leaves both facts linked both ways, sharing the handover instant, and every revision in the phase its stamp says |
| Invariants.RetractKeepsLifecycle | pkg/yeoul/engine.go:747-792 | a retraction keeps every life and every revision phase consistent |
| Preservation.AssertKeepsInv | pkg/yeoul/engine.go:525-642 | an admitted assertion, explicit or generated ID, keeps the invariant and adds only records stamped now |
| Preservation.UpsertKeepsInv | pkg/yeoul/engine.go:389-484 | an entity write keeps the invariant and adds one revision stamped now |
| Preservation.SupersedeKeepsInv | pkg/yeoul/engine.go:683-745 | a supersession keeps the invariant and stamps both revisions past the target it replaces |
| Preservation.RetractKeepsInv | pkg/yeoul/engine.go:765-792 | a retraction keeps the invariant, repeated or not |
| Preservation.BatchKeepsInv | pkg/yeoul/engine.go:224-315 | a batch mixing episodes, entities and facts keeps the invariant |
| Preservation.StepKeepsInv | pkg/yeoul/engine.go:1151-1202 | from every state that satisfies the invariant, every mutation under any clock reading keeps it and never changes or removes an earlier revision |
| Preservation.RunKeepsInv | pkg/yeoul/engine.go:1151-1202 | and so does every run, with stuck and backward clocks included |
| Engine.Engine.UpsertEntityLocked | pkg/yeoul/engine.go:389-484 | the in-place entity write computes the specified new state, and each refusal carries the specified error |
| Engine.Engine.CheckFact | pkg/yeoul/engine.go:525-610 | the admission checks, in order, agree with the specification in outcome and error |
| Engine.Engine.FactSlotOccupants | pkg/yeoul/engine.go:650-663 | the sorted active facts of the slot whose validity overlaps the candidate, and no others |
| Engine.Engine.AssertFactLocked | pkg/yeoul/engine.go:525-642 | the in-place assertion computes the specified state |
| Engine.Engine.SupersedeFactLocked | pkg/yeoul/engine.go:683-745 | the two-sided rewrite, with the stamp pushed past the target and the pinned time restored, computes the specified state |
| Engine.Engine.RetractFactBody | pkg/yeoul/engine.go:747-792 | retraction in place, with its stamp rule, computes the specified state |
| Engine.Engine.IngestBatchBody | pkg/yeoul/engine.go:224-315 | the three batch loops with reference rewriting compute the specified state, or stop with the specified error or a cancellation |
| TimeTravel.CutImmutable | pkg/yeoul/temporal.go:36-142 | what a read as of T sees of every record is the same before and after any growth stamped later than T |
| TimeTravel.MutationKeepsPast | pkg/yeoul/temporal.go:36-142 | no mutation whose clock reading is after T changes the cut as of T, whatever the clock did earlier |
| TimeTravel.LaterRunKeepsPast | pkg/yeoul/temporal.go:36-142 | the same over any number of mutations |
| TimeTravel.ForwardStep | pkg/yeoul/engine.go:1166-1170 | a mutation read later than every stored stamp leaves the entity log in order and no stamp later than its reading |
| TimeTravel.CutAtTheTop | pkg/yeoul/temporal.go:104-142 | at or after the last stamp the cut is the live state, up to the entities' `_history` |
| TimeTravel.CutAtTheTopIff | pkg/yeoul/temporal.go:104-142 | under any clock, a cut at or after the last stamp is the live state exactly if no entity has a revision stamped later than its last write |
| Witnesses.BackwardClockHidesUpdate | pkg/yeoul/engine.go:389-484 | an entity renamed by a write stamped before its creation: the historical read is not the live state |
| TimeTravel.Fidelity | pkg/yeoul/temporal.go:221-303 | with a clock that moves past every stored stamp, a read as of T sees exactly the live state right after the last mutation stamped by T |
| TimeTravel.NoCutSplitsAMutation | pkg/yeoul/engine.go:1151-1170 | on a fresh database with a strictly increasing clock, every cut is the live state between two whole mutations, so no batch is split |
| TimeTravel.UnrecordedEntityIsFuture | pkg/yeoul/temporal.go:104-132 | in a state of the engine, an entity without a revision at an instant was created later, so `_history` is never consulted |
| TimeTravel.OldEntitiesAreRebuilt | pkg/yeoul/temporal.go:104-132 | an entity updated any number of times before the revision log, each time later than before, is shown after the seed, as of every instant before its last update, as it was at that instant |
| EntityHistory.RebuildsThePast | pkg/yeoul/history.go:174-241 | reading back the `_history` that updates left, after a reload, gives the version each instant fell into |
| EntityHistory.Rebuild | pkg/yeoul/temporal.go:120-132 | collecting, sorting and scanning the snapshots finds the earliest change after the instant, or the current version without one |
| Lineage.ActiveExactly | pkg/yeoul/temporal.go:36-59 | a fact is active as of exactly the instants from its creation up to its supersession or retraction |
| Lineage.InvIsLineal | pkg/yeoul/engine.go:700-745 | `superseded_by` and `supersedes` are inverse and a successor is created exactly when its predecessor ends |
| Lineage.EveryFactOnAChain | pkg/yeoul/engine.go:683-745 | every fact lies on a finite supersession chain |
| Lineage.ChainsDisjoint | pkg/yeoul/engine.go:683-745 | two chains that share a member are the same chain |
| Lineage.AtomicHandover | pkg/yeoul/engine.go:1216-1230 | for any clock: from a chain's first creation until its last member ends exactly one member is active as of each instant, and none before or after |
| Records.OverlapIsSharedInstant | pkg/yeoul/temporal.go:388-420 | two valid intervals overlap exactly when some instant lies in both |
| Slots.ExclusiveMeansAtMostOneValid | pkg/yeoul/engine.go:650-663 | no two holders of a slot overlap exactly when at most one of them is valid at each domain instant |
| Slots.AssertExclusive | pkg/yeoul/engine.go:596-610 | an assertion with cardinality one keeps its slot exclusive |
| Slots.SupersedeExclusiveIff | pkg/yeoul/engine.go:683-699 | a supersession, exempt from the guard, keeps the slot exclusive exactly when the replacement overlaps no holder but its target |
| Witnesses.SupersedeCanCollide | pkg/yeoul/engine.go:683-745 | a run whose last supersession leaves two holders valid at once in an exclusive slot |
| Slots.DisciplinedStep | pkg/yeoul/engine.go:596-610 | a mutation that asserts with cardinality one and replaces within the target's validity keeps the slot exclusive |
| Slots.SlotExclusiveOverRuns | pkg/yeoul/engine.go:596-663 | over any such run from an empty database, with any clock, at most one active fact of the slot is valid at each domain instant |
| TemporalIndex.TemporalIndex.RebuildFacts | pkg/yeoul/temporal_index.go:52-69 | the rebuild, scanning the log in any order, finds each fact's newest revision up to the instant |
| TemporalIndex.TemporalIndex.LatestFactRevisionAt | pkg/yeoul/temporal_index.go:101-107 | asked for any sequence of instants, the memoised answer is the maximum over the whole log |
| TemporalIndex.TemporalIndex.LatestEntityRevisionAt | pkg/yeoul/temporal_index.go:109-115 | the same for entities |
| TemporalIndex.NewestIsLastAppended | pkg/yeoul/temporal.go:61-80 | for any clock, a fact's newest revision is the last one appended and converts back to the current fact |
| Redirects.CanonicalExact | pkg/yeoul/history.go:32-75 | on any marker graph, resolution yields the unmarked end of the chain exactly when at most 63 valid redirects of one space lead there, and the raw ID otherwise |
| Redirects.CanonicalIdempotent | pkg/yeoul/history.go:32-75 | resolving a resolved ID changes nothing |
| Redirects.CanonicalIgnoresHistory | pkg/yeoul/history.go:32-75 | resolution does not depend on `_history` |
| Lookup.CanonicalAt | pkg/yeoul/history.go:32-75 | the bounded loop over visible versions computes the specified resolution |
| Lookup.CanonicalIds | pkg/yeoul/history.go:84-93 | every anchor is resolved, in order |
| Lookup.FactVersion | pkg/yeoul/temporal.go:36-59 | the version of a fact at the filter's instant, through the index |
| Lookup.EntityVersion | pkg/yeoul/temporal.go:104-132 | the version of an entity at the filter's instant, through the index or, for an entity from before the log, rebuilt from its `_history` |
| Lookup.MatchesScope | pkg/yeoul/temporal.go:312-365 | the scope test on a fact version: status, endpoint types, and some visible supporting episode in scope |
| LookupSpec.AnswerUnique | pkg/yeoul/graph.go:81-86 | the cut and the request determine the ordered answer, so map iteration order cannot show |
| LookupSpec.LookupImmutable | pkg/yeoul/graph.go:18-103 | a lookup as of T returns the same ordered facts before and after any mutations read after T |
| LookupSpec.CursorRoundTrip | pkg/yeoul/graph.go:916-932 | decoding an encoded cursor gives the offset back |
| LookupSpec.PageUnique | pkg/yeoul/graph.go:897-914 | a page and its next cursor are determined by cut, request and cursor, whichever store served them |
| LookupSpec.WalkVisitsEachFactOnce | pkg/yeoul/graph.go:897-932 | a cursor walk pinned at T returns a duplicate-free prefix of the answer, and all of it when it ends, with later writes between its pages |
| Lookup.AnchoredFactsAreCandidates | pkg/yeoul/graph.go:105-178 | every fact whose resolved endpoints match the anchors names an expanded entity |
| Lookup.LookupCandidates | pkg/yeoul/graph.go:105-178 | whenever the edge path is taken its candidates cover every fact the request can select; every other condition falls back to the scan |
| Lookup.LookupFacts | pkg/yeoul/graph.go:18-103 | on any loadable state, with or without a store, by edges or by scanning, the result is the page the specification fixes; errors are cancellation, a bad cursor, a poisoned engine or a failing store |
| Reads.RunThenLookup | pkg/yeoul/graph.go:105-178 | open a database, run any mutations, saved or refused, and look facts up through the store and by scanning: whenever both answer, the pages are equal |
| Storage.SplitLatticeKey | pkg/yeoul/store_lattice.go:701-708 | the key is cut at its first NUL |
| Storage.SplitRecovers | pkg/yeoul/store_lattice.go:701-708 | splitting recovers label and ID even when the ID contains the separator |
| Storage.BuildDelta | pkg/yeoul/store_lattice.go:635-682 | the filled map holds exactly the records that differ, removals included, whatever order the maps are visited in |
| Storage.RowsOf | pkg/yeoul/store_lattice.go:560-566 | splitting the composite keys gives back each record under its own label and ID |
| Storage.LoadsUnique | pkg/yeoul/store_rhiza.go:177-223 | stored rows load as at most one state |
| Storage.SaveLoads | pkg/yeoul/store_rhiza.go:303-350 | one delta save on rows that load as the previous state makes them load as the next one |
| Storage.DeltasCompose | pkg/yeoul/store_lattice.go:635-708 | after any sequence of delta saves, with removals and revivals, the rows load as exactly the last state |
| Lattice.ReconcileNodes | pkg/yeoul/store_lattice.go:560-602 | node writes and deletions, in any order, with deleted nodes taking their edges along |
| Lattice.ReplaceEdges | pkg/yeoul/store_lattice.go:710-777 | the edges leaving changed nodes become exactly the ones their records call for, and the transaction stops exactly at a missing target |
| Lattice.ReplaceKeepsExact | pkg/yeoul/store_lattice.go:710-777 | if every fact's endpoint edges were its stored subject and object, they are after an incremental save exactly if no unchanged fact loses an endpoint |
| Lattice.RowsAfterLoad | pkg/yeoul/store_lattice.go:508-556 | the node table after a save loads as the saved state |
| Lattice.LatticeStore.Save | pkg/yeoul/store_lattice.go:508-556 | a save, the first one of an unloaded store included, commits the whole change or nothing; it is refused for a missing target exactly when a changed record calls for one, and exact edges stay exact exactly if no unchanged fact loses an endpoint |
| Lattice.TargetsStoredIff | pkg/yeoul/store_lattice.go:750-775 | in a state of the engine every edge has its target, sources, episodes, endpoints and lineage included, exactly if each retired fact can be found under its trimmed ID |
| Lattice.SupersedeDanglesIff | pkg/yeoul/store_lattice.go:728-774 | a supersession leads to a state that calls for a missing target exactly if the trimmed ID of its target is neither a fact's nor the replacement's, or the target itself replaced such a fact |
| Witnesses.PaddedIdDangles | pkg/yeoul/clone.go:41-56 | a run that reaches such a refusal |
| Lattice.DecodeNodes | pkg/yeoul/store_lattice.go:124-235 | loading the nodes of a graph, with or without state metadata, succeeds exactly when they are those of some state whose records all have IDs, and gives that state |
| Lattice.LatticeStore.Load | pkg/yeoul/store_lattice.go:98-264 | a load trusts the flag, or a database without records, and then the edges are exact; a failed one leaves the store as it was |
| Lattice.FollowAll | internal/storage/lattice/lattice.go:187-236 | following incoming edges collects exactly the facts that point at the entities, or reports the fan-out bound |
| Lattice.LatticeStore.FactCandidates | pkg/yeoul/store_lattice.go:801-822 | the sorted result is exactly the facts whose stored subject or object is wanted; unavailability means not ready or a fan-out over the bound |
| Rhiza.Apply | internal/storage/rhiza/rhiza.go:59-111 | a definite outcome is truthful and leaves nothing in flight; a request in flight may commit at any moment, and the retry under the same request ID cannot apply it twice |
| Rhiza.ReadRecords | internal/storage/rhiza/rhiza.go:113-198 | replaying the catalogue page by page and fetching each record returns exactly the stored records |
| Rhiza.DecodeRows | pkg/yeoul/store_rhiza.go:177-301 | decoding succeeds exactly when some state loads from the rows, and gives that state |
| Rhiza.RhizaStore.Load | pkg/yeoul/store_rhiza.go:177-223 | a successful load leaves the store knowing exactly what is on disk |
| Rhiza.RhizaStore.Save | pkg/yeoul/store_rhiza.go:303-350 | saved means disk equals the state, failed or too large means disk is unchanged, unknown poisons the store for good and leaves the rows of the old state or of the new one, with a request in flight leading from the one to the other |
| Backends.Backend.Save | pkg/yeoul/store.go:31-38 | the same over either store, for every answer of its environment |
| Engine.Engine.RestoreLocked | pkg/yeoul/engine.go:1232-1241 | all maps and the sequence are as in the snapshot |
| Engine.Engine.Mutate | pkg/yeoul/engine.go:1151-1202 | on every database that opens, over either store, under every answer and cancellation: success is the specified new state, failure restores the old one, unless the engine is poisoned a reload gives exactly what is in memory, an unknown outcome leaves the old state or the new one on disk, and unique IDs and the invariant carry over |
| Engine.Engine.Close | pkg/yeoul/engine.go:129-147 | closing saves once more and keeps memory and disk in agreement, unless the engine is poisoned |
| Engine.Engine.GetFact | pkg/yeoul/engine.go:1034-1047 | unless the engine is poisoned, a fact is found exactly if reloading the disk would find it, and it is the same fact |
| Engine.Open | pkg/yeoul/engine.go:72-110 | every database with unique IDs opens as an engine that agrees with its disk, holding the loaded state, seeded once; colliding IDs are refused |
| Engine.ReopenRestores | pkg/yeoul/engine.go:72-110 | reopening gives the state in memory; only a seed that was never saved can differ, in its time |
| Reads.RunAll | pkg/yeoul/engine.go:1151-1202 | after any sequence of mutations the engine is in the state of those that took effect, agrees with the disk unless poisoned, and its store is as ready to serve lookups as before |
| Reads.MutateThenReopen | pkg/yeoul/engine.go:1151-1202 | a mutation over Rhiza, the end of the process, a request left in flight, and a restart: an acknowledged mutation is found, a refused one is not, and an unknown one is found whole or not at all |
| Reads.LookupFacts | pkg/yeoul/graph.go:18-103 | a poisoned engine serves no lookup; any other serves the page of its state |
| Reads.QueryTimeline | pkg/yeoul/graph.go:399-493 | the same for timelines |
| Reads.QueryNeighborhood | pkg/yeoul/graph.go:180-362 | the same for neighbourhoods |
| Merge.CollectSources | cmd/yeoul/fact_cmd.go:754-789 | the validation loop accepts exactly the compatible, unredirected sources |
| Merge.MergeEntities | cmd/yeoul/fact_cmd.go:749-851 | validates everyone, then commits one batch; a refused merge leaves the engine as it was |
| Forest.MergeAppliesIff | cmd/yeoul/fact_cmd.go:805-846 | a validated merge takes effect exactly when no participant carries engine-managed metadata, which any earlier update leaves behind |
| Witnesses.MergeCanBeRefused | cmd/yeoul/fact_cmd.go:805-846 | a run and a validated merge that changes nothing |
| Forest.MergeKeepsForest | cmd/yeoul/fact_cmd.go:749-851 | one merge, applied or refused, keeps every redirect one hop long, inside its space, to an unmarked entity |
| Forest.PlainStepKeepsForest | pkg/yeoul/engine.go:389-484 | an ordinary write that carries no marker keeps the redirects a forest |
| Forest.RunKeepsForest | cmd/yeoul/fact_cmd.go:749-851 | every sequence of merges and such writes from a forest keeps it one, under any clock |
| Forest.RunFromEmpty | cmd/yeoul/fact_cmd.go:749-851 | from an empty database, every sequence of merges and such writes leaves a forest |
| Forest.ForestResolves | pkg/yeoul/history.go:32-75 | in such a forest every entity resolves in at most one hop to an unmarked one |
| Forest.NoSecondMerge | cmd/yeoul/fact_cmd.go:814-846 | after an applied merge, every later merge naming one of its participants changes nothing, whatever happened between |
| Clone.Cloner.CloneAnyValue | pkg/yeoul/clone.go:66-118 | the copy of any value in a closed graph corresponds to it, the source and earlier copies stay untouched, and unvisited containers are the termination measure |
| Clone.Cloner.CloneReflectValue | pkg/yeoul/clone.go:151-232 | the same for typed containers, arrays, structs and pointers |
| Clone.Cloner.CloneContainer | pkg/yeoul/clone.go:81-118 | a visited container is reused, and a new one is entered in the table before it is filled |
| Clone.SameObservations | pkg/yeoul/clone.go:66-232 | source and copy agree on every finite observation, through sharing and cycles |
| Clone.NothingShared | pkg/yeoul/clone.go:66-232 | no container reachable from the copy belongs to the source |
| Clone.SharingKept | pkg/yeoul/clone.go:22-39 | two references lead to one copy exactly when they led to one tracked container |
| Clone.CloneAny | pkg/yeoul/clone.go:62-64 | terminates on every finite graph with a bisimilar, disjoint copy and an unchanged source; an empty or nil generic container may trade places |
| Encoding.EncodeIdentityParts | cmd/yeoul/merge.go:331-337 | the builder loop computes the length-prefixed text |
| Encoding.EncodePartsInjective | cmd/yeoul/merge.go:331-337 | two part lists get the same text only if they are equal |
| Encoding.CanonicalText | cmd/yeoul/merge.go:294-329 | the recursive rendering of a metadata value, with sorted keys, computes the canonical text |
| Encoding.SomePrint | cmd/yeoul/merge.go:326-328 | numbers and instants can be printed so that the text determines them |
| Encoding.CanonicalSame | cmd/yeoul/merge.go:294-329 | two metadata trees of any depth get the same canonical text exactly if they are equal, except that a list of strings equals the generic list of the same strings |
| Encoding.DecodedSame | cmd/yeoul/merge.go:294-329 | on trees as JSON decodes them there is no exception |
| Encoding.ListKindsMeet | cmd/yeoul/merge.go:315-320 | the exception: however values are printed, every list of strings shares its text with the generic list of the same strings |
| Encoding.MetadataSame | cmd/yeoul/merge.go:278-292 | the same for whole metadata maps, the empty one included; on decoded maps the text determines the map |
| Encoding.CanonicalMetadata | cmd/yeoul/merge.go:278-292 | the rendering of a metadata map computes that text |
| Encoding.CompositeID | pkg/yeoul/id.go:370-380 | the builder loop computes the composite ID |
| Encoding.JoinPartsInjective | pkg/yeoul/id.go:370-380 | two part lists get the same composite ID only if they are equal |
| Encoding.EdgeIdsDistinct | pkg/yeoul/id.go:359-369 | distinct graph edges have distinct IDs, so none overwrites another |
| NeighborhoodQuery.BuildGraph | pkg/yeoul/graph.go:193-262 | the nodes are exactly the surviving records, and the edges exactly those that some order of visiting the episodes and the facts adds, with resolved endpoints |
| NeighborhoodQuery.GraphSound | pkg/yeoul/graph.go:205-215 | every edge of a graph is one some record calls for, between two nodes |
| VisitOrder.OrderShowsIff | pkg/yeoul/graph.go:217-262 | two visiting orders can give different graphs exactly if some admitted record points to another one of its own pass that no earlier pass made a node |
| VisitOrder.AlwaysWholeIff | pkg/yeoul/graph.go:217-262 | every graph has every edge between two nodes exactly if no record points to a node that only a later visit makes |
| VisitOrder.MissingHasTwin | pkg/yeoul/graph.go:217-262 | where references hold, and on a historical read the invariant, that takes a historical read on which a hidden source or entity shares a blank ID with a shown episode or fact |
| VisitOrder.ReadIsWhole | pkg/yeoul/graph.go:217-262 | so every live read builds one graph, with every edge between two nodes, and so does every historical read without such a blank ID |
| VisitOrder.LiveReadsStayWhole | pkg/yeoul/graph.go:217-262 | from any state with unique IDs whose references hold, every live read after every run holds every edge between two nodes |
| Witnesses.OrderCanShow | pkg/yeoul/graph.go:232-240 | a run, with a clock that goes back, and a historical read whose graph depends on the visiting order |
| Neighborhood.Search | pkg/yeoul/graph.go:264-302 | the reached nodes are exactly those within the hop limit over allowed edges, each at its true shortest distance |
| Neighborhood.DistancesExact | pkg/yeoul/graph.go:264-302 | when every discovered node within the limit is expanded, no walk is shorter than the recorded distance |
| Neighborhood.PrefixIsNearest | pkg/yeoul/graph.go:318-330 | truncation keeps nodes that precede every dropped one by distance, then ID |
| Neighborhood.KeptEdges | pkg/yeoul/graph.go:339-353 | the returned edges are exactly the crossed ones between kept nodes, in ID order |
| Neighborhood.Neighborhood | pkg/yeoul/graph.go:264-361 | the whole selection: search, type filter, truncation and edge filter |
| Neighborhood.EdgesJoinReturnedNodes | pkg/yeoul/graph.go:339-353 | every returned edge joins two returned nodes, and an untruncated answer misses no wanted node in reach |
| NeighborhoodQuery.QueryNeighborhood | pkg/yeoul/graph.go:180-362 | the answer is that selection on such a graph of the cut, from the resolved anchors; it fails exactly without anchors or on a poisoned engine |
| Timeline.LifecycleExact | pkg/yeoul/graph.go:513-556 | a fact's log yields a supersession event exactly if it was superseded and a retraction event exactly if it was retracted, once each, at the recorded instants |
| Timeline.SupersessionBeforeRetraction | pkg/yeoul/graph.go:506-512 | a supersession event is stamped strictly before the retraction of the same fact |
| Timeline.AsOfTimelineIsAPrefix | pkg/yeoul/graph.go:399-493 | for a request of the superseded and retracted kinds, in any order, the events as of T are those of the live timeline stamped by T, in the same order; read forwards they are a prefix |
| Timeline.FullTimelinePrefix | pkg/yeoul/graph.go:399-493 | the same for these events of two timelines that ask for every kind |
| Timeline.TimelineUnique | pkg/yeoul/graph.go:375-397 | state and request determine the order of the entries |
| TimelineQuery.EntriesTotal | pkg/yeoul/graph.go:375-397 | any two entries are ordered one way or the other |
| TimelineQuery.RevisionsByFact | pkg/yeoul/graph.go:498-504 | the single pass groups exactly each fact's revisions |
| TimelineQuery.LifecycleEvents | pkg/yeoul/graph.go:513-556 | the loop over the sorted revisions emits the specified events |
| TimelineQuery.TimelinePage | pkg/yeoul/graph.go:399-493 | the query returns a page of the specified timeline |
| Compaction.IdentityMeans | cmd/yeoul/merge.go:260-272 | two facts share an identity exactly when claim, validity and sorted support are equal and their metadata is the same |
| Compaction.FactIdentityOf | cmd/yeoul/merge.go:260-272 | the identity is computed from the encoded support and the canonical metadata |
| Compaction.PreferSurvivor | cmd/yeoul/merge.go:343-361 | the loop finds the member better than every other by confidence, later observation, then lower ID |
| Compaction.BuildPlan | cmd/yeoul/merge.go:363-399 | one candidate for each class of several active members, keeping the best and naming the others in order |
| Compaction.ApplyPlan | cmd/yeoul/admin_cmd.go:164-173 | a full apply retracts exactly the plan's sources and returns their number; a failed one some of them, and nothing else changes |
| Compaction.OneSurvivorPerClass | cmd/yeoul/admin_cmd.go:156-173 | every identity class that had an active member has exactly one left, the best |
| Compaction.OthersUntouched | cmd/yeoul/admin_cmd.go:156-173 | facts outside classes of several members are unchanged in every field |
| Compaction.NothingLeftToCompact | cmd/yeoul/admin_cmd.go:195-212 | planning again after a full apply finds nothing |
| Migration.ListRecords | pkg/yeoul/storage_migration.go:158-193 | the listed records are the full copy in strict key order, metadata last, and each data record fits a chunk |
| Migration.NextChunk | pkg/yeoul/storage_migration.go:194-206 | a chunk is non-empty, within the byte limit unless it is one record, and as long as it can be |
| Migration.SeedChunks | pkg/yeoul/storage_migration.go:194-219 | the chunks partition the records in order, and whatever the service answers the target holds a prefix of them |
| Migration.ProperPrefixRefused | pkg/yeoul/store_rhiza.go:214-219 | every non-empty proper prefix is refused by Load |
| Migration.FullCopyLoads | pkg/yeoul/storage_migration.go:93-98 | the complete copy loads as the source state |
| Migration.Verify | pkg/yeoul/storage_migration.go:107-127 | verification accepts only a copy that loads as the source, and rejects no full copy: only a failed load stops it |
| Migration.Publish | pkg/yeoul/storage_migration.go:139-156 | publication removes a durable marker and syncs its removal |
| Migration.MigrateLatticeToRhiza | pkg/yeoul/storage_migration.go:22-137 | at every step, and after a crash at any step, an open of the target is refused, finds nothing or sees exactly the source state; after success it sees that state |

## Left out

- Provenance, search scoring and ranking, record lookups by identity, and the included
  records of a lookup response: reads that add no harder property.
- Command line, HTTP, OpenAPI, export and import: plumbing around the engine.
- The entity half of compaction and merge previews: they mark entities with the same kind
  of batch as merging does.
- JSON text, base64 keys and full-text documents: a stored payload is the record itself, so a
  list of strings stays one on reload, where the code gets a generic list.
- Case folding, fmt printing and episode summaries: parameters of the requests that use
  them, with nothing assumed.
- Identity.RevisionOrderRecovered: holds for the unbounded number; the 64-bit sequence wraps
  after 2^64 IDs and that wrap is not modelled.
- Confidence values are reals and metadata numbers are finite, so NaN and rounding are
  outside the model.
- EntityHistory.Rebuild: snapshots with one time of change keep their order, where the code's
  sort promises that for short lists only; a text field of an entry that holds a number, a
  list or an object prints as nothing.
- The theorems about time travel, lineage and timelines start from an empty seeded database
  or any state that satisfies the invariant. Databases from before the revision log do not;
  what holds of them is in AnyState, `VisitOrder.LiveReadsStayWhole` and
  `TimeTravel.OldEntitiesAreRebuilt`.
- Engine.Open: a database is opened when none of its requests is in flight, and the in-memory
  store, which saves nothing, is not modelled.
- Lattice.LatticeStore.Save: a store that was never loaded saves into a database that holds
  no record of its own; the code does not check that.
- Locking between goroutines: a mutation is one atomic step and a read sees one state.
- Rhiza and Lattice internals, backup and restore: the stores are keyed records with atomic
  requests or transactions. Lattice node numbers are replaced by label and ID.
- Operating-system locks, symbolic links and directory syncs beyond the migration marker: an
  unsynced target directory may vanish in a crash, and no other process creates the target
  while it is unowned.
- Clone.CloneAny: unexported struct fields, slice capacities, slices that overlap in one
  backing array, and pointers inside map keys are not modelled.
- Compaction.ApplyPlan: starts after the entity candidates were applied, which leaves facts
  alone.
- Migration.NextChunk: record sizes are an arbitrary function, so a metadata record could by
  itself exceed the limit; the code does not check that one either.
