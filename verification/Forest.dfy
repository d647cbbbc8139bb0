/** What merges do to the redirect relation over whole runs: it stays a forest, one
    hop deep, and a merge is refused exactly when it names an entity that an earlier
    write has already updated. */
module Forest {
  import opened Identity
  import opened Wrappers
  import opened Text
  import opened Records
  import opened EngineSpec
  import opened Invariants
  import opened Preservation
  import opened Redirects
  import opened Merge

  // ----- entity writes, seen from the entity map -----

  /** What stored entities always look like. */
  ghost predicate Shaped(entities: map<string, Entity>) {
    "" !in entities &&
    forall id :: id in entities ==>
      entities[id].id == id && !Blank(entities[id].typ) && !Blank(entities[id].canonicalName) && !Blank(entities[id].spaceId)
  }

  /** The markers form a forest of depth one: every redirect leads, inside its space,
      to an unmarked entity that was itself updated. */
  ghost predicate Shallow(entities: map<string, Entity>) {
    forall id :: id in entities && Marked(entities[id]) ==> RedirectOk(entities, id)
  }

  predicate RedirectOk(entities: map<string, Entity>, id: string)
    requires id in entities && Marked(entities[id])
  {
    var marker := entities[id].metadata[DuplicateOf];
    marker.Text? && marker.text in entities && marker.text != id &&
    !Marked(entities[marker.text]) && History in entities[marker.text].metadata &&
    entities[marker.text].spaceId == entities[id].spaceId
  }

  function Upserted(entities: map<string, Entity>, id: string, input: EntityInput, now: int): Entity {
    if id in entities then UpdatedEntity(entities[id], input, now) else CreatedEntity(id, input, now)
  }

  predicate Admissible(input: EntityInput) {
    !Blank(input.typ) && !Blank(input.canonicalName) && input.metadata.Keys !! RESERVED_ENTITY_KEYS
  }

  lemma PutEntityEntities(s: State, id: string, entity: Entity, kind: string)
    ensures PutEntity(s, id, entity, kind).entities == s.entities[id := entity]
  {
    hide NewEntityRevision, NextFree, AllIds;
  }

  lemma PutFactEntities(s: State, id: string, fact: Fact, kind: string)
    ensures PutFact(s, id, fact, kind).entities == s.entities
  {
    hide NewFactRevision, NextFree, AllIds;
  }

  lemma NewIdEntities(s: State, prefix: string)
    ensures NewId(s, prefix).0 == s.(sequence := NewId(s, prefix).0.sequence)
  {
    hide NextFree, AllIds;
  }

  lemma UpsertEffect(s: State, d: Derivation, input: EntityInput, now: int)
    requires UpsertEntity(s, d, input, now).Ok?
    ensures var done := UpsertEntity(s, d, input, now).value;
            var id := EntityTarget(s, d, input);
            done.entity == Upserted(s.entities, id, input, now) &&
            done.state.entities == s.entities[id := done.entity]
    ensures Admissible(input)
  {
    hide Blank, IdAvailable, UpdateAllowed, EntityTarget, PutEntity, UpdatedEntity, CreatedEntity;
    var id := EntityTarget(s, d, input);
    var entity := Upserted(s.entities, id, input, now);
    PutEntityEntities(s, id, entity, "assert");
    PutEntityEntities(s, id, entity, "update");
  }

  lemma UpsertKeepsShape(entities: map<string, Entity>, id: string, input: EntityInput, now: int)
    requires Shaped(entities) && id != "" && Admissible(input)
    ensures Shaped(entities[id := Upserted(entities, id, input, now)])
  {
    hide Blank, DedupeTrimmed, SnapshotEntry, AppendHistory, AdmittedMetadata;
    DefaultSpaceIsNotBlank(input.spaceId);
    hide SpaceOf;
  }

  /** An ordinary write that carries no marker cannot break the forest. */
  lemma UpsertKeepsShallow(entities: map<string, Entity>, id: string, input: EntityInput, now: int)
    requires Shaped(entities) && Shallow(entities)
    requires Admissible(input) && DuplicateOf !in input.metadata
    ensures Shallow(entities[id := Upserted(entities, id, input, now)])
  {
    hide Blank, DedupeTrimmed, SnapshotEntry, SpaceOf;
    var entities' := entities[id := Upserted(entities, id, input, now)];
    forall x | x in entities' && Marked(entities'[x])
      ensures RedirectOk(entities', x)
    {
      assert x in entities && Marked(entities[x]) && RedirectOk(entities, x);
    }
  }

  // ----- ordinary runs -----

  predicate Plain(op: Op) {
    match op
    case UpsertOp(input) => DuplicateOf !in input.metadata
    case BatchOp(batch) => forall i :: 0 <= i < |batch.entities| ==> DuplicateOf !in batch.entities[i].metadata
    case _ => true
  }

  ghost predicate ForestInv(entities: map<string, Entity>) {
    Shaped(entities) && Shallow(entities)
  }

  /** No entity is deleted, and none loses its `_history`. */
  ghost predicate Evolves(a: map<string, Entity>, b: map<string, Entity>) {
    forall id :: id in a ==> id in b && (History in a[id].metadata ==> History in b[id].metadata)
  }

  lemma UpsertEvolves(entities: map<string, Entity>, id: string, input: EntityInput, now: int)
    ensures Evolves(entities, entities[id := Upserted(entities, id, input, now)])
  {
    hide Blank, DedupeTrimmed, SnapshotEntry, SpaceOf, AdmittedMetadata;
  }

  lemma PlainUpsert(s: State, d: Derivation, input: EntityInput, now: int)
    requires ForestInv(s.entities) && DuplicateOf !in input.metadata && UpsertEntity(s, d, input, now).Ok?
    ensures var t := UpsertEntity(s, d, input, now).value.state;
            ForestInv(t.entities) && Evolves(s.entities, t.entities)
  {
    TargetNotEmpty(s, d, input);
    UpsertEffect(s, d, input, now);
    hide UpsertEntity, EntityTarget, Admissible, Shallow, Upserted, Shaped, Evolves;
    var id := EntityTarget(s, d, input);
    UpsertKeepsShape(s.entities, id, input, now);
    UpsertKeepsShallow(s.entities, id, input, now);
    UpsertEvolves(s.entities, id, input, now);
  }

  lemma {:induction false} PlainBatchEntities(b: BatchDone, d: Derivation, inputs: seq<EntityInput>, now: int)
    requires ForestInv(b.state.entities) && BatchEntities(b, d, inputs, now).Ok?
    requires forall i :: 0 <= i < |inputs| ==> DuplicateOf !in inputs[i].metadata
    ensures var t := BatchEntities(b, d, inputs, now).value.state;
            ForestInv(t.entities) && Evolves(b.state.entities, t.entities)
  {
    hide ForestInv, UpsertEntity, ReferenceOf;
    if inputs != [] {
      PlainBatchEntities(b, d, inputs[..|inputs| - 1], now);
      PlainUpsert(BatchEntities(b, d, inputs[..|inputs| - 1], now).value.state, d, inputs[|inputs| - 1], now);
    }
  }

  lemma IngestKeepsEntities(s: State, d: Derivation, input: EpisodeInput, now: int)
    requires IngestEpisode(s, d, input, now).Ok?
    ensures IngestEpisode(s, d, input, now).value.state.entities == s.entities
  {
    hide ResolveSource, AdmitSource, AdmitEpisode, Blank;
    var spaceId := SpaceOf(input.spaceId);
    var source := ResolveSource(s, d, spaceId, input.sourceId, input.source, now).value;
    SourceKeepsEntities(s, spaceId, input, source);
    EpisodeKeepsEntities(AdmitSource(s, spaceId, input, source).value, spaceId, input, source.id, now);
  }

  lemma SourceKeepsEntities(s: State, spaceId: string, input: EpisodeInput, source: Source)
    requires AdmitSource(s, spaceId, input, source).Ok?
    ensures AdmitSource(s, spaceId, input, source).value.entities == s.entities
  {
    hide IdAvailable, SourceMatches;
  }

  lemma EpisodeKeepsEntities(s: State, spaceId: string, input: EpisodeInput, sourceId: string, now: int)
    requires AdmitEpisode(s, spaceId, input, sourceId, now).Ok?
    ensures AdmitEpisode(s, spaceId, input, sourceId, now).value.state.entities == s.entities
  {
    hide IdAvailable, SameEpisode, NewId;
    NewIdEntities(s, "ep");
  }

  lemma {:induction false} BatchEpisodesKeepEntities(b: BatchDone, d: Derivation, inputs: seq<EpisodeInput>, now: int)
    requires BatchEpisodes(b, d, inputs, now).Ok?
    ensures BatchEpisodes(b, d, inputs, now).value.state.entities == b.state.entities
    ensures BatchEpisodes(b, d, inputs, now).value.rewrites == b.rewrites
  {
    hide IngestEpisode;
    if inputs != [] {
      BatchEpisodesKeepEntities(b, d, inputs[..|inputs| - 1], now);
      IngestKeepsEntities(BatchEpisodes(b, d, inputs[..|inputs| - 1], now).value.state, d, inputs[|inputs| - 1], now);
    }
  }

  lemma AssertKeepsEntities(s: State, spaceId: string, input: FactInput, now: int)
    requires AssertFact(s, spaceId, input, now).Ok?
    ensures AssertFact(s, spaceId, input, now).value.state.entities == s.entities
  {
    hide AdmitFact, IdAvailable, PutFact, AssertedFact, NewId;
    NewIdEntities(s, "fact");
    var (numbered, id) := if input.id == "" then NewId(s, "fact") else (s, input.id);
    PutFactEntities(numbered, id, AssertedFact(id, spaceId, input, now), "assert");
  }

  lemma {:induction false} BatchFactsKeepEntities(b: BatchDone, inputs: seq<FactInput>, now: int)
    requires BatchFacts(b, inputs, now).Ok?
    ensures BatchFacts(b, inputs, now).value.state.entities == b.state.entities
  {
    hide AssertFact, Rewritten, SpaceOf;
    if inputs != [] {
      BatchFactsKeepEntities(b, inputs[..|inputs| - 1], now);
      var front := BatchFacts(b, inputs[..|inputs| - 1], now).value;
      var input := Rewritten(front.rewrites, inputs[|inputs| - 1]);
      AssertKeepsEntities(front.state, SpaceOf(input.spaceId), input, now);
    }
  }

  lemma SupersedeKeepsEntities(s: State, factId: string, input: FactInput, reason: string, now: int)
    requires SupersedeFact(s, factId, input, reason, now).Ok?
    ensures SupersedeFact(s, factId, input, reason, now).value.state.entities == s.entities
  {
    hide AssertFact, PutFact, RetiredFact, ReplacementFact, Additive, SupersedeAllowed, StrictlyAfter;
    var at := StrictlyAfter(now, s.facts[factId].updatedAt);
    AssertKeepsEntities(s, s.facts[factId].spaceId, Additive(input), at);
    var done := AssertFact(s, s.facts[factId].spaceId, Additive(input), at).value;
    var retired := RetiredFact(s.facts[factId], input, done.fact, reason);
    PutFactEntities(done.state, factId, retired, "supersede");
    PutFactEntities(PutFact(done.state, factId, retired, "supersede"), done.fact.id,
                    ReplacementFact(done.fact, factId, reason), "supersede_replacement");
  }

  lemma PlainBatch(s: State, d: Derivation, input: BatchInput, now: int)
    requires ForestInv(s.entities) && Plain(BatchOp(input)) && IngestBatch(s, d, input, now).Ok?
    ensures var t := IngestBatch(s, d, input, now).value.state;
            ForestInv(t.entities) && Evolves(s.entities, t.entities)
  {
    hide ForestInv, BatchEpisodes, BatchEntities, BatchFacts;
    var b0 := BatchDone(s, [], [], [], map[]);
    BatchEpisodesKeepEntities(b0, d, input.episodes, now);
    var b1 := BatchEpisodes(b0, d, input.episodes, now).value;
    PlainBatchEntities(b1, d, input.entities, now);
    BatchFactsKeepEntities(BatchEntities(b1, d, input.entities, now).value, input.facts, now);
  }

  lemma PlainStepKeepsForest(s: State, d: Derivation, op: Op, now: int)
    requires ForestInv(s.entities) && Plain(op)
    ensures ForestInv(Step(s, d, op, now).entities) && Evolves(s.entities, Step(s, d, op, now).entities)
  {
    hide ForestInv, IngestEpisode, IngestBatch, UpsertEntity, AssertFact, SupersedeFact, NewFactRevision, RetractedFact;
    if Mutation(s, d, op, now).Ok? {
      match op
      case IngestOp(input) => IngestKeepsEntities(s, d, input, now);
      case BatchOp(input) => PlainBatch(s, d, input, now);
      case UpsertOp(input) => PlainUpsert(s, d, input, now);
      case AssertOp(input) => AssertKeepsEntities(s, SpaceOf(input.spaceId), input, now);
      case SupersedeOp(target, input, reason) => SupersedeKeepsEntities(s, target, input, reason, now);
      case RetractOp(target, reason) =>
    }
  }

  // ----- what a merge batch does -----

  predicate Unreserved(entity: Entity) {
    entity.metadata.Keys !! RESERVED_ENTITY_KEYS
  }

  ghost predicate AreStored(entities: map<string, Entity>, sources: seq<Entity>) {
    forall i :: 0 <= i < |sources| ==> sources[i].id in entities && entities[sources[i].id] == sources[i]
  }

  predicate Sourced(sources: seq<Entity>, id: string) {
    exists i :: 0 <= i < |sources| && sources[i].id == id
  }

  /** One entity while a merge batch is being applied: a marked source, or untouched. */
  predicate MarkStep(was: Entity, is_: Entity, sourced: bool, targetId: string) {
    is_.spaceId == was.spaceId && is_.typ == was.typ && is_.id == was.id && !Blank(is_.canonicalName) &&
    (is_.namespace == was.namespace || is_.namespace == "") &&
    if sourced then
      DuplicateOf in is_.metadata && is_.metadata[DuplicateOf] == Records.Text(targetId) && History in is_.metadata
    else is_ == was
  }

  ghost predicate Marks(before: map<string, Entity>, after: map<string, Entity>, sources: seq<Entity>, targetId: string) {
    after.Keys == before.Keys &&
    forall id :: id in before ==> MarkStep(before[id], after[id], Sourced(sources, id), targetId)
  }

  /** A merge input addresses a stored entity, so only its metadata can refuse it. */
  lemma MergeUpsertAccepted(s: State, d: Derivation, was: Entity, input: EntityInput, now: int)
    requires IdsUnique(s) && input.id in s.entities && input.id != ""
    requires !Blank(was.typ) && !Blank(was.canonicalName) && !Blank(was.spaceId)
    requires input.spaceId == was.spaceId && input.typ == was.typ && input.namespace == was.namespace
    requires input.canonicalName == was.canonicalName
    requires var stored := s.entities[input.id];
             stored.spaceId == was.spaceId && stored.typ == was.typ &&
             (stored.namespace == was.namespace || stored.namespace == "")
    ensures UpsertEntity(s, d, input, now).Ok? <==> input.metadata.Keys !! RESERVED_ENTITY_KEYS
    ensures EntityTarget(s, d, input) == input.id
  {
    hide Blank, UpdatedEntity, CreatedEntity, PutEntity;
    assert EntityTarget(s, d, input) == input.id;
    assert Has(s, KEntity, input.id);
    assert IdAvailable(s, input.id, KEntity);
    assert UpdateAllowed(s.entities[input.id], input);
  }

  lemma UpdatedBySource(stored: Entity, target: Entity, source: Entity, input: MergeInput, now: int)
    requires !Blank(source.spaceId) && !Blank(source.typ) && !Blank(source.canonicalName) && stored.id == source.id
    requires stored.spaceId == source.spaceId && stored.typ == source.typ
    requires stored.namespace == source.namespace || stored.namespace == ""
    requires Unreserved(source)
    ensures MarkStep(source, UpdatedEntity(stored, MarkedInput(target, source, input), now), true, input.targetId)
    ensures UpdatedEntity(stored, MarkedInput(target, source, input), now).id == source.id
  {
    hide Blank, DedupeTrimmed, SnapshotEntry, SpaceOf, Drift, Managed;
    DriftKeys(target, source);
    assert DRIFT_NAMESPACE.Field? && DRIFT_TYPE.Field?;
  }

  ghost predicate SelfNamed(rewrites: map<string, string>) {
    forall id :: id in rewrites ==> rewrites[id] == id
  }

  lemma MarksStep(before: map<string, Entity>, mid: map<string, Entity>, sources: seq<Entity>, source: Entity,
                  entity: Entity, targetId: string)
    requires Marks(before, mid, sources, targetId) && source.id in before && before[source.id] == source
    requires MarkStep(source, entity, true, targetId)
    ensures Marks(before, mid[source.id := entity], sources + [source], targetId)
  {
    hide MarkStep;
    var after := mid[source.id := entity];
    forall id | id in before
      ensures MarkStep(before[id], after[id], Sourced(sources + [source], id), targetId)
    {
      assert MarkStep(before[id], mid[id], Sourced(sources, id), targetId);
      var all := sources + [source];
      if Sourced(sources, id) {
        var i :| 0 <= i < |sources| && sources[i].id == id;
        assert all[i].id == id;
      } else if id == source.id {
        assert all[|sources|].id == id;
      }
    }
  }

  ghost predicate MarkedSoFar(s: State, b: BatchDone, sources: seq<Entity>, targetId: string) {
    Inv(b.state) && Marks(s.entities, b.state.entities, sources, targetId) && SelfNamed(b.rewrites)
  }

  lemma MarkOneSource(s: State, d: Derivation, b: BatchDone, target: Entity, sources: seq<Entity>, source: Entity,
                      input: MergeInput, now: int)
    requires MarkedSoFar(s, b, sources, input.targetId) && now > 0
    requires Shaped(s.entities) && source.id in s.entities && s.entities[source.id] == source
    ensures var r := UpsertEntity(b.state, d, MarkedInput(target, source, input), now);
            (r.Ok? <==> Unreserved(source)) &&
            (r.Ok? ==>
              r.value.entity.id == source.id &&
              Inv(r.value.state) && Marks(s.entities, r.value.state.entities, sources + [source], input.targetId))
  {
    hide Inv, UpsertEntity, MarkedInput, IdsUnique, Marks, Unreserved, EntityTarget, UpdatedEntity, MarkStep, Sourced, Blank;
    InvIds(b.state);
    var written := MarkedInput(target, source, input);
    MarkedInputFields(target, source, input);
    StoredWhileMarking(s.entities, b.state.entities, sources, input.targetId, source);
    MergeUpsertAccepted(b.state, d, source, written, now);
    if Unreserved(source) {
      UpsertEffect(b.state, d, written, now);
      UpsertKeepsInv(b.state, d, written, now);
      UpdatedBySource(b.state.entities[source.id], target, source, input, now);
      MarksStep(s.entities, b.state.entities, sources, source,
                UpdatedEntity(b.state.entities[source.id], written, now), input.targetId);
    }
  }

  lemma StoredWhileMarking(before: map<string, Entity>, after: map<string, Entity>, sources: seq<Entity>, targetId: string, source: Entity)
    requires Marks(before, after, sources, targetId) && Shaped(before)
    requires source.id in before && before[source.id] == source
    ensures source.id in after && after[source.id].id == source.id
    ensures after[source.id].spaceId == source.spaceId && after[source.id].typ == source.typ
    ensures after[source.id].namespace == source.namespace || after[source.id].namespace == ""
    ensures !Blank(source.spaceId) && !Blank(source.typ) && !Blank(source.canonicalName)
  {
    hide Blank;
    assert MarkStep(source, after[source.id], Sourced(sources, source.id), targetId);
  }

  lemma DriftKeys(target: Entity, source: Entity)
    ensures Drift(target, source).Keys <= {DRIFT_NAMESPACE, DRIFT_TYPE}
  {
  }

  lemma SummaryKeys(target: Entity, sources: seq<Entity>, key: MetaKey)
    ensures DriftSummary(target, sources, key).Keys <= {key}
  {
    hide DriftValues;
  }

  lemma MarkedInputFields(target: Entity, source: Entity, input: MergeInput)
    ensures var written := MarkedInput(target, source, input);
            written.id == source.id && written.spaceId == source.spaceId && written.typ == source.typ &&
            written.namespace == source.namespace && written.canonicalName == source.canonicalName &&
            (written.metadata.Keys !! RESERVED_ENTITY_KEYS <==> Unreserved(source))
  {
    hide Drift, Managed;
    DriftKeys(target, source);
    assert DRIFT_NAMESPACE.Field? && DRIFT_TYPE.Field?;
  }

  lemma InvIds(s: State)
    requires Inv(s)
    ensures IdsUnique(s) && "" !in s.entities
  {
    hide IdsUnique, FactLog, EntityLog, Lifecycle;
  }

  ghost predicate MarkedWhenUnreserved(s: State, r: Result<BatchDone>, sources: seq<Entity>, targetId: string) {
    (r.Ok? <==> forall i :: 0 <= i < |sources| ==> Unreserved(sources[i])) &&
    (r.Ok? ==> MarkedSoFar(s, r.value, sources, targetId))
  }

  lemma {:induction false} MarkSources(s: State, d: Derivation, target: Entity, sources: seq<Entity>, input: MergeInput, now: int)
    requires Inv(s) && now > 0 && Shaped(s.entities) && AreStored(s.entities, sources)
    ensures MarkedWhenUnreserved(
      s, BatchEntities(BatchDone(s, [], [], [], map[]), d, MarkedInputs(target, sources, input), now), sources, input.targetId)
  {
    hide Inv, Shaped, UpsertEntity, MarkedInput, Marks, Unreserved, ReferenceOf;
    if sources == [] {
      NothingMarked(s.entities, input.targetId);
    } else {
      var n := |sources| - 1;
      MarkSources(s, d, target, sources[..n], input, now);
      MarkNext(s, d, target, sources, input, now);
    }
  }

  /** One more entity of a batch. */
  ghost function NextEntity(front: BatchDone, d: Derivation, input: EntityInput, now: int): Result<BatchDone> {
    var done :- UpsertEntity(front.state, d, input, now);
    var reference := ReferenceOf(d, input);
    var _ :- Check(
      reference !in front.rewrites || front.rewrites[reference] == done.entity.id, LifecycleInvalid);
    Ok(front.(state := done.state, entityIds := front.entityIds + [done.entity.id],
              rewrites := front.rewrites[reference := done.entity.id]))
  }

  lemma BatchEntitiesNext(b: BatchDone, d: Derivation, inputs: seq<EntityInput>, input: EntityInput, now: int)
    ensures var front := BatchEntities(b, d, inputs, now);
            BatchEntities(b, d, inputs + [input], now) == if front.Ok? then NextEntity(front.value, d, input, now) else front
  {
    hide UpsertEntity, ReferenceOf;
    assert (inputs + [input])[..|inputs|] == inputs;
  }

  lemma MarkedNext(s: State, d: Derivation, b: BatchDone, target: Entity, sources: seq<Entity>, source: Entity,
                   input: MergeInput, now: int)
    requires MarkedSoFar(s, b, sources, input.targetId) && now > 0
    requires Shaped(s.entities) && source.id in s.entities && s.entities[source.id] == source
    ensures var r := NextEntity(b, d, MarkedInput(target, source, input), now);
            (r.Ok? <==> Unreserved(source)) && (r.Ok? ==> MarkedSoFar(s, r.value, sources + [source], input.targetId))
  {
    hide Inv, Shaped, UpsertEntity, MarkedInput, Marks, Unreserved, ReferenceOf;
    MarkOneSource(s, d, b, target, sources, source, input, now);
    MarkedReference(s.entities, d, target, source, input);
  }

  lemma MarkNext(s: State, d: Derivation, target: Entity, sources: seq<Entity>, input: MergeInput, now: int)
    requires now > 0 && Shaped(s.entities) && AreStored(s.entities, sources) && sources != []
    requires MarkedWhenUnreserved(
      s, BatchEntities(BatchDone(s, [], [], [], map[]), d, MarkedInputs(target, sources[..|sources| - 1], input), now),
      sources[..|sources| - 1], input.targetId)
    ensures MarkedWhenUnreserved(
      s, BatchEntities(BatchDone(s, [], [], [], map[]), d, MarkedInputs(target, sources, input), now), sources, input.targetId)
  {
    hide Shaped, BatchEntities, NextEntity, MarkedInput, MarkedInputs, MarkedSoFar, Unreserved, AreStored;
    var n := |sources| - 1;
    var front, source := sources[..n], sources[n];
    var b0 := BatchDone(s, [], [], [], map[]);
    LastSource(s.entities, target, sources, input);
    BatchEntitiesNext(b0, d, MarkedInputs(target, front, input), MarkedInput(target, source, input), now);
    var before := BatchEntities(b0, d, MarkedInputs(target, front, input), now);
    if before.Ok? {
      MarkedNext(s, d, before.value, target, front, source, input, now);
    }
  }

  lemma LastSource(entities: map<string, Entity>, target: Entity, sources: seq<Entity>, input: MergeInput)
    requires AreStored(entities, sources) && sources != []
    ensures var front, source := sources[..|sources| - 1], sources[|sources| - 1];
            sources == front + [source] && source.id in entities && entities[source.id] == source &&
            MarkedInputs(target, sources, input) == MarkedInputs(target, front, input) + [MarkedInput(target, source, input)] &&
            ((forall i :: 0 <= i < |sources| ==> Unreserved(sources[i])) <==>
              (forall i :: 0 <= i < |front| ==> Unreserved(front[i])) && Unreserved(source))
  {
    hide MarkedInput, Unreserved;
    var front := sources[..|sources| - 1];
    assert forall i :: 0 <= i < |front| ==> sources[i] == front[i];
  }

  lemma NothingMarked(entities: map<string, Entity>, targetId: string)
    requires Shaped(entities)
    ensures Marks(entities, entities, [], targetId)
  {
    hide Blank;
  }

  lemma MarkedReference(entities: map<string, Entity>, d: Derivation, target: Entity, source: Entity, input: MergeInput)
    requires Shaped(entities) && source.id in entities
    ensures ReferenceOf(d, MarkedInput(target, source, input)) == source.id
  {
    hide Blank;
  }

  lemma TargetInputFields(lib: Library, target: Entity, sources: seq<Entity>, input: MergeInput)
    ensures var written := TargetInput(lib, target, sources, input);
            written.id == target.id && written.spaceId == target.spaceId && written.typ == target.typ &&
            written.namespace == target.namespace && written.canonicalName == target.canonicalName &&
            (written.metadata.Keys !! RESERVED_ENTITY_KEYS <==> Unreserved(target)) &&
            (DuplicateOf in written.metadata <==> Marked(target))
  {
    hide MergedFromOf, DriftSummary, MergedAliases, Managed;
    SummaryKeys(target, sources, DRIFT_NAMESPACE);
    SummaryKeys(target, sources, DRIFT_TYPE);
    assert DRIFT_NAMESPACE.Field? && DRIFT_TYPE.Field?;
  }

  lemma {:induction false} SourcesAdmitted(s: State, lib: Library, target: Entity, ids: seq<string>)
    requires KeysMatch(s) && MergeSources(s, lib, target, ids).Ok?
    ensures var sources := MergeSources(s, lib, target, ids).value;
            AreStored(s.entities, sources) && |sources| == |ids| &&
            forall i :: 0 <= i < |sources| ==>
              sources[i].id == ids[i] && sources[i].id != target.id && sources[i].spaceId == target.spaceId && !Redirected(sources[i])
  {
    hide NamesOverlap, NormalizeKey, Redirected, StableKeyOf;
    if ids != [] {
      SourcesAdmitted(s, lib, target, ids[..|ids| - 1]);
      var source := AdmitMergeSource(s, lib, target, ids[|ids| - 1]).value;
      assert s.entities[ids[|ids| - 1]].id == ids[|ids| - 1];
    }
  }

  ghost predicate Validated(s: State, target: Entity, sources: seq<Entity>, input: MergeInput) {
    input.targetId in s.entities && s.entities[input.targetId] == target && target.id == input.targetId &&
    IsCanonical(target) && AreStored(s.entities, sources) &&
    forall i :: 0 <= i < |sources| ==>
      sources[i].id != target.id && sources[i].spaceId == target.spaceId && !Redirected(sources[i])
  }

  /** A plan names stored, unredirected participants of one space. */
  lemma PlanParticipants(s: State, lib: Library, input: MergeInput) returns (target: Entity, sources: seq<Entity>)
    requires KeysMatch(s) && MergePlan(s, lib, input).Ok?
    ensures Validated(s, target, sources, input) && |sources| == |input.sourceIds|
    ensures forall i :: 0 <= i < |sources| ==> sources[i].id == input.sourceIds[i]
    ensures MergePlan(s, lib, input) == Ok(MergeBatch(lib, target, sources, input))
  {
    hide IsCanonical, Redirected, MergeBatch, AdmitMergeSource;
    target := s.entities[input.targetId];
    sources := MergeSources(s, lib, target, input.sourceIds).value;
    assert target.id == input.targetId;
    SourcesAdmitted(s, lib, target, input.sourceIds);
  }

  ghost predicate AllUnreserved(target: Entity, sources: seq<Entity>) {
    Unreserved(target) && forall i :: 0 <= i < |sources| ==> Unreserved(sources[i])
  }

  /** After the batch: the sources are marked, the target is updated, the rest is as it
      was. */
  ghost predicate Merged(before: map<string, Entity>, after: map<string, Entity>, sources: seq<Entity>, target: Entity) {
    exists mid :: Marks(before, mid, sources, target.id) && TargetWritten(mid, after, target)
  }

  ghost predicate TargetWritten(mid: map<string, Entity>, after: map<string, Entity>, target: Entity) {
    target.id in after && after == mid[target.id := after[target.id]] && History in after[target.id].metadata &&
    (DuplicateOf in after[target.id].metadata ==> Marked(target)) &&
    Shaped(map[target.id := after[target.id]]) && after[target.id].spaceId == target.spaceId
  }

  lemma UpdatedTarget(lib: Library, target: Entity, sources: seq<Entity>, input: MergeInput, now: int)
    requires target.id != "" && !Blank(target.spaceId) && !Blank(target.typ) && !Blank(target.canonicalName)
    ensures var updated := UpdatedEntity(target, TargetInput(lib, target, sources, input), now);
            updated.id == target.id && updated.spaceId == target.spaceId &&
            (Unreserved(target) ==> History in updated.metadata) &&
            (DuplicateOf in updated.metadata ==> Marked(target)) &&
            Shaped(map[target.id := updated])
  {
    TargetInputFields(lib, target, sources, input);
    hide TargetInput, Blank, DedupeTrimmed, SnapshotEntry;
  }

  /** A merge whose participants passed the checks is applied exactly when no
      participant carries engine-managed metadata, which every earlier update leaves
      behind; and then it marks the sources, updates the target and nothing else. */
  lemma MergeBatchEffect(s: State, d: Derivation, lib: Library, target: Entity, sources: seq<Entity>, input: MergeInput, now: int)
    requires Inv(s) && now > 0 && Shaped(s.entities) && Validated(s, target, sources, input)
    ensures var r := BatchEntities(BatchDone(s, [], [], [], map[]), d, MergeBatch(lib, target, sources, input).entities, now);
            (r.Ok? <==> AllUnreserved(target, sources)) &&
            (r.Ok? ==> Merged(s.entities, r.value.state.entities, sources, target))
  {
    hide Inv, Shaped, UpsertEntity, MarkedInput, TargetInput, Marks, Unreserved, ReferenceOf, IsCanonical, Redirected,
         UpdatedEntity, IdsUnique, EntityTarget;
    var inputs := MarkedInputs(target, sources, input);
    var all := inputs + [TargetInput(lib, target, sources, input)];
    assert all[..|all| - 1] == inputs;
    MarkSources(s, d, target, sources, input, now);
    var before := BatchEntities(BatchDone(s, [], [], [], map[]), d, inputs, now);
    if before.Ok? {
      TargetUpsert(s, d, lib, before.value, target, sources, input, now);
    }
  }

  lemma TargetUpsert(s: State, d: Derivation, lib: Library, b: BatchDone, target: Entity, sources: seq<Entity>, input: MergeInput, now: int)
    requires Inv(s) && now > 0 && Shaped(s.entities) && Validated(s, target, sources, input)
    requires MarkedSoFar(s, b, sources, input.targetId)
    ensures var written := TargetInput(lib, target, sources, input);
            var r := UpsertEntity(b.state, d, written, now);
            ReferenceOf(d, written) == target.id &&
            (r.Ok? <==> Unreserved(target)) &&
            (r.Ok? ==> r.value.entity.id == target.id && Merged(s.entities, r.value.state.entities, sources, target))
  {
    hide Inv, UpsertEntity, TargetInput, Marks, Unreserved, UpdatedEntity, IdsUnique, EntityTarget, Blank, IsCanonical, Redirected;
    var written := TargetInput(lib, target, sources, input);
    TargetInputFields(lib, target, sources, input);
    InvIds(b.state);
    TargetUntouched(s.entities, b.state.entities, sources, target);
    MergeUpsertAccepted(b.state, d, target, written, now);
    if Unreserved(target) {
      UpsertEffect(b.state, d, written, now);
      UpdatedTarget(lib, target, sources, input, now);
      var after := UpsertEntity(b.state, d, written, now).value.state.entities;
      assert TargetWritten(b.state.entities, after, target);
    }
  }

  lemma TargetUntouched(before: map<string, Entity>, after: map<string, Entity>, sources: seq<Entity>, target: Entity)
    requires Marks(before, after, sources, target.id) && target.id in before && before[target.id] == target
    requires forall i :: 0 <= i < |sources| ==> sources[i].id != target.id
    ensures target.id in after && after[target.id] == target
  {
    hide Blank;
    assert MarkStep(target, after[target.id], Sourced(sources, target.id), target.id);
  }

  // ----- merges in runs -----

  ghost predicate ParticipantsUnreserved(s: State, input: MergeInput) {
    (input.targetId in s.entities ==> Unreserved(s.entities[input.targetId])) &&
    forall i :: 0 <= i < |input.sourceIds| && input.sourceIds[i] in s.entities ==> Unreserved(s.entities[input.sourceIds[i]])
  }

  lemma EntityBatch(s: State, d: Derivation, batch: BatchInput, now: int)
    requires batch.episodes == [] && batch.facts == [] && !batch.hasRevisions
    ensures var r := BatchEntities(BatchDone(s, [], [], [], map[]), d, batch.entities, now);
            var m := Mutation(s, d, BatchOp(batch), now);
            (m.Ok? <==> r.Ok?) && (r.Ok? ==> m.value == r.value.state)
  {
    hide BatchEntities, UpsertEntity;
  }

  /** The exact condition for a validated merge to take effect: no participant was
      updated before. Merging passes stored metadata through, and ordinary writes
      refuse the `_history` an update leaves there. */
  lemma MergeAppliesIff(s: State, d: Derivation, lib: Library, input: MergeInput, now: int)
    requires Inv(s) && now > 0 && Shaped(s.entities) && MergePlan(s, lib, input).Ok?
    ensures Mutation(s, d, BatchOp(MergePlan(s, lib, input).value), now).Ok? <==> ParticipantsUnreserved(s, input)
  {
    hide BatchEntities, Mutation, MergePlan, Shaped, Redirected, IsCanonical, Unreserved, IdsUnique, RefsOk, FactLog, EntityLog, Lifecycle,
         MarkedInputs, TargetInput;
    var target, sources := PlanParticipants(s, lib, input);
    MergeBatchEffect(s, d, lib, target, sources, input, now);
    EntityBatch(s, d, MergeBatch(lib, target, sources, input), now);
    assert AllUnreserved(target, sources) <==> ParticipantsUnreserved(s, input) by {
      assert forall i :: 0 <= i < |sources| ==> s.entities[sources[i].id] == sources[i];
    }
  }

  lemma ShapedAfter(before: map<string, Entity>, mid: map<string, Entity>, after: map<string, Entity>,
                    sources: seq<Entity>, target: Entity)
    requires Shaped(before) && Marks(before, mid, sources, target.id)
    requires target.id in before && before[target.id] == target && TargetWritten(mid, after, target)
    ensures Shaped(after)
  {
    hide Blank;
    var single := map[target.id := after[target.id]];
    assert single[target.id] == after[target.id];
    forall id | id in after && id != target.id
      ensures after[id].id == id && !Blank(after[id].typ) && !Blank(after[id].canonicalName) && !Blank(after[id].spaceId)
    {
      assert MarkStep(before[id], mid[id], Sourced(sources, id), target.id);
    }
  }

  lemma CanonicalIsUnmarked(entities: map<string, Entity>, id: string)
    requires Shaped(entities) && Shallow(entities) && id in entities && IsCanonical(entities[id])
    ensures !Marked(entities[id])
  {
    hide Blank;
  }

  lemma ShallowAfter(before: map<string, Entity>, mid: map<string, Entity>, after: map<string, Entity>,
                     sources: seq<Entity>, target: Entity)
    requires Shaped(before) && Shallow(before) && Marks(before, mid, sources, target.id)
    requires target.id in before && before[target.id] == target && TargetWritten(mid, after, target)
    requires IsCanonical(target) && AllUnreserved(target, sources) && AreStored(before, sources)
    requires forall i :: 0 <= i < |sources| ==> sources[i].id != target.id && sources[i].spaceId == target.spaceId
    ensures Shallow(after)
  {
    hide Blank;
    CanonicalIsUnmarked(before, target.id);
    forall x | x in after && Marked(after[x])
      ensures RedirectOk(after, x)
    {
      assert MarkStep(before[x], mid[x], Sourced(sources, x), target.id);
      if !Sourced(sources, x) {
        var end := before[x].metadata[DuplicateOf].text;
        assert RedirectOk(before, x);
        assert MarkStep(before[end], mid[end], Sourced(sources, end), target.id);
      }
    }
  }

  /** The entities after an applied merge. */
  lemma MergeEffect(s: State, d: Derivation, lib: Library, input: MergeInput, now: int)
    returns (target: Entity, sources: seq<Entity>)
    requires Inv(s) && now > 0 && Shaped(s.entities) && MergePlan(s, lib, input).Ok?
    requires Mutation(s, d, BatchOp(MergePlan(s, lib, input).value), now).Ok?
    ensures Validated(s, target, sources, input) && AllUnreserved(target, sources)
    ensures |sources| == |input.sourceIds| && forall i :: 0 <= i < |sources| ==> sources[i].id == input.sourceIds[i]
    ensures Merged(s.entities, MergeStep(s, d, lib, input, now).entities, sources, target)
  {
    hide BatchEntities, Mutation, MergePlan, Shaped, Redirected, IsCanonical, Unreserved, IdsUnique, RefsOk, FactLog, EntityLog, Lifecycle,
         MarkedInputs, TargetInput, Merged, AllUnreserved;
    target, sources := PlanParticipants(s, lib, input);
    MergeBatchEffect(s, d, lib, target, sources, input, now);
    EntityBatch(s, d, MergeBatch(lib, target, sources, input), now);
  }

  /** One merge, applied or refused, keeps the forest. */
  lemma MergeKeepsForest(s: State, d: Derivation, lib: Library, input: MergeInput, now: int)
    requires Inv(s) && now > 0 && ForestInv(s.entities)
    ensures Inv(MergeStep(s, d, lib, input, now))
    ensures ForestInv(MergeStep(s, d, lib, input, now).entities)
    ensures Evolves(s.entities, MergeStep(s, d, lib, input, now).entities)
  {
    hide Inv, Mutation, MergePlan, Shaped, Shallow, AreStored, IsCanonical, Redirected, AllUnreserved, TargetWritten, Marks, Grows;
    var plan := MergePlan(s, lib, input);
    if plan.Ok? {
      StepKeepsInv(s, d, BatchOp(plan.value), now);
      if Mutation(s, d, BatchOp(plan.value), now).Ok? {
        var target, sources := MergeEffect(s, d, lib, input, now);
        var after := MergeStep(s, d, lib, input, now).entities;
        var mid :| Marks(s.entities, mid, sources, target.id) && TargetWritten(mid, after, target);
        ShapedAfter(s.entities, mid, after, sources, target);
        ShallowAfter(s.entities, mid, after, sources, target);
        MergeEvolves(s.entities, mid, after, sources, target);
      }
    }
  }

  lemma MergeEvolves(before: map<string, Entity>, mid: map<string, Entity>, after: map<string, Entity>,
                     sources: seq<Entity>, target: Entity)
    requires Marks(before, mid, sources, target.id) && TargetWritten(mid, after, target)
    ensures Evolves(before, after)
  {
    hide Blank, Shaped;
    forall id | id in before
      ensures id in after && (History in before[id].metadata ==> History in after[id].metadata)
    {
      assert MarkStep(before[id], mid[id], Sourced(sources, id), target.id);
    }
  }

  datatype Act = Write(op: Op) | MergeOf(input: MergeInput)

  datatype Timed = Timed(act: Act, now: int)

  ghost function ActStep(s: State, d: Derivation, lib: Library, timed: Timed): State {
    match timed.act
    case Write(op) => Step(s, d, op, timed.now)
    case MergeOf(input) => MergeStep(s, d, lib, input, timed.now)
  }

  ghost function RunActs(s: State, d: Derivation, lib: Library, acts: seq<Timed>): State {
    if acts == [] then s else ActStep(RunActs(s, d, lib, acts[..|acts| - 1]), d, lib, acts[|acts| - 1])
  }

  /** Every reading is set, and only merges write redirect markers. */
  ghost predicate PlainRun(acts: seq<Timed>) {
    forall i :: 0 <= i < |acts| ==> acts[i].now > 0 && (acts[i].act.Write? ==> Plain(acts[i].act.op))
  }

  /** Every sequence of merges and ordinary writes, applied or refused, under any clock,
      keeps the redirects a forest. */
  lemma {:induction false} RunKeepsForest(s: State, d: Derivation, lib: Library, acts: seq<Timed>)
    requires Inv(s) && ForestInv(s.entities) && PlainRun(acts)
    ensures var t := RunActs(s, d, lib, acts);
            Inv(t) && ForestInv(t.entities) && Evolves(s.entities, t.entities)
  {
    hide Inv, ForestInv, Step, MergeStep, Plain, Grows;
    if acts != [] {
      var n := |acts| - 1;
      RunKeepsForest(s, d, lib, acts[..n]);
      var t := RunActs(s, d, lib, acts[..n]);
      match acts[n].act
      case Write(op) =>
        StepKeepsInv(t, d, op, acts[n].now);
        PlainStepKeepsForest(t, d, op, acts[n].now);
      case MergeOf(input) =>
        MergeKeepsForest(t, d, lib, input, acts[n].now);
    }
  }

  lemma EmptyForest(at: int)
    ensures Inv(Seeded(at)) && ForestInv(Seeded(at).entities)
  {
    SeededInv(at);
  }

  /** Starting from an empty database, every sequence of merges and ordinary writes keeps
      the redirects a forest of depth one. */
  lemma RunFromEmpty(d: Derivation, lib: Library, acts: seq<Timed>, at: int)
    requires PlainRun(acts)
    ensures ForestInv(RunActs(Seeded(at), d, lib, acts).entities)
  {
    hide Inv, ForestInv, PlainRun, RunActs, Evolves;
    EmptyForest(at);
    RunKeepsForest(Seeded(at), d, lib, acts);
  }

  /** In such a forest resolution takes at most one hop: a marked entity resolves to its
      unmarked target, and every other one to itself. */
  lemma ForestResolves(entities: map<string, Entity>, id: string)
    requires ForestInv(entities) && id in entities && !Blank(id)
    ensures var marker := if Marked(entities[id]) then entities[id].metadata[DuplicateOf].text else id;
            marker in entities && !Marked(entities[marker]) &&
            Canonical(entities, id) == if Blank(marker) then id else marker
  {
    hide Blank, CanonicalFrom, SpaceOf;
    if Marked(entities[id]) {
      var marker := entities[id].metadata[DuplicateOf].text;
      assert RedirectOk(entities, id);
      OneHop(entities, id, marker);
    } else {
      CanonicalOfEnd(entities, id);
    }
  }

  lemma OneHop(entities: map<string, Entity>, id: string, marker: string)
    requires id in entities && !Blank(id) && Marked(entities[id]) && RedirectOk(entities, id)
    requires entities[id].metadata[DuplicateOf].text == marker
    ensures Canonical(entities, id) == if Blank(marker) then id else marker
  {
    hide Blank;
    if Blank(marker) {
      assert Target(entities, id).None?;
    } else {
      hide CanonicalFrom;
      assert Follow(entities, id, 0) == Some(id);
      assert Follow(entities, id, 1) == Some(marker);
      assert ReachesEnd(entities, id, 1, marker);
      CanonicalExact(entities, id);
    }
  }

  predicate Names(input: MergeInput, id: string) {
    id == input.targetId || id in input.sourceIds
  }

  /** Merging the same entity twice never works: once a merge was applied, every later
      merge that names one of its participants, target included, changes nothing. */
  lemma NoSecondMerge(s: State, d: Derivation, lib: Library, first: MergeInput, now: int, later: seq<Timed>,
                      second: MergeInput, now2: int, id: string)
    requires Inv(s) && ForestInv(s.entities) && now > 0 && now2 > 0 && PlainRun(later)
    requires MergePlan(s, lib, first).Ok? && Mutation(s, d, BatchOp(MergePlan(s, lib, first).value), now).Ok?
    requires Names(first, id) && Names(second, id)
    ensures var t := RunActs(MergeStep(s, d, lib, first, now), d, lib, later);
            MergeStep(t, d, lib, second, now2) == t
  {
    hide Inv, Mutation, MergePlan, Shaped, Shallow, PlainRun, RunActs, AreStored, AllUnreserved, IsCanonical, Redirected;
    MergeKeepsForest(s, d, lib, first, now);
    var target, sources := MergeEffect(s, d, lib, first, now);
    var after := MergeStep(s, d, lib, first, now);
    ParticipantsUpdated(s.entities, after.entities, sources, target, first, id);
    RunKeepsForest(after, d, lib, later);
    var t := RunActs(after, d, lib, later);
    if MergePlan(t, lib, second).Ok? {
      MergeAppliesIff(t, d, lib, second, now2);
      assert !ParticipantsUnreserved(t, second);
    }
  }

  lemma ParticipantsUpdated(before: map<string, Entity>, after: map<string, Entity>, sources: seq<Entity>, target: Entity,
                            input: MergeInput, id: string)
    requires Merged(before, after, sources, target) && AreStored(before, sources) && Names(input, id)
    requires target.id == input.targetId
    requires |sources| == |input.sourceIds| && forall i :: 0 <= i < |sources| ==> sources[i].id == input.sourceIds[i]
    ensures id in after && History in after[id].metadata
  {
    hide Shaped, Blank;
    var mid :| Marks(before, mid, sources, target.id) && TargetWritten(mid, after, target);
    if id != target.id {
      var i :| 0 <= i < |input.sourceIds| && input.sourceIds[i] == id;
      assert sources[i].id == id;
      assert MarkStep(before[id], mid[id], Sourced(sources, id), target.id);
    }
  }
}
