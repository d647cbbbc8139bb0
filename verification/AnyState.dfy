/** What mutations keep on every state the engine can load, databases from before the
    revision log included: none of this needs the invariant of Invariants.dfy, nor any
    assumption about the clock. */
module AnyState {
  import opened Wrappers
  import opened Text
  import opened Identity
  import opened Records
  import opened EngineSpec
  import opened Invariants
  import opened Preservation
  import opened Storage

  lemma KeyedIsWellKeyed(s: State)
    ensures Keyed(s) <==> WellKeyed(s)
  {
    if WellKeyed(s) {
      assert forall kind, id :: At(s, Key(RecordTag(kind), id)).Some? ==>
        Fits(Key(RecordTag(kind), id), At(s, Key(RecordTag(kind), id)).value);
      SourcesFit(s);
      RevisionsFit(s);
    }
  }

  lemma SourcesFit(s: State)
    requires WellKeyed(s)
    ensures KeysMatch(s)
  {
    forall id | id in s.sources
      ensures s.sources[id].id == id
    {
      assert At(s, Key(RecordTag(KSource), id)).Some?;
    }
    forall id | id in s.episodes
      ensures s.episodes[id].id == id
    {
      assert At(s, Key(RecordTag(KEpisode), id)).Some?;
    }
    forall id | id in s.entities
      ensures s.entities[id].id == id
    {
      assert At(s, Key(RecordTag(KEntity), id)).Some?;
    }
    forall id | id in s.facts
      ensures s.facts[id].id == id
    {
      assert At(s, Key(RecordTag(KFact), id)).Some?;
    }
    forall id | id in s.watermarks
      ensures s.watermarks[id].id == id
    {
      assert At(s, Key(RecordTag(KWatermark), id)).Some?;
    }
  }

  lemma RevisionsFit(s: State)
    requires WellKeyed(s)
    ensures forall id :: id in s.factRevisions ==> s.factRevisions[id].id == id
    ensures forall id :: id in s.entityRevisions ==> s.entityRevisions[id].id == id
  {
    forall id | id in s.factRevisions
      ensures s.factRevisions[id].id == id
    {
      assert At(s, Key(RecordTag(KFactRevision), id)).Some?;
    }
    forall id | id in s.entityRevisions
      ensures s.entityRevisions[id].id == id
    {
      assert At(s, Key(RecordTag(KEntityRevision), id)).Some?;
    }
  }

  /** Every record has an ID. */
  predicate AllNamed(s: State) {
    "" !in s.sources && "" !in s.episodes && "" !in s.entities && "" !in s.facts && "" !in s.factRevisions &&
    "" !in s.entityRevisions && "" !in s.watermarks
  }

  /** What holds of `s` and carries over to `t`. No entity or fact is ever deleted, and
      only the seed writes watermarks. */
  ghost predicate Carries(s: State, t: State) {
    (IdsUnique(s) ==> IdsUnique(t)) && (Keyed(s) ==> Keyed(t)) && t.watermarks == s.watermarks &&
    s.entities.Keys <= t.entities.Keys && s.facts.Keys <= t.facts.Keys && (AllNamed(s) ==> AllNamed(t)) &&
    (Keyed(s) && RefsOk(s) ==> RefsOk(t))
  }

  lemma CarriesOn(s: State, t: State, u: State)
    requires Carries(s, t) && Carries(t, u)
    ensures Carries(s, u)
  {
    hide IdsUnique, Keyed, AllNamed, RefsOk;
  }

  /** Stored records keep their spaces, and what is stored names what was there. */
  ghost predicate KeepsSpaces(s: State, t: State) {
    "" !in t.entities && "" !in t.facts &&
    (forall id :: id in t.entities ==> !Blank(t.entities[id].spaceId)) &&
    (forall id :: id in s.entities ==> id in t.entities && t.entities[id].spaceId == s.entities[id].spaceId) &&
    (forall id :: id in s.episodes ==> id in t.episodes && t.episodes[id].spaceId == s.episodes[id].spaceId) &&
    (forall id :: id in t.episodes ==> t.episodes[id].sourceId in t.sources) &&
    (forall id :: id in t.facts ==> FactRefs(s, t.facts[id]))
  }

  lemma RefsCarry(s: State, t: State)
    requires KeepsSpaces(s, t)
    ensures RefsOk(t)
  {
    hide Blank, Trim;
    forall id | id in t.facts
      ensures FactRefs(t, t.facts[id])
    {
      assert FactRefs(s, t.facts[id]);
    }
  }

  lemma RefsWithFact(s: State, t: State, id: string, fact: Fact)
    requires RefsOk(s) && id != "" && FactRefs(s, fact)
    requires t == s.(sequence := t.sequence, facts := s.facts[id := fact], factRevisions := t.factRevisions)
    ensures RefsOk(t)
  {
    hide FactRefs, Blank;
    RefsCarry(s, t);
  }

  lemma RefsWithEntityAt(s: State, t: State, id: string, entity: Entity)
    requires RefsOk(s) && id != "" && !Blank(entity.spaceId) && (id in s.entities ==> s.entities[id].spaceId == entity.spaceId)
    requires t == s.(sequence := t.sequence, entities := s.entities[id := entity], entityRevisions := t.entityRevisions)
    ensures RefsOk(t)
  {
    hide FactRefs, Blank;
    RefsCarry(s, t);
  }

  // ----- single writes -----

  lemma NumberingCarries(s: State, prefix: string)
    ensures var (t, id) := NewId(s, prefix);
            Carries(s, t) && t == s.(sequence := t.sequence) && id != "" && forall k :: !Has(t, k, id)
  {
    FreshId(s, prefix);
    hide NewId, Blank, FactRefs;
    var t := NewId(s, prefix).0;
    if RefsOk(s) {
      RefsCarry(s, t);
    }
    assert forall k, i :: Has(t, k, i) <==> Has(s, k, i);
  }

  /** Storing a fact with its revision, each under its own ID. */
  lemma FactKept(s: State, t: State, id: string, fact: Fact, rid: string, r: FactRevision)
    requires t == s.(sequence := t.sequence, facts := s.facts[id := fact], factRevisions := s.factRevisions[rid := r])
    requires rid != "" && r.id == rid
    ensures AllNamed(s) && id != "" ==> AllNamed(t)
    ensures Keyed(s) && fact.id == id ==> Keyed(t)
  {
  }

  lemma EntityKept(s: State, t: State, id: string, entity: Entity, rid: string, r: EntityRevision)
    requires t == s.(sequence := t.sequence, entities := s.entities[id := entity], entityRevisions := s.entityRevisions[rid := r])
    requires rid != "" && r.id == rid
    ensures AllNamed(s) && id != "" ==> AllNamed(t)
    ensures Keyed(s) && entity.id == id ==> Keyed(t)
  {
  }

  lemma PutFactCarries(s: State, id: string, fact: Fact, kind: string)
    requires IdAvailable(s, id, KFact) && (Keyed(s) ==> fact.id == id) && id != "" && (RefsOk(s) ==> FactRefs(s, fact))
    ensures Carries(s, PutFact(s, id, fact, kind)) && id in PutFact(s, id, fact, kind).facts
    ensures PutFact(s, id, fact, kind).facts == s.facts[id := fact]
  {
    var t := PutFact(s, id, fact, kind);
    var rid := PutFactAt(s, id, fact, kind);
    IdTextNotEmpty(FACT_REVISION_PREFIX, t.sequence);
    hide PutFact, IdsUnique, IdText, Has, IdAvailable, RefsOk, FactRefs, Keyed, AllNamed;
    FactKept(s, t, id, fact, rid, t.factRevisions[rid]);
    if RefsOk(s) {
      RefsWithFact(s, t, id, fact);
    }
    if IdsUnique(s) {
      PutFactKeepsIds(s, t, id, fact, rid);
    }
  }

  lemma PutEntityCarries(s: State, id: string, entity: Entity, kind: string)
    requires IdAvailable(s, id, KEntity) && (Keyed(s) ==> entity.id == id) && (AllNamed(s) ==> id != "")
    requires RefsOk(s) ==> id != "" && !Blank(entity.spaceId) && (id in s.entities ==> s.entities[id].spaceId == entity.spaceId)
    ensures Carries(s, PutEntity(s, id, entity, kind))
  {
    var t := PutEntity(s, id, entity, kind);
    var rid := PutEntityAt(s, id, entity, kind);
    IdTextNotEmpty(ENTITY_REVISION_PREFIX, t.sequence);
    hide PutEntity, IdsUnique, IdText, Has, IdAvailable, RefsOk, Blank, Keyed, AllNamed;
    EntityKept(s, t, id, entity, rid, t.entityRevisions[rid]);
    if RefsOk(s) {
      RefsWithEntityAt(s, t, id, entity);
    }
    if IdsUnique(s) {
      PutEntityKeepsIds(s, t, id, entity, rid);
    }
  }

  lemma SourceCarries(s: State, spaceId: string, input: EpisodeInput, source: Source)
    requires AdmitSource(s, spaceId, input, source).Ok? && (AllNamed(s) ==> source.id != "")
    ensures Carries(s, AdmitSource(s, spaceId, input, source).value)
    ensures source.id in AdmitSource(s, spaceId, input, source).value.sources
  {
    hide Carries, IdAvailable, SourceMatches, AllNamed;
    if source.id in s.sources {
      CarriesSelf(s);
    } else {
      SourceStoredCarries(s, source);
    }
  }

  lemma SourceStoredCarries(s: State, source: Source)
    requires IdAvailable(s, source.id, KSource) && source.id !in s.sources && (AllNamed(s) ==> source.id != "")
    ensures Carries(s, s.(sources := s.sources[source.id := source]))
  {
    hide IdsUnique, IdAvailable, Has, RefsOk, Blank;
    var t := s.(sources := s.sources[source.id := source]);
    if RefsOk(s) {
      RefsWithSource(s, source);
    }
    if IdsUnique(s) {
      SourceAdds(s, t, source);
      AddingAvailableIdKeepsUnique(s, t, KSource, source.id);
    }
  }

  lemma SourceAdds(s: State, t: State, source: Source)
    requires t == s.(sources := s.sources[source.id := source])
    ensures AddsId(s, t, KSource, source.id)
  {
  }

  lemma EpisodeAdds(s: State, t: State, id: string, episode: Episode)
    requires t == s.(episodes := s.episodes[id := episode])
    ensures AddsId(s, t, KEpisode, id)
  {
  }

  lemma EpisodeCarries(s: State, spaceId: string, input: EpisodeInput, sourceId: string, now: int)
    requires AdmitEpisode(s, spaceId, input, sourceId, now).Ok? && sourceId in s.sources
    ensures Carries(s, AdmitEpisode(s, spaceId, input, sourceId, now).value.state)
  {
    hide NewId, SameEpisode, Has, Blank, IdsUnique, Keyed;
    var done := AdmitEpisode(s, spaceId, input, sourceId, now).value;
    NumberingCarries(s, "ep");
    var (numbered, id) := if input.id == "" then NewId(s, "ep") else (s, input.id);
    if id !in numbered.episodes {
      EpisodeStoredCarries(numbered, id, done.state.episodes[id]);
    }
  }

  lemma EpisodeStoredCarries(s: State, id: string, episode: Episode)
    requires IdAvailable(s, id, KEpisode) && episode.id == id && id != ""
    requires id !in s.episodes && episode.sourceId in s.sources
    ensures Carries(s, s.(episodes := s.episodes[id := episode]))
  {
    hide Has, Blank, IdsUnique, IdAvailable, RefsOk;
    var t := s.(episodes := s.episodes[id := episode]);
    if RefsOk(s) {
      RefsWithEpisode(s, episode);
    }
    EpisodeAdds(s, t, id, episode);
    if IdsUnique(s) {
      AddingAvailableIdKeepsUnique(s, t, KEpisode, id);
    }
  }

  lemma SourceNamed(s: State, d: Derivation, spaceId: string, sourceId: string, input: SourceInput, now: int)
    requires AllNamed(s) && ResolveSource(s, d, spaceId, sourceId, input, now).Ok?
    ensures ResolveSource(s, d, spaceId, sourceId, input, now).value.id != ""
  {
    hide Blank, SourceMatches, SpaceOf, FirstNonEmpty;
  }

  lemma IngestCarries(s: State, d: Derivation, input: EpisodeInput, now: int)
    requires IngestEpisode(s, d, input, now).Ok?
    ensures Carries(s, IngestEpisode(s, d, input, now).value.state)
  {
    hide Carries, AdmitSource, AdmitEpisode, ResolveSource, Blank, AllNamed;
    var spaceId := SpaceOf(input.spaceId);
    var source := ResolveSource(s, d, spaceId, input.sourceId, input.source, now).value;
    if AllNamed(s) {
      SourceNamed(s, d, spaceId, input.sourceId, input.source, now);
    }
    SourceCarries(s, spaceId, input, source);
    var sourced := AdmitSource(s, spaceId, input, source).value;
    EpisodeCarries(sourced, spaceId, input, source.id, now);
    CarriesOn(s, sourced, AdmitEpisode(sourced, spaceId, input, source.id, now).value.state);
  }

  /** A written entity has a space, and keeps the one it had. */
  lemma TargetSpace(s: State, d: Derivation, input: EntityInput, now: int)
    requires UpsertEntity(s, d, input, now).Ok?
    ensures var id := EntityTarget(s, d, input);
            !Blank(CreatedEntity(id, input, now).spaceId) &&
            (id in s.entities && !Blank(s.entities[id].spaceId) ==>
               UpdatedEntity(s.entities[id], input, now).spaceId == s.entities[id].spaceId)
  {
    hide PutEntity, EntityTarget, IdAvailable, AppendHistory, SnapshotEntry, DedupeTrimmed, AdmittedMetadata, Blank, SpaceOf;
    DefaultSpaceIsNotBlank(input.spaceId);
  }

  lemma UpsertCarries(s: State, d: Derivation, input: EntityInput, now: int)
    requires UpsertEntity(s, d, input, now).Ok?
    ensures Carries(s, UpsertEntity(s, d, input, now).value.state)
  {
    hide Carries, PutEntity, EntityTarget, UpdateAllowed, IdAvailable, Blank, AppendHistory, SnapshotEntry, DedupeTrimmed,
         AdmittedMetadata, FirstNonEmpty;
    var id := EntityTarget(s, d, input);
    if AllNamed(s) || RefsOk(s) {
      TargetNotEmpty(s, d, input);
    }
    TargetSpace(s, d, input, now);
    if id in s.entities {
      PutEntityCarries(s, id, UpdatedEntity(s.entities[id], input, now), "update");
    } else {
      PutEntityCarries(s, id, CreatedEntity(id, input, now), "assert");
    }
  }

  lemma AssertCarries(s: State, spaceId: string, input: FactInput, now: int)
    requires AssertFact(s, spaceId, input, now).Ok?
    ensures var done := AssertFact(s, spaceId, input, now).value;
            Carries(s, done.state) && done.fact.id in done.state.facts && done.fact.id !in s.facts &&
            forall id :: id in s.facts ==> id in done.state.facts && done.state.facts[id] == s.facts[id]
  {
    hide Carries, PutFact, NewId, AdmitFact, AssertFact, Has, Blank, Distinct;
    AssertParts(s, spaceId, input, now);
    NumberingCarries(s, "fact");
    var (numbered, id) := if input.id == "" then NewId(s, "fact") else (s, input.id);
    var done := AssertFact(s, spaceId, input, now).value;
    AdmittedRefs(s, numbered.sequence, spaceId, input, id, now);
    PutFactCarries(numbered, id, done.fact, "assert");
    if input.id == "" {
      CarriesOn(s, numbered, done.state);
    }
  }

  /** The owner of an ID may write it again. */
  lemma OwnKey(s: State, id: string)
    requires id in s.facts
    ensures (Keyed(s) ==> s.facts[id].id == id) && (AllNamed(s) ==> id != "")
  {
  }

  lemma RewrittenRefs(s: State, id: string, fact: Fact)
    requires RefsOk(s) && id in s.facts && SameEndpoints(fact, s.facts[id])
    ensures id != "" && FactRefs(s, fact)
  {
    hide EndpointOk, SupportOk;
    assert FactRefs(s, s.facts[id]);
  }

  lemma RewriteCarries(s: State, id: string, fact: Fact, kind: string)
    requires id in s.facts && fact.id == s.facts[id].id && SameEndpoints(fact, s.facts[id])
    ensures Carries(s, PutFact(s, id, fact, kind))
    ensures PutFact(s, id, fact, kind).facts == s.facts[id := fact]
  {
    var t := PutFact(s, id, fact, kind);
    var rid := PutFactAt(s, id, fact, kind);
    IdTextNotEmpty(FACT_REVISION_PREFIX, t.sequence);
    hide PutFact, IdsUnique, IdText, Has, IdAvailable, RefsOk, FactRefs, Keyed, AllNamed;
    OwnKey(s, id);
    FactKept(s, t, id, fact, rid, t.factRevisions[rid]);
    if RefsOk(s) {
      RewrittenRefs(s, id, fact);
      RefsWithFact(s, t, id, fact);
    }
    if IdsUnique(s) {
      FactIsOwned(s, id);
      PutFactKeepsIds(s, t, id, fact, rid);
    }
  }

  lemma SupersedeCarries(s: State, factId: string, input: FactInput, reason: string, now: int)
    requires SupersedeFact(s, factId, input, reason, now).Ok?
    ensures Carries(s, SupersedeFact(s, factId, input, reason, now).value.state)
  {
    hide Carries, AssertFact, PutFact, Additive, SupersedeAllowed, StrictlyAfter, Keyed;
    var at := StrictlyAfter(now, s.facts[factId].updatedAt);
    AssertCarries(s, s.facts[factId].spaceId, Additive(input), at);
    var done := AssertFact(s, s.facts[factId].spaceId, Additive(input), at).value;
    AssertedOwnId(s, s.facts[factId].spaceId, Additive(input), at);
    var retired := RetiredFact(s.facts[factId], input, done.fact, reason);
    var linked := ReplacementFact(done.fact, factId, reason);
    RewriteCarries(done.state, factId, retired, "supersede");
    var closed := PutFact(done.state, factId, retired, "supersede");
    RewriteCarries(closed, done.fact.id, linked, "supersede_replacement");
    CarriesOn(s, done.state, closed);
    CarriesOn(s, closed, PutFact(closed, done.fact.id, linked, "supersede_replacement"));
  }

  lemma AssertedOwnId(s: State, spaceId: string, input: FactInput, now: int)
    requires AssertFact(s, spaceId, input, now).Ok?
    ensures var done := AssertFact(s, spaceId, input, now).value;
            done.fact.id in done.state.facts && done.state.facts[done.fact.id] == done.fact
  {
    hide PutFact, NewId, AdmitFact, AssertFact, Has, IdAvailable;
    AssertParts(s, spaceId, input, now);
    var (numbered, id) := if input.id == "" then NewId(s, "fact") else (s, input.id);
    var rid := PutFactAt(numbered, id, AssertedFact(id, spaceId, input, now), "assert");
  }

  lemma RetractCarries(s: State, factId: string, reason: string, now: int)
    requires RetractFact(s, factId, reason, now).Ok?
    ensures Carries(s, RetractFact(s, factId, reason, now).value)
  {
    hide PutFact, IdsUnique, Keyed;
    if s.facts[factId].status != Retracted {
      RewriteCarries(s, factId, RetractedFact(s.facts[factId], reason, now), "retract");
    }
  }

  // ----- batches and runs -----

  lemma CarriesSelf(s: State)
    ensures Carries(s, s)
  {
  }

  lemma {:induction false} BatchEpisodesCarry(b: BatchDone, d: Derivation, inputs: seq<EpisodeInput>, now: int)
    requires BatchEpisodes(b, d, inputs, now).Ok?
    ensures Carries(b.state, BatchEpisodes(b, d, inputs, now).value.state)
  {
    hide Carries, IngestEpisode;
    if inputs == [] {
      CarriesSelf(b.state);
    } else {
      var n := |inputs| - 1;
      BatchEpisodesCarry(b, d, inputs[..n], now);
      var mid := BatchEpisodes(b, d, inputs[..n], now).value.state;
      IngestCarries(mid, d, inputs[n], now);
      CarriesOn(b.state, mid, IngestEpisode(mid, d, inputs[n], now).value.state);
    }
  }

  lemma {:induction false} BatchEntitiesCarry(b: BatchDone, d: Derivation, inputs: seq<EntityInput>, now: int)
    requires BatchEntities(b, d, inputs, now).Ok?
    ensures Carries(b.state, BatchEntities(b, d, inputs, now).value.state)
  {
    hide Carries, UpsertEntity, ReferenceOf;
    if inputs == [] {
      CarriesSelf(b.state);
    } else {
      var n := |inputs| - 1;
      BatchEntitiesCarry(b, d, inputs[..n], now);
      var mid := BatchEntities(b, d, inputs[..n], now).value.state;
      UpsertCarries(mid, d, inputs[n], now);
      CarriesOn(b.state, mid, UpsertEntity(mid, d, inputs[n], now).value.state);
    }
  }

  lemma {:induction false} BatchFactsCarry(b: BatchDone, inputs: seq<FactInput>, now: int)
    requires BatchFacts(b, inputs, now).Ok?
    ensures Carries(b.state, BatchFacts(b, inputs, now).value.state)
  {
    hide Carries, AssertFact, Rewritten, SpaceOf;
    if inputs == [] {
      CarriesSelf(b.state);
    } else {
      var n := |inputs| - 1;
      BatchFactsCarry(b, inputs[..n], now);
      var front := BatchFacts(b, inputs[..n], now).value;
      var input := Rewritten(front.rewrites, inputs[n]);
      AssertCarries(front.state, SpaceOf(input.spaceId), input, now);
      CarriesOn(b.state, front.state, AssertFact(front.state, SpaceOf(input.spaceId), input, now).value.state);
    }
  }

  lemma BatchCarries(s: State, d: Derivation, input: BatchInput, now: int)
    requires IngestBatch(s, d, input, now).Ok?
    ensures Carries(s, IngestBatch(s, d, input, now).value.state)
  {
    hide Carries, BatchEpisodes, BatchEntities, BatchFacts;
    var b0 := BatchDone(s, [], [], [], map[]);
    BatchEpisodesCarry(b0, d, input.episodes, now);
    var b1 := BatchEpisodes(b0, d, input.episodes, now).value;
    BatchEntitiesCarry(b1, d, input.entities, now);
    var b2 := BatchEntities(b1, d, input.entities, now).value;
    BatchFactsCarry(b2, input.facts, now);
    var b3 := BatchFacts(b2, input.facts, now).value;
    CarriesOn(s, b1.state, b2.state);
    CarriesOn(s, b2.state, b3.state);
  }

  lemma StepCarries(s: State, d: Derivation, op: Op, now: int)
    ensures Carries(s, Step(s, d, op, now))
  {
    hide Carries, IngestEpisode, IngestBatch, UpsertEntity, AssertFact, SupersedeFact, RetractFact, SpaceOf;
    CarriesSelf(s);
    if Mutation(s, d, op, now).Ok? {
      match op
      case IngestOp(input) => IngestCarries(s, d, input, now);
      case BatchOp(input) => BatchCarries(s, d, input, now);
      case UpsertOp(input) => UpsertCarries(s, d, input, now);
      case AssertOp(input) => AssertCarries(s, SpaceOf(input.spaceId), input, now);
      case SupersedeOp(target, input, reason) => SupersedeCarries(s, target, input, reason, now);
      case RetractOp(target, reason) => RetractCarries(s, target, reason, now);
    }
  }

  /** Global identity: from any state whose ID sets are disjoint on non-blank IDs, one
      mutation of any kind, under any clock reading, leaves such a state. */
  lemma StepKeepsIds(s: State, d: Derivation, op: Op, now: int)
    requires IdsUnique(s)
    ensures IdsUnique(Step(s, d, op, now))
  {
    StepCarries(s, d, op, now);
    hide IdsUnique, Keyed, Step;
  }

  /** And so does every run. */
  lemma {:induction false} RunKeepsIds(s: State, d: Derivation, events: seq<Event>)
    requires IdsUnique(s)
    ensures IdsUnique(Run(s, d, events))
  {
    hide IdsUnique, Step;
    if events != [] {
      var n := |events| - 1;
      RunKeepsIds(s, d, events[..n]);
      StepKeepsIds(Run(s, d, events[..n]), d, events[n].op, events[n].now);
    }
  }

  /** What every run from any loadable state keeps: unique IDs, records under their own and
      non-empty IDs, and references that hold; and no entity or fact is ever deleted. */
  lemma {:induction false} RunCarries(s: State, d: Derivation, events: seq<Event>)
    ensures Carries(s, Run(s, d, events))
  {
    hide Carries, Step;
    if events == [] {
      CarriesSelf(s);
    } else {
      var n := |events| - 1;
      var before := Run(s, d, events[..n]);
      RunCarries(s, d, events[..n]);
      StepCarries(before, d, events[n].op, events[n].now);
      CarriesOn(s, before, Step(before, d, events[n].op, events[n].now));
    }
  }

  lemma StepKeepsWellKeyed(s: State, d: Derivation, op: Op, now: int)
    requires WellKeyed(s)
    ensures WellKeyed(Step(s, d, op, now))
  {
    KeyedIsWellKeyed(s);
    KeyedIsWellKeyed(Step(s, d, op, now));
    StepCarries(s, d, op, now);
    hide IdsUnique, Keyed, Step, WellKeyed;
  }

  // ----- the one-time seed -----

  ghost predicate InitialName(facts: map<string, Fact>, name: string) {
    exists id :: id in facts && InitialInferred(facts[id]) && name == SeedName(id, ":initial")
  }

  ghost predicate CurrentName(facts: map<string, Fact>, name: string) {
    exists id :: id in facts && name == SeedName(id, ":current")
  }

  ghost predicate EntityName(entities: map<string, Entity>, name: string) {
    exists id :: id in entities && name == SeedName(id, "")
  }

  lemma InitialNames(facts: map<string, Fact>)
    ensures forall name :: name in InitialRevisions(facts) <==> InitialName(facts, name)
    ensures forall name :: name in InitialRevisions(facts) ==> InitialRevisions(facts)[name].id == name
  {
    hide InitialInferred, InitialFact;
  }

  lemma CurrentNames(facts: map<string, Fact>, at: int)
    ensures forall name :: name in CurrentRevisions(facts, at) <==> CurrentName(facts, name)
    ensures forall name :: name in CurrentRevisions(facts, at) ==> CurrentRevisions(facts, at)[name].id == name
  {
  }

  lemma EntityNames(entities: map<string, Entity>, at: int)
    ensures forall name :: name in SeedEntityRevisions(entities, at) <==> EntityName(entities, name)
    ensures forall name :: name in SeedEntityRevisions(entities, at) ==> SeedEntityRevisions(entities, at)[name].id == name
  {
    hide WithoutHistory;
  }

  /** The IDs a seed writes. */
  ghost predicate SeedWrites(s: State, kind: Kind, name: string) {
    match kind
    case KFactRevision => InitialName(s.facts, name) || CurrentName(s.facts, name)
    case KEntityRevision => EntityName(s.entities, name)
    case KWatermark => name == WATERMARK
    case _ => false
  }

  lemma SeedKeepsWellKeyed(s: State, at: int)
    requires WellKeyed(s)
    ensures WellKeyed(Seed(s, at))
  {
    InitialNames(s.facts);
    CurrentNames(s.facts, at);
    EntityNames(s.entities, at);
    KeyedIsWellKeyed(s);
    KeyedIsWellKeyed(Seed(s, at));
    hide WellKeyed, InitialRevisions, CurrentRevisions, SeedEntityRevisions, InitialName, CurrentName, EntityName;
  }

  lemma SeedKeepsNames(s: State, at: int)
    requires AllNamed(s)
    ensures AllNamed(Seed(s, at))
  {
    InitialNames(s.facts);
    CurrentNames(s.facts, at);
    EntityNames(s.entities, at);
    assert WATERMARK[0] == 'b';
    hide InitialRevisions, CurrentRevisions, SeedEntityRevisions, InitialInferred, InitialName, CurrentName, EntityName;
    NamesAreNotEmpty(s);
  }

  lemma NamesAreNotEmpty(s: State)
    ensures !InitialName(s.facts, "") && !CurrentName(s.facts, "") && !EntityName(s.entities, "")
  {
  }

  /** The seed writes its IDs without any check. They are new exactly when no record of
      another kind holds one already, and no entity is named like a fact with one of the
      two suffixes. */
  ghost predicate SeedIsClean(s: State) {
    (forall kind, name, other :: SeedWrites(s, kind, name) && Has(s, other, name) ==> other == kind) &&
    !Suffixed(s)
  }

  lemma SeedAdds(s: State, at: int)
    requires WATERMARK !in s.watermarks
    ensures forall kind, id :: Has(Seed(s, at), kind, id) <==> Has(s, kind, id) || SeedWrites(s, kind, id)
  {
    InitialNames(s.facts);
    CurrentNames(s.facts, at);
    EntityNames(s.entities, at);
    hide InitialRevisions, CurrentRevisions, SeedEntityRevisions, InitialName, CurrentName, EntityName;
  }

  lemma SeedNames(s: State, kind: Kind, name: string)
    requires SeedWrites(s, kind, name)
    ensures !Blank(name) && (kind != KWatermark ==> name != WATERMARK)
  {
    assert name[0] == 's' || name[0] == 'b';
    assert WATERMARK[0] == 'b';
  }

  /** An entity named like a fact with one of the two suffixes. */
  ghost predicate Suffixed(s: State) {
    (exists id :: id in s.facts && id + ":current" in s.entities) ||
    (exists id :: id in s.facts && InitialInferred(s.facts[id]) && id + ":initial" in s.entities)
  }

  /** Two names of the seed are equal across kinds only if there is such an entity. */
  lemma SeedNamesMeet(s: State, name: string)
    requires SeedWrites(s, KFactRevision, name) && SeedWrites(s, KEntityRevision, name)
    ensures Suffixed(s)
  {
    hide InitialInferred;
    var e :| e in s.entities && name == SeedName(e, "");
    assert name[5..] == e;
    if CurrentName(s.facts, name) {
      var id :| id in s.facts && name == SeedName(id, ":current");
      SameTail(e, id, ":current");
    } else {
      var id :| id in s.facts && InitialInferred(s.facts[id]) && name == SeedName(id, ":initial");
      SameTail(e, id, ":initial");
    }
  }

  lemma SameTail(e: string, id: string, suffix: string)
    ensures SeedName(e, "") == SeedName(id, suffix) <==> e == id + suffix
  {
    assert SeedName(e, "") == "seed:" + e;
    assert SeedName(id, suffix) == "seed:" + (id + suffix);
    assert ("seed:" + e)[5..] == e && ("seed:" + (id + suffix))[5..] == id + suffix;
  }

  /** The exact condition for the one-time seed to keep global identity. */
  lemma SeedKeepsIdsIff(s: State, at: int)
    requires IdsUnique(s) && WATERMARK !in s.watermarks
    ensures IdsUnique(Seed(s, at)) <==> SeedIsClean(s)
  {
    var t := Seed(s, at);
    SeedAdds(s, at);
    hide Seed, Has, SeedWrites, Blank, Suffixed;
    forall kind, name | SeedWrites(s, kind, name)
      ensures !Blank(name) && (kind != KWatermark ==> name != WATERMARK)
    {
      SeedNames(s, kind, name);
    }
    if IdsUnique(t) {
      forall kind, name, other | SeedWrites(s, kind, name) && Has(s, other, name)
        ensures other == kind
      {
        assert Has(t, kind, name) && Has(t, other, name);
      }
      if Suffixed(s) {
        SuffixesCollide(s, t);
      }
    }
    if SeedIsClean(s) {
      CleanIsUnique(s, t);
    }
  }

  lemma SuffixesMeet(s: State) returns (name: string)
    requires Suffixed(s)
    ensures SeedWrites(s, KFactRevision, name) && SeedWrites(s, KEntityRevision, name)
  {
    hide InitialInferred;
    if id :| id in s.facts && id + ":current" in s.entities {
      name := SeedName(id, ":current");
      SameTail(id + ":current", id, ":current");
    } else {
      var id :| id in s.facts && InitialInferred(s.facts[id]) && id + ":initial" in s.entities;
      name := SeedName(id, ":initial");
      SameTail(id + ":initial", id, ":initial");
    }
  }

  lemma SuffixesCollide(s: State, t: State)
    requires Suffixed(s)
    requires forall kind, id :: Has(t, kind, id) <==> Has(s, kind, id) || SeedWrites(s, kind, id)
    ensures !IdsUnique(t)
  {
    var name := SuffixesMeet(s);
    SeedNames(s, KFactRevision, name);
    hide Suffixed, Has, Blank, SeedWrites;
    assert Has(t, KFactRevision, name) && Has(t, KEntityRevision, name);
  }

  lemma CleanIsUnique(s: State, t: State)
    requires IdsUnique(s) && SeedIsClean(s)
    requires forall kind, id :: Has(t, kind, id) <==> Has(s, kind, id) || SeedWrites(s, kind, id)
    ensures IdsUnique(t)
  {
    hide Suffixed, Has, Blank, SeedName, InitialName, CurrentName, EntityName;
    forall id, j, k | Has(t, j, id) && Has(t, k, id) && !Blank(id)
      ensures j == k
    {
      if !Has(s, j, id) && !Has(s, k, id) && j != k {
        SeedNames(s, j, id);
        SeedNames(s, k, id);
        SeedNamesMeet(s, id);
      }
    }
  }

  /** A database that opens once and never again: a fact `f` and an entity `f:current`
      have different IDs, and the revisions the seed gives them do not. */
  lemma SeedCanCollide(fact: Fact, entity: Entity, at: int)
    ensures var s := Empty().(facts := map["f" := fact], entities := map["f:current" := entity]);
            IdsUnique(s) && !IdsUnique(Seed(s, at))
  {
    var s := Empty().(facts := map["f" := fact], entities := map["f:current" := entity]);
    assert "f" + ":current" == "f:current";
    assert "f" in s.facts && "f" + ":current" in s.entities;
    assert |"f"| != |"f:current"|;
    assert IdsUnique(s);
    hide IdsUnique, Seed;
    SeedKeepsIdsIff(s, at);
  }
}
