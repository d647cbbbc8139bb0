/** Every mutation keeps the invariant and only adds to the log, with stamps no
    earlier than the clock reading pinned for it. */
module Preservation {
  import opened Wrappers
  import opened Text
  import opened Identity
  import opened Records
  import opened EngineSpec
  import opened Invariants

  /** `t` extends `s`: sources, episodes and revisions are never rewritten, no record
      is removed, everything new is stamped between `lo` and `hi`, and new revisions
      carry higher numbers than any old one. */
  ghost predicate Grows(s: State, t: State, lo: int, hi: int) {
    s.sequence <= t.sequence &&
    s.facts.Keys <= t.facts.Keys && s.entities.Keys <= t.entities.Keys &&
    SourcesGrow(s.sources, t.sources, lo, hi) && EpisodesGrow(s.episodes, t.episodes, lo, hi) &&
    FactRevisionsGrow(s.factRevisions, t.factRevisions, lo, hi) &&
    EntityRevisionsGrow(s.entityRevisions, t.entityRevisions, s.sequence, lo, hi)
  }

  ghost predicate SourcesGrow(a: map<string, Source>, b: map<string, Source>, lo: int, hi: int) {
    (forall id :: id in a ==> id in b && b[id] == a[id]) &&
    (forall id :: id in b && id !in a ==> lo <= b[id].createdAt <= hi)
  }

  ghost predicate EpisodesGrow(a: map<string, Episode>, b: map<string, Episode>, lo: int, hi: int) {
    (forall id :: id in a ==> id in b && b[id] == a[id]) &&
    (forall id :: id in b && id !in a ==> lo <= b[id].ingestedAt <= hi)
  }

  ghost predicate FactRevisionsGrow(a: map<string, FactRevision>, b: map<string, FactRevision>, lo: int, hi: int) {
    (forall id :: id in a ==> id in b && b[id] == a[id]) &&
    (forall id :: id in b && id !in a ==> lo <= b[id].txTime <= hi)
  }

  ghost predicate EntityRevisionsGrow(a: map<string, EntityRevision>, b: map<string, EntityRevision>,
                                      sequence: nat, lo: int, hi: int) {
    (forall id :: id in a ==> id in b && b[id] == a[id]) &&
    (forall id :: id in b && id !in a ==> lo <= b[id].txTime <= hi && RevisionOrder(id) > sequence)
  }

  lemma GrowsTransitive(s: State, t: State, u: State, lo: int, hi: int)
    requires Grows(s, t, lo, hi) && Grows(t, u, lo, hi)
    ensures Grows(s, u, lo, hi)
  {
    hide SourcesGrow, EpisodesGrow, FactRevisionsGrow, EntityRevisionsGrow;
    assert SourcesGrow(s.sources, u.sources, lo, hi) && EpisodesGrow(s.episodes, u.episodes, lo, hi) by {
      SourcesGrowTransitive(s, t, u, lo, hi);
    }
    assert FactRevisionsGrow(s.factRevisions, u.factRevisions, lo, hi) &&
           EntityRevisionsGrow(s.entityRevisions, u.entityRevisions, s.sequence, lo, hi) by {
      RevisionsGrowTransitive(s, t, u, lo, hi);
    }
  }

  lemma SourcesGrowTransitive(s: State, t: State, u: State, lo: int, hi: int)
    requires SourcesGrow(s.sources, t.sources, lo, hi) && SourcesGrow(t.sources, u.sources, lo, hi)
    requires EpisodesGrow(s.episodes, t.episodes, lo, hi) && EpisodesGrow(t.episodes, u.episodes, lo, hi)
    ensures SourcesGrow(s.sources, u.sources, lo, hi) && EpisodesGrow(s.episodes, u.episodes, lo, hi)
  {
  }

  lemma RevisionsGrowTransitive(s: State, t: State, u: State, lo: int, hi: int)
    requires s.sequence <= t.sequence
    requires FactRevisionsGrow(s.factRevisions, t.factRevisions, lo, hi)
    requires FactRevisionsGrow(t.factRevisions, u.factRevisions, lo, hi)
    requires EntityRevisionsGrow(s.entityRevisions, t.entityRevisions, s.sequence, lo, hi)
    requires EntityRevisionsGrow(t.entityRevisions, u.entityRevisions, t.sequence, lo, hi)
    ensures FactRevisionsGrow(s.factRevisions, u.factRevisions, lo, hi)
    ensures EntityRevisionsGrow(s.entityRevisions, u.entityRevisions, s.sequence, lo, hi)
  {
    hide RevisionOrder;
  }

  lemma GrowsWeaken(s: State, t: State, lo: int, hi: int, lo': int, hi': int)
    requires Grows(s, t, lo, hi) && lo' <= lo && hi <= hi'
    ensures Grows(s, t, lo', hi')
  {
    hide RevisionOrder;
  }

  // ----- identity -----

  /** `t` holds one more ID than `s`. */
  ghost predicate AddsId(s: State, t: State, kind: Kind, id: string) {
    forall k, i :: Has(t, k, i) <==> Has(s, k, i) || (k == kind && i == id)
  }

  lemma AddingAvailableIdKeepsUnique(s: State, t: State, kind: Kind, id: string)
    requires IdsUnique(s) && AddsId(s, t, kind, id) && IdAvailable(s, id, kind)
    ensures IdsUnique(t)
  {
    hide Has, Blank;
    forall i, j, k | Has(t, j, i) && Has(t, k, i) && !Blank(i)
      ensures j == k
    {
      if i != id {
        assert Has(s, j, i) && Has(s, k, i);
      }
    }
  }

  // ----- storing a fact -----

  ghost predicate FactFits(s: State, fact: Fact) {
    FactRefs(s, fact) && 0 < fact.createdAt <= fact.updatedAt && IdAvailable(s, fact.id, KFact) && fact.id != "" &&
    (fact.id in s.facts ==>
      s.facts[fact.id].createdAt == fact.createdAt && s.facts[fact.id].updatedAt <= fact.updatedAt &&
      SameEndpoints(fact, s.facts[fact.id]))
  }

  /** Storing a fact under a key touches that key, one fresh revision and the sequence. */
  lemma PutFactAt(s: State, id: string, fact: Fact, kind: string) returns (rid: string)
    ensures var t := PutFact(s, id, fact, kind);
            rid == IdText(FACT_REVISION_PREFIX, t.sequence) && t.sequence > s.sequence &&
            (forall k :: !Has(s, k, rid)) && rid !in s.factRevisions && rid != id &&
            t == s.(sequence := t.sequence, facts := s.facts[id := fact],
                    factRevisions := s.factRevisions[rid := NewFactRevision(rid, fact, kind, fact.updatedAt)])
  {
    var stored := s.(facts := s.facts[id := fact]);
    FreshId(stored, FACT_REVISION_PREFIX);
    rid := NewId(stored, FACT_REVISION_PREFIX).1;
    assert forall k :: Has(s, k, rid) ==> Has(stored, k, rid);
    assert !Has(stored, KFact, rid) && !Has(s, KFactRevision, rid);
  }

  lemma PutFactShape(s: State, fact: Fact, kind: string) returns (rid: string)
    ensures var t := PutFact(s, fact.id, fact, kind);
            rid == IdText(FACT_REVISION_PREFIX, t.sequence) && t.sequence > s.sequence &&
            (forall k :: !Has(s, k, rid)) && rid !in s.factRevisions && rid != fact.id &&
            t == s.(sequence := t.sequence, facts := s.facts[fact.id := fact],
                    factRevisions := s.factRevisions[rid := NewFactRevision(rid, fact, kind, fact.updatedAt)])
  {
    rid := PutFactAt(s, fact.id, fact, kind);
  }

  lemma PutFactKeepsCore(s: State, fact: Fact, kind: string)
    requires Core(s) && FactFits(s, fact)
    ensures Core(PutFact(s, fact.id, fact, kind))
  {
    var t := PutFact(s, fact.id, fact, kind);
    var rid := PutFactShape(s, fact, kind);
    hide PutFact, FactLog, EntityLog, IdsUnique, IdText, Has, NewFactRevision, IdAvailable;
    PutFactKeepsIds(s, t, fact.id, fact, rid);
    assert FactLog(t.facts, t.factRevisions, t.sequence) by {
      AppendKeepsFactLog(s.facts, s.factRevisions, s.sequence, fact, kind, t.sequence);
    }
    assert EntityLog(t.entities, t.entityRevisions, t.sequence) by {
      EntityLogLater(s.entities, s.entityRevisions, s.sequence, t.sequence);
    }
  }

  lemma PutFactGrows(s: State, fact: Fact, kind: string)
    requires fact.updatedAt != UNSET
    ensures Grows(s, PutFact(s, fact.id, fact, kind), fact.updatedAt, fact.updatedAt)
  {
    var t := PutFact(s, fact.id, fact, kind);
    var rid := PutFactShape(s, fact, kind);
    hide PutFact, IdText;
  }

  lemma PutFactKeepsIds(s: State, t: State, id: string, fact: Fact, rid: string)
    requires IdsUnique(s) && IdAvailable(s, id, KFact)
    requires (forall k :: !Has(s, k, rid)) && rid != id
    requires t.factRevisions.Keys == s.factRevisions.Keys + {rid}
    requires t == s.(sequence := t.sequence, facts := s.facts[id := fact], factRevisions := t.factRevisions)
    ensures IdsUnique(t)
  {
    hide Blank;
    var mid := s.(facts := s.facts[id := fact]);
    AddingAvailableIdKeepsUnique(s, mid, KFact, id);
    AddingAvailableIdKeepsUnique(mid, t, KFactRevision, rid);
  }

  lemma EntityLogLater(entities: map<string, Entity>, revs: map<string, EntityRevision>, sequence: nat, n: nat)
    requires EntityLog(entities, revs, sequence) && sequence <= n
    ensures EntityLog(entities, revs, n)
  {
    hide RevisionOrder, IdText;
  }

  lemma FactLogLater(facts: map<string, Fact>, revs: map<string, FactRevision>, sequence: nat, n: nat)
    requires FactLog(facts, revs, sequence) && sequence <= n
    ensures FactLog(facts, revs, n)
  {
    hide RevisionOrder, IdText;
  }

  lemma NumberingKeepsInv(s: State, prefix: string)
    requires Inv(s)
    ensures var (t, id) := NewId(s, prefix);
            Inv(t) && t == s.(sequence := t.sequence) && s.sequence < t.sequence && id != "" && forall k :: !Has(t, k, id)
  {
    FreshId(s, prefix);
    var (t, id) := NewId(s, prefix);
    hide NewId, FactLog, EntityLog, Lifecycle;
    assert forall k, i :: Has(t, k, i) <==> Has(s, k, i);
    EntityLogLater(s.entities, s.entityRevisions, s.sequence, t.sequence);
    FactLogLater(s.facts, s.factRevisions, s.sequence, t.sequence);
  }

  // ----- storing an entity -----

  lemma PutEntityAt(s: State, id: string, entity: Entity, kind: string) returns (rid: string)
    ensures var t := PutEntity(s, id, entity, kind);
            rid == IdText(ENTITY_REVISION_PREFIX, t.sequence) && t.sequence > s.sequence &&
            (forall k :: !Has(s, k, rid)) && rid !in s.entityRevisions && rid != id &&
            t == s.(sequence := t.sequence, entities := s.entities[id := entity],
                    entityRevisions := s.entityRevisions[rid := NewEntityRevision(rid, entity, kind, entity.updatedAt)])
  {
    var stored := s.(entities := s.entities[id := entity]);
    FreshId(stored, ENTITY_REVISION_PREFIX);
    rid := NewId(stored, ENTITY_REVISION_PREFIX).1;
    assert forall k :: Has(s, k, rid) ==> Has(stored, k, rid);
    assert !Has(stored, KEntity, rid) && !Has(s, KEntityRevision, rid);
  }

  lemma PutEntityShape(s: State, entity: Entity, kind: string) returns (rid: string)
    ensures var t := PutEntity(s, entity.id, entity, kind);
            rid == IdText(ENTITY_REVISION_PREFIX, t.sequence) && t.sequence > s.sequence &&
            (forall k :: !Has(s, k, rid)) && rid !in s.entityRevisions && rid != entity.id &&
            t == s.(sequence := t.sequence, entities := s.entities[entity.id := entity],
                    entityRevisions := s.entityRevisions[rid := NewEntityRevision(rid, entity, kind, entity.updatedAt)])
  {
    rid := PutEntityAt(s, entity.id, entity, kind);
  }

  ghost predicate EntityFits(s: State, entity: Entity) {
    entity.id != "" && !Blank(entity.spaceId) && 0 < entity.updatedAt && IdAvailable(s, entity.id, KEntity) &&
    if entity.id in s.entities then
      s.entities[entity.id].createdAt == entity.createdAt && s.entities[entity.id].spaceId == entity.spaceId
    else entity.createdAt == entity.updatedAt
  }

  lemma RefsWithEntity(s: State, t: State, entity: Entity)
    requires RefsOk(s) && EntityFits(s, entity)
    requires t == s.(sequence := t.sequence, entities := s.entities[entity.id := entity], entityRevisions := t.entityRevisions)
    ensures RefsOk(t)
  {
    hide Blank, Trim, IdAvailable;
    forall id | id in t.facts
      ensures FactRefs(t, t.facts[id])
    {
      assert FactRefs(s, s.facts[id]);
    }
  }

  lemma PutEntityKeepsInv(s: State, entity: Entity, kind: string)
    requires Inv(s) && EntityFits(s, entity)
    ensures Inv(PutEntity(s, entity.id, entity, kind))
  {
    var t := PutEntity(s, entity.id, entity, kind);
    var rid := PutEntityShape(s, entity, kind);
    hide PutEntity, FactLog, EntityLog, IdsUnique, IdText, Has, NewEntityRevision, IdAvailable, Lifecycle, RefsOk, Blank;
    RefsWithEntity(s, t, entity);
    PutEntityKeepsIds(s, t, entity.id, entity, rid);
    assert EntityLog(t.entities, t.entityRevisions, t.sequence) by {
      AppendKeepsEntityLog(s.entities, s.entityRevisions, s.sequence, entity, kind, t.sequence);
    }
    assert FactLog(t.facts, t.factRevisions, t.sequence) by {
      FactLogLater(s.facts, s.factRevisions, s.sequence, t.sequence);
    }
  }

  lemma PutEntityGrows(s: State, entity: Entity, kind: string)
    requires entity.updatedAt != UNSET
    ensures Grows(s, PutEntity(s, entity.id, entity, kind), entity.updatedAt, entity.updatedAt)
  {
    var t := PutEntity(s, entity.id, entity, kind);
    var rid := PutEntityShape(s, entity, kind);
    RevisionOrderRecovered(t.sequence);
    hide PutEntity, IdText, RevisionOrder;
  }

  lemma PutEntityKeepsIds(s: State, t: State, id: string, entity: Entity, rid: string)
    requires IdsUnique(s) && IdAvailable(s, id, KEntity)
    requires (forall k :: !Has(s, k, rid)) && rid != id
    requires t.entityRevisions.Keys == s.entityRevisions.Keys + {rid}
    requires t == s.(sequence := t.sequence, entities := s.entities[id := entity], entityRevisions := t.entityRevisions)
    ensures IdsUnique(t)
  {
    hide Blank;
    var mid := s.(entities := s.entities[id := entity]);
    AddingAvailableIdKeepsUnique(s, mid, KEntity, id);
    AddingAvailableIdKeepsUnique(mid, t, KEntityRevision, rid);
  }

  // ----- episodes -----

  lemma RefsWithSource(s: State, source: Source)
    requires RefsOk(s) && source.id !in s.sources
    ensures RefsOk(s.(sources := s.sources[source.id := source]))
  {
    hide Blank, Trim;
    var t := s.(sources := s.sources[source.id := source]);
    forall id | id in t.facts
      ensures FactRefs(t, t.facts[id])
    {
      assert FactRefs(s, s.facts[id]);
    }
  }

  lemma RefsWithEpisode(s: State, episode: Episode)
    requires RefsOk(s) && episode.id !in s.episodes && episode.sourceId in s.sources
    ensures RefsOk(s.(episodes := s.episodes[episode.id := episode]))
  {
    hide Blank, Trim;
    var t := s.(episodes := s.episodes[episode.id := episode]);
    forall id | id in t.facts
      ensures FactRefs(t, t.facts[id])
    {
      assert FactRefs(s, s.facts[id]);
    }
  }

  lemma SourceStored(s: State, source: Source)
    requires Inv(s) && IdAvailable(s, source.id, KSource) && source.id !in s.sources
    ensures Inv(s.(sources := s.sources[source.id := source]))
  {
    hide IdsUnique, FactLog, EntityLog, Lifecycle, IdAvailable, RefsOk;
    RefsWithSource(s, source);
    var t := s.(sources := s.sources[source.id := source]);
    AddingAvailableIdKeepsUnique(s, t, KSource, source.id);
  }

  lemma SourceKeepsInv(s: State, spaceId: string, input: EpisodeInput, source: Source)
    requires Inv(s) && AdmitSource(s, spaceId, input, source).Ok?
    ensures var t := AdmitSource(s, spaceId, input, source).value;
            Inv(t) && Grows(s, t, source.createdAt, source.createdAt) && source.id in t.sources
  {
    hide Inv, SourceMatches, IdAvailable;
    if source.id !in s.sources {
      SourceStored(s, source);
    }
  }

  lemma EpisodeStored(s: State, episode: Episode)
    requires Inv(s) && IdAvailable(s, episode.id, KEpisode) && episode.id !in s.episodes
    requires episode.sourceId in s.sources
    ensures Inv(s.(episodes := s.episodes[episode.id := episode]))
  {
    hide IdsUnique, FactLog, EntityLog, Lifecycle, IdAvailable, RefsOk;
    RefsWithEpisode(s, episode);
    var t := s.(episodes := s.episodes[episode.id := episode]);
    AddingAvailableIdKeepsUnique(s, t, KEpisode, episode.id);
  }

  lemma EpisodeKeepsInv(s: State, spaceId: string, input: EpisodeInput, sourceId: string, now: int)
    requires Inv(s) && sourceId in s.sources
    requires AdmitEpisode(s, spaceId, input, sourceId, now).Ok?
    ensures var t := AdmitEpisode(s, spaceId, input, sourceId, now).value.state;
            Inv(t) && Grows(s, t, now, now)
  {
    hide NewId, Inv, SameEpisode, Has, Blank, Grows;
    var done := AdmitEpisode(s, spaceId, input, sourceId, now).value;
    NumberingKeepsInv(s, "ep");
    var (numbered, id) := if input.id == "" then NewId(s, "ep") else (s, input.id);
    if id !in numbered.episodes {
      EpisodeStored(numbered, done.state.episodes[id]);
    }
    EpisodeGrows(s, done.state, now);
  }

  lemma EpisodeGrows(s: State, t: State, now: int)
    requires s.sequence <= t.sequence && s.episodes.Keys <= t.episodes.Keys
    requires t == s.(sequence := t.sequence, episodes := t.episodes)
    requires forall id :: id in t.episodes ==> if id in s.episodes then t.episodes[id] == s.episodes[id] else t.episodes[id].ingestedAt == now
    ensures Grows(s, t, now, now)
  {
  }

  lemma IngestKeepsInv(s: State, d: Derivation, input: EpisodeInput, now: int)
    requires Inv(s) && IngestEpisode(s, d, input, now).Ok?
    ensures var t := IngestEpisode(s, d, input, now).value.state;
            Inv(t) && Grows(s, t, now, now)
  {
    var spaceId := SpaceOf(input.spaceId);
    var source := ResolveSource(s, d, spaceId, input.sourceId, input.source, now).value;
    hide Inv, AdmitSource, AdmitEpisode, Grows;
    SourceKeepsInv(s, spaceId, input, source);
    var sourced := AdmitSource(s, spaceId, input, source).value;
    EpisodeKeepsInv(sourced, spaceId, input, source.id, now);
    GrowsTransitive(s, sourced, AdmitEpisode(sourced, spaceId, input, source.id, now).value.state, now, now);
  }

  // ----- entities -----

  lemma DefaultSpaceIsNotBlank(spaceId: string)
    ensures !Blank(SpaceOf(spaceId))
  {
    if Blank(spaceId) {
      assert "default"[0] == 'd' && !IsSpace('d');
    }
  }

  lemma TargetNotEmpty(s: State, d: Derivation, input: EntityInput)
    requires "" !in s.entities
    ensures EntityTarget(s, d, input) != ""
  {
  }

  lemma EntityKeys(s: State, id: string)
    requires Inv(s)
    ensures "" !in s.entities && (id in s.entities ==> s.entities[id].id == id && !Blank(s.entities[id].spaceId))
  {
    hide IdsUnique, FactLog, EntityLog, Lifecycle;
  }

  lemma UpsertFits(s: State, d: Derivation, input: EntityInput, now: int)
    requires now > 0 && UpsertEntity(s, d, input, now).Ok?
    requires var id := EntityTarget(s, d, input);
             id != "" && (id in s.entities ==> s.entities[id].id == id && !Blank(s.entities[id].spaceId))
    ensures var id := EntityTarget(s, d, input);
            var done := UpsertEntity(s, d, input, now).value;
            done.entity.id == id && done.entity.updatedAt == now && EntityFits(s, done.entity) &&
            done.state == PutEntity(s, id, done.entity, if id in s.entities then "update" else "assert")
  {
    DefaultSpaceIsNotBlank(input.spaceId);
    hide PutEntity, Blank, UpdateAllowed, AppendHistory, SnapshotEntry, DedupeTrimmed, AdmittedMetadata, SpaceOf, EntityTarget,
         IdAvailable;
  }

  lemma UpsertKeepsInv(s: State, d: Derivation, input: EntityInput, now: int)
    requires Inv(s) && now > 0 && UpsertEntity(s, d, input, now).Ok?
    ensures var done := UpsertEntity(s, d, input, now).value;
            Inv(done.state) && Grows(s, done.state, now, now)
  {
    hide Inv, Grows, UpsertEntity, EntityFits, EntityTarget, PutEntity;
    var id := EntityTarget(s, d, input);
    EntityKeys(s, id);
    TargetNotEmpty(s, d, input);
    UpsertFits(s, d, input, now);
    var entity := UpsertEntity(s, d, input, now).value.entity;
    var kind := if id in s.entities then "update" else "assert";
    PutEntityKeepsInv(s, entity, kind);
    PutEntityGrows(s, entity, kind);
  }

  // ----- facts -----

  lemma FactIsOwned(s: State, id: string)
    requires IdsUnique(s) && id in s.facts
    ensures IdAvailable(s, id, KFact)
  {
    assert Has(s, KFact, id);
  }

  lemma FactStamps(s: State, id: string)
    requires Inv(s) && id in s.facts
    ensures s.facts[id].id == id
    ensures 0 < s.facts[id].createdAt <= s.facts[id].updatedAt
    ensures s.facts[id].status == Active ==> s.facts[id].updatedAt == s.facts[id].createdAt
  {
    hide IdsUnique, Current, RevisionOk, RefsOk, EntityLog, StampsOk, PhasesOk;
    assert LifeOk(s.facts, s.facts[id]);
  }

  lemma NewFactStored(s: State, fact: Fact, kind: string)
    requires Inv(s) && FactFits(s, fact) && fact.id !in s.facts
    requires fact.status == Active && fact.createdAt == fact.updatedAt
    requires SupersededBy !in fact.metadata && Supersedes !in fact.metadata
    requires ValidFactInterval(fact.validFrom, fact.validTo)
    ensures Inv(PutFact(s, fact.id, fact, kind))
  {
    var rid := PutFactShape(s, fact, kind);
    hide PutFact, Core, FactFits, Lifecycle, IdText;
    PutFactKeepsCore(s, fact, kind);
    AssertKeepsLifecycle(s.facts, s.factRevisions, fact, rid, NewFactRevision(rid, fact, kind, fact.updatedAt));
  }

  lemma {:induction false} DistinctMembers(ids: seq<string>)
    ensures forall id :: id in Distinct(ids) <==> id in ids
  {
    if ids != [] {
      var n := |ids| - 1;
      DistinctMembers(ids[..n]);
      assert ids == ids[..n] + [ids[n]];
    }
  }

  lemma AdmittedRefs(s: State, n: nat, spaceId: string, input: FactInput, id: string, now: int)
    requires AdmitFact(s, spaceId, input).Ok?
    ensures FactRefs(s.(sequence := n), AssertedFact(id, spaceId, input, now))
  {
    hide ValidFactInput, CardinalityOf, SlotOccupants, Distinct, Trim, Blank;
    DistinctMembers(input.support);
  }

  /** The steps of an admitted assertion. */
  lemma AssertParts(s: State, spaceId: string, input: FactInput, now: int)
    requires AssertFact(s, spaceId, input, now).Ok?
    ensures var done := AssertFact(s, spaceId, input, now).value;
            var (numbered, id) := if input.id == "" then NewId(s, "fact") else (s, input.id);
            AdmitFact(s, spaceId, input).Ok? && (input.id == "" || IdAvailable(s, input.id, KFact)) &&
            id !in numbered.facts && done.fact == AssertedFact(id, spaceId, input, now) &&
            done.state == PutFact(numbered, id, done.fact, "assert")
  {
    hide AdmitFact, NewId, PutFact, IdAvailable, AssertedFact;
  }

  lemma AssertFits(s: State, spaceId: string, input: FactInput, now: int)
    requires Inv(s) && now > 0 && AssertFact(s, spaceId, input, now).Ok?
    ensures var (numbered, id) := if input.id == "" then NewId(s, "fact") else (s, input.id);
            FactFits(numbered, AssertedFact(id, spaceId, input, now))
  {
    hide NewId, PutFact, Inv, AssertFact, AdmitFact, FactRefs, Distinct, Blank;
    AssertParts(s, spaceId, input, now);
    NumberingKeepsInv(s, "fact");
    var (numbered, id) := if input.id == "" then NewId(s, "fact") else (s, input.id);
    AdmittedRefs(s, numbered.sequence, spaceId, input, id, now);
  }

  lemma AssertKeepsInv(s: State, spaceId: string, input: FactInput, now: int)
    requires Inv(s) && now > 0 && AssertFact(s, spaceId, input, now).Ok?
    ensures var done := AssertFact(s, spaceId, input, now).value;
            Inv(done.state) && Grows(s, done.state, now, now) &&
            done.fact.id !in s.facts && done.state.facts == s.facts[done.fact.id := done.fact] &&
            done.state.entities == s.entities && done.state.episodes == s.episodes &&
            done.fact == AssertedFact(done.fact.id, spaceId, input, now)
  {
    hide NewId, PutFact, Inv, AssertFact, AdmitFact, CardinalityOf, SlotOccupants, Has, Blank, Distinct, IdAvailable, FactFits, SpaceOf, Grows;
    AssertParts(s, spaceId, input, now);
    AssertedMetadata(s, spaceId, input, now);
    AssertFits(s, spaceId, input, now);
    NumberingKeepsInv(s, "fact");
    var done := AssertFact(s, spaceId, input, now).value;
    var fact := done.fact;
    var (numbered, id) := if input.id == "" then NewId(s, "fact") else (s, input.id);
    NewFactStored(numbered, fact, "assert");
    PutFactGrows(numbered, fact, "assert");
    var rid := PutFactShape(numbered, fact, "assert");
    EpisodeGrows(s, numbered, now);
    GrowsTransitive(s, numbered, done.state, now, now);
  }

  lemma RetractedStored(s: State, id: string, reason: string, now: int)
    requires Inv(s) && now > 0 && id in s.facts && s.facts[id].status != Retracted
    ensures Inv(PutFact(s, id, RetractedFact(s.facts[id], reason, now), "retract"))
  {
    hide PutFact, Lifecycle, FactLog, EntityLog, IdsUnique, IdAvailable, IdText, KeysMatch;
    var fact' := RetractedFact(s.facts[id], reason, now);
    FactStamps(s, id);
    FactIsOwned(s, id);
    assert FactFits(s, fact');
    hide FactFits, Core;
    var rid := PutFactShape(s, fact', "retract");
    PutFactKeepsCore(s, fact', "retract");
    RetractKeepsLifecycle(s.facts, s.factRevisions, id, reason, now, rid,
                          NewFactRevision(rid, fact', "retract", fact'.updatedAt));
  }

  lemma RetractKeepsInv(s: State, factId: string, reason: string, now: int)
    requires Inv(s) && now > 0 && RetractFact(s, factId, reason, now).Ok?
    ensures var t := RetractFact(s, factId, reason, now).value;
            factId in s.facts && Inv(t) && Grows(s, t, now, StrictlyAfter(now, s.facts[factId].updatedAt))
  {
    hide PutFact, Inv;
    if s.facts[factId].status != Retracted {
      FactStamps(s, factId);
      RetractedStored(s, factId, reason, now);
      var fact' := RetractedFact(s.facts[factId], reason, now);
      PutFactGrows(s, fact', "retract");
      GrowsWeaken(s, PutFact(s, factId, fact', "retract"), fact'.updatedAt, fact'.updatedAt, now, fact'.updatedAt);
    }
  }

  /** After the successor is asserted, the handover rewrites both facts and keeps the
      invariant, although the state between the two writes does not satisfy it. */
  lemma HandoverStored(s: State, id: string, input: FactInput, successor: Fact, reason: string)
    requires Inv(s) && HandoverReady(s.facts, id, input, successor)
    ensures var retired := RetiredFact(s.facts[id], input, successor, reason);
            var linked := ReplacementFact(successor, id, reason);
            var t := PutFact(PutFact(s, id, retired, "supersede"), successor.id, linked, "supersede_replacement");
            Inv(t) && Grows(s, t, successor.createdAt, successor.createdAt) &&
            t.facts == Handover(s.facts, id, input, successor, reason)
  {
    hide PutFact, Lifecycle, FactLog, EntityLog, IdsUnique, IdAvailable, IdText, KeysMatch, Grows;
    var retired := RetiredFact(s.facts[id], input, successor, reason);
    var linked := ReplacementFact(successor, id, reason);
    FactStamps(s, id);
    FactStamps(s, successor.id);
    FactIsOwned(s, id);
    FactIsOwned(s, successor.id);
    assert FactFits(s, retired);
    var r1 := PutFactShape(s, retired, "supersede");
    var mid := PutFact(s, id, retired, "supersede");
    PutFactKeepsCore(s, retired, "supersede");
    FactIsOwned(mid, successor.id);
    assert FactFits(mid, linked);
    hide FactFits, Core;
    var r2 := PutFactShape(mid, linked, "supersede_replacement");
    PutFactKeepsCore(mid, linked, "supersede_replacement");
    HandoverKeepsLifecycle(s.facts, s.factRevisions, id, input, successor, reason,
                           r1, NewFactRevision(r1, retired, "supersede", retired.updatedAt),
                           r2, NewFactRevision(r2, linked, "supersede_replacement", linked.updatedAt));
    HandoverGrows(s, id, retired, linked);
  }

  lemma HandoverGrows(s: State, id: string, retired: Fact, linked: Fact)
    requires retired.id == id && retired.updatedAt == linked.updatedAt && retired.updatedAt > 0
    ensures Grows(s, PutFact(PutFact(s, id, retired, "supersede"), linked.id, linked, "supersede_replacement"),
                  linked.updatedAt, linked.updatedAt)
  {
    hide PutFact;
    var mid := PutFact(s, id, retired, "supersede");
    PutFactGrows(s, retired, "supersede");
    PutFactGrows(mid, linked, "supersede_replacement");
    GrowsTransitive(s, mid, PutFact(mid, linked.id, linked, "supersede_replacement"), linked.updatedAt, linked.updatedAt);
  }

  /** What a supersession does to the facts: one new active fact, and the target
      retired in its favour. */
  ghost predicate SupersedeEffect(facts: map<string, Fact>, facts': map<string, Fact>, id: string, newId: string,
                                  input: FactInput, reason: string, now: int)
  {
    id in facts && newId !in facts && facts[id].status == Active &&
    var successor := AssertedFact(newId, facts[id].spaceId, Additive(input), StrictlyAfter(now, facts[id].updatedAt));
    facts' == Handover(facts[newId := successor], id, input, successor, reason)
  }

  lemma SupersedeKeepsInv(s: State, factId: string, input: FactInput, reason: string, now: int)
    requires Inv(s) && now > 0 && SupersedeFact(s, factId, input, reason, now).Ok?
    ensures var done := SupersedeFact(s, factId, input, reason, now).value;
            Inv(done.state) && Grows(s, done.state, now, StrictlyAfter(now, s.facts[factId].updatedAt)) &&
            SupersedeEffect(s.facts, done.state.facts, factId, done.newId, input, reason, now)
  {
    hide PutFact, Inv, AssertFact, Additive;
    var target := s.facts[factId];
    var at := StrictlyAfter(now, target.updatedAt);
    FactStamps(s, factId);
    StatusKnown(s, factId);
    AssertKeepsInv(s, target.spaceId, Additive(input), at);
    var done := AssertFact(s, target.spaceId, Additive(input), at).value;
    AssertedMetadata(s, target.spaceId, Additive(input), at);
    HandoverStored(done.state, factId, input, done.fact, reason);
    var final := SupersedeFact(s, factId, input, reason, now).value.state;
    GrowsTransitive(s, done.state, final, at, at);
    GrowsWeaken(s, final, at, at, now, at);
  }

  lemma StatusKnown(s: State, id: string)
    requires Inv(s) && id in s.facts
    ensures !s.facts[id].status.OtherStatus?
  {
    hide Core, StampsOk, PhasesOk, Linked;
    assert LifeOk(s.facts, s.facts[id]);
  }

  lemma AssertedMetadata(s: State, spaceId: string, input: FactInput, now: int)
    requires AssertFact(s, spaceId, input, now).Ok?
    ensures input.metadata.Keys !! RESERVED_FACT_KEYS && ValidFactInterval(input.validFrom, input.validTo)
    ensures CardinalityOf(input) == "many" ||
      SlotOccupants(s, spaceId, input.subjectId, input.predicate_, input.validFrom, input.validTo) == {}
  {
    hide PutFact, NewId, Trim, Blank, SlotOccupants, SupportOk, ValidFactInput;
  }

  // ----- batches and runs -----

  lemma {:induction false} BatchEpisodesKeepInv(b: BatchDone, d: Derivation, inputs: seq<EpisodeInput>, now: int)
    requires Inv(b.state) && BatchEpisodes(b, d, inputs, now).Ok?
    ensures var t := BatchEpisodes(b, d, inputs, now).value.state;
            Inv(t) && Grows(b.state, t, now, now)
  {
    hide Inv, Grows, IngestEpisode;
    if inputs == [] {
      GrowsReflexive(b.state, now, now);
    } else {
      var front := inputs[..|inputs| - 1];
      BatchEpisodesKeepInv(b, d, front, now);
      var mid := BatchEpisodes(b, d, front, now).value.state;
      IngestKeepsInv(mid, d, inputs[|inputs| - 1], now);
      GrowsTransitive(b.state, mid, IngestEpisode(mid, d, inputs[|inputs| - 1], now).value.state, now, now);
    }
  }

  lemma {:induction false} BatchEntitiesKeepInv(b: BatchDone, d: Derivation, inputs: seq<EntityInput>, now: int)
    requires Inv(b.state) && now > 0 && BatchEntities(b, d, inputs, now).Ok?
    ensures var t := BatchEntities(b, d, inputs, now).value.state;
            Inv(t) && Grows(b.state, t, now, now)
  {
    hide Inv, Grows, UpsertEntity, ReferenceOf;
    if inputs == [] {
      GrowsReflexive(b.state, now, now);
    } else {
      var front := inputs[..|inputs| - 1];
      BatchEntitiesKeepInv(b, d, front, now);
      var mid := BatchEntities(b, d, front, now).value.state;
      UpsertKeepsInv(mid, d, inputs[|inputs| - 1], now);
      GrowsTransitive(b.state, mid, UpsertEntity(mid, d, inputs[|inputs| - 1], now).value.state, now, now);
    }
  }

  lemma {:induction false} BatchFactsKeepInv(b: BatchDone, inputs: seq<FactInput>, now: int)
    requires Inv(b.state) && now > 0 && BatchFacts(b, inputs, now).Ok?
    ensures var t := BatchFacts(b, inputs, now).value.state;
            Inv(t) && Grows(b.state, t, now, now)
  {
    hide Inv, Grows, AssertFact, Rewritten, SpaceOf;
    if inputs == [] {
      GrowsReflexive(b.state, now, now);
    } else {
      var front := BatchFacts(b, inputs[..|inputs| - 1], now).value;
      BatchFactsKeepInv(b, inputs[..|inputs| - 1], now);
      var input := Rewritten(front.rewrites, inputs[|inputs| - 1]);
      AssertKeepsInv(front.state, SpaceOf(input.spaceId), input, now);
      GrowsTransitive(b.state, front.state, AssertFact(front.state, SpaceOf(input.spaceId), input, now).value.state, now, now);
    }
  }

  lemma GrowsReflexive(s: State, lo: int, hi: int)
    ensures Grows(s, s, lo, hi)
  {
  }

  lemma BatchKeepsInv(s: State, d: Derivation, input: BatchInput, now: int)
    requires Inv(s) && now > 0 && IngestBatch(s, d, input, now).Ok?
    ensures var t := IngestBatch(s, d, input, now).value.state;
            Inv(t) && Grows(s, t, now, now)
  {
    hide Inv, Grows, BatchEpisodes, BatchEntities, BatchFacts;
    var b0 := BatchDone(s, [], [], [], map[]);
    BatchEpisodesKeepInv(b0, d, input.episodes, now);
    var b1 := BatchEpisodes(b0, d, input.episodes, now).value;
    BatchEntitiesKeepInv(b1, d, input.entities, now);
    var b2 := BatchEntities(b1, d, input.entities, now).value;
    BatchFactsKeepInv(b2, input.facts, now);
    var b3 := BatchFacts(b2, input.facts, now).value;
    GrowsTransitive(s, b1.state, b2.state, now, now);
    GrowsTransitive(s, b2.state, b3.state, now, now);
  }

  /** The latest stamp a mutation can leave: its clock reading, or the instant right
      after the state of the fact it transitions. */
  function Reach(s: State, op: Op, now: int): int {
    match op
    case SupersedeOp(target, _, _) => if target in s.facts then StrictlyAfter(now, s.facts[target].updatedAt) else now
    case RetractOp(target, _) => if target in s.facts then StrictlyAfter(now, s.facts[target].updatedAt) else now
    case _ => now
  }

  /** One mutation of any kind, under any clock reading, keeps the invariant and only
      adds records stamped with that reading or later. */
  lemma StepKeepsInv(s: State, d: Derivation, op: Op, now: int)
    requires Inv(s) && now > 0
    ensures Inv(Step(s, d, op, now)) && Grows(s, Step(s, d, op, now), now, Reach(s, op, now))
  {
    hide Inv, Grows, IngestEpisode, IngestBatch, UpsertEntity, AssertFact, SupersedeFact, RetractFact;
    GrowsReflexive(s, now, Reach(s, op, now));
    if Mutation(s, d, op, now).Ok? {
      match op
      case IngestOp(input) => IngestKeepsInv(s, d, input, now);
      case BatchOp(input) => BatchKeepsInv(s, d, input, now);
      case UpsertOp(input) => UpsertKeepsInv(s, d, input, now);
      case AssertOp(input) => AssertKeepsInv(s, SpaceOf(input.spaceId), input, now);
      case SupersedeOp(target, input, reason) => SupersedeKeepsInv(s, target, input, reason, now);
      case RetractOp(target, reason) => RetractKeepsInv(s, target, reason, now);
    }
  }

  /** Every run from the freshly seeded database, with any clock, satisfies the
      invariant: stuck and backward clocks included. */
  lemma {:induction false} RunKeepsInv(s: State, d: Derivation, events: seq<Event>)
    requires Inv(s) && ClockOk(events)
    ensures Inv(Run(s, d, events))
  {
    hide Inv;
    if events != [] {
      var front := events[..|events| - 1];
      RunKeepsInv(s, d, front);
      StepKeepsInv(Run(s, d, front), d, events[|events| - 1].op, events[|events| - 1].now);
    }
  }
}
