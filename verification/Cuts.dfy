/** Historical cuts (pkg/yeoul/temporal.go): what a read sees of each record at an
    instant, rebuilt from the revision log. */
module Cuts {
  import opened Wrappers
  import opened Text
  import opened Identity
  import opened Records
  import opened EngineSpec
  import EntityHistory

  datatype TemporalFilter = TemporalFilter(
    asOf: Option<int>, validAt: Option<int>, observedFrom: Option<int>, observedTo: Option<int>,
    validFrom: Option<int>, validTo: Option<int>, includeInactive: bool)

  // ----- latest revisions -----

  ghost function FactLogAt(revs: map<string, FactRevision>, factId: string, at: int): map<string, int> {
    map rid | rid in revs && revs[rid].factId == factId && revs[rid].txTime <= at :: revs[rid].txTime
  }

  ghost function EntityLogAt(revs: map<string, EntityRevision>, entityId: string, at: int): map<string, int> {
    map rid | rid in revs && revs[rid].entityId == entityId && revs[rid].txTime <= at :: revs[rid].txTime
  }

  ghost function LatestFactRevision(revs: map<string, FactRevision>, factId: string, at: int): Option<FactRevision> {
    var newest := Newest(FactLogAt(revs, factId, at));
    if newest.Some? then Some(revs[newest.value]) else None
  }

  ghost function LatestEntityRevision(revs: map<string, EntityRevision>, entityId: string, at: int): Option<EntityRevision> {
    var newest := Newest(EntityLogAt(revs, entityId, at));
    if newest.Some? then Some(revs[newest.value]) else None
  }

  // ----- versions -----

  predicate FactVisibleAt(fact: Fact, filter: TemporalFilter) {
    var observed := ChooseTime(fact.observedAt, fact.createdAt);
    (filter.asOf.Some? ==> fact.createdAt <= filter.asOf.value) &&
    (filter.includeInactive || fact.status == Active) &&
    (filter.observedFrom.Some? ==> observed >= filter.observedFrom.value) &&
    (filter.observedTo.Some? ==> observed <= filter.observedTo.value) &&
    (filter.validAt.Some? ==> FactDomainValidAt(fact.validFrom, fact.validTo, filter.validAt.value)) &&
    FactDomainOverlaps(fact, filter.validFrom, filter.validTo)
  }

  /** factVersionAt */
  ghost function FactVersionAt(revs: map<string, FactRevision>, fact: Fact, filter: TemporalFilter): Option<Fact> {
    if filter.asOf.None? then
      if FactVisibleAt(fact, filter) then Some(fact) else None
    else
      var latest := LatestFactRevision(revs, fact.id, filter.asOf.value);
      if latest.None? then
        if fact.updatedAt <= filter.asOf.value && FactVisibleAt(fact, filter) then Some(fact) else None
      else
        var record := ToFact(latest.value);
        if FactVisibleAt(record, filter) then Some(record) else None
  }

  /** entityVersionAt. An entity that existed at the instant without a revision comes from
      before the revision log, and is rebuilt from its `_history`. */
  ghost function EntityVersionAt(revs: map<string, EntityRevision>, entity: Entity, filter: TemporalFilter): Option<Entity> {
    if filter.asOf.None? then Some(entity)
    else
      var latest := LatestEntityRevision(revs, entity.id, filter.asOf.value);
      if latest.Some? then Some(ToEntity(latest.value))
      else if entity.createdAt > filter.asOf.value then None
      else if entity.updatedAt <= filter.asOf.value then Some(entity)
      else EntityHistory.RebuiltAt(entity, filter.asOf.value)
  }

  predicate EpisodeVisibleAt(episode: Episode, filter: TemporalFilter) {
    var observed := ChooseTime(episode.observedAt, episode.ingestedAt);
    (filter.asOf.Some? ==> episode.ingestedAt <= filter.asOf.value) &&
    (filter.observedFrom.Some? ==> observed >= filter.observedFrom.value) &&
    (filter.observedTo.Some? ==> observed <= filter.observedTo.value)
  }

  predicate SourceVisibleAt(source: Source, filter: TemporalFilter) {
    filter.asOf.Some? ==> source.createdAt <= filter.asOf.value
  }

  // ----- cuts -----

  datatype SourcedEpisode = SourcedEpisode(episode: Episode, source: Option<Source>)

  /** Everything a read can observe: the visible version of each record, and for each
      visible episode the source it names. */
  datatype Cut = Cut(
    sources: map<string, Source>,
    episodes: map<string, SourcedEpisode>,
    entities: map<string, Entity>,
    facts: map<string, Fact>)

  ghost function SourcesAt(s: State, filter: TemporalFilter): map<string, Source> {
    map id | id in s.sources && SourceVisibleAt(s.sources[id], filter) :: s.sources[id]
  }

  ghost function EpisodesAt(s: State, filter: TemporalFilter): map<string, SourcedEpisode> {
    map id | id in s.episodes && EpisodeVisibleAt(s.episodes[id], filter) ::
      SourcedEpisode(
        s.episodes[id],
        if s.episodes[id].sourceId in s.sources then Some(s.sources[s.episodes[id].sourceId]) else None)
  }

  ghost function EntitiesAt(s: State, filter: TemporalFilter): map<string, Entity> {
    map id | id in s.entities && EntityVersionAt(s.entityRevisions, s.entities[id], filter).Some? ::
      EntityVersionAt(s.entityRevisions, s.entities[id], filter).value
  }

  ghost function FactsAt(s: State, filter: TemporalFilter): map<string, Fact> {
    map id | id in s.facts && FactVersionAt(s.factRevisions, s.facts[id], filter).Some? ::
      FactVersionAt(s.factRevisions, s.facts[id], filter).value
  }

  ghost function CutAt(s: State, filter: TemporalFilter): Cut {
    Cut(SourcesAt(s, filter), EpisodesAt(s, filter), EntitiesAt(s, filter), FactsAt(s, filter))
  }
}
