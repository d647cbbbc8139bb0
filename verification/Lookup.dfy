/** LookupFacts (pkg/yeoul/graph.go): the scan over all facts and the fast path over
    endpoint edges, both proved to return the page the specification fixes. */
module Lookup {
  import opened Wrappers
  import opened Text
  import opened Sorting
  import opened Records
  import opened EngineSpec
  import opened Invariants
  import opened Cuts
  import opened LookupSpec
  import opened Redirects
  import EntityHistory
  import TemporalIndex
  import Lattice
  import TimeTravel

  type Index = TemporalIndex.TemporalIndex

  const MAX_CANDIDATE_IDS := 8

  /** The index answers from the logs of this state. */
  ghost predicate Serves(index: Index, s: State)
    reads index
  {
    index.Valid() && index.factLog == s.factRevisions && index.entityLog == s.entityRevisions
  }

  // ----- versions -----

  /** factVersionAt */
  method FactVersion(s: State, fact: Fact, filter: TemporalFilter, index: Index) returns (r: Option<Fact>)
    requires Serves(index, s)
    modifies index
    ensures Serves(index, s) && r == FactVersionAt(s.factRevisions, fact, filter)
  {
    hide FactVisibleAt, LatestFactRevision;
    if filter.asOf.None? {
      return if FactVisibleAt(fact, filter) then Some(fact) else None;
    }
    var latest := index.LatestFactRevisionAt(fact.id, filter.asOf.value);
    if latest.None? {
      return if fact.updatedAt <= filter.asOf.value && FactVisibleAt(fact, filter) then Some(fact) else None;
    }
    var record := ToFact(latest.value);
    return if FactVisibleAt(record, filter) then Some(record) else None;
  }

  /** entityVersionAt */
  method EntityVersion(s: State, entity: Entity, filter: TemporalFilter, index: Index) returns (r: Option<Entity>)
    requires Serves(index, s)
    modifies index
    ensures Serves(index, s) && r == EntityVersionAt(s.entityRevisions, entity, filter)
  {
    hide LatestEntityRevision, EntityHistory.RebuiltAt;
    if filter.asOf.None? {
      return Some(entity);
    }
    var latest := index.LatestEntityRevisionAt(entity.id, filter.asOf.value);
    if latest.Some? {
      return Some(ToEntity(latest.value));
    }
    if entity.createdAt > filter.asOf.value {
      return None;
    }
    if entity.updatedAt <= filter.asOf.value {
      return Some(entity);
    }
    r := EntityHistory.Rebuild(entity, filter.asOf.value);
  }

  /** The version of an entity a read sees, looked up by ID. */
  method VisibleEntity(s: State, id: string, filter: TemporalFilter, index: Index) returns (r: Option<Entity>)
    requires Serves(index, s)
    modifies index
    ensures Serves(index, s) && r == TemporalIndex.Lookup(EntitiesAt(s, filter), id)
  {
    hide EntityVersionAt;
    if id !in s.entities {
      return None;
    }
    r := EntityVersion(s, s.entities[id], filter, index);
  }

  // ----- redirects -----

  /** canonicalEntityIDAtLocked */
  method CanonicalAt(s: State, id: string, filter: TemporalFilter, index: Index) returns (r: string)
    requires Serves(index, s)
    modifies index
    ensures Serves(index, s) && r == Canonical(EntitiesAt(s, filter), id)
  {
    hide EntitiesAt, Blank, SpaceOf;
    if Blank(id) {
      return id;
    }
    ghost var entities := EntitiesAt(s, filter);
    var current, visited := id, {id};
    for hop := 0 to MAX_HOPS
      invariant Serves(index, s)
      invariant Canonical(entities, id) == CanonicalFrom(entities, id, current, visited, MAX_HOPS - hop)
    {
      var entity := VisibleEntity(s, current, filter, index);
      if entity.None? {
        return id;
      }
      if !Marked(entity.value) {
        return current;
      }
      var marker := entity.value.metadata[DuplicateOf];
      if !marker.Text? || Blank(marker.text) || marker.text == current {
        return id;
      }
      var next := marker.text;
      var target := VisibleEntity(s, next, filter, index);
      if target.None? || SpaceOf(target.value.spaceId) != SpaceOf(entity.value.spaceId) {
        return id;
      }
      if next in visited {
        return id;
      }
      visited := visited + {next};
      current := next;
    }
    return id;
  }

  /** canonicalEntityIDsAtLocked */
  method CanonicalIds(s: State, ids: seq<string>, filter: TemporalFilter, index: Index) returns (out: seq<string>)
    requires Serves(index, s)
    modifies index
    ensures Serves(index, s) && |out| == |ids|
    ensures forall i :: 0 <= i < |ids| ==> out[i] == Canonical(EntitiesAt(s, filter), ids[i])
  {
    hide Canonical, EntitiesAt;
    out := [];
    for i := 0 to |ids|
      invariant Serves(index, s) && |out| == i
      invariant forall j :: 0 <= j < i ==> out[j] == Canonical(EntitiesAt(s, filter), ids[j])
    {
      var c := CanonicalAt(s, ids[i], filter, index);
      out := out + [c];
    }
  }

  // ----- scope -----

  method TypeMatches(s: State, id: string, types: seq<string>, filter: TemporalFilter, index: Index) returns (r: bool)
    requires Serves(index, s)
    modifies index
    ensures Serves(index, s) && r == TypeIn(CutAt(s, filter), id, types)
  {
    hide EntitiesAt;
    var entity := VisibleEntity(s, id, filter, index);
    return entity.Some? && entity.value.typ in types;
  }

  /** The supporting episodes are tried in order until one is in scope. */
  method SupportInScope(s: State, support: seq<string>, scope: ScopeFilter, filter: TemporalFilter) returns (r: bool)
    ensures r <==> exists id ::
      id in support && id in EpisodesAt(s, filter) && EpisodeInScope(EpisodesAt(s, filter)[id], scope)
  {
    hide EpisodeVisibleAt, EpisodeInScope;
    ghost var visible := EpisodesAt(s, filter);
    for i := 0 to |support|
      invariant forall id :: id in support[..i] && id in visible ==> !EpisodeInScope(visible[id], scope)
    {
      if support[i] in s.episodes && EpisodeVisibleAt(s.episodes[support[i]], filter) {
        var episode := s.episodes[support[i]];
        var source := if episode.sourceId in s.sources then Some(s.sources[episode.sourceId]) else None;
        assert visible[support[i]] == SourcedEpisode(episode, source);
        if EpisodeInScope(SourcedEpisode(episode, source), scope) {
          return true;
        }
      }
    }
    assert support[..|support|] == support;
    return false;
  }

  /** matchesScopeForFact */
  method MatchesScope(s: State, fact: Fact, scope: ScopeFilter, filter: TemporalFilter, index: Index) returns (r: bool)
    requires Serves(index, s)
    modifies index
    ensures Serves(index, s) && r == InScope(CutAt(s, filter), fact, scope)
  {
    hide TypeIn, EpisodeInScope, EpisodesAt, FactsAt, EntitiesAt, SourcesAt;
    if scope.factStatus != [] && fact.status !in scope.factStatus {
      return false;
    }
    if scope.entityTypes != [] {
      var subject := TypeMatches(s, fact.subjectId, scope.entityTypes, filter, index);
      var object_ := TypeMatches(s, fact.objectId, scope.entityTypes, filter, index);
      if !subject && !object_ {
        return false;
      }
    }
    if scope.groupIds == [] && scope.sourceIds == [] && scope.sourceKinds == [] {
      return true;
    }
    r := SupportInScope(s, fact.support, scope, filter);
  }

  // ----- visiting one fact -----

  ghost predicate AnchorsOf(entities: map<string, Entity>, ids: seq<string>, anchors: seq<string>) {
    |anchors| == |ids| && forall i :: 0 <= i < |ids| ==> anchors[i] == Canonical(entities, ids[i])
  }

  lemma AnchorsAnswer(entities: map<string, Entity>, ids: seq<string>, anchors: seq<string>, endpoint: string)
    requires AnchorsOf(entities, ids, anchors)
    ensures Anchored(entities, ids, endpoint) <==> anchors == [] || Canonical(entities, endpoint) in anchors
  {
    hide Canonical;
  }

  method EndpointMatches(s: State, ghost ids: seq<string>, anchors: seq<string>, endpoint: string,
                         filter: TemporalFilter, index: Index)
    returns (r: bool)
    requires Serves(index, s) && AnchorsOf(EntitiesAt(s, filter), ids, anchors)
    modifies index
    ensures Serves(index, s) && r == Anchored(EntitiesAt(s, filter), ids, endpoint)
  {
    hide EntitiesAt, Canonical, AnchorsOf, Anchored;
    AnchorsAnswer(EntitiesAt(s, filter), ids, anchors, endpoint);
    if anchors == [] {
      return true;
    }
    var c := CanonicalAt(s, endpoint, filter, index);
    return c in anchors;
  }

  /** What a visit finds: the visible version of a fact, if the request selects it. */
  ghost predicate Found(s: State, req: FactLookupRequest, fact: Fact, r: Option<Fact>) {
    var version := FactVersionAt(s.factRevisions, fact, req.temporal);
    r == if version.Some? && Selected(CutAt(s, req.temporal), req, version.value) then version else None
  }

  method Visit(s: State, req: FactLookupRequest, subjectAnchors: seq<string>, objectAnchors: seq<string>,
               fact: Fact, index: Index)
    returns (r: Option<Fact>)
    requires Serves(index, s)
    requires AnchorsOf(EntitiesAt(s, req.temporal), req.subjectIds, subjectAnchors)
    requires AnchorsOf(EntitiesAt(s, req.temporal), req.objectIds, objectAnchors)
    modifies index
    ensures Serves(index, s) && Found(s, req, fact, r)
  {
    hide InScope, Anchored, AnchorsOf, FactVersionAt, EntitiesAt, FactsAt, EpisodesAt, SourcesAt, SpaceOf;
    var record := FactVersion(s, fact, req.temporal, index);
    if record.None? || record.value.spaceId != SpaceOf(req.spaceId) {
      return None;
    }
    var scoped := MatchesScope(s, record.value, req.scope, req.temporal, index);
    if !scoped {
      return None;
    }
    var subject := EndpointMatches(s, req.subjectIds, subjectAnchors, record.value.subjectId, req.temporal, index);
    if !subject || (req.predicates != [] && record.value.predicate_ !in req.predicates) {
      return None;
    }
    var object_ := EndpointMatches(s, req.objectIds, objectAnchors, record.value.objectId, req.temporal, index);
    if !object_ || (req.objectText != "" && !req.valueMatches(record.value.valueText)) {
      return None;
    }
    return record;
  }

  // ----- candidates from edges -----

  /** No selected fact is missing from the candidates. */
  ghost predicate Covers(s: State, req: FactLookupRequest, ids: set<string>) {
    req.temporal.asOf.None? &&
    forall id ::
      id in s.facts && Anchored(s.entities, req.subjectIds, s.facts[id].subjectId) &&
      Anchored(s.entities, req.objectIds, s.facts[id].objectId)
      ==> id in ids
  }

  lemma LiveEntities(s: State, filter: TemporalFilter)
    requires filter.asOf.None?
    ensures EntitiesAt(s, filter) == s.entities
  {
  }

  /** The entities that resolve to one of the anchors. */
  ghost predicate Expanded(entities: map<string, Entity>, anchors: seq<string>, ids: seq<string>) {
    forall id :: id in entities && Canonical(entities, id) in anchors ==> id in ids
  }

  /** Expand anchors over merge redirects, or give up when an anchor is unknown. */
  method ExpandAnchors(s: State, anchors: seq<string>, filter: TemporalFilter, index: Index)
    returns (canceled: bool, r: Option<seq<string>>)
    requires Serves(index, s) && filter.asOf.None?
    modifies index
    ensures Serves(index, s)
    ensures r.Some? && anchors != [] ==> Expanded(s.entities, anchors, r.value)
    ensures r.Some? && anchors == [] ==> r.value == []
    ensures r.Some? ==> forall i :: 0 <= i < |anchors| ==> anchors[i] in s.entities
  {
    hide Canonical;
    LiveEntities(s, filter);
    if anchors == [] {
      return false, Some([]);
    }
    var ids: seq<string> := [];
    var todo := s.entities.Keys;
    while todo != {}
      invariant Serves(index, s) && todo <= s.entities.Keys
      invariant forall id :: id in s.entities.Keys - todo && Canonical(s.entities, id) in anchors ==> id in ids
      decreases |todo|
    {
      canceled := *;
      if canceled {
        return true, None;
      }
      var id :| id in todo;
      todo := todo - {id};
      var c := CanonicalAt(s, id, filter, index);
      if c in anchors {
        ids := ids + [id];
      }
    }
    if exists i :: 0 <= i < |anchors| && anchors[i] !in s.entities {
      return false, None;
    }
    return false, if ids != [] then Some(ids) else None;
  }

  lemma ExpansionFinds(s: State, ids: seq<string>, anchors: seq<string>, expanded: seq<string>, endpoint: string)
    requires AnchorsOf(s.entities, ids, anchors) && anchors != [] && Expanded(s.entities, anchors, expanded)
    requires endpoint in s.entities && Anchored(s.entities, ids, endpoint)
    ensures endpoint in expanded
  {
    hide Canonical;
    AnchorsAnswer(s.entities, ids, anchors, endpoint);
  }

  /** An endpoint that resolves to a stored anchor is itself stored. */
  lemma AnchoredIsStored(entities: map<string, Entity>, ids: seq<string>, anchors: seq<string>, endpoint: string)
    requires AnchorsOf(entities, ids, anchors) && anchors != [] && Anchored(entities, ids, endpoint)
    requires forall i :: 0 <= i < |anchors| ==> anchors[i] in entities
    ensures endpoint in entities
  {
    AnchorsAnswer(entities, ids, anchors, endpoint);
    hide Blank, AnchorsOf, Anchored;
    UnknownStays(entities, endpoint);
  }

  lemma UnknownStays(entities: map<string, Entity>, id: string)
    ensures id !in entities ==> Canonical(entities, id) == id
  {
    hide Blank;
  }

  /** An anchored fact names an expanded entity: by its subject when the request
      anchors subjects, and otherwise by its object. */
  lemma AnchoredFactsAreCandidates(s: State, req: FactLookupRequest, subjectAnchors: seq<string>, objectAnchors: seq<string>,
                                   subjectIds: seq<string>, objectIds: seq<string>, id: string)
    requires "" !in s.entities && id != "" && id in s.facts
    requires AnchorsOf(s.entities, req.subjectIds, subjectAnchors) && AnchorsOf(s.entities, req.objectIds, objectAnchors)
    requires forall i :: 0 <= i < |subjectAnchors| ==> subjectAnchors[i] in s.entities
    requires forall i :: 0 <= i < |objectAnchors| ==> objectAnchors[i] in s.entities
    requires subjectAnchors != [] ==> Expanded(s.entities, subjectAnchors, subjectIds)
    requires subjectAnchors != [] || (objectAnchors != [] && Expanded(s.entities, objectAnchors, objectIds))
    requires Anchored(s.entities, req.subjectIds, s.facts[id].subjectId)
    requires Anchored(s.entities, req.objectIds, s.facts[id].objectId)
    ensures Lattice.NamesEndpoint(s, subjectIds, objectIds, id)
  {
    hide Canonical, AnchorsOf, Anchored, Expanded;
    if subjectAnchors != [] {
      AnchoredIsStored(s.entities, req.subjectIds, subjectAnchors, s.facts[id].subjectId);
      ExpansionFinds(s, req.subjectIds, subjectAnchors, subjectIds, s.facts[id].subjectId);
    } else {
      AnchoredIsStored(s.entities, req.objectIds, objectAnchors, s.facts[id].objectId);
      ExpansionFinds(s, req.objectIds, objectAnchors, objectIds, s.facts[id].objectId);
    }
  }

  datatype Candidates = Listed(ids: set<string>) | ScanAll | Stopped | Broken

  /** lookupFactCandidates: every condition that is not met falls back to the scan. */
  method LookupCandidates(s: State, lattice: Lattice.LatticeStore?, req: FactLookupRequest,
                          subjectAnchors: seq<string>, objectAnchors: seq<string>, index: Index)
    returns (r: Candidates)
    requires Serves(index, s) && StoreAgrees(lattice, s)
    requires AnchorsOf(EntitiesAt(s, req.temporal), req.subjectIds, subjectAnchors)
    requires AnchorsOf(EntitiesAt(s, req.temporal), req.objectIds, objectAnchors)
    modifies index
    ensures Serves(index, s)
    ensures r.Listed? ==> Covers(s, req, r.ids)
    ensures r.Broken? ==> lattice != null
  {
    hide EntitiesAt, Anchored, Canonical, AnchorsOf, Expanded;
    if req.temporal.asOf.Some? || (subjectAnchors == [] && objectAnchors == []) {
      return ScanAll;
    }
    if |req.subjectIds| + |req.objectIds| > MAX_CANDIDATE_IDS || lattice == null || !lattice.ready {
      return ScanAll;
    }
    LiveEntities(s, req.temporal);
    var stopped, subjectIds := ExpandAnchors(s, subjectAnchors, req.temporal, index);
    if stopped {
      return Stopped;
    }
    var objectIds;
    stopped, objectIds := ExpandAnchors(s, objectAnchors, req.temporal, index);
    if stopped {
      return Stopped;
    }
    if subjectIds.None? || objectIds.None? || |subjectIds.value| + |objectIds.value| > MAX_CANDIDATE_IDS {
      return ScanAll;
    }
    var found := lattice.FactCandidates(subjectIds.value, objectIds.value);
    match found
    case Unavailable =>
      return ScanAll;
    case Canceled =>
      return Stopped;
    case Failed =>
      return Broken;
    case Found(ids) =>
      EdgesCover(s, req, subjectAnchors, objectAnchors, subjectIds.value, objectIds.value, ids, lattice.lastState);
      return Listed(set id | id in ids);
  }

  lemma EdgesCover(s: State, req: FactLookupRequest, subjectAnchors: seq<string>, objectAnchors: seq<string>,
                   subjectIds: seq<string>, objectIds: seq<string>, ids: seq<string>, stored: State)
    requires "" !in s.entities && "" !in s.facts && req.temporal.asOf.None? && stored.facts == s.facts
    requires AnchorsOf(s.entities, req.subjectIds, subjectAnchors) && AnchorsOf(s.entities, req.objectIds, objectAnchors)
    requires subjectAnchors != [] || objectAnchors != []
    requires subjectAnchors != [] ==> Expanded(s.entities, subjectAnchors, subjectIds)
    requires objectAnchors != [] ==> Expanded(s.entities, objectAnchors, objectIds)
    requires forall i :: 0 <= i < |subjectAnchors| ==> subjectAnchors[i] in s.entities
    requires forall i :: 0 <= i < |objectAnchors| ==> objectAnchors[i] in s.entities
    requires forall id :: id in ids <==> Lattice.NamesEndpoint(stored, subjectIds, objectIds, id)
    ensures Covers(s, req, set id | id in ids)
  {
    hide Canonical, AnchorsOf, Anchored, Expanded;
    forall id | id in s.facts && Anchored(s.entities, req.subjectIds, s.facts[id].subjectId) &&
                Anchored(s.entities, req.objectIds, s.facts[id].objectId)
      ensures id in ids
    {
      AnchoredFactsAreCandidates(s, req, subjectAnchors, objectAnchors, subjectIds, objectIds, id);
      assert Lattice.NamesEndpoint(stored, subjectIds, objectIds, id);
    }
  }

  // ----- the lookup -----

  /** The store, when there is one, holds the entities and facts the engine serves. */
  ghost predicate StoreAgrees(lattice: Lattice.LatticeStore?, s: State)
    reads lattice, if lattice == null then {} else {lattice.db}
  {
    lattice != null ==>
      lattice.Valid() && lattice.Sound() && lattice.loaded &&
      lattice.lastState.facts == s.facts && lattice.lastState.entities == s.entities
  }

  /** The matching facts among the visited ones, each once. */
  ghost predicate Gathered(cut: Cut, req: FactLookupRequest, visited: set<string>, facts: seq<Fact>) {
    (forall f :: f in facts <==> f.id in visited && f.id in cut.facts && cut.facts[f.id] == f && Selected(cut, req, f)) &&
    (forall i, j :: 0 <= i < j < |facts| ==> facts[i].id != facts[j].id)
  }

  lemma GatherOne(cut: Cut, req: FactLookupRequest, visited: set<string>, facts: seq<Fact>, id: string, r: Option<Fact>)
    requires Gathered(cut, req, visited, facts) && id !in visited
    requires r == if id in cut.facts && Selected(cut, req, cut.facts[id]) then Some(cut.facts[id]) else None
    requires id in cut.facts ==> cut.facts[id].id == id
    ensures Gathered(cut, req, visited + {id}, if r.Some? then facts + [r.value] else facts)
  {
    hide Selected;
    if r.Some? {
      forall i | 0 <= i < |facts|
        ensures facts[i].id != id
      {
        assert facts[i] in facts;
      }
    }
  }

  /** Visible versions keep their fact's ID. */
  lemma VersionInCut(s: State, filter: TemporalFilter, id: string)
    requires KeysMatch(s) && id in s.facts
    ensures var version := FactVersionAt(s.factRevisions, s.facts[id], filter);
            (id in FactsAt(s, filter) <==> version.Some?) &&
            (version.Some? ==> FactsAt(s, filter)[id] == version.value && version.value.id == id)
  {
    hide FactVisibleAt;
    if filter.asOf.Some? {
      NewestIsOwned(s.factRevisions, id, filter.asOf.value);
    }
  }

  lemma NewestIsOwned(revs: map<string, FactRevision>, id: string, at: int)
    ensures var latest := LatestFactRevision(revs, id, at);
            latest.Some? ==> latest.value.factId == id
  {
    hide Less;
  }

  lemma FoundIsInCut(s: State, req: FactLookupRequest, id: string, r: Option<Fact>)
    requires KeysMatch(s) && id in s.facts && Found(s, req, s.facts[id], r)
    ensures var cut := CutAt(s, req.temporal);
            r == if id in cut.facts && Selected(cut, req, cut.facts[id]) then Some(cut.facts[id]) else None
    ensures id in CutAt(s, req.temporal).facts ==> CutAt(s, req.temporal).facts[id].id == id
  {
    hide FactVersionAt, EntitiesAt, FactsAt, SourcesAt, EpisodesAt, Selected, KeysMatch;
    VersionInCut(s, req.temporal, id);
  }

  method VisitAll(s: State, req: FactLookupRequest, subjectAnchors: seq<string>, objectAnchors: seq<string>,
                  ids: set<string>, index: Index)
    returns (canceled: bool, facts: seq<Fact>)
    requires KeysMatch(s) && Serves(index, s) && ids <= s.facts.Keys
    requires AnchorsOf(EntitiesAt(s, req.temporal), req.subjectIds, subjectAnchors)
    requires AnchorsOf(EntitiesAt(s, req.temporal), req.objectIds, objectAnchors)
    modifies index
    ensures Serves(index, s)
    ensures !canceled ==> Gathered(CutAt(s, req.temporal), req, ids, facts)
  {
    hide KeysMatch, AnchorsOf, EntitiesAt, Found, Gathered, CutAt, Selected;
    ghost var cut := CutAt(s, req.temporal);
    facts := [];
    assert Gathered(cut, req, {}, facts) by {
      NothingGathered(cut, req);
    }
    var todo := ids;
    ghost var visited := {};
    while todo != {}
      invariant todo <= ids && visited == ids - todo && Serves(index, s) && Gathered(cut, req, visited, facts)
      decreases |todo|
    {
      canceled := *;
      if canceled {
        return true, [];
      }
      var id :| id in todo;
      todo := todo - {id};
      var r := Visit(s, req, subjectAnchors, objectAnchors, s.facts[id], index);
      FoundIsInCut(s, req, id, r);
      GatherOne(cut, req, visited, facts, id, r);
      visited := visited + {id};
      facts := if r.Some? then facts + [r.value] else facts;
    }
    assert visited == ids;
    canceled := false;
  }

  lemma NothingGathered(cut: Cut, req: FactLookupRequest)
    ensures Gathered(cut, req, {}, [])
  {
  }

  lemma MatchesAreVisited(s: State, req: FactLookupRequest, visited: set<string>, f: Fact)
    requires KeysMatch(s) && f in Matching(CutAt(s, req.temporal), req)
    requires s.facts.Keys <= visited || Covers(s, req, visited)
    ensures f.id in visited && f.id in FactsAt(s, req.temporal) && FactsAt(s, req.temporal)[f.id] == f
    ensures Selected(CutAt(s, req.temporal), req, f)
  {
    hide InScope, Anchored, EntitiesAt, EpisodesAt, SourcesAt, FactVersionAt, KeysMatch;
    var cut := CutAt(s, req.temporal);
    var id :| id in cut.facts && Selected(cut, req, cut.facts[id]) && f == cut.facts[id];
    VersionInCut(s, req.temporal, id);
    if Covers(s, req, visited) {
      LiveEntities(s, req.temporal);
      LiveVersion(s, req.temporal, id);
    }
  }

  lemma LiveVersion(s: State, filter: TemporalFilter, id: string)
    requires id in s.facts && filter.asOf.None? && FactVersionAt(s.factRevisions, s.facts[id], filter).Some?
    ensures FactVersionAt(s.factRevisions, s.facts[id], filter) == Some(s.facts[id])
  {
  }

  /** Sorting what a covering visit gathered gives the answer. */
  lemma GatheredIsAnswer(s: State, req: FactLookupRequest, visited: set<string>, facts: seq<Fact>)
    requires KeysMatch(s) && (s.facts.Keys <= visited || Covers(s, req, visited))
    requires Gathered(CutAt(s, req.temporal), req, visited, facts)
    ensures IsAnswer(CutAt(s, req.temporal), req, Sort(facts, FactBefore))
  {
    var cut := CutAt(s, req.temporal);
    forall f
      ensures f in facts <==> f in Matching(cut, req)
    {
      hide Selected, KeysMatch, Covers, EntitiesAt, FactsAt, SourcesAt, EpisodesAt;
      if f in Matching(cut, req) {
        MatchesAreVisited(s, req, visited, f);
      }
    }
    hide Selected, CutAt, KeysMatch, Covers, Matching;
    FactBeforeIsStrict();
    forall i, j | 0 <= i < j < |facts|
      ensures FactBefore(facts[i], facts[j]) || FactBefore(facts[j], facts[i])
    {
      LessTotal(facts[i].id, facts[j].id);
    }
    SortSorts(facts, FactBefore);
  }

  lemma VisitingPastTheStore(s: State, req: FactLookupRequest, ids: set<string>)
    requires Covers(s, req, ids)
    ensures Covers(s, req, ids * s.facts.Keys)
  {
    hide Anchored;
  }

  /** LookupFacts. With or without a store, through edges or by scanning, the page is
      the one the specification fixes: the fast path loses and adds nothing. */
  method LookupFacts(s: State, poisoned: bool, lattice: Lattice.LatticeStore?, req: FactLookupRequest, cursor: string, limit: int)
    returns (r: Result<(seq<Fact>, string)>)
    requires Keyed(s) && StoreAgrees(lattice, s)
    ensures r.Ok? ==> IsPage(CutAt(s, req.temporal), req, cursor, limit, r.value.0, r.value.1)
    ensures poisoned || DecodeCursor(cursor).Err? ==> r.Err?
    ensures r.Err? ==>
      r.error == Error.Canceled || (r.error == StorageFailed && (poisoned || lattice != null)) ||
      (r.error == InputInvalid && DecodeCursor(cursor).Err?)
  {
    hide CutAt, Gathered, Covers, EntitiesAt, IsAnswer, DecodeCursor, Paginate, AnchorsOf, KeysMatch;
    var canceled: bool := *;
    if canceled {
      return Err(Error.Canceled);
    }
    var offset := DecodeCursor(cursor);
    if offset.Err? {
      CursorErrors(cursor);
      return Err(offset.error);
    }
    if poisoned {
      return Err(StorageFailed);
    }
    var index := new TemporalIndex.TemporalIndex(s);
    var subjectAnchors := CanonicalIds(s, req.subjectIds, req.temporal, index);
    var objectAnchors := CanonicalIds(s, req.objectIds, req.temporal, index);
    AnchorsFound(EntitiesAt(s, req.temporal), req.subjectIds, subjectAnchors);
    AnchorsFound(EntitiesAt(s, req.temporal), req.objectIds, objectAnchors);
    var candidates := LookupCandidates(s, lattice, req, subjectAnchors, objectAnchors, index);
    if candidates.Stopped? {
      return Err(Error.Canceled);
    }
    if candidates.Broken? {
      return Err(StorageFailed);
    }
    var ids := s.facts.Keys;
    if candidates.Listed? {
      VisitingPastTheStore(s, req, candidates.ids);
      ids := candidates.ids * s.facts.Keys;
    }
    var facts;
    canceled, facts := VisitAll(s, req, subjectAnchors, objectAnchors, ids, index);
    if canceled {
      return Err(Error.Canceled);
    }
    GatheredIsAnswer(s, req, ids, facts);
    var answer := Sort(facts, FactBefore);
    assert CutsPage(answer, cursor, limit, Paginate(answer, offset.value, limit).0, Paginate(answer, offset.value, limit).1);
    return Ok(Paginate(answer, offset.value, limit));
  }

  lemma CursorErrors(cursor: string)
    requires DecodeCursor(cursor).Err?
    ensures DecodeCursor(cursor).error == InputInvalid
  {
    hide Atoi;
  }

  lemma AnchorsFound(entities: map<string, Entity>, ids: seq<string>, anchors: seq<string>)
    requires |anchors| == |ids| && forall i :: 0 <= i < |ids| ==> anchors[i] == Canonical(entities, ids[i])
    ensures AnchorsOf(entities, ids, anchors)
  {
    hide Canonical;
  }
}
