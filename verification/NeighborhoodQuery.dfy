/** The neighbourhood query on a database: the graph of the records a read can see,
    with endpoints resolved through merge redirects, and the search over it. */
module NeighborhoodQuery {
  import opened Wrappers
  import opened Text
  import opened Records
  import opened EngineSpec
  import opened Invariants
  import opened Cuts
  import opened LookupSpec
  import opened Redirects
  import opened Encoding
  import opened Neighborhood
  import TemporalIndex
  import Lookup
  import opened Timeline

  type Index = TemporalIndex.TemporalIndex

  datatype NeighborhoodRequest = NeighborhoodRequest(
    spaceId: string, anchorIds: seq<string>, edgeTypes: seq<string>, nodeTypes: seq<string>,
    maxHops: int, maxNodes: int, scope: ScopeFilter, temporal: TemporalFilter)

  // ----- the graph of a cut -----

  predicate EpisodeIn(cut: Cut, req: NeighborhoodRequest, id: string) {
    id in cut.episodes && cut.episodes[id].episode.spaceId == SpaceOf(req.spaceId) && EpisodeInScope(cut.episodes[id], req.scope)
  }

  predicate FactIn(cut: Cut, req: NeighborhoodRequest, id: string) {
    id in cut.facts && cut.facts[id].spaceId == SpaceOf(req.spaceId) && InScope(cut, cut.facts[id], req.scope)
  }

  function EntityNodes(cut: Cut, req: NeighborhoodRequest): Nodes {
    map id | id in cut.entities && cut.entities[id].spaceId == SpaceOf(req.spaceId) ::
      GraphNode(id, "Entity", cut.entities[id].canonicalName)
  }

  function SourceNodes(cut: Cut, req: NeighborhoodRequest): Nodes {
    map id | id in cut.sources && cut.sources[id].spaceId == SpaceOf(req.spaceId) :: GraphNode(id, "Source", cut.sources[id].kind)
  }

  function EpisodeNodes(cut: Cut, req: NeighborhoodRequest): Nodes {
    map id | id in cut.episodes && EpisodeIn(cut, req, id) :: GraphNode(id, "Episode", cut.episodes[id].episode.kind)
  }

  function FactNodes(cut: Cut, req: NeighborhoodRequest): Nodes {
    map id | id in cut.facts && FactIn(cut, req, id) :: GraphNode(id, "Fact", cut.facts[id].predicate_)
  }

  function BaseNodes(cut: Cut, req: NeighborhoodRequest): Nodes {
    EntityNodes(cut, req) + SourceNodes(cut, req)
  }

  function AllNodes(cut: Cut, req: NeighborhoodRequest): Nodes {
    BaseNodes(cut, req) + EpisodeNodes(cut, req) + FactNodes(cut, req)
  }

  predicate EdgeOfEpisode(episode: Episode, e: GraphEdge) {
    episode.sourceId != "" && e == GraphEdge("FROM_SOURCE", episode.id, episode.sourceId)
  }

  /** A fact attached to a merged duplicate connects to the entity that absorbed it. */
  predicate EdgeOfFact(s: State, entities: map<string, Entity>, fact: Fact, e: GraphEdge) {
    e == GraphEdge("SUBJECT", fact.id, Canonical(entities, fact.subjectId)) ||
    (fact.objectId != "" && e == GraphEdge("OBJECT", fact.id, Canonical(entities, fact.objectId))) ||
    (e.typ == "ASSERTS" && e.to == fact.id && e.from in fact.support && e.from in s.episodes)
  }

  predicate OwnsEpisodeEdge(cut: Cut, req: NeighborhoodRequest, id: string, e: GraphEdge) {
    EpisodeIn(cut, req, id) && EdgeOfEpisode(cut.episodes[id].episode, e)
  }

  predicate OwnsFactEdge(s: State, cut: Cut, req: NeighborhoodRequest, id: string, e: GraphEdge) {
    FactIn(cut, req, id) && EdgeOfFact(s, cut.entities, cut.facts[id], e)
  }

  function EpisodeOwner(cut: Cut, req: NeighborhoodRequest): (string, GraphEdge) -> bool {
    (id, e) => OwnsEpisodeEdge(cut, req, id, e)
  }

  function FactOwner(s: State, cut: Cut, req: NeighborhoodRequest): (string, GraphEdge) -> bool {
    (id, e) => OwnsFactEdge(s, cut, req, id, e)
  }

  /** Some admitted episode or fact calls for this edge. */
  ghost predicate RecordEdge(s: State, cut: Cut, req: NeighborhoodRequest, e: GraphEdge) {
    (exists id :: EpisodeOwner(cut, req)(id, e)) || (exists id :: FactOwner(s, cut, req)(id, e))
  }

  predicate Joins(nodes: Nodes, e: GraphEdge) {
    e.from in nodes && e.to in nodes
  }

  // ----- what a pass over a map adds -----

  /** An order in which a pass may visit the keys of a map. */
  ghost predicate Lists(order: seq<string>, ids: set<string>) {
    (forall id :: id in order <==> id in ids) && forall i, j :: 0 <= i < j < |order| ==> order[i] != order[j]
  }

  /** A node is there at a visit if an earlier pass added it, or this one has by then. */
  predicate There(before: Nodes, own: Nodes, order: seq<string>, i: nat, id: string)
    requires i < |order|
  {
    id in before || (id in own && id in order[..i + 1])
  }

  ghost predicate AddedAt(owns: (string, GraphEdge) -> bool, before: Nodes, own: Nodes, order: seq<string>, i: nat, e: GraphEdge)
    requires i < |order|
  {
    owns(order[i], e) && There(before, own, order, i, e.from) && There(before, own, order, i, e.to)
  }

  /** A pass in this order adds the edge: both ends are there when its owner is visited. */
  ghost predicate AddedBy(owns: (string, GraphEdge) -> bool, before: Nodes, own: Nodes, order: seq<string>, e: GraphEdge) {
    exists i :: 0 <= i < |order| && AddedAt(owns, before, own, order, i, e)
  }

  /** The edges that these orders of visiting the episodes and the facts add. */
  ghost predicate BuiltBy(s: State, req: NeighborhoodRequest, episodes: seq<string>, facts: seq<string>, edges: set<GraphEdge>) {
    var cut := CutAt(s, req.temporal);
    forall e :: e in edges <==>
      AddedBy(EpisodeOwner(cut, req), BaseNodes(cut, req), EpisodeNodes(cut, req), episodes, e) ||
      AddedBy(FactOwner(s, cut, req), BaseNodes(cut, req) + EpisodeNodes(cut, req), FactNodes(cut, req), facts, e)
  }

  /** The graph the query builds: exactly the surviving records, and the edges that some
      order of visiting the maps adds. When the order can show, and when every edge between
      two nodes is there, is settled in VisitOrder.dfy. */
  ghost predicate IsGraph(s: State, req: NeighborhoodRequest, nodes: Nodes, edges: set<GraphEdge>) {
    nodes == AllNodes(CutAt(s, req.temporal), req) &&
    exists episodes, facts ::
      Lists(episodes, s.episodes.Keys) && Lists(facts, s.facts.Keys) && BuiltBy(s, req, episodes, facts, edges)
  }

  // ----- building it -----

  method CollectEntities(s: State, req: NeighborhoodRequest, index: Index) returns (nodes: Nodes)
    requires Lookup.Serves(index, s)
    modifies index
    ensures Lookup.Serves(index, s) && nodes == EntityNodes(CutAt(s, req.temporal), req)
  {
    hide EntityVersionAt, SourcesAt, FactsAt, EpisodesAt, SpaceOf;
    ghost var wanted := EntityNodes(CutAt(s, req.temporal), req);
    nodes := map[];
    var todo := s.entities.Keys;
    while todo != {}
      invariant todo <= s.entities.Keys && Lookup.Serves(index, s)
      invariant nodes.Keys == wanted.Keys - todo && forall id :: id in nodes ==> nodes[id] == wanted[id]
      decreases |todo|
    {
      var id :| id in todo;
      todo := todo - {id};
      var entity := Lookup.EntityVersion(s, s.entities[id], req.temporal, index);
      if entity.Some? && entity.value.spaceId == SpaceOf(req.spaceId) {
        nodes := nodes[id := GraphNode(id, "Entity", entity.value.canonicalName)];
      }
    }
  }

  method CollectSources(s: State, req: NeighborhoodRequest) returns (nodes: Nodes)
    ensures nodes == SourceNodes(CutAt(s, req.temporal), req)
  {
    hide SourceVisibleAt, EntitiesAt, FactsAt, EpisodesAt, SpaceOf;
    ghost var wanted := SourceNodes(CutAt(s, req.temporal), req);
    nodes := map[];
    var todo := s.sources.Keys;
    while todo != {}
      invariant todo <= s.sources.Keys
      invariant nodes.Keys == wanted.Keys - todo && forall id :: id in nodes ==> nodes[id] == wanted[id]
      decreases |todo|
    {
      var id :| id in todo;
      todo := todo - {id};
      if s.sources[id].spaceId == SpaceOf(req.spaceId) && SourceVisibleAt(s.sources[id], req.temporal) {
        nodes := nodes[id := GraphNode(id, "Source", s.sources[id].kind)];
      }
    }
  }

  /** The records whose node and edges were added so far, on top of the nodes before. */
  ghost predicate Added(before: Nodes, own: Nodes, done: set<string>, nodes: Nodes) {
    nodes == before + (map id | id in own && id in done :: own[id])
  }

  lemma AddNode(before: Nodes, own: Nodes, done: set<string>, nodes: Nodes, id: string)
    requires Added(before, own, done, nodes)
    ensures Added(before, own, done + {id}, if id in own then nodes[id := own[id]] else nodes)
  {
    if id !in own {
      assert (map x | x in own && x in done :: own[x]) == (map x | x in own && x in done + {id} :: own[x]);
    }
  }

  lemma AllAdded(before: Nodes, own: Nodes, done: set<string>, nodes: Nodes)
    requires Added(before, own, done, nodes) && own.Keys <= done
    ensures nodes == before + own
  {
  }

  // ----- collecting edges -----

  /** The state of a pass: the order so far, and exactly the nodes and edges it added. */
  ghost predicate Passed(owns: (string, GraphEdge) -> bool, before: Nodes, own: Nodes, order: seq<string>, done: set<string>,
                         nodes: Nodes, edges: set<GraphEdge>) {
    Lists(order, done) && Added(before, own, done, nodes) && forall e :: e in edges <==> AddedBy(owns, before, own, order, e)
  }

  lemma NothingPassed(owns: (string, GraphEdge) -> bool, before: Nodes, own: Nodes)
    ensures Passed(owns, before, own, [], {}, before, {})
  {
    NothingAdded(before, own);
  }

  /** An edge added earlier stays, and the last visit adds what its record owns. */
  lemma VisitAdds(owns: (string, GraphEdge) -> bool, before: Nodes, own: Nodes, order: seq<string>, id: string, e: GraphEdge)
    ensures var n := |order|;
            AddedBy(owns, before, own, order + [id], e) <==>
            AddedBy(owns, before, own, order, e) || AddedAt(owns, before, own, order + [id], n, e)
  {
    var longer := order + [id];
    forall i: nat | i < |order|
      ensures AddedAt(owns, before, own, longer, i, e) <==> AddedAt(owns, before, own, order, i, e)
    {
      assert longer[..i + 1] == order[..i + 1];
    }
  }

  lemma PassOn(owns: (string, GraphEdge) -> bool, before: Nodes, own: Nodes, order: seq<string>, done: set<string>,
               nodes0: Nodes, edges: set<GraphEdge>, id: string, nodes: Nodes, more: set<GraphEdge>)
    requires Passed(owns, before, own, order, done, nodes0, edges) && id !in done
    requires nodes == if id in own then nodes0[id := own[id]] else nodes0
    requires forall e :: e in more <==> owns(id, e) && Joins(nodes, e)
    ensures Passed(owns, before, own, order + [id], done + {id}, nodes, edges + more)
  {
    AddNode(before, own, done, nodes0, id);
    var longer, n := order + [id], |order|;
    assert longer[..n + 1] == longer;
    forall x
      ensures There(before, own, longer, n, x) <==> x in nodes
    {
    }
    forall e
      ensures e in edges + more <==> AddedBy(owns, before, own, longer, e)
    {
      VisitAdds(owns, before, own, order, id, e);
      assert longer[n] == id;
    }
  }

  lemma NothingAdded(before: Nodes, own: Nodes)
    ensures Added(before, own, {}, before)
  {
  }

  lemma EpisodeFound(s: State, req: NeighborhoodRequest, id: string)
    requires id in s.episodes && KeysMatch(s)
    ensures var cut := CutAt(s, req.temporal);
            var episode := s.episodes[id];
            var source := if episode.sourceId in s.sources then Some(s.sources[episode.sourceId]) else None;
            (EpisodeIn(cut, req, id) <==>
              episode.spaceId == SpaceOf(req.spaceId) && EpisodeInScope(SourcedEpisode(episode, source), req.scope) &&
              EpisodeVisibleAt(episode, req.temporal)) &&
            (EpisodeIn(cut, req, id) ==> cut.episodes[id].episode == episode && episode.sourceId in s.sources) && episode.id == id
  {
    hide EpisodeVisibleAt, EntitiesAt, FactsAt, SourcesAt, SpaceOf;
  }

  /** The edge of one episode, if both ends are there. */
  method EpisodeEdge(s: State, req: NeighborhoodRequest, id: string, nodes: Nodes) returns (more: set<GraphEdge>)
    requires KeysMatch(s) && id in s.episodes && EpisodeIn(CutAt(s, req.temporal), req, id)
    ensures forall e :: e in more <==> EpisodeOwner(CutAt(s, req.temporal), req)(id, e) && Joins(nodes, e)
  {
    hide KeysMatch, CutAt, EpisodeIn, EpisodeInScope, EpisodeVisibleAt, SpaceOf;
    EpisodeFound(s, req, id);
    EpisodeStored(s, req);
    var episode := s.episodes[id];
    more := {};
    if episode.sourceId != "" {
      var e := GraphEdge("FROM_SOURCE", episode.id, episode.sourceId);
      if Joins(nodes, e) {
        more := {e};
      }
    }
  }

  /** The episode loop: a node for each, and an edge to its source. */
  method CollectEpisodes(s: State, req: NeighborhoodRequest, before: Nodes)
    returns (nodes: Nodes, edges: set<GraphEdge>, ghost order: seq<string>)
    requires KeysMatch(s) && before == BaseNodes(CutAt(s, req.temporal), req)
    ensures var cut := CutAt(s, req.temporal);
            nodes == before + EpisodeNodes(cut, req) && Lists(order, s.episodes.Keys) &&
            forall e :: e in edges <==> AddedBy(EpisodeOwner(cut, req), before, EpisodeNodes(cut, req), order, e)
  {
    hide KeysMatch, CutAt, EpisodeIn, EpisodeInScope, EpisodeVisibleAt, SpaceOf, BaseNodes, EpisodeNodes, EpisodeOwner, OwnsEpisodeEdge,
         Passed, AddedBy;
    ghost var cut := CutAt(s, req.temporal);
    ghost var own, owns := EpisodeNodes(cut, req), EpisodeOwner(cut, req);
    nodes, edges, order := before, {}, [];
    var todo := s.episodes.Keys;
    ghost var done := {};
    NothingPassed(owns, before, own);
    while todo != {}
      invariant todo <= s.episodes.Keys && done == s.episodes.Keys - todo
      invariant Passed(owns, before, own, order, done, nodes, edges)
      decreases |todo|
    {
      var id :| id in todo;
      todo := todo - {id};
      var episode := s.episodes[id];
      var source := if episode.sourceId in s.sources then Some(s.sources[episode.sourceId]) else None;
      EpisodeFound(s, req, id);
      EpisodeNode(cut, req, id);
      ghost var nodes0 := nodes;
      var more: set<GraphEdge> := {};
      if episode.spaceId == SpaceOf(req.spaceId) && EpisodeInScope(SourcedEpisode(episode, source), req.scope) &&
         EpisodeVisibleAt(episode, req.temporal) {
        nodes := nodes[id := GraphNode(id, "Episode", episode.kind)];
        more := EpisodeEdge(s, req, id, nodes);
      } else {
        NotOwned(cut, req, id);
      }
      PassOn(owns, before, own, order, done, nodes0, edges, id, nodes, more);
      edges := edges + more;
      order := order + [id];
      done := done + {id};
    }
    assert done == s.episodes.Keys;
    StoredEpisodes(s, req);
    PassEnds(owns, before, own, order, done, nodes, edges);
  }

  lemma PassEnds(owns: (string, GraphEdge) -> bool, before: Nodes, own: Nodes, order: seq<string>, done: set<string>,
                 nodes: Nodes, edges: set<GraphEdge>)
    requires Passed(owns, before, own, order, done, nodes, edges) && own.Keys <= done
    ensures nodes == before + own && Lists(order, done) && forall e :: e in edges <==> AddedBy(owns, before, own, order, e)
  {
    AllAdded(before, own, done, nodes);
  }

  lemma NotOwned(cut: Cut, req: NeighborhoodRequest, id: string)
    requires !EpisodeIn(cut, req, id)
    ensures forall e :: !EpisodeOwner(cut, req)(id, e)
  {
    hide EpisodeIn;
  }

  lemma EpisodeStored(s: State, req: NeighborhoodRequest)
    ensures forall id :: EpisodeIn(CutAt(s, req.temporal), req, id) ==> id in CutAt(s, req.temporal).episodes
  {
    hide EpisodeVisibleAt, EntitiesAt, FactsAt, SourcesAt, SpaceOf, EpisodeInScope;
  }

  lemma EpisodeNode(cut: Cut, req: NeighborhoodRequest, id: string)
    ensures id in EpisodeNodes(cut, req) <==> EpisodeIn(cut, req, id)
    ensures EpisodeIn(cut, req, id) ==>
      id in cut.episodes && EpisodeNodes(cut, req)[id] == GraphNode(id, "Episode", cut.episodes[id].episode.kind)
  {
    hide EpisodeInScope, SpaceOf;
  }

  lemma StoredEpisodes(s: State, req: NeighborhoodRequest)
    ensures EpisodeNodes(CutAt(s, req.temporal), req).Keys <= s.episodes.Keys
  {
    hide EpisodeVisibleAt, EntitiesAt, FactsAt, SourcesAt, SpaceOf, EpisodeInScope;
  }

  // ----- facts -----

  lemma FactFound(s: State, req: NeighborhoodRequest, id: string, version: Option<Fact>, scoped: bool)
    requires id in s.facts && KeysMatch(s) && version == FactVersionAt(s.factRevisions, s.facts[id], req.temporal)
    requires version.Some? && version.value.spaceId == SpaceOf(req.spaceId) ==>
      (scoped <==> InScope(CutAt(s, req.temporal), version.value, req.scope))
    ensures var cut := CutAt(s, req.temporal);
            (FactIn(cut, req, id) <==> version.Some? && version.value.spaceId == SpaceOf(req.spaceId) && scoped) &&
            (FactIn(cut, req, id) ==> id in cut.facts && cut.facts[id] == version.value && version.value.id == id)
  {
    hide FactVersionAt, EntitiesAt, EpisodesAt, SourcesAt, SpaceOf, InScope, KeysMatch;
    Lookup.VersionInCut(s, req.temporal, id);
  }

  lemma FactNode(cut: Cut, req: NeighborhoodRequest, id: string)
    ensures id in FactNodes(cut, req) <==> FactIn(cut, req, id)
    ensures FactIn(cut, req, id) ==>
      id in cut.facts && FactNodes(cut, req)[id] == GraphNode(id, "Fact", cut.facts[id].predicate_)
  {
    hide InScope, SpaceOf;
  }

  lemma StoredFacts(s: State, req: NeighborhoodRequest)
    ensures FactNodes(CutAt(s, req.temporal), req).Keys <= s.facts.Keys
  {
    hide FactVersionAt, EntitiesAt, EpisodesAt, SourcesAt, SpaceOf, InScope;
  }

  /** The supporting episodes of one fact, one edge each. */
  method SupportEdges(s: State, nodes: Nodes, record: Fact) returns (more: set<GraphEdge>)
    ensures forall e :: e in more <==>
      e.typ == "ASSERTS" && e.to == record.id && e.from in record.support && e.from in s.episodes && Joins(nodes, e)
  {
    more := {};
    for i := 0 to |record.support|
      invariant forall e :: e in more <==>
        e.typ == "ASSERTS" && e.to == record.id && e.from in record.support[..i] && e.from in s.episodes && Joins(nodes, e)
    {
      var e := GraphEdge("ASSERTS", record.support[i], record.id);
      if record.support[i] in s.episodes && Joins(nodes, e) {
        more := more + {e};
      }
    }
    assert record.support[..|record.support|] == record.support;
  }

  /** The edges of one fact whose ends are there. */
  method FactEdges(s: State, req: NeighborhoodRequest, nodes: Nodes, record: Fact, index: Index) returns (more: set<GraphEdge>)
    requires Lookup.Serves(index, s)
    modifies index
    ensures Lookup.Serves(index, s)
    ensures forall e :: e in more <==> EdgeOfFact(s, EntitiesAt(s, req.temporal), record, e) && Joins(nodes, e)
  {
    hide EntitiesAt, Canonical;
    more := SupportEdges(s, nodes, record);
    var subject := Lookup.CanonicalAt(s, record.subjectId, req.temporal, index);
    var e := GraphEdge("SUBJECT", record.id, subject);
    if Joins(nodes, e) {
      more := more + {e};
    }
    if record.objectId != "" {
      var object_ := Lookup.CanonicalAt(s, record.objectId, req.temporal, index);
      e := GraphEdge("OBJECT", record.id, object_);
      if Joins(nodes, e) {
        more := more + {e};
      }
    }
  }

  lemma FactOwned(s: State, req: NeighborhoodRequest, id: string, record: Fact)
    requires var cut := CutAt(s, req.temporal); FactIn(cut, req, id) && id in cut.facts && cut.facts[id] == record
    ensures forall e :: FactOwner(s, CutAt(s, req.temporal), req)(id, e) <==> EdgeOfFact(s, EntitiesAt(s, req.temporal), record, e)
  {
    hide Canonical, InScope, EntitiesAt, SourcesAt, EpisodesAt, FactsAt;
  }

  lemma FactNotOwned(s: State, cut: Cut, req: NeighborhoodRequest, id: string)
    requires !FactIn(cut, req, id)
    ensures forall e :: !FactOwner(s, cut, req)(id, e)
  {
    hide FactIn;
  }

  /** One step of the fact loop. */
  method VisitFact(s: State, req: NeighborhoodRequest, id: string, nodes0: Nodes, index: Index)
    returns (nodes: Nodes, more: set<GraphEdge>)
    requires KeysMatch(s) && Lookup.Serves(index, s) && id in s.facts
    modifies index
    ensures Lookup.Serves(index, s)
    ensures var own := FactNodes(CutAt(s, req.temporal), req); nodes == if id in own then nodes0[id := own[id]] else nodes0
    ensures forall e :: e in more <==> FactOwner(s, CutAt(s, req.temporal), req)(id, e) && Joins(nodes, e)
  {
    hide CutAt, FactIn, InScope, SpaceOf, FactNodes, FactOwner, EdgeOfFact, FactVersionAt, Joins, KeysMatch;
    ghost var cut := CutAt(s, req.temporal);
    var version := Lookup.FactVersion(s, s.facts[id], req.temporal, index);
    var scoped := false;
    if version.Some? && version.value.spaceId == SpaceOf(req.spaceId) {
      scoped := Lookup.MatchesScope(s, version.value, req.scope, req.temporal, index);
    }
    FactFound(s, req, id, version, scoped);
    FactNode(cut, req, id);
    nodes, more := nodes0, {};
    if version.Some? && version.value.spaceId == SpaceOf(req.spaceId) && scoped {
      nodes := nodes0[id := GraphNode(id, "Fact", version.value.predicate_)];
      more := FactEdges(s, req, nodes, version.value, index);
      FactOwned(s, req, id, version.value);
      SameEntities(s, req.temporal);
    } else {
      FactNotOwned(s, cut, req, id);
    }
  }

  lemma SameEntities(s: State, filter: TemporalFilter)
    ensures CutAt(s, filter).entities == EntitiesAt(s, filter)
  {
    hide EntitiesAt, SourcesAt, EpisodesAt, FactsAt;
  }

  method CollectFacts(s: State, req: NeighborhoodRequest, before: Nodes, index: Index)
    returns (nodes: Nodes, edges: set<GraphEdge>, ghost order: seq<string>)
    requires KeysMatch(s) && Lookup.Serves(index, s)
    modifies index
    ensures Lookup.Serves(index, s)
    ensures var cut := CutAt(s, req.temporal);
            nodes == before + FactNodes(cut, req) && Lists(order, s.facts.Keys) &&
            forall e :: e in edges <==> AddedBy(FactOwner(s, cut, req), before, FactNodes(cut, req), order, e)
  {
    hide KeysMatch, CutAt, FactNodes, FactOwner, Passed, AddedBy;
    ghost var cut := CutAt(s, req.temporal);
    ghost var own, owns := FactNodes(cut, req), FactOwner(s, cut, req);
    nodes, edges, order := before, {}, [];
    var todo := s.facts.Keys;
    ghost var done := {};
    NothingPassed(owns, before, own);
    while todo != {}
      invariant todo <= s.facts.Keys && done == s.facts.Keys - todo && Lookup.Serves(index, s)
      invariant Passed(owns, before, own, order, done, nodes, edges)
      decreases |todo|
    {
      var id :| id in todo;
      todo := todo - {id};
      ghost var nodes0 := nodes;
      var more;
      nodes, more := VisitFact(s, req, id, nodes, index);
      PassOn(owns, before, own, order, done, nodes0, edges, id, nodes, more);
      edges := edges + more;
      order := order + [id];
      done := done + {id};
    }
    assert done == s.facts.Keys;
    StoredFacts(s, req);
    PassEnds(owns, before, own, order, done, nodes, edges);
  }

  // ----- the query -----

  lemma NodesNamed(cut: Cut, req: NeighborhoodRequest)
    ensures forall id :: id in AllNodes(cut, req) ==> AllNodes(cut, req)[id].id == id
  {
    hide EpisodeIn, FactIn, SpaceOf;
  }

  /** An edge some pass added joins two nodes. */
  lemma AddedJoins(owns: (string, GraphEdge) -> bool, before: Nodes, own: Nodes, order: seq<string>, e: GraphEdge)
    requires AddedBy(owns, before, own, order, e)
    ensures Joins(before + own, e) && exists id :: id in order && owns(id, e)
  {
    var i :| 0 <= i < |order| && AddedAt(owns, before, own, order, i, e);
    assert order[i] in order;
  }

  /** Every edge of a built graph is one some record calls for, between two nodes. */
  lemma GraphSound(s: State, req: NeighborhoodRequest, nodes: Nodes, edges: set<GraphEdge>)
    requires IsGraph(s, req, nodes, edges)
    ensures forall e :: e in edges ==> RecordEdge(s, CutAt(s, req.temporal), req, e) && Joins(nodes, e)
    ensures GraphOk(nodes, edges)
  {
    var cut := CutAt(s, req.temporal);
    NodesNamed(cut, req);
    hide CutAt, BaseNodes, EpisodeNodes, FactNodes, AddedBy, EpisodeOwner, FactOwner;
    var episodes, facts :|
      Lists(episodes, s.episodes.Keys) && Lists(facts, s.facts.Keys) && BuiltBy(s, req, episodes, facts, edges);
    forall e | e in edges
      ensures RecordEdge(s, cut, req, e) && Joins(nodes, e)
    {
      if AddedBy(EpisodeOwner(cut, req), BaseNodes(cut, req), EpisodeNodes(cut, req), episodes, e) {
        AddedJoins(EpisodeOwner(cut, req), BaseNodes(cut, req), EpisodeNodes(cut, req), episodes, e);
      } else {
        AddedJoins(FactOwner(s, cut, req), BaseNodes(cut, req) + EpisodeNodes(cut, req), FactNodes(cut, req), facts, e);
      }
    }
  }

  /** One pass over each map, in whatever order it yields its records. */
  method BuildGraph(s: State, req: NeighborhoodRequest, index: Index) returns (nodes: Nodes, edges: set<GraphEdge>)
    requires Keyed(s) && Lookup.Serves(index, s)
    modifies index
    ensures Lookup.Serves(index, s) && IsGraph(s, req, nodes, edges) && GraphOk(nodes, edges)
  {
    hide CutAt, EntityNodes, SourceNodes, EpisodeNodes, FactNodes, AddedBy, EpisodeOwner, FactOwner, GraphOk, KeysMatch, Lists;
    var entities := CollectEntities(s, req, index);
    var sources := CollectSources(s, req);
    var nodes1, edges1, edges2;
    ghost var episodes, facts;
    nodes1, edges1, episodes := CollectEpisodes(s, req, entities + sources);
    nodes, edges2, facts := CollectFacts(s, req, nodes1, index);
    edges := edges1 + edges2;
    assert BuiltBy(s, req, episodes, facts, edges);
    GraphSound(s, req, nodes, edges);
  }

  datatype NeighborhoodAnswer = NeighborhoodAnswer(nodes: seq<GraphNode>, edges: seq<GraphEdge>, truncated: bool)

  /** The answer is a selection from the search over the graph of the cut, started at the
      resolved anchors. */
  ghost predicate IsNeighborhoodAnswer(s: State, req: NeighborhoodRequest, answer: NeighborhoodAnswer) {
    exists nodes, edges, anchors ::
      IsGraph(s, req, nodes, edges) && GraphOk(nodes, edges) &&
      Lookup.AnchorsOf(EntitiesAt(s, req.temporal), req.anchorIds, anchors) &&
      IsNeighborhood(nodes, edges, anchors, req.edgeTypes, req.nodeTypes, HopLimit(req.maxHops), req.maxNodes,
                     answer.nodes, answer.edges, answer.truncated)
  }

  /** Neighborhood */
  method QueryNeighborhood(s: State, poisoned: bool, req: NeighborhoodRequest) returns (r: Result<NeighborhoodAnswer>)
    requires Keyed(s)
    ensures r.Ok? ==> IsNeighborhoodAnswer(s, req, r.value)
    ensures r.Err? <==> req.anchorIds == [] || poisoned
    ensures req.anchorIds == [] ==> r == Err(InputInvalid)
  {
    hide IsGraph, GraphOk, IsNeighborhood, EntitiesAt, Canonical, KeysMatch;
    if req.anchorIds == [] {
      return Err(InputInvalid);
    }
    if poisoned {
      return Err(StorageFailed);
    }
    var index := new TemporalIndex.TemporalIndex(s);
    var anchors := Lookup.CanonicalIds(s, req.anchorIds, req.temporal, index);
    var nodes, edges := BuildGraph(s, req, index);
    var outNodes, outEdges, truncated := Neighborhood.Neighborhood(
      nodes, edges, anchors, req.edgeTypes, req.nodeTypes, req.maxHops, req.maxNodes);
    return Ok(NeighborhoodAnswer(outNodes, outEdges, truncated));
  }
}
