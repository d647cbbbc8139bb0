/** When the order in which a neighbourhood query visits the maps can show. The code adds
    an edge as soon as its record is visited, if both ends are nodes by then. On every
    live read no edge is missed. A historical read can miss one, or depend on the order,
    only through a blank ID shared by two kinds. */
module VisitOrder {
  import opened Wrappers
  import opened Text
  import opened Identity
  import opened Records
  import opened EngineSpec
  import opened Invariants
  import Preservation
  import opened Cuts
  import EntityHistory
  import opened LookupSpec
  import opened Redirects
  import opened Encoding
  import opened Neighborhood
  import opened NeighborhoodQuery
  import Lookup
  import AnyState
  import TimeTravel
  import Timeline

  type Owns = (string, GraphEdge) -> bool

  // ----- one pass -----

  /** Each edge has one owner, which is one of its ends and gets a node. */
  ghost predicate OwnersOk(owns: Owns, own: Nodes) {
    (forall id, e :: owns(id, e) ==> id in own && Incident(e, id)) &&
    (forall a, b, e :: owns(a, e) && owns(b, e) ==> a == b)
  }

  /** The far end gets its node in the same pass as the owner, and not before: whether it
      is there depends on which of the two is visited first. */
  predicate Late(owns: Owns, before: Nodes, own: Nodes, id: string, e: GraphEdge) {
    owns(id, e) && FarEnd(e, id) != id && FarEnd(e, id) !in before && FarEnd(e, id) in own
  }

  ghost predicate SomeLate(owns: Owns, before: Nodes, own: Nodes) {
    exists id, e :: Late(owns, before, own, id, e)
  }

  /** Whatever the order of the pass, it adds the same edges. */
  ghost predicate OrderFree(owns: Owns, before: Nodes, own: Nodes, ids: set<string>) {
    forall a, b, e :: Lists(a, ids) && Lists(b, ids) ==> (AddedBy(owns, before, own, a, e) <==> AddedBy(owns, before, own, b, e))
  }

  lemma PlaceOf(order: seq<string>, ids: set<string>, id: string) returns (i: nat)
    requires Lists(order, ids) && id in ids
    ensures i < |order| && order[i] == id && id in order[..i + 1]
    ensures forall j :: 0 <= j < |order| && order[j] == id ==> j == i
  {
    i :| 0 <= i < |order| && order[i] == id;
    assert order[..i + 1][i] == id;
  }

  /** An edge of a visited record is added exactly if its far end is there by then. */
  lemma AddedWhen(owns: Owns, before: Nodes, own: Nodes, order: seq<string>, ids: set<string>, id: string, e: GraphEdge, i: nat)
    requires OwnersOk(owns, own) && Lists(order, ids) && id in ids && owns(id, e)
    requires i < |order| && order[i] == id
    ensures AddedBy(owns, before, own, order, e) <==> There(before, own, order, i, FarEnd(e, id))
  {
    assert order[..i + 1][i] == id;
    assert There(before, own, order, i, id);
    assert AddedAt(owns, before, own, order, i, e) <==> There(before, own, order, i, FarEnd(e, id));
    if AddedBy(owns, before, own, order, e) {
      var j :| 0 <= j < |order| && AddedAt(owns, before, own, order, j, e);
      assert order[j] == id;
      assert j == i;
    }
  }

  /** Unless the far end is late, the order of the pass does not matter for the edge. */
  lemma NotLate(owns: Owns, before: Nodes, own: Nodes, order: seq<string>, ids: set<string>, id: string, e: GraphEdge)
    requires OwnersOk(owns, own) && Lists(order, ids) && id in ids && owns(id, e) && !Late(owns, before, own, id, e)
    ensures AddedBy(owns, before, own, order, e) <==> FarEnd(e, id) in before || FarEnd(e, id) == id
  {
    var i := PlaceOf(order, ids, id);
    AddedWhen(owns, before, own, order, ids, id, e, i);
  }

  /** Any keys can be listed with a given one first, or last. */
  lemma ListedFirst(ids: set<string>, id: string) returns (order: seq<string>)
    requires id in ids
    ensures Lists(order, ids) && order[0] == id
  {
    var rest := SomeList(ids - {id});
    order := [id] + rest;
  }

  lemma ListedLast(ids: set<string>, id: string) returns (order: seq<string>)
    requires id in ids
    ensures Lists(order, ids) && order[|order| - 1] == id
  {
    var rest := SomeList(ids - {id});
    order := rest + [id];
  }

  lemma {:induction false} SomeList(ids: set<string>) returns (order: seq<string>)
    ensures Lists(order, ids)
    decreases ids
  {
    if ids == {} {
      order := [];
    } else {
      var id :| id in ids;
      var rest := SomeList(ids - {id});
      order := [id] + rest;
    }
  }

  lemma LateShows(owns: Owns, before: Nodes, own: Nodes, ids: set<string>, id: string, e: GraphEdge)
    returns (with: seq<string>, without: seq<string>)
    requires OwnersOk(owns, own) && own.Keys <= ids && Late(owns, before, own, id, e)
    ensures Lists(with, ids) && Lists(without, ids)
    ensures AddedBy(owns, before, own, with, e) && !AddedBy(owns, before, own, without, e)
  {
    with := ListedLast(ids, id);
    without := ListedFirst(ids, id);
    var n := |with| - 1;
    AddedWhen(owns, before, own, with, ids, id, e, n);
    assert with[..n + 1] == with;
    AddedWhen(owns, before, own, without, ids, id, e, 0);
    assert without[..1] == [id];
  }

  /** A pass adds the same edges in every order exactly if no far end is late. */
  lemma OrderFreeIff(owns: Owns, before: Nodes, own: Nodes, ids: set<string>)
    requires OwnersOk(owns, own) && own.Keys <= ids
    ensures OrderFree(owns, before, own, ids) <==> !SomeLate(owns, before, own)
  {
    hide AddedBy, Lists, Late;
    if SomeLate(owns, before, own) {
      var id, e :| Late(owns, before, own, id, e);
      var with, without := LateShows(owns, before, own, ids, id, e);
    } else {
      forall a, b, e | Lists(a, ids) && Lists(b, ids)
        ensures AddedBy(owns, before, own, a, e) <==> AddedBy(owns, before, own, b, e)
      {
        if id :| owns(id, e) {
          NotLate(owns, before, own, a, ids, id, e);
          NotLate(owns, before, own, b, ids, id, e);
        } else {
          NobodyAdds(owns, before, own, a, e);
          NobodyAdds(owns, before, own, b, e);
        }
      }
    }
  }

  lemma NobodyAdds(owns: Owns, before: Nodes, own: Nodes, order: seq<string>, e: GraphEdge)
    requires forall id :: !owns(id, e)
    ensures !AddedBy(owns, before, own, order, e)
  {
  }

  /** The far end is a node in the end, but neither an earlier pass nor the owner made it. */
  predicate Missable(owns: Owns, before: Nodes, all: Nodes, id: string, e: GraphEdge) {
    owns(id, e) && FarEnd(e, id) != id && FarEnd(e, id) !in before && FarEnd(e, id) in all
  }

  ghost predicate SomeMissable(owns: Owns, before: Nodes, all: Nodes) {
    exists id, e :: Missable(owns, before, all, id, e)
  }

  /** In every order the pass adds each edge between two nodes. */
  ghost predicate MissesNothing(owns: Owns, before: Nodes, own: Nodes, all: Nodes, ids: set<string>) {
    forall order, id, e :: Lists(order, ids) && owns(id, e) && Joins(all, e) ==> AddedBy(owns, before, own, order, e)
  }

  lemma MissesNothingIff(owns: Owns, before: Nodes, own: Nodes, all: Nodes, ids: set<string>)
    requires OwnersOk(owns, own) && own.Keys <= ids && before.Keys + own.Keys <= all.Keys
    ensures MissesNothing(owns, before, own, all, ids) <==> !SomeMissable(owns, before, all)
  {
    hide AddedBy, Lists;
    if SomeMissable(owns, before, all) {
      var id, e :| Missable(owns, before, all, id, e);
      var order := ListedFirst(ids, id);
      AddedWhen(owns, before, own, order, ids, id, e, 0);
      assert order[..1] == [id];
    } else {
      forall order, id, e | Lists(order, ids) && owns(id, e) && Joins(all, e)
        ensures AddedBy(owns, before, own, order, e)
      {
        assert !Missable(owns, before, all, id, e);
        NotLate(owns, before, own, order, ids, id, e);
      }
    }
  }

  // ----- the two passes of a query -----

  ghost function ViewOf(s: State, req: NeighborhoodRequest): Cut { CutAt(s, req.temporal) }

  /** What is there before the episodes are visited, and before the facts are. */
  ghost function EpisodeBase(s: State, req: NeighborhoodRequest): Nodes {
    BaseNodes(ViewOf(s, req), req)
  }

  ghost function FactBase(s: State, req: NeighborhoodRequest): Nodes {
    BaseNodes(ViewOf(s, req), req) + EpisodeNodes(ViewOf(s, req), req)
  }

  ghost function EpisodeOwn(s: State, req: NeighborhoodRequest): Nodes {
    EpisodeNodes(ViewOf(s, req), req)
  }

  ghost function FactOwn(s: State, req: NeighborhoodRequest): Nodes {
    FactNodes(ViewOf(s, req), req)
  }

  ghost function EpisodeOwns(s: State, req: NeighborhoodRequest): Owns {
    EpisodeOwner(ViewOf(s, req), req)
  }

  ghost function FactOwns(s: State, req: NeighborhoodRequest): Owns {
    FactOwner(s, ViewOf(s, req), req)
  }

  ghost function All(s: State, req: NeighborhoodRequest): Nodes {
    AllNodes(ViewOf(s, req), req)
  }

  /** An admitted episode names a source that is no node yet but shares its ID with
      another admitted episode, or a resolved endpoint of an admitted fact is no node yet
      but shares its ID with another admitted fact. */
  ghost predicate Tangled(s: State, req: NeighborhoodRequest) {
    SomeLate(EpisodeOwns(s, req), EpisodeBase(s, req), EpisodeOwn(s, req)) ||
    SomeLate(FactOwns(s, req), FactBase(s, req), FactOwn(s, req))
  }

  /** The same, with any later node in place of the other episode or fact. */
  ghost predicate Missing(s: State, req: NeighborhoodRequest) {
    SomeMissable(EpisodeOwns(s, req), EpisodeBase(s, req), All(s, req)) ||
    SomeMissable(FactOwns(s, req), FactBase(s, req), All(s, req))
  }

  lemma EpisodeEdgeShape(s: State, req: NeighborhoodRequest, id: string, e: GraphEdge)
    requires KeysMatch(s) && EpisodeOwns(s, req)(id, e)
    ensures id in EpisodeOwn(s, req) && id in s.episodes && EpisodeIn(ViewOf(s, req), req, id)
    ensures e == GraphEdge("FROM_SOURCE", id, s.episodes[id].sourceId)
  {
    hide KeysMatch, EpisodeNodes, EpisodeIn, CutAt;
    NeighborhoodQuery.EpisodeStored(s, req);
    EpisodeNode(ViewOf(s, req), req, id);
    StoredEpisodes(s, req);
    EpisodeFound(s, req, id);
  }

  lemma FactEdgeShape(s: State, req: NeighborhoodRequest, id: string, e: GraphEdge)
    requires KeysMatch(s) && FactOwns(s, req)(id, e)
    ensures id in FactOwn(s, req) && id in s.facts && FactIn(ViewOf(s, req), req, id)
    ensures var cut := ViewOf(s, req);
            id in cut.facts && cut.facts[id].id == id && EdgeOfFact(s, cut.entities, cut.facts[id], e)
  {
    hide KeysMatch, FactNodes, InScope, SpaceOf, EntitiesAt, SourcesAt, EpisodesAt, FactVersionAt, EdgeOfFact;
    FactNode(ViewOf(s, req), req, id);
    StoredFacts(s, req);
    Lookup.VersionInCut(s, req.temporal, id);
  }

  lemma EpisodeOwnersOk(s: State, req: NeighborhoodRequest)
    requires KeysMatch(s)
    ensures OwnersOk(EpisodeOwns(s, req), EpisodeOwn(s, req)) && EpisodeOwn(s, req).Keys <= s.episodes.Keys
  {
    hide KeysMatch, CutAt, EpisodeNodes, EpisodeOwner;
    StoredEpisodes(s, req);
    forall id, e | EpisodeOwns(s, req)(id, e)
      ensures id in EpisodeOwn(s, req) && e.from == id
    {
      EpisodeEdgeShape(s, req, id, e);
    }
  }

  lemma FactOwnersOk(s: State, req: NeighborhoodRequest)
    requires KeysMatch(s)
    ensures OwnersOk(FactOwns(s, req), FactOwn(s, req)) && FactOwn(s, req).Keys <= s.facts.Keys
  {
    hide KeysMatch, CutAt, FactNodes, FactOwner, Canonical;
    StoredFacts(s, req);
    forall id, e | FactOwns(s, req)(id, e)
      ensures id in FactOwn(s, req) && id == (if e.typ == "ASSERTS" then e.to else e.from)
    {
      FactEdgeShape(s, req, id, e);
    }
  }

  const EDGE_TYPES := {"FROM_SOURCE", "SUBJECT", "OBJECT", "ASSERTS"}

  /** The two passes add edges of different types. */
  lemma TypesOf(s: State, req: NeighborhoodRequest)
    requires KeysMatch(s)
    ensures forall id, e :: EpisodeOwns(s, req)(id, e) ==> e.typ == "FROM_SOURCE"
    ensures forall id, e :: FactOwns(s, req)(id, e) ==> e.typ != "FROM_SOURCE" && e.typ in EDGE_TYPES
  {
    hide KeysMatch, CutAt, FactNodes, FactOwner, EpisodeOwner, Canonical;
    forall id, e | EpisodeOwns(s, req)(id, e)
      ensures e.typ == "FROM_SOURCE"
    {
      EpisodeEdgeShape(s, req, id, e);
    }
    forall id, e | FactOwns(s, req)(id, e)
      ensures e.typ != "FROM_SOURCE" && e.typ in EDGE_TYPES
    {
      FactEdgeShape(s, req, id, e);
    }
  }

  // ----- when the order shows -----

  ghost predicate EpisodeAdds(s: State, req: NeighborhoodRequest, order: seq<string>, e: GraphEdge) {
    AddedBy(EpisodeOwns(s, req), EpisodeBase(s, req), EpisodeOwn(s, req), order, e)
  }

  ghost predicate FactAdds(s: State, req: NeighborhoodRequest, order: seq<string>, e: GraphEdge) {
    AddedBy(FactOwns(s, req), FactBase(s, req), FactOwn(s, req), order, e)
  }

  /** Every pair of visiting orders builds a graph. */
  lemma GraphOf(s: State, req: NeighborhoodRequest, episodes: seq<string>, facts: seq<string>) returns (edges: set<GraphEdge>)
    requires KeysMatch(s) && Lists(episodes, s.episodes.Keys) && Lists(facts, s.facts.Keys)
    ensures IsGraph(s, req, All(s, req), edges)
    ensures forall e :: e in edges <==> EpisodeAdds(s, req, episodes, e) || FactAdds(s, req, facts, e)
  {
    hide KeysMatch, CutAt, AddedBy, Lists, EpisodeOwner, FactOwner;
    TypesOf(s, req);
    var ends := All(s, req).Keys;
    edges := set t, a, b | t in EDGE_TYPES && a in ends && b in ends &&
                           (EpisodeAdds(s, req, episodes, GraphEdge(t, a, b)) || FactAdds(s, req, facts, GraphEdge(t, a, b))) ::
             GraphEdge(t, a, b);
    forall e | EpisodeAdds(s, req, episodes, e) || FactAdds(s, req, facts, e)
      ensures e in edges
    {
      if EpisodeAdds(s, req, episodes, e) {
        AddedJoins(EpisodeOwns(s, req), EpisodeBase(s, req), EpisodeOwn(s, req), episodes, e);
      } else {
        AddedJoins(FactOwns(s, req), FactBase(s, req), FactOwn(s, req), facts, e);
      }
      assert e == GraphEdge(e.typ, e.from, e.to);
    }
    assert BuiltBy(s, req, episodes, facts, edges);
  }

  /** Two visiting orders of the same database give different graphs. */
  ghost predicate OrderShows(s: State, req: NeighborhoodRequest) {
    exists a, b :: IsGraph(s, req, All(s, req), a) && IsGraph(s, req, All(s, req), b) && a != b
  }

  lemma TangledShows(s: State, req: NeighborhoodRequest)
    requires KeysMatch(s) && Tangled(s, req)
    ensures OrderShows(s, req)
  {
    hide KeysMatch, AddedBy, Lists, IsGraph, EpisodeOwns, FactOwns, EpisodeBase, FactBase, EpisodeOwn, FactOwn, All, Late;
    EpisodeOwnersOk(s, req);
    FactOwnersOk(s, req);
    TypesOf(s, req);
    if id, e :| Late(EpisodeOwns(s, req), EpisodeBase(s, req), EpisodeOwn(s, req), id, e) {
      var with, without := LateShows(EpisodeOwns(s, req), EpisodeBase(s, req), EpisodeOwn(s, req), s.episodes.Keys, id, e);
      var facts := SomeList(s.facts.Keys);
      var a := GraphOf(s, req, with, facts);
      var b := GraphOf(s, req, without, facts);
      assert Late(EpisodeOwns(s, req), EpisodeBase(s, req), EpisodeOwn(s, req), id, e) ==> EpisodeOwns(s, req)(id, e) by {
        LateOwns(EpisodeOwns(s, req), EpisodeBase(s, req), EpisodeOwn(s, req), id, e);
      }
      OtherType(s, req, facts, id, e);
      assert e in a && e !in b;
    } else {
      var id, e :| Late(FactOwns(s, req), FactBase(s, req), FactOwn(s, req), id, e);
      var with, without := LateShows(FactOwns(s, req), FactBase(s, req), FactOwn(s, req), s.facts.Keys, id, e);
      var episodes := SomeList(s.episodes.Keys);
      var a := GraphOf(s, req, episodes, with);
      var b := GraphOf(s, req, episodes, without);
      LateOwns(FactOwns(s, req), FactBase(s, req), FactOwn(s, req), id, e);
      OtherTypeBack(s, req, episodes, id, e);
      assert e in a && e !in b;
    }
  }

  lemma LateOwns(owns: Owns, before: Nodes, own: Nodes, id: string, e: GraphEdge)
    requires Late(owns, before, own, id, e)
    ensures owns(id, e)
  {
  }

  lemma OtherType(s: State, req: NeighborhoodRequest, facts: seq<string>, id: string, e: GraphEdge)
    requires KeysMatch(s) && EpisodeOwns(s, req)(id, e)
    ensures !FactAdds(s, req, facts, e)
  {
    hide KeysMatch, EpisodeOwns, FactOwns, AddedBy;
    TypesOf(s, req);
    if FactAdds(s, req, facts, e) {
      AddedJoins(FactOwns(s, req), FactBase(s, req), FactOwn(s, req), facts, e);
    }
  }

  lemma OtherTypeBack(s: State, req: NeighborhoodRequest, episodes: seq<string>, id: string, e: GraphEdge)
    requires KeysMatch(s) && FactOwns(s, req)(id, e)
    ensures !EpisodeAdds(s, req, episodes, e)
  {
    hide KeysMatch, EpisodeOwns, FactOwns, AddedBy;
    TypesOf(s, req);
    if EpisodeAdds(s, req, episodes, e) {
      AddedJoins(EpisodeOwns(s, req), EpisodeBase(s, req), EpisodeOwn(s, req), episodes, e);
    }
  }

  /** The orders behind a graph. */
  lemma OrdersOf(s: State, req: NeighborhoodRequest, edges: set<GraphEdge>) returns (episodes: seq<string>, facts: seq<string>)
    requires IsGraph(s, req, All(s, req), edges)
    ensures Lists(episodes, s.episodes.Keys) && Lists(facts, s.facts.Keys)
    ensures forall e :: e in edges <==> EpisodeAdds(s, req, episodes, e) || FactAdds(s, req, facts, e)
  {
    hide AddedBy, CutAt, Lists, EpisodeOwner, FactOwner;
    episodes, facts :|
      Lists(episodes, s.episodes.Keys) && Lists(facts, s.facts.Keys) && BuiltBy(s, req, episodes, facts, edges);
  }

  /** The exact condition under which the order in which Go yields the maps can show in a
      neighbourhood's graph. */
  lemma OrderShowsIff(s: State, req: NeighborhoodRequest)
    requires Keyed(s)
    ensures OrderShows(s, req) <==> Tangled(s, req)
  {
    hide KeysMatch, AddedBy, Lists, IsGraph, EpisodeOwns, FactOwns, EpisodeBase, FactBase, EpisodeOwn, FactOwn, All, SomeLate;
    if Tangled(s, req) {
      TangledShows(s, req);
    } else {
      EpisodeOwnersOk(s, req);
      FactOwnersOk(s, req);
      OrderFreeIff(EpisodeOwns(s, req), EpisodeBase(s, req), EpisodeOwn(s, req), s.episodes.Keys);
      OrderFreeIff(FactOwns(s, req), FactBase(s, req), FactOwn(s, req), s.facts.Keys);
      forall a, b | IsGraph(s, req, All(s, req), a) && IsGraph(s, req, All(s, req), b)
        ensures a == b
      {
        var ea, fa := OrdersOf(s, req, a);
        var eb, fb := OrdersOf(s, req, b);
        forall e
          ensures e in a <==> e in b
        {
          assert EpisodeAdds(s, req, ea, e) <==> EpisodeAdds(s, req, eb, e);
          assert FactAdds(s, req, fa, e) <==> FactAdds(s, req, fb, e);
        }
      }
    }
  }

  // ----- when nothing is missed -----

  /** Every edge some record calls for, between two nodes, is in the graph. */
  ghost predicate Whole(s: State, req: NeighborhoodRequest, edges: set<GraphEdge>) {
    forall e :: RecordEdge(s, ViewOf(s, req), req, e) && Joins(All(s, req), e) ==> e in edges
  }

  ghost predicate AlwaysWhole(s: State, req: NeighborhoodRequest) {
    forall edges :: IsGraph(s, req, All(s, req), edges) ==> Whole(s, req, edges)
  }

  lemma AllContains(s: State, req: NeighborhoodRequest)
    ensures EpisodeBase(s, req).Keys + EpisodeOwn(s, req).Keys <= All(s, req).Keys
    ensures FactBase(s, req).Keys + FactOwn(s, req).Keys <= All(s, req).Keys
  {
    hide CutAt, BaseNodes, EpisodeNodes, FactNodes;
  }

  /** The exact condition for every graph of a query to be whole. */
  lemma AlwaysWholeIff(s: State, req: NeighborhoodRequest)
    requires Keyed(s)
    ensures AlwaysWhole(s, req) <==> !Missing(s, req)
  {
    hide KeysMatch, AddedBy, Lists, IsGraph, EpisodeOwns, FactOwns, EpisodeBase, FactBase, EpisodeOwn, FactOwn, All, SomeMissable, Joins,
         MissesNothing, AlwaysWhole;
    EpisodeOwnersOk(s, req);
    FactOwnersOk(s, req);
    AllContains(s, req);
    MissesNothingIff(EpisodeOwns(s, req), EpisodeBase(s, req), EpisodeOwn(s, req), All(s, req), s.episodes.Keys);
    MissesNothingIff(FactOwns(s, req), FactBase(s, req), FactOwn(s, req), All(s, req), s.facts.Keys);
    WholeByPasses(s, req);
  }

  ghost predicate PassesMissNothing(s: State, req: NeighborhoodRequest) {
    MissesNothing(EpisodeOwns(s, req), EpisodeBase(s, req), EpisodeOwn(s, req), All(s, req), s.episodes.Keys) &&
    MissesNothing(FactOwns(s, req), FactBase(s, req), FactOwn(s, req), All(s, req), s.facts.Keys)
  }

  lemma WholeByPasses(s: State, req: NeighborhoodRequest)
    requires KeysMatch(s)
    ensures AlwaysWhole(s, req) <==> PassesMissNothing(s, req)
  {
    hide KeysMatch, AddedBy, Lists, IsGraph, EpisodeOwns, FactOwns, EpisodeBase, FactBase, EpisodeOwn, FactOwn, All, Joins;
    if PassesMissNothing(s, req) {
      forall edges, e | IsGraph(s, req, All(s, req), edges) && RecordEdge(s, ViewOf(s, req), req, e) && Joins(All(s, req), e)
        ensures e in edges
      {
        var episodes, facts := OrdersOf(s, req, edges);
        RecordOwned(s, req, e);
        if id :| EpisodeOwns(s, req)(id, e) {
          assert EpisodeAdds(s, req, episodes, e);
        } else {
          var id :| FactOwns(s, req)(id, e);
          assert FactAdds(s, req, facts, e);
        }
      }
    }
    if AlwaysWhole(s, req) {
      PassesOfWhole(s, req);
    }
  }

  lemma PassesOfWhole(s: State, req: NeighborhoodRequest)
    requires KeysMatch(s) && AlwaysWhole(s, req)
    ensures PassesMissNothing(s, req)
  {
    hide KeysMatch, AddedBy, Lists, IsGraph, EpisodeOwns, FactOwns, EpisodeBase, FactBase, EpisodeOwn, FactOwn, All, Joins;
    forall order, id, e | Lists(order, s.episodes.Keys) && EpisodeOwns(s, req)(id, e) && Joins(All(s, req), e)
      ensures EpisodeAdds(s, req, order, e)
    {
      var facts := SomeList(s.facts.Keys);
      var edges := GraphOf(s, req, order, facts);
      RecordOwned(s, req, e);
      OtherType(s, req, facts, id, e);
      assert Whole(s, req, edges) && e in edges;
    }
    forall order, id, e | Lists(order, s.facts.Keys) && FactOwns(s, req)(id, e) && Joins(All(s, req), e)
      ensures FactAdds(s, req, order, e)
    {
      var episodes := SomeList(s.episodes.Keys);
      var edges := GraphOf(s, req, episodes, order);
      RecordOwned(s, req, e);
      OtherTypeBack(s, req, episodes, id, e);
      assert Whole(s, req, edges) && e in edges;
    }
  }

  lemma RecordOwned(s: State, req: NeighborhoodRequest, e: GraphEdge)
    ensures RecordEdge(s, ViewOf(s, req), req, e) <==>
      (exists id :: EpisodeOwns(s, req)(id, e)) || (exists id :: FactOwns(s, req)(id, e))
  {
    hide CutAt, EpisodeOwner, FactOwner;
    var episodes, facts := EpisodeOwner(ViewOf(s, req), req), FactOwner(s, ViewOf(s, req), req);
    assert episodes == EpisodeOwns(s, req) && facts == FactOwns(s, req);
    if RecordEdge(s, ViewOf(s, req), req, e) {
      if id :| episodes(id, e) {
        assert EpisodeOwns(s, req)(id, e);
      } else {
        var id :| facts(id, e);
        assert FactOwns(s, req)(id, e);
      }
    }
    if id :| EpisodeOwns(s, req)(id, e) {
      assert episodes(id, e);
    }
    if id :| FactOwns(s, req)(id, e) {
      assert facts(id, e);
    }
  }

  // ----- what the engine's own states guarantee -----

  /** The instant hides a source or an entity, and shows an episode or a fact that has the
      same ID, which is blank. */
  predicate HiddenTwin(s: State, cut: Cut, id: string) {
    Blank(id) &&
    ((id in s.sources && id !in cut.sources) || (id in s.entities && id !in cut.entities)) &&
    (id in cut.episodes || id in cut.facts)
  }

  /** References hold, and on a historical read the whole invariant does. */
  ghost predicate Referential(s: State, filter: TemporalFilter) {
    IdsUnique(s) && Keyed(s) && RefsOk(s) && (filter.asOf.Some? ==> Inv(s))
  }

  lemma ReferentialIs(s: State, filter: TemporalFilter)
    requires Referential(s, filter)
    ensures IdsUnique(s) && Keyed(s) && KeysMatch(s) && RefsOk(s)
  {
    hide Inv, IdsUnique, KeysMatch, RefsOk;
  }

  /** The states an engine reaches from an empty database are among them. */
  lemma InvIsReferential(s: State, filter: TemporalFilter)
    requires Inv(s)
    ensures Referential(s, filter)
  {
    hide Inv, IdsUnique, RefsOk, Keyed;
    InvIsKeyed(s);
  }

  lemma VersionRefs(s: State, filter: TemporalFilter, id: string)
    requires Referential(s, filter) && id in FactsAt(s, filter)
    ensures id in s.facts && FactRefs(s, FactsAt(s, filter)[id])
  {
    hide Inv, FactVisibleAt, LatestFactRevision, SupportOk, EndpointOk, RefsOk, IdsUnique, KeysMatch;
    FactRefsHold(s, id);
    if filter.asOf.Some? {
      Timeline.TransitionStamps(s, id);
      var latest := LatestFactRevision(s.factRevisions, id, filter.asOf.value);
      if latest.Some? {
        Timeline.LatestIsRevision(s.factRevisions, id, filter.asOf.value);
        Timeline.RevisionStamps(s, latest.value, id);
      }
    }
  }

  lemma AdmittedFactRefs(s: State, req: NeighborhoodRequest, id: string)
    requires Referential(s, req.temporal) && FactIn(ViewOf(s, req), req, id)
    ensures id in ViewOf(s, req).facts && FactRefs(s, ViewOf(s, req).facts[id]) &&
            ViewOf(s, req).facts[id].spaceId == SpaceOf(req.spaceId)
  {
    hide Inv, Referential, FactRefs, InScope, FactVersionAt, EntitiesAt, EpisodesAt, SourcesAt, SpaceOf;
    VersionRefs(s, req.temporal, id);
  }

  lemma FactRefsHold(s: State, id: string)
    requires RefsOk(s) && id in s.facts
    ensures FactRefs(s, s.facts[id])
  {
  }

  /** The space of an entity is the same at every instant, and not blank. */
  lemma EntitySpace(s: State, filter: TemporalFilter, id: string)
    requires Referential(s, filter) && id in EntitiesAt(s, filter)
    ensures id in s.entities && EntitiesAt(s, filter)[id].spaceId == s.entities[id].spaceId && !Blank(s.entities[id].spaceId)
  {
    hide IdsUnique, FactLog, Lifecycle, EntitiesCurrent, Generated, Newest, FactRefs, EntityHistory.RebuiltAt;
    assert s.entities[id].id == id;
    if filter.asOf.Some? {
      if LatestEntityRevision(s.entityRevisions, id, filter.asOf.value).None? {
        TimeTravel.UnrecordedEntityIsFuture(s, id, filter.asOf.value);
      }
      var log := EntityLogAt(s.entityRevisions, id, filter.asOf.value);
      var newest := Newest(log);
      if newest.Some? {
        assert newest.value in log;
        assert EntityRevisionOk(s.entities, newest.value, s.entityRevisions[newest.value], s.sequence);
      }
    }
  }

  /** Redirects stay inside a space. */
  lemma {:induction false} FollowKeepsSpace(entities: map<string, Entity>, id: string, k: nat)
    requires id in entities
    ensures Follow(entities, id, k).Some? ==>
      Follow(entities, id, k).value in entities &&
      SpaceOf(entities[Follow(entities, id, k).value].spaceId) == SpaceOf(entities[id].spaceId)
  {
    hide SpaceOf, Blank;
    if k > 0 {
      FollowKeepsSpace(entities, id, k - 1);
    }
  }

  lemma ResolvedSpace(entities: map<string, Entity>, id: string)
    ensures var end := Canonical(entities, id);
            end == id || (id in entities && end in entities &&
                          SpaceOf(entities[end].spaceId) == SpaceOf(entities[id].spaceId))
  {
    hide SpaceOf, Blank, CanonicalFrom, Follow;
    var end := Canonical(entities, id);
    if !Blank(id) && end != id {
      CanonicalExact(entities, id);
      var k :| 0 <= k < MAX_HOPS && ReachesEnd(entities, id, k, end);
      if id !in entities {
        NotVisible(entities, id);
      }
      FollowKeepsSpace(entities, id, k);
    }
  }

  lemma SpaceIsItself(spaceId: string)
    ensures !Blank(spaceId) ==> SpaceOf(spaceId) == spaceId
  {
  }

  /** A resolved endpoint of an admitted fact is an entity node, unless the instant hides
      the endpoint itself. */
  lemma EndIsNode(s: State, req: NeighborhoodRequest, fact: Fact, id: string)
    requires Referential(s, req.temporal) && fact.spaceId == SpaceOf(req.spaceId) && EndpointOk(s, fact.spaceId, id)
    ensures var cut := ViewOf(s, req);
            var end := Canonical(cut.entities, id);
            end in EntityNodes(cut, req) || (end == id && id !in cut.entities)
  {
    hide Inv, Referential, Canonical, EntityVersionAt, SpaceOf, Blank;
    var cut := ViewOf(s, req);
    var end := Canonical(cut.entities, id);
    ResolvedSpace(cut.entities, id);
    Preservation.DefaultSpaceIsNotBlank(req.spaceId);
    if end in cut.entities {
      EntitySpace(s, req.temporal, end);
      SpaceIsItself(s.entities[end].spaceId);
      if id in cut.entities {
        EntitySpace(s, req.temporal, id);
        SpaceIsItself(s.entities[id].spaceId);
      }
    }
  }

  lemma OneKind(s: State, id: string, j: Kind, k: Kind)
    requires IdsUnique(s) && Has(s, j, id) && Has(s, k, id) && j != k
    ensures Blank(id)
  {
  }

  lemma MissedSource(s: State, req: NeighborhoodRequest, id: string, e: GraphEdge)
    requires Referential(s, req.temporal) && Missable(EpisodeOwns(s, req), EpisodeBase(s, req), All(s, req), id, e)
    ensures req.temporal.asOf.Some? && HiddenTwin(s, ViewOf(s, req), FarEnd(e, id))
  {
    hide Inv, Referential, KeysMatch, EpisodeIn, FactIn, EpisodeOwner, CutAt, SpaceOf, Blank, IdsUnique, RefsOk, EpisodeVisibleAt, EpisodeInScope,
         BaseNodes, AllNodes, HiddenTwin;
    ReferentialIs(s, req.temporal);
    EpisodeEdgeShape(s, req, id, e);
    EpisodeFound(s, req, id);
    SourceInScope(s, req, id);
    var source := s.episodes[id].sourceId;
    LaterNode(s, req, source);
    TwinOfSource(s, req, source);
  }

  lemma TwinOfSource(s: State, req: NeighborhoodRequest, source: string)
    requires IdsUnique(s) && source in s.sources && s.sources[source].spaceId == SpaceOf(req.spaceId)
    requires source !in EpisodeBase(s, req)
    requires var cut := ViewOf(s, req); (source in cut.episodes && source in s.episodes) || (source in cut.facts && source in s.facts)
    ensures req.temporal.asOf.Some? && HiddenTwin(s, ViewOf(s, req), source)
  {
    hide IdsUnique, EntitiesAt, FactsAt, EpisodesAt, SpaceOf, Blank, EntityNodes;
    if source in s.episodes {
      OneKind(s, source, KSource, KEpisode);
    } else {
      OneKind(s, source, KSource, KFact);
    }
  }

  lemma SourceInScope(s: State, req: NeighborhoodRequest, id: string)
    requires KeysMatch(s) && id in s.episodes && EpisodeIn(ViewOf(s, req), req, id)
    ensures var source := s.episodes[id].sourceId;
            source in s.sources && s.sources[source].spaceId == SpaceOf(req.spaceId)
  {
    hide EpisodeVisibleAt, EntitiesAt, FactsAt, SourcesAt, SpaceOf, KeysMatch;
  }

  /** A node that is neither entity nor source shows an episode or a fact. */
  lemma LaterNode(s: State, req: NeighborhoodRequest, id: string)
    requires id in All(s, req) && id !in EpisodeBase(s, req)
    ensures var cut := ViewOf(s, req);
            (id in cut.episodes && id in s.episodes) || (id in cut.facts && id in s.facts)
  {
    hide EpisodeIn, FactIn, EntitiesAt, SourcesAt, FactVersionAt, EpisodeVisibleAt, SpaceOf;
  }

  lemma MissedEnd(s: State, req: NeighborhoodRequest, id: string, e: GraphEdge)
    requires Referential(s, req.temporal) && Missable(FactOwns(s, req), FactBase(s, req), All(s, req), id, e)
    ensures req.temporal.asOf.Some? && HiddenTwin(s, ViewOf(s, req), FarEnd(e, id))
  {
    hide Inv, Referential, KeysMatch, FactOwner, CutAt, SpaceOf, Blank, IdsUnique, RefsOk, Canonical, BaseNodes, EpisodeNodes, FactNodes, AllNodes,
         EntityNodes, InScope, EndpointOk, SupportOk, HiddenTwin;
    ReferentialIs(s, req.temporal);
    FactEdgeShape(s, req, id, e);
    var fact := ViewOf(s, req).facts[id];
    AdmittedFactRefs(s, req, id);
    var far := FarEnd(e, id);
    FarIsFact(s, req, far);
    EntityIsBase(s, req, far);
    if e.typ == "ASSERTS" {
      SupportIsNoFact(s, fact.spaceId, far);
    } else if e.typ == "SUBJECT" {
      TwinOfEnd(s, req, fact, fact.subjectId);
    } else {
      TwinOfEnd(s, req, fact, fact.objectId);
    }
  }

  lemma TwinOfEnd(s: State, req: NeighborhoodRequest, fact: Fact, end: string)
    requires Referential(s, req.temporal) && fact.spaceId == SpaceOf(req.spaceId) && EndpointOk(s, fact.spaceId, end)
    requires var far := Canonical(ViewOf(s, req).entities, end);
             far in s.facts && far in ViewOf(s, req).facts && far !in EntityNodes(ViewOf(s, req), req)
    ensures req.temporal.asOf.Some? && HiddenTwin(s, ViewOf(s, req), Canonical(ViewOf(s, req).entities, end))
  {
    hide Inv, Referential, KeysMatch, IdsUnique, RefsOk, Canonical, CutAt, Blank, EntityNodes, SpaceOf, Keyed;
    ReferentialIs(s, req.temporal);
    EndIsNode(s, req, fact, end);
    HiddenEntity(s, req, fact.spaceId, end);
    OneKind(s, end, KEntity, KFact);
  }

  lemma FarIsFact(s: State, req: NeighborhoodRequest, id: string)
    requires id in All(s, req) && id !in FactBase(s, req)
    ensures id in s.facts && id in ViewOf(s, req).facts
  {
    hide BaseNodes, EpisodeNodes, FactIn, FactVersionAt, EntitiesAt, SourcesAt, EpisodesAt;
  }

  lemma EntityIsBase(s: State, req: NeighborhoodRequest, id: string)
    requires id !in FactBase(s, req)
    ensures id !in EntityNodes(ViewOf(s, req), req)
  {
    hide EntityNodes, SourceNodes, EpisodeNodes;
  }

  lemma SupportIsNoFact(s: State, spaceId: string, id: string)
    requires IdsUnique(s) && SupportOk(s, spaceId, id)
    ensures id !in s.facts
  {
    TrimmedToNothing(id);
    hide Trim, Blank, IdsUnique;
    if id in s.facts {
      OneKind(s, id, KEpisode, KFact);
    }
  }

  lemma HiddenEntity(s: State, req: NeighborhoodRequest, spaceId: string, id: string)
    requires EndpointOk(s, spaceId, id) && id !in ViewOf(s, req).entities
    ensures id in s.entities && req.temporal.asOf.Some?
  {
    hide SourcesAt, EpisodesAt, FactsAt;
  }

  /** An edge can be missed only on a historical read, and only through a hidden twin. */
  lemma MissingHasTwin(s: State, req: NeighborhoodRequest)
    requires Referential(s, req.temporal) && Missing(s, req)
    ensures req.temporal.asOf.Some? && exists id :: HiddenTwin(s, ViewOf(s, req), id)
  {
    hide Inv, Referential, EpisodeOwns, FactOwns, EpisodeBase, FactBase, All, Missable, HiddenTwin;
    if id, e :| Missable(EpisodeOwns(s, req), EpisodeBase(s, req), All(s, req), id, e) {
      MissedSource(s, req, id, e);
    } else {
      var id, e :| Missable(FactOwns(s, req), FactBase(s, req), All(s, req), id, e);
      MissedEnd(s, req, id, e);
    }
  }

  lemma TangledIsMissing(s: State, req: NeighborhoodRequest)
    ensures Tangled(s, req) ==> Missing(s, req)
  {
    AllContains(s, req);
    hide EpisodeOwns, FactOwns, EpisodeBase, FactBase, EpisodeOwn, FactOwn, All;
    if id, e :| Late(EpisodeOwns(s, req), EpisodeBase(s, req), EpisodeOwn(s, req), id, e) {
      assert Missable(EpisodeOwns(s, req), EpisodeBase(s, req), All(s, req), id, e);
    }
    if id, e :| Late(FactOwns(s, req), FactBase(s, req), FactOwn(s, req), id, e) {
      assert Missable(FactOwns(s, req), FactBase(s, req), All(s, req), id, e);
    }
  }

  /** Every live read of a state whose references hold, and every read of a state of the
      engine without blank IDs, builds one graph, and the graph holds every edge between
      two nodes. */
  lemma ReadIsWhole(s: State, req: NeighborhoodRequest, edges: set<GraphEdge>)
    requires Referential(s, req.temporal) && IsGraph(s, req, All(s, req), edges)
    requires req.temporal.asOf.None? || forall id :: !HiddenTwin(s, ViewOf(s, req), id)
    ensures forall e :: e in edges <==> RecordEdge(s, ViewOf(s, req), req, e) && Joins(All(s, req), e)
    ensures !OrderShows(s, req)
  {
    hide Inv, Referential, KeysMatch, IsGraph, All, RecordEdge, OrderShows, Tangled, Missing, HiddenTwin, IdsUnique, RefsOk, Joins;
    ReferentialIs(s, req.temporal);
    if Missing(s, req) {
      MissingHasTwin(s, req);
    }
    TangledIsMissing(s, req);
    OrderShowsIff(s, req);
    AlwaysWholeIff(s, req);
    SoundHere(s, req, edges);
  }

  /** Databases from before the revision log included: references that hold keep holding,
      so every live read after every run is whole. */
  lemma LiveReadsStayWhole(s: State, d: Derivation, events: seq<Event>, req: NeighborhoodRequest, edges: set<GraphEdge>)
    requires IdsUnique(s) && Keyed(s) && RefsOk(s) && req.temporal.asOf.None?
    requires var t := Run(s, d, events); IsGraph(t, req, All(t, req), edges)
    ensures var t := Run(s, d, events);
            forall e :: e in edges <==> RecordEdge(t, ViewOf(t, req), req, e) && Joins(All(t, req), e)
  {
    hide IdsUnique, Keyed, RefsOk, Run, IsGraph, All, RecordEdge, Joins, OrderShows, AnyState.AllNamed;
    AnyState.RunCarries(s, d, events);
    ReadIsWhole(Run(s, d, events), req, edges);
  }

  lemma SoundHere(s: State, req: NeighborhoodRequest, edges: set<GraphEdge>)
    requires IsGraph(s, req, All(s, req), edges)
    ensures forall e :: e in edges ==> RecordEdge(s, ViewOf(s, req), req, e) && Joins(All(s, req), e)
  {
    GraphSound(s, req, All(s, req), edges);
  }
}
