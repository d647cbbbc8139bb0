/** The Lattice graph store (pkg/yeoul/store_lattice.go, internal/storage/lattice):
    delta saves that keep endpoint edges exact, and fact candidates from edges. */
module Lattice {
  import opened Wrappers
  import opened Text
  import opened Sorting
  import opened Records
  import opened EngineSpec
  import opened Storage
  import opened Invariants
  import opened Preservation
  import opened AnyState
  import Rhiza

  datatype EdgeType = FromSource | SubjectEdge | ObjectEdge | SupportedBy | SupersedesEdge

  datatype Edge = Edge(from: Key, to: Key, typ: EdgeType)

  const MAX_FANOUT := 4096

  function FactKey(id: string): Key { Key(RecordTag(KFact), id) }
  function EntityKey(id: string): Key { Key(RecordTag(KEntity), id) }

  /** The endpoint edges a state calls for. */
  predicate IsEndpointEdge(s: State, e: Edge) {
    e.from.tag == RecordTag(KFact) && e.from.id != "" && e.from.id in s.facts &&
    match e.typ
    case SubjectEdge => s.facts[e.from.id].subjectId != "" && e.to == EntityKey(s.facts[e.from.id].subjectId)
    case ObjectEdge => s.facts[e.from.id].objectId != "" && e.to == EntityKey(s.facts[e.from.id].objectId)
    case _ => false
  }

  predicate IsEndpointType(typ: EdgeType) {
    typ == SubjectEdge || typ == ObjectEdge
  }

  /** Each fact node's endpoint edges are exactly its stored subject and object. */
  ghost predicate EndpointsExact(s: State, edges: set<Edge>) {
    forall e: Edge :: IsEndpointType(e.typ) ==> (e in edges <==> IsEndpointEdge(s, e))
  }

  predicate KeepsEntity(prev: State, next: State, id: string) {
    id != "" && id in prev.entities ==> id in next.entities
  }

  /** No fact that stays as it is loses an endpoint. */
  ghost predicate KeepsEndpoints(prev: State, next: State) {
    forall id :: id != "" && id in prev.facts && id in next.facts && prev.facts[id] == next.facts[id] ==>
      KeepsEntity(prev, next, next.facts[id].subjectId) && KeepsEntity(prev, next, next.facts[id].objectId)
  }

  /** Edges join stored nodes, and a deleted node leaves no row behind. */
  ghost predicate EdgesClosed(rows: Rows, edges: set<Edge>) {
    (forall k :: k in rows ==> !rows[k].deleted) &&
    forall e :: e in edges ==>
      e.from in rows && e.to in rows && (IsEndpointType(e.typ) ==> e.from.tag == RecordTag(KFact))
  }

  /** metadataStringIDs */
  function StringIds(value: Value): seq<string> {
    match value
    case Text(t) => if Blank(t) then [] else [t]
    case Texts(ts) => DedupeTrimmed(ts)
    case _ => []
  }

  function PreviousIds(metadata: Metadata): seq<string> {
    if Supersedes in metadata then StringIds(metadata[Supersedes]) else []
  }

  function EdgesTo(from: Key, kind: Kind, ids: seq<string>, typ: EdgeType): seq<Edge> {
    if ids == [] then []
    else EdgesTo(from, kind, ids[..|ids| - 1], typ) +
         (if ids[|ids| - 1] == "" then [] else [Edge(from, Key(RecordTag(kind), ids[|ids| - 1]), typ)])
  }

  /** The edges replaceLatticeEdges creates for one changed record. */
  function OutEdges(s: State, k: Key): seq<Edge> {
    if k.id == "" then []
    else if k.tag == RecordTag(KEpisode) && k.id in s.episodes then
      EdgesTo(k, KSource, [s.episodes[k.id].sourceId], FromSource)
    else if k.tag == RecordTag(KFact) && k.id in s.facts then
      var fact := s.facts[k.id];
      EdgesTo(k, KEntity, [fact.subjectId], SubjectEdge) + EdgesTo(k, KEntity, [fact.objectId], ObjectEdge) +
      EdgesTo(k, KEpisode, fact.support, SupportedBy) +
      EdgesTo(k, KFact, PreviousIds(fact.metadata), SupersedesEdge)
    else []
  }

  lemma {:induction false} EdgesToShape(from: Key, kind: Kind, ids: seq<string>, typ: EdgeType)
    ensures forall e :: e in EdgesTo(from, kind, ids, typ) <==>
      e.from == from && e.typ == typ && e.to.tag == RecordTag(kind) && e.to.id in ids && e.to.id != ""
    ensures |ids| == 1 ==> EdgesTo(from, kind, ids, typ) == if ids[0] == "" then [] else [Edge(from, Key(RecordTag(kind), ids[0]), typ)]
  {
    if ids != [] {
      EdgesToShape(from, kind, ids[..|ids| - 1], typ);
    }
  }

  lemma OutEdgesShape(s: State, k: Key)
    ensures forall e :: e in OutEdges(s, k) ==> e.from == k
    ensures forall e: Edge :: IsEndpointType(e.typ) && e.from == k ==> (e in OutEdges(s, k) <==> IsEndpointEdge(s, e))
  {
    hide PreviousIds, EdgesTo;
    if k.tag == RecordTag(KEpisode) && k.id in s.episodes {
      EdgesToShape(k, KSource, [s.episodes[k.id].sourceId], FromSource);
    } else if k.tag == RecordTag(KFact) && k.id in s.facts {
      var fact := s.facts[k.id];
      EdgesToShape(k, KEntity, [fact.subjectId], SubjectEdge);
      EdgesToShape(k, KEntity, [fact.objectId], ObjectEdge);
      EdgesToShape(k, KEpisode, fact.support, SupportedBy);
      EdgesToShape(k, KFact, PreviousIds(fact.metadata), SupersedesEdge);
    }
  }

  /** An edge leads to a record, of the kind its type fixes. */
  predicate TargetNamed(s: State, k: Key, e: Edge) {
    match e.typ
    case FromSource =>
      k.tag == RecordTag(KEpisode) && k.id in s.episodes && e.to == Key(RecordTag(KSource), s.episodes[k.id].sourceId)
    case SubjectEdge => k.tag == RecordTag(KFact) && k.id in s.facts && e.to == EntityKey(s.facts[k.id].subjectId)
    case ObjectEdge => k.tag == RecordTag(KFact) && k.id in s.facts && e.to == EntityKey(s.facts[k.id].objectId)
    case SupportedBy =>
      k.tag == RecordTag(KFact) && k.id in s.facts && e.to.tag == RecordTag(KEpisode) && e.to.id in s.facts[k.id].support
    case SupersedesEdge =>
      k.tag == RecordTag(KFact) && k.id in s.facts && e.to.tag == RecordTag(KFact) &&
      e.to.id in PreviousIds(s.facts[k.id].metadata)
  }

  lemma OutEdgesTargets(s: State, k: Key)
    ensures forall e :: e in OutEdges(s, k) <==> e.from == k && k.id != "" && e.to.id != "" && TargetNamed(s, k, e)
  {
    hide PreviousIds, EdgesTo;
    if k.tag == RecordTag(KEpisode) && k.id in s.episodes {
      EdgesToShape(k, KSource, [s.episodes[k.id].sourceId], FromSource);
    } else if k.tag == RecordTag(KFact) && k.id in s.facts {
      var fact := s.facts[k.id];
      EdgesToShape(k, KEntity, [fact.subjectId], SubjectEdge);
      EdgesToShape(k, KEntity, [fact.objectId], ObjectEdge);
      EdgesToShape(k, KEpisode, fact.support, SupportedBy);
      EdgesToShape(k, KFact, PreviousIds(fact.metadata), SupersedesEdge);
    }
  }

  // ----- which states have all their edge targets -----

  ghost predicate TargetsStored(s: State) {
    forall k, e :: e in OutEdges(s, k) ==> At(s, e.to).Some?
  }

  /** Lineage edges look their target up under its trimmed ID. */
  predicate Findable(facts: map<string, Fact>, id: string) {
    Blank(id) || Trim(id) in facts
  }

  /** Every retired fact can be found under its trimmed ID. */
  ghost predicate RetiredFindable(facts: map<string, Fact>) {
    forall id :: Retired(facts, id) ==> Findable(facts, id)
  }

  /** The fact's lineage marker names this fact alone. */
  predicate Replaces(fact: Fact, id: string) {
    Supersedes in fact.metadata && fact.metadata[Supersedes] == Texts([id])
  }

  ghost predicate ReplacedIn(facts: map<string, Fact>, id: string) {
    exists next :: next in facts && Replaces(facts[next], id)
  }

  predicate Retired(facts: map<string, Fact>, id: string) {
    id in facts && SupersededBy in facts[id].metadata
  }

  lemma PreviousOf(fact: Fact, target: string)
    requires Replaces(fact, target)
    ensures PreviousIds(fact.metadata) == if Blank(target) then [] else [Trim(target)]
  {
    TrimmedToNothing(target);
    hide Trim, Blank;
    assert DedupeTrimmed([target]) == if Trim(target) == "" then [] else [Trim(target)] by {
      DedupeOne(target, {});
    }
  }

  lemma DedupeOne(text: string, seen: set<string>)
    requires Trim(text) !in seen
    ensures DedupeTrimmedFrom([text], seen) == if Trim(text) == "" then [] else [Trim(text)]
  {
    hide Trim;
    assert [text][1..] == [] && [text][0] == text;
    assert forall s :: DedupeTrimmedFrom([], s) == [];
  }

  /** The fact a lineage marker names, and the marker that names it back. */
  lemma LineageOf(s: State, id: string)
    requires Inv(s) && id in s.facts
    ensures Supersedes in s.facts[id].metadata ==> exists target :: Replaces(s.facts[id], target) && Retired(s.facts, target)
    ensures Retired(s.facts, id) ==> ReplacedIn(s.facts, id)
  {
    hide Core, StampsOk, PhasesOk;
    assert LifeOk(s.facts, s.facts[id]) && s.facts[id].id == id;
    if Supersedes in s.facts[id].metadata {
      var texts := s.facts[id].metadata[Supersedes].texts;
      assert texts == [texts[0]];
      assert Replaces(s.facts[id], texts[0]) && Retired(s.facts, texts[0]);
    }
    if Retired(s.facts, id) {
      assert Replaces(s.facts[s.facts[id].metadata[SupersededBy].text], id);
    }
  }

  lemma PlainTargetsStored(s: State, k: Key, e: Edge)
    requires Inv(s) && e in OutEdges(s, k) && e.typ != SupersedesEdge
    ensures At(s, e.to).Some?
  {
    hide FactLog, EntityLog, IdsUnique, Lifecycle, OutEdges, Blank, Trim;
    OutEdgesTargets(s, k);
  }

  lemma RetiredTargetStored(s: State, k: Key, e: Edge)
    requires Inv(s) && RetiredFindable(s.facts) && e in OutEdges(s, k) && e.typ == SupersedesEdge
    ensures At(s, e.to).Some?
  {
    hide Inv, OutEdges, Blank, Trim, PreviousIds;
    OutEdgesTargets(s, k);
    NoPrevious(s.facts[k.id]);
    LineageOf(s, k.id);
    var target :| Replaces(s.facts[k.id], target) && Retired(s.facts, target);
    PreviousOf(s.facts[k.id], target);
    assert Findable(s.facts, target);
  }

  lemma NoPrevious(fact: Fact)
    ensures PreviousIds(fact.metadata) != [] ==> Supersedes in fact.metadata
  {
  }

  lemma FactsAreNamed(s: State)
    requires Inv(s)
    ensures "" !in s.facts
  {
    hide KeysMatch, IdsUnique, FactLog, EntityLog, Lifecycle;
  }

  lemma UnfindableDangles(s: State, id: string) returns (k: Key, e: Edge)
    requires Inv(s) && Retired(s.facts, id) && !Findable(s.facts, id)
    ensures k.tag == RecordTag(KFact) && k.id in s.facts && Replaces(s.facts[k.id], id)
    ensures e in OutEdges(s, k) && At(s, e.to).None?
  {
    hide Inv, OutEdges, Blank, Trim, PreviousIds;
    FactsAreNamed(s);
    LineageOf(s, id);
    var next :| next in s.facts && Replaces(s.facts[next], id);
    PreviousOf(s.facts[next], id);
    TrimmedToNothing(id);
    k := FactKey(next);
    e := Edge(k, FactKey(Trim(id)), SupersedesEdge);
    OutEdgesTargets(s, k);
  }

  /** Every edge a state of the engine calls for has its target, exactly if every
      retired fact can be found under its trimmed ID. */
  lemma TargetsStoredIff(s: State)
    requires Inv(s)
    ensures TargetsStored(s) <==> RetiredFindable(s.facts)
    ensures RetiredFindable(s.facts) ==> forall prev :: !Dangles(prev, s)
  {
    hide Inv, OutEdges, At, Findable;
    if TargetsStored(s) {
      forall id | Retired(s.facts, id)
        ensures Findable(s.facts, id)
      {
        if !Findable(s.facts, id) {
          var k, e := UnfindableDangles(s, id);
        }
      }
    }
    if RetiredFindable(s.facts) {
      forall k, e | e in OutEdges(s, k)
        ensures At(s, e.to).Some?
      {
        if e.typ == SupersedesEdge {
          RetiredTargetStored(s, k, e);
        } else {
          PlainTargetsStored(s, k, e);
        }
      }
    }
  }

  /** Some fact has this ID once whitespace is trimmed, or will have. */
  predicate Lands(facts: map<string, Fact>, newId: string, id: string) {
    Blank(id) || Trim(id) in facts || Trim(id) == newId
  }

  /** The fact replaces one that cannot be found. */
  ghost predicate Stranded(facts: map<string, Fact>, newId: string, id: string) {
    id in facts && exists target :: Replaces(facts[id], target) && !Lands(facts, newId, target)
  }

  /** A save of the state after a supersession calls for a missing target exactly if the
      trimmed ID of the superseded fact is neither a fact's nor the replacement's, or if
      that already held when the superseded fact replaced another one. */
  lemma SupersedeDanglesIff(s: State, prev: State, id: string, input: FactInput, reason: string, now: int)
    requires Inv(s) && now > 0 && SupersedeFact(s, id, input, reason, now).Ok? && prev.facts == s.facts
    ensures var done := SupersedeFact(s, id, input, reason, now).value;
            Dangles(prev, done.state) <==> !Lands(s.facts, done.newId, id) || Stranded(s.facts, done.newId, id)
  {
    hide Inv, OutEdges, SupersedeFact, Lands, Grows, SupersedeEffect, Replaces, Dangles, Stranded;
    SupersedeKeepsInv(s, id, input, reason, now);
    var done := SupersedeFact(s, id, input, reason, now).value;
    HandedOver(s, done.state, id, done.newId, input, reason, now);
    if Dangles(prev, done.state) {
      DanglesMeans(s, prev, done.state, id, done.newId);
    }
    if !Lands(s.facts, done.newId, id) {
      LineageDangles(s, prev, done.state, id, done.newId, done.newId, id);
    }
    if Stranded(s.facts, done.newId, id) {
      var target := StrandedBy(s.facts, done.newId, id);
      LineageDangles(s, prev, done.state, id, done.newId, id, target);
    }
  }

  lemma StrandedBy(facts: map<string, Fact>, newId: string, id: string) returns (target: string)
    requires Stranded(facts, newId, id)
    ensures Replaces(facts[id], target) && !Lands(facts, newId, target)
  {
    hide Replaces, Lands;
    target :| Replaces(facts[id], target) && !Lands(facts, newId, target);
  }

  /** What a supersession does to the lineage markers. */
  ghost predicate Relinked(s: State, t: State, id: string, newId: string) {
    Inv(s) && Inv(t) && id in s.facts && newId !in s.facts && t.facts.Keys == s.facts.Keys + {newId} &&
    (forall x :: x in s.facts && x != id ==> t.facts[x] == s.facts[x]) && t.facts[id] != s.facts[id] &&
    Replaces(t.facts[newId], id) && (forall p :: Replaces(t.facts[id], p) <==> Replaces(s.facts[id], p))
  }

  lemma HandedOver(s: State, t: State, id: string, newId: string, input: FactInput, reason: string, now: int)
    requires Inv(s) && Inv(t) && SupersedeEffect(s.facts, t.facts, id, newId, input, reason, now)
    ensures Relinked(s, t, id, newId)
  {
    hide Inv, Trim, Distinct;
  }

  /** A fact whose marker names an unfindable one calls for a missing target. */
  lemma LineageDangles(s: State, prev: State, t: State, id: string, newId: string, x: string, target: string)
    requires Relinked(s, t, id, newId) && prev.facts == s.facts && (x == id || x == newId)
    requires Replaces(t.facts[x], target) && !Lands(s.facts, newId, target)
    ensures Dangles(prev, t)
  {
    hide Inv, OutEdges, Blank, Trim, PreviousIds, Replaces;
    FactsAreNamed(t);
    PreviousOf(t.facts[x], target);
    TrimmedToNothing(target);
    var k := FactKey(x);
    var e := Edge(k, FactKey(Trim(target)), SupersedesEdge);
    OutEdgesTargets(t, k);
    assert At(t, k).Some? && At(prev, k) != At(t, k) && e in OutEdges(t, k) && At(t, e.to).None?;
  }

  lemma DanglesMeans(s: State, prev: State, t: State, id: string, newId: string)
    requires Relinked(s, t, id, newId) && prev.facts == s.facts && Dangles(prev, t)
    ensures !Lands(s.facts, newId, id) || Stranded(s.facts, newId, id)
  {
    hide Inv, OutEdges, Blank, Trim, PreviousIds, Replaces, Dangles;
    var k, e := DanglingEdge(prev, t);
    if e.typ != SupersedesEdge {
      PlainTargetsStored(t, k, e);
      assert false;
    }
    OutEdgesTargets(t, k);
    assert k.id == id || k.id == newId;
    NoPrevious(t.facts[k.id]);
    LineageOf(t, k.id);
    var target :| Replaces(t.facts[k.id], target) && Retired(t.facts, target);
    PreviousOf(t.facts[k.id], target);
    if k.id == newId {
      OneMarker(t.facts[newId], id, target);
    }
  }

  lemma DanglingEdge(prev: State, next: State) returns (k: Key, e: Edge)
    requires Dangles(prev, next)
    ensures At(next, k).Some? && At(prev, k) != At(next, k) && e in OutEdges(next, k) && At(next, e.to).None?
  {
    hide OutEdges, At;
    k, e :| At(next, k).Some? && At(prev, k) != At(next, k) && e in OutEdges(next, k) && At(next, e.to).None?;
  }

  lemma OneMarker(fact: Fact, a: string, b: string)
    requires Replaces(fact, a) && Replaces(fact, b)
    ensures a == b
  {
    assert [a][0] == [b][0];
  }

  // ----- the graph after a save -----

  function Removed(delta: Rows): set<Key> {
    set k | k in delta && delta[k].deleted
  }

  function Changed(delta: Rows): set<Key> {
    set k | k in delta && !delta[k].deleted
  }

  /** Node writes: removals take their edges along. */
  function RowsAfter(rows: Rows, delta: Rows): Rows {
    (rows - Removed(delta)) + (map k | k in Changed(delta) :: delta[k])
  }

  /** Deleting nodes takes their edges along, in both directions. */
  function EdgesRemaining(edges: set<Edge>, delta: Rows): set<Edge> {
    set e | e in edges && e.from !in Removed(delta) && e.to !in Removed(delta)
  }

  /** The edges that survive: not touching a removed node, not leaving a changed one. */
  function EdgesKept(edges: set<Edge>, delta: Rows): set<Edge> {
    set e | e in EdgesRemaining(edges, delta) && e.from !in Changed(delta)
  }

  /** If the endpoint edges were exact, replacing only the edges of changed nodes leaves
      them exact, deletions and re-creations of entities included, exactly if no fact that
      stays as it is loses an endpoint. */
  lemma ReplaceKeepsExact(prev: State, next: State, edges: set<Edge>, edges': set<Edge>)
    requires EndpointsExact(prev, edges)
    requires forall e :: e in edges' <==>
      e in EdgesKept(edges, Delta(prev, next)) || (e.from in Changed(Delta(prev, next)) && e in OutEdges(next, e.from))
    ensures EndpointsExact(next, edges') <==> KeepsEndpoints(prev, next)
  {
    hide EndpointsExact, KeepsEndpoints, OutEdges, Delta;
    if KeepsEndpoints(prev, next) {
      KeptIsExact(prev, next, edges, edges');
    }
    if EndpointsExact(next, edges') {
      ExactIsKept(prev, next, edges, edges');
    }
  }

  lemma KeptIsExact(prev: State, next: State, edges: set<Edge>, edges': set<Edge>)
    requires EndpointsExact(prev, edges) && KeepsEndpoints(prev, next)
    requires forall e :: e in edges' <==>
      e in EdgesKept(edges, Delta(prev, next)) || (e.from in Changed(Delta(prev, next)) && e in OutEdges(next, e.from))
    ensures EndpointsExact(next, edges')
  {
    hide OutEdges, KeysOf;
    var delta := Delta(prev, next);
    forall e: Edge | IsEndpointType(e.typ)
      ensures e in edges' <==> IsEndpointEdge(next, e)
    {
      OutEdgesShape(next, e.from);
      KeysMeanRecords(prev, next, e.from);
      KeysMeanRecords(prev, next, e.to);
      if e.from !in delta {
        assert IsEndpointEdge(prev, e) <==> IsEndpointEdge(next, e) by {
          SameFact(prev, next, e.from);
        }
        if IsEndpointEdge(next, e) {
          TargetKept(prev, next, e);
          assert e.to !in Removed(delta);
        }
      }
    }
  }

  lemma ExactIsKept(prev: State, next: State, edges: set<Edge>, edges': set<Edge>)
    requires EndpointsExact(next, edges')
    requires forall e :: e in edges' ==> e in EdgesKept(edges, Delta(prev, next)) || e.from in Changed(Delta(prev, next))
    ensures KeepsEndpoints(prev, next)
  {
    hide KeysOf;
    forall id | id != "" && id in prev.facts && id in next.facts && prev.facts[id] == next.facts[id]
      ensures KeepsEntity(prev, next, next.facts[id].subjectId) && KeepsEntity(prev, next, next.facts[id].objectId)
    {
      var fact := next.facts[id];
      EndpointKept(prev, next, edges, edges', Edge(FactKey(id), EntityKey(fact.subjectId), SubjectEdge));
      EndpointKept(prev, next, edges, edges', Edge(FactKey(id), EntityKey(fact.objectId), ObjectEdge));
    }
  }

  lemma EndpointKept(prev: State, next: State, edges: set<Edge>, edges': set<Edge>, e: Edge)
    requires EndpointsExact(next, edges') && IsEndpointType(e.typ) && At(prev, e.from) == At(next, e.from)
    requires forall e :: e in edges' ==> e in EdgesKept(edges, Delta(prev, next)) || e.from in Changed(Delta(prev, next))
    ensures IsEndpointEdge(next, e) && At(prev, e.to).Some? ==> At(next, e.to).Some?
  {
    hide KeysOf, Delta;
    KeysMeanRecords(prev, next, e.from);
    KeysMeanRecords(prev, next, e.to);
  }

  lemma TargetKept(prev: State, next: State, e: Edge)
    requires KeepsEndpoints(prev, next) && IsEndpointEdge(next, e) && At(prev, e.from) == At(next, e.from)
    ensures At(prev, e.to).Some? ==> At(next, e.to).Some?
  {
    SameFact(prev, next, e.from);
  }

  lemma SameFact(prev: State, next: State, k: Key)
    requires At(prev, k) == At(next, k)
    ensures k.tag == RecordTag(KFact) ==>
      (k.id in prev.facts <==> k.id in next.facts) && (k.id in prev.facts ==> prev.facts[k.id] == next.facts[k.id])
  {
  }

  lemma KeysMeanRecords(prev: State, next: State, k: Key)
    ensures k in Delta(prev, next) <==> At(prev, k) != At(next, k)
    ensures k in Delta(prev, next) ==> (Delta(prev, next)[k].deleted <==> At(next, k).None?)
    ensures k.tag == RecordTag(KFact) ==> (At(next, k).Some? <==> k.id in next.facts)
  {
    hide KeysOf;
    assert k in KeysOf(prev) + KeysOf(next) <==> At(prev, k).Some? || At(next, k).Some?;
  }

  /** What a load reads of the graph: the nodes with a known label, and the state metadata,
      or what stands for it in a database that has none. */
  function Stored(rows: Rows): Rows {
    var known := map k | k in rows && IsRecord(k) :: rows[k];
    if META in rows then known[META := rows[META]]
    else if known == map[] then map[]
    else known[META := MetaRow(Empty())]
  }

  lemma StoredRecords(rows: Rows, k: Key)
    requires IsRecord(k)
    ensures k in Stored(rows) <==> k in rows
    ensures k in rows ==> Stored(rows)[k] == rows[k]
  {
  }

  /** The node table after the save loads as the saved state. */
  lemma RowsAfterLoad(rows: Rows, prev: State, next: State)
    requires Loads(Stored(rows), prev) && WellKeyed(next)
    ensures Loads(Stored(RowsAfter(rows, Delta(prev, next))[META := MetaRow(next)]), next)
  {
    hide Loads, MetaRow, At, KeysOf;
    TableLoads(Stored(rows), prev, next);
    StoredAfter(rows, prev, next);
  }

  lemma StoredAfter(rows: Rows, prev: State, next: State)
    ensures var delta := Delta(prev, next);
            Stored(RowsAfter(rows, delta)[META := MetaRow(next)]) == RowsAfter(Stored(rows), delta)[META := MetaRow(next)]
  {
    MetaIsNoRecord(prev);
    MetaIsNoRecord(next);
    var delta := Delta(prev, next);
    assert forall k :: k in delta ==> IsRecord(k) by {
      forall k | k in delta
        ensures IsRecord(k)
      {
        if k in KeysOf(prev) {
          RecordsOnly(prev, k);
        } else {
          RecordsOnly(next, k);
        }
      }
    }
    hide At, KeysOf, MetaRow, Delta;
    var a, b := Stored(RowsAfter(rows, delta)[META := MetaRow(next)]), RowsAfter(Stored(rows), delta)[META := MetaRow(next)];
    forall k
      ensures k in a <==> k in b
      ensures k in a ==> a[k] == b[k]
    {
      if IsRecord(k) {
        StoredRecords(rows, k);
        StoredRecords(RowsAfter(rows, delta)[META := MetaRow(next)], k);
      }
    }
  }

  lemma TableLoads(rows: Rows, prev: State, next: State)
    requires Loads(rows, prev) && WellKeyed(next)
    ensures Loads(RowsAfter(rows, Delta(prev, next))[META := MetaRow(next)], next)
  {
    MetaIsNoRecord(next);
    MetaIsNoRecord(prev);
    hide At, KeysOf, Fits;
    var delta := Delta(prev, next);
    var rows' := RowsAfter(rows, delta)[META := MetaRow(next)];
    forall k | k != META
      ensures At(next, k) == if Live(rows', k) then Some(rows'[k].payload) else None
      ensures Live(rows', k) ==> Fits(k, rows'[k].payload)
    {
      KeysMeanRecords(prev, next, k);
      if k in delta {
        assert k in Changed(delta) ==> rows'[k] == delta[k];
      } else {
        assert Live(rows', k) <==> Live(rows, k);
      }
    }
    assert META in rows' && rows'[META] == MetaRow(next);
    assert Decodable(rows');
  }

  // ----- the store -----

  datatype Candidates = Found(ids: seq<string>) | Unavailable | Canceled | Failed

  /** The graph database: nodes by label and ID, typed edges, and the flag that says
      the endpoint edges were maintained from the beginning. */
  class LatticeDb {
    var rows: Rows
    var edges: set<Edge>
    var edgesFlag: bool

    ghost predicate Valid()
      reads this
    {
      EdgesClosed(rows, edges)
    }

    /** The flag is set only over exact endpoint edges. */
    ghost predicate FlagIsTrue()
      reads this
    {
      edgesFlag ==> forall s :: Loads(Stored(rows), s) ==> EndpointsExact(s, edges)
    }

    constructor ()
      ensures Valid() && FlagIsTrue() && rows == map[] && edges == {} && !edgesFlag
    {
      rows, edges, edgesFlag := map[], {}, false;
    }
  }

  /** Node writes of reconcileNodes, on the transaction's copy of the graph. */
  method ReconcileNodes(rows0: Rows, edges0: set<Edge>, delta: Rows) returns (rows: Rows, edges: set<Edge>)
    ensures rows == RowsAfter(rows0, delta)
    ensures edges == EdgesRemaining(edges0, delta)
  {
    hide RowsAfter, EdgesRemaining;
    rows, edges := rows0, edges0;
    var todo := delta.Keys;
    ghost var done: Rows := map[];
    NothingReconciled(rows0, edges0);
    while todo != {}
      invariant todo <= delta.Keys && done == delta - todo
      invariant rows == RowsAfter(rows0, done) && edges == EdgesRemaining(edges0, done)
      decreases |todo|
    {
      var k :| k in todo;
      OneReconciled(rows0, edges0, done, k, delta[k]);
      todo := todo - {k};
      done := done[k := delta[k]];
      if delta[k].deleted {
        rows := rows - {k};
        edges := set e | e in edges && e.from != k && e.to != k;
      } else {
        rows := rows[k := delta[k]];
      }
    }
    assert done == delta;
  }

  lemma NothingReconciled(rows: Rows, edges: set<Edge>)
    ensures rows == RowsAfter(rows, map[]) && edges == EdgesRemaining(edges, map[])
  {
  }

  lemma OneKey(done: Rows, k: Key, row: Row)
    requires k !in done
    ensures Removed(done[k := row]) == if row.deleted then Removed(done) + {k} else Removed(done)
    ensures Changed(done[k := row]) == if row.deleted then Changed(done) else Changed(done) + {k}
  {
    var done' := done[k := row];
    assert done'[k] == row && forall j :: j in done ==> done'[j] == done[j];
  }

  lemma OneRow(rows: Rows, done: Rows, k: Key, row: Row)
    requires k !in done
    ensures RowsAfter(rows, done[k := row]) ==
            if row.deleted then RowsAfter(rows, done) - {k} else RowsAfter(rows, done)[k := row]
  {
    OneKey(done, k, row);
    hide Removed, Changed;
    if row.deleted {
      assert Changed(done[k := row]) == Changed(done);
    }
  }

  lemma OneReconciled(rows: Rows, edges: set<Edge>, done: Rows, k: Key, row: Row)
    requires k !in done
    ensures RowsAfter(rows, done[k := row]) ==
            if row.deleted then RowsAfter(rows, done) - {k} else RowsAfter(rows, done)[k := row]
    ensures EdgesRemaining(edges, done[k := row]) ==
            if row.deleted then (set e | e in EdgesRemaining(edges, done) && e.from != k && e.to != k)
            else EdgesRemaining(edges, done)
  {
    OneRow(rows, done, k, row);
    OneKey(done, k, row);
    hide RowsAfter, Removed, Changed;
  }

  /** Some changed record calls for an edge to a node that is not there. */
  ghost predicate Lacks(rows: Rows, changed: set<Key>, state: State) {
    exists k, e :: k in changed && e in OutEdges(state, k) && e.to !in rows
  }

  /** replaceLatticeEdges: drop the edges leaving changed nodes, then create theirs. A
      missing target aborts the transaction. */
  method ReplaceEdges(rows: Rows, edges0: set<Edge>, changed: set<Key>, state: State) returns (ok: bool, edges: set<Edge>)
    ensures ok ==> forall e :: e in edges <==>
      (e in edges0 && e.from !in changed) || (e.from in changed && e in OutEdges(state, e.from))
    ensures ok <==> !Lacks(rows, changed, state)
  {
    hide OutEdges;
    edges := set e | e in edges0 && e.from !in changed;
    var todo := changed;
    while todo != {}
      invariant todo <= changed
      invariant forall e :: e in edges <==>
        (e in edges0 && e.from !in changed) || (e.from in changed - todo && e in OutEdges(state, e.from))
      invariant forall e :: e in edges && e.from in changed ==> e.to in rows
      decreases |todo|
    {
      var k :| k in todo;
      OutEdgesShape(state, k);
      var wanted := OutEdges(state, k);
      ghost var before := edges;
      for i := 0 to |wanted|
        invariant forall e :: e in edges <==> e in before || e in wanted[..i]
        invariant forall e :: e in edges && e.from in changed ==> e.to in rows
      {
        if wanted[i].to !in rows {
          assert wanted[i] in OutEdges(state, k);
          return false, edges0;
        }
        edges := edges + {wanted[i]};
      }
      assert wanted[..|wanted|] == wanted;
      todo := todo - {k};
    }
    ok := true;
    forall k, e | k in changed && e in OutEdges(state, k)
      ensures e.to in rows
    {
      OutEdgesShape(state, k);
      assert e in edges;
    }
  }

  // ----- following edges -----

  function Incoming(edges: set<Edge>, entityId: string, typ: EdgeType): set<Edge> {
    set e | e in edges && e.to == EntityKey(entityId) && e.typ == typ
  }

  predicate NamesEndpoint(s: State, subjectIds: seq<string>, objectIds: seq<string>, id: string) {
    id != "" && id in s.facts &&
    ((s.facts[id].subjectId in subjectIds && s.facts[id].subjectId != "") ||
     (s.facts[id].objectId in objectIds && s.facts[id].objectId != ""))
  }

  ghost predicate Reaches(edges: set<Edge>, entityIds: seq<string>, typ: EdgeType, factId: string) {
    exists e :: e in edges && e.typ == typ && e.from.id == factId && e.to.tag == RecordTag(KEntity) && e.to.id in entityIds
  }

  lemma EdgesNameEndpoints(s: State, edges: set<Edge>, subjectIds: seq<string>, objectIds: seq<string>, id: string)
    requires EndpointsExact(s, edges)
    ensures Reaches(edges, subjectIds, SubjectEdge, id) || Reaches(edges, objectIds, ObjectEdge, id) <==>
            NamesEndpoint(s, subjectIds, objectIds, id)
  {
    if NamesEndpoint(s, subjectIds, objectIds, id) {
      var subject := Edge(FactKey(id), EntityKey(s.facts[id].subjectId), SubjectEdge);
      var object_ := Edge(FactKey(id), EntityKey(s.facts[id].objectId), ObjectEdge);
      assert IsEndpointEdge(s, subject) ==> subject in edges;
      assert IsEndpointEdge(s, object_) ==> object_ in edges;
    }
  }

  /** One of the two lookup loops of the candidate query: an entity without a node has
      no edges, and one with too many stops the query. */
  method FollowAll(rows: Rows, edges: set<Edge>, entityIds: seq<string>, typ: EdgeType) returns (ok: bool, seen: set<string>)
    requires EdgesClosed(rows, edges)
    ensures ok ==> forall id :: id in seen <==> Reaches(edges, entityIds, typ, id)
    ensures !ok ==> exists id :: id in entityIds && |Incoming(edges, id, typ)| > MAX_FANOUT
  {
    seen := {};
    for i := 0 to |entityIds|
      invariant forall id :: id in seen <==> Reaches(edges, entityIds[..i], typ, id)
    {
      if EntityKey(entityIds[i]) in rows {
        var found := Incoming(edges, entityIds[i], typ);
        if |found| > MAX_FANOUT {
          assert entityIds[i] in entityIds;
          return false, {};
        }
        seen := seen + set e | e in found :: e.from.id;
      }
    }
    assert entityIds[..|entityIds|] == entityIds;
    ok := true;
  }

  datatype SaveOutcome = Committed | MissingTarget | NotCommitted

  /** A record that differs calls for an edge to a record that is not stored. */
  ghost predicate Dangles(prev: State, next: State) {
    exists k, e :: At(next, k).Some? && At(prev, k) != At(next, k) && e in OutEdges(next, k) && At(next, e.to).None?
  }

  class LatticeStore {
    const db: LatticeDb
    const readOnly: bool
    var lastState: State
    var loaded: bool
    var ready: bool

    /** A loaded store knows exactly what is on disk. */
    ghost predicate Valid()
      reads this, db
    {
      db.Valid() && (!loaded ==> lastState == Empty() && !ready) && (loaded ==> Loads(Stored(db.rows), lastState))
    }

    /** While ready, the endpoint edges on disk are exactly those of the last state; and
        every record saved has an ID, so that it can be loaded again. */
    ghost predicate Sound()
      reads this, db
    {
      db.FlagIsTrue() && (loaded ==> AllNamed(lastState)) && (ready ==> EndpointsExact(lastState, db.edges))
    }

    /** A load succeeds and gives exactly this state. */
    ghost predicate Holds(s: State)
      reads db
    {
      Loads(Stored(db.rows), s) && AllNamed(s)
    }

    constructor (db: LatticeDb, readOnly: bool)
      requires db.Valid()
      ensures Valid() && this.db == db && this.readOnly == readOnly && !loaded
      ensures db.FlagIsTrue() ==> Sound()
    {
      this.db, this.readOnly := db, readOnly;
      lastState, loaded, ready := Empty(), false, false;
    }

    /** Load trusts the flag, or a database without any records. */
    method Load() returns (r: Result<State>)
      requires Valid()
      modifies this
      ensures Valid() && (old(Sound()) ==> Sound())
      ensures r.Ok? ==> loaded && lastState == r.value && Holds(r.value)
      ensures r.Err? ==> unchanged(this)
    {
      hide Loads, EndpointsExact, Stored, AllNamed;
      var failed: bool := *;
      if failed {
        return Err(StorageFailed);
      }
      var decoded := DecodeNodes(db.rows);
      if decoded.Err? {
        return decoded;
      }
      var s := decoded.value;
      ready := db.edgesFlag;
      if !ready && s.sources == map[] && s.episodes == map[] && s.entities == map[] && s.facts == map[] &&
         s.factRevisions == map[] && s.entityRevisions == map[] {
        ready := true;
        NoFactsNoEdges(db.rows, s, db.edges);
      }
      lastState, loaded := s, true;
      return decoded;
    }

    /** Save applies the delta and rewrites the edges of the changed nodes, in one
        transaction that either commits or changes nothing. It is refused for a missing
        target exactly when a changed record calls for one; otherwise it fails only when
        the transaction does not commit. Exact edges stay exact exactly if no fact that
        stays as it is loses an endpoint. */
    method Save(state: State) returns (outcome: SaveOutcome)
      requires Valid() && WellKeyed(state) && (loaded || Loads(Stored(db.rows), Empty()))
      modifies this, db
      ensures Valid() && ready == old(ready) && (old(loaded) ==> loaded)
      ensures outcome == Committed && !readOnly ==> lastState == state && (loaded || state == Empty())
      ensures outcome != Committed || readOnly ==> unchanged(this) && unchanged(db)
      ensures !readOnly ==> (outcome == MissingTarget <==> Dangles(old(lastState), state))
      ensures outcome == Committed && !readOnly && EndpointsExact(old(lastState), old(db.edges)) ==>
        (EndpointsExact(state, db.edges) <==> KeepsEndpoints(old(lastState), state))
      ensures old(Sound()) && KeepsEndpoints(old(lastState), state) && AllNamed(state) ==> Sound()
    {
      hide Loads, EndpointsExact, KeepsEndpoints, WellKeyed, Delta, OutEdges, KeysOf, At, Dangles, Lacks, Stored, AllNamed,
           EdgesClosed, RowsAfter, EdgesKept, EdgesRemaining;
      if readOnly {
        return Committed;
      }
      if lastState == state {
        NothingDangles(state);
        NothingLost(state);
        return Committed;
      }
      var composite := BuildDelta(lastState, state);
      var delta := RowsOf(composite, Delta(lastState, state));
      var rows, edges := ReconcileNodes(db.rows, db.edges, delta);
      rows := rows[META := MetaRow(state)];
      var created, edges' := ReplaceEdges(rows, edges, Changed(delta), state);
      assert Loads(Stored(rows), state) && (Lacks(rows, Changed(delta), state) <==> Dangles(lastState, state)) by {
        RowsAfterLoad(db.rows, lastState, state);
        RowsClosed(db.rows, db.edges, delta, state);
        LacksIffDangles(rows, lastState, state);
      }
      var commits: bool := *;
      if !created || !commits {
        return if created then NotCommitted else MissingTarget;
      }
      EdgesAfter(db.rows, db.edges, lastState, state, rows, edges, edges');
      FlagMeans(db, lastState);
      forall s | Loads(Stored(rows), s)
        ensures s == state
      {
        LoadsUnique(Stored(rows), s, state);
      }
      db.rows, db.edges, db.edgesFlag := rows, edges', ready || db.edgesFlag;
      lastState, loaded := state, true;
      return Committed;
    }

    /** FactCandidates: the facts whose stored subject or object is one of the wanted
        entities, found by following edges into those entities. */
    method FactCandidates(subjectIds: seq<string>, objectIds: seq<string>) returns (r: Candidates)
      requires Valid() && Sound() && loaded
      ensures r.Found? ==> Sorted(r.ids, Less)
      ensures r.Found? ==> forall id :: id in r.ids <==> NamesEndpoint(lastState, subjectIds, objectIds, id)
      ensures r.Unavailable? && ready ==>
        (exists id :: id in subjectIds && |Incoming(db.edges, id, SubjectEdge)| > MAX_FANOUT) ||
        (exists id :: id in objectIds && |Incoming(db.edges, id, ObjectEdge)| > MAX_FANOUT)
    {
      hide Loads;
      var canceled: bool := *;
      if canceled {
        return Candidates.Canceled;
      }
      if subjectIds == [] && objectIds == [] {
        return Found([]);
      }
      if !ready {
        return Unavailable;
      }
      var failed: bool := *;
      if failed {
        return Candidates.Failed;
      }
      var okSubject, fromSubjects := FollowAll(db.rows, db.edges, subjectIds, SubjectEdge);
      var okObject, fromObjects := FollowAll(db.rows, db.edges, objectIds, ObjectEdge);
      if !okSubject || !okObject {
        return Unavailable;
      }
      forall id
        ensures id in fromSubjects + fromObjects <==> NamesEndpoint(lastState, subjectIds, objectIds, id)
      {
        EdgesNameEndpoints(lastState, db.edges, subjectIds, objectIds, id);
      }
      var ids := SortIds(fromSubjects + fromObjects);
      return Found(ids);
    }
  }

  /** The loaders of Load: the nodes with a known label, each with an ID. A database without
      state metadata loads too. */
  method DecodeNodes(rows: Rows) returns (r: Result<State>)
    ensures r.Ok? ==> Loads(Stored(rows), r.value) && AllNamed(r.value)
    ensures r.Err? ==> forall s :: Loads(Stored(rows), s) ==> !AllNamed(s)
  {
    hide Loads, Stored, AllNamed;
    r := Rhiza.DecodeRows(Stored(rows));
    if r.Ok? {
      var named := HaveIds(r.value);
      if !named {
        forall s | Loads(Stored(rows), s)
          ensures s == r.value
        {
          LoadsUnique(Stored(rows), s, r.value);
        }
        return Err(StorageFailed);
      }
    }
  }

  lemma NothingDangles(s: State)
    ensures !Dangles(s, s)
  {
  }

  lemma NothingLost(s: State)
    ensures KeepsEndpoints(s, s)
  {
  }

  /** Every node has an ID. */
  method HaveIds(s: State) returns (named: bool)
    ensures named <==> AllNamed(s)
  {
    var keys := KeysOf(s);
    var todo := keys;
    named := true;
    while todo != {}
      invariant todo <= keys
      invariant named <==> forall k :: k in keys - todo ==> k.id != ""
      decreases |todo|
    {
      var k :| k in todo;
      todo := todo - {k};
      if k.id == "" {
        named := false;
      }
    }
    NamedMeans(s);
  }

  lemma NamedMeans(s: State)
    ensures AllNamed(s) <==> forall k :: k in KeysOf(s) ==> k.id != ""
  {
    if !AllNamed(s) {
      var kind :| At(s, Key(RecordTag(kind), "")).Some? by {
        assert At(s, Key(RecordTag(KSource), "")).Some? || At(s, Key(RecordTag(KEpisode), "")).Some? ||
               At(s, Key(RecordTag(KEntity), "")).Some? || At(s, Key(RecordTag(KFact), "")).Some? ||
               At(s, Key(RecordTag(KFactRevision), "")).Some? || At(s, Key(RecordTag(KEntityRevision), "")).Some? ||
               At(s, Key(RecordTag(KWatermark), "")).Some?;
      }
    }
  }

  lemma FlagMeans(db: LatticeDb, s: State)
    requires Loads(Stored(db.rows), s)
    ensures db.FlagIsTrue() && db.edgesFlag ==> EndpointsExact(s, db.edges)
  {
  }

  lemma RowsClosed(rows0: Rows, edges0: set<Edge>, delta: Rows, state: State)
    requires EdgesClosed(rows0, edges0)
    ensures var rows := RowsAfter(rows0, delta)[META := MetaRow(state)];
            forall k :: k in rows ==> !rows[k].deleted
  {
  }

  /** The edges of a committed save are closed, and exact if nothing was lost. */
  lemma EdgesAfter(rows0: Rows, edges0: set<Edge>, prev: State, next: State, rows: Rows, mid: set<Edge>, edges: set<Edge>)
    requires EdgesClosed(rows0, edges0) && Loads(Stored(rows0), prev) && WellKeyed(next)
    requires var delta := Delta(prev, next);
             rows == RowsAfter(rows0, delta)[META := MetaRow(next)] && mid == EdgesRemaining(edges0, delta) &&
             !Lacks(rows, Changed(delta), next) &&
             forall e :: e in edges <==>
               (e in mid && e.from !in Changed(delta)) || (e.from in Changed(delta) && e in OutEdges(next, e.from))
    ensures EdgesClosed(rows, edges)
    ensures EndpointsExact(prev, edges0) ==> (EndpointsExact(next, edges) <==> KeepsEndpoints(prev, next))
  {
    hide OutEdges, Delta, EndpointsExact, KeepsEndpoints, EdgesClosed, Loads, MetaRow, RowsAfter, EdgesRemaining;
    var delta := Delta(prev, next);
    assert forall e :: e in edges <==>
      e in EdgesKept(edges0, delta) || (e.from in Changed(delta) && e in OutEdges(next, e.from));
    if EndpointsExact(prev, edges0) {
      ReplaceKeepsExact(prev, next, edges0, edges);
    }
    ClosedAfter(rows0, edges0, delta, next, rows, edges);
  }

  /** On the node table that loads as the new state, a missing node is a missing record. */
  lemma LacksIffDangles(rows: Rows, prev: State, next: State)
    requires Loads(Stored(rows), next) && forall k :: k in rows ==> !rows[k].deleted
    ensures Lacks(rows, Changed(Delta(prev, next)), next) <==> Dangles(prev, next)
  {
    hide OutEdges, At, KeysOf, Delta, Stored;
    forall k
      ensures k in Changed(Delta(prev, next)) <==> At(next, k).Some? && At(prev, k) != At(next, k)
    {
      KeysMeanRecords(prev, next, k);
    }
    forall k, e | e in OutEdges(next, k)
      ensures e.to in rows <==> At(next, e.to).Some?
    {
      OutEdgesTargets(next, k);
      StoredRecords(rows, e.to);
      assert e.to != META;
      assert Live(Stored(rows), e.to) <==> e.to in rows;
    }
  }

  lemma NoFactsNoEdges(rows: Rows, s: State, edges: set<Edge>)
    requires Loads(Stored(rows), s) && EdgesClosed(rows, edges) && s.facts == map[]
    ensures EndpointsExact(s, edges)
  {
    hide Stored;
    forall e: Edge | IsEndpointType(e.typ)
      ensures e !in edges
    {
      if e in edges {
        StoredRecords(rows, e.from);
      }
    }
  }

  lemma ClosedAfter(rows0: Rows, edges0: set<Edge>, delta: Rows, state: State, rows: Rows, edges: set<Edge>)
    requires EdgesClosed(rows0, edges0)
    requires rows == RowsAfter(rows0, delta)[META := MetaRow(state)]
    requires forall e :: e in edges <==>
      e in EdgesKept(edges0, delta) || (e.from in Changed(delta) && e in OutEdges(state, e.from))
    requires !Lacks(rows, Changed(delta), state)
    ensures EdgesClosed(rows, edges)
  {
    hide OutEdges;
    forall e: Edge | e in edges
      ensures e.from in rows && e.to in rows && (IsEndpointType(e.typ) ==> e.from.tag == RecordTag(KFact))
    {
      if e.from in Changed(delta) {
        OutEdgesShape(state, e.from);
        assert e.from in RowsAfter(rows0, delta);
        assert e.from in Changed(delta) && e in OutEdges(state, e.from);
      } else {
        assert e.from in RowsAfter(rows0, delta) && e.to in RowsAfter(rows0, delta);
      }
    }
  }
}
