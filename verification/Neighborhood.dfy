/** The neighbourhood query (pkg/yeoul/graph.go): bounded breadth-first search over the
    graph of visible records, filtered and truncated. */
module Neighborhood {
  import opened Text
  import opened Sorting
  import opened Identity
  import opened Encoding

  datatype GraphNode = GraphNode(id: string, typ: string, title: string)

  type Nodes = map<string, GraphNode>

  /** Edges are only materialized between surviving nodes. */
  ghost predicate GraphOk(nodes: Nodes, edges: set<GraphEdge>) {
    (forall id :: id in nodes ==> nodes[id].id == id) &&
    forall e :: e in edges ==> e.from in nodes && e.to in nodes
  }

  predicate Allowed(types: seq<string>, e: GraphEdge) {
    types == [] || e.typ in types
  }

  /** The far end of an edge; edges are walked both ways. */
  function FarEnd(e: GraphEdge, id: string): string {
    if e.from == id then e.to else e.from
  }

  predicate Incident(e: GraphEdge, id: string) {
    e.from == id || e.to == id
  }

  /** Some walk of exactly `d` allowed edges leads from an anchor to the node. */
  ghost predicate WalkOf(nodes: Nodes, edges: set<GraphEdge>, anchors: seq<string>, types: seq<string>, id: string, d: nat)
    decreases d
  {
    if d == 0 then id in anchors && id in nodes
    else exists e :: StepTo(nodes, edges, anchors, types, e, id, d)
  }

  ghost predicate StepTo(nodes: Nodes, edges: set<GraphEdge>, anchors: seq<string>, types: seq<string>, e: GraphEdge, id: string, d: nat)
    requires d > 0
    decreases d, 0
  {
    e in edges && Allowed(types, e) && Incident(e, id) && WalkOf(nodes, edges, anchors, types, FarEnd(e, id), d - 1)
  }

  /** The shortest walk to a node has `d` edges. */
  ghost predicate Distance(nodes: Nodes, edges: set<GraphEdge>, anchors: seq<string>, types: seq<string>, id: string, d: nat) {
    WalkOf(nodes, edges, anchors, types, id, d) &&
    forall k :: 0 <= k < d ==> !WalkOf(nodes, edges, anchors, types, id, k)
  }

  // ----- the search -----

  type Adjacency = map<string, seq<GraphEdge>>

  ghost predicate Adjacent(adjacency: Adjacency, nodes: Nodes, edges: set<GraphEdge>) {
    adjacency.Keys == nodes.Keys &&
    forall id, e :: id in nodes ==> (e in adjacency[id] <==> e in edges && Incident(e, id))
  }

  function AddEdge(adjacency: Adjacency, e: GraphEdge): Adjacency
    requires e.from in adjacency && e.to in adjacency
  {
    var out := adjacency[e.from := adjacency[e.from] + [e]];
    out[e.to := out[e.to] + [e]]
  }

  lemma AddEdgeLists(adjacency: Adjacency, nodes: Nodes, added: set<GraphEdge>, e: GraphEdge)
    requires Adjacent(adjacency, nodes, added) && e.from in nodes && e.to in nodes
    ensures Adjacent(AddEdge(adjacency, e), nodes, added + {e})
  {
    var after := AddEdge(adjacency, e);
    forall id, f | id in nodes
      ensures f in after[id] <==> f in added + {e} && Incident(f, id)
    {
      assert f in adjacency[id] <==> f in added && Incident(f, id);
    }
  }

  method BuildAdjacency(nodes: Nodes, edges: set<GraphEdge>) returns (adjacency: Adjacency)
    requires GraphOk(nodes, edges)
    ensures Adjacent(adjacency, nodes, edges)
  {
    adjacency := map id | id in nodes :: [];
    var todo := edges;
    ghost var added: set<GraphEdge> := {};
    assert Adjacent(adjacency, nodes, added);
    hide Adjacent, AddEdge;
    while todo != {}
      invariant todo <= edges && added == edges - todo
      invariant Adjacent(adjacency, nodes, added)
      decreases |todo|
    {
      var e :| e in todo;
      KeysAreNodes(adjacency, nodes, added);
      AddEdgeLists(adjacency, nodes, added, e);
      adjacency := AddEdge(adjacency, e);
      todo := todo - {e};
      added := added + {e};
    }
    assert added == edges;
  }

  lemma KeysAreNodes(adjacency: Adjacency, nodes: Nodes, edges: set<GraphEdge>)
    requires Adjacent(adjacency, nodes, edges)
    ensures adjacency.Keys == nodes.Keys
  {
  }

  /** The neighbours of an expanded node are discovered, at most one step further. */
  ghost predicate Expanded(edges: set<GraphEdge>, types: seq<string>, dist: map<string, nat>, id: string)
    requires id in dist
  {
    forall e :: e in edges && Allowed(types, e) && Incident(e, id) ==>
      FarEnd(e, id) in dist && dist[FarEnd(e, id)] <= dist[id] + 1
  }

  /** The queue is in order of distance and spans the two distances from `level` on, and
      nothing discovered lies further. */
  ghost predicate Wave(dist: map<string, nat>, queue: seq<string>, level: nat) {
    (forall i :: 0 <= i < |queue| ==> queue[i] in dist && level <= dist[queue[i]]) &&
    (forall i, j :: 0 <= i <= j < |queue| ==> dist[queue[i]] <= dist[queue[j]]) &&
    forall id :: id in dist ==> dist[id] <= level + 1
  }

  ghost predicate Walked(nodes: Nodes, edges: set<GraphEdge>, anchors: seq<string>, types: seq<string>, hops: nat, dist: map<string, nat>) {
    (forall id :: id in dist ==>
      id in nodes && dist[id] <= hops && WalkOf(nodes, edges, anchors, types, id, dist[id])) &&
    (forall id :: id in anchors && id in nodes ==> id in dist && dist[id] == 0)
  }

  /** The edges the search looked along. */
  ghost predicate Crossed(edges: set<GraphEdge>, types: seq<string>, hops: nat, dist: map<string, nat>, done: set<string>, crossed: set<GraphEdge>) {
    done <= dist.Keys &&
    forall e :: e in crossed <==>
      e in edges && Allowed(types, e) &&
      ((e.from in done && dist[e.from] < hops) || (e.to in done && dist[e.to] < hops))
  }

  /** When every discovered node within the limit is expanded, distances are exact. */
  lemma {:induction false} DistancesExact(nodes: Nodes, edges: set<GraphEdge>, anchors: seq<string>, types: seq<string>,
                                          hops: nat, dist: map<string, nat>, id: string, d: nat)
    requires Walked(nodes, edges, anchors, types, hops, dist) && d <= hops
    requires forall r :: r in dist && dist[r] < hops ==> Expanded(edges, types, dist, r)
    requires WalkOf(nodes, edges, anchors, types, id, d)
    ensures id in dist && dist[id] <= d
    decreases d
  {
    if d > 0 {
      var e :| StepTo(nodes, edges, anchors, types, e, id, d);
      var before := FarEnd(e, id);
      DistancesExact(nodes, edges, anchors, types, hops, dist, before, d - 1);
      assert Expanded(edges, types, dist, before);
      assert Incident(e, before) && FarEnd(e, before) == id;
    }
  }

  ghost predicate Tracked(dist: map<string, nat>, queue: seq<string>, done: set<string>) {
    forall id :: id in dist <==> id in done || id in queue
  }

  ghost predicate AllExpanded(edges: set<GraphEdge>, types: seq<string>, hops: nat, dist: map<string, nat>, done: set<string>) {
    forall id :: id in done && id in dist && dist[id] < hops ==> Expanded(edges, types, dist, id)
  }

  ghost predicate SearchOk(nodes: Nodes, edges: set<GraphEdge>, anchors: seq<string>, types: seq<string>, hops: nat,
                           dist: map<string, nat>, queue: seq<string>, done: set<string>, crossed: set<GraphEdge>) {
    Walked(nodes, edges, anchors, types, hops, dist) && Tracked(dist, queue, done) &&
    (queue != [] ==> queue[0] in dist && Wave(dist, queue, dist[queue[0]])) &&
    AllExpanded(edges, types, hops, dist, done) && Crossed(edges, types, hops, dist, done, crossed)
  }

  predicate Keeps(dist: map<string, nat>, dist': map<string, nat>) {
    forall id :: id in dist ==> id in dist' && dist'[id] == dist[id]
  }

  /** How many nodes are still undiscovered. */
  ghost function Unknown(nodes: Nodes, dist: map<string, nat>): nat {
    |nodes.Keys - dist.Keys|
  }

  lemma KeepsThen(a: map<string, nat>, b: map<string, nat>, c: map<string, nat>)
    requires Keeps(a, b) && Keeps(b, c)
    ensures Keeps(a, c)
  {
  }

  lemma KeepsOne(a: map<string, nat>, b: map<string, nat>, id: string)
    requires Keeps(a, b) && id in a
    ensures id in b && b[id] == a[id]
  {
  }

  lemma Discover(nodes: Nodes, edges: set<GraphEdge>, anchors: seq<string>, types: seq<string>, hops: nat,
                 dist: map<string, nat>, queue: seq<string>, done: set<string>, current: string, e: GraphEdge)
    requires Walked(nodes, edges, anchors, types, hops, dist) && Tracked(dist, queue, done) && GraphOk(nodes, edges)
    requires current in dist && dist[current] < hops && Wave(dist, queue, dist[current])
    requires e in edges && Allowed(types, e) && Incident(e, current) && FarEnd(e, current) !in dist
    ensures var next := FarEnd(e, current);
            var dist', queue' := dist[next := dist[current] + 1], queue + [next];
            Walked(nodes, edges, anchors, types, hops, dist') && Tracked(dist', queue', done) &&
            Wave(dist', queue', dist[current]) && Keeps(dist, dist')
  {
    var next := FarEnd(e, current);
    var d := dist[current] + 1;
    assert WalkOf(nodes, edges, anchors, types, next, d) by {
      assert Incident(e, next) && FarEnd(e, next) == current;
      assert StepTo(nodes, edges, anchors, types, e, next, d);
    }
    hide WalkOf;
  }

  /** Look along the edges of one node, discovering its neighbours. */
  method Expand(nodes: Nodes, edges: set<GraphEdge>, anchors: seq<string>, types: seq<string>, hops: nat,
                incident: seq<GraphEdge>, current: string, ghost done: set<string>,
                dist0: map<string, nat>, queue0: seq<string>, crossed0: set<GraphEdge>)
    returns (dist: map<string, nat>, queue: seq<string>, crossed: set<GraphEdge>)
    requires GraphOk(nodes, edges) && forall e :: e in incident <==> e in edges && Incident(e, current)
    requires Walked(nodes, edges, anchors, types, hops, dist0) && Tracked(dist0, queue0, done)
    requires current in dist0 && dist0[current] < hops && Wave(dist0, queue0, dist0[current])
    ensures Walked(nodes, edges, anchors, types, hops, dist) && Tracked(dist, queue, done) && Keeps(dist0, dist)
    ensures current in dist && Wave(dist, queue, dist[current]) && Expanded(edges, types, dist, current)
    ensures forall e :: e in crossed <==> e in crossed0 || (e in edges && Allowed(types, e) && Incident(e, current))
    ensures (dist == dist0 && queue == queue0) || Unknown(nodes, dist) < Unknown(nodes, dist0)
  {
    hide Walked, Tracked, Wave, WalkOf, Unknown, Keeps, FarEnd, Incident, Allowed;
    dist, queue, crossed := dist0, queue0, crossed0;
    assert Keeps(dist0, dist) by {
      KeepsItself(dist0);
    }
    var level := dist0[current];
    for i := 0 to |incident|
      invariant Walked(nodes, edges, anchors, types, hops, dist) && Tracked(dist, queue, done) && Keeps(dist0, dist)
      invariant Wave(dist, queue, level)
      invariant forall j :: 0 <= j < i && Allowed(types, incident[j]) ==> FarEnd(incident[j], current) in dist
      invariant forall e :: e in crossed <==> e in crossed0 || (e in incident[..i] && Allowed(types, e))
      invariant (dist == dist0 && queue == queue0) || Unknown(nodes, dist) < Unknown(nodes, dist0)
    {
      var e := incident[i];
      assert e in incident;
      if Allowed(types, e) {
        crossed := crossed + {e};
        var next := FarEnd(e, current);
        KeepsOne(dist0, dist, current);
        if next !in dist {
          EndsKnown(nodes, edges, e, current);
          Discover(nodes, edges, anchors, types, hops, dist, queue, done, current, e);
          FewerUnknown(nodes, dist, next, level + 1);
          KeepsThen(dist0, dist, dist[next := level + 1]);
          dist := dist[next := level + 1];
          queue := queue + [next];
        }
      }
    }
    assert incident[..|incident|] == incident;
    KeepsOne(dist0, dist, current);
    WaveBounds(dist, queue, level);
  }

  lemma KeepsItself(a: map<string, nat>)
    ensures Keeps(a, a)
  {
  }

  lemma EndsKnown(nodes: Nodes, edges: set<GraphEdge>, e: GraphEdge, id: string)
    requires GraphOk(nodes, edges) && e in edges
    ensures FarEnd(e, id) in nodes
  {
  }

  lemma WaveBounds(dist: map<string, nat>, queue: seq<string>, level: nat)
    requires Wave(dist, queue, level)
    ensures forall id :: id in dist ==> dist[id] <= level + 1
  {
  }

  lemma FewerUnknown(nodes: Nodes, dist: map<string, nat>, next: string, d: nat)
    requires next in nodes && next !in dist
    ensures Unknown(nodes, dist[next := d]) < Unknown(nodes, dist)
  {
    assert nodes.Keys - dist[next := d].Keys == nodes.Keys - dist.Keys - {next};
  }

  lemma PopTracked(dist: map<string, nat>, queue: seq<string>, done: set<string>)
    requires Tracked(dist, queue, done) && queue != []
    ensures queue[0] in dist && Tracked(dist, queue[1..], done + {queue[0]})
  {
    var current, rest := queue[0], queue[1..];
    assert queue == [current] + rest;
    forall id
      ensures id in dist <==> id in done + {current} || id in rest
    {
      assert id in dist <==> id in done || id in queue;
    }
  }

  lemma PopWave(dist: map<string, nat>, queue: seq<string>)
    requires queue != [] && queue[0] in dist && Wave(dist, queue, dist[queue[0]])
    ensures Wave(dist, queue[1..], dist[queue[0]])
    ensures queue[1..] != [] ==> queue[1] in dist && Wave(dist, queue[1..], dist[queue[1]])
  {
  }

  lemma SearchPops(nodes: Nodes, edges: set<GraphEdge>, anchors: seq<string>, types: seq<string>, hops: nat,
                   dist: map<string, nat>, queue: seq<string>, done: set<string>, crossed: set<GraphEdge>)
    requires SearchOk(nodes, edges, anchors, types, hops, dist, queue, done, crossed) && queue != []
    ensures var current := queue[0];
            current in dist && current in nodes && dist[current] <= hops &&
            Wave(dist, queue[1..], dist[current]) && Tracked(dist, queue[1..], done + {current}) &&
            (dist[current] >= hops ==> SearchOk(nodes, edges, anchors, types, hops, dist, queue[1..], done + {current}, crossed))
  {
    hide WalkOf, Expanded, Wave, Tracked;
    PopTracked(dist, queue, done);
    PopWave(dist, queue);
  }

  /** After one node was expanded the search is in order again. */
  lemma SearchSteps(nodes: Nodes, edges: set<GraphEdge>, anchors: seq<string>, types: seq<string>, hops: nat,
                    dist: map<string, nat>, done: set<string>, crossed: set<GraphEdge>, current: string,
                    dist': map<string, nat>, queue': seq<string>, crossed': set<GraphEdge>)
    requires AllExpanded(edges, types, hops, dist, done) && Crossed(edges, types, hops, dist, done, crossed)
    requires Walked(nodes, edges, anchors, types, hops, dist') && Tracked(dist', queue', done + {current}) && Keeps(dist, dist')
    requires current in dist && current in dist' && dist'[current] < hops && Wave(dist', queue', dist'[current])
    requires Expanded(edges, types, dist', current)
    requires forall e :: e in crossed' <==> e in crossed || (e in edges && Allowed(types, e) && Incident(e, current))
    ensures SearchOk(nodes, edges, anchors, types, hops, dist', queue', done + {current}, crossed')
  {
    hide WalkOf, Walked, Tracked, Allowed;
    assert Crossed(edges, types, hops, dist', done + {current}, crossed') by {
      hide Wave, Expanded;
    }
    assert AllExpanded(edges, types, hops, dist', done + {current}) by {
      hide Wave, Crossed;
      forall id | id in done && id in dist && dist[id] < hops
        ensures Expanded(edges, types, dist', id)
      {
        assert Expanded(edges, types, dist, id);
      }
    }
  }

  ghost predicate Searched(nodes: Nodes, edges: set<GraphEdge>, anchors: seq<string>, types: seq<string>, hops: nat,
                           dist: map<string, nat>, reached: set<string>, crossed: set<GraphEdge>) {
    reached == dist.Keys && reached <= nodes.Keys &&
    (forall id :: id in reached <==> exists d: nat :: d <= hops && WalkOf(nodes, edges, anchors, types, id, d)) &&
    (forall id :: id in reached ==> Distance(nodes, edges, anchors, types, id, dist[id])) &&
    forall e :: e in crossed <==>
      e in edges && Allowed(types, e) &&
      ((e.from in reached && dist[e.from] < hops) || (e.to in reached && dist[e.to] < hops))
  }

  lemma SearchEnds(nodes: Nodes, edges: set<GraphEdge>, anchors: seq<string>, types: seq<string>, hops: nat,
                   dist: map<string, nat>, done: set<string>, crossed: set<GraphEdge>)
    requires SearchOk(nodes, edges, anchors, types, hops, dist, [], done, crossed)
    ensures Searched(nodes, edges, anchors, types, hops, dist, done, crossed)
  {
    hide WalkOf, Expanded;
    assert done == dist.Keys;
    forall id, d: nat | d <= hops && WalkOf(nodes, edges, anchors, types, id, d)
      ensures id in dist && dist[id] <= d
    {
      DistancesExact(nodes, edges, anchors, types, hops, dist, id, d);
    }
  }

  /** Breadth-first search: the reached nodes are exactly those within the hop limit, at
      their true distances, on any graph and with repeated or unknown anchors. */
  method Search(nodes: Nodes, edges: set<GraphEdge>, anchors: seq<string>, types: seq<string>, hops: nat)
    returns (dist: map<string, nat>, reached: set<string>, crossed: set<GraphEdge>)
    requires GraphOk(nodes, edges)
    ensures Searched(nodes, edges, anchors, types, hops, dist, reached, crossed)
  {
    hide SearchOk, Searched, Walked, Tracked, Wave, WalkOf, AllExpanded, Crossed, Expanded, Keeps, Unknown, Allowed, Incident, GraphOk;
    var adjacency := BuildAdjacency(nodes, edges);
    var queue;
    dist, queue := Start(nodes, edges, anchors, types, hops);
    reached, crossed := {}, {};
    while queue != []
      invariant SearchOk(nodes, edges, anchors, types, hops, dist, queue, reached, crossed)
      decreases Unknown(nodes, dist), |queue|
    {
      var current := queue[0];
      SearchPops(nodes, edges, anchors, types, hops, dist, queue, reached, crossed);
      Parts(nodes, edges, anchors, types, hops, dist, queue, reached, crossed);
      queue := queue[1..];
      if dist[current] < hops {
        Listing(adjacency, nodes, edges, current);
        ghost var dist0, crossed0 := dist, crossed;
        dist, queue, crossed := Expand(nodes, edges, anchors, types, hops, adjacency[current], current, reached + {current}, dist, queue, crossed);
        KeepsOne(dist0, dist, current);
        SearchSteps(nodes, edges, anchors, types, hops, dist0, reached, crossed0, current, dist, queue, crossed);
      }
      reached := reached + {current};
    }
    SearchEnds(nodes, edges, anchors, types, hops, dist, reached, crossed);
  }

  lemma Listing(adjacency: Adjacency, nodes: Nodes, edges: set<GraphEdge>, id: string)
    requires Adjacent(adjacency, nodes, edges) && id in nodes
    ensures id in adjacency && forall e :: e in adjacency[id] <==> e in edges && Incident(e, id)
  {
  }

  lemma Parts(nodes: Nodes, edges: set<GraphEdge>, anchors: seq<string>, types: seq<string>, hops: nat,
              dist: map<string, nat>, queue: seq<string>, done: set<string>, crossed: set<GraphEdge>)
    requires SearchOk(nodes, edges, anchors, types, hops, dist, queue, done, crossed)
    ensures Walked(nodes, edges, anchors, types, hops, dist) && AllExpanded(edges, types, hops, dist, done)
    ensures Crossed(edges, types, hops, dist, done, crossed)
  {
  }

  /** Known anchors start at distance zero; repeated ones are queued again. */
  method Start(nodes: Nodes, edges: set<GraphEdge>, anchors: seq<string>, types: seq<string>, hops: nat)
    returns (dist: map<string, nat>, queue: seq<string>)
    ensures SearchOk(nodes, edges, anchors, types, hops, dist, queue, {}, {})
  {
    dist, queue := map[], [];
    for i := 0 to |anchors|
      invariant forall id :: id in dist <==> id in anchors[..i] && id in nodes
      invariant forall id :: id in dist ==> dist[id] == 0
      invariant forall id :: id in dist <==> id in queue
    {
      if anchors[i] in nodes {
        dist := dist[anchors[i] := 0];
        queue := queue + [anchors[i]];
      }
    }
    assert anchors[..|anchors|] == anchors;
  }

  // ----- selecting what is returned -----

  datatype Candidate = Candidate(node: GraphNode, dist: nat)

  /** Near nodes come first, ties by ID. */
  predicate Nearer(a: Candidate, b: Candidate) {
    a.dist < b.dist || (a.dist == b.dist && Less(a.node.id, b.node.id))
  }

  predicate NodeBefore(a: GraphNode, b: GraphNode) {
    Less(a.id, b.id)
  }

  predicate EdgeBefore(a: GraphEdge, b: GraphEdge) {
    Less(EdgeID(a), EdgeID(b))
  }

  lemma OrdersAreStrict()
    ensures Strict(Nearer) && Strict(NodeBefore) && Strict(EdgeBefore)
  {
    hide EdgeID, Less;
    forall a: string
      ensures !Less(a, a)
    {
      LessIrreflexive(a);
    }
    forall a: string, b, c | Less(a, b) && Less(b, c)
      ensures Less(a, c)
    {
      LessTransitive(a, b, c);
    }
  }

  /** The reached nodes of the wanted types. */
  function Wanted(nodes: Nodes, reached: set<string>, types: seq<string>): set<string>
    requires reached <= nodes.Keys
  {
    set id | id in reached && (types == [] || nodes[id].typ in types)
  }

  /** What the query returns: the nearest nodes up to the limit, and exactly the crossed
      edges that join two of them. */
  ghost predicate IsSelection(nodes: Nodes, dist: map<string, nat>, reached: set<string>, crossed: set<GraphEdge>,
                              types: seq<string>, maxNodes: int, kept: set<string>,
                              outNodes: seq<GraphNode>, outEdges: seq<GraphEdge>, truncated: bool)
    requires reached <= nodes.Keys && reached <= dist.Keys
  {
    var wanted := Wanted(nodes, reached, types);
    kept <= wanted && (truncated <==> 0 < maxNodes < |wanted|) &&
    |kept| == (if truncated then maxNodes else |wanted|) &&
    (forall k, w :: k in kept && w in wanted && w !in kept ==>
      Nearer(Candidate(nodes[k], dist[k]), Candidate(nodes[w], dist[w]))) &&
    Sorted(outNodes, NodeBefore) && (forall n :: n in outNodes <==> n.id in kept && nodes[n.id] == n) &&
    Sorted(outEdges, EdgeBefore) && (forall e :: e in outEdges <==> e in crossed && e.from in kept && e.to in kept)
  }

  ghost predicate CandidatesOf(nodes: Nodes, dist: map<string, nat>, wanted: set<string>, listed: seq<Candidate>)
    requires wanted <= nodes.Keys && wanted <= dist.Keys
  {
    (forall c :: c in listed <==> c.node.id in wanted && c == Candidate(nodes[c.node.id], dist[c.node.id])) &&
    (forall i, j :: 0 <= i < j < |listed| ==> listed[i].node.id != listed[j].node.id)
  }

  method Rank(nodes: Nodes, dist: map<string, nat>, wanted: set<string>) returns (ranked: seq<Candidate>)
    requires (forall id :: id in nodes ==> nodes[id].id == id) && wanted <= nodes.Keys && wanted <= dist.Keys
    ensures Sorted(ranked, Nearer) && CandidatesOf(nodes, dist, wanted, ranked) && |ranked| == |wanted|
  {
    var candidates := set id | id in wanted :: Candidate(nodes[id], dist[id]);
    OrdersAreStrict();
    forall x, y | x in candidates && y in candidates && x != y
      ensures Nearer(x, y) || Nearer(y, x)
    {
      LessTotal(x.node.id, y.node.id);
    }
    ranked := SortSet(candidates, Nearer);
    forall i, j | 0 <= i < j < |ranked|
      ensures ranked[i].node.id != ranked[j].node.id
    {
      assert ranked[i] in ranked && ranked[j] in ranked;
      LessIrreflexive(ranked[i].node.id);
    }
    assert wanted == IdsOf(ranked) by {
      forall id | id in wanted
        ensures id in IdsOf(ranked)
      {
        assert Candidate(nodes[id], dist[id]) in ranked;
      }
    }
    IdsCount(ranked);
  }

  function IdsOf(listed: seq<Candidate>): set<string> {
    set c | c in listed :: c.node.id
  }

  lemma {:induction false} IdsCount(listed: seq<Candidate>)
    requires forall i, j :: 0 <= i < j < |listed| ==> listed[i].node.id != listed[j].node.id
    ensures |IdsOf(listed)| == |listed|
  {
    if listed != [] {
      var n := |listed| - 1;
      IdsCount(listed[..n]);
      assert listed == listed[..n] + [listed[n]];
      assert IdsOf(listed) == IdsOf(listed[..n]) + {listed[n].node.id};
    }
  }

  lemma Ranked(nodes: Nodes, dist: map<string, nat>, wanted: set<string>, ranked: seq<Candidate>, w: string) returns (j: nat)
    requires wanted <= nodes.Keys && wanted <= dist.Keys && w in wanted
    requires CandidatesOf(nodes, dist, wanted, ranked) && nodes[w].id == w
    ensures j < |ranked| && ranked[j] == Candidate(nodes[w], dist[w])
  {
    var far := Candidate(nodes[w], dist[w]);
    assert far in ranked;
    j :| 0 <= j < |ranked| && ranked[j] == far;
  }

  /** Keep a prefix of the ranking. */
  lemma PrefixIsNearest(nodes: Nodes, dist: map<string, nat>, wanted: set<string>, ranked: seq<Candidate>, n: nat)
    requires wanted <= nodes.Keys && wanted <= dist.Keys && n <= |ranked|
    requires Sorted(ranked, Nearer) && CandidatesOf(nodes, dist, wanted, ranked)
    requires forall id :: id in nodes ==> nodes[id].id == id
    ensures var kept := IdsOf(ranked[..n]);
            kept <= wanted && |kept| == n &&
            forall k, w :: k in kept && w in wanted && w !in kept ==>
              Nearer(Candidate(nodes[k], dist[k]), Candidate(nodes[w], dist[w]))
  {
    hide Nearer;
    var prefix := ranked[..n];
    IdsCount(prefix);
    var kept := IdsOf(prefix);
    forall i | 0 <= i < n
      ensures ranked[i].node.id in kept
    {
      assert prefix[i] == ranked[i] && prefix[i] in prefix;
    }
    forall k, w | k in kept && w in wanted && w !in kept
      ensures Nearer(Candidate(nodes[k], dist[k]), Candidate(nodes[w], dist[w]))
    {
      var c :| c in prefix && c.node.id == k;
      var i :| 0 <= i < n && prefix[i] == c;
      assert ranked[i] in ranked;
      var j := Ranked(nodes, dist, wanted, ranked, w);
    }
  }

  /** Edges are looked up by ID; distinct edges never share one. */
  method EdgesByID(edges: set<GraphEdge>) returns (byID: map<string, GraphEdge>)
    ensures forall e :: e in edges ==> EdgeID(e) in byID && byID[EdgeID(e)] == e
    ensures forall id :: id in byID ==> byID[id] in edges && EdgeID(byID[id]) == id
  {
    hide EdgeID;
    byID := map[];
    var todo := edges;
    while todo != {}
      invariant todo <= edges
      invariant forall e :: e in edges - todo ==> EdgeID(e) in byID && byID[EdgeID(e)] == e
      invariant forall id :: id in byID ==> byID[id] in edges && EdgeID(byID[id]) == id
      decreases |todo|
    {
      var e :| e in todo;
      todo := todo - {e};
      forall f | f in edges && EdgeID(f) == EdgeID(e)
        ensures f == e
      {
        EdgeIdsDistinct(f, e);
      }
      byID := byID[EdgeID(e) := e];
    }
  }

  method KeptEdges(edges: set<GraphEdge>, crossed: set<GraphEdge>, kept: set<string>) returns (out: seq<GraphEdge>)
    requires crossed <= edges
    ensures Sorted(out, EdgeBefore) && forall e :: e in out <==> e in crossed && e.from in kept && e.to in kept
  {
    hide EdgeID, Less;
    var byID := EdgesByID(edges);
    var ids := set e | e in crossed :: EdgeID(e);
    var found := set id | id in ids && id in byID && byID[id].from in kept && byID[id].to in kept :: byID[id];
    forall e
      ensures e in found <==> e in crossed && e.from in kept && e.to in kept
    {
      if e in crossed && e.from in kept && e.to in kept {
        assert EdgeID(e) in ids && byID[EdgeID(e)] == e;
      }
    }
    OrdersAreStrict();
    forall x, y | x in found && y in found && x != y
      ensures EdgeBefore(x, y) || EdgeBefore(y, x)
    {
      LessTotal(EdgeID(x), EdgeID(y));
      if EdgeID(x) == EdgeID(y) {
        EdgeIdsDistinct(x, y);
      }
    }
    out := SortSet(found, EdgeBefore);
  }

  method KeptNodes(nodes: Nodes, kept: set<string>) returns (out: seq<GraphNode>)
    requires (forall id :: id in nodes ==> nodes[id].id == id) && kept <= nodes.Keys
    ensures Sorted(out, NodeBefore) && forall n :: n in out <==> n.id in kept && nodes[n.id] == n
  {
    hide Less;
    var found := set id | id in kept :: nodes[id];
    OrdersAreStrict();
    forall x, y | x in found && y in found && x != y
      ensures NodeBefore(x, y) || NodeBefore(y, x)
    {
      LessTotal(x.id, y.id);
    }
    out := SortSet(found, NodeBefore);
  }

  /** The search and the selection. */
  ghost predicate IsNeighborhood(nodes: Nodes, edges: set<GraphEdge>, anchors: seq<string>, edgeTypes: seq<string>,
                                 nodeTypes: seq<string>, hops: nat, maxNodes: int,
                                 outNodes: seq<GraphNode>, outEdges: seq<GraphEdge>, truncated: bool)
  {
    exists dist, reached, crossed, kept ::
      Searched(nodes, edges, anchors, edgeTypes, hops, dist, reached, crossed) &&
      IsSelection(nodes, dist, reached, crossed, nodeTypes, maxNodes, kept, outNodes, outEdges, truncated)
  }

  /** A zero or negative hop limit means one hop. */
  function HopLimit(maxHops: int): nat {
    if maxHops <= 0 then 1 else maxHops
  }

  method Neighborhood(nodes: Nodes, edges: set<GraphEdge>, anchors: seq<string>, edgeTypes: seq<string>,
                      nodeTypes: seq<string>, maxHops: int, maxNodes: int)
    returns (outNodes: seq<GraphNode>, outEdges: seq<GraphEdge>, truncated: bool)
    requires GraphOk(nodes, edges)
    ensures IsNeighborhood(nodes, edges, anchors, edgeTypes, nodeTypes, HopLimit(maxHops), maxNodes, outNodes, outEdges, truncated)
  {
    hide WalkOf, Distance, CandidatesOf, Nearer, Sorted, IdsOf;
    var hops := HopLimit(maxHops);
    var dist, reached, crossed := Search(nodes, edges, anchors, edgeTypes, hops);
    var wanted := Wanted(nodes, reached, nodeTypes);
    var ranked := Rank(nodes, dist, wanted);
    truncated := maxNodes > 0 && |ranked| > maxNodes;
    var n := if truncated then maxNodes else |ranked|;
    PrefixIsNearest(nodes, dist, wanted, ranked, n);
    var kept := IdsOf(ranked[..n]);
    outNodes := KeptNodes(nodes, kept);
    outEdges := KeptEdges(edges, crossed, kept);
    assert IsSelection(nodes, dist, reached, crossed, nodeTypes, maxNodes, kept, outNodes, outEdges, truncated);
  }

  /** No returned edge dangles, and an untruncated answer misses no wanted node in
      reach. */
  lemma EdgesJoinReturnedNodes(nodes: Nodes, edges: set<GraphEdge>, anchors: seq<string>, edgeTypes: seq<string>,
                               nodeTypes: seq<string>, hops: nat, maxNodes: int,
                               outNodes: seq<GraphNode>, outEdges: seq<GraphEdge>, truncated: bool)
    requires GraphOk(nodes, edges)
    requires IsNeighborhood(nodes, edges, anchors, edgeTypes, nodeTypes, hops, maxNodes, outNodes, outEdges, truncated)
    ensures forall e :: e in outEdges ==> e in edges && nodes[e.from] in outNodes && nodes[e.to] in outNodes
    ensures forall id, d: nat ::
      !truncated && d <= hops && WalkOf(nodes, edges, anchors, edgeTypes, id, d) && id in nodes &&
      (nodeTypes == [] || nodes[id].typ in nodeTypes)
      ==> nodes[id] in outNodes
  {
    hide WalkOf, Sorted, Nearer, Allowed;
    var dist, reached, crossed, kept :|
      Searched(nodes, edges, anchors, edgeTypes, hops, dist, reached, crossed) &&
      IsSelection(nodes, dist, reached, crossed, nodeTypes, maxNodes, kept, outNodes, outEdges, truncated);
    if !truncated {
      SameSize(kept, Wanted(nodes, reached, nodeTypes));
    }
  }

  lemma SameSize<T>(a: set<T>, b: set<T>)
    requires a <= b && |a| == |b|
    ensures a == b
  {
    if x :| x in b && x !in a {
      SubsetSize(a, b - {x});
    }
  }
}
