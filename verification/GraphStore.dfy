/** The in-memory knowledge graph (backend/app/graph/store.py, `InMemoryGraphStore`). */
module GraphStore {
  import opened GraphSchema
  import opened GraphPaths
  import opened GraphSearch
  import opened GraphObjects
  import opened Ordering
  import opened Text

  type Adjacency = map<string, set<string>>

  // The persisted form: edges name their endpoints by uid.
  datatype RawNode = RawNode(nodeLabel: string, key: string, properties: Properties)
  datatype RawEdge = RawEdge(kind: string, start: string, end: string, properties: Properties)
  datatype Payload = Payload(nodes: seq<RawNode>, edges: seq<RawEdge>)

  /** The persistence file, as the next start of the process finds it. */
  datatype Disk = Absent | Unreadable | Readable(payload: Payload)

  function LinkOf(e: GraphRelationship): Link<string> {
    Link(e.kind, e.start.uid, e.end.uid)
  }

  /** The graph as a set of typed links between uids. */
  ghost function LinksOf(edges: Edges): Links<string> {
    map x | x in edges :: LinkOf(edges[x])
  }

  // ------------------------------------------------------ representation invariant

  ghost predicate ValidNodes(v: Vocabulary, nodes: Nodes) {
    forall u :: u in nodes ==> nodes[u].Valid(v) && nodes[u].uid == u
  }

  ghost predicate ValidEdges(v: Vocabulary, edges: Edges) {
    forall x :: x in edges ==> edges[x].Valid(v) && edges[x].uid == x
  }

  predicate Anchors(nodes: Nodes, n: GraphNode) {
    n.uid in nodes && nodes[n.uid].uid == n.uid
  }

  /** The edge's endpoints are stored under their own uids. */
  predicate Anchored(nodes: Nodes, e: GraphRelationship) {
    Anchors(nodes, e.start) && Anchors(nodes, e.end)
  }

  ghost predicate AllAnchored(nodes: Nodes, edges: Edges) {
    forall x :: x in edges ==> Anchored(nodes, edges[x])
  }

  lemma SameUidSameLink(v: Vocabulary, edges: Edges, e: GraphRelationship)
    requires v.WellFormed() && ValidEdges(v, edges) && e.Valid(v)
    ensures e.uid in edges ==> LinkOf(edges[e.uid]) == LinkOf(e)
  {
    if e.uid in edges { EdgeUidInjective(v, edges[e.uid], e); }
  }

  // ------------------------------------------------------------ flush and load

  function RawNodeOf(n: GraphNode, heap: Heap): RawNode {
    RawNode(n.nodeLabel, n.key, Said(heap, n))
  }

  function RawEdgeOf(e: GraphRelationship): RawEdge {
    RawEdge(e.kind, e.start.uid, e.end.uid, e.properties)
  }

  /** The uid a raw entry will have once rebuilt. */
  function RawNodeUid(r: RawNode): string { NodeUid(r.nodeLabel, r.key) }

  function RawEdgeUid(r: RawEdge): string { EdgeUid(r.kind, r.start, r.end) }

  /** These raw entries are nodes of the graph, as they now are. */
  ghost predicate NodesListed(raws: seq<RawNode>, g: Graph) {
    forall r :: r in raws ==> RawNodeUid(r) in g.nodes && r == RawNodeOf(g.nodes[RawNodeUid(r)], g.heap)
  }

  /** The payload lists exactly the graph's nodes and edges, in some order. */
  ghost predicate Snapshot(p: Payload, g: Graph) {
    && (forall u :: u in g.nodes ==> RawNodeOf(g.nodes[u], g.heap) in p.nodes)
    && NodesListed(p.nodes, g)
    && (forall x :: x in g.edges ==> RawEdgeOf(g.edges[x]) in p.edges)
    && (forall r :: r in p.edges ==> RawEdgeUid(r) in g.edges && r == RawEdgeOf(g.edges[RawEdgeUid(r)]))
  }

  /** What becomes of one raw entry: stored under a key, skipped, or fatal. */
  datatype Built<U, V> = Put(key: U, value: V) | Skip | Fail(error: Error)

  /** The nodes of a file as new objects, one for each entry; the first entry the
      vocabulary rejects aborts the load. */
  function LoadedNodes(v: Vocabulary, raws: seq<RawNode>): Result<Graph> {
    if |raws| == 0 then Ok(Graph(map[], map[], map[]))
    else
      var last := raws[|raws| - 1];
      match LoadedNodes(v, raws[..|raws| - 1])
      case Err(e) => Err(e)
      case Ok(g) =>
        match MakeNode(v, last.nodeLabel, last.key, |raws| - 1)
        case Err(e) => Err(e)
        case Ok(n) => Ok(Graph(g.nodes[n.uid := n], map[], g.heap[n := last.properties]))
  }

  function BuildEdge(v: Vocabulary, nodes: Nodes, raw: RawEdge): Built<string, GraphRelationship>
    requires ValidNodes(v, nodes)
  {
    if raw.start !in nodes || raw.end !in nodes then Skip
    else
      match MakeRelationship(v, raw.kind, nodes[raw.start], nodes[raw.end], raw.properties)
      case Ok(e) => Put(e.uid, e)
      case Err(e) => Fail(e)
  }

  /** Entries are stored one after another; the first fatal one aborts the load. */
  function Collect<U(==), V>(built: seq<Built<U, V>>): Result<map<U, V>> {
    if built == [] then Ok(map[])
    else
      match Collect(built[..|built| - 1])
      case Err(e) => Err(e)
      case Ok(m) =>
        match built[|built| - 1]
        case Put(k, v) => Ok(m[k := v])
        case Skip => Ok(m)
        case Fail(e) => Err(e)
  }

  function BuildEdges(v: Vocabulary, nodes: Nodes, raws: seq<RawEdge>): (r: seq<Built<string, GraphRelationship>>)
    requires ValidNodes(v, nodes)
    ensures |r| == |raws|
  {
    seq(|raws|, i requires 0 <= i < |raws| => BuildEdge(v, nodes, raws[i]))
  }

  lemma {:induction false} CollectWithin<U, V>(built: seq<Built<U, V>>, table: map<U, V>)
    requires forall b :: b in built ==> b.Put? && b.key in table && b.value == table[b.key]
    ensures Collect(built).Ok?
    ensures forall k :: k in Collect(built).value ==> k in table && Collect(built).value[k] == table[k]
    ensures forall b :: b in built ==> b.key in Collect(built).value
  {
    if built != [] {
      var rest, last := built[..|built| - 1], built[|built| - 1];
      assert built == rest + [last];
      assert last in built;
      CollectWithin(rest, table);
    }
  }

  /** Rebuilding the entries of a table, each at least once, gives back the table. */
  lemma CollectAll<U, V>(built: seq<Built<U, V>>, table: map<U, V>)
    requires forall b :: b in built ==> b.Put? && b.key in table && b.value == table[b.key]
    requires forall k :: k in table ==> Put(k, table[k]) in built
    ensures Collect(built) == Ok(table)
  {
    CollectWithin(built, table);
    var m := Collect(built).value;
    forall k | k in table ensures k in m { assert Put(k, table[k]) in built; }
    assert m == table;
  }

  /** An edge as the load sees it: its endpoints are the stored node objects. */
  function Reattached(nodes: Nodes, e: GraphRelationship): GraphRelationship
    requires Anchored(nodes, e)
  {
    GraphRelationship(e.uid, e.kind, nodes[e.start.uid], nodes[e.end.uid], e.properties)
  }

  lemma RebuiltEdge(v: Vocabulary, nodes: Nodes, e: GraphRelationship)
    requires v.WellFormed() && ValidNodes(v, nodes) && e.Valid(v) && Anchored(nodes, e)
    ensures BuildEdge(v, nodes, RawEdgeOf(e)) == Put(e.uid, Reattached(nodes, e))
  {
    NodeUidInjective(v, e.start, nodes[e.start.uid]);
    NodeUidInjective(v, e.end, nodes[e.end.uid]);
  }

  /** Loaded nodes are valid, stored under their uids, and among the objects made so far. */
  lemma {:induction false} LoadedNodesAre(v: Vocabulary, raws: seq<RawNode>)
    requires v.WellFormed() && LoadedNodes(v, raws).Ok?
    ensures var g := LoadedNodes(v, raws).value;
            ValidNodes(v, g.nodes) && Existing(g) && g.edges == map[] && MadeBefore(g.heap, |raws|)
  {
    if |raws| > 0 { LoadedNodesAre(v, raws[..|raws| - 1]); }
  }

  /** The stored node of this uid says the same in both. */
  ghost predicate SameNode(u: string, g: Graph, g': Graph) {
    u in g.nodes && u in g'.nodes && RawNodeOf(g'.nodes[u], g'.heap) == RawNodeOf(g.nodes[u], g.heap)
  }

  lemma RebuiltNode(v: Vocabulary, n: GraphNode, heap: Heap, serial: nat)
    requires n.Valid(v)
    ensures var r := RawNodeOf(n, heap);
            MakeNode(v, r.nodeLabel, r.key, serial) == Ok(GraphNode(n.uid, n.nodeLabel, n.key, serial))
  {
  }

  lemma AddedNode(g: Graph, g0: Graph, n: GraphNode, properties: Properties, u: string)
    requires n !in g0.heap && (u in g0.nodes ==> SameNode(u, g, g0) && g0.nodes[u] in g0.heap)
    requires n.uid in g.nodes && RawNode(n.nodeLabel, n.key, properties) == RawNodeOf(g.nodes[n.uid], g.heap)
    ensures var g' := Graph(g0.nodes[n.uid := n], map[], g0.heap[n := properties]); u in g'.nodes ==> SameNode(u, g, g')
  {
  }

  /** Loading entries that are nodes of a graph gives nodes that say the same. */
  lemma {:induction false} NodesRoundTrip(v: Vocabulary, raws: seq<RawNode>, g: Graph)
    requires v.WellFormed() && ValidNodes(v, g.nodes) && NodesListed(raws, g)
    ensures LoadedNodes(v, raws).Ok?
    ensures forall u :: u in LoadedNodes(v, raws).value.nodes ==> SameNode(u, g, LoadedNodes(v, raws).value)
    ensures forall r :: r in raws ==> RawNodeUid(r) in LoadedNodes(v, raws).value.nodes
  {
    if |raws| > 0 {
      var rest, last := raws[..|raws| - 1], raws[|raws| - 1];
      assert last in raws && raws == rest + [last];
      NodesRoundTrip(v, rest, g);
      LoadedNodesAre(v, rest);
      var g0, stored := LoadedNodes(v, rest).value, g.nodes[RawNodeUid(last)];
      RebuiltNode(v, stored, g.heap, |rest|);
      var n := GraphNode(stored.uid, stored.nodeLabel, stored.key, |rest|);
      forall u | u in LoadedNodes(v, raws).value.nodes ensures SameNode(u, g, LoadedNodes(v, raws).value) {
        AddedNode(g, g0, n, last.properties, u);
      }
    }
  }

  /** The edges after a restart: the same ones, attached to the stored nodes. */
  function ReattachedEdges(nodes: Nodes, edges: Edges): Edges
    requires AllAnchored(nodes, edges)
  {
    map x | x in edges :: Reattached(nodes, edges[x])
  }

  lemma EdgesRoundTrip(v: Vocabulary, p: Payload, g: Graph, nodes: Nodes)
    requires v.WellFormed() && ValidNodes(v, nodes) && ValidEdges(v, g.edges) && Snapshot(p, g)
    requires AllAnchored(nodes, g.edges)
    ensures Collect(BuildEdges(v, nodes, p.edges)) == Ok(ReattachedEdges(nodes, g.edges))
  {
    var built, table := BuildEdges(v, nodes, p.edges), ReattachedEdges(nodes, g.edges);
    forall b | b in built ensures b.Put? && b.key in table && b.value == table[b.key] {
      var i :| 0 <= i < |built| && built[i] == b;
      assert p.edges[i] in p.edges;
      RebuiltEdge(v, nodes, g.edges[RawEdgeUid(p.edges[i])]);
    }
    forall x | x in g.edges ensures Put(x, table[x]) in built {
      var i :| 0 <= i < |p.edges| && p.edges[i] == RawEdgeOf(g.edges[x]);
      RebuiltEdge(v, nodes, g.edges[x]);
      assert built[i] in built;
    }
    CollectAll(built, table);
  }

  lemma ReattachedLink(nodes: Nodes, e: GraphRelationship)
    requires Anchored(nodes, e)
    ensures LinkOf(Reattached(nodes, e)) == LinkOf(e)
  {
  }

  lemma SameLinks(edges: Edges, edges': Edges)
    requires edges.Keys == edges'.Keys
    requires forall x :: x in edges ==> LinkOf(edges[x]) == LinkOf(edges'[x])
    ensures LinksOf(edges) == LinksOf(edges')
  {
  }

  lemma ReattachedSameLinks(nodes: Nodes, edges: Edges)
    requires AllAnchored(nodes, edges)
    ensures LinksOf(ReattachedEdges(nodes, edges)) == LinksOf(edges)
  {
    forall x | x in edges ensures LinkOf(ReattachedEdges(nodes, edges)[x]) == LinkOf(edges[x]) {
      ReattachedLink(nodes, edges[x]);
    }
    SameLinks(ReattachedEdges(nodes, edges), edges);
  }

  function Serialize(g: Graph, nodeOrder: seq<string>, edgeOrder: seq<string>): Payload
    requires forall u :: u in nodeOrder ==> u in g.nodes
    requires forall x :: x in edgeOrder ==> x in g.edges
  {
    Payload(
      seq(|nodeOrder|, i requires 0 <= i < |nodeOrder| => RawNodeOf(g.nodes[nodeOrder[i]], g.heap)),
      seq(|edgeOrder|, i requires 0 <= i < |edgeOrder| => RawEdgeOf(g.edges[edgeOrder[i]])))
  }

  lemma RawUids(v: Vocabulary, g: Graph, u: string, x: string)
    ensures u in g.nodes && g.nodes[u].Valid(v) ==> RawNodeUid(RawNodeOf(g.nodes[u], g.heap)) == g.nodes[u].uid
    ensures x in g.edges && g.edges[x].Valid(v) ==> RawEdgeUid(RawEdgeOf(g.edges[x])) == g.edges[x].uid
  {
  }

  lemma SerializeIsSnapshot(v: Vocabulary, g: Graph, nodeOrder: seq<string>, edgeOrder: seq<string>)
    requires ValidNodes(v, g.nodes) && ValidEdges(v, g.edges)
    requires forall u :: u in nodeOrder <==> u in g.nodes
    requires forall x :: x in edgeOrder <==> x in g.edges
    ensures Snapshot(Serialize(g, nodeOrder, edgeOrder), g)
  {
    var p := Serialize(g, nodeOrder, edgeOrder);
    forall u | u in g.nodes ensures RawNodeOf(g.nodes[u], g.heap) in p.nodes {
      var i :| 0 <= i < |nodeOrder| && nodeOrder[i] == u;
      assert p.nodes[i] == RawNodeOf(g.nodes[u], g.heap);
    }
    forall x | x in g.edges ensures RawEdgeOf(g.edges[x]) in p.edges {
      var i :| 0 <= i < |edgeOrder| && edgeOrder[i] == x;
      assert p.edges[i] == RawEdgeOf(g.edges[x]);
    }
    forall r | r in p.nodes ensures RawNodeUid(r) in g.nodes && r == RawNodeOf(g.nodes[RawNodeUid(r)], g.heap) {
      var i :| 0 <= i < |p.nodes| && p.nodes[i] == r;
      RawUids(v, g, nodeOrder[i], "");
    }
    forall r | r in p.edges ensures RawEdgeUid(r) in g.edges && r == RawEdgeOf(g.edges[RawEdgeUid(r)]) {
      var i :| 0 <= i < |p.edges| && p.edges[i] == r;
      RawUids(v, g, "", edgeOrder[i]);
    }
  }

  lemma LinksOfInsert(edges: Edges, x: string, e: GraphRelationship)
    ensures LinksOf(edges[x := e]) == LinksOf(edges)[x := LinkOf(e)]
  {
  }

  lemma InsertKeepsValid(v: Vocabulary, nodes: Nodes, edges: Edges, x: string, e: GraphRelationship)
    requires ValidEdges(v, edges) && AllAnchored(nodes, edges)
    requires e.Valid(v) && e.uid == x && Anchored(nodes, e)
    ensures ValidEdges(v, edges[x := e]) && AllAnchored(nodes, edges[x := e])
  {
    var edges' := edges[x := e];
    forall y | y in edges' ensures edges'[y].Valid(v) && edges'[y].uid == y && Anchored(nodes, edges'[y]) {
      if y != x { assert edges'[y] == edges[y]; }
    }
  }

  /** The representation invariant: everything stored is well formed under its
      own uid, edges end at stored nodes, and both indexes mirror the edges. */
  ghost predicate Consistent(v: Vocabulary, nodes: Nodes, edges: Edges, outgoing: Adjacency, incoming: Adjacency) {
    && v.WellFormed()
    && ValidNodes(v, nodes) && ValidEdges(v, edges) && AllAnchored(nodes, edges)
    && Indexes(outgoing, LinksOf(edges), Out)
    && Indexes(incoming, LinksOf(edges), In)
  }

  /** `adjacency[uid].add(x)` on a `defaultdict(set)`. */
  function Including(adjacency: Adjacency, uid: string, x: string): Adjacency {
    adjacency[uid := At(adjacency, uid) + {x}]
  }

  lemma IndexesInsert(edges: Edges, outgoing: Adjacency, incoming: Adjacency, x: string, e: GraphRelationship)
    requires Indexes(outgoing, LinksOf(edges), Out) && Indexes(incoming, LinksOf(edges), In)
    requires x in edges ==> LinkOf(edges[x]) == LinkOf(e)
    ensures Indexes(Including(outgoing, e.start.uid, x), LinksOf(edges[x := e]), Out)
    ensures Indexes(Including(incoming, e.end.uid, x), LinksOf(edges[x := e]), In)
  {
    var l := LinkOf(e);
    LinksOfInsert(edges, x, e);
    IndexRegister(outgoing, LinksOf(edges), Out, x, l);
    IndexRegister(incoming, LinksOf(edges), In, x, l);
    assert l.start == e.start.uid && l.end == e.end.uid;
  }

  lemma ConsistentInsert(v: Vocabulary, nodes: Nodes, edges: Edges, outgoing: Adjacency, incoming: Adjacency,
                         e: GraphRelationship)
    requires Consistent(v, nodes, edges, outgoing, incoming)
    requires e.Valid(v) && Anchored(nodes, e)
    ensures Consistent(v, nodes, edges[e.uid := e],
                       Including(outgoing, e.start.uid, e.uid),
                       Including(incoming, e.end.uid, e.uid))
  {
    SameUidSameLink(v, edges, e);
    InsertKeepsValid(v, nodes, edges, e.uid, e);
    IndexesInsert(edges, outgoing, incoming, e.uid, e);
  }

  lemma ConsistentDefault(v: Vocabulary, nodes: Nodes, edges: Edges, outgoing: Adjacency, incoming: Adjacency,
                          n: GraphNode)
    requires Consistent(v, nodes, edges, outgoing, incoming) && n.Valid(v)
    ensures Consistent(v, SetDefault(nodes, n), edges, outgoing, incoming)
  {
  }

  lemma LinksOfRemoval(edges: Edges, gone: set<string>)
    ensures LinksOf(edges - gone) == LinksOf(edges) - gone
  {
  }

  /** The two index entries of a node together are its incident edges. */
  lemma AttachedAreIncident(edges: Edges, outgoing: Adjacency, incoming: Adjacency, uid: string)
    requires Indexes(outgoing, LinksOf(edges), Out) && Indexes(incoming, LinksOf(edges), In)
    ensures At(outgoing, uid) + At(incoming, uid) == IncidentTo(edges, uid)
  {
    var links := LinksOf(edges);
    EntriesAreTouching(outgoing, incoming, links, uid);
    assert forall x :: x in links <==> x in edges;
    assert forall x :: x in edges ==> links[x] == LinkOf(edges[x]);
  }

  lemma RemovalKeepsEntries(v: Vocabulary, nodes: Nodes, edges: Edges, uid: string)
    requires ValidNodes(v, nodes) && ValidEdges(v, edges) && AllAnchored(nodes, edges)
    ensures ValidNodes(v, nodes - {uid}) && ValidEdges(v, edges - IncidentTo(edges, uid))
    ensures AllAnchored(nodes - {uid}, edges - IncidentTo(edges, uid))
  {
    var edges' := edges - IncidentTo(edges, uid);
    forall x | x in edges' ensures Anchored(nodes - {uid}, edges'[x]) {
      assert Anchored(nodes, edges[x]);
    }
  }

  lemma ConsistentDetach(v: Vocabulary, nodes: Nodes, edges: Edges, outgoing: Adjacency, incoming: Adjacency,
                         uid: string, gone: set<string>, outgoing': Adjacency, incoming': Adjacency)
    requires Consistent(v, nodes, edges, outgoing, incoming)
    requires gone == At(outgoing, uid) + At(incoming, uid)
    requires PartlyDetached(outgoing, outgoing', uid, gone) && PartlyDetached(incoming, incoming', uid, gone)
    ensures Consistent(v, nodes - {uid}, edges - gone, outgoing', incoming')
  {
    AttachedAreIncident(edges, outgoing, incoming, uid);
    RemovalKeepsEntries(v, nodes, edges, uid);
    LinksOfRemoval(edges, gone);
    IndexesCover(outgoing, LinksOf(edges), Out, uid);
    IndexesCover(incoming, LinksOf(edges), In, uid);
    FullyDetached(outgoing, outgoing', LinksOf(edges), Out, uid, gone);
    FullyDetached(incoming, incoming', LinksOf(edges), In, uid, gone);
  }

  type NeighborHit = Hit<string>

  /** One and the same edge, of a wanted type, leads from `u` to the hit and carries the
      node it reports. */
  ghost predicate ReportedFrom(edges: Edges, types: set<string>, u: string, h: NeighborHit) {
    exists x :: x in edges && Wanted(types, edges[x].kind) && edges[x].kind == h.relationship
                && Near(LinkOf(edges[x]), h.direction) == u && FarNode(edges[x], h.direction) == h.node
                && h.uid == h.node.uid
  }

  ghost predicate FromOneOf(edges: Edges, types: set<string>, sources: seq<string>, h: NeighborHit) {
    exists u :: u in sources && ReportedFrom(edges, types, u, h)
  }

  ghost predicate AllFrom(edges: Edges, types: set<string>, sources: seq<string>, hits: seq<NeighborHit>) {
    forall i :: 0 <= i < |hits| ==> FromOneOf(edges, types, sources, hits[i])
  }

  lemma AllFromSnoc(edges: Edges, types: set<string>, sources: seq<string>, hits: seq<NeighborHit>, u: string,
                    x: string, h: NeighborHit)
    requires AllFrom(edges, types, sources, hits) && u in sources
    requires x in edges && Wanted(types, edges[x].kind) && edges[x].kind == h.relationship
    requires Near(LinkOf(edges[x]), h.direction) == u && FarNode(edges[x], h.direction) == h.node && h.uid == h.node.uid
    ensures AllFrom(edges, types, sources, hits + [h])
  {
    assert ReportedFrom(edges, types, u, h);
  }

  lemma AllFromMore(edges: Edges, types: set<string>, sources: seq<string>, more: seq<string>, hits: seq<NeighborHit>)
    requires AllFrom(edges, types, sources, hits)
    ensures AllFrom(edges, types, sources + more, hits)
  {
    forall i | 0 <= i < |hits| ensures FromOneOf(edges, types, sources + more, hits[i]) {
      assert FromOneOf(edges, types, sources, hits[i]);
      var u :| u in sources && ReportedFrom(edges, types, u, hits[i]);
      assert u in sources + more;
    }
  }

  /** The edge the hit reports, and whose endpoint it carries, ends a shortest walk to it. */
  ghost predicate EndsShortestWalk(edges: Edges, types: set<string>, start: string, h: NeighborHit) {
    && h.distance >= 1 && Distance(LinksOf(edges), types, start, h.uid, h.distance)
    && exists u :: Distance(LinksOf(edges), types, start, u, h.distance - 1) && ReportedFrom(edges, types, u, h)
  }

  ghost predicate AllEndShortestWalks(edges: Edges, types: set<string>, start: string, hits: seq<NeighborHit>) {
    forall i :: 0 <= i < |hits| ==> EndsShortestWalk(edges, types, start, hits[i])
  }

  /** The edge the hit reports leaves a node one layer below it. */
  ghost predicate FromLayerBelow(edges: Edges, types: set<string>, start: string, h: NeighborHit) {
    h.distance >= 1 && exists u ::
      OnLayer(LinksOf(edges), types, start, u, h.distance - 1) && ReportedFrom(edges, types, u, h)
  }

  /** The state of the search once radius `r` is complete. */
  ghost predicate Explored(edges: Edges, types: set<string>, start: string, r: nat, seen: set<string>,
                           frontier: seq<string>, hits: seq<NeighborHit>)
  {
    && Searched(LinksOf(edges), types, start, r, seen, frontier, hits)
    && forall i :: 0 <= i < |hits| ==> FromLayerBelow(edges, types, start, hits[i])
  }

  lemma FoundFromLayerBelow(edges: Edges, types: set<string>, start: string, r: nat, u: string, h: NeighborHit)
    requires h.distance == r + 1 && OnLayer(LinksOf(edges), types, start, u, r) && ReportedFrom(edges, types, u, h)
    ensures FromLayerBelow(edges, types, start, h)
  {
  }

  ghost predicate IsLayer<U(!new)>(links: Links<U>, types: set<U>, start: U, r: nat, frontier: seq<U>) {
    forall v :: v in frontier <==> OnLayer(links, types, start, v, r)
  }

  lemma InLayer<U(!new)>(links: Links<U>, types: set<U>, start: U, r: nat, frontier: seq<U>, u: U)
    requires IsLayer(links, types, start, r, frontier) && u in frontier
    ensures OnLayer(links, types, start, u, r)
  {
  }

  /** What a level found comes from the layer it started from. */
  lemma LevelFromLayerBelow(edges: Edges, types: set<string>, start: string, r: nat, frontier: seq<string>,
                            h: NeighborHit)
    requires IsLayer(LinksOf(edges), types, start, r, frontier)
    requires FromOneOf(edges, types, frontier, h) && h.distance == r + 1
    ensures FromLayerBelow(edges, types, start, h)
  {
    var u :| u in frontier && ReportedFrom(edges, types, u, h);
    InLayer(LinksOf(edges), types, start, r, frontier, u);
    FoundFromLayerBelow(edges, types, start, r, u, h);
  }

  lemma ExploredNext(edges: Edges, types: set<string>, start: string, r: nat, seen: set<string>, frontier: seq<string>,
                     hits: seq<NeighborHit>, seen': set<string>, found: seq<NeighborHit>)
    requires Explored(edges, types, start, r, seen, frontier, hits) && AllFrom(edges, types, frontier, found)
    requires Sound(LinksOf(edges), types, frontier, r + 1, seen, seen', found)
             && CoversAll(LinksOf(edges), types, frontier, seen')
    ensures Explored(edges, types, start, r + 1, seen', Uids(found), hits + found)
  {
    SearchedNext(LinksOf(edges), types, start, r, seen, frontier, hits, seen', found);
    forall i | 0 <= i < |found| ensures FromLayerBelow(edges, types, start, found[i]) {
      assert FromOneOf(edges, types, frontier, found[i]) && found[i].distance == r + 1;
      LevelFromLayerBelow(edges, types, start, r, frontier, found[i]);
    }
  }

  lemma LayerBelowEndsWalk(edges: Edges, types: set<string>, start: string, h: NeighborHit)
    requires FromLayerBelow(edges, types, start, h) && Distance(LinksOf(edges), types, start, h.uid, h.distance)
    ensures EndsShortestWalk(edges, types, start, h)
  {
    var u :| OnLayer(LinksOf(edges), types, start, u, h.distance - 1) && ReportedFrom(edges, types, u, h);
    LayerHasDistance(LinksOf(edges), types, start, u, h.distance - 1);
  }

  /** The search is over: every level was looked at, or one was empty. */
  lemma ExploredIsExact(edges: Edges, types: set<string>, start: string, r: nat, depth: nat, seen: set<string>,
                        frontier: seq<string>, hits: seq<NeighborHit>)
    requires Explored(edges, types, start, r, seen, frontier, hits) && 0 < r <= depth && (r == depth || frontier == [])
    ensures ExactSearch(LinksOf(edges), types, start, depth, hits) && AllEndShortestWalks(edges, types, start, hits)
  {
    if frontier == [] {
      SearchedStopped(LinksOf(edges), types, start, r, depth, seen, hits);
    } else {
      LayeredIsExact(LinksOf(edges), types, start, depth, hits);
    }
    forall i | 0 <= i < |hits| ensures EndsShortestWalk(edges, types, start, hits[i]) {
      assert Justified(LinksOf(edges), types, start, hits[i]);
      LayerBelowEndsWalk(edges, types, start, hits[i]);
    }
  }

  /** An object that is not stored is not in the file. */
  lemma UnstoredDoesNotShow(p: Payload, g: Graph, n: GraphNode, properties: Properties)
    requires Existing(g) && n !in g.heap && Snapshot(p, g)
    ensures Snapshot(p, Turn(g, Made(n, properties)))
  {
    var g' := Turn(g, Made(n, properties));
    forall u | u in g.nodes ensures RawNodeOf(g'.nodes[u], g'.heap) == RawNodeOf(g.nodes[u], g.heap) {}
    forall u | u in g'.nodes ensures RawNodeOf(g'.nodes[u], g'.heap) in p.nodes {
      assert RawNodeOf(g.nodes[u], g.heap) in p.nodes;
    }
  }

  lemma {:induction false} BuiltHoldStored(v: Vocabulary, nodes: Nodes, raws: seq<RawEdge>)
    requires ValidNodes(v, nodes) && Collect(BuildEdges(v, nodes, raws)).Ok?
    ensures var m := Collect(BuildEdges(v, nodes, raws)).value;
            forall x :: x in m ==> HoldsStored(nodes, m[x])
  {
    if |raws| > 0 {
      assert BuildEdges(v, nodes, raws)[..|raws| - 1] == BuildEdges(v, nodes, raws[..|raws| - 1]);
      BuiltHoldStored(v, nodes, raws[..|raws| - 1]);
    }
  }

  ghost predicate HoldsStored(nodes: Nodes, e: GraphRelationship) {
    e.start.uid in nodes && nodes[e.start.uid] == e.start && e.end.uid in nodes && nodes[e.end.uid] == e.end
  }

  /** Loaded edges hold the loaded nodes. */
  lemma BuiltAttached(v: Vocabulary, g: Graph, raws: seq<RawEdge>)
    requires ValidNodes(v, g.nodes) && Collect(BuildEdges(v, g.nodes, raws)) == Ok(g.edges)
    ensures AllAttached(g)
  {
    BuiltHoldStored(v, g.nodes, raws);
    forall x, direction | x in g.edges ensures Attached(g, g.edges[x], direction) {
      assert HoldsStored(g.nodes, g.edges[x]);
    }
  }

  /** The outcome of reading the persistence file into an empty store. */
  ghost predicate Loaded(v: Vocabulary, disk: Disk, r: Result<()>, g: Graph) {
    if !disk.Readable? then r.Ok? && g == Graph(map[], map[], map[])
    else
      match LoadedNodes(v, disk.payload.nodes)
      case Err(e) => r == Err(e)
      case Ok(ns) =>
        ValidNodes(v, ns.nodes) &&
        match Collect(BuildEdges(v, ns.nodes, disk.payload.edges))
        case Err(e) => r == Err(e)
        case Ok(es) => r.Ok? && g == ns.(edges := es)
  }

  /** One request to the store, or somebody making a node object for one. */
  datatype Request =
    | NodeMade(node: GraphNode, properties: Properties)
    | NodesUpserted(added: seq<GraphNode>)
    | RelationshipsUpserted(edges: seq<GraphRelationship>)
    | PaperDeleted(paperId: string)

  function StepsOf(request: Request): seq<Step> {
    match request
    case NodeMade(node, properties) => [Made(node, properties)]
    case NodesUpserted(added) => NodeSteps(added)
    case RelationshipsUpserted(added) => EdgeSteps(added)
    case PaperDeleted(paperId) => [Deleted(NodeUid("Paper", Lower(paperId)))]
  }

  /** What construction of the nodes and relationships guarantees. */
  ghost predicate WellFormedRequest(v: Vocabulary, request: Request) {
    match request
    case NodesUpserted(added) => forall i :: 0 <= i < |added| ==> added[i].Valid(v)
    case RelationshipsUpserted(added) => forall i :: 0 <= i < |added| ==> added[i].Valid(v)
    case _ => true
  }

  function AllSteps(requests: seq<Request>): seq<Step> {
    if |requests| == 0 then [] else StepsOf(requests[0]) + AllSteps(requests[1..])
  }

  lemma OneStep(g: Graph, step: Step)
    ensures After(g, [step]) == Turn(g, step)
    ensures Possible(g, [step]) ==> CanHappen(g, step)
  {
    assert [step][..0] == [];
  }

  lemma {:induction false} StepsSnoc(requests: seq<Request>, i: nat)
    requires i < |requests|
    ensures AllSteps(requests[..i + 1]) == AllSteps(requests[..i]) + StepsOf(requests[i])
  {
    var more := requests[..i + 1];
    if i == 0 {
      assert more[1..] == [] && requests[..0] == [];
    } else {
      StepsSnoc(requests[1..], i - 1);
      assert more[1..] == requests[1..][..i] && requests[..i][1..] == requests[1..][..i - 1];
    }
  }

  lemma NextRequest(g: Graph, requests: seq<Request>, i: nat)
    requires i < |requests| && Possible(g, AllSteps(requests[i..]))
    ensures Possible(g, StepsOf(requests[i])) && Possible(After(g, StepsOf(requests[i])), AllSteps(requests[i + 1..]))
    ensures AllSteps(requests[..i + 1]) == AllSteps(requests[..i]) + StepsOf(requests[i])
  {
    assert requests[i..][1..] == requests[i + 1..];
    PossibleSplit(g, StepsOf(requests[i]), AllSteps(requests[i + 1..]));
    StepsSnoc(requests, i);
  }

  class InMemoryGraphStore {
    var nodes: Nodes
    var edges: Edges
    var outgoing: Adjacency
    var incoming: Adjacency
    /** The property dictionaries of all node objects, wherever they are referred to from. */
    var heap: Heap
    /** How many node objects have been made. */
    var made: nat
    const v: Vocabulary
    const persistent: bool
    var disk: Disk

    ghost function Now(): Graph
      reads this
    {
      Graph(nodes, edges, heap)
    }

    ghost predicate Valid()
      reads this
    {
      Consistent(v, nodes, edges, outgoing, incoming) && Existing(Now()) && MadeBefore(heap, made)
    }

    /** What a restart would load is the current graph. */
    ghost predicate Saved()
      reads this
    {
      persistent ==> disk.Readable? && Snapshot(disk.payload, Now())
    }

    /** An empty store over whatever the persistence file holds. */
    constructor (v: Vocabulary, persistent: bool, disk: Disk)
      requires v.WellFormed()
      ensures Valid() && Now() == Graph(map[], map[], map[]) && made == 0
      ensures this.v == v && this.persistent == persistent && this.disk == disk
    {
      this.v, this.persistent, this.disk := v, persistent, disk;
      nodes, edges, outgoing, incoming, heap, made := map[], map[], map[], map[], map[], 0;
    }

    /** Somebody constructs a node object. */
    method NewNode(nodeLabel: string, key: string, properties: Properties) returns (r: Result<GraphNode>)
      requires Valid()
      modifies this`heap, this`made
      ensures Valid() && (old(Saved()) ==> Saved())
      ensures r == MakeNode(v, nodeLabel, key, old(made))
      ensures r.Ok? ==>
                CanHappen(old(Now()), Made(r.value, properties)) && Now() == Turn(old(Now()), Made(r.value, properties))
      ensures r.Err? ==> Now() == old(Now())
    {
      r := MakeNode(v, nodeLabel, key, made);
      if r.Ok? { Allocate(r.value, properties); }
    }

    /** A new object comes to be. */
    method Allocate(node: GraphNode, properties: Properties)
      requires Valid() && node !in heap
      modifies this`heap, this`made
      ensures Valid() && (old(Saved()) ==> Saved())
      ensures Now() == Turn(old(Now()), Made(node, properties))
    {
      ghost var g := Now();
      TurnKeepsExisting(g, Made(node, properties));
      heap, made := heap[node := properties], if made > node.serial then made else node.serial + 1;
      if persistent && disk.Readable? && Snapshot(disk.payload, g) {
        UnstoredDoesNotShow(disk.payload, g, node, properties);
      }
    }

    method Flush()
      requires Valid()
      modifies this`disk
      ensures Saved()
      ensures !persistent ==> disk == old(disk)
    {
      if !persistent { return; }
      var nodeOrder := IterationOrder(nodes);
      var edgeOrder := IterationOrder(edges);
      disk := Readable(Serialize(Graph(nodes, edges, heap), nodeOrder, edgeOrder));
      SerializeIsSnapshot(v, Now(), nodeOrder, edgeOrder);
    }

    method RegisterEdge(edge: GraphRelationship)
      requires Valid() && edge.Valid(v) && Anchored(nodes, edge) && edge.start in heap && edge.end in heap
      modifies this`edges, this`outgoing, this`incoming
      ensures Valid() && edges == old(edges)[edge.uid := edge]
    {
      ConsistentInsert(v, nodes, edges, outgoing, incoming, edge);
      PutEdgeKeepsExisting(Now(), edge);
      edges, outgoing, incoming :=
        edges[edge.uid := edge],
        Including(outgoing, edge.start.uid, edge.uid),
        Including(incoming, edge.end.uid, edge.uid);
    }

    /** One iteration: store the object, or update the one that is stored. */
    method UpsertNode(node: GraphNode)
      requires Valid() && node.Valid(v) && node in heap
      modifies this`nodes, this`heap
      ensures Valid() && Now() == PutNode(old(Now()), node) && heap.Keys == old(heap).Keys
    {
      ConsistentDefault(v, nodes, edges, outgoing, incoming, node);
      PutNodeKeepsExisting(Now(), node);
      if node.uid !in nodes {
        nodes := nodes[node.uid := node];
      } else {
        var existing := nodes[node.uid];
        heap := heap[existing := heap[existing] + heap[node]];
      }
    }

    /** The loop of `upsert_nodes`. */
    method StoreAll(added: seq<GraphNode>)
      requires Valid() && forall i :: 0 <= i < |added| ==> added[i].Valid(v) && added[i] in heap
      modifies this`nodes, this`heap
      ensures Valid() && Now() == After(old(Now()), NodeSteps(added))
    {
      ghost var g, steps := Now(), NodeSteps(added);
      for i := 0 to |added|
        invariant Valid() && heap.Keys == old(heap).Keys && Now() == After(g, steps[..i])
      {
        AfterMore(g, steps, i);
        UpsertNode(added[i]);
      }
      assert steps[..|added|] == steps;
    }

    method UpsertNodes(added: seq<GraphNode>) returns (count: nat)
      requires Valid() && forall i :: 0 <= i < |added| ==> added[i].Valid(v) && added[i] in heap
      modifies this`nodes, this`heap, this`disk
      ensures Valid() && count == |added|
      ensures Now() == After(old(Now()), NodeSteps(added))
      ensures old(Saved()) || added != [] ==> Saved()
    {
      if |added| == 0 { return 0; }
      StoreAll(added);
      Flush();
      return |added|;
    }

    /** One iteration: make sure of both endpoints, then register the edge. */
    method UpsertRelationship(edge: GraphRelationship)
      requires Valid() && edge.Valid(v) && edge.start in heap && edge.end in heap
      modifies this`nodes, this`edges, this`outgoing, this`incoming
      ensures Valid() && Now() == PutEdge(old(Now()), edge)
    {
      StoreDefault(edge.start);
      StoreDefault(edge.end);
      RegisterEdge(edge);
    }

    method StoreDefault(node: GraphNode)
      requires Valid() && node.Valid(v) && node in heap
      modifies this`nodes
      ensures Valid() && nodes == SetDefault(old(nodes), node) && Anchors(nodes, node)
      ensures forall u :: u in old(nodes) ==> u in nodes && nodes[u] == old(nodes)[u]
    {
      ConsistentDefault(v, nodes, edges, outgoing, incoming, node);
      DefaultKeepsExisting(Now(), node);
      nodes := SetDefault(nodes, node);
    }

    /** The loop of `upsert_relationships`. */
    method RegisterAll(added: seq<GraphRelationship>)
      requires Valid() && forall i :: 0 <= i < |added| ==>
                 added[i].Valid(v) && added[i].start in heap && added[i].end in heap
      modifies this`nodes, this`edges, this`outgoing, this`incoming
      ensures Valid() && Now() == After(old(Now()), EdgeSteps(added))
    {
      ghost var g, steps := Now(), EdgeSteps(added);
      for i := 0 to |added|
        invariant Valid() && Now() == After(g, steps[..i])
      {
        AfterMore(g, steps, i);
        UpsertRelationship(added[i]);
      }
      assert steps[..|added|] == steps;
    }

    method UpsertRelationships(added: seq<GraphRelationship>) returns (count: nat)
      requires Valid() && forall i :: 0 <= i < |added| ==>
                 added[i].Valid(v) && added[i].start in heap && added[i].end in heap
      modifies this`nodes, this`edges, this`outgoing, this`incoming, this`disk
      ensures Valid() && count == |added|
      ensures Now() == After(old(Now()), EdgeSteps(added))
      ensures old(Saved()) || added != [] ==> Saved()
    {
      if |added| == 0 { return 0; }
      RegisterAll(added);
      Flush();
      return |added|;
    }

    /** Detach-delete: the paper's node, and exactly the edges that touch it. */
    method DeletePaper(paperId: string) returns (count: nat)
      requires Valid()
      modifies this`nodes, this`edges, this`outgoing, this`incoming, this`disk
      ensures Valid()
      ensures var uid := NodeUid("Paper", Lower(paperId));
              && Now() == Turn(old(Now()), Deleted(uid))
              && count == (if uid in old(nodes) then 1 + |IncidentTo(old(edges), uid)| else 0)
              && (old(Saved()) || uid in old(nodes) ==> Saved())
    {
      var uid := NodeUid("Paper", Lower(paperId));
      if uid !in nodes { return 0; }
      ghost var g := Now();
      WithoutKeepsExisting(g, uid);
      AttachedAreIncident(edges, outgoing, incoming, uid);
      var attached := DetachEdges(uid, LinksOf(edges));
      ConsistentDetach(v, nodes, old(edges), old(outgoing), old(incoming), uid, attached, outgoing, incoming);
      nodes := nodes - {uid};
      Flush();
      return |attached| + 1;
    }

    /** Any sequence of requests is a history of the steps the results about edges and
        their endpoints speak of; each request uses only objects made before it. */
    method Serve(requests: seq<Request>)
      requires Valid() && Possible(Now(), AllSteps(requests))
      requires forall i :: 0 <= i < |requests| ==> WellFormedRequest(v, requests[i])
      modifies this
      ensures Valid() && Now() == After(old(Now()), AllSteps(requests))
      ensures old(Saved()) ==> Saved()
    {
      ghost var g := Now();
      for i := 0 to |requests|
        invariant Valid() && (old(Saved()) ==> Saved()) && Now() == After(g, AllSteps(requests[..i]))
        invariant Possible(Now(), AllSteps(requests[i..]))
      {
        NextRequest(Now(), requests, i);
        AfterConcat(g, AllSteps(requests[..i]), StepsOf(requests[i]));
        Answer(requests[i]);
      }
      assert requests[..|requests|] == requests;
    }

    method Answer(request: Request)
      requires Valid() && WellFormedRequest(v, request) && Possible(Now(), StepsOf(request))
      modifies this
      ensures Valid() && Now() == After(old(Now()), StepsOf(request))
      ensures old(Saved()) ==> Saved()
    {
      ghost var g, steps := Now(), StepsOf(request);
      match request {
        case NodeMade(node, properties) =>
          OneStep(g, steps[0]);
          Allocate(node, properties);
        case NodesUpserted(added) =>
          forall i | 0 <= i < |added| ensures added[i] in heap { BatchRefersBack(g, steps, i); }
          var _ := UpsertNodes(added);
        case RelationshipsUpserted(added) =>
          forall i | 0 <= i < |added| ensures added[i].start in heap && added[i].end in heap {
            BatchRefersBack(g, steps, i);
          }
          var _ := UpsertRelationships(added);
        case PaperDeleted(paperId) =>
          OneStep(g, steps[0]);
          var _ := DeletePaper(paperId);
      }
    }

    /** The loop of `delete_paper` that pops a node's edges and unlists them at their other ends. */
    method DetachEdges(uid: string, ghost links: Links<string>) returns (attached: set<string>)
      requires links == LinksOf(edges)
      requires Indexes(outgoing, links, Out) && Indexes(incoming, links, In)
      modifies this`edges, this`outgoing, this`incoming
      ensures attached == old(At(outgoing, uid) + At(incoming, uid))
      ensures edges == old(edges) - attached
      ensures PartlyDetached(old(outgoing), outgoing, uid, attached)
      ensures PartlyDetached(old(incoming), incoming, uid, attached)
    {
      ghost var out0, in0, edges0 := outgoing, incoming, edges;
      attached := At(outgoing, uid) + At(incoming, uid);
      AttachedAreIncident(edges, outgoing, incoming, uid);
      DetachNone(outgoing, uid);
      DetachNone(incoming, uid);
      MinusNone(edges);
      outgoing, incoming := outgoing - {uid}, incoming - {uid};
      var todo, gone: set<string> := attached, {};
      while todo != {}
        invariant todo + gone == attached && todo !! gone
        invariant edges == edges0 - gone
        invariant PartlyDetached(out0, outgoing, uid, gone)
        invariant PartlyDetached(in0, incoming, uid, gone)
        decreases todo
      {
        var x :| x in todo;
        todo := todo - {x};
        Unlink(x, uid, gone, edges0, out0, in0);
        gone := gone + {x};
      }
      assert gone == attached;
    }

    /** One iteration: pop an edge and unlist it at both its ends. */
    method Unlink(x: string, ghost uid: string, ghost gone: set<string>,
                  ghost edges0: Edges, ghost out0: Adjacency, ghost in0: Adjacency)
      requires x in edges0 && x !in gone && edges == edges0 - gone
      requires Indexes(out0, LinksOf(edges0), Out) && Indexes(in0, LinksOf(edges0), In)
      requires PartlyDetached(out0, outgoing, uid, gone) && PartlyDetached(in0, incoming, uid, gone)
      modifies this`edges, this`outgoing, this`incoming
      ensures edges == edges0 - (gone + {x})
      ensures PartlyDetached(out0, outgoing, uid, gone + {x})
      ensures PartlyDetached(in0, incoming, uid, gone + {x})
    {
      var edge := edges[x];
      DetachOne(out0, outgoing, LinksOf(edges0), Out, uid, gone, x);
      DetachOne(in0, incoming, LinksOf(edges0), In, uid, gone, x);
      MinusOneMore(edges0, gone, x);
      edges := edges - {x};
      outgoing := outgoing[edge.start.uid := At(outgoing, edge.start.uid) - {x}];
      incoming := incoming[edge.end.uid := At(incoming, edge.end.uid) - {x}];
    }

    /** Reading the persistence file at start-up. A missing or unreadable file
        leaves the store empty; an entry the vocabulary rejects aborts the start. */
    method Load() returns (r: Result<()>)
      requires Valid() && Now() == Graph(map[], map[], map[]) && made == 0
      modifies this`nodes, this`edges, this`outgoing, this`incoming, this`heap, this`made
      ensures Valid()
      ensures Loaded(v, disk, r, Now())
      ensures r.Ok? ==> AllAttached(Now())
    {
      if !disk.Readable? { return Ok(()); }
      r := LoadNodes(disk.payload.nodes);
      if r.Err? { return; }
      r := LoadEdges(disk.payload.edges);
      if r.Ok? { BuiltAttached(v, Now(), disk.payload.edges); }
    }

    method LoadNodes(raws: seq<RawNode>) returns (r: Result<()>)
      requires Valid() && Now() == Graph(map[], map[], map[]) && made == 0
      modifies this`nodes, this`heap, this`made
      ensures Valid() && edges == map[]
      ensures r.Ok? ==> LoadedNodes(v, raws) == Ok(Now())
      ensures r.Err? ==> LoadedNodes(v, raws) == Err(r.error)
    {
      for i := 0 to |raws|
        invariant Valid() && edges == map[] && made == i
        invariant LoadedNodes(v, raws[..i]) == Ok(Now())
      {
        LoadedMore(v, raws, i);
        match MakeNode(v, raws[i].nodeLabel, raws[i].key, made) {
          case Err(e) =>
            LoadFails(v, raws, i + 1);
            return Err(e);
          case Ok(node) => StoreLoaded(node, raws[i].properties);
        }
      }
      assert raws[..|raws|] == raws;
      return Ok(());
    }

    /** One entry of the file: a new object, stored whatever was stored before. */
    method StoreLoaded(node: GraphNode, properties: Properties)
      requires Valid() && edges == map[] && node.Valid(v) && node.serial == made
      modifies this`nodes, this`heap, this`made
      ensures Valid() && made == old(made) + 1
      ensures Now() == Graph(old(nodes)[node.uid := node], map[], old(heap)[node := properties])
    {
      ConsistentOverwrite(v, nodes, edges, outgoing, incoming, node);
      nodes, heap, made := nodes[node.uid := node], heap[node := properties], made + 1;
    }

    method LoadEdges(raws: seq<RawEdge>) returns (r: Result<()>)
      requires Valid() && edges == map[]
      modifies this`edges, this`outgoing, this`incoming
      ensures Valid()
      ensures r.Ok? ==> Collect(BuildEdges(v, nodes, raws)) == Ok(edges)
      ensures r.Err? ==> Collect(BuildEdges(v, nodes, raws)) == Err(r.error)
    {
      ghost var built := BuildEdges(v, nodes, raws);
      for i := 0 to |raws|
        invariant Valid()
        invariant Collect(built[..i]) == Ok(edges)
      {
        assert built[..i + 1][..i] == built[..i];
        var raw := raws[i];
        if raw.start !in nodes || raw.end !in nodes { continue; }
        match MakeRelationship(v, raw.kind, nodes[raw.start], nodes[raw.end], raw.properties) {
          case Err(e) =>
            CollectFails(built, i + 1);
            return Err(e);
          case Ok(edge) => RegisterEdge(edge);
        }
      }
      assert built[..|raws|] == built;
      return Ok(());
    }

    /** One of the two inner loops of the search: follow a node's edges in one
        direction, extending the next frontier and this level's hits. */
    method Follow(uid: string, direction: Direction, types: set<string>, distance: nat, seen: set<string>,
                  next: seq<string>, found: seq<NeighborHit>, ghost sources: seq<string>, ghost seen0: set<string>)
      returns (seen': set<string>, next': seq<string>, found': seq<NeighborHit>)
      requires Valid() && uid in sources
      requires Sound(LinksOf(edges), types, sources, distance, seen0, seen, found) && next == Uids(found)
      requires AllFrom(edges, types, sources, found)
      ensures Sound(LinksOf(edges), types, sources, distance, seen0, seen', found') && next' == Uids(found')
      ensures AllFrom(edges, types, sources, found')
      ensures seen <= seen' && Covers(LinksOf(edges), types, uid, direction, {}, seen')
    {
      ghost var links := LinksOf(edges);
      seen', next', found' := seen, next, found;
      var todo := At(if direction.Out? then outgoing else incoming, uid);
      IndexesCover(if direction.Out? then outgoing else incoming, links, direction, uid);
      while todo != {}
        invariant forall x :: x in todo ==> x in links && Near(links[x], direction) == uid
        invariant seen <= seen' && Covers(links, types, uid, direction, todo, seen')
        invariant Sound(links, types, sources, distance, seen0, seen', found') && next' == Uids(found')
        invariant AllFrom(edges, types, sources, found')
        decreases todo
      {
        var x :| x in todo;
        PutBack(todo, x);
        todo := todo - {x};
        var edge := edges[x];
        assert links[x] == LinkOf(edge);
        ghost var before := seen';
        if Wanted(types, edge.kind) && FarNode(edge, direction).uid !in seen' {
          var hit := NeighborHit(FarNode(edge, direction).uid, FarNode(edge, direction), edge.kind,
                                 direction, distance);
          SoundTake(links, types, sources, distance, seen0, seen', found', uid, x, hit);
          AllFromSnoc(edges, types, sources, found', uid, x, hit);
          UidsSnoc(found', hit);
          seen', next', found' := seen' + {hit.uid}, next' + [hit.uid], found' + [hit];
        }
        CoversOneMore(links, types, uid, direction, todo, x, before, seen');
      }
    }

    /** One level of the search: both inner loops for every node of the frontier. */
    method ExpandLevel(frontier: seq<string>, types: set<string>, distance: nat, seen: set<string>)
      returns (seen': set<string>, next: seq<string>, found: seq<NeighborHit>)
      requires Valid()
      ensures Sound(LinksOf(edges), types, frontier, distance, seen, seen', found) && next == Uids(found)
      ensures AllFrom(edges, types, frontier, found) && CoversAll(LinksOf(edges), types, frontier, seen')
    {
      ghost var links := LinksOf(edges);
      seen', next, found := seen, [], [];
      NothingFound(links, types, distance, seen);
      for i := 0 to |frontier|
        invariant Sound(links, types, frontier[..i], distance, seen, seen', found) && next == Uids(found)
        invariant AllFrom(edges, types, frontier[..i], found) && CoversAll(links, types, frontier[..i], seen')
      {
        ghost var seen0, sources := seen', frontier[..i + 1];
        TakeNext(frontier, i);
        SoundMoreSources(links, types, frontier[..i], [frontier[i]], distance, seen, seen', found);
        AllFromMore(edges, types, frontier[..i], [frontier[i]], found);
        seen', next, found := Follow(frontier[i], Out, types, distance, seen', next, found, sources, seen);
        ghost var seen1 := seen';
        seen', next, found := Follow(frontier[i], In, types, distance, seen', next, found, sources, seen);
        CoversAllMore(links, types, frontier[..i], frontier[i], seen0, seen1, seen');
      }
      assert frontier[..|frontier|] == frontier;
    }

    /** Undirected breadth-first search from a node, up to `depth` steps, over edges
        of the wanted types. Before truncation the result is exact. */
    method Neighbors(nodeLabel: string, key: string, depth: int, relationshipTypes: seq<string>, limit: int)
      returns (hits: seq<NeighborHit>)
      requires Valid()
      ensures var start, types := NodeUid(nodeLabel, v.normalize(key)), set t | t in relationshipTypes;
              if start !in nodes then hits == []
              else exists all ::
                     && hits == Upto(all, limit) && AllEndShortestWalks(edges, types, start, all)
                     && ExactSearch(LinksOf(edges), types, start, if depth > 1 then depth else 1, all)
    {
      var start := NodeUid(nodeLabel, v.normalize(key));
      if start !in nodes { return []; }
      var types := set t | t in relationshipTypes;
      var maxDepth: nat := if depth > 1 then depth else 1;
      var seen, frontier, all: seq<NeighborHit> := {start}, [start], [];
      LayeredStart(LinksOf(edges), types, start);
      var distance := 0;
      while distance < maxDepth && frontier != []
        invariant distance <= maxDepth && (distance == 0 ==> frontier != [])
        invariant Explored(edges, types, start, distance, seen, frontier, all)
        decreases maxDepth - distance
      {
        var seen', next, found := ExpandLevel(frontier, types, distance + 1, seen);
        ExploredNext(edges, types, start, distance, seen, frontier, all, seen', found);
        seen, frontier, all := seen', next, all + found;
        distance := distance + 1;
      }
      ExploredIsExact(edges, types, start, distance, maxDepth, seen, frontier, all);
      return Upto(all, limit);
    }
  }

  lemma {:induction false} CollectFails<U, V>(built: seq<Built<U, V>>, i: nat)
    requires i <= |built| && Collect(built[..i]).Err?
    ensures Collect(built) == Collect(built[..i])
    decreases |built|
  {
    if i == |built| {
      assert built[..i] == built;
    } else {
      assert built[..|built| - 1][..i] == built[..i];
      CollectFails(built[..|built| - 1], i);
    }
  }

  lemma LoadedMore(v: Vocabulary, raws: seq<RawNode>, i: nat)
    requires i < |raws| && LoadedNodes(v, raws[..i]).Ok?
    ensures LoadedNodes(v, raws[..i + 1])
         == match MakeNode(v, raws[i].nodeLabel, raws[i].key, i)
            case Err(e) => Err(e)
            case Ok(n) =>
              var g := LoadedNodes(v, raws[..i]).value;
              Ok(Graph(g.nodes[n.uid := n], map[], g.heap[n := raws[i].properties]))
  {
    assert raws[..i + 1][..i] == raws[..i];
  }

  lemma {:induction false} LoadFails(v: Vocabulary, raws: seq<RawNode>, i: nat)
    requires i <= |raws| && LoadedNodes(v, raws[..i]).Err?
    ensures LoadedNodes(v, raws) == LoadedNodes(v, raws[..i])
    decreases |raws|
  {
    if i == |raws| {
      assert raws[..i] == raws;
    } else {
      assert raws[..|raws| - 1][..i] == raws[..i];
      LoadFails(v, raws[..|raws| - 1], i);
    }
  }

  lemma ConsistentOverwrite(v: Vocabulary, nodes: Nodes, edges: Edges, outgoing: Adjacency, incoming: Adjacency,
                            n: GraphNode)
    requires Consistent(v, nodes, edges, outgoing, incoming) && n.Valid(v)
    ensures Consistent(v, nodes[n.uid := n], edges, outgoing, incoming)
  {
  }

  /** Nodes that say the same, typed edges with the same properties, and the same answer
      to every adjacency question. */
  ghost predicate SameGraph(g: Graph, outgoing: Adjacency, incoming: Adjacency, g': Graph, outgoing': Adjacency,
                            incoming': Adjacency)
  {
    && g'.nodes.Keys == g.nodes.Keys && (forall u :: u in g.nodes ==> SameNode(u, g, g'))
    && g'.edges.Keys == g.edges.Keys
    && (forall x :: x in g.edges && x in g'.edges ==> RawEdgeOf(g'.edges[x]) == RawEdgeOf(g.edges[x]))
    && (forall u :: At(outgoing', u) == At(outgoing, u) && At(incoming', u) == At(incoming, u))
  }

  lemma SameAnswers(outgoing: Adjacency, incoming: Adjacency, outgoing': Adjacency, incoming': Adjacency,
                    links: Links<string>)
    requires Indexes(outgoing, links, Out) && Indexes(incoming, links, In)
    requires Indexes(outgoing', links, Out) && Indexes(incoming', links, In)
    ensures forall u :: At(outgoing', u) == At(outgoing, u) && At(incoming', u) == At(incoming, u)
  {
    forall u ensures At(outgoing', u) == At(outgoing, u) && At(incoming', u) == At(incoming, u) {
      IndexesUnique(outgoing', outgoing, links, Out, u);
      IndexesUnique(incoming', incoming, links, In, u);
    }
  }

  lemma LoadedAllNodes(v: Vocabulary, p: Payload, g: Graph)
    requires v.WellFormed() && ValidNodes(v, g.nodes) && Snapshot(p, g)
    ensures LoadedNodes(v, p.nodes).Ok?
    ensures var ns := LoadedNodes(v, p.nodes).value;
            ns.nodes.Keys == g.nodes.Keys && forall u :: u in g.nodes ==> SameNode(u, g, ns)
  {
    NodesRoundTrip(v, p.nodes, g);
    var ns := LoadedNodes(v, p.nodes).value;
    forall u | u in g.nodes ensures u in ns.nodes {
      assert RawNodeOf(g.nodes[u], g.heap) in p.nodes;
      RawUids(v, g, u, "");
    }
    forall u | u in ns.nodes ensures u in g.nodes { assert SameNode(u, g, ns); }
  }

  /** Persistence round trip, first half: loading a snapshot of a consistent graph
      succeeds, with nodes that say the same, and skips no edge. */
  lemma LoadOfSnapshotSucceeds(v: Vocabulary, p: Payload, g: Graph, outgoing: Adjacency, incoming: Adjacency)
    requires Consistent(v, g.nodes, g.edges, outgoing, incoming) && Snapshot(p, g)
    ensures LoadedNodes(v, p.nodes).Ok?
    ensures var ns := LoadedNodes(v, p.nodes).value;
            && ValidNodes(v, ns.nodes) && ns.nodes.Keys == g.nodes.Keys
            && (forall u :: u in g.nodes ==> SameNode(u, g, ns))
            && AllAnchored(ns.nodes, g.edges)
            && Collect(BuildEdges(v, ns.nodes, p.edges)) == Ok(ReattachedEdges(ns.nodes, g.edges))
  {
    LoadedAllNodes(v, p, g);
    LoadedNodesAre(v, p.nodes);
    var ns := LoadedNodes(v, p.nodes).value;
    forall x | x in g.edges ensures Anchored(ns.nodes, g.edges[x]) { assert Anchored(g.nodes, g.edges[x]); }
    EdgesRoundTrip(v, p, g, ns.nodes);
  }

  lemma ReattachedSameRaw(nodes: Nodes, edges: Edges)
    requires AllAnchored(nodes, edges)
    ensures ReattachedEdges(nodes, edges).Keys == edges.Keys
    ensures forall x :: x in edges ==> RawEdgeOf(ReattachedEdges(nodes, edges)[x]) == RawEdgeOf(edges[x])
  {
    forall x | x in edges ensures RawEdgeOf(ReattachedEdges(nodes, edges)[x]) == RawEdgeOf(edges[x]) {
      ReattachedLink(nodes, edges[x]);
    }
  }

  lemma ReattachedAnswers(nodes: Nodes, edges: Edges, outgoing: Adjacency, incoming: Adjacency,
                          outgoing': Adjacency, incoming': Adjacency)
    requires AllAnchored(nodes, edges)
    requires Indexes(outgoing, LinksOf(edges), Out) && Indexes(incoming, LinksOf(edges), In)
    requires Indexes(outgoing', LinksOf(ReattachedEdges(nodes, edges)), Out)
    requires Indexes(incoming', LinksOf(ReattachedEdges(nodes, edges)), In)
    ensures forall u :: At(outgoing', u) == At(outgoing, u) && At(incoming', u) == At(incoming, u)
  {
    ReattachedSameLinks(nodes, edges);
    SameAnswers(outgoing, incoming, outgoing', incoming', LinksOf(edges));
  }

  /** Second half: what was loaded is the same graph, whatever indexes the load rebuilt. */
  lemma ReattachedIsSameGraph(v: Vocabulary, g: Graph, outgoing: Adjacency, incoming: Adjacency,
                              g': Graph, outgoing': Adjacency, incoming': Adjacency)
    requires Consistent(v, g.nodes, g.edges, outgoing, incoming) && AllAnchored(g'.nodes, g.edges)
    requires g'.nodes.Keys == g.nodes.Keys && forall u :: u in g.nodes ==> SameNode(u, g, g')
    requires g'.edges == ReattachedEdges(g'.nodes, g.edges) && Consistent(v, g'.nodes, g'.edges, outgoing', incoming')
    ensures SameGraph(g, outgoing, incoming, g', outgoing', incoming')
  {
    ReattachedSameRaw(g'.nodes, g.edges);
    ReattachedAnswers(g'.nodes, g.edges, outgoing, incoming, outgoing', incoming');
  }

  /** Persistence round trip: whatever a restart makes of the snapshot of a graph
      is that graph. */
  lemma FlushLoadRoundTrip(v: Vocabulary, p: Payload, g: Graph, outgoing: Adjacency, incoming: Adjacency,
                           r: Result<()>, g': Graph, outgoing': Adjacency, incoming': Adjacency)
    requires Consistent(v, g.nodes, g.edges, outgoing, incoming) && Snapshot(p, g)
    requires Consistent(v, g'.nodes, g'.edges, outgoing', incoming') && Loaded(v, Readable(p), r, g')
    ensures r.Ok? && SameGraph(g, outgoing, incoming, g', outgoing', incoming')
  {
    LoadOfSnapshotSucceeds(v, p, g, outgoing, incoming);
    var ns := LoadedNodes(v, p.nodes).value;
    forall u | u in g.nodes ensures SameNode(u, g, g') { assert SameNode(u, g, ns); }
    ReattachedIsSameGraph(v, g, outgoing, incoming, g', outgoing', incoming');
  }

  /** A restart after any completed write brings back the same graph, with every edge
      holding the stored nodes, whatever the one before held. */
  method Restart(store: InMemoryGraphStore) returns (reborn: InMemoryGraphStore, r: Result<()>)
    requires store.Valid() && store.persistent && store.Saved()
    ensures fresh(reborn) && r.Ok? && reborn.Valid() && AllAttached(reborn.Now())
    ensures SameGraph(store.Now(), store.outgoing, store.incoming, reborn.Now(), reborn.outgoing, reborn.incoming)
  {
    reborn := new InMemoryGraphStore(store.v, true, store.disk);
    r := reborn.Load();
    FlushLoadRoundTrip(store.v, store.disk.payload, store.Now(), store.outgoing, store.incoming,
                       r, reborn.Now(), reborn.outgoing, reborn.incoming);
  }
}
