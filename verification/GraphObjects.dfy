/** Node objects and who refers to them (backend/app/graph/store.py). The store and the
    edges hold references to node objects, and `upsert_nodes` updates the stored object in
    place: what an edge's endpoint says depends on whether it is that very object. */
module GraphObjects {
  import opened GraphSchema
  import opened GraphSearch
  import opened Sequences

  type Nodes = map<string, GraphNode>
  type Edges = map<string, GraphRelationship>
  type Properties = map<string, string>
  type Heap = map<GraphNode, Properties>

  /** What is stored, and what every node object there is currently says. */
  datatype Graph = Graph(nodes: Nodes, edges: Edges, heap: Heap)

  function Said(heap: Heap, n: GraphNode): Properties {
    if n in heap then heap[n] else map[]
  }

  /** The node a traversal in the given direction arrives at. */
  function FarNode(e: GraphRelationship, direction: Direction): GraphNode {
    if direction.Out? then e.end else e.start
  }

  // ---------------------------------------------------------------- one step

  /** One turn of `upsert_nodes`: a node that is new is stored itself; otherwise the
      stored object is updated with what the given one says. */
  function PutNode(g: Graph, n: GraphNode): Graph {
    if n.uid !in g.nodes then g.(nodes := g.nodes[n.uid := n])
    else
      var existing := g.nodes[n.uid];
      g.(heap := g.heap[existing := Said(g.heap, existing) + Said(g.heap, n)])
  }

  /** `self._nodes.setdefault(node.uid, node)`. */
  function SetDefault(nodes: Nodes, n: GraphNode): Nodes {
    if n.uid in nodes then nodes else nodes[n.uid := n]
  }

  /** One turn of `upsert_relationships`. */
  function PutEdge(g: Graph, e: GraphRelationship): Graph {
    Graph(SetDefault(SetDefault(g.nodes, e.start), e.end), g.edges[e.uid := e], g.heap)
  }

  /** The edges that start or end at a node. */
  function IncidentTo(edges: Edges, uid: string): set<string> {
    set x | x in edges && (edges[x].start.uid == uid || edges[x].end.uid == uid)
  }

  function Without(g: Graph, uid: string): Graph {
    if uid in g.nodes then g.(nodes := g.nodes - {uid}, edges := g.edges - IncidentTo(g.edges, uid)) else g
  }

  /** What happens to the graph, one object at a time; `Made` is anybody constructing a
      node object. */
  datatype Step =
    | Made(node: GraphNode, properties: Properties)
    | Node(node: GraphNode)
    | Edge(edge: GraphRelationship)
    | Deleted(uid: string)

  function Turn(g: Graph, step: Step): Graph {
    match step
    case Made(n, properties) => g.(heap := g.heap[n := properties])
    case Node(n) => PutNode(g, n)
    case Edge(e) => PutEdge(g, e)
    case Deleted(uid) => Without(g, uid)
  }

  function After(g: Graph, steps: seq<Step>): Graph {
    if |steps| == 0 then g else Turn(After(g, steps[..|steps| - 1]), steps[|steps| - 1])
  }

  lemma AfterMore(g: Graph, steps: seq<Step>, i: nat)
    requires i < |steps|
    ensures After(g, steps[..i + 1]) == Turn(After(g, steps[..i]), steps[i])
  {
    assert steps[..i + 1][..i] == steps[..i];
  }

  function NodeSteps(added: seq<GraphNode>): (r: seq<Step>)
    ensures |r| == |added| && forall i :: 0 <= i < |r| ==> r[i] == Node(added[i])
  {
    seq(|added|, i requires 0 <= i < |added| => Node(added[i]))
  }

  function EdgeSteps(added: seq<GraphRelationship>): (r: seq<Step>)
    ensures |r| == |added| && forall i :: 0 <= i < |r| ==> r[i] == Edge(added[i])
  {
    seq(|added|, i requires 0 <= i < |added| => Edge(added[i]))
  }

  // ------------------------------------------------------- what always holds

  /** Everything is stored under its own uid, edges end where something is stored, and
      only objects that exist are referred to. */
  ghost predicate Existing(g: Graph) {
    && (forall u :: u in g.nodes ==> g.nodes[u].uid == u && g.nodes[u] in g.heap)
    && (forall x :: x in g.edges ==> EndsExist(g, g.edges[x]) && g.edges[x].uid == x)
  }

  ghost predicate EndsExist(g: Graph, e: GraphRelationship) {
    e.start.uid in g.nodes && e.end.uid in g.nodes && e.start in g.heap && e.end in g.heap
  }

  /** The objects made so far are numbered below this. */
  ghost predicate MadeBefore(heap: Heap, made: nat) {
    forall n :: n in heap ==> n.serial < made
  }

  /** Objects are made once, and used only once they are made. */
  ghost predicate CanHappen(g: Graph, step: Step) {
    match step
    case Made(n, _) => n !in g.heap
    case Node(n) => n in g.heap
    case Edge(e) => e.start in g.heap && e.end in g.heap
    case Deleted(_) => true
  }

  ghost predicate Possible(g: Graph, steps: seq<Step>) {
    |steps| > 0 ==>
      Possible(g, steps[..|steps| - 1]) && CanHappen(After(g, steps[..|steps| - 1]), steps[|steps| - 1])
  }

  lemma PutNodeKeepsExisting(g: Graph, n: GraphNode)
    requires Existing(g) && n in g.heap
    ensures Existing(PutNode(g, n)) && PutNode(g, n).heap.Keys == g.heap.Keys
  {
    var g' := PutNode(g, n);
    forall x | x in g'.edges ensures EndsExist(g', g'.edges[x]) { assert EndsExist(g, g.edges[x]); }
  }

  lemma PutEdgeKeepsExisting(g: Graph, e: GraphRelationship)
    requires Existing(g) && e.start in g.heap && e.end in g.heap
    ensures Existing(PutEdge(g, e))
  {
    var g' := PutEdge(g, e);
    forall x | x in g'.edges ensures EndsExist(g', g'.edges[x]) {
      if x != e.uid { assert EndsExist(g, g.edges[x]); }
    }
  }

  lemma DefaultKeepsExisting(g: Graph, n: GraphNode)
    requires Existing(g) && n in g.heap
    ensures Existing(g.(nodes := SetDefault(g.nodes, n)))
  {
    var g' := g.(nodes := SetDefault(g.nodes, n));
    forall x | x in g'.edges ensures EndsExist(g', g'.edges[x]) { assert EndsExist(g, g.edges[x]); }
  }

  lemma WithoutKeepsExisting(g: Graph, uid: string)
    requires Existing(g)
    ensures Existing(Without(g, uid))
  {
    var g' := Without(g, uid);
    forall x | x in g'.edges ensures EndsExist(g', g'.edges[x]) { assert EndsExist(g, g.edges[x]); }
  }

  lemma TurnKeepsExisting(g: Graph, step: Step)
    requires Existing(g) && CanHappen(g, step)
    ensures Existing(Turn(g, step)) && g.heap.Keys <= Turn(g, step).heap.Keys
  {
    match step
    case Made(n, properties) =>
      forall x | x in g.edges ensures EndsExist(Turn(g, step), g.edges[x]) { assert EndsExist(g, g.edges[x]); }
    case Node(n) => PutNodeKeepsExisting(g, n);
    case Edge(e) => PutEdgeKeepsExisting(g, e);
    case Deleted(uid) => WithoutKeepsExisting(g, uid);
  }

  lemma {:induction false} HistoryKeepsExisting(g: Graph, steps: seq<Step>)
    requires Existing(g) && Possible(g, steps)
    ensures Existing(After(g, steps)) && g.heap.Keys <= After(g, steps).heap.Keys
  {
    if |steps| > 0 {
      HistoryKeepsExisting(g, steps[..|steps| - 1]);
      TurnKeepsExisting(After(g, steps[..|steps| - 1]), steps[|steps| - 1]);
    }
  }

  lemma {:induction false} AfterConcat(g: Graph, a: seq<Step>, b: seq<Step>)
    ensures After(g, a + b) == After(After(g, a), b)
  {
    if |b| == 0 {
      NoTail(a);
    } else {
      ConcatFront(a, b);
      AfterConcat(g, a, b[..|b| - 1]);
    }
  }

  lemma ConcatFront<T>(a: seq<T>, b: seq<T>)
    requires |b| > 0
    ensures |a + b| > 0 && (a + b)[|a + b| - 1] == b[|b| - 1] && (a + b)[..|a + b| - 1] == a + b[..|b| - 1]
  {
  }

  lemma {:induction false} PossibleSplit(g: Graph, a: seq<Step>, b: seq<Step>)
    requires Possible(g, a + b)
    ensures Possible(g, a) && Possible(After(g, a), b)
  {
    if |b| == 0 {
      NoTail(a);
    } else {
      ConcatFront(a, b);
      PossibleSplit(g, a, b[..|b| - 1]);
      AfterConcat(g, a, b[..|b| - 1]);
    }
  }

  /** What a batch refers to was there before it. */
  lemma {:induction false} BatchRefersBack(g: Graph, steps: seq<Step>, i: nat)
    requires Existing(g) && Possible(g, steps) && i < |steps| && forall j :: 0 <= j < |steps| ==> !steps[j].Made?
    ensures CanHappen(g, steps[i]) && After(g, steps).heap.Keys == g.heap.Keys
  {
    var n := |steps| - 1;
    var rest := steps[..n];
    HistoryKeepsExisting(g, rest);
    TurnKeepsKeys(After(g, rest), steps[n]);
    if i < n || n > 0 {
      assert forall j :: 0 <= j < |rest| ==> rest[j] == steps[j];
      BatchRefersBack(g, rest, if i < n then i else 0);
    }
  }

  lemma TurnKeepsKeys(g: Graph, step: Step)
    requires Existing(g) && !step.Made?
    ensures Turn(g, step).heap.Keys == g.heap.Keys
  {
  }

  // --------------------------------------------------- what a batch of nodes does

  /** The first of these nodes with this uid, or their number. */
  function FirstOf(added: seq<GraphNode>, u: string): (i: nat)
    ensures i <= |added| && (i < |added| ==> added[i].uid == u)
    ensures forall j :: 0 <= j < i ==> added[j].uid != u
  {
    if |added| == 0 then 0
    else
      var i := FirstOf(added[..|added| - 1], u);
      if i < |added| - 1 || added[|added| - 1].uid == u then i else |added|
  }

  lemma NodesSnoc(g: Graph, added: seq<GraphNode>)
    requires |added| > 0
    ensures After(g, NodeSteps(added)) == PutNode(After(g, NodeSteps(added[..|added| - 1])), added[|added| - 1])
  {
    assert NodeSteps(added)[..|added| - 1] == NodeSteps(added[..|added| - 1]);
  }

  /** The object stored under a uid is the one that was, or else the first of the batch;
      edges stay, and no object but the stored ones changes. */
  lemma {:induction false} FirstIsStored(g: Graph, added: seq<GraphNode>, u: string)
    requires Existing(g) && forall i :: 0 <= i < |added| ==> added[i] in g.heap
    ensures var g', i := After(g, NodeSteps(added)), FirstOf(added, u);
            && Existing(g') && g'.edges == g.edges && g'.heap.Keys == g.heap.Keys
            && (u in g'.nodes <==> u in g.nodes || i < |added|)
            && (u in g.nodes ==> g'.nodes[u] == g.nodes[u])
            && (u !in g.nodes && i < |added| ==> g'.nodes[u] == added[i])
  {
    if |added| > 0 {
      var rest, last := added[..|added| - 1], added[|added| - 1];
      NodesSnoc(g, added);
      FirstIsStored(g, rest, u);
      PutNodeKeepsExisting(After(g, NodeSteps(rest)), last);
    }
  }

  /** Another object with the stored object's uid, that says something of property `k`. */
  predicate Writes(heap: Heap, n: GraphNode, stored: GraphNode, k: string) {
    n != stored && n.uid == stored.uid && k in Said(heap, n)
  }

  /** The last such object of the batch, or -1. */
  function LastWriter(heap: Heap, added: seq<GraphNode>, stored: GraphNode, k: string): (i: int)
    ensures -1 <= i < |added|
    ensures i >= 0 ==> Writes(heap, added[i], stored, k)
    ensures forall j :: i < j < |added| ==> !Writes(heap, added[j], stored, k)
  {
    if |added| == 0 then -1
    else
      var last := added[|added| - 1];
      if Writes(heap, last, stored, k) then |added| - 1
      else LastWriter(heap, added[..|added| - 1], stored, k)
  }

  /** An object that is not stored afterwards says what it said. */
  lemma {:induction false} OthersKeepTheirs(g: Graph, added: seq<GraphNode>, n: GraphNode)
    requires Existing(g) && forall i :: 0 <= i < |added| ==> added[i] in g.heap
    requires var g' := After(g, NodeSteps(added)); n.uid in g'.nodes ==> g'.nodes[n.uid] != n
    ensures Said(After(g, NodeSteps(added)).heap, n) == Said(g.heap, n)
  {
    if |added| > 0 {
      var rest, last := added[..|added| - 1], added[|added| - 1];
      NodesSnoc(g, added);
      FirstIsStored(g, rest, n.uid);
      FirstIsStored(g, rest, last.uid);
      OthersKeepTheirs(g, rest, n);
    }
  }

  /** One turn changes a property of the stored object only to what another object says. */
  lemma TurnWrites(g: Graph, n: GraphNode, stored: GraphNode, k: string)
    requires Existing(g) && stored.uid in PutNode(g, n).nodes && PutNode(g, n).nodes[stored.uid] == stored
    ensures var says := Said(PutNode(g, n).heap, stored);
            if Writes(g.heap, n, stored, k) then k in says && says[k] == Said(g.heap, n)[k]
            else (k in says <==> k in Said(g.heap, stored)) && (k in says ==> says[k] == Said(g.heap, stored)[k])
  {
  }

  lemma LastWriterMore(heap: Heap, added: seq<GraphNode>, stored: GraphNode, k: string)
    requires |added| > 0
    ensures var n := |added| - 1;
            LastWriter(heap, added, stored, k)
            == if Writes(heap, added[n], stored, k) then n else LastWriter(heap, added[..n], stored, k)
  {
  }

  /** What the stored object says of `k` is what the `i`-th of the batch said, or, if `i`
      is -1, what it said itself. */
  ghost predicate SaysAs(heap: Heap, heap': Heap, added: seq<GraphNode>, stored: GraphNode, i: int, k: string)
    requires -1 <= i < |added|
  {
    if i >= 0 then
      k in Said(heap', stored) && k in Said(heap, added[i]) && Said(heap', stored)[k] == Said(heap, added[i])[k]
    else (k in Said(heap', stored) <==> k in Said(heap, stored))
         && (k in Said(heap', stored) ==> Said(heap', stored)[k] == Said(heap, stored)[k])
  }

  /** The object the last of the batch stores for the first time says what it said. */
  lemma StoredLastSays(g: Graph, added: seq<GraphNode>, k: string)
    requires Existing(g) && |added| > 0 && forall i :: 0 <= i < |added| ==> added[i] in g.heap
    requires added[|added| - 1].uid !in After(g, NodeSteps(added[..|added| - 1])).nodes
    ensures var last := added[|added| - 1];
            LastWriter(g.heap, added, last, k) == -1
            && SaysAs(g.heap, After(g, NodeSteps(added)).heap, added, last, -1, k)
  {
    var rest, last := added[..|added| - 1], added[|added| - 1];
    NodesSnoc(g, added);
    FirstIsStored(g, rest, last.uid);
    LastWriterMore(g.heap, added, last, k);
    OthersKeepTheirs(g, rest, last);
    NoWriter(g.heap, rest, last, k);
  }

  /** One more of the batch, when the object is stored already. */
  lemma StoredBeforeSays(g: Graph, added: seq<GraphNode>, stored: GraphNode, k: string)
    requires Existing(g) && |added| > 0 && forall i :: 0 <= i < |added| ==> added[i] in g.heap
    requires var before := After(g, NodeSteps(added[..|added| - 1]));
             && stored.uid in before.nodes && before.nodes[stored.uid] == stored
             && SaysAs(g.heap, before.heap, added[..|added| - 1], stored,
                       LastWriter(g.heap, added[..|added| - 1], stored, k), k)
    ensures SaysAs(g.heap, After(g, NodeSteps(added)).heap, added, stored, LastWriter(g.heap, added, stored, k), k)
  {
    var rest, last := added[..|added| - 1], added[|added| - 1];
    var before := After(g, NodeSteps(rest));
    NodesSnoc(g, added);
    FirstIsStored(g, rest, stored.uid);
    TurnWrites(before, last, stored, k);
    LastWriterMore(g.heap, added, stored, k);
    if last != stored && last.uid == stored.uid { OthersKeepTheirs(g, rest, last); }
  }

  /** A property of the stored object is what the last of the batch that mentioned it
      said, other than the object itself, and otherwise what it was; none is removed. */
  lemma {:induction false} MergedProperty(g: Graph, added: seq<GraphNode>, u: string, k: string)
    requires Existing(g) && forall i :: 0 <= i < |added| ==> added[i] in g.heap
    requires u in After(g, NodeSteps(added)).nodes
    ensures var g' := After(g, NodeSteps(added));
            SaysAs(g.heap, g'.heap, added, g'.nodes[u], LastWriter(g.heap, added, g'.nodes[u], k), k)
  {
    if |added| > 0 {
      var rest, last := added[..|added| - 1], added[|added| - 1];
      var before := After(g, NodeSteps(rest));
      NodesSnoc(g, added);
      FirstIsStored(g, rest, u);
      if u in before.nodes {
        MergedProperty(g, rest, u, k);
        StoredBeforeSays(g, added, before.nodes[u], k);
      } else {
        StoredLastSays(g, added, k);
      }
    }
  }

  lemma NoWriter(heap: Heap, added: seq<GraphNode>, stored: GraphNode, k: string)
    requires FirstOf(added, stored.uid) == |added|
    ensures LastWriter(heap, added, stored, k) == -1
  {
  }

  // --------------------------------------------- edges that hold the stored object

  /** The endpoint an edge holds is the very object stored under its uid. */
  predicate Attached(g: Graph, e: GraphRelationship, direction: Direction) {
    FarNode(e, direction).uid in g.nodes && g.nodes[FarNode(e, direction).uid] == FarNode(e, direction)
  }

  /** What a caller can check before registering an edge: nothing is stored under the
      endpoint's uid, or that very object is. The start is stored before the end. */
  predicate WillAttach(nodes: Nodes, e: GraphRelationship, direction: Direction) {
    var before := if direction.Out? then SetDefault(nodes, e.start) else nodes;
    FarNode(e, direction).uid !in before || before[FarNode(e, direction).uid] == FarNode(e, direction)
  }

  /** The last step that registers edge `x`, or -1. */
  function LastRegistered(steps: seq<Step>, x: string): (i: int)
    ensures -1 <= i < |steps| && (i >= 0 ==> steps[i].Edge? && steps[i].edge.uid == x)
  {
    if |steps| == 0 then -1
    else
      var last := steps[|steps| - 1];
      if last.Edge? && last.edge.uid == x then |steps| - 1 else LastRegistered(steps[..|steps| - 1], x)
  }

  lemma RegisteringAttachesIff(g: Graph, e: GraphRelationship, direction: Direction)
    requires Existing(g)
    ensures Attached(PutEdge(g, e), e, direction) <==> WillAttach(g.nodes, e, direction)
  {
  }

  /** Any other step leaves an edge that survives it as it was: with the same endpoints,
      attached or not. */
  lemma TurnKeepsEdge(g: Graph, step: Step, x: string, direction: Direction)
    requires Existing(g) && CanHappen(g, step) && x in Turn(g, step).edges && !(step.Edge? && step.edge.uid == x)
    ensures x in g.edges && Turn(g, step).edges[x] == g.edges[x]
    ensures Attached(Turn(g, step), g.edges[x], direction) <==> Attached(g, g.edges[x], direction)
  {
    assert EndsExist(g, g.edges[x]);
  }

  /** An endpoint that is not the stored object says what it said. */
  lemma TurnKeepsDetached(g: Graph, step: Step, x: string, direction: Direction)
    requires Existing(g) && CanHappen(g, step) && x in g.edges && !Attached(g, g.edges[x], direction)
    ensures Said(Turn(g, step).heap, FarNode(g.edges[x], direction)) == Said(g.heap, FarNode(g.edges[x], direction))
  {
    assert EndsExist(g, g.edges[x]);
  }

  /** Over every history: the edge stored under `x` is the one registered last, and the
      endpoint a search reports over it is the stored object if and only if, when it was
      registered, nothing was stored under that uid or that object was. */
  lemma {:induction false} AttachedIff(g0: Graph, steps: seq<Step>, x: string, direction: Direction)
    requires Existing(g0) && Possible(g0, steps) && x in After(g0, steps).edges
    ensures var g, i := After(g0, steps), LastRegistered(steps, x);
            if i < 0 then x in g0.edges && g.edges[x] == g0.edges[x]
              && (Attached(g, g.edges[x], direction) <==> Attached(g0, g.edges[x], direction))
            else g.edges[x] == steps[i].edge
                 && (Attached(g, g.edges[x], direction) <==>
                       WillAttach(After(g0, steps[..i]).nodes, steps[i].edge, direction))
  {
    if |steps| > 0 {
      var rest, last := steps[..|steps| - 1], steps[|steps| - 1];
      var before := After(g0, rest);
      HistoryKeepsExisting(g0, rest);
      if last.Edge? && last.edge.uid == x {
        RegisteringAttachesIff(before, last.edge, direction);
      } else {
        TurnKeepsEdge(before, last, x, direction);
        AttachedIff(g0, rest, x, direction);
        if LastRegistered(rest, x) >= 0 { assert rest[..LastRegistered(rest, x)] == steps[..LastRegistered(rest, x)]; }
      }
    }
  }

  /** The number of steps up to and including the one that registered `x` last. */
  function Since(steps: seq<Step>, x: string): (n: nat)
    ensures n <= |steps|
  {
    LastRegistered(steps, x) + 1
  }

  /** Over every history: an edge whose endpoint is not the stored object goes on saying
      of it what it said when the edge was registered. */
  lemma {:induction false} DetachedSaysWhatItSaid(g0: Graph, steps: seq<Step>, x: string, direction: Direction)
    requires Existing(g0) && Possible(g0, steps) && x in After(g0, steps).edges
    requires !Attached(After(g0, steps), After(g0, steps).edges[x], direction)
    ensures var far := FarNode(After(g0, steps).edges[x], direction);
            Said(After(g0, steps).heap, far) == Said(After(g0, steps[..Since(steps, x)]).heap, far)
  {
    if Since(steps, x) == |steps| {
      assert steps[..|steps|] == steps;
    } else {
      var rest, last := steps[..|steps| - 1], steps[|steps| - 1];
      HistoryKeepsExisting(g0, rest);
      TurnKeepsEdge(After(g0, rest), last, x, direction);
      TurnKeepsDetached(After(g0, rest), last, x, direction);
      DetachedSaysWhatItSaid(g0, rest, x, direction);
      assert rest[..Since(rest, x)] == steps[..Since(steps, x)];
    }
  }

  /** Every edge holds the stored objects, as after a load. */
  ghost predicate AllAttached(g: Graph) {
    forall x, direction :: x in g.edges ==> Attached(g, g.edges[x], direction)
  }

  /** The main result, from a load on: an edge reports the stored node, with every later
      update, if and only if it was loaded, or registered when nothing was stored under
      its endpoint's uid or that very object was; otherwise it reports the node as it was
      when the edge was registered. */
  lemma EdgeReportsStoredIff(g0: Graph, steps: seq<Step>, x: string, direction: Direction)
    requires Existing(g0) && AllAttached(g0) && Possible(g0, steps) && x in After(g0, steps).edges
    ensures var g, i := After(g0, steps), LastRegistered(steps, x);
            var far := FarNode(g.edges[x], direction);
            && far.uid in g.nodes
            && (g.nodes[far.uid] == far <==> i < 0 || WillAttach(After(g0, steps[..i]).nodes, steps[i].edge, direction))
            && (g.nodes[far.uid] != far ==> Said(g.heap, far) == Said(After(g0, steps[..i + 1]).heap, far))
  {
    HistoryKeepsExisting(g0, steps);
    AttachedIff(g0, steps, x, direction);
    var g := After(g0, steps);
    assert EndsExist(g, g.edges[x]);
    if !Attached(g, g.edges[x], direction) { DetachedSaysWhatItSaid(g0, steps, x, direction); }
  }

  /** An update reaches what an edge reports if and only if the edge holds the stored
      object: the new value of a property is reported, or the old one, or none. */
  lemma UpdateIsReportedIff(g: Graph, n: GraphNode, x: string, direction: Direction, key: string)
    requires Existing(g) && n in g.heap && x in g.edges && FarNode(g.edges[x], direction).uid == n.uid
    requires key in g.heap[n]
    requires var told := Said(g.heap, FarNode(g.edges[x], direction)); key in told ==> told[key] != g.heap[n][key]
    ensures var after := PutNode(g, n);
            var told := Said(after.heap, FarNode(g.edges[x], direction));
            && after.edges == g.edges
            && (key in told && told[key] == g.heap[n][key] <==> Attached(g, g.edges[x], direction))
            && (!Attached(g, g.edges[x], direction) ==> told == Said(g.heap, FarNode(g.edges[x], direction)))
            && Said(after.heap, after.nodes[n.uid])[key] == g.heap[n][key]
  {
    assert EndsExist(g, g.edges[x]);
  }

  /** What a rebuild leads to: the node is stored, it is upserted again as a new object,
      and an edge to that object is registered. The next update reaches the stored node,
      and the edge goes on reporting what the second object said. */
  lemma RebuiltEdgeGoesStale(g: Graph, e: GraphRelationship, later: GraphNode, key: string)
    requires Existing(g) && e.start in g.heap && e.end in g.heap && later in g.heap && key in g.heap[later]
    requires later.uid == e.end.uid && e.end.uid in g.nodes && g.nodes[e.end.uid] !in {e.end, later} && later != e.end
    ensures var g' := After(g, [Node(e.end), Edge(e), Node(later)]);
            && e.uid in g'.edges && g'.edges[e.uid] == e && e.end.uid in g'.nodes
            && key in Said(g'.heap, g'.nodes[e.end.uid])
            && Said(g'.heap, g'.nodes[e.end.uid])[key] == g.heap[later][key]
            && Said(g'.heap, e.end) == g.heap[e.end]
  {
    var steps: seq<Step> := [Node(e.end), Edge(e), Node(later)];
    AfterMore(g, steps, 0);
    AfterMore(g, steps, 1);
    AfterMore(g, steps, 2);
    assert steps[..0] == [] && steps[..3] == steps;
  }

  lemma EdgesSnoc(g: Graph, added: seq<GraphRelationship>)
    requires |added| > 0
    ensures After(g, EdgeSteps(added)) == PutEdge(After(g, EdgeSteps(added[..|added| - 1])), added[|added| - 1])
  {
    assert EdgeSteps(added)[..|added| - 1] == EdgeSteps(added[..|added| - 1]);
  }

  /** Between nodes that are stored, edges are all that is added. */
  lemma {:induction false} EdgesBetweenStored(g: Graph, added: seq<GraphRelationship>)
    requires forall j :: 0 <= j < |added| ==> added[j].start.uid in g.nodes && added[j].end.uid in g.nodes
    ensures After(g, EdgeSteps(added)).nodes == g.nodes && After(g, EdgeSteps(added)).heap == g.heap
  {
    if |added| > 0 {
      EdgesSnoc(g, added);
      EdgesBetweenStored(g, added[..|added| - 1]);
    }
  }

  /** Building a paper's graph, nodes first and then edges over the same objects: an edge
      holds the stored node if and only if its uid was new and its object the first of the
      batch with it, or that object was stored before. Building a paper again detaches. */
  lemma BuildAttachesIff(g: Graph, added: seq<GraphNode>, edges: seq<GraphRelationship>, j: nat, direction: Direction)
    requires Existing(g) && (forall i :: 0 <= i < |added| ==> added[i] in g.heap) && j < |edges|
    requires forall l :: 0 <= l < |edges| ==> edges[l].start in added && edges[l].end in added
    ensures var g' := After(After(g, NodeSteps(added)), EdgeSteps(edges));
            var far := FarNode(edges[j], direction);
            Attached(g', edges[j], direction)
            <==> if far.uid in g.nodes then g.nodes[far.uid] == far
                 else FirstOf(added, far.uid) < |added| && added[FirstOf(added, far.uid)] == far
  {
    var h := After(g, NodeSteps(added));
    forall l | 0 <= l < |edges| ensures edges[l].start.uid in h.nodes && edges[l].end.uid in h.nodes {
      IsStored(g, added, edges[l].start);
      IsStored(g, added, edges[l].end);
    }
    EdgesBetweenStored(h, edges);
    FirstIsStored(g, added, FarNode(edges[j], direction).uid);
  }

  lemma IsStored(g: Graph, added: seq<GraphNode>, n: GraphNode)
    requires Existing(g) && (forall i :: 0 <= i < |added| ==> added[i] in g.heap) && n in added
    ensures n.uid in After(g, NodeSteps(added)).nodes
  {
    FirstIsStored(g, added, n.uid);
    var i :| 0 <= i < |added| && added[i] == n;
    assert FirstOf(added, n.uid) <= i;
  }
}
