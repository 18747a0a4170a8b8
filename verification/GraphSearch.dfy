/** What a neighbourhood search must return (backend/app/graph/store.py, `neighbors`),
    stated against shortest walks and independent of the order of any set. */
module GraphSearch {
  import opened GraphSchema
  import opened GraphPaths
  import opened Ordering

  datatype Direction = Out | In

  datatype Hit<U> =
    NeighborHit(uid: U, node: GraphNode, relationship: U, direction: Direction, distance: nat)

  /** The end of an edge that a traversal in the given direction leaves from, and arrives at. */
  function Near<U(!new)>(e: Link<U>, direction: Direction): U {
    if direction.Out? then e.start else e.end
  }

  function Far<U(!new)>(e: Link<U>, direction: Direction): U {
    if direction.Out? then e.end else e.start
  }

  function Uids<U(!new)>(hits: seq<Hit<U>>): (r: seq<U>)
    ensures |r| == |hits|
  {
    seq(|hits|, i requires 0 <= i < |hits| => hits[i].uid)
  }

  /** The hit reports an edge of a wanted type that leads from `u` to its node. */
  ghost predicate Via<U(!new)>(links: Links<U>, types: set<U>, u: U, h: Hit<U>) {
    exists x :: x in links && Wanted(types, links[x].kind) && h.relationship == links[x].kind
                && Near(links[x], h.direction) == u && Far(links[x], h.direction) == h.uid
  }

  /** The hit is labelled with its true distance, and its edge ends a shortest walk. */
  ghost predicate Justified<U(!new)>(links: Links<U>, types: set<U>, start: U, h: Hit<U>) {
    && h.distance >= 1
    && Distance(links, types, start, h.uid, h.distance)
    && exists u :: Distance(links, types, start, u, h.distance - 1) && Via(links, types, u, h)
  }

  /** No node is listed twice, and nearer nodes come first. */
  ghost predicate NearestFirst<U(!new)>(hits: seq<Hit<U>>) {
    forall i, j :: 0 <= i < j < |hits| ==>
      hits[i].uid != hits[j].uid && hits[i].distance <= hits[j].distance
  }

  ghost predicate AllJustified<U(!new)>(links: Links<U>, types: set<U>, start: U, depth: nat, hits: seq<Hit<U>>) {
    forall i :: 0 <= i < |hits| ==> hits[i].distance <= depth && Justified(links, types, start, hits[i])
  }

  ghost predicate Complete<U(!new)>(links: Links<U>, types: set<U>, start: U, depth: nat, hits: seq<Hit<U>>) {
    forall v, d :: 1 <= d <= depth && Distance(links, types, start, v, d) ==> v in Uids(hits)
  }

  /** Every node at distance 1 to `depth` exactly once, justified, nearest first. */
  ghost predicate ExactSearch<U(!new)>(links: Links<U>, types: set<U>, start: U, depth: nat, hits: seq<Hit<U>>) {
    && NearestFirst(hits)
    && AllJustified(links, types, start, depth, hits)
    && Complete(links, types, start, depth, hits)
  }

  lemma ViaIsAdjacent<U(!new)>(links: Links<U>, types: set<U>, u: U, h: Hit<U>)
    requires Via(links, types, u, h)
    ensures Adjacent(links, types, u, h.uid)
  {
    var x :| x in links && Wanted(types, links[x].kind)
             && Near(links[x], h.direction) == u && Far(links[x], h.direction) == h.uid;
    assert Near(links[x], h.direction) == u && Far(links[x], h.direction) == h.uid;
    assert Joins(links[x], u, h.uid);
  }

  ghost predicate OneStepFrom<U(!new)>(links: Links<U>, types: set<U>, sources: seq<U>, h: Hit<U>) {
    exists u :: u in sources && Via(links, types, u, h)
  }

  /** The new hits of one level: distinct unseen nodes one step from the frontier. */
  ghost predicate FreshHits<U(!new)>(links: Links<U>, types: set<U>, frontier: seq<U>, distance: nat,
                            seen: set<U>, found: seq<Hit<U>>) {
    && (forall i, j :: 0 <= i < j < |found| ==> found[i].uid != found[j].uid)
    && (forall i :: 0 <= i < |found| ==>
          && found[i].distance == distance && found[i].uid !in seen
          && OneStepFrom(links, types, frontier, found[i]))
  }

  // The search itself reasons about layers; the walk-based reading comes at the end.

  ghost predicate Layered<U(!new)>(links: Links<U>, types: set<U>, start: U, h: Hit<U>) {
    && h.distance >= 1
    && OnLayer(links, types, start, h.uid, h.distance)
    && exists u :: OnLayer(links, types, start, u, h.distance - 1) && Via(links, types, u, h)
  }

  /** The result of the search after radius `r`, in terms of layers. */
  ghost predicate LayeredSearch<U(!new)>(links: Links<U>, types: set<U>, start: U, r: nat, hits: seq<Hit<U>>) {
    && NearestFirst(hits)
    && (forall i :: 0 <= i < |hits| ==> hits[i].distance <= r && Layered(links, types, start, hits[i]))
    && (forall v :: v in Ball(links, types, start, r) ==> v == start || v in Uids(hits))
  }

  lemma HitIsLayered<U(!new)>(links: Links<U>, types: set<U>, start: U, h: Hit<U>, u: U)
    requires h.distance >= 1 && OnLayer(links, types, start, h.uid, h.distance)
    requires OnLayer(links, types, start, u, h.distance - 1) && Via(links, types, u, h)
    ensures Layered(links, types, start, h)
  {
  }

  lemma FreshAreLayered<U(!new)>(links: Links<U>, types: set<U>, start: U, r: nat,
                        frontier: seq<U>, found: seq<Hit<U>>, i: nat)
    requires forall v :: v in frontier <==> OnLayer(links, types, start, v, r)
    requires FreshHits(links, types, frontier, r + 1, Ball(links, types, start, r), found)
    requires i < |found| && found[i].uid in Ball(links, types, start, r + 1)
    ensures Layered(links, types, start, found[i])
  {
    var h := found[i];
    assert OneStepFrom(links, types, frontier, h);
    var u :| u in frontier && Via(links, types, u, h);
    HitIsLayered(links, types, start, h, u);
  }

  lemma NearestFirstConcat<U(!new)>(hits: seq<Hit<U>>, found: seq<Hit<U>>, seen: set<U>, r: nat)
    requires NearestFirst(hits)
    requires forall i :: 0 <= i < |hits| ==> hits[i].uid in seen && hits[i].distance <= r
    requires forall i, j :: 0 <= i < j < |found| ==> found[i].uid != found[j].uid
    requires forall i :: 0 <= i < |found| ==> found[i].uid !in seen && found[i].distance == r + 1
    ensures NearestFirst(hits + found)
  {
  }

  lemma UidsConcat<U(!new)>(hits: seq<Hit<U>>, found: seq<Hit<U>>)
    ensures Uids(hits + found) == Uids(hits) + Uids(found)
  {
  }

  /** One level of the search extends the result from radius `r` to `r + 1`. */
  lemma LayeredStep<U(!new)>(links: Links<U>, types: set<U>, start: U, r: nat, hits: seq<Hit<U>>,
                    frontier: seq<U>, found: seq<Hit<U>>)
    requires LayeredSearch(links, types, start, r, hits)
    requires forall v :: v in frontier <==> OnLayer(links, types, start, v, r)
    requires FreshHits(links, types, frontier, r + 1, Ball(links, types, start, r), found)
    requires forall v :: v in Ball(links, types, start, r + 1) <==>
               v in Ball(links, types, start, r) || v in Uids(found)
    requires forall i :: 0 <= i < |hits| ==> hits[i].uid in Ball(links, types, start, r)
    ensures LayeredSearch(links, types, start, r + 1, hits + found)
  {
    var all := hits + found;
    NearestFirstConcat(hits, found, Ball(links, types, start, r), r);
    UidsConcat(hits, found);
    forall i | 0 <= i < |all| ensures all[i].distance <= r + 1 && Layered(links, types, start, all[i]) {
      if i >= |hits| {
        assert Uids(found)[i - |hits|] in Uids(found);
        FreshAreLayered(links, types, start, r, frontier, found, i - |hits|);
      }
    }
  }

  lemma EmptyLayer<U(!new)>(links: Links<U>, types: set<U>, start: U, r: nat, depth: nat)
    requires 0 < r <= depth
    requires forall u :: !OnLayer(links, types, start, u, r)
    ensures Ball(links, types, start, depth) == Ball(links, types, start, r)
  {
    BallGrows(links, types, start, r - 1, r);
    forall u | u in Ball(links, types, start, r) ensures u in Ball(links, types, start, r - 1) {
      assert !OnLayer(links, types, start, u, r);
    }
    BallStops(links, types, start, r, depth);
  }

  lemma LayeredIsJustified<U(!new)>(links: Links<U>, types: set<U>, start: U, h: Hit<U>)
    requires Layered(links, types, start, h)
    ensures Justified(links, types, start, h)
  {
    LayerHasDistance(links, types, start, h.uid, h.distance);
    var u :| OnLayer(links, types, start, u, h.distance - 1) && Via(links, types, u, h);
    LayerHasDistance(links, types, start, u, h.distance - 1);
  }

  lemma NearbyInBall<U(!new)>(links: Links<U>, types: set<U>, start: U, v: U, d: nat, depth: nat)
    requires 1 <= d <= depth && Distance(links, types, start, v, d)
    ensures v != start && v in Ball(links, types, start, depth)
  {
    DistanceOnLayer(links, types, start, v, d);
    BallGrows(links, types, start, d, depth);
    BallGrows(links, types, start, 0, d - 1);
  }

  /** Read in terms of walks, the result is exact. */
  lemma LayeredIsExact<U(!new)>(links: Links<U>, types: set<U>, start: U, depth: nat, hits: seq<Hit<U>>)
    requires LayeredSearch(links, types, start, depth, hits)
    ensures ExactSearch(links, types, start, depth, hits)
  {
    forall i | 0 <= i < |hits| ensures Justified(links, types, start, hits[i]) {
      LayeredIsJustified(links, types, start, hits[i]);
    }
    forall v, d | 1 <= d <= depth && Distance(links, types, start, v, d) ensures v in Uids(hits) {
      NearbyInBall(links, types, start, v, d, depth);
    }
  }

  /** The search never reports its own start node. */
  lemma StartIsNotAHit<U(!new)>(links: Links<U>, types: set<U>, start: U, depth: nat, hits: seq<Hit<U>>, i: nat)
    requires ExactSearch(links, types, start, depth, hits) && i < |hits|
    ensures hits[i].uid != start
  {
    DistanceIsLayer(links, types, start, start, hits[i].distance);
    BallGrows(links, types, start, 0, hits[i].distance - 1);
  }

  /** The limit only ever drops nodes at least as far away as every node kept. */
  lemma LimitDropsFarthest<U(!new)>(links: Links<U>, types: set<U>, start: U, depth: nat,
                           all: seq<Hit<U>>, limit: int, v: U, d: nat, i: nat)
    requires ExactSearch(links, types, start, depth, all)
    requires 1 <= d <= depth && Distance(links, types, start, v, d)
    requires v !in Uids(Upto(all, limit)) && i < |Upto(all, limit)|
    ensures Upto(all, limit)[i].distance <= d
  {
    var k :| 0 <= k < |all| && Uids(all)[k] == v;
    assert Justified(links, types, start, all[k]);
    DistanceUnique(links, types, start, v, d, all[k].distance);
    assert Uids(Upto(all, limit)) == Uids(all)[..|Upto(all, limit)|];
  }

  /** Two exact results list the same nodes at the same distances, so neither
      depends on the order in which edge sets were iterated. */
  lemma SearchesAgree<U(!new)>(links: Links<U>, types: set<U>, start: U, depth: nat,
                      first: seq<Hit<U>>, second: seq<Hit<U>>, i: nat)
    requires ExactSearch(links, types, start, depth, first) && ExactSearch(links, types, start, depth, second)
    requires i < |first|
    ensures exists j :: 0 <= j < |second| && second[j].uid == first[i].uid
                        && second[j].distance == first[i].distance
  {
    assert Justified(links, types, start, first[i]);
    var j :| 0 <= j < |second| && Uids(second)[j] == first[i].uid;
    DistanceUnique(links, types, start, first[i].uid, first[i].distance, second[j].distance);
    assert second[j].uid == first[i].uid;
  }

  // ------------------------------------------------------ one level of the loop

  /** Everything found so far on this level is fresh, and `seen` records it. */
  ghost predicate Sound<U(!new)>(links: Links<U>, types: set<U>, sources: seq<U>, distance: nat,
                                 seen0: set<U>, seen: set<U>, found: seq<Hit<U>>) {
    && FreshHits(links, types, sources, distance, seen0, found)
    && forall v :: v in seen <==> v in seen0 || v in Uids(found)
  }

  lemma UidsSnoc<U(!new)>(found: seq<Hit<U>>, h: Hit<U>)
    ensures Uids(found + [h]) == Uids(found) + [h.uid]
  {
  }

  lemma NothingFound<U(!new)>(links: Links<U>, types: set<U>, distance: nat, seen: set<U>)
    ensures Sound(links, types, [], distance, seen, seen, []) && CoversAll(links, types, [], seen)
    ensures Uids<U>([]) == []
  {
  }

  lemma CoversAllMore<U(!new)>(links: Links<U>, types: set<U>, sources: seq<U>, u: U, seen: set<U>, seen1: set<U>,
                               seen2: set<U>)
    requires CoversAll(links, types, sources, seen) && seen <= seen1 <= seen2
    requires Covers(links, types, u, Out, {}, seen1) && Covers(links, types, u, In, {}, seen2)
    ensures CoversAll(links, types, sources + [u], seen2)
  {
  }

  lemma TakeNext<U>(s: seq<U>, i: nat)
    requires i < |s|
    ensures s[..i + 1] == s[..i] + [s[i]] && s[i] in s[..i + 1]
  {
  }

  lemma LayeredStart<U(!new)>(links: Links<U>, types: set<U>, start: U)
    ensures LayeredSearch(links, types, start, 0, [])
    ensures forall v :: v in [start] <==> OnLayer(links, types, start, v, 0)
    ensures Ball(links, types, start, 0) == {start}
  {
  }

  /** The state of the search once radius `r` is complete. */
  ghost predicate Searched<U(!new)>(links: Links<U>, types: set<U>, start: U, r: nat,
                                    seen: set<U>, frontier: seq<U>, hits: seq<Hit<U>>) {
    && seen == Ball(links, types, start, r)
    && (forall v :: v in frontier <==> OnLayer(links, types, start, v, r))
    && LayeredSearch(links, types, start, r, hits)
    && (forall i :: 0 <= i < |hits| ==> hits[i].uid in seen)
  }

  lemma SearchedNext<U(!new)>(links: Links<U>, types: set<U>, start: U, r: nat, seen: set<U>, frontier: seq<U>,
                              hits: seq<Hit<U>>, seen': set<U>, found: seq<Hit<U>>)
    requires Searched(links, types, start, r, seen, frontier, hits)
    requires Sound(links, types, frontier, r + 1, seen, seen', found) && CoversAll(links, types, frontier, seen')
    ensures Searched(links, types, start, r + 1, seen', Uids(found), hits + found)
  {
    LevelGrowsBall(links, types, start, r, frontier, seen', found);
    LayeredStep(links, types, start, r, hits, frontier, found);
    UidsConcat(hits, found);
    forall i | 0 <= i < |hits + found| ensures (hits + found)[i].uid in seen' {
      if i >= |hits| { assert Uids(found)[i - |hits|] in Uids(found); }
    }
  }

  /** A search that stopped early, on an empty level, would have found nothing more. */
  lemma SearchedStopped<U(!new)>(links: Links<U>, types: set<U>, start: U, r: nat, depth: nat, seen: set<U>,
                                 hits: seq<Hit<U>>)
    requires 0 < r <= depth && Searched(links, types, start, r, seen, [], hits)
    ensures ExactSearch(links, types, start, depth, hits)
  {
    forall v ensures !OnLayer(links, types, start, v, r) { assert v !in []; }
    EmptyLayer(links, types, start, r, depth);
    LayeredIsExact(links, types, start, depth, hits);
  }

  lemma PutBack<U>(s: set<U>, x: U)
    requires x in s
    ensures (s - {x}) + {x} == s
  {
  }

  lemma CoversOneMore<U(!new)>(links: Links<U>, types: set<U>, u: U, direction: Direction, todo: set<U>, x: U,
                               seen: set<U>, seen': set<U>)
    requires Covers(links, types, u, direction, todo + {x}, seen) && seen <= seen'
    requires x in links && (Wanted(types, links[x].kind) ==> Far(links[x], direction) in seen')
    ensures Covers(links, types, u, direction, todo, seen')
  {
  }

  /** Every wanted edge leaving `u` in this direction, except those still to do, leads to a seen node. */
  ghost predicate Covers<U(!new)>(links: Links<U>, types: set<U>, u: U, direction: Direction, todo: set<U>,
                                  seen: set<U>)
  {
    forall x :: x in links && x !in todo && Near(links[x], direction) == u && Wanted(types, links[x].kind)
      ==> Far(links[x], direction) in seen
  }

  lemma SoundTake<U(!new)>(links: Links<U>, types: set<U>, sources: seq<U>, distance: nat, seen0: set<U>, seen: set<U>,
                           found: seq<Hit<U>>, u: U, x: U, h: Hit<U>)
    requires Sound(links, types, sources, distance, seen0, seen, found)
    requires u in sources && x in links && Wanted(types, links[x].kind) && h.relationship == links[x].kind
    requires Near(links[x], h.direction) == u && Far(links[x], h.direction) == h.uid
    requires h.distance == distance && h.uid !in seen
    ensures Sound(links, types, sources, distance, seen0, seen + {h.uid}, found + [h])
  {
    assert Via(links, types, u, h);
    UidsConcat(found, [h]);
    assert Uids([h]) == [h.uid];
    forall i | 0 <= i < |found| ensures found[i].uid != h.uid { assert Uids(found)[i] in Uids(found); }
  }

  lemma SoundMoreSources<U(!new)>(links: Links<U>, types: set<U>, sources: seq<U>, more: seq<U>, distance: nat,
                                  seen0: set<U>, seen: set<U>, found: seq<Hit<U>>)
    requires Sound(links, types, sources, distance, seen0, seen, found)
    ensures Sound(links, types, sources + more, distance, seen0, seen, found)
  {
    forall i | 0 <= i < |found| ensures OneStepFrom(links, types, sources + more, found[i]) {
      assert OneStepFrom(links, types, sources, found[i]);
      var u :| u in sources && Via(links, types, u, found[i]);
      assert u in sources + more;
    }
  }

  ghost predicate CoversAll<U(!new)>(links: Links<U>, types: set<U>, sources: seq<U>, seen: set<U>) {
    forall u :: u in sources ==> Covers(links, types, u, Out, {}, seen) && Covers(links, types, u, In, {}, seen)
  }

  lemma CoversAdjacent<U(!new)>(links: Links<U>, types: set<U>, sources: seq<U>, seen: set<U>, u: U, v: U)
    requires CoversAll(links, types, sources, seen) && u in sources && Adjacent(links, types, u, v)
    ensures v in seen
  {
    var x :| x in links && Wanted(types, links[x].kind) && Joins(links[x], u, v);
    if Near(links[x], Out) == u && Far(links[x], Out) == v {
    } else {
      assert Near(links[x], In) == u && Far(links[x], In) == v;
    }
  }

  /** A finished level has grown the ball by one, and found exactly the next layer. */
  lemma LevelGrowsBall<U(!new)>(links: Links<U>, types: set<U>, start: U, r: nat, frontier: seq<U>,
                                seen: set<U>, found: seq<Hit<U>>)
    requires forall v :: v in frontier <==> OnLayer(links, types, start, v, r)
    requires Sound(links, types, frontier, r + 1, Ball(links, types, start, r), seen, found)
    requires CoversAll(links, types, frontier, seen)
    ensures seen == Ball(links, types, start, r + 1)
    ensures forall v :: v in Uids(found) <==> OnLayer(links, types, start, v, r + 1)
  {
    var ball := Ball(links, types, start, r);
    var layer := set u | u in frontier;
    if r > 0 { BallGrows(links, types, start, r - 1, r); }
    BallFromLayer(links, types, start, r, layer);
    forall v | v in Around(links, types, layer) ensures v in seen {
      var u :| u in layer && Adjacent(links, types, u, v);
      CoversAdjacent(links, types, frontier, seen, u, v);
    }
    forall v | v in Uids(found) ensures v in Around(links, types, layer) && v !in ball {
      var i :| 0 <= i < |found| && Uids(found)[i] == v;
      assert OneStepFrom(links, types, frontier, found[i]);
      var u :| u in frontier && Via(links, types, u, found[i]);
      ViaIsAdjacent(links, types, u, found[i]);
      AroundIs(links, types, layer, v);
    }
    assert seen == ball + Around(links, types, layer);
  }

  // ------------------------------------------------------- adjacency indexes

  /** `adjacency.get(uid, set())`. */
  function At<U(==)>(adjacency: map<U, set<U>>, uid: U): set<U> {
    if uid in adjacency then adjacency[uid] else {}
  }

  /** The index lists, for every uid, exactly the links a traversal in that direction leaves it by. */
  ghost predicate Indexes<U(!new)>(adjacency: map<U, set<U>>, links: Links<U>, direction: Direction) {
    && (forall u, x :: x in At(adjacency, u) ==> x in links && Near(links[x], direction) == u)
    && (forall x :: x in links ==> x in At(adjacency, Near(links[x], direction)))
  }

  /** Adding one edge to an index keeps it exact; re-registering an edge relies
      on its uid naming the same endpoints as before. */
  lemma IndexRegister<U(!new)>(adjacency: map<U, set<U>>, links: Links<U>, direction: Direction, x: U, l: Link<U>)
    requires Indexes(adjacency, links, direction)
    requires x in links ==> links[x] == l
    ensures Indexes(adjacency[Near(l, direction) := At(adjacency, Near(l, direction)) + {x}], links[x := l], direction)
  {
    var near, links' := Near(l, direction), links[x := l];
    var adjacency' := adjacency[near := At(adjacency, near) + {x}];
    forall u, y | y in At(adjacency', u) ensures y in links' && Near(links'[y], direction) == u {
      assert y in At(adjacency, u) || (u == near && y == x);
    }
    forall y | y in links' ensures y in At(adjacency', Near(links'[y], direction)) {}
  }

  /** The links decide what an index answers. */
  lemma IndexesUnique<U(!new)>(a: map<U, set<U>>, b: map<U, set<U>>, links: Links<U>, direction: Direction, u: U)
    requires Indexes(a, links, direction) && Indexes(b, links, direction)
    ensures At(a, u) == At(b, u)
  {
    forall x ensures x in At(a, u) <==> x in At(b, u) {
      if x in At(a, u) { assert x in At(b, Near(links[x], direction)); }
      if x in At(b, u) { assert x in At(a, Near(links[x], direction)); }
    }
  }

  /** Mid-way through detaching node `uid`: its own entry is gone, and the links
      dealt with so far are gone from every other entry. */
  ghost predicate PartlyDetached<U(!new)>(before: map<U, set<U>>, now: map<U, set<U>>, uid: U, gone: set<U>) {
    && At(now, uid) == {}
    && forall u :: u != uid ==> At(now, u) == At(before, u) - gone
  }

  lemma DetachOne<U(!new)>(before: map<U, set<U>>, now: map<U, set<U>>, links: Links<U>, direction: Direction,
                           uid: U, gone: set<U>, x: U)
    requires Indexes(before, links, direction) && PartlyDetached(before, now, uid, gone) && x in links
    ensures PartlyDetached(before, now[Near(links[x], direction) := At(now, Near(links[x], direction)) - {x}],
                           uid, gone + {x})
  {
    var near := Near(links[x], direction);
    var now' := now[near := At(now, near) - {x}];
    assert At(now', uid) == {};
    forall u | u != uid ensures At(now', u) == At(before, u) - (gone + {x}) {
      if u != near { assert x !in At(before, u); }
    }
  }

  lemma FullyDetached<U(!new)>(before: map<U, set<U>>, now: map<U, set<U>>, links: Links<U>, direction: Direction,
                               uid: U, gone: set<U>)
    requires Indexes(before, links, direction) && PartlyDetached(before, now, uid, gone)
    requires forall x :: x in links && Near(links[x], direction) == uid ==> x in gone
    ensures Indexes(now, links - gone, direction)
  {
    forall u, x | x in At(now, u) ensures x in links - gone && Near((links - gone)[x], direction) == u {
      assert x in At(before, u);
    }
    forall x | x in links - gone ensures x in At(now, Near((links - gone)[x], direction)) {
      assert x in At(before, Near(links[x], direction));
    }
  }

  lemma IndexesCover<U(!new)>(adjacency: map<U, set<U>>, links: Links<U>, direction: Direction, uid: U)
    requires Indexes(adjacency, links, direction)
    ensures forall x :: x in links && Near(links[x], direction) == uid ==> x in At(adjacency, uid)
  {
  }

  /** The two index entries of a node together are the links that touch it. */
  lemma EntriesAreTouching<U(!new)>(outgoing: map<U, set<U>>, incoming: map<U, set<U>>, links: Links<U>, uid: U)
    requires Indexes(outgoing, links, Out) && Indexes(incoming, links, In)
    ensures At(outgoing, uid) + At(incoming, uid)
         == set x | x in links && (links[x].start == uid || links[x].end == uid)
  {
    IndexesCover(outgoing, links, Out, uid);
    IndexesCover(incoming, links, In, uid);
  }

  lemma DetachNone<U(!new)>(adjacency: map<U, set<U>>, uid: U)
    ensures PartlyDetached(adjacency, adjacency - {uid}, uid, {})
  {
  }

  lemma MinusNone<U, V>(m: map<U, V>)
    ensures m - {} == m
  {
  }

  lemma MinusOneMore<U, V>(m: map<U, V>, gone: set<U>, x: U)
    ensures (m - gone) - {x} == m - (gone + {x})
  {
  }
}
