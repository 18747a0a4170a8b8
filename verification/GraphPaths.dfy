/** Undirected walks over typed edges, and the shortest-path distances that
    breadth-first search is meant to report. */
module GraphPaths {

  /** A typed edge between two nodes, named by their uids. */
  datatype Link<U> = Link(kind: U, start: U, end: U)

  type Links<U> = map<U, Link<U>>

  predicate Wanted<U(!new)>(types: set<U>, kind: U) {
    types == {} || kind in types
  }

  /** Some edge of a wanted type joins the two nodes, in either direction. */
  ghost predicate Adjacent<U(!new)>(links: Links<U>, types: set<U>, u: U, v: U) {
    exists x :: x in links && Wanted(types, links[x].kind) && Joins(links[x], u, v)
  }

  ghost predicate Joins<U(!new)>(e: Link<U>, u: U, v: U) {
    (e.start == u && e.end == v) || (e.end == u && e.start == v)
  }

  ghost predicate Walk<U(!new)>(links: Links<U>, types: set<U>, p: seq<U>) {
    p != [] && forall i :: 0 <= i < |p| - 1 ==> Adjacent(links, types, p[i], p[i + 1])
  }

  ghost predicate WalkBetween<U(!new)>(links: Links<U>, types: set<U>, u: U, v: U, p: seq<U>) {
    Walk(links, types, p) && p[0] == u && p[|p| - 1] == v
  }

  /** The shortest walk from `u` to `v` has `d` edges. */
  ghost predicate Distance<U(!new)>(links: Links<U>, types: set<U>, u: U, v: U, d: nat) {
    && (exists p :: WalkBetween(links, types, u, v, p) && |p| == d + 1)
    && (forall p :: WalkBetween(links, types, u, v, p) ==> |p| >= d + 1)
  }

  // ------------------------------------------------ balls around the start node

  ghost function Endpoints<U>(links: Links<U>): set<U> {
    (set x | x in links :: links[x].start) + (set x | x in links :: links[x].end)
  }

  ghost function Around<U(!new)>(links: Links<U>, types: set<U>, s: set<U>): set<U> {
    set v | v in Endpoints(links) && exists u :: u in s && Adjacent(links, types, u, v)
  }

  lemma AroundIs<U(!new)>(links: Links<U>, types: set<U>, s: set<U>, v: U)
    ensures v in Around(links, types, s) <==> exists u :: u in s && Adjacent(links, types, u, v)
  {
    if u :| u in s && Adjacent(links, types, u, v) {
      var x :| x in links && Wanted(types, links[x].kind) && Joins(links[x], u, v);
      assert v in Endpoints(links);
    }
  }

  /** The nodes at most `n` steps away. */
  ghost function Ball<U(!new)>(links: Links<U>, types: set<U>, start: U, n: nat): set<U> {
    if n == 0 then {start}
    else Ball(links, types, start, n - 1) + Around(links, types, Ball(links, types, start, n - 1))
  }

  lemma {:induction false} BallGrows<U(!new)>(links: Links<U>, types: set<U>, start: U, m: nat, n: nat)
    requires m <= n
    ensures Ball(links, types, start, m) <= Ball(links, types, start, n)
    decreases n
  {
    if m < n { BallGrows(links, types, start, m, n - 1); }
  }

  lemma {:induction false} WalkStaysInBall<U(!new)>(links: Links<U>, types: set<U>, start: U, p: seq<U>)
    requires Walk(links, types, p) && p[0] == start
    ensures p[|p| - 1] in Ball(links, types, start, |p| - 1)
    decreases |p|
  {
    if |p| > 1 {
      var q := p[..|p| - 1];
      assert Walk(links, types, q) by {
        forall i | 0 <= i < |q| - 1 ensures Adjacent(links, types, q[i], q[i + 1]) {
          assert Adjacent(links, types, p[i], p[i + 1]);
        }
      }
      WalkStaysInBall(links, types, start, q);
      assert Adjacent(links, types, p[|p| - 2], p[|p| - 2 + 1]);
      AroundIs(links, types, Ball(links, types, start, |p| - 2), p[|p| - 1]);
    }
  }

  lemma {:induction false} BallHasWalk<U(!new)>(links: Links<U>, types: set<U>, start: U, n: nat, v: U)
    returns (p: seq<U>)
    requires v in Ball(links, types, start, n)
    ensures WalkBetween(links, types, start, v, p) && |p| <= n + 1
  {
    if n == 0 {
      p := [start];
    } else if v in Ball(links, types, start, n - 1) {
      p := BallHasWalk(links, types, start, n - 1, v);
    } else {
      var u :| u in Ball(links, types, start, n - 1) && Adjacent(links, types, u, v);
      var q := BallHasWalk(links, types, start, n - 1, u);
      p := q + [v];
      forall i | 0 <= i < |p| - 1 ensures Adjacent(links, types, p[i], p[i + 1]) {
        if i < |q| - 1 { assert Adjacent(links, types, q[i], q[i + 1]); }
      }
    }
  }

  ghost predicate OnLayer<U(!new)>(links: Links<U>, types: set<U>, start: U, v: U, d: nat) {
    v in Ball(links, types, start, d) && (d == 0 || v !in Ball(links, types, start, d - 1))
  }

  lemma LayerWalksAreLong<U(!new)>(links: Links<U>, types: set<U>, start: U, v: U, d: nat, p: seq<U>)
    requires OnLayer(links, types, start, v, d) && WalkBetween(links, types, start, v, p)
    ensures |p| >= d + 1
  {
    WalkStaysInBall(links, types, start, p);
    if |p| < d + 1 { BallGrows(links, types, start, |p| - 1, d - 1); }
  }

  lemma LayerHasDistance<U(!new)>(links: Links<U>, types: set<U>, start: U, v: U, d: nat)
    requires OnLayer(links, types, start, v, d)
    ensures Distance(links, types, start, v, d)
  {
    forall p | WalkBetween(links, types, start, v, p) ensures |p| >= d + 1 {
      LayerWalksAreLong(links, types, start, v, d, p);
    }
    var p := BallHasWalk(links, types, start, d, v);
  }

  lemma DistanceOnLayer<U(!new)>(links: Links<U>, types: set<U>, start: U, v: U, d: nat)
    requires Distance(links, types, start, v, d)
    ensures OnLayer(links, types, start, v, d)
  {
    var p :| WalkBetween(links, types, start, v, p) && |p| == d + 1;
    WalkStaysInBall(links, types, start, p);
    if d > 0 && v in Ball(links, types, start, d - 1) {
      var q := BallHasWalk(links, types, start, d - 1, v);
    }
  }

  /** A node is at distance `d` exactly when it enters the ball at radius `d`. */
  lemma DistanceIsLayer<U(!new)>(links: Links<U>, types: set<U>, start: U, v: U, d: nat)
    ensures Distance(links, types, start, v, d) <==> OnLayer(links, types, start, v, d)
  {
    if OnLayer(links, types, start, v, d) { LayerHasDistance(links, types, start, v, d); }
    if Distance(links, types, start, v, d) { DistanceOnLayer(links, types, start, v, d); }
  }

  lemma DistanceUnique<U(!new)>(links: Links<U>, types: set<U>, u: U, v: U, c: nat, d: nat)
    requires Distance(links, types, u, v, c) && Distance(links, types, u, v, d)
    ensures c == d
  {
  }

  /** Growing the ball only needs the outermost layer: the nodes found last. */
  lemma BallFromLayer<U(!new)>(links: Links<U>, types: set<U>, start: U, d: nat, layer: set<U>)
    requires d > 0 ==> layer == Ball(links, types, start, d) - Ball(links, types, start, d - 1)
    requires d == 0 ==> layer == {start}
    ensures Ball(links, types, start, d + 1) == Ball(links, types, start, d) + Around(links, types, layer)
  {
    var b := Ball(links, types, start, d);
    forall v ensures v in Around(links, types, b) ==> v in b + Around(links, types, layer) {
      AroundIs(links, types, b, v);
      AroundIs(links, types, layer, v);
      if u :| u in b && Adjacent(links, types, u, v) && u !in layer {
        assert d > 0 && u in Ball(links, types, start, d - 1);
        AroundIs(links, types, Ball(links, types, start, d - 1), v);
      }
    }
    forall v | v in Around(links, types, layer) ensures v in Around(links, types, b) {
      AroundIs(links, types, b, v);
      AroundIs(links, types, layer, v);
    }
  }

  /** Once a layer is empty the ball has stopped growing for good. */
  lemma {:induction false} BallStops<U(!new)>(links: Links<U>, types: set<U>, start: U, d: nat, n: nat)
    requires 0 < d <= n && Ball(links, types, start, d) == Ball(links, types, start, d - 1)
    ensures Ball(links, types, start, n) == Ball(links, types, start, d)
    decreases n
  {
    if d < n { BallStops(links, types, start, d, n - 1); BallStopsStep(links, types, start, d, n); }
  }

  lemma BallStopsStep<U(!new)>(links: Links<U>, types: set<U>, start: U, d: nat, n: nat)
    requires 0 < d < n && Ball(links, types, start, d) == Ball(links, types, start, d - 1)
    requires Ball(links, types, start, n - 1) == Ball(links, types, start, d)
    ensures Ball(links, types, start, n) == Ball(links, types, start, d)
  {
    assert Ball(links, types, start, d) ==
             Ball(links, types, start, d - 1) + Around(links, types, Ball(links, types, start, d - 1));
  }
}
