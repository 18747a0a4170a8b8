/** The breadcrumb stack of `chunk_document` (backend/app/ingestion/chunking.py):
    a monotone stack of headings. */
module Breadcrumbs {

  datatype Crumb<T> = Crumb(level: nat, title: T)

  function Pop<T>(stack: seq<Crumb<T>>, level: nat): (r: seq<Crumb<T>>) {
    if stack != [] && stack[|stack| - 1].level >= level then Pop(stack[..|stack| - 1], level) else stack
  }

  /** The stack after the first `n` headings. */
  function StackAfter<T>(headings: seq<Crumb<T>>, n: nat): seq<Crumb<T>>
    requires n <= |headings|
  {
    if n == 0 then [] else Pop(StackAfter(headings, n - 1), headings[n - 1].level) + [headings[n - 1]]
  }

  /** Heading `j` encloses the heading before position `n`: every one after it lies deeper. */
  ghost predicate Encloses<T>(headings: seq<Crumb<T>>, j: nat, n: nat) {
    j < n <= |headings| && forall k :: j < k < n ==> headings[k].level > headings[j].level
  }

  /** Positions in document order, each strictly deeper than the one before. */
  ghost predicate Nested<T>(headings: seq<Crumb<T>>, indices: seq<nat>, n: nat) {
    && n <= |headings|
    && (forall a :: 0 <= a < |indices| ==> indices[a] < n)
    && (forall a, b :: 0 <= a < b < |indices| ==>
          indices[a] < indices[b] && headings[indices[a]].level < headings[indices[b]].level)
  }

  /** The stack holds exactly the headings at these positions. */
  ghost predicate Holds<T>(headings: seq<Crumb<T>>, indices: seq<nat>, stack: seq<Crumb<T>>) {
    && |stack| == |indices|
    && forall a :: 0 <= a < |indices| ==> indices[a] < |headings| && stack[a] == headings[indices[a]]
  }

  /** Popping removes exactly the entries that are not shallower. */
  lemma {:induction false} PopKeepsShallower<T>(headings: seq<Crumb<T>>, indices: seq<nat>, stack: seq<Crumb<T>>,
                                                level: nat, n: nat)
    returns (m: nat)
    requires Nested(headings, indices, n) && Holds(headings, indices, stack)
    ensures m <= |indices| && Pop(stack, level) == stack[..m]
    ensures forall a :: 0 <= a < |indices| ==> (a < m <==> headings[indices[a]].level < level)
    decreases |stack|
  {
    var last := |stack| - 1;
    if stack != [] && stack[last].level >= level {
      m := PopKeepsShallower(headings, indices[..last], stack[..last], level, n);
      assert stack[..last][..m] == stack[..m];
      forall a | 0 <= a < |indices| ensures a < m <==> headings[indices[a]].level < level {
        if a < last { assert indices[..last][a] == indices[a]; }
      }
    } else {
      m := |stack|;
      assert stack[..m] == stack;
      if stack != [] {
        forall a | 0 <= a < |indices| ensures headings[indices[a]].level < level {
          assert headings[indices[last]].level < level;
        }
      }
    }
  }

  lemma EnclosesStep<T>(headings: seq<Crumb<T>>, j: nat, n: nat)
    requires 0 < n <= |headings| && j < n - 1
    ensures Encloses(headings, j, n) <==> Encloses(headings, j, n - 1) && headings[j].level < headings[n - 1].level
  {
  }

  lemma ChainGrows<T>(headings: seq<Crumb<T>>, n: nat, before: seq<nat>, m: nat, j: nat)
    requires 0 < n <= |headings| && m <= |before| && Nested(headings, before, n - 1)
    requires j in before <==> Encloses(headings, j, n - 1)
    requires forall a :: 0 <= a < |before| ==> (a < m <==> headings[before[a]].level < headings[n - 1].level)
    ensures j in before[..m] + [n - 1] <==> Encloses(headings, j, n)
  {
    if j < n - 1 {
      EnclosesStep(headings, j, n);
      if j in before[..m] {
        var a :| 0 <= a < m && before[a] == j;
        assert before[a] in before;
      }
      if j in before && headings[j].level < headings[n - 1].level {
        var a :| 0 <= a < |before| && before[a] == j;
        assert before[..m][a] == j;
      }
    } else {
      assert forall a :: 0 <= a < m ==> before[..m][a] < n - 1;
    }
  }

  /** The entries a heading leaves, and the heading on top. */
  lemma StackGrows<T>(headings: seq<Crumb<T>>, n: nat, before: seq<nat>, m: nat)
    requires 0 < n <= |headings| && m <= |before| && Nested(headings, before, n - 1)
    requires Holds(headings, before, StackAfter(headings, n - 1))
    requires Pop(StackAfter(headings, n - 1), headings[n - 1].level) == StackAfter(headings, n - 1)[..m]
    requires forall a :: 0 <= a < |before| ==> (a < m <==> headings[before[a]].level < headings[n - 1].level)
    ensures var indices := before[..m] + [n - 1];
            Nested(headings, indices, n) && Holds(headings, indices, StackAfter(headings, n))
  {
  }

  /** The stack is the ancestor chain: a heading is on it exactly when every later
      one up to the current has a greater level, in order, levels increasing. */
  lemma {:induction false} StackIsAncestorChain<T>(headings: seq<Crumb<T>>, n: nat) returns (indices: seq<nat>)
    requires n <= |headings|
    ensures Nested(headings, indices, n) && Holds(headings, indices, StackAfter(headings, n))
    ensures forall j: nat :: j in indices <==> Encloses(headings, j, n)
  {
    if n == 0 {
      return [];
    }
    var before := StackIsAncestorChain(headings, n - 1);
    var m := PopKeepsShallower(headings, before, StackAfter(headings, n - 1), headings[n - 1].level, n - 1);
    indices := before[..m] + [n - 1];
    StackGrows(headings, n, before, m);
    forall j: nat ensures j in indices <==> Encloses(headings, j, n) {
      ChainGrows(headings, n, before, m, j);
    }
  }

  /** Levels strictly increase along the stack. */
  lemma StackLevelsIncrease<T>(headings: seq<Crumb<T>>, n: nat, a: nat, b: nat)
    requires n <= |headings| && a < b < |StackAfter(headings, n)|
    ensures StackAfter(headings, n)[a].level < StackAfter(headings, n)[b].level
  {
    var indices := StackIsAncestorChain(headings, n);
  }

  // ------------------------------------------------- headings that are left out

  /** Some of the positions of a list of `n`, in order. */
  ghost predicate Increasing(kept: seq<nat>, n: nat) {
    && (forall i :: 0 <= i < |kept| ==> kept[i] < n)
    && (forall i, j :: 0 <= i < j < |kept| ==> kept[i] < kept[j])
  }

  function Select<A>(xs: seq<A>, kept: seq<nat>): (r: seq<A>)
    requires forall i :: 0 <= i < |kept| ==> kept[i] < |xs|
    ensures |r| == |kept| && forall i :: 0 <= i < |r| ==> r[i] == xs[kept[i]]
  {
    seq(|kept|, i requires 0 <= i < |kept| => xs[kept[i]])
  }

  /** Every heading that encloses the one at position `p` was kept. */
  ghost predicate AncestorsKept<T>(headings: seq<Crumb<T>>, kept: seq<nat>, p: nat) {
    forall j: nat :: Encloses(headings, j, p + 1) ==> j in kept
  }

  /** From a heading that closes `q` on, the last such heading encloses the end. */
  lemma {:induction false} LastClosing<T>(headings: seq<Crumb<T>>, q: nat, k: nat, n: nat) returns (r: nat)
    requires q < k < n <= |headings| && headings[k].level <= headings[q].level
    ensures k <= r < n && headings[r].level <= headings[q].level && Encloses(headings, r, n)
    decreases n - k
  {
    if Encloses(headings, k, n) {
      r := k;
    } else {
      var m :| k < m < n && headings[m].level <= headings[k].level;
      r := LastClosing(headings, q, m, n);
    }
  }

  /** A kept heading that encloses among all encloses among the kept ones. */
  lemma EnclosesAmongKept<T>(headings: seq<Crumb<T>>, kept: seq<nat>, i: nat, j: nat)
    requires Increasing(kept, |headings|) && j <= i < |kept| && Encloses(headings, kept[j], kept[i] + 1)
    ensures Encloses(Select(headings, kept), j, i + 1)
  {
    forall l | j < l < i + 1 ensures Select(headings, kept)[l].level > Select(headings, kept)[j].level {
      assert kept[j] < kept[l] && kept[l] <= kept[i];
    }
  }

  lemma KeptCloses<T>(headings: seq<Crumb<T>>, kept: seq<nat>, i: nat, j: nat, r: nat)
    requires Increasing(kept, |headings|) && i < |kept| && Encloses(Select(headings, kept), j, i + 1)
    requires r in kept && kept[j] < r <= kept[i]
    ensures headings[r].level > headings[kept[j]].level
  {
    var l :| 0 <= l < |kept| && kept[l] == r;
    assert j < l && l <= i;
    assert Select(headings, kept)[l].level > Select(headings, kept)[j].level;
  }

  /** The other way round, if all that enclose were kept. */
  lemma EnclosesAmongAll<T>(headings: seq<Crumb<T>>, kept: seq<nat>, i: nat, j: nat)
    requires Increasing(kept, |headings|) && i < |kept| && AncestorsKept(headings, kept, kept[i])
    requires Encloses(Select(headings, kept), j, i + 1)
    ensures Encloses(headings, kept[j], kept[i] + 1)
  {
    var q, n := kept[j], kept[i] + 1;
    forall k: nat | q < k < n ensures headings[k].level > headings[q].level {
      if headings[k].level <= headings[q].level {
        var r := LastClosing(headings, q, k, n);
        KeptCloses(headings, kept, i, j, r);
      }
    }
  }

  /** Two increasing lists with the same members are the same list. */
  lemma {:induction false} SameMembers(a: seq<nat>, b: seq<nat>, n: nat)
    requires Increasing(a, n) && Increasing(b, n) && forall x: nat :: x in a <==> x in b
    ensures a == b
  {
    assert (|a| > 0 ==> a[0] in a) && (|b| > 0 ==> b[0] in b);
    if |a| > 0 {
      var la, lb := a[|a| - 1], b[|b| - 1];
      assert la in b && lb in a;
      assert la == lb;
      var fa, fb := a[..|a| - 1], b[..|b| - 1];
      forall x: nat ensures x in fa <==> x in fb {
        WithoutLast(a, n, x);
        WithoutLast(b, n, x);
      }
      SameMembers(fa, fb, n);
      assert a == fa + [la] && b == fb + [lb];
    }
  }

  lemma WithoutLast(a: seq<nat>, n: nat, x: nat)
    requires Increasing(a, n) && |a| > 0
    ensures x in a[..|a| - 1] <==> x in a && x != a[|a| - 1]
  {
    if x in a && x != a[|a| - 1] {
      var i :| 0 <= i < |a| && a[i] == x;
      assert a[..|a| - 1][i] == x;
    }
  }

  lemma OnBothStacks<T>(headings: seq<Crumb<T>>, kept: seq<nat>, i: nat, b: seq<nat>, x: nat)
    requires Increasing(kept, |headings|) && i < |kept| && AncestorsKept(headings, kept, kept[i])
    requires forall l :: 0 <= l < |b| ==> b[l] < |kept|
    requires forall j: nat :: j in b <==> Encloses(Select(headings, kept), j, i + 1)
    ensures Encloses(headings, x, kept[i] + 1) <==> x in Select(kept, b)
  {
    if Encloses(headings, x, kept[i] + 1) {
      assert x in kept;
      var j :| 0 <= j < |kept| && kept[j] == x;
      assert j <= i;
      EnclosesAmongKept(headings, kept, i, j);
      assert j in b;
      var l :| 0 <= l < |b| && b[l] == j;
      assert Select(kept, b)[l] == x;
    }
    if x in Select(kept, b) {
      var l :| 0 <= l < |b| && Select(kept, b)[l] == x;
      assert b[l] in b;
      EnclosesAmongAll(headings, kept, i, b[l]);
    }
  }

  lemma SamePositions<T>(headings: seq<Crumb<T>>, kept: seq<nat>, i: nat, a: seq<nat>, b: seq<nat>)
    requires Increasing(kept, |headings|) && i < |kept| && AncestorsKept(headings, kept, kept[i])
    requires Increasing(a, |headings|) && Increasing(b, |kept|)
    requires forall j: nat :: j in a <==> Encloses(headings, j, kept[i] + 1)
    requires forall j: nat :: j in b <==> Encloses(Select(headings, kept), j, i + 1)
    ensures a == Select(kept, b)
  {
    var c := Select(kept, b);
    forall x: nat ensures x in a <==> x in c {
      OnBothStacks(headings, kept, i, b, x);
    }
    SameMembers(a, c, |headings|);
  }

  lemma NestedIncreases<T>(headings: seq<Crumb<T>>, indices: seq<nat>, n: nat)
    requires Nested(headings, indices, n)
    ensures Increasing(indices, |headings|)
  {
  }

  lemma HeldAlike<T>(headings: seq<Crumb<T>>, kept: seq<nat>, a: seq<nat>, b: seq<nat>, s: seq<Crumb<T>>,
                     t: seq<Crumb<T>>)
    requires (forall l :: 0 <= l < |kept| ==> kept[l] < |headings|) && (forall l :: 0 <= l < |b| ==> b[l] < |kept|)
    requires Holds(headings, a, s) && Holds(Select(headings, kept), b, t) && a == Select(kept, b)
    ensures s == t
  {
  }

  /** If every enclosing heading was kept, leaving the others out changes nothing. */
  lemma StackOfKept<T>(headings: seq<Crumb<T>>, kept: seq<nat>, i: nat)
    requires Increasing(kept, |headings|) && i < |kept| && AncestorsKept(headings, kept, kept[i])
    ensures StackAfter(Select(headings, kept), i + 1) == StackAfter(headings, kept[i] + 1)
  {
    var some, n := Select(headings, kept), kept[i] + 1;
    var a := StackIsAncestorChain(headings, n);
    var b := StackIsAncestorChain(some, i + 1);
    NestedIncreases(headings, a, n);
    NestedIncreases(some, b, i + 1);
    SamePositions(headings, kept, i, a, b);
    HeldAlike(headings, kept, a, b, StackAfter(headings, n), StackAfter(some, i + 1));
  }

  lemma EnclosingIsOnStack<T>(headings: seq<Crumb<T>>, n: nat, j: nat) returns (l: nat)
    requires n <= |headings| && Encloses(headings, j, n)
    ensures l < |StackAfter(headings, n)| && StackAfter(headings, n)[l] == headings[j]
  {
    var indices := StackIsAncestorChain(headings, n);
    assert j in indices;
    l :| 0 <= l < |indices| && indices[l] == j;
  }

  lemma StackEntry<T>(headings: seq<Crumb<T>>, n: nat, l: nat) returns (m: nat)
    requires n <= |headings| && l < |StackAfter(headings, n)|
    ensures m < |headings| && StackAfter(headings, n)[l] == headings[m]
  {
    var indices := StackIsAncestorChain(headings, n);
    m := indices[l];
  }

  /** Headings that can be told apart. */
  ghost predicate IsNumbered(headings: seq<Crumb<nat>>) {
    forall i :: 0 <= i < |headings| ==> headings[i].title == i
  }

  lemma SameStackSameHeading(headings: seq<Crumb<nat>>, kept: seq<nat>, i: nat, n: nat, j: nat)
    requires (forall l :: 0 <= l < |kept| ==> kept[l] < |headings|) && i < |kept| && n <= |headings|
             && IsNumbered(headings)
    requires StackAfter(Select(headings, kept), i + 1) == StackAfter(headings, n) && Encloses(headings, j, n)
    ensures j in kept
  {
    var l := EnclosingIsOnStack(headings, n, j);
    var m := StackEntry(Select(headings, kept), i + 1, l);
    assert headings[kept[m]] == headings[j];
  }

  /** If an enclosing heading was left out, the stack is another one. */
  lemma StackMissesAncestor(headings: seq<Crumb<nat>>, kept: seq<nat>, i: nat)
    requires Increasing(kept, |headings|) && i < |kept| && IsNumbered(headings)
    requires StackAfter(Select(headings, kept), i + 1) == StackAfter(headings, kept[i] + 1)
    ensures AncestorsKept(headings, kept, kept[i])
  {
    var n := kept[i] + 1;
    forall j: nat | Encloses(headings, j, n) ensures j in kept {
      SameStackSameHeading(headings, kept, i, n, j);
    }
  }

  /** The headings, told apart by their positions. */
  function Numbering<T>(headings: seq<Crumb<T>>): (r: seq<Crumb<nat>>)
    ensures |r| == |headings| && forall i :: 0 <= i < |r| ==> r[i] == Crumb(headings[i].level, i)
  {
    seq(|headings|, i requires 0 <= i < |headings| => Crumb(headings[i].level, i))
  }

  lemma EnclosesByLevel<T>(headings: seq<Crumb<T>>, kept: seq<nat>, p: nat)
    requires p < |headings|
    ensures AncestorsKept(headings, kept, p) <==> AncestorsKept(Numbering(headings), kept, p)
  {
    var n := p + 1;
    forall j: nat ensures Encloses(headings, j, n) <==> Encloses(Numbering(headings), j, n) {
      if j < n {
        forall k | j < k < n
          ensures headings[k].level > headings[j].level <==> Numbering(headings)[k].level > Numbering(headings)[j].level
        {
        }
      }
    }
  }

  /** With some headings left out, the stack at one that is kept is the stack over all of
      them, heading by heading, if and only if every heading that encloses it was kept. */
  lemma StackIsRightIff<T>(headings: seq<Crumb<T>>, kept: seq<nat>, i: nat)
    requires Increasing(kept, |headings|) && i < |kept|
    ensures StackAfter(Select(Numbering(headings), kept), i + 1) == StackAfter(Numbering(headings), kept[i] + 1)
       <==> AncestorsKept(headings, kept, kept[i])
  {
    EnclosesByLevel(headings, kept, kept[i]);
    if AncestorsKept(headings, kept, kept[i]) {
      StackOfKept(Numbering(headings), kept, i);
    } else if StackAfter(Select(Numbering(headings), kept), i + 1) == StackAfter(Numbering(headings), kept[i] + 1) {
      StackMissesAncestor(Numbering(headings), kept, i);
    }
  }
}
