/** Citations, and merging what a second retrieval finds (backend/app/llm/rag.py). */
module Rag {
  import opened Ordering
  import opened Retrieval

  /** Ascending, so no number comes twice. */
  predicate Increasing(xs: seq<int>) {
    forall i, j :: 0 <= i < j < |xs| ==> xs[i] < xs[j]
  }

  function InsertSorted(x: int, xs: seq<int>): seq<int> {
    if xs == [] || x < xs[0] then [x] + xs
    else if x == xs[0] then xs
    else [xs[0]] + InsertSorted(x, xs[1..])
  }

  lemma {:induction false} InsertSortedIs(x: int, xs: seq<int>)
    requires Increasing(xs)
    ensures Increasing(InsertSorted(x, xs))
    ensures forall y :: y in InsertSorted(x, xs) <==> y == x || y in xs
  {
    if xs != [] && x > xs[0] {
      InsertSortedIs(x, xs[1..]);
      var t := InsertSorted(x, xs[1..]);
      forall j | 0 <= j < |t| ensures xs[0] < t[j] { assert t[j] in t; }
    }
  }

  /** The source numbers an answer cites: those of its markers that are in range, in
      ascending order, each once. `markers` are the bracketed numbers in the answer. */
  function Citations(markers: seq<int>, sourceCount: int): (r: seq<int>) {
    if markers == [] then []
    else
      var before := Citations(markers[..|markers| - 1], sourceCount);
      var index := markers[|markers| - 1];
      if 1 <= index <= sourceCount then InsertSorted(index, before) else before
  }

  lemma {:induction false} CitationsAre(markers: seq<int>, sourceCount: int)
    ensures Increasing(Citations(markers, sourceCount))
    ensures forall y :: y in Citations(markers, sourceCount) <==> y in markers && 1 <= y <= sourceCount
  {
    if markers != [] {
      var last := |markers| - 1;
      CitationsAre(markers[..last], sourceCount);
      InsertSortedIs(markers[last], Citations(markers[..last], sourceCount));
      assert markers == markers[..last] + [markers[last]];
    }
  }

  lemma HeadIn(xs: seq<int>)
    requires |xs| > 0
    ensures xs[0] in xs
  {
  }

  /** Two ascending lists of the same numbers are the same list. */
  lemma {:induction false} IncreasingUnique(a: seq<int>, b: seq<int>)
    requires Increasing(a) && Increasing(b) && forall y :: y in a <==> y in b
    ensures a == b
  {
    if a != [] {
      assert a[0] in b && b[0] in a;
      assert a[0] == b[0] by {
        var i :| 0 <= i < |b| && b[i] == a[0];
        var j :| 0 <= j < |a| && a[j] == b[0];
      }
      forall y ensures y in a[1..] <==> y in b[1..] {
        if y in a[1..] {
          var i :| 1 <= i < |a| && a[i] == y;
          assert y in a && y != a[0];
        }
        if y in b[1..] {
          var i :| 1 <= i < |b| && b[i] == y;
          assert y in b && y != b[0];
        }
      }
      IncreasingUnique(a[1..], b[1..]);
    } else if |b| > 0 {
      HeadIn(b);
      assert false;
    }
  }

  /** `sorted(cited)` for distinct numbers. */
  function Sorted(xs: seq<int>): seq<int> {
    if xs == [] then [] else InsertSorted(xs[|xs| - 1], Sorted(xs[..|xs| - 1]))
  }

  lemma {:induction false} SortedIs(xs: seq<int>)
    ensures Increasing(Sorted(xs)) && forall y :: y in Sorted(xs) <==> y in xs
  {
    if xs != [] {
      SortedIs(xs[..|xs| - 1]);
      InsertSortedIs(xs[|xs| - 1], Sorted(xs[..|xs| - 1]));
      assert xs == xs[..|xs| - 1] + [xs[|xs| - 1]];
    }
  }

  method ExtractCitations(markers: seq<int>, sourceCount: int) returns (r: seq<int>)
    ensures r == Citations(markers, sourceCount)
  {
    var cited: seq<int> := [];
    for i := 0 to |markers|
      invariant forall y :: y in cited <==> y in markers[..i] && 1 <= y <= sourceCount
    {
      assert markers[..i + 1] == markers[..i] + [markers[i]];
      var index := markers[i];
      if 1 <= index <= sourceCount && index !in cited {
        cited := cited + [index];
      }
    }
    assert markers[..|markers|] == markers;
    r := Sorted(cited);
    SortedIs(cited);
    CitationsAre(markers, sourceCount);
    IncreasingUnique(r, Citations(markers, sourceCount));
  }

  // ------------------------------------------------------------------- merging

  predicate Holds<Id(==), T>(chunks: seq<RetrievedChunk<Id, T>>, id: Id) {
    exists i :: 0 <= i < |chunks| && chunks[i].chunkId == id
  }

  function Unseen<Id(==), T>(existing: seq<RetrievedChunk<Id, T>>): RetrievedChunk<Id, T> -> bool {
    (c: RetrievedChunk<Id, T>) => !Holds(existing, c.chunkId)
  }

  /** What there was, followed by what is new: `answer_question` and the graph
      retriever both add the results of a second retrieval this way. */
  function Extended<Id(==), T>(existing: seq<RetrievedChunk<Id, T>>, found: seq<RetrievedChunk<Id, T>>)
    : seq<RetrievedChunk<Id, T>>
  {
    existing + Filter(found, Unseen(existing))
  }

  /** Results of one retrieval repeat no chunk, so adding them repeats none; and
      nothing found is missing. */
  lemma ExtendedIsDistinct<Id(!new), T(!new)>(existing: seq<RetrievedChunk<Id, T>>, found: seq<RetrievedChunk<Id, T>>)
    requires DistinctBy(existing, RetrievedId) && DistinctBy(found, RetrievedId)
    ensures DistinctBy(Extended(existing, found), RetrievedId)
    ensures forall c :: c in found ==> Holds(Extended(existing, found), c.chunkId)
  {
    var more, all := Filter(found, Unseen(existing)), Extended(existing, found);
    FilterMembers(found, Unseen(existing));
    FilterDistinct(found, Unseen(existing), RetrievedId);
    forall i, j | 0 <= i < j < |all| ensures RetrievedId(all[i]) != RetrievedId(all[j]) {
      if i < |existing| <= j {
        assert all[j] == more[j - |existing|] && more[j - |existing|] in more;
        assert existing[i].chunkId == all[i].chunkId;
      } else if i >= |existing| {
        assert RetrievedId(more[i - |existing|]) != RetrievedId(more[j - |existing|]);
      } else {
        assert RetrievedId(existing[i]) != RetrievedId(existing[j]);
      }
    }
    forall c | c in found ensures Holds(all, c.chunkId) {
      if Unseen(existing)(c) {
        assert c in more;
        var i :| 0 <= i < |more| && more[i] == c;
        assert all[|existing| + i].chunkId == c.chunkId;
      } else {
        var i :| 0 <= i < |existing| && existing[i].chunkId == c.chunkId;
        assert all[i].chunkId == c.chunkId;
      }
    }
  }

  /** Results of several queries, each chunk kept where it first turns up. */
  function AddAll<Id(==), T>(merged: seq<RetrievedChunk<Id, T>>, results: seq<RetrievedChunk<Id, T>>)
    : seq<RetrievedChunk<Id, T>>
  {
    if results == [] then merged
    else
      var before := AddAll(merged, results[..|results| - 1]);
      var chunk := results[|results| - 1];
      if Holds(before, chunk.chunkId) then before else before + [chunk]
  }

  function MergeLists<Id(==), T>(lists: seq<seq<RetrievedChunk<Id, T>>>): seq<RetrievedChunk<Id, T>> {
    if lists == [] then [] else AddAll(MergeLists(lists[..|lists| - 1]), lists[|lists| - 1])
  }

  lemma HoldsMore<Id, T>(chunks: seq<RetrievedChunk<Id, T>>, c: RetrievedChunk<Id, T>, id: Id)
    ensures Holds(chunks + [c], id) <==> Holds(chunks, id) || c.chunkId == id
  {
    var more := chunks + [c];
    if Holds(chunks, id) {
      var i :| 0 <= i < |chunks| && chunks[i].chunkId == id;
      assert more[i].chunkId == id;
    }
    assert more[|chunks|] == c;
    if Holds(more, id) {
      var i :| 0 <= i < |more| && more[i].chunkId == id;
      assert i < |chunks| ==> chunks[i].chunkId == id;
    }
  }

  lemma DistinctMore<Id, T>(chunks: seq<RetrievedChunk<Id, T>>, c: RetrievedChunk<Id, T>)
    requires DistinctBy(chunks, RetrievedId) && !Holds(chunks, c.chunkId)
    ensures DistinctBy(chunks + [c], RetrievedId)
  {
    var more := chunks + [c];
    forall i, j | 0 <= i < j < |more| ensures RetrievedId(more[i]) != RetrievedId(more[j]) {
      if j < |chunks| {
        assert RetrievedId(chunks[i]) != RetrievedId(chunks[j]);
      } else {
        assert chunks[i].chunkId != c.chunkId;
      }
    }
  }

  lemma {:induction false} AddAllIs<Id, T>(merged: seq<RetrievedChunk<Id, T>>, results: seq<RetrievedChunk<Id, T>>,
                                           id: Id)
    requires DistinctBy(merged, RetrievedId)
    ensures DistinctBy(AddAll(merged, results), RetrievedId)
    ensures Holds(AddAll(merged, results), id) <==> Holds(merged, id) || Holds(results, id)
  {
    if results != [] {
      var rest, c := results[..|results| - 1], results[|results| - 1];
      AddAllIs(merged, rest, id);
      HoldsMore(rest, c, id);
      assert results == rest + [c];
      HoldsMore(AddAll(merged, rest), c, id);
      if !Holds(AddAll(merged, rest), c.chunkId) { DistinctMore(AddAll(merged, rest), c); }
    }
  }

  /** Merging keeps exactly the chunks that were found, once each, whatever the lists repeat. */
  lemma {:induction false} MergeListsIs<Id, T>(lists: seq<seq<RetrievedChunk<Id, T>>>, id: Id)
    ensures DistinctBy(MergeLists(lists), RetrievedId)
    ensures Holds(MergeLists(lists), id) <==> exists i :: 0 <= i < |lists| && Holds(lists[i], id)
  {
    if lists != [] {
      var last := |lists| - 1;
      var rest := lists[..last];
      MergeListsIs(rest, id);
      AddAllIs(MergeLists(rest), lists[last], id);
      assert forall i :: 0 <= i < last ==> rest[i] == lists[i];
      if Holds(MergeLists(rest), id) {
        var i :| 0 <= i < |rest| && Holds(rest[i], id);
        assert Holds(lists[i], id);
      }
      if exists i :: 0 <= i < |lists| && Holds(lists[i], id) {
        var i :| 0 <= i < |lists| && Holds(lists[i], id);
        if i < last { assert Holds(rest[i], id); }
      }
    }
  }

  /** The retriever's loop over sub-questions and their results. */
  method MergeResults<Id(==), T>(lists: seq<seq<RetrievedChunk<Id, T>>>) returns (merged: seq<RetrievedChunk<Id, T>>)
    ensures merged == MergeLists(lists)
  {
    var seen: set<Id> := {};
    merged := [];
    for n := 0 to |lists|
      invariant merged == MergeLists(lists[..n])
      invariant forall id :: id in seen <==> Holds(merged, id)
    {
      assert lists[..n + 1][..n] == lists[..n];
      var results := lists[n];
      ghost var before := merged;
      for i := 0 to |results|
        invariant merged == AddAll(before, results[..i])
        invariant forall id :: id in seen <==> Holds(merged, id)
      {
        assert results[..i + 1][..i] == results[..i];
        var chunk := results[i];
        if chunk.chunkId !in seen {
          forall id ensures Holds(merged + [chunk], id) <==> Holds(merged, id) || chunk.chunkId == id {
            HoldsMore(merged, chunk, id);
          }
          seen := seen + {chunk.chunkId};
          merged := merged + [chunk];
        }
      }
      assert results[..|results|] == results;
    }
    assert lists[..|lists|] == lists;
  }
}
