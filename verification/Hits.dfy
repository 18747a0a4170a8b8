/** A search result, as both retrievers report it: `SearchHit` in
    backend/app/retrieval/vector_store.py and `SparseHit` in backend/app/retrieval/sparse.py. */
module Hits {
  import opened Ordering

  datatype Hit<Id, Meta> = Hit(chunkId: Id, paperId: Id, score: real, metadata: Meta)

  function ChunkOf<Id, Meta>(h: Hit<Id, Meta>): Id { h.chunkId }

  /** Not returned, for the only reason there is: the limit was used up by scores at least as good. */
  ghost predicate Outscored<Id, M>(h: Hit<Id, M>, hits: seq<Hit<Id, M>>, limit: int) {
    |hits| == limit && forall i :: 0 <= i < |hits| ==> hits[i].score >= h.score
  }

  /** Cutting a sorted list keeps the best. */
  lemma TopOfSorted<Id(!new), M(!new)>(all: seq<Hit<Id, M>>, key: Hit<Id, M> -> Key, limit: nat, h: Hit<Id, M>)
    requires (forall x :: key(x) == Key(x.score, 0)) && h in all
    ensures var hits := Upto(SortDescending(all, key), limit); h in hits || Outscored(h, hits, limit)
  {
    var sorted := SortDescending(all, key);
    SortSpec(all, key);
    var p :| 0 <= p < |sorted| && sorted[p] == h;
    var hits := Upto(sorted, limit);
    if p >= |hits| {
      forall i | 0 <= i < |hits| ensures hits[i].score >= h.score {
        assert !key(sorted[p]).Above(key(sorted[i]));
      }
    } else {
      assert hits[p] == h;
    }
  }
}
