/** Reciprocal rank fusion of the dense and the sparse result list
    (backend/app/retrieval/fusion.py). */
module Fusion {
  import opened Options
  import opened Ordering
  import opened Hits

  const RRF_K: nat := 60

  datatype FusedHit<Id, K, V> =
    FusedHit(chunkId: Id, paperId: Id, score: real, denseRank: Option<nat>, sparseRank: Option<nat>,
             denseScore: Option<real>, sparseScore: Option<real>, metadata: map<K, V>)

  predicate FoundByBoth<Id, K, V>(h: FusedHit<Id, K, V>) {
    h.denseRank.Some? && h.sparseRank.Some?
  }

  /** The dictionary of fused hits, with its keys in the order they were first inserted. */
  datatype Table<Id(==), K, V> = Table(order: seq<Id>, entries: map<Id, FusedHit<Id, K, V>>)

  ghost predicate Valid<Id(!new), K, V>(t: Table<Id, K, V>) {
    && (forall id :: id in t.order <==> id in t.entries)
    && (forall i, j :: 0 <= i < j < |t.order| ==> t.order[i] != t.order[j])
    && (forall id :: id in t.entries ==> t.entries[id].chunkId == id)
  }

  /** What one place in one list is worth. */
  function Contribution(weight: real, k: nat, rank: nat): real
    requires rank > 0
  {
    weight / (k + rank) as real
  }

  // ------------------------------------------------------------------ merging

  /** The entry after a hit at this rank: a new one, or the old one with what the hit adds. */
  function Entry<Id, K, V>(prior: Option<FusedHit<Id, K, V>>, hit: Hit<Id, map<K, V>>, rank: nat, share: real,
                           isDense: bool)
    : FusedHit<Id, K, V>
  {
    var entry := match prior
      case None => FusedHit(hit.chunkId, hit.paperId, 0.0, None, None, None, None, hit.metadata)
      case Some(e) => e.(metadata := hit.metadata + e.metadata);
    if isDense then entry.(score := entry.score + share, denseRank := Some(rank), denseScore := Some(hit.score))
    else entry.(score := entry.score + share, sparseRank := Some(rank), sparseScore := Some(hit.score))
  }

  function MergeOne<Id, K, V>(t: Table<Id, K, V>, hit: Hit<Id, map<K, V>>, rank: nat, share: real, isDense: bool)
    : Table<Id, K, V>
  {
    if hit.chunkId in t.entries
    then Table(t.order, t.entries[hit.chunkId := Entry(Some(t.entries[hit.chunkId]), hit, rank, share, isDense)])
    else Table(t.order + [hit.chunkId], t.entries[hit.chunkId := Entry(None, hit, rank, share, isDense)])
  }

  function MergeFirst<Id, K, V>(t: Table<Id, K, V>, results: seq<Hit<Id, map<K, V>>>, n: nat, weight: real, k: nat,
                                isDense: bool)
    : Table<Id, K, V>
    requires n <= |results|
  {
    if n == 0 then t
    else MergeOne(MergeFirst(t, results, n - 1, weight, k, isDense), results[n - 1], n,
                  Contribution(weight, k, n), isDense)
  }

  method Merge<Id(==), K(==), V>(t: Table<Id, K, V>, results: seq<Hit<Id, map<K, V>>>, weight: real, k: nat,
                                 isDense: bool)
    returns (r: Table<Id, K, V>)
    ensures r == MergeFirst(t, results, |results|, weight, k, isDense)
  {
    var order, fused := t.order, t.entries;
    for i := 0 to |results|
      invariant Table(order, fused) == MergeFirst(t, results, i, weight, k, isDense)
    {
      var hit, rank := results[i], i + 1;
      var contribution := weight / (k + rank) as real;
      var entry: FusedHit<Id, K, V>;
      if hit.chunkId !in fused {
        entry := FusedHit(hit.chunkId, hit.paperId, 0.0, None, None, None, None, hit.metadata);
        order := order + [hit.chunkId];
      } else {
        entry := fused[hit.chunkId];
        entry := entry.(metadata := hit.metadata + entry.metadata);
      }
      entry := entry.(score := entry.score + contribution);
      if isDense {
        entry := entry.(denseRank := Some(rank), denseScore := Some(hit.score));
      } else {
        entry := entry.(sparseRank := Some(rank), sparseScore := Some(hit.score));
      }
      fused := fused[hit.chunkId := entry];
    }
    r := Table(order, fused);
  }

  function Values<Id, K, V>(t: Table<Id, K, V>): (r: seq<FusedHit<Id, K, V>>)
    requires forall id :: id in t.order ==> id in t.entries
    ensures |r| == |t.order|
    ensures forall i :: 0 <= i < |r| ==> r[i] == t.entries[t.order[i]]
  {
    seq(|t.order|, i requires 0 <= i < |t.order| => t.entries[t.order[i]])
  }

  /** Best score first; among equal scores, what both retrievers found. */
  function FusionKey<Id, K, V>(h: FusedHit<Id, K, V>): Key {
    Key(h.score, if FoundByBoth(h) then 1 else 0)
  }

  ghost function Fused<Id, K, V>(dense: seq<Hit<Id, map<K, V>>>, sparse: seq<Hit<Id, map<K, V>>>, k: nat,
                                 denseWeight: real, sparseWeight: real): (t: Table<Id, K, V>)
  {
    MergeFirst(MergeFirst(Table([], map[]), dense, |dense|, denseWeight, k, true), sparse, |sparse|,
               sparseWeight, k, false)
  }

  ghost function Ordered<Id(!new), K(!new), V(!new)>(dense: seq<Hit<Id, map<K, V>>>, sparse: seq<Hit<Id, map<K, V>>>,
                                                     k: nat, denseWeight: real, sparseWeight: real)
    : seq<FusedHit<Id, K, V>>
  {
    FusedValid(dense, sparse, k, denseWeight, sparseWeight);
    SortDescending(Values(Fused(dense, sparse, k, denseWeight, sparseWeight)), FusionKey)
  }

  method ReciprocalRankFusion<Id(==, !new), K(==, !new), V(!new)>(
    dense: seq<Hit<Id, map<K, V>>>, sparse: seq<Hit<Id, map<K, V>>>, limit: int, k: nat, denseWeight: real,
    sparseWeight: real)
    returns (hits: seq<FusedHit<Id, K, V>>)
    ensures hits == Upto(Ordered(dense, sparse, k, denseWeight, sparseWeight), limit)
  {
    var fused := Merge(Table([], map[]), dense, denseWeight, k, true);
    fused := Merge(fused, sparse, sparseWeight, k, false);
    FusedValid(dense, sparse, k, denseWeight, sparseWeight);
    hits := Upto(SortDescending(Values(fused), FusionKey), limit);
  }

  // ------------------------------------------------ what an entry ends up with

  lemma {:induction false} MergeKeepsValid<Id(!new), K, V>(t: Table<Id, K, V>, results: seq<Hit<Id, map<K, V>>>, n: nat,
                                                           weight: real, k: nat, isDense: bool)
    requires n <= |results| && Valid(t)
    ensures Valid(MergeFirst(t, results, n, weight, k, isDense))
  {
    if n > 0 { MergeKeepsValid(t, results, n - 1, weight, k, isDense); }
  }

  lemma FusedValid<Id(!new), K, V>(dense: seq<Hit<Id, map<K, V>>>, sparse: seq<Hit<Id, map<K, V>>>, k: nat,
                                   denseWeight: real, sparseWeight: real)
    ensures Valid(Fused(dense, sparse, k, denseWeight, sparseWeight))
  {
    var start: Table<Id, K, V> := Table([], map[]);
    MergeKeepsValid(start, dense, |dense|, denseWeight, k, true);
    MergeKeepsValid(MergeFirst(start, dense, |dense|, denseWeight, k, true), sparse, |sparse|, sparseWeight, k, false);
  }

  /** The last rank at which a list has a chunk, or 0. */
  function LastRank<Id(==), M>(results: seq<Hit<Id, M>>, n: nat, id: Id): (rank: nat)
    requires n <= |results|
    ensures rank <= n && (rank > 0 ==> results[rank - 1].chunkId == id)
  {
    if n == 0 then 0 else if results[n - 1].chunkId == id then n else LastRank(results, n - 1, id)
  }

  /** What a list contributes to a chunk in all. */
  function Share<Id(==), M>(results: seq<Hit<Id, M>>, n: nat, id: Id, weight: real, k: nat): real
    requires n <= |results|
  {
    if n == 0 then 0.0
    else Share(results, n - 1, id, weight, k) + if results[n - 1].chunkId == id then Contribution(weight, k, n) else 0.0
  }

  function RankOption(rank: nat, otherwise: Option<nat>): Option<nat> {
    if rank > 0 then Some(rank) else otherwise
  }

  function ScoreIn<Id, K, V>(t: Table<Id, K, V>, id: Id): real {
    if id in t.entries then t.entries[id].score else 0.0
  }

  function DenseRankIn<Id, K, V>(t: Table<Id, K, V>, id: Id): Option<nat> {
    if id in t.entries then t.entries[id].denseRank else None
  }

  function SparseRankIn<Id, K, V>(t: Table<Id, K, V>, id: Id): Option<nat> {
    if id in t.entries then t.entries[id].sparseRank else None
  }

  lemma {:induction false} MergeEffect<Id, K, V>(t: Table<Id, K, V>, results: seq<Hit<Id, map<K, V>>>, n: nat,
                                                 weight: real, k: nat, isDense: bool, id: Id)
    requires n <= |results|
    ensures var t', rank := MergeFirst(t, results, n, weight, k, isDense), LastRank(results, n, id);
            && (id in t'.entries <==> id in t.entries || rank > 0)
            && ScoreIn(t', id) == ScoreIn(t, id) + Share(results, n, id, weight, k)
            && DenseRankIn(t', id) == (if isDense then RankOption(rank, DenseRankIn(t, id)) else DenseRankIn(t, id))
            && SparseRankIn(t', id) == (if isDense then SparseRankIn(t, id) else RankOption(rank, SparseRankIn(t, id)))
  {
    if n > 0 { MergeEffect(t, results, n - 1, weight, k, isDense, id); }
  }

  /** A fused entry exists for exactly the chunks some list has, scores the sum of what
      their places are worth, and records their ranks; whatever metadata the list that
      came first supplied is kept. */
  lemma FusedEntry<Id, K, V>(dense: seq<Hit<Id, map<K, V>>>, sparse: seq<Hit<Id, map<K, V>>>, k: nat,
                             denseWeight: real, sparseWeight: real, id: Id)
    ensures var t := Fused(dense, sparse, k, denseWeight, sparseWeight);
            var d, s := LastRank(dense, |dense|, id), LastRank(sparse, |sparse|, id);
            && (id in t.entries <==> d > 0 || s > 0)
            && ScoreIn(t, id) ==
                 Share(dense, |dense|, id, denseWeight, k) + Share(sparse, |sparse|, id, sparseWeight, k)
            && DenseRankIn(t, id) == RankOption(d, None) && SparseRankIn(t, id) == RankOption(s, None)
  {
    var start: Table<Id, K, V> := Table([], map[]);
    MergeEffect(start, dense, |dense|, denseWeight, k, true, id);
    MergeEffect(MergeFirst(start, dense, |dense|, denseWeight, k, true), sparse, |sparse|, sparseWeight, k, false, id);
  }

  /** Metadata an entry has is never overwritten, only added to. */
  lemma {:induction false} MetadataIsKept<Id, K, V>(t: Table<Id, K, V>, results: seq<Hit<Id, map<K, V>>>, n: nat,
                                                    weight: real, k: nat, isDense: bool, id: Id, key: K)
    requires n <= |results| && id in t.entries && key in t.entries[id].metadata
    ensures var t' := MergeFirst(t, results, n, weight, k, isDense);
            && id in t'.entries && t'.entries[id].paperId == t.entries[id].paperId
            && key in t'.entries[id].metadata && t'.entries[id].metadata[key] == t.entries[id].metadata[key]
  {
    if n > 0 { MetadataIsKept(t, results, n - 1, weight, k, isDense, id, key); }
  }

  /** Whatever links chunk and paper in every hit links them in every entry. */
  lemma {:induction false} MergeKeepsPaper<Id, K, V>(t: Table<Id, K, V>, results: seq<Hit<Id, map<K, V>>>, n: nat,
                                                     weight: real, k: nat, isDense: bool, ok: (Id, Id) -> bool, id: Id)
    requires n <= |results|
    requires forall i :: 0 <= i < |results| ==> ok(results[i].chunkId, results[i].paperId)
    requires id in t.entries ==> ok(id, t.entries[id].paperId)
    ensures var t' := MergeFirst(t, results, n, weight, k, isDense);
            id in t'.entries ==> ok(id, t'.entries[id].paperId)
  {
    if n > 0 {
      MergeKeepsPaper(t, results, n - 1, weight, k, isDense, ok, id);
      assert ok(results[n - 1].chunkId, results[n - 1].paperId);
    }
  }

  lemma FusedKeepsPaper<Id, K, V>(dense: seq<Hit<Id, map<K, V>>>, sparse: seq<Hit<Id, map<K, V>>>, k: nat,
                                  denseWeight: real, sparseWeight: real, ok: (Id, Id) -> bool, id: Id)
    requires forall i :: 0 <= i < |dense| ==> ok(dense[i].chunkId, dense[i].paperId)
    requires forall i :: 0 <= i < |sparse| ==> ok(sparse[i].chunkId, sparse[i].paperId)
    ensures var t := Fused(dense, sparse, k, denseWeight, sparseWeight);
            id in t.entries ==> ok(id, t.entries[id].paperId)
  {
    var start: Table<Id, K, V> := Table([], map[]);
    MergeKeepsPaper(start, dense, |dense|, denseWeight, k, true, ok, id);
    MergeKeepsPaper(MergeFirst(start, dense, |dense|, denseWeight, k, true), sparse, |sparse|, sparseWeight, k,
                    false, ok, id);
  }

  lemma {:induction false} ShareOfDistinct<Id, M>(results: seq<Hit<Id, M>>, n: nat, id: Id, weight: real, k: nat)
    requires n <= |results| && DistinctBy(results, ChunkOf)
    ensures var rank := LastRank(results, n, id);
            Share(results, n, id, weight, k) == if rank > 0 then Contribution(weight, k, rank) else 0.0
  {
    if n > 0 {
      ShareOfDistinct(results, n - 1, id, weight, k);
      var rank := LastRank(results, n - 1, id);
      assert rank > 0 ==> ChunkOf(results[rank - 1]) != ChunkOf(results[n - 1]);
    }
  }

  // -------------------------------------------------------------------- order

  /** Both lists, fused without weights or with; lists as retrievers return them repeat no chunk. */
  ghost predicate Proper<Id, M>(dense: seq<Hit<Id, M>>, sparse: seq<Hit<Id, M>>) {
    DistinctBy(dense, ChunkOf) && DistinctBy(sparse, ChunkOf)
  }

  lemma EntryOfDistinct<Id, K, V>(dense: seq<Hit<Id, map<K, V>>>, sparse: seq<Hit<Id, map<K, V>>>, k: nat,
                                  denseWeight: real, sparseWeight: real, id: Id)
    requires Proper(dense, sparse)
    ensures var t := Fused(dense, sparse, k, denseWeight, sparseWeight);
            var d, s := LastRank(dense, |dense|, id), LastRank(sparse, |sparse|, id);
            && (id in t.entries <==> d > 0 || s > 0)
            && (id in t.entries ==> FusionKey(t.entries[id]) == KeyOfRanks(d, s, k, denseWeight, sparseWeight))
  {
    FusedEntry(dense, sparse, k, denseWeight, sparseWeight, id);
    ShareOfDistinct(dense, |dense|, id, denseWeight, k);
    ShareOfDistinct(sparse, |sparse|, id, sparseWeight, k);
  }

  function Worth(weight: real, k: nat, rank: nat): real {
    if rank > 0 then Contribution(weight, k, rank) else 0.0
  }

  /** The sort key of a chunk with these ranks, 0 standing for absent. */
  function KeyOfRanks(d: nat, s: nat, k: nat, denseWeight: real, sparseWeight: real): Key {
    Key(Worth(denseWeight, k, d) + Worth(sparseWeight, k, s), if d > 0 && s > 0 then 1 else 0)
  }

  lemma InValues<Id(!new), K, V>(t: Table<Id, K, V>, id: Id)
    requires Valid(t) && id in t.entries
    ensures t.entries[id] in Values(t)
  {
    var i :| 0 <= i < |t.order| && t.order[i] == id;
    assert Values(t)[i] == t.entries[id];
  }

  lemma ValuesById<Id(!new), K, V>(t: Table<Id, K, V>, h: FusedHit<Id, K, V>)
    requires Valid(t) && h in Values(t)
    ensures h.chunkId in t.entries && t.entries[h.chunkId] == h
  {
    var i :| 0 <= i < |t.order| && Values(t)[i] == h;
    assert t.order[i] in t.order;
  }

  /** The chunk at place `q` of the output is preceded by any chunk with a greater key. */
  lemma Precedes<Id(!new), K(!new), V(!new)>(dense: seq<Hit<Id, map<K, V>>>, sparse: seq<Hit<Id, map<K, V>>>, k: nat,
                                             denseWeight: real, sparseWeight: real, limit: int, x: Id, q: nat)
    returns (p: nat)
    requires var t := Fused(dense, sparse, k, denseWeight, sparseWeight);
             var hits := Upto(Ordered(dense, sparse, k, denseWeight, sparseWeight), limit);
             q < |hits| && x in t.entries && FusionKey(t.entries[x]).Above(FusionKey(hits[q]))
    ensures p < q && Upto(Ordered(dense, sparse, k, denseWeight, sparseWeight), limit)[p].chunkId == x
  {
    var t := Fused(dense, sparse, k, denseWeight, sparseWeight);
    FusedValid(dense, sparse, k, denseWeight, sparseWeight);
    InValues(t, x);
    p := GreaterKeyFirst(Values(t), FusionKey, t.entries[x], q);
  }

  /** Every output hit is the fused entry of its chunk. */
  lemma OutputEntry<Id(!new), K(!new), V(!new)>(dense: seq<Hit<Id, map<K, V>>>, sparse: seq<Hit<Id, map<K, V>>>, k: nat,
                                                denseWeight: real, sparseWeight: real, limit: int, q: nat)
    requires q < |Upto(Ordered(dense, sparse, k, denseWeight, sparseWeight), limit)|
    ensures var t := Fused(dense, sparse, k, denseWeight, sparseWeight);
            var h := Upto(Ordered(dense, sparse, k, denseWeight, sparseWeight), limit)[q];
            h.chunkId in t.entries && t.entries[h.chunkId] == h
  {
    var t := Fused(dense, sparse, k, denseWeight, sparseWeight);
    FusedValid(dense, sparse, k, denseWeight, sparseWeight);
    var sorted := SortDescending(Values(t), FusionKey);
    SortSpec(Values(t), FusionKey);
    assert sorted[q] in sorted;
    ValuesById(t, sorted[q]);
  }

  /** The output repeats no chunk, and every chunk in it was found by some retriever. */
  lemma OutputIsDistinct<Id(!new), K(!new), V(!new)>(dense: seq<Hit<Id, map<K, V>>>, sparse: seq<Hit<Id, map<K, V>>>,
                                                     k: nat, denseWeight: real, sparseWeight: real, limit: int)
    ensures var hits := Upto(Ordered(dense, sparse, k, denseWeight, sparseWeight), limit);
            && DistinctBy(hits, FusedChunk)
            && forall q :: 0 <= q < |hits| ==>
                 LastRank(dense, |dense|, hits[q].chunkId) > 0 || LastRank(sparse, |sparse|, hits[q].chunkId) > 0
  {
    var t := Fused(dense, sparse, k, denseWeight, sparseWeight);
    FusedValid(dense, sparse, k, denseWeight, sparseWeight);
    assert DistinctBy(Values(t), FusedChunk) by {
      forall i, j | 0 <= i < j < |t.order| ensures Values(t)[i].chunkId != Values(t)[j].chunkId {
        assert t.order[i] in t.order && t.order[j] in t.order;
      }
    }
    SortDistinct(Values(t), FusionKey, FusedChunk);
    var hits := Upto(Ordered(dense, sparse, k, denseWeight, sparseWeight), limit);
    forall q | 0 <= q < |hits|
      ensures LastRank(dense, |dense|, hits[q].chunkId) > 0 || LastRank(sparse, |sparse|, hits[q].chunkId) > 0
    {
      OutputEntry(dense, sparse, k, denseWeight, sparseWeight, limit, q);
      FusedEntry(dense, sparse, k, denseWeight, sparseWeight, hits[q].chunkId);
    }
  }

  function FusedChunk<Id, K, V>(h: FusedHit<Id, K, V>): Id { h.chunkId }

  // ----------------------------------------------------------- rank arithmetic

  lemma Quotient(weight: real, a: real)
    requires a > 0.0
    ensures (weight / a) * a == weight
  {
  }

  lemma Cancel(x: real, a: real)
    requires a > 0.0 && x * a > 0.0
    ensures x > 0.0
  {
  }

  lemma SmallerDivisor(weight: real, a: real, b: real)
    requires weight > 0.0 && 0.0 < a < b
    ensures weight / a > weight / b > 0.0
  {
    var u, v := weight / a, weight / b;
    Quotient(weight, a);
    Quotient(weight, b);
    Cancel(v, b);
    assert v * (b - a) > 0.0;
    assert (u - v) * a == v * (b - a);
    Cancel(u - v, a);
  }

  lemma EarlierIsWorthMore(weight: real, k: nat, a: nat, b: nat)
    requires weight > 0.0 && 0 < a <= b
    ensures Worth(weight, k, a) >= Worth(weight, k, b) > 0.0
    ensures a < b ==> Worth(weight, k, a) > Worth(weight, k, b)
  {
    if a < b {
      SmallerDivisor(weight, (k + a) as real, (k + b) as real);
    } else {
      SmallerDivisor(weight, (k + a) as real, (k + a + 1) as real);
    }
  }

  /** Ahead of the other in a list, unless the other is not in it. */
  predicate Ahead(rankX: nat, rankY: nat) {
    rankY > 0 ==> 0 < rankX < rankY
  }

  lemma AheadIsWorthMore(weight: real, k: nat, rankX: nat, rankY: nat)
    requires weight > 0.0 && Ahead(rankX, rankY)
    ensures Worth(weight, k, rankX) >= Worth(weight, k, rankY)
    ensures rankY > 0 ==> Worth(weight, k, rankX) > Worth(weight, k, rankY)
  {
    if rankY > 0 { EarlierIsWorthMore(weight, k, rankX, rankY); }
    else if rankX > 0 { EarlierIsWorthMore(weight, k, rankX, rankX); }
  }

  /** An item ahead of another in each list where the other appears always precedes
      it in the output, whatever the limit. */
  lemma DominantComesFirst<Id(!new), K(!new), V(!new)>(
    dense: seq<Hit<Id, map<K, V>>>, sparse: seq<Hit<Id, map<K, V>>>, k: nat, denseWeight: real, sparseWeight: real,
    limit: int, x: Id, q: nat)
    returns (p: nat)
    requires Proper(dense, sparse) && denseWeight > 0.0 && sparseWeight > 0.0
    requires q < |Upto(Ordered(dense, sparse, k, denseWeight, sparseWeight), limit)|
    requires var y := Upto(Ordered(dense, sparse, k, denseWeight, sparseWeight), limit)[q].chunkId;
             && Ahead(LastRank(dense, |dense|, x), LastRank(dense, |dense|, y))
             && Ahead(LastRank(sparse, |sparse|, x), LastRank(sparse, |sparse|, y))
    ensures p < q && Upto(Ordered(dense, sparse, k, denseWeight, sparseWeight), limit)[p].chunkId == x
  {
    var y := Upto(Ordered(dense, sparse, k, denseWeight, sparseWeight), limit)[q].chunkId;
    OutputEntry(dense, sparse, k, denseWeight, sparseWeight, limit, q);
    EntryOfDistinct(dense, sparse, k, denseWeight, sparseWeight, x);
    EntryOfDistinct(dense, sparse, k, denseWeight, sparseWeight, y);
    AheadIsWorthMore(denseWeight, k, LastRank(dense, |dense|, x), LastRank(dense, |dense|, y));
    AheadIsWorthMore(sparseWeight, k, LastRank(sparse, |sparse|, x), LastRank(sparse, |sparse|, y));
    p := Precedes(dense, sparse, k, denseWeight, sparseWeight, limit, x, q);
  }

  lemma HalfTwice(weight: real, a: real)
    requires a > 0.0
    ensures weight / (2.0 * a) + weight / (2.0 * a) == weight / a
  {
    var h, f := weight / (2.0 * a), weight / a;
    Quotient(weight, 2.0 * a);
    Quotient(weight, a);
    assert (h + h) * a == h * (2.0 * a);
    assert (h + h - f) * a == 0.0;
  }

  /** Two places within the first k + 2 are worth at least one first place. */
  lemma TwoPlacesBeatOne(weight: real, k: nat, d: nat, s: nat, one: nat)
    requires weight > 0.0 && 0 < d <= k + 2 && 0 < s <= k + 2 && one > 0
    ensures Worth(weight, k, d) + Worth(weight, k, s) >= Worth(weight, k, one)
  {
    EarlierIsWorthMore(weight, k, d, k + 2);
    EarlierIsWorthMore(weight, k, s, k + 2);
    EarlierIsWorthMore(weight, k, 1, one);
    HalfTwice(weight, (k + 1) as real);
    assert (k + (k + 2)) as real == 2.0 * (k + 1) as real;
  }

  /** Found by exactly one of the two. */
  predicate FoundByOne(d: nat, s: nat) {
    (d > 0) != (s > 0)
  }

  /** With equal weights, an item within the first k + 2 places of both lists precedes
      every item only one list has; when the scores are equal, the tie-break decides. */
  lemma AgreementComesFirst<Id(!new), K(!new), V(!new)>(
    dense: seq<Hit<Id, map<K, V>>>, sparse: seq<Hit<Id, map<K, V>>>, k: nat, weight: real, limit: int, x: Id, q: nat)
    returns (p: nat)
    requires Proper(dense, sparse) && weight > 0.0
    requires q < |Upto(Ordered(dense, sparse, k, weight, weight), limit)|
    requires 0 < LastRank(dense, |dense|, x) <= k + 2 && 0 < LastRank(sparse, |sparse|, x) <= k + 2
    requires var y := Upto(Ordered(dense, sparse, k, weight, weight), limit)[q].chunkId;
             FoundByOne(LastRank(dense, |dense|, y), LastRank(sparse, |sparse|, y))
    ensures p < q && Upto(Ordered(dense, sparse, k, weight, weight), limit)[p].chunkId == x
  {
    var y := Upto(Ordered(dense, sparse, k, weight, weight), limit)[q].chunkId;
    OutputEntry(dense, sparse, k, weight, weight, limit, q);
    EntryOfDistinct(dense, sparse, k, weight, weight, x);
    EntryOfDistinct(dense, sparse, k, weight, weight, y);
    var d, s := LastRank(dense, |dense|, y), LastRank(sparse, |sparse|, y);
    TwoPlacesBeatOne(weight, k, LastRank(dense, |dense|, x), LastRank(sparse, |sparse|, x), d + s);
    p := Precedes(dense, sparse, k, weight, weight, limit, x, q);
  }

  /** Two places after the first k + 2 are worth less than one first place. */
  lemma OneBeatsTwoPlaces(weight: real, k: nat, d: nat, s: nat)
    requires weight > 0.0 && d >= k + 3 && s >= k + 3
    ensures Worth(weight, k, d) + Worth(weight, k, s) < Worth(weight, k, 1)
  {
    EarlierIsWorthMore(weight, k, k + 3, d);
    EarlierIsWorthMore(weight, k, k + 3, s);
    EarlierIsWorthMore(weight, k, k + 2, k + 3);
    HalfTwice(weight, (k + 1) as real);
    assert (k + (k + 2)) as real == 2.0 * (k + 1) as real;
  }

  /** One place further down in both lists is too far: the first item of a single list
      then comes first, so k + 2 is the exact reach of agreement. */
  lemma AgreementReachIsExact<Id(!new), K(!new), V(!new)>(
    dense: seq<Hit<Id, map<K, V>>>, sparse: seq<Hit<Id, map<K, V>>>, k: nat, weight: real, limit: int, y: Id, q: nat)
    returns (p: nat)
    requires Proper(dense, sparse) && weight > 0.0
    requires q < |Upto(Ordered(dense, sparse, k, weight, weight), limit)|
    requires var x := Upto(Ordered(dense, sparse, k, weight, weight), limit)[q].chunkId;
             LastRank(dense, |dense|, x) >= k + 3 && LastRank(sparse, |sparse|, x) >= k + 3
    requires LastRank(dense, |dense|, y) + LastRank(sparse, |sparse|, y) == 1
    ensures p < q && Upto(Ordered(dense, sparse, k, weight, weight), limit)[p].chunkId == y
  {
    var x := Upto(Ordered(dense, sparse, k, weight, weight), limit)[q].chunkId;
    OutputEntry(dense, sparse, k, weight, weight, limit, q);
    EntryOfDistinct(dense, sparse, k, weight, weight, x);
    EntryOfDistinct(dense, sparse, k, weight, weight, y);
    OneBeatsTwoPlaces(weight, k, LastRank(dense, |dense|, x), LastRank(sparse, |sparse|, x));
    p := Precedes(dense, sparse, k, weight, weight, limit, y, q);
  }
}
