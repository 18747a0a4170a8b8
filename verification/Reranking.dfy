/** Reordering candidates by a second score (backend/app/retrieval/reranker.py,
    `Reranker.rerank`). What scores them is a parameter. */
module Reranking {
  import opened Options
  import opened Ordering

  datatype Candidate<Id, T> = Candidate(chunkId: Id, text: T, originalScore: real)

  datatype RerankResult<Id> = RerankResult(chunkId: Id, score: real, originalRank: nat, newRank: nat)

  /** A candidate's position and score. */
  datatype Item = Item(index: nat, score: real)

  function ByItemScore(item: Item): Key { Key(item.score, 0) }

  function IndexOf(item: Item): int { item.index }

  function Items(scores: seq<real>): (r: seq<Item>)
    ensures |r| == |scores| && forall i :: 0 <= i < |r| ==> r[i] == Item(i, scores[i])
  {
    seq(|scores|, i requires 0 <= i < |scores| => Item(i, scores[i]))
  }

  function Ranking(scores: seq<real>): seq<Item> {
    SortDescending(Items(scores), ByItemScore)
  }

  /** Before another: a greater score, or the same score and an earlier position. */
  predicate Beats(a: Item, b: Item) {
    a.score > b.score || (a.score == b.score && a.index < b.index)
  }

  /** The ranking lists every position once, with its score, each beating all that follow. */
  lemma RankingIs(scores: seq<real>)
    ensures var r := Ranking(scores);
            && |r| == |scores|
            && (forall i :: 0 <= i < |r| ==> r[i].index < |scores| && r[i].score == scores[r[i].index])
            && (forall p :: 0 <= p < |scores| ==> Item(p, scores[p]) in r)
            && (forall i, j :: 0 <= i < j < |r| ==> Beats(r[i], r[j]))
  {
    var items, r := Items(scores), Ranking(scores);
    SortSpec(items, ByItemScore);
    forall i, j | 0 <= i < j < |items| ensures IndexOf(items[i]) < IndexOf(items[j]) {}
    SortKeepsTies(items, ByItemScore, IndexOf);
    forall i | 0 <= i < |r| ensures r[i].index < |scores| && r[i].score == scores[r[i].index] {
      assert r[i] in r;
    }
    forall p | 0 <= p < |scores| ensures Item(p, scores[p]) in r {
      assert items[p] in items;
    }
    forall i, j | 0 <= i < j < |r| ensures Beats(r[i], r[j]) {
      assert !ByItemScore(r[j]).Above(ByItemScore(r[i]));
      assert ByItemScore(r[i]) == ByItemScore(r[j]) ==> IndexOf(r[i]) < IndexOf(r[j]);
    }
  }

  function Results<Id, T>(candidates: seq<Candidate<Id, T>>, order: seq<Item>): (r: seq<RerankResult<Id>>)
    requires forall i :: 0 <= i < |order| ==> order[i].index < |candidates|
    ensures |r| == |order|
    ensures forall i :: 0 <= i < |r| ==>
              r[i] == RerankResult(candidates[order[i].index].chunkId, order[i].score, order[i].index + 1, i + 1)
  {
    seq(|order|, i requires 0 <= i < |order| =>
      RerankResult(candidates[order[i].index].chunkId, order[i].score, order[i].index + 1, i + 1))
  }

  /** `xs[:limit] if limit else xs`. */
  function UptoIf<T>(xs: seq<T>, limit: Option<int>): (r: seq<T>)
    ensures |r| <= |xs| && r == xs[..|r|]
    ensures limit.Some? && limit.value > 0 ==> |r| == if limit.value < |xs| then limit.value else |xs|
  {
    if limit.Some? && limit.value != 0 then Upto(xs, limit.value) else xs
  }

  /** `None` when there is not one score per candidate, which raises. */
  method Rerank<Id, T>(candidates: seq<Candidate<Id, T>>, score: seq<Candidate<Id, T>> -> seq<real>, limit: Option<int>)
    returns (r: Option<seq<RerankResult<Id>>>)
    ensures r.None? <==> candidates != [] && |score(candidates)| != |candidates|
    ensures r.Some? && candidates == [] ==> r.value == []
    ensures r.Some? && candidates != [] ==>
              && (forall i :: 0 <= i < |Ranking(score(candidates))| ==>
                    Ranking(score(candidates))[i].index < |candidates|)
              && r.value == UptoIf(Results(candidates, Ranking(score(candidates))), limit)
  {
    if candidates == [] { return Some([]); }
    var scores := score(candidates);
    if |scores| != |candidates| { return None; }
    RankingIs(scores);
    return Some(UptoIf(Results(candidates, Ranking(scores)), limit));
  }

  // ------------------------------------------------------------- no reranking

  /** The scores of the reranker that does nothing. */
  function Descents(n: nat): (r: seq<real>)
    ensures |r| == n
  {
    seq(n, i => (n - i) as real)
  }

  /** It keeps the incoming order exactly. */
  lemma NoOpKeepsOrder(n: nat)
    ensures Ranking(Descents(n)) == Items(Descents(n))
  {
    DescendingIsSorted(Items(Descents(n)), ByItemScore);
  }

  lemma {:induction false} DescendingIsSorted<T(!new)>(xs: seq<T>, key: T -> Key)
    requires Descending(xs, key)
    ensures SortDescending(xs, key) == xs
  {
    if xs != [] {
      DescendingIsSorted(xs[1..], key);
      assert |xs| > 1 ==> !key(xs[1]).Above(key(xs[0]));
    }
  }
}
