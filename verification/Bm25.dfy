/** BM25 sparse retrieval (backend/app/retrieval/sparse.py): corpus statistics
    kept incrementally, and the scores computed from them. */
module Bm25 {
  import opened Hits
  import opened Sequences
  import opened Ordering

  const BM25_K1: real := 1.5
  const BM25_B: real := 0.75

  datatype Document<Id, Term(==), Meta> =
    Document(chunkId: Id, paperId: Id, length: nat, termFrequencies: multiset<Term>, metadata: Meta)

  type Documents<Id(==), Term(==), Meta> = map<Id, Document<Id, Term, Meta>>

  // ----------------------------------------------- statistics, from scratch

  /** The distinct terms of a `Counter`. */
  function Distinct<Term(==)>(terms: multiset<Term>): set<Term> {
    set t | t in terms
  }

  /** The documents that contain a term. */
  function Containing<Id, Term(==), Meta>(docs: Documents<Id, Term, Meta>, t: Term): set<Id> {
    set id | id in docs && t in docs[id].termFrequencies
  }

  function Vocabulary<Id, Term, Meta>(docs: Documents<Id, Term, Meta>): set<Term> {
    set id, t | id in docs && t in docs[id].termFrequencies :: t
  }

  function DocumentFrequency<Id, Term, Meta>(docs: Documents<Id, Term, Meta>): map<Term, int> {
    map t | t in Vocabulary(docs) :: |Containing(docs, t)|
  }

  ghost function TotalLength<Id, Term, Meta>(docs: Documents<Id, Term, Meta>): nat
    decreases |docs|
  {
    if docs == map[] then 0
    else
      var id :| id in docs;
      docs[id].length + TotalLength(docs - {id})
  }

  lemma {:induction false} TotalLengthRemove<Id, Term, Meta>(docs: Documents<Id, Term, Meta>, id: Id)
    requires id in docs
    ensures TotalLength(docs) == docs[id].length + TotalLength(docs - {id})
    decreases |docs|
  {
    var first :| first in docs && TotalLength(docs) == docs[first].length + TotalLength(docs - {first});
    if first != id {
      TotalLengthRemove(docs - {first}, id);
      TotalLengthRemove(docs - {id}, first);
      assert docs - {first} - {id} == docs - {id} - {first};
    }
  }

  /** How one document's departure changes a term's document frequency. */
  lemma FrequencyRemove<Id(!new), Term(!new), Meta>(docs: Documents<Id, Term, Meta>, id: Id, t: Term)
    requires id in docs
    ensures |Containing(docs, t)| == |Containing(docs - {id}, t)| + if t in docs[id].termFrequencies then 1 else 0
    ensures t in Vocabulary(docs) <==> |Containing(docs, t)| > 0
    ensures t in Vocabulary(docs - {id}) <==> |Containing(docs - {id}, t)| > 0
  {
    var rest := docs - {id};
    if t in docs[id].termFrequencies {
      assert Containing(docs, t) == Containing(rest, t) + {id};
    } else {
      assert Containing(docs, t) == Containing(rest, t);
    }
    VocabularyIsContained(docs, t);
    VocabularyIsContained(rest, t);
  }

  lemma VocabularyIsContained<Id(!new), Term(!new), Meta>(docs: Documents<Id, Term, Meta>, t: Term)
    ensures t in Vocabulary(docs) <==> |Containing(docs, t)| > 0
  {
    if t in Vocabulary(docs) {
      var id :| id in docs && t in docs[id].termFrequencies;
      assert id in Containing(docs, t);
    }
    if |Containing(docs, t)| > 0 {
      var id :| id in Containing(docs, t);
    }
  }

  lemma FrequencyAtMostCorpus<Id(!new), Term(!new), Meta>(docs: Documents<Id, Term, Meta>, t: Term)
    requires t in DocumentFrequency(docs)
    ensures 1 <= DocumentFrequency(docs)[t] <= |docs|
  {
    VocabularyIsContained(docs, t);
    SubsetSize(Containing(docs, t), docs.Keys);
  }

  ghost predicate WellFormed<Id, Term, Meta>(docs: Documents<Id, Term, Meta>) {
    forall id :: id in docs ==> docs[id].chunkId == id && docs[id].length == |docs[id].termFrequencies|
  }

  // ------------------------------------------- statistics after adding or removing

  /** Mid-way through removing a document: the terms still to do carry the old
      frequency, all others the new one. */
  ghost predicate BetweenFrequencies<Term(!new)>(before: map<Term, int>, after: map<Term, int>, todo: set<Term>,
                                                 now: map<Term, int>)
  {
    forall t ::
      && (t in now <==> if t in todo then t in before else t in after)
      && (t in now ==> now[t] == if t in todo then before[t] else after[t])
  }

  function Decrement<Term(==)>(frequency: map<Term, int>, t: Term): map<Term, int>
    requires t in frequency
  {
    if frequency[t] - 1 <= 0 then frequency - {t} else frequency[t := frequency[t] - 1]
  }

  lemma DecrementStep<Id(!new), Term(!new), Meta>(docs: Documents<Id, Term, Meta>, id: Id, todo: set<Term>,
                                                  now: map<Term, int>, t: Term)
    requires id in docs && t in docs[id].termFrequencies && t in todo
    requires BetweenFrequencies(DocumentFrequency(docs), DocumentFrequency(docs - {id}), todo, now)
    ensures t in now
    ensures BetweenFrequencies(DocumentFrequency(docs), DocumentFrequency(docs - {id}), todo - {t}, Decrement(now, t))
  {
    FrequencyRemove(docs, id, t);
    assert id in Containing(docs, t);
  }

  /** Before the loop: only the terms of the document itself have anything to do. */
  lemma FrequenciesStart<Id(!new), Term(!new), Meta>(docs: Documents<Id, Term, Meta>, id: Id)
    requires id in docs
    ensures BetweenFrequencies(DocumentFrequency(docs), DocumentFrequency(docs - {id}),
                               Distinct(docs[id].termFrequencies), DocumentFrequency(docs))
    ensures BetweenFrequencies(DocumentFrequency(docs - {id}), DocumentFrequency(docs),
                               Distinct(docs[id].termFrequencies), DocumentFrequency(docs - {id}))
  {
    forall t | t !in docs[id].termFrequencies
      ensures t in DocumentFrequency(docs) <==> t in DocumentFrequency(docs - {id})
      ensures t in DocumentFrequency(docs) ==> DocumentFrequency(docs)[t] == DocumentFrequency(docs - {id})[t]
    {
      FrequencyRemove(docs, id, t);
    }
  }

  lemma FrequenciesEnd<Term(!new)>(before: map<Term, int>, after: map<Term, int>, now: map<Term, int>)
    requires BetweenFrequencies(before, after, {}, now)
    ensures now == after
  {
    assert forall t :: t in now <==> t in after;
  }

  function Increment<Term(==)>(frequency: map<Term, int>, t: Term): map<Term, int> {
    frequency[t := (if t in frequency then frequency[t] else 0) + 1]
  }

  lemma IncrementStep<Id(!new), Term(!new), Meta>(docs: Documents<Id, Term, Meta>, id: Id, todo: set<Term>,
                                                  now: map<Term, int>, t: Term)
    requires id in docs && t in docs[id].termFrequencies && t in todo
    requires BetweenFrequencies(DocumentFrequency(docs - {id}), DocumentFrequency(docs), todo, now)
    ensures BetweenFrequencies(DocumentFrequency(docs - {id}), DocumentFrequency(docs), todo - {t}, Increment(now, t))
  {
    FrequencyRemove(docs, id, t);
  }

  // ------------------------------------------------------------------ scoring

  /** What is used of the logarithm: it is zero at one and strictly increasing. */
  ghost predicate IsLogarithm(ln: real -> real) {
    ln(1.0) == 0.0 && forall x, y :: 0.0 < x < y ==> ln(x) < ln(y)
  }

  /** The argument of the logarithm in the smoothed inverse document frequency. */
  function IdfArgument(frequency: int, corpusSize: int): real
    requires frequency >= 0
  {
    1.0 + ((corpusSize - frequency) as real + 0.5) / (frequency as real + 0.5)
  }

  /** The length-normalized denominator; the average length it divides by is only
      needed for a document that has terms, and is then positive. */
  function Denominator(termFrequency: int, length: int, averageLength: real): (d: real)
    requires termFrequency > 0 && length >= 0 && averageLength > 0.0
    ensures d > 0.0
  {
    var ratio := length as real / averageLength;
    assert ratio >= 0.0;
    termFrequency as real + BM25_K1 * (1.0 - BM25_B + BM25_B * ratio)
  }

  function TermScore(idf: real, termFrequency: int, length: int, averageLength: real): real
    requires termFrequency > 0 && length >= 0 && averageLength > 0.0
  {
    idf * (termFrequency as real * (BM25_K1 + 1.0)) / Denominator(termFrequency, length, averageLength)
  }

  /** The score of a document: one contribution per query term it contains. */
  function Score<Id, Term(==), Meta>(d: Document<Id, Term, Meta>, query: seq<Term>, idf: map<Term, real>,
                                     averageLength: real): real
    requires d.termFrequencies != multiset{} ==> averageLength > 0.0
    requires forall t :: t in query ==> t in idf
  {
    if query == [] then 0.0
    else
      var t := query[|query| - 1];
      Score(d, query[..|query| - 1], idf, averageLength)
      + if d.termFrequencies[t] == 0 then 0.0
        else TermScore(idf[t], d.termFrequencies[t], d.length, averageLength)
  }

  lemma ScoreMore<Id, Term, Meta>(d: Document<Id, Term, Meta>, query: seq<Term>, i: nat, idf: map<Term, real>,
                                  averageLength: real)
    requires d.termFrequencies != multiset{} ==> averageLength > 0.0
    requires i < |query| && forall t :: t in query ==> t in idf
    ensures Score(d, query[..i + 1], idf, averageLength)
         == Score(d, query[..i], idf, averageLength)
            + if d.termFrequencies[query[i]] == 0 then 0.0
              else TermScore(idf[query[i]], d.termFrequencies[query[i]], d.length, averageLength)
  {
    assert query[..i + 1][..i] == query[..i];
  }

  /** The statistics a search snapshots. */
  ghost predicate Snapshot<Id, Term(!new), Meta>(docs: Documents<Id, Term, Meta>, query: seq<Term>, ln: real -> real,
                                                 idf: map<Term, real>, averageLength: real) {
    && docs != map[]
    && averageLength == TotalLength(docs) as real / |docs| as real
    && idf.Keys == (set t | t in query)
    && forall t :: t in query ==>
         idf[t] == if t in DocumentFrequency(docs) then ln(IdfArgument(|Containing(docs, t)|, |docs|)) else 0.0
  }

  lemma IdfPositive(frequency: int, corpusSize: int, ln: real -> real)
    requires IsLogarithm(ln) && 1 <= frequency <= corpusSize
    ensures ln(IdfArgument(frequency, corpusSize)) > 0.0
  {
    var a, b := (corpusSize - frequency) as real + 0.5, frequency as real + 0.5;
    assert a / b > 0.0;
    assert ln(1.0) < ln(IdfArgument(frequency, corpusSize));
  }

  lemma QuotientShrinks(a: real, b: real, c: real, d: real)
    requires 0.0 < c < a && 0.0 < b < d
    ensures a / b > c / d
  {
    assert a / b > c / b;
    assert c / b > c / d;
  }

  /** Rarer terms weigh strictly more. */
  lemma RarerTermsWeighMore(rare: int, common: int, corpusSize: int, ln: real -> real)
    requires IsLogarithm(ln) && 1 <= rare < common <= corpusSize
    ensures ln(IdfArgument(rare, corpusSize)) > ln(IdfArgument(common, corpusSize)) > 0.0
  {
    IdfPositive(common, corpusSize, ln);
    QuotientShrinks((corpusSize - rare) as real + 0.5, rare as real + 0.5,
                    (corpusSize - common) as real + 0.5, common as real + 0.5);
    assert 0.0 < IdfArgument(common, corpusSize) < IdfArgument(rare, corpusSize);
  }

  lemma RatioPositive(a: int, b: int)
    requires a > 0 && b > 0
    ensures a as real / b as real > 0.0
  {
  }

  /** A document with any term at all makes the average length positive. */
  lemma AveragePositive<Id(!new), Term(!new), Meta>(docs: Documents<Id, Term, Meta>, id: Id)
    requires WellFormed(docs) && id in docs && docs[id].termFrequencies != multiset{}
    ensures TotalLength(docs) as real / |docs| as real > 0.0
  {
    TotalLengthRemove(docs, id);
    assert |docs[id].termFrequencies| > 0;
    RatioPositive(TotalLength(docs), |docs|);
  }

  lemma TermScorePositive(idf: real, termFrequency: int, length: int, averageLength: real)
    requires termFrequency > 0 && length >= 0 && averageLength > 0.0 && idf > 0.0
    ensures TermScore(idf, termFrequency, length, averageLength) > 0.0
  {
    var a := termFrequency as real * (BM25_K1 + 1.0);
    assert a > 0.0;
    assert idf * a > 0.0;
  }

  lemma IdfOfPresentTerm<Id(!new), Term(!new), Meta>(docs: Documents<Id, Term, Meta>, query: seq<Term>,
                                                     ln: real -> real, idf: map<Term, real>, averageLength: real,
                                                     id: Id, t: Term)
    requires IsLogarithm(ln) && Snapshot(docs, query, ln, idf, averageLength)
    requires id in docs && t in query && t in docs[id].termFrequencies
    ensures idf[t] > 0.0
  {
    assert id in Containing(docs, t);
    assert t in DocumentFrequency(docs);
    FrequencyAtMostCorpus(docs, t);
    IdfPositive(|Containing(docs, t)|, |docs|, ln);
  }

  /** A score is never negative, and it is positive exactly when the document
      contains a query term. */
  lemma {:induction false} ScorePositive<Id(!new), Term(!new), Meta>(
    docs: Documents<Id, Term, Meta>, id: Id, query: seq<Term>, part: seq<Term>, ln: real -> real,
    idf: map<Term, real>, averageLength: real)
    requires WellFormed(docs) && IsLogarithm(ln) && id in docs && Snapshot(docs, query, ln, idf, averageLength)
    requires docs[id].termFrequencies != multiset{} ==> averageLength > 0.0
    requires forall t :: t in part ==> t in query
    ensures Score(docs[id], part, idf, averageLength) >= 0.0
    ensures Score(docs[id], part, idf, averageLength) > 0.0 <==> exists t :: t in part && t in docs[id].termFrequencies
    decreases |part|
  {
    if part != [] {
      var rest, last := part[..|part| - 1], part[|part| - 1];
      assert part == rest + [last];
      ScorePositive(docs, id, query, rest, ln, idf, averageLength);
      if last in docs[id].termFrequencies {
        IdfOfPresentTerm(docs, query, ln, idf, averageLength, id, last);
        TermScorePositive(idf[last], docs[id].termFrequencies[last], docs[id].length, averageLength);
      }
    }
  }

  // ------------------------------------------------------------------ the index

  function ByScore<Id, Meta>(h: Hit<Id, Meta>): Key { Key(h.score, 0) }

  ghost predicate Matching<Id, Term(!new), Meta>(d: Document<Id, Term, Meta>, query: seq<Term>, matches: Meta -> bool) {
    matches(d.metadata) && exists t :: t in query && t in d.termFrequencies
  }

  ghost predicate Found<Id, Meta>(hits: seq<Hit<Id, Meta>>, id: Id) {
    exists i :: 0 <= i < |hits| && hits[i].chunkId == id
  }

  /** A hit for a matching document, carrying the score computed from the
      statistics of exactly these documents. */
  ghost predicate GoodHit<Id(!new), Term(!new), Meta>(
    h: Hit<Id, Meta>, docs: Documents<Id, Term, Meta>, query: seq<Term>, matches: Meta -> bool, ln: real -> real)
  {
    && h.chunkId in docs && Matching(docs[h.chunkId], query, matches)
    && h.paperId == docs[h.chunkId].paperId && h.metadata == docs[h.chunkId].metadata
    && h.score > 0.0 && ScoredBy(docs, docs[h.chunkId], query, ln, h.score)
  }

  /** One good hit for each matching document. */
  ghost predicate AllMatches<Id(!new), Term(!new), Meta>(
    hits: seq<Hit<Id, Meta>>, docs: Documents<Id, Term, Meta>, query: seq<Term>, matches: Meta -> bool,
    ln: real -> real)
  {
    && (forall i, j :: 0 <= i < j < |hits| ==> hits[i].chunkId != hits[j].chunkId)
    && (forall id :: id in docs && Matching(docs[id], query, matches) ==> Found(hits, id))
    && (forall i :: 0 <= i < |hits| ==> GoodHit(hits[i], docs, query, matches, ln))
  }

  /** All the hits there are, best score first, cut to the limit. */
  ghost predicate Searched<Id(!new), Term(!new), Meta(!new)>(
    hits: seq<Hit<Id, Meta>>, docs: Documents<Id, Term, Meta>, query: seq<Term>, limit: int, matches: Meta -> bool,
    ln: real -> real)
  {
    exists all :: AllMatches(all, docs, query, matches, ln) && hits == Upto(SortDescending(all, ByScore), limit)
  }

  /** Every hit is a good one, and none comes twice. */
  lemma SearchedIsSound<Id(!new), Term(!new), Meta(!new)>(
    hits: seq<Hit<Id, Meta>>, docs: Documents<Id, Term, Meta>, query: seq<Term>, limit: int, matches: Meta -> bool,
    ln: real -> real)
    requires Searched(hits, docs, query, limit, matches, ln)
    ensures DistinctBy(hits, ChunkOf) && (limit >= 0 ==> |hits| <= limit)
    ensures forall i :: 0 <= i < |hits| ==> GoodHit(hits[i], docs, query, matches, ln)
  {
    var all :| AllMatches(all, docs, query, matches, ln) && hits == Upto(SortDescending(all, ByScore), limit);
    TopIsSound(all, ByScore, ChunkOf, limit);
    forall i | 0 <= i < |hits| ensures GoodHit(hits[i], docs, query, matches, ln) {
      AllMatchesAreGood(all, hits[i], docs, query, matches, ln);
    }
  }

  /** A matching document is missing only if the limit is used up by documents that score
      at least as well. */
  lemma SearchIsComplete<Id(!new), Term(!new), Meta(!new)>(
    hits: seq<Hit<Id, Meta>>, docs: Documents<Id, Term, Meta>, query: seq<Term>, limit: nat, matches: Meta -> bool,
    ln: real -> real, id: Id)
    returns (score: real)
    requires Searched(hits, docs, query, limit, matches, ln) && id in docs && Matching(docs[id], query, matches)
    ensures score > 0.0 && ScoredBy(docs, docs[id], query, ln, score)
    ensures Found(hits, id) || (|hits| == limit && forall i :: 0 <= i < |hits| ==> hits[i].score >= score)
  {
    var all: seq<Hit<Id, Meta>> :|
      AllMatches(all, docs, query, matches, ln) && hits == Upto(SortDescending(all, ByScore), limit);
    var h := HitFor(all, docs, query, matches, ln, id);
    score := h.score;
    TopOfSorted(all, ByScore, limit, h);
    FoundOrOutscored(hits, h, limit);
  }

  lemma HitFor<Id(!new), Term(!new), Meta(!new)>(
    all: seq<Hit<Id, Meta>>, docs: Documents<Id, Term, Meta>, query: seq<Term>, matches: Meta -> bool,
    ln: real -> real, id: Id)
    returns (h: Hit<Id, Meta>)
    requires AllMatches(all, docs, query, matches, ln) && id in docs && Matching(docs[id], query, matches)
    ensures h in all && h.chunkId == id && GoodHit(h, docs, query, matches, ln)
  {
    assert Found(all, id);
    var j :| 0 <= j < |all| && all[j].chunkId == id;
    h := all[j];
  }

  lemma FoundOrOutscored<Id, Meta>(hits: seq<Hit<Id, Meta>>, h: Hit<Id, Meta>, limit: int)
    requires h in hits || Outscored(h, hits, limit)
    ensures Found(hits, h.chunkId) || (|hits| == limit && forall i :: 0 <= i < |hits| ==> hits[i].score >= h.score)
  {
    if h in hits {
      var i :| 0 <= i < |hits| && hits[i] == h;
    }
  }

  lemma AllMatchesAreGood<Id(!new), Term(!new), Meta(!new)>(
    all: seq<Hit<Id, Meta>>, h: Hit<Id, Meta>, docs: Documents<Id, Term, Meta>, query: seq<Term>, matches: Meta -> bool,
    ln: real -> real)
    requires AllMatches(all, docs, query, matches, ln) && h in all
    ensures GoodHit(h, docs, query, matches, ln)
  {
  }

  ghost predicate ScoredBy<Id, Term(!new), Meta>(docs: Documents<Id, Term, Meta>, d: Document<Id, Term, Meta>,
                                                 query: seq<Term>, ln: real -> real, score: real) {
    exists idf, averageLength ::
      && Snapshot(docs, query, ln, idf, averageLength) && averageLength > 0.0
      && score == Score(d, query, idf, averageLength)
  }

  lemma RemoveOneMore<K, V>(docs: map<K, V>, doomed: set<K>, todo: set<K>, key: K)
    requires key in todo && todo <= doomed
    ensures docs - (doomed - todo) - {key} == docs - (doomed - (todo - {key}))
  {
  }

  class BM25Index<Id(==, !new), Term(==, !new), Meta(!new)> {
    var documents: Documents<Id, Term, Meta>
    var documentFrequency: map<Term, int>
    var totalLength: int

    /** The incremental statistics are those of the current documents. */
    ghost predicate Valid()
      reads this
    {
      && WellFormed(documents)
      && documentFrequency == DocumentFrequency(documents)
      && totalLength == TotalLength(documents)
    }

    constructor ()
      ensures Valid() && documents == map[]
    {
      documents, documentFrequency, totalLength := map[], map[], 0;
    }

    method RemoveUnlocked(chunkId: Id) returns (removed: bool)
      requires Valid()
      modifies this
      ensures Valid() && documents == old(documents) - {chunkId} && removed == (chunkId in old(documents))
    {
      if chunkId !in documents { return false; }
      var existing := documents[chunkId];
      TotalLengthRemove(documents, chunkId);
      totalLength := totalLength - existing.length;
      Discount(existing.termFrequencies, documents, chunkId);
      documents := documents - {chunkId};
      return true;
    }

    /** The loop over a removed document's terms; a term that no longer appears is dropped. */
    method Discount(terms: multiset<Term>, ghost docs: Documents<Id, Term, Meta>, ghost id: Id)
      requires id in docs && terms == docs[id].termFrequencies && documentFrequency == DocumentFrequency(docs)
      modifies this`documentFrequency
      ensures documentFrequency == DocumentFrequency(docs - {id})
    {
      ghost var before, after := DocumentFrequency(docs), DocumentFrequency(docs - {id});
      FrequenciesStart(docs, id);
      var todo := Distinct(terms);
      while todo != {}
        invariant todo <= Distinct(terms)
        invariant BetweenFrequencies(before, after, todo, documentFrequency)
        decreases |todo|
      {
        var term :| term in todo;
        DecrementStep(docs, id, todo, documentFrequency, term);
        todo := todo - {term};
        documentFrequency := documentFrequency[term := documentFrequency[term] - 1];
        if documentFrequency[term] <= 0 {
          documentFrequency := documentFrequency - {term};
        }
      }
      FrequenciesEnd(before, after, documentFrequency);
    }

    /** Adding a chunk; re-adding one replaces it. */
    method Add(chunkId: Id, paperId: Id, tokens: seq<Term>, metadata: Meta)
      requires Valid()
      modifies this
      ensures Valid()
      ensures documents == old(documents)[chunkId := Document(chunkId, paperId, |tokens|, multiset(tokens), metadata)]
    {
      var frequencies := multiset(tokens);
      var _ := RemoveUnlocked(chunkId);
      ghost var before := documents;
      documents := documents[chunkId := Document(chunkId, paperId, |tokens|, frequencies, metadata)];
      assert documents - {chunkId} == before;
      TotalLengthRemove(documents, chunkId);
      totalLength := totalLength + |tokens|;
      Count(frequencies, documents, chunkId);
    }

    /** The loop over an added document's terms. */
    method Count(terms: multiset<Term>, ghost docs: Documents<Id, Term, Meta>, ghost id: Id)
      requires id in docs && terms == docs[id].termFrequencies && documentFrequency == DocumentFrequency(docs - {id})
      modifies this`documentFrequency
      ensures documentFrequency == DocumentFrequency(docs)
    {
      ghost var before, after := DocumentFrequency(docs - {id}), DocumentFrequency(docs);
      FrequenciesStart(docs, id);
      var todo := Distinct(terms);
      while todo != {}
        invariant todo <= Distinct(terms)
        invariant BetweenFrequencies(before, after, todo, documentFrequency)
        decreases |todo|
      {
        var term :| term in todo;
        IncrementStep(docs, id, todo, documentFrequency, term);
        todo := todo - {term};
        documentFrequency := Increment(documentFrequency, term);
      }
      FrequenciesEnd(before, after, documentFrequency);
    }

    method RemovePaper(paperId: Id) returns (count: nat)
      requires Valid()
      modifies this
      ensures Valid() && documents == old(documents) - OfPaper(old(documents), paperId)
      ensures count == |OfPaper(old(documents), paperId)|
    {
      ghost var docs := documents;
      var doomed := OfPaper(documents, paperId);
      var todo := doomed;
      while todo != {}
        invariant todo <= doomed && Valid() && documents == docs - (doomed - todo)
        decreases |todo|
      {
        var chunkId :| chunkId in todo;
        RemoveOneMore(docs, doomed, todo, chunkId);
        todo := todo - {chunkId};
        var _ := RemoveUnlocked(chunkId);
      }
      return |doomed|;
    }

    method Clear()
      modifies this
      ensures Valid() && documents == map[]
    {
      documents, documentFrequency, totalLength := map[], map[], 0;
    }

    /** The score of one document against a snapshot of the statistics. */
    method ScoreDocument(document: Document<Id, Term, Meta>, query: seq<Term>, idf: map<Term, real>,
                         averageLength: real)
      returns (score: real)
      requires document.termFrequencies != multiset{} ==> averageLength > 0.0
      requires forall t :: t in query ==> t in idf
      ensures score == Score(document, query, idf, averageLength)
    {
      score := 0.0;
      for i := 0 to |query|
        invariant score == Score(document, query[..i], idf, averageLength)
      {
        ScoreMore(document, query, i, idf, averageLength);
        var termFrequency := document.termFrequencies[query[i]];
        if termFrequency == 0 { continue; }
        score := score + TermScore(idf[query[i]], termFrequency, document.length, averageLength);
      }
      assert query[..|query|] == query;
    }

    /** One turn of the loop over the documents. */
    method Consider(all: seq<Hit<Id, Meta>>, order: seq<Id>, i: nat, query: seq<Term>, matches: Meta -> bool,
                    ghost ln: real -> real, idf: map<Term, real>, averageLength: real)
      returns (all': seq<Hit<Id, Meta>>)
      requires Valid() && IsLogarithm(ln) && i < |order| && order[i] in documents
               && Snapshot(documents, query, ln, idf, averageLength)
      requires forall j, k :: 0 <= j < k < |order| ==> order[j] != order[k]
      requires MatchesAmong(all, order[..i], documents, query, matches, ln)
      ensures MatchesAmong(all', order[..i + 1], documents, query, matches, ln)
    {
      TakeOne(order, i);
      var document := documents[order[i]];
      ScoreOfDocument(documents, order[i], query, ln, idf, averageLength);
      if !matches(document.metadata) {
        SkipDocument(all, order, i, documents, query, matches, ln);
        return all;
      }
      var score := ScoreDocument(document, query, idf, averageLength);
      if score > 0.0 {
        var hit := Hit(document.chunkId, document.paperId, score, document.metadata);
        assert ScoredBy(documents, document, query, ln, score);
        TakeDocument(all, order, i, documents, query, matches, ln, hit);
        return all + [hit];
      } else {
        SkipDocument(all, order, i, documents, query, matches, ln);
        return all;
      }
    }

    /** Every filter-matching document with at least one query term, best score
        first, cut to the limit; nothing else, and never a division by zero. */
    method Search(query: seq<Term>, limit: int, matches: Meta -> bool, ln: real -> real)
      returns (hits: seq<Hit<Id, Meta>>)
      requires Valid() && IsLogarithm(ln)
      ensures Searched(hits, documents, query, limit, matches, ln)
    {
      if query == [] || documents == map[] {
        NoMatches(documents, query, matches, ln);
        assert SortDescending<Hit<Id, Meta>>([], ByScore) == [];
        return [];
      }
      var corpusSize := |documents|;
      var averageLength := totalLength as real / corpusSize as real;
      var idf := map t | t in query ::
        if t in documentFrequency then ln(IdfArgument(FrequencyOf(t), corpusSize)) else 0.0;
      assert Snapshot(documents, query, ln, idf, averageLength);
      var order := IterationOrder(documents);
      var all: seq<Hit<Id, Meta>> := [];
      for i := 0 to |order|
        invariant MatchesAmong(all, order[..i], documents, query, matches, ln)
      {
        all := Consider(all, order, i, query, matches, ln, idf, averageLength);
      }
      assert order[..|order|] == order;
      AllMatched(all, order, documents, query, matches, ln);
      return Upto(SortDescending(all, ByScore), limit);
    }

    function FrequencyOf(t: Term): (n: nat)
      requires Valid() && t in documentFrequency
      reads this
      ensures n == |Containing(documents, t)|
    {
      documentFrequency[t]
    }
  }

  lemma ScoreOfDocument<Id(!new), Term(!new), Meta>(
    docs: Documents<Id, Term, Meta>, id: Id, query: seq<Term>, ln: real -> real, idf: map<Term, real>,
    averageLength: real)
    requires WellFormed(docs) && IsLogarithm(ln) && id in docs && Snapshot(docs, query, ln, idf, averageLength)
    ensures docs[id].termFrequencies != multiset{} ==> averageLength > 0.0
    ensures Score(docs[id], query, idf, averageLength) > 0.0 <==>
              exists t :: t in query && t in docs[id].termFrequencies
    ensures Score(docs[id], query, idf, averageLength) > 0.0 ==> averageLength > 0.0
  {
    if docs[id].termFrequencies != multiset{} { AveragePositive(docs, id); }
    ScorePositive(docs, id, query, query, ln, idf, averageLength);
  }

  /** The hits so far are those of the documents visited so far. */
  ghost predicate MatchesAmong<Id(!new), Term(!new), Meta>(
    hits: seq<Hit<Id, Meta>>, visited: seq<Id>, docs: Documents<Id, Term, Meta>, query: seq<Term>,
    matches: Meta -> bool, ln: real -> real)
  {
    && (forall i, j :: 0 <= i < j < |hits| ==> hits[i].chunkId != hits[j].chunkId)
    && (forall id :: id in visited && id in docs && Matching(docs[id], query, matches) ==> Found(hits, id))
    && (forall i :: 0 <= i < |hits| ==> hits[i].chunkId in visited && GoodHit(hits[i], docs, query, matches, ln))
  }

  lemma TakeDocument<Id(!new), Term(!new), Meta>(
    hits: seq<Hit<Id, Meta>>, order: seq<Id>, i: nat, docs: Documents<Id, Term, Meta>, query: seq<Term>,
    matches: Meta -> bool, ln: real -> real, hit: Hit<Id, Meta>)
    requires i < |order| && forall j, k :: 0 <= j < k < |order| ==> order[j] != order[k]
    requires MatchesAmong(hits, order[..i], docs, query, matches, ln)
    requires hit.chunkId == order[i] && GoodHit(hit, docs, query, matches, ln)
    ensures MatchesAmong(hits + [hit], order[..i + 1], docs, query, matches, ln)
  {
    TakeOne(order, i);
    var hits' := hits + [hit];
    forall id | id in order[..i + 1] && id in docs && Matching(docs[id], query, matches) ensures Found(hits', id) {
      if id == order[i] {
        assert hits'[|hits|].chunkId == id;
      } else {
        assert Found(hits, id);
        var j :| 0 <= j < |hits| && hits[j].chunkId == id;
        assert hits'[j].chunkId == id;
      }
    }
  }

  lemma SkipDocument<Id(!new), Term(!new), Meta>(
    hits: seq<Hit<Id, Meta>>, order: seq<Id>, i: nat, docs: Documents<Id, Term, Meta>, query: seq<Term>,
    matches: Meta -> bool, ln: real -> real)
    requires i < |order| && MatchesAmong(hits, order[..i], docs, query, matches, ln)
    requires order[i] in docs && !Matching(docs[order[i]], query, matches)
    ensures MatchesAmong(hits, order[..i + 1], docs, query, matches, ln)
  {
    TakeOne(order, i);
  }

  lemma AllMatched<Id(!new), Term(!new), Meta>(
    hits: seq<Hit<Id, Meta>>, order: seq<Id>, docs: Documents<Id, Term, Meta>, query: seq<Term>,
    matches: Meta -> bool, ln: real -> real)
    requires MatchesAmong(hits, order, docs, query, matches, ln)
    requires forall id :: id in docs ==> id in order
    ensures AllMatches(hits, docs, query, matches, ln)
  {
  }

  lemma NoMatches<Id(!new), Term(!new), Meta>(docs: Documents<Id, Term, Meta>, query: seq<Term>, matches: Meta -> bool,
                                              ln: real -> real)
    requires query == [] || docs == map[]
    ensures AllMatches([], docs, query, matches, ln)
  {
  }

  function OfPaper<Id(==), Term, Meta>(docs: Documents<Id, Term, Meta>, paperId: Id): set<Id> {
    set id | id in docs && docs[id].paperId == paperId
  }

  // ---------------------------------------------------------- whole histories

  /** One update of the index. */
  datatype Update<Id, Term, Meta> =
    | AddChunk(chunkId: Id, paperId: Id, tokens: seq<Term>, metadata: Meta)
    | DropPaper(paperId: Id)
    | ClearAll

  /** The documents a history of updates leaves behind. */
  function Surviving<Id(==), Term(==), Meta>(history: seq<Update<Id, Term, Meta>>): Documents<Id, Term, Meta> {
    if history == [] then map[]
    else
      var docs := Surviving(history[..|history| - 1]);
      match history[|history| - 1]
      case AddChunk(c, p, tokens, m) => docs[c := Document(c, p, |tokens|, multiset(tokens), m)]
      case DropPaper(p) => docs - OfPaper(docs, p)
      case ClearAll => map[]
  }

  /** The update undoes the presence of a chunk that was added for this paper. */
  predicate Displaces<Id(==), Term, Meta>(u: Update<Id, Term, Meta>, chunkId: Id, paperId: Id) {
    match u
    case AddChunk(c, _, _, _) => c == chunkId
    case DropPaper(p) => p == paperId
    case ClearAll => true
  }

  /** A chunk survives exactly through its last addition, if nothing after it
      re-added the chunk, dropped its paper or cleared the index. */
  ghost predicate AddedLast<Id(!new), Term, Meta>(history: seq<Update<Id, Term, Meta>>, chunkId: Id, i: nat) {
    && i < |history| && history[i].AddChunk? && history[i].chunkId == chunkId
    && forall j :: i < j < |history| ==> !Displaces(history[j], chunkId, history[i].paperId)
  }

  lemma {:induction false} SurvivorWasAddedLast<Id(!new), Term, Meta>(history: seq<Update<Id, Term, Meta>>, chunkId: Id)
    ensures chunkId in Surviving(history) ==>
              exists i: nat :: AddedLast(history, chunkId, i)
                          && Surviving(history)[chunkId] == Document(chunkId, history[i].paperId, |history[i].tokens|,
                                                                     multiset(history[i].tokens), history[i].metadata)
  {
    if history != [] && chunkId in Surviving(history) {
      var last := |history| - 1;
      if history[last].AddChunk? && history[last].chunkId == chunkId {
        assert AddedLast(history, chunkId, last);
      } else {
        var rest := history[..last];
        SurvivorWasAddedLast(rest, chunkId);
        var i: nat :| AddedLast(rest, chunkId, i)
          && Surviving(rest)[chunkId] ==
               Document(chunkId, rest[i].paperId, |rest[i].tokens|, multiset(rest[i].tokens), rest[i].metadata);
        assert rest[i] == history[i];
        forall j | i < j < |history| ensures !Displaces(history[j], chunkId, history[i].paperId) {
          if j < last { assert rest[j] == history[j]; }
        }
        assert AddedLast(history, chunkId, i);
      }
    }
  }

  lemma {:induction false} AddedLastSurvives<Id(!new), Term, Meta>(history: seq<Update<Id, Term, Meta>>, chunkId: Id,
                                                                   i: nat)
    requires AddedLast(history, chunkId, i)
    ensures chunkId in Surviving(history)
    ensures Surviving(history)[chunkId].paperId == history[i].paperId
    decreases |history|
  {
    var last := |history| - 1;
    if i < last {
      var rest := history[..last];
      assert AddedLast(rest, chunkId, i) by {
        forall j | i < j < |rest| ensures !Displaces(rest[j], chunkId, rest[i].paperId) {
          assert rest[j] == history[j];
        }
      }
      AddedLastSurvives(rest, chunkId, i);
      assert !Displaces(history[last], chunkId, history[i].paperId);
    }
  }

  /** Running any history on a fresh index: the documents are the survivors, and
      the incrementally kept statistics are those of the survivors, so they depend
      on nothing else about the history or its order. */
  method Replay<Id(==, !new), Term(==, !new), Meta(!new)>(history: seq<Update<Id, Term, Meta>>)
    returns (index: BM25Index<Id, Term, Meta>)
    ensures fresh(index) && index.Valid() && index.documents == Surviving(history)
    ensures index.documentFrequency == DocumentFrequency(Surviving(history))
    ensures index.totalLength == TotalLength(Surviving(history))
  {
    index := new BM25Index();
    for i := 0 to |history|
      invariant fresh(index) && index.Valid() && index.documents == Surviving(history[..i])
    {
      assert history[..i + 1][..i] == history[..i];
      match history[i] {
        case AddChunk(c, p, tokens, m) => index.Add(c, p, tokens, m);
        case DropPaper(p) => var _ := index.RemovePaper(p);
        case ClearAll => index.Clear();
      }
    }
    assert history[..|history|] == history;
  }

  /** The rows are exactly these documents, each once. */
  ghost predicate Lists<Id, Term, Meta>(rows: seq<Document<Id, Term, Meta>>, docs: Documents<Id, Term, Meta>) {
    && (forall i :: 0 <= i < |rows| ==> rows[i].chunkId in docs && docs[rows[i].chunkId] == rows[i])
    && (forall id :: id in docs ==> docs[id] in rows && docs[id].chunkId == id)
  }

  /** The rebuild at start-up, or on request: clear, read the rows, add them one by one.
      It may be cut short anywhere after the clear; `fuel` steps are taken before that,
      the first of them the query. */
  method RebuildSparseIndex<Id(==, !new), Term(==, !new), Meta(!new)>(
    index: BM25Index<Id, Term, Meta>, rows: seq<Document<Id, Term, Meta>>, texts: seq<seq<Term>>, fuel: nat)
    returns (count: nat, completed: bool)
    requires |rows| == |texts|
    requires forall i, j :: 0 <= i < j < |rows| ==> rows[i].chunkId != rows[j].chunkId
    requires forall i :: 0 <= i < |rows| ==>
               rows[i].length == |texts[i]| && rows[i].termFrequencies == multiset(texts[i])
    modifies index
    ensures index.Valid() && count <= |rows| && Lists(rows[..count], index.documents)
    ensures completed <==> fuel > |rows|
    ensures count == if completed then |rows| else if fuel == 0 then 0 else fuel - 1
  {
    index.Clear();
    if fuel == 0 { return 0, false; }
    for i := 0 to |rows|
      invariant index.Valid() && Lists(rows[..i], index.documents) && i < fuel
    {
      if i + 1 == fuel { return i, false; }
      TakeOne(rows, i);
      index.Add(rows[i].chunkId, rows[i].paperId, texts[i], rows[i].metadata);
    }
    return |rows|, true;
  }

  /** The rows determine the rebuilt index: rebuilding from a listing of what an
      index holds, after any history, gives back the same documents and statistics. */
  lemma RebuildEqualsIncremental<Id(!new), Term(!new), Meta>(
    rows: seq<Document<Id, Term, Meta>>, history: seq<Update<Id, Term, Meta>>, rebuilt: Documents<Id, Term, Meta>)
    requires Lists(rows, Surviving(history)) && Lists(rows, rebuilt)
    ensures rebuilt == Surviving(history)
    ensures DocumentFrequency(rebuilt) == DocumentFrequency(Surviving(history))
    ensures TotalLength(rebuilt) == TotalLength(Surviving(history))
  {
    var docs := Surviving(history);
    forall id | id in docs ensures id in rebuilt && rebuilt[id] == docs[id] {
      var i :| 0 <= i < |rows| && rows[i] == docs[id];
    }
    forall id | id in rebuilt ensures id in docs {
      var i :| 0 <= i < |rows| && rows[i] == rebuilt[id];
    }
    assert rebuilt == docs;
  }

  /** A process that starts again from the rows is where the one before it was, whatever
      that one had been through. */
  method RestartFromRows<Id(==, !new), Term(==, !new), Meta(!new)>(
    history: seq<Update<Id, Term, Meta>>, rows: seq<Document<Id, Term, Meta>>, texts: seq<seq<Term>>)
    returns (before: BM25Index<Id, Term, Meta>, after: BM25Index<Id, Term, Meta>)
    requires |rows| == |texts| && Lists(rows, Surviving(history))
    requires forall i, j :: 0 <= i < j < |rows| ==> rows[i].chunkId != rows[j].chunkId
    requires forall i :: 0 <= i < |rows| ==>
               rows[i].length == |texts[i]| && rows[i].termFrequencies == multiset(texts[i])
    ensures before.Valid() && after.Valid() && before.documents == after.documents == Surviving(history)
    ensures before.documentFrequency == after.documentFrequency && before.totalLength == after.totalLength
  {
    before := Replay(history);
    after := new BM25Index();
    var _, completed := RebuildSparseIndex(after, rows, texts, |rows| + 1);
    assert completed && rows[..|rows|] == rows;
    RebuildEqualsIncremental(rows, history, after.documents);
  }
}
