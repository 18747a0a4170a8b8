/** The retrieval pipeline: filter, search densely and sparsely, fuse, load, rerank
    (backend/app/retrieval/service.py). */
module Retrieval {
  import opened Options
  import opened Ordering
  import opened Hits
  import opened VectorStores
  import Bm25
  import opened Fusion
  import opened Reranking

  const CANDIDATE_MULTIPLIER: int := 4
  const MAX_CANDIDATES: int := 200

  datatype ChunkRow<Id, T> =
    ChunkRow(paperId: Id, chunkIndex: nat, content: T, sectionPath: Option<T>, pageNumber: Option<int>, kind: T)

  datatype PaperRow<Id, T> = PaperRow(workspaceId: Id, title: Option<T>)

  datatype Database<Id(==), T> = Database(papers: map<Id, PaperRow<Id, T>>, chunks: map<Id, ChunkRow<Id, T>>)

  datatype RetrievalFilters<Id, T> = RetrievalFilters(paperIds: seq<Id>, kinds: seq<T>, sections: seq<T>)

  datatype RetrievedChunk<Id, T> =
    RetrievedChunk(chunkId: Id, paperId: Id, paperTitle: Option<T>, content: T, sectionPath: Option<T>,
                   pageNumber: Option<int>, kind: T, score: real, denseRank: Option<nat>, sparseRank: Option<nat>,
                   rerankScore: Option<real>, supportingSentences: seq<T>)

  /** What the pipeline calls into: the score a reranker gives each candidate, the
      sentences of a passage that support the query, and SQL's case-insensitive
      substring match of a section path. */
  datatype Tools<!Id, !T> =
    Tools(score: seq<Candidate<Id, T>> -> seq<real>, support: T -> seq<T>, inSection: (T, T) -> bool)

  // --------------------------------------------------------------- the filters

  /** Papers the caller may see, narrowed by the paper filter. */
  function AllowedPapers<Id(==), T>(db: Database<Id, T>, owned: set<Id>, filters: RetrievalFilters<Id, T>): set<Id> {
    set p | p in db.papers && db.papers[p].workspaceId in owned && (filters.paperIds == [] || p in filters.paperIds)
  }

  function AnyText<Id, T>(texts: seq<T>): Expected<Id, T> {
    AnyOf(seq(|texts|, i requires 0 <= i < |texts| => Some(OfText(texts[i]))))
  }

  function AnyId<Id, T>(ids: seq<Id>): Expected<Id, T> {
    AnyOf(seq(|ids|, i requires 0 <= i < |ids| => Some(OfId(ids[i]))))
  }

  function MetadataFilters<Id(==), T(==)>(allowed: seq<Id>, filters: RetrievalFilters<Id, T>): Filters<Id, T> {
    (if filters.kinds != [] then map[KindField := AnyText(filters.kinds)] else map[])[PaperIdField := AnyId(allowed)]
  }

  /** Four times as many candidates as asked for, so that reranking can recover a missed one,
      but never more than 200, and a negative limit as it is. */
  function CandidateCount(limit: int): (n: int)
    ensures limit >= 0 ==> n == if 4 * limit <= 200 then 4 * limit else 200
    ensures limit < 0 ==> n == limit
  {
    var wanted := if limit * CANDIDATE_MULTIPLIER > limit then limit * CANDIDATE_MULTIPLIER else limit;
    if wanted < MAX_CANDIDATES then wanted else MAX_CANDIDATES
  }

  // ------------------------------------------------------------------- loading

  /** The rows the database returns for these chunks: live, of a live paper, in a wanted section. */
  predicate Loads<Id(==), T(==)>(db: Database<Id, T>, filters: RetrievalFilters<Id, T>, inSection: (T, T) -> bool,
                                 id: Id)
  {
    && id in db.chunks && db.chunks[id].paperId in db.papers
    && (filters.sections == [] || InSomeSection(db.chunks[id].sectionPath, filters.sections, inSection))
  }

  predicate InSomeSection<T(==)>(path: Option<T>, sections: seq<T>, inSection: (T, T) -> bool) {
    path.Some? && exists i :: 0 <= i < |sections| && inSection(path.value, sections[i])
  }

  function Loaded<Id(==), T(==)>(db: Database<Id, T>, filters: RetrievalFilters<Id, T>, inSection: (T, T) -> bool)
    : FusedHit<Id, Field, Value<Id, T>> -> bool
  {
    (h: FusedHit<Id, Field, Value<Id, T>>) => Loads(db, filters, inSection, h.chunkId)
  }

  function Joined<Id, T>(h: FusedHit<Id, Field, Value<Id, T>>, db: Database<Id, T>): RetrievedChunk<Id, T>
    requires h.chunkId in db.chunks && db.chunks[h.chunkId].paperId in db.papers
  {
    var row := db.chunks[h.chunkId];
    RetrievedChunk(h.chunkId, h.paperId, db.papers[row.paperId].title, row.content, row.sectionPath,
                   row.pageNumber, row.kind, h.score, h.denseRank, h.sparseRank, None, [])
  }

  /** The fused hits that still have a row, with it, in fused order. */
  function Survivors<Id(==, !new), T(==, !new)>(fused: seq<FusedHit<Id, Field, Value<Id, T>>>, db: Database<Id, T>,
                                                filters: RetrievalFilters<Id, T>, inSection: (T, T) -> bool)
    : (r: seq<RetrievedChunk<Id, T>>)
  {
    var kept := Filter(fused, Loaded(db, filters, inSection));
    FilterMembers(fused, Loaded(db, filters, inSection));
    assert forall i :: 0 <= i < |kept| ==> kept[i] in kept;
    seq(|kept|, i requires 0 <= i < |kept| => Joined(kept[i], db))
  }

  function CandidatesOf<Id, T>(results: seq<RetrievedChunk<Id, T>>): (r: seq<Candidate<Id, T>>)
    ensures |r| == |results|
  {
    seq(|results|, i requires 0 <= i < |results| => Candidate(results[i].chunkId, results[i].content, results[i].score))
  }

  // ----------------------------------------------------------------- reranking

  function RetrievedId<Id, T>(c: RetrievedChunk<Id, T>): Id { c.chunkId }

  /** The results in the order of a ranking of their positions, each with its new score. */
  function Reordered<Id, T>(results: seq<RetrievedChunk<Id, T>>, order: seq<Item>): (r: seq<RetrievedChunk<Id, T>>)
    requires forall i :: 0 <= i < |order| ==> order[i].index < |results|
    ensures |r| == |order|
    ensures forall i :: 0 <= i < |r| ==> r[i] == results[order[i].index].(rerankScore := Some(order[i].score))
  {
    seq(|order|, i requires 0 <= i < |order| => results[order[i].index].(rerankScore := Some(order[i].score)))
  }

  ghost predicate RerankedBy<Id, T>(r: seq<RetrievedChunk<Id, T>>, results: seq<RetrievedChunk<Id, T>>,
                                    scores: seq<real>, limit: int)
  {
    && |scores| == |results|
    && (forall i :: 0 <= i < |Ranking(scores)| ==> Ranking(scores)[i].index < |results|)
    && r == UptoIf(Reordered(results, Ranking(scores)), Some(limit))
  }

  function ById<Id(==), T>(results: seq<RetrievedChunk<Id, T>>): (m: map<Id, RetrievedChunk<Id, T>>)
    ensures forall i :: 0 <= i < |results| ==> results[i].chunkId in m
    ensures DistinctBy(results, RetrievedId) ==> forall i :: 0 <= i < |results| ==> m[results[i].chunkId] == results[i]
  {
    if results == [] then map[]
    else ById(results[..|results| - 1])[results[|results| - 1].chunkId := results[|results| - 1]]
  }

  method ApplyReranker<Id(==), T>(results: seq<RetrievedChunk<Id, T>>, score: seq<Candidate<Id, T>> -> seq<real>,
                                  limit: int)
    returns (r: Option<seq<RetrievedChunk<Id, T>>>)
    requires DistinctBy(results, RetrievedId) && results != []
    ensures r.None? <==> |score(CandidatesOf(results))| != |results|
    ensures r.Some? ==> RerankedBy(r.value, results, score(CandidatesOf(results)), limit)
  {
    var candidates := CandidatesOf(results);
    var ranked := Rerank(candidates, score, Some(limit));
    if ranked.None? { return None; }
    var byId := ById(results);
    ghost var order := Ranking(score(candidates));
    var reordered: seq<RetrievedChunk<Id, T>> := [];
    for i := 0 to |ranked.value|
      invariant reordered == Reordered(results, order)[..i]
    {
      var entry := ranked.value[i];
      assert entry == Results(candidates, order)[i];
      assert entry.chunkId == results[order[i].index].chunkId;
      var result := byId[entry.chunkId];
      reordered := reordered + [result.(rerankScore := Some(entry.score))];
    }
    assert UptoIf(Reordered(results, order), Some(limit)) == Reordered(results, order)[..|ranked.value|];
    return Some(reordered);
  }

  // ------------------------------------------------------- who may see what

  /** The metadata stored with a chunk name its paper and its kind. */
  ghost predicate Describes<Id, T>(metadata: Metadata<Id, T>, row: ChunkRow<Id, T>) {
    Get(metadata, PaperIdField) == Some(OfId(row.paperId)) && Get(metadata, KindField) == Some(OfText(row.kind))
  }

  /** Both indexes, where they have a chunk that still has a row, say of it what the row says. */
  ghost predicate Faithful<Id(!new), T(!new), Term(!new)>(
    records: Records<Id, T>, docs: Bm25.Documents<Id, Term, Metadata<Id, T>>, db: Database<Id, T>)
  {
    forall id :: id in db.chunks ==>
      && (id in records ==>
            records[id].paperId == db.chunks[id].paperId && Describes(records[id].metadata, db.chunks[id]))
      && (id in docs ==> docs[id].paperId == db.chunks[id].paperId && Describes(docs[id].metadata, db.chunks[id]))
  }

  /** A chunk in an allowed paper, of an allowed kind, if it has a row at all. */
  ghost predicate Permitted<Id, T>(id: Id, db: Database<Id, T>, allowed: seq<Id>, filters: RetrievalFilters<Id, T>) {
    id in db.chunks ==> db.chunks[id].paperId in allowed && (filters.kinds == [] || db.chunks[id].kind in filters.kinds)
  }

  lemma AdmittedIsPermitted<Id, T>(metadata: Metadata<Id, T>, id: Id, db: Database<Id, T>, allowed: seq<Id>,
                                   filters: RetrievalFilters<Id, T>)
    requires id in db.chunks ==> Describes(metadata, db.chunks[id])
    requires Admits(MetadataFilters(allowed, filters), metadata)
    ensures Permitted(id, db, allowed, filters)
  {
    if id in db.chunks {
      var all := MetadataFilters(allowed, filters);
      assert Accepts(all[PaperIdField], Get(metadata, PaperIdField));
      var i :| 0 <= i < |allowed| && Some(OfId(allowed[i])) == Get(metadata, PaperIdField);
      if filters.kinds != [] {
        assert Accepts(all[KindField], Get(metadata, KindField));
        var j :| 0 <= j < |filters.kinds| && Some(OfText(filters.kinds[j])) == Get(metadata, KindField);
      }
    }
  }

  /** What a hit must be for the fused list to be trusted with it. */
  ghost predicate Trusted<Id, T>(h: Hit<Id, Metadata<Id, T>>, db: Database<Id, T>, allowed: seq<Id>,
                                 filters: RetrievalFilters<Id, T>)
  {
    Permitted(h.chunkId, db, allowed, filters) && RightPaper(db)(h.chunkId, h.paperId)
  }

  ghost function RightPaper<Id, T>(db: Database<Id, T>): (Id, Id) -> bool {
    (id: Id, paperId: Id) => id in db.chunks ==> paperId == db.chunks[id].paperId
  }

  lemma DenseIsTrusted<Id(!new), T(!new), Term(!new)>(
    h: Hit<Id, Metadata<Id, T>>, records: Records<Id, T>, docs: Bm25.Documents<Id, Term, Metadata<Id, T>>,
    db: Database<Id, T>, vector: seq<real>, allowed: seq<Id>, filters: RetrievalFilters<Id, T>)
    requires Faithful(records, docs, db) && IsHit(h, records, vector, MetadataFilters(allowed, filters))
    ensures Trusted(h, db, allowed, filters)
  {
    AdmittedIsPermitted(records[h.chunkId].metadata, h.chunkId, db, allowed, filters);
  }

  function Admitting<Id(==), T(==)>(filters: Filters<Id, T>): Metadata<Id, T> -> bool {
    (metadata: Metadata<Id, T>) => Admits(filters, metadata)
  }

  lemma SparseIsTrusted<Id(!new), T(!new), Term(!new)>(
    h: Hit<Id, Metadata<Id, T>>, records: Records<Id, T>, docs: Bm25.Documents<Id, Term, Metadata<Id, T>>,
    db: Database<Id, T>, terms: seq<Term>, allowed: seq<Id>, filters: RetrievalFilters<Id, T>, ln: real -> real)
    requires Faithful(records, docs, db)
    requires Bm25.GoodHit(h, docs, terms, Admitting(MetadataFilters(allowed, filters)), ln)
    ensures Trusted(h, db, allowed, filters)
  {
    AdmittedIsPermitted(docs[h.chunkId].metadata, h.chunkId, db, allowed, filters);
  }

  ghost predicate AllTrusted<Id, T>(hits: seq<Hit<Id, Metadata<Id, T>>>, db: Database<Id, T>, allowed: seq<Id>,
                                    filters: RetrievalFilters<Id, T>)
  {
    forall i :: 0 <= i < |hits| ==> Trusted(hits[i], db, allowed, filters)
  }

  ghost function FusedHits<Id(!new), T(!new)>(dense: seq<Hit<Id, Metadata<Id, T>>>,
                                              sparse: seq<Hit<Id, Metadata<Id, T>>>, limit: int)
    : seq<FusedHit<Id, Field, Value<Id, T>>>
  {
    Upto(Ordered(dense, sparse, RRF_K, 1.0, 1.0), CandidateCount(limit))
  }

  lemma FusedAreTrusted<Id(!new), T(!new)>(dense: seq<Hit<Id, Metadata<Id, T>>>, sparse: seq<Hit<Id, Metadata<Id, T>>>,
                                           limit: int, db: Database<Id, T>, allowed: seq<Id>,
                                           filters: RetrievalFilters<Id, T>, q: nat)
    requires AllTrusted(dense, db, allowed, filters) && AllTrusted(sparse, db, allowed, filters)
    requires q < |FusedHits(dense, sparse, limit)|
    ensures var h := FusedHits(dense, sparse, limit)[q];
            Permitted(h.chunkId, db, allowed, filters) && RightPaper(db)(h.chunkId, h.paperId)
  {
    var h := FusedHits(dense, sparse, limit)[q];
    OutputEntry(dense, sparse, RRF_K, 1.0, 1.0, CandidateCount(limit), q);
    OutputIsDistinct(dense, sparse, RRF_K, 1.0, 1.0, CandidateCount(limit));
    forall i | 0 <= i < |dense| ensures RightPaper(db)(dense[i].chunkId, dense[i].paperId) {
      assert Trusted(dense[i], db, allowed, filters);
    }
    forall i | 0 <= i < |sparse| ensures RightPaper(db)(sparse[i].chunkId, sparse[i].paperId) {
      assert Trusted(sparse[i], db, allowed, filters);
    }
    FusedKeepsPaper(dense, sparse, RRF_K, 1.0, 1.0, RightPaper(db), h.chunkId);
    var d, s := LastRank(dense, |dense|, h.chunkId), LastRank(sparse, |sparse|, h.chunkId);
    assert if d > 0 then Trusted(dense[d - 1], db, allowed, filters) else Trusted(sparse[s - 1], db, allowed, filters);
  }

  // ------------------------------------------------------- what is returned

  /** A result shows its chunk's row and the title of the row's paper, both live. */
  ghost predicate ShowsRow<Id, T>(c: RetrievedChunk<Id, T>, db: Database<Id, T>) {
    && c.chunkId in db.chunks && db.chunks[c.chunkId].paperId in db.papers
    && var row := db.chunks[c.chunkId];
      && c.content == row.content && c.sectionPath == row.sectionPath && c.pageNumber == row.pageNumber
      && c.kind == row.kind
      && c.paperTitle == db.papers[row.paperId].title
  }

  /** A result the caller may see: its paper is allowed, its kind and section were asked for. */
  ghost predicate Authorised<Id, T>(c: RetrievedChunk<Id, T>, db: Database<Id, T>, allowed: seq<Id>,
                                    filters: RetrievalFilters<Id, T>, inSection: (T, T) -> bool)
  {
    && ShowsRow(c, db) && Loads(db, filters, inSection, c.chunkId)
    && c.paperId == db.chunks[c.chunkId].paperId && c.paperId in allowed
    && (filters.kinds == [] || c.kind in filters.kinds)
  }

  lemma SurvivorsAre<Id(!new), T(!new)>(fused: seq<FusedHit<Id, Field, Value<Id, T>>>, db: Database<Id, T>,
                                        filters: RetrievalFilters<Id, T>, inSection: (T, T) -> bool)
    requires DistinctBy(fused, FusedChunk)
    ensures var r := Survivors(fused, db, filters, inSection);
            && DistinctBy(r, RetrievedId)
            && forall i :: 0 <= i < |r| ==>
                 && ShowsRow(r[i], db) && Loads(db, filters, inSection, r[i].chunkId)
                 && exists q :: 0 <= q < |fused| && fused[q].chunkId == r[i].chunkId && fused[q].paperId == r[i].paperId
  {
    var keep := Loaded(db, filters, inSection);
    var kept, r := Filter(fused, keep), Survivors(fused, db, filters, inSection);
    FilterMembers(fused, keep);
    FilterDistinct(fused, keep, FusedChunk);
    forall i, j | 0 <= i < j < |r| ensures RetrievedId(r[i]) != RetrievedId(r[j]) {
      assert FusedChunk(kept[i]) != FusedChunk(kept[j]);
    }
    forall i | 0 <= i < |r|
      ensures ShowsRow(r[i], db) && Loads(db, filters, inSection, r[i].chunkId)
              && exists q :: 0 <= q < |fused| && fused[q].chunkId == r[i].chunkId && fused[q].paperId == r[i].paperId
    {
      assert kept[i] in kept && kept[i] in fused;
    }
  }

  function WithSentences<Id, T>(results: seq<RetrievedChunk<Id, T>>, support: T -> seq<T>)
    : (r: seq<RetrievedChunk<Id, T>>)
    ensures |r| == |results|
    ensures forall i :: 0 <= i < |r| ==> r[i] == results[i].(supportingSentences := support(results[i].content))
  {
    seq(|results|, i requires 0 <= i < |results| => results[i].(supportingSentences := support(results[i].content)))
  }

  /** The survivors reranked, or the first of them when there is no reranking. */
  ghost predicate Chosen<Id, T>(base: seq<RetrievedChunk<Id, T>>, survivors: seq<RetrievedChunk<Id, T>>,
                                useReranker: bool, limit: int, score: seq<Candidate<Id, T>> -> seq<real>)
  {
    if useReranker && survivors != [] then RerankedBy(base, survivors, score(CandidatesOf(survivors)), limit)
    else base == Upto(survivors, limit)
  }

  /** The whole answer in terms of the fused list. */
  ghost predicate Answers<Id(!new), T(!new)>(
    r: seq<RetrievedChunk<Id, T>>, fused: seq<FusedHit<Id, Field, Value<Id, T>>>, db: Database<Id, T>,
    filters: RetrievalFilters<Id, T>, useReranker: bool, limit: int, tools: Tools<Id, T>)
  {
    exists base: seq<RetrievedChunk<Id, T>> ::
      Chosen(base, Survivors(fused, db, filters, tools.inSection), useReranker, limit, tools.score)
                   && r == WithSentences(base, tools.support)
  }

  /** The fused list of the two searches over these indexes. */
  ghost predicate FusedFrom<Id(!new), T(!new), Term(!new)>(
    fused: seq<FusedHit<Id, Field, Value<Id, T>>>, records: Records<Id, T>,
    docs: Bm25.Documents<Id, Term, Metadata<Id, T>>, vector: seq<real>, terms: seq<Term>, ln: real -> real, limit: int,
    wanted: Filters<Id, T>)
  {
    exists dense: seq<Hit<Id, Metadata<Id, T>>>, sparse: seq<Hit<Id, Metadata<Id, T>>> ::
      && ExactSearch(dense, records, vector, CandidateCount(limit), wanted)
      && Bm25.Searched(sparse, docs, terms, CandidateCount(limit), Admitting(wanted), ln)
      && fused == FusedHits(dense, sparse, limit)
  }

  /** One of these, with at most another score. */
  ghost predicate RescoredOneOf<Id, T>(c: RetrievedChunk<Id, T>, survivors: seq<RetrievedChunk<Id, T>>) {
    exists p :: 0 <= p < |survivors| && c == survivors[p].(rerankScore := c.rerankScore)
  }

  /** Chosen results are survivors with at most a new score, none twice, within the limit. */
  lemma ChosenAre<Id(!new), T(!new)>(base: seq<RetrievedChunk<Id, T>>, survivors: seq<RetrievedChunk<Id, T>>,
                                     useReranker: bool, limit: int, score: seq<Candidate<Id, T>> -> seq<real>)
    requires DistinctBy(survivors, RetrievedId) && Chosen(base, survivors, useReranker, limit, score)
    ensures DistinctBy(base, RetrievedId) && (limit >= 1 ==> |base| <= limit)
    ensures forall i :: 0 <= i < |base| ==> RescoredOneOf(base[i], survivors)
  {
    if useReranker && survivors != [] {
      var scores := score(CandidatesOf(survivors));
      var order := Ranking(scores);
      RankingIs(scores);
      forall i, j | 0 <= i < j < |base| ensures RetrievedId(base[i]) != RetrievedId(base[j]) {
        assert Beats(order[i], order[j]);
        assert order[i].index != order[j].index;
        assert RetrievedId(survivors[order[i].index]) != RetrievedId(survivors[order[j].index]);
      }
      forall i | 0 <= i < |base| ensures RescoredOneOf(base[i], survivors) {
        assert base[i] == survivors[order[i].index].(rerankScore := base[i].rerankScore);
      }
    } else {
      forall i, j | 0 <= i < j < |base| ensures RetrievedId(base[i]) != RetrievedId(base[j]) {
        assert base[i] == survivors[i] && base[j] == survivors[j];
      }
      forall i | 0 <= i < |base| ensures RescoredOneOf(base[i], survivors) {
        assert base[i] == survivors[i].(rerankScore := base[i].rerankScore);
      }
    }
  }

  /** With reranking, what is returned is exactly the top of the survivors by the new
      score, those with equal scores in fused order. */
  lemma RerankedAreTheTop<Id(!new), T(!new)>(base: seq<RetrievedChunk<Id, T>>, survivors: seq<RetrievedChunk<Id, T>>,
                                             scores: seq<real>, limit: nat)
    returns (order: seq<nat>)
    requires limit >= 1 && RerankedBy(base, survivors, scores, limit)
    ensures |order| == |survivors| && |base| == if limit < |survivors| then limit else |survivors|
    ensures forall i :: 0 <= i < |order| ==> order[i] < |survivors|
    ensures forall p :: 0 <= p < |survivors| ==> p in order
    ensures forall i, j :: 0 <= i < j < |order| ==>
              Beats(Item(order[i], scores[order[i]]), Item(order[j], scores[order[j]]))
    ensures forall i :: 0 <= i < |base| ==> base[i] == survivors[order[i]].(rerankScore := Some(scores[order[i]]))
  {
    var ranking := Ranking(scores);
    RankingIs(scores);
    order := seq(|ranking|, i requires 0 <= i < |ranking| => ranking[i].index);
    forall p | 0 <= p < |survivors| ensures p in order {
      assert Item(p, scores[p]) in ranking;
      var i :| 0 <= i < |ranking| && ranking[i] == Item(p, scores[p]);
      assert order[i] == p;
    }
  }

  /** The contract of retrieval, whatever the indexes hold: no chunk twice, no more
      than asked for, and nothing but live rows. */
  lemma AnswerIsLive<Id(!new), T(!new)>(
    r: seq<RetrievedChunk<Id, T>>, fused: seq<FusedHit<Id, Field, Value<Id, T>>>, db: Database<Id, T>,
    filters: RetrievalFilters<Id, T>, useReranker: bool, limit: int, tools: Tools<Id, T>)
    requires DistinctBy(fused, FusedChunk) && Answers(r, fused, db, filters, useReranker, limit, tools)
    ensures DistinctBy(r, RetrievedId) && (limit >= 1 ==> |r| <= limit)
    ensures forall i :: 0 <= i < |r| ==> ShowsRow(r[i], db) && Loads(db, filters, tools.inSection, r[i].chunkId)
                                         && r[i].supportingSentences == tools.support(r[i].content)
    ensures forall i :: 0 <= i < |r| ==>
              exists q :: 0 <= q < |fused| && fused[q].chunkId == r[i].chunkId && fused[q].paperId == r[i].paperId
  {
    var survivors := Survivors(fused, db, filters, tools.inSection);
    var base: seq<RetrievedChunk<Id, T>> :|
      Chosen(base, survivors, useReranker, limit, tools.score) && r == WithSentences(base, tools.support);
    SurvivorsAre(fused, db, filters, tools.inSection);
    ChosenAre(base, survivors, useReranker, limit, tools.score);
    forall i, j | 0 <= i < j < |r| ensures RetrievedId(r[i]) != RetrievedId(r[j]) {
      assert RetrievedId(base[i]) != RetrievedId(base[j]);
    }
    forall i | 0 <= i < |r|
      ensures ShowsRow(r[i], db) && Loads(db, filters, tools.inSection, r[i].chunkId)
      ensures exists q :: 0 <= q < |fused| && fused[q].chunkId == r[i].chunkId && fused[q].paperId == r[i].paperId
    {
      assert RescoredOneOf(base[i], survivors);
      var p :| 0 <= p < |survivors| && base[i] == survivors[p].(rerankScore := base[i].rerankScore);
      assert ShowsRow(survivors[p], db);
    }
  }

  /** The contract of retrieval while the indexes are faithful to the rows: moreover
      every result belongs to a paper the caller may see, and was asked for. */
  lemma AnswerIsAuthorised<Id(!new), T(!new), Term(!new)>(
    r: seq<RetrievedChunk<Id, T>>, fused: seq<FusedHit<Id, Field, Value<Id, T>>>, db: Database<Id, T>,
    filters: RetrievalFilters<Id, T>, useReranker: bool, limit: int, tools: Tools<Id, T>, records: Records<Id, T>,
    docs: Bm25.Documents<Id, Term, Metadata<Id, T>>, vector: seq<real>, terms: seq<Term>, ln: real -> real,
    allowed: seq<Id>, i: nat)
    requires DistinctBy(fused, FusedChunk) && Answers(r, fused, db, filters, useReranker, limit, tools) && i < |r|
    requires VectorStores.WellFormed(records)
    requires FusedFrom(fused, records, docs, vector, terms, ln, limit, MetadataFilters(allowed, filters))
    requires Faithful(records, docs, db)
    ensures Authorised(r[i], db, allowed, filters, tools.inSection)
  {
    var wanted := MetadataFilters(allowed, filters);
    var dense: seq<Hit<Id, Metadata<Id, T>>>, sparse: seq<Hit<Id, Metadata<Id, T>>> :|
      && ExactSearch(dense, records, vector, CandidateCount(limit), wanted)
      && Bm25.Searched(sparse, docs, terms, CandidateCount(limit), Admitting(wanted), ln)
      && fused == FusedHits(dense, sparse, limit);
    SearchIsSound(dense, records, vector, CandidateCount(limit), wanted);
    Bm25.SearchedIsSound(sparse, docs, terms, CandidateCount(limit), Admitting(wanted), ln);
    forall j | 0 <= j < |dense| ensures Trusted(dense[j], db, allowed, filters) {
      DenseIsTrusted(dense[j], records, docs, db, vector, allowed, filters);
    }
    forall j | 0 <= j < |sparse| ensures Trusted(sparse[j], db, allowed, filters) {
      SparseIsTrusted(sparse[j], records, docs, db, terms, allowed, filters, ln);
    }
    AnswerIsLive(r, fused, db, filters, useReranker, limit, tools);
    var q :| 0 <= q < |fused| && fused[q].chunkId == r[i].chunkId && fused[q].paperId == r[i].paperId;
    FusedAreTrusted(dense, sparse, limit, db, allowed, filters, q);
  }

  /** What every answer satisfies, whatever the indexes hold. */
  ghost predicate Contract<Id, T>(r: seq<RetrievedChunk<Id, T>>, db: Database<Id, T>, filters: RetrievalFilters<Id, T>,
                                  limit: int, tools: Tools<Id, T>)
  {
    && DistinctBy(r, RetrievedId) && (limit >= 1 ==> |r| <= limit)
    && forall i :: 0 <= i < |r| ==> ShowsRow(r[i], db) && Loads(db, filters, tools.inSection, r[i].chunkId)
                                    && r[i].supportingSentences == tools.support(r[i].content)
  }

  /** The answer is computed from the two searches of the indexes as they are. */
  ghost predicate Computed<Id(!new), T(!new), Term(!new)>(
    r: seq<RetrievedChunk<Id, T>>, records: Records<Id, T>, docs: Bm25.Documents<Id, Term, Metadata<Id, T>>,
    vector: seq<real>, terms: seq<Term>, ln: real -> real, limit: int, db: Database<Id, T>, allowed: seq<Id>,
    filters: RetrievalFilters<Id, T>, useReranker: bool, tools: Tools<Id, T>)
  {
    exists fused: seq<FusedHit<Id, Field, Value<Id, T>>> ::
      && FusedFrom(fused, records, docs, vector, terms, ln, limit, MetadataFilters(allowed, filters))
      && Answers(r, fused, db, filters, useReranker, limit, tools)
  }

  method FuseHits<Id(==, !new), T(==, !new)>(dense: seq<Hit<Id, Metadata<Id, T>>>,
                                             sparse: seq<Hit<Id, Metadata<Id, T>>>, limit: int)
    returns (fused: seq<FusedHit<Id, Field, Value<Id, T>>>)
    ensures fused == FusedHits(dense, sparse, limit) && DistinctBy(fused, FusedChunk)
  {
    fused := ReciprocalRankFusion(dense, sparse, CandidateCount(limit), RRF_K, 1.0, 1.0);
    OutputIsDistinct(dense, sparse, RRF_K, 1.0, 1.0, CandidateCount(limit));
  }

  lemma FusedFromBoth<Id(!new), T(!new), Term(!new)>(
    fused: seq<FusedHit<Id, Field, Value<Id, T>>>, dense: seq<Hit<Id, Metadata<Id, T>>>,
    sparse: seq<Hit<Id, Metadata<Id, T>>>, records: Records<Id, T>, docs: Bm25.Documents<Id, Term, Metadata<Id, T>>,
    vector: seq<real>, terms: seq<Term>, ln: real -> real, limit: int, wanted: Filters<Id, T>)
    requires ExactSearch(dense, records, vector, CandidateCount(limit), wanted)
    requires Bm25.Searched(sparse, docs, terms, CandidateCount(limit), Admitting(wanted), ln)
    requires fused == FusedHits(dense, sparse, limit)
    ensures FusedFrom(fused, records, docs, vector, terms, ln, limit, wanted)
  {
  }

  /** The two searches and their fusion. */
  method FindCandidates<Id(==, !new), T(==, !new), Term(==, !new)>(
    store: InMemoryVectorStore<Id, T>, bm25: Bm25.BM25Index<Id, Term, Metadata<Id, T>>, vector: seq<real>,
    terms: seq<Term>, ln: real -> real, limit: int, wanted: Filters<Id, T>)
    returns (r: Option<seq<FusedHit<Id, Field, Value<Id, T>>>>)
    requires store.Valid() && bm25.Valid() && Bm25.IsLogarithm(ln)
    ensures r.Some? ==> FusedFrom(r.value, store.records, bm25.documents, vector, terms, ln, limit, wanted)
    ensures r.Some? ==> DistinctBy(r.value, FusedChunk)
    ensures (forall id :: id in store.records ==> |store.records[id].vector| == |vector|) ==> r.Some?
  {
    var candidateCount := CandidateCount(limit);
    var dense := store.Search(vector, candidateCount, wanted);
    if dense.None? { return None; }
    var sparse := bm25.Search(terms, candidateCount, Admitting(wanted), ln);
    var fused := FuseHits(dense.value, sparse, limit);
    FusedFromBoth(fused, dense.value, sparse, store.records, bm25.documents, vector, terms, ln, limit, wanted);
    return Some(fused);
  }

  /** Loading the rows, reranking and attaching the supporting sentences. */
  method LoadAndRank<Id(==, !new), T(==, !new)>(
    fused: seq<FusedHit<Id, Field, Value<Id, T>>>, db: Database<Id, T>, filters: RetrievalFilters<Id, T>,
    useReranker: bool, limit: int, tools: Tools<Id, T>)
    returns (r: Option<seq<RetrievedChunk<Id, T>>>)
    requires DistinctBy(fused, FusedChunk)
    ensures r.Some? ==> Answers(r.value, fused, db, filters, useReranker, limit, tools)
    ensures (forall cs :: |tools.score(cs)| == |cs|) ==> r.Some?
  {
    var survivors := Survivors(fused, db, filters, tools.inSection);
    SurvivorsAre(fused, db, filters, tools.inSection);
    if !useReranker || survivors == [] {
      assert Chosen(Upto(survivors, limit), survivors, useReranker, limit, tools.score);
      return Some(WithSentences(Upto(survivors, limit), tools.support));
    }
    var base := ApplyReranker(survivors, tools.score, limit);
    if base.None? { return None; }
    assert Chosen(base.value, survivors, useReranker, limit, tools.score);
    return Some(WithSentences(base.value, tools.support));
  }

  lemma AllAuthorised<Id(!new), T(!new), Term(!new)>(
    r: seq<RetrievedChunk<Id, T>>, fused: seq<FusedHit<Id, Field, Value<Id, T>>>, db: Database<Id, T>,
    filters: RetrievalFilters<Id, T>, useReranker: bool, limit: int, tools: Tools<Id, T>, records: Records<Id, T>,
    docs: Bm25.Documents<Id, Term, Metadata<Id, T>>, vector: seq<real>, terms: seq<Term>, ln: real -> real,
    allowed: seq<Id>)
    requires DistinctBy(fused, FusedChunk) && Answers(r, fused, db, filters, useReranker, limit, tools)
    requires VectorStores.WellFormed(records)
    requires FusedFrom(fused, records, docs, vector, terms, ln, limit, MetadataFilters(allowed, filters))
    ensures Contract(r, db, filters, limit, tools)
    ensures Faithful(records, docs, db) ==> forall i :: 0 <= i < |r| ==>
              Authorised(r[i], db, allowed, filters, tools.inSection)
  {
    AnswerIsLive(r, fused, db, filters, useReranker, limit, tools);
    if Faithful(records, docs, db) {
      forall i | 0 <= i < |r| ensures Authorised(r[i], db, allowed, filters, tools.inSection) {
        AnswerIsAuthorised(r, fused, db, filters, useReranker, limit, tools, records, docs, vector, terms, ln,
                           allowed, i);
      }
    }
  }

  method Retrieve<Id(==, !new), T(==, !new), Term(==, !new)>(
    db: Database<Id, T>, owned: set<Id>, blank: bool, terms: seq<Term>, vector: seq<real>, limit: int,
    filters: RetrievalFilters<Id, T>, useReranker: bool, store: InMemoryVectorStore<Id, T>,
    bm25: Bm25.BM25Index<Id, Term, Metadata<Id, T>>, ln: real -> real, tools: Tools<Id, T>)
    returns (r: Option<seq<RetrievedChunk<Id, T>>>, allowed: seq<Id>)
    requires store.Valid() && bm25.Valid() && Bm25.IsLogarithm(ln)
    ensures forall p :: p in allowed ==> p in AllowedPapers(db, owned, filters)
    ensures r.Some? ==> Contract(r.value, db, filters, limit, tools)
    ensures r.Some? && Faithful(store.records, bm25.documents, db) ==>
              forall i :: 0 <= i < |r.value| ==> Authorised(r.value[i], db, allowed, filters, tools.inSection)
    ensures r.Some? && r.value != [] ==>
              Computed(r.value, store.records, bm25.documents, vector, terms, ln, limit, db, allowed, filters,
                       useReranker, tools)
    ensures (forall id :: id in store.records ==> |store.records[id].vector| == |vector|)
            && (forall cs :: |tools.score(cs)| == |cs|)
            ==> r.Some?
  {
    allowed := [];
    if blank { return Some([]), allowed; }
    allowed := IterationOrder(map p | p in AllowedPapers(db, owned, filters) :: db.papers[p]);
    if allowed == [] { return Some([]), allowed; }
    var fused := FindCandidates(store, bm25, vector, terms, ln, limit, MetadataFilters(allowed, filters));
    if fused.None? { return None, allowed; }
    r := LoadAndRank(fused.value, db, filters, useReranker, limit, tools);
    if r.Some? {
      AllAuthorised(r.value, fused.value, db, filters, useReranker, limit, tools, store.records, bm25.documents, vector,
                    terms, ln, allowed);
    }
  }
}
