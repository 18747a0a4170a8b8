/** Writing a paper's chunks into both indexes, in batches that survive interruption
    (backend/app/retrieval/indexer.py), and rebuilding the sparse index at start-up
    (backend/app/retrieval/service.py, `rebuild_sparse_index`). */
module Indexing {
  import opened Options
  import opened Ordering
  import opened Sequences
  import opened VectorStores
  import opened Retrieval
  import Bm25

  type Docs<Id(==), Term(==), T> = Bm25.Documents<Id, Term, Metadata<Id, T>>

  /** How text becomes vectors and terms; `empty` is the empty text. */
  datatype Encoders<!T, Term> =
    Encoders(embed: seq<T> -> seq<seq<real>>, tokens: T -> seq<Term>, empty: T)

  // ----------------------------------------------------------- what is stored

  function SparseMetadata<Id, T>(id: Id, row: ChunkRow<Id, T>, workspaceId: Id, empty: T): Metadata<Id, T> {
    map[ChunkIdField := OfId(id), PaperIdField := OfId(row.paperId), WorkspaceIdField := OfId(workspaceId),
        KindField := OfText(row.kind),
        SectionPathField := OfText(if row.sectionPath.Some? then row.sectionPath.value else empty)]
  }

  function DenseMetadata<Id, T>(id: Id, row: ChunkRow<Id, T>, workspaceId: Id, empty: T): Metadata<Id, T> {
    SparseMetadata(id, row, workspaceId, empty)
      [PageNumberField := OfNumber(if row.pageNumber.Some? then row.pageNumber.value else 0)]
  }

  /** Every chunk belongs to a paper that exists. */
  ghost predicate Intact<Id(!new), T>(db: Database<Id, T>) {
    forall id :: id in db.chunks ==> db.chunks[id].paperId in db.papers
  }

  function RecordOf<Id, T, Term>(id: Id, vector: seq<real>, db: Database<Id, T>, k: Encoders<T, Term>)
    : VectorRecord<Id, T>
    requires id in db.chunks && db.chunks[id].paperId in db.papers
  {
    var row := db.chunks[id];
    var workspaceId := db.papers[row.paperId].workspaceId;
    VectorRecord(id, row.paperId, workspaceId, vector, DenseMetadata(id, row, workspaceId, k.empty))
  }

  function DocumentOf<Id, T, Term>(id: Id, db: Database<Id, T>, k: Encoders<T, Term>)
    : Bm25.Document<Id, Term, Metadata<Id, T>>
    requires id in db.chunks && db.chunks[id].paperId in db.papers
  {
    var row := db.chunks[id];
    var terms := k.tokens(row.content);
    Bm25.Document(id, row.paperId, |terms|, multiset(terms),
                  SparseMetadata(id, row, db.papers[row.paperId].workspaceId, k.empty))
  }

  predicate Rows<Id(==), T>(batch: seq<Id>, db: Database<Id, T>) {
    forall i :: 0 <= i < |batch| ==> batch[i] in db.chunks && db.chunks[batch[i]].paperId in db.papers
  }

  function ContentsOf<Id, T>(batch: seq<Id>, db: Database<Id, T>): (r: seq<T>)
    requires Rows(batch, db)
    ensures |r| == |batch|
  {
    seq(|batch|, i requires 0 <= i < |batch| => db.chunks[batch[i]].content)
  }

  function RecordsOf<Id, T, Term>(batch: seq<Id>, vectors: seq<seq<real>>, db: Database<Id, T>, k: Encoders<T, Term>)
    : (r: seq<VectorRecord<Id, T>>)
    requires Rows(batch, db) && |vectors| == |batch|
    ensures |r| == |batch|
  {
    seq(|batch|, i requires 0 <= i < |batch| => RecordOf(batch[i], vectors[i], db, k))
  }

  /** The sparse index after these chunks have been added. */
  function Added<Id, T, Term>(docs: Docs<Id, Term, T>, batch: seq<Id>, db: Database<Id, T>, k: Encoders<T, Term>)
    : Docs<Id, Term, T>
    requires Rows(batch, db)
  {
    if batch == [] then docs
    else
      var last := |batch| - 1;
      Added(docs, batch[..last], db, k)[batch[last] := DocumentOf(batch[last], db, k)]
  }

  lemma {:induction false} AddedIs<Id, T, Term>(docs: Docs<Id, Term, T>, batch: seq<Id>, db: Database<Id, T>,
                                                k: Encoders<T, Term>, id: Id)
    requires Rows(batch, db)
    ensures id in batch ==> id in Added(docs, batch, db, k) && id in db.chunks && db.chunks[id].paperId in db.papers
                            && Added(docs, batch, db, k)[id] == DocumentOf(id, db, k)
    ensures id !in batch ==> (id in Added(docs, batch, db, k) <==> id in docs)
    ensures id !in batch && id in docs ==> Added(docs, batch, db, k)[id] == docs[id]
  {
    if batch != [] {
      var last := |batch| - 1;
      assert batch == batch[..last] + [batch[last]];
      AddedIs(docs, batch[..last], db, k, id);
    }
  }

  /** An entry of the dense index that is up to date but for its vector. */
  predicate Current<Id(==), T(==), Term>(r: VectorRecord<Id, T>, id: Id, db: Database<Id, T>, k: Encoders<T, Term>) {
    id in db.chunks && db.chunks[id].paperId in db.papers && r == RecordOf(id, r.vector, db, k)
  }

  lemma {:induction false} UpsertedIs<Id, T, Term>(records: Records<Id, T>, batch: seq<Id>, vectors: seq<seq<real>>,
                                                   db: Database<Id, T>, k: Encoders<T, Term>, id: Id)
    requires Rows(batch, db) && |vectors| == |batch|
    ensures var after := Upserted(records, RecordsOf(batch, vectors, db, k));
            && (id in batch ==> id in after && Current(after[id], id, db, k))
            && (id !in batch ==> (id in after <==> id in records))
            && (id !in batch && id in records ==> after[id] == records[id])
  {
    if batch != [] {
      var last := |batch| - 1;
      assert batch == batch[..last] + [batch[last]];
      UpsertedIs(records, batch[..last], vectors[..last], db, k, id);
      assert RecordsOf(batch, vectors, db, k)[..last] == RecordsOf(batch[..last], vectors[..last], db, k);
    }
  }

  // ------------------------------------------------------------- the invariant

  function IdsOf<Id(==)>(batch: seq<Id>): set<Id> {
    set id | id in batch
  }

  /** The rows, which of them are marked as embedded, and what both indexes hold. */
  datatype Picture<Id(==), T, Term(==)> =
    Picture(db: Database<Id, T>, embedded: set<Id>, records: Records<Id, T>, docs: Docs<Id, Term, T>)

  /** Only rows are marked, and an index that has an entry for a row describes it faithfully. */
  ghost predicate Sound<Id(!new), T(!new), Term(!new)>(s: Picture<Id, T, Term>) {
    Intact(s.db) && s.embedded <= s.db.chunks.Keys && Faithful(s.records, s.docs, s.db)
  }

  /** Marked chunks that the dense index does not have. */
  function LostDense<Id(==), T, Term(==)>(s: Picture<Id, T, Term>): set<Id> {
    set id | id in s.embedded && id !in s.records
  }

  /** Marked chunks that the sparse index does not have. */
  function LostSparse<Id(==), T, Term(==)>(s: Picture<Id, T, Term>): set<Id> {
    set id | id in s.embedded && id !in s.docs
  }

  /** A chunk marked as embedded is in both indexes. */
  ghost predicate InStep<Id(!new), T(!new), Term(!new)>(s: Picture<Id, T, Term>) {
    Sound(s) && LostDense(s) == {} && LostSparse(s) == {}
  }

  function PaperRows<Id(==), T>(db: Database<Id, T>, paperId: Id): set<Id> {
    set id | id in db.chunks && db.chunks[id].paperId == paperId
  }

  // ---------------------------------------------------------- writing entries

  ghost predicate SameAt<K, V>(before: map<K, V>, after: map<K, V>, key: K) {
    (key in before <==> key in after) && (key in before ==> after[key] == before[key])
  }

  /** From one dense index to the next: these chunks' entries are now there and current, no other changed. */
  ghost predicate DenseWrote<Id(!new), T(!new), Term>(before: Records<Id, T>, after: Records<Id, T>, ids: set<Id>,
                                                      db: Database<Id, T>, k: Encoders<T, Term>)
  {
    forall id :: if id in ids then id in after && Current(after[id], id, db, k) else SameAt(before, after, id)
  }

  ghost predicate SparseWrote<Id(!new), T(!new), Term(!new)>(before: Docs<Id, Term, T>, after: Docs<Id, Term, T>,
                                                             ids: set<Id>, db: Database<Id, T>, k: Encoders<T, Term>)
  {
    forall id :: if id in ids then id in after && CurrentDoc(after[id], id, db, k) else SameAt(before, after, id)
  }

  predicate CurrentDoc<Id(==), T(==), Term(==)>(d: Bm25.Document<Id, Term, Metadata<Id, T>>, id: Id,
                                                db: Database<Id, T>, k: Encoders<T, Term>)
  {
    id in db.chunks && db.chunks[id].paperId in db.papers && d == DocumentOf(id, db, k)
  }

  lemma UpsertWrites<Id(!new), T(!new), Term(!new)>(records: Records<Id, T>, batch: seq<Id>, vectors: seq<seq<real>>,
                                                    db: Database<Id, T>, k: Encoders<T, Term>)
    requires Rows(batch, db) && |vectors| == |batch|
    ensures DenseWrote(records, Upserted(records, RecordsOf(batch, vectors, db, k)), IdsOf(batch), db, k)
  {
    var after := Upserted(records, RecordsOf(batch, vectors, db, k));
    forall id
      ensures if id in IdsOf(batch) then id in after && Current(after[id], id, db, k) else SameAt(records, after, id)
    {
      UpsertedIs(records, batch, vectors, db, k, id);
    }
  }

  lemma AddWrites<Id(!new), T(!new), Term(!new)>(docs: Docs<Id, Term, T>, batch: seq<Id>, db: Database<Id, T>,
                                                 k: Encoders<T, Term>)
    requires Rows(batch, db)
    ensures SparseWrote(docs, Added(docs, batch, db, k), IdsOf(batch), db, k)
  {
    var after := Added(docs, batch, db, k);
    forall id
      ensures if id in IdsOf(batch) then id in after && CurrentDoc(after[id], id, db, k) else SameAt(docs, after, id)
    {
      AddedIs(docs, batch, db, k, id);
    }
  }

  lemma DenseWritesAdd<Id(!new), T(!new), Term(!new)>(a: Records<Id, T>, b: Records<Id, T>, c: Records<Id, T>,
                                                      x: set<Id>, y: set<Id>, db: Database<Id, T>, k: Encoders<T, Term>)
    requires DenseWrote(a, b, x, db, k) && DenseWrote(b, c, y, db, k)
    ensures DenseWrote(a, c, x + y, db, k)
  {
    forall id ensures if id in x + y then id in c && Current(c[id], id, db, k) else SameAt(a, c, id) {
      assert id !in y ==> SameAt(b, c, id);
      assert id !in x ==> SameAt(a, b, id);
    }
  }

  lemma SparseWritesAdd<Id(!new), T(!new), Term(!new)>(a: Docs<Id, Term, T>, b: Docs<Id, Term, T>, c: Docs<Id, Term, T>,
                                                       x: set<Id>, y: set<Id>, db: Database<Id, T>,
                                                       k: Encoders<T, Term>)
    requires SparseWrote(a, b, x, db, k) && SparseWrote(b, c, y, db, k)
    ensures SparseWrote(a, c, x + y, db, k)
  {
    forall id ensures if id in x + y then id in c && CurrentDoc(c[id], id, db, k) else SameAt(a, c, id) {
      assert id !in y ==> SameAt(b, c, id);
      assert id !in x ==> SameAt(a, b, id);
    }
  }

  /** What a run has written: entries of `dense` in the dense index, of `sparse` in the
      sparse one, and marks for some of the latter. */
  ghost predicate Wrote<Id(!new), T(!new), Term(!new)>(s0: Picture<Id, T, Term>, s1: Picture<Id, T, Term>,
                                                       marked: set<Id>, dense: set<Id>, sparse: set<Id>,
                                                       k: Encoders<T, Term>)
  {
    && s1.db == s0.db && s1.embedded == s0.embedded + marked && marked <= sparse <= dense
    && DenseWrote(s0.records, s1.records, dense, s0.db, k) && SparseWrote(s0.docs, s1.docs, sparse, s0.db, k)
  }

  lemma WritesAdd<Id(!new), T(!new), Term(!new)>(
    s0: Picture<Id, T, Term>, s1: Picture<Id, T, Term>, s2: Picture<Id, T, Term>, m1: set<Id>, d1: set<Id>, p1: set<Id>,
    m2: set<Id>, d2: set<Id>, p2: set<Id>, k: Encoders<T, Term>)
    requires Wrote(s0, s1, m1, d1, p1, k) && Wrote(s1, s2, m2, d2, p2, k)
    ensures Wrote(s0, s2, m1 + m2, d1 + d2, p1 + p2, k)
  {
    DenseWritesAdd(s0.records, s1.records, s2.records, d1, d2, s0.db, k);
    SparseWritesAdd(s0.docs, s1.docs, s2.docs, p1, p2, s0.db, k);
  }

  /** Writing adds only current entries: what described the rows faithfully still does. */
  lemma WritingKeepsSound<Id(!new), T(!new), Term(!new)>(
    s0: Picture<Id, T, Term>, s1: Picture<Id, T, Term>, marked: set<Id>, dense: set<Id>, sparse: set<Id>,
    k: Encoders<T, Term>)
    requires Sound(s0) && Wrote(s0, s1, marked, dense, sparse, k)
    ensures Sound(s1)
  {
    forall id | id in marked ensures id in s0.db.chunks {
      assert id in sparse && CurrentDoc(s1.docs[id], id, s0.db, k);
    }
    forall id | id in s0.db.chunks
      ensures && (id in s1.records ==> s1.records[id].paperId == s0.db.chunks[id].paperId
                                       && Describes(s1.records[id].metadata, s0.db.chunks[id]))
              && (id in s1.docs ==> s1.docs[id].paperId == s0.db.chunks[id].paperId
                                    && Describes(s1.docs[id].metadata, s0.db.chunks[id]))
    {
      assert if id in dense then Current(s1.records[id], id, s0.db, k) else SameAt(s0.records, s1.records, id);
      assert if id in sparse then CurrentDoc(s1.docs[id], id, s0.db, k) else SameAt(s0.docs, s1.docs, id);
    }
  }

  /** Exactly what writing brings back: the chunks written. */
  lemma WritingRestores<Id(!new), T(!new), Term(!new)>(
    s0: Picture<Id, T, Term>, s1: Picture<Id, T, Term>, marked: set<Id>, dense: set<Id>, sparse: set<Id>,
    k: Encoders<T, Term>)
    requires Wrote(s0, s1, marked, dense, sparse, k)
    ensures LostDense(s1) == LostDense(s0) - dense && LostSparse(s1) == LostSparse(s0) - sparse
  {
    forall id ensures id in LostDense(s1) <==> id in LostDense(s0) - dense {
      assert if id in dense then id in s1.records else SameAt(s0.records, s1.records, id);
    }
    forall id ensures id in LostSparse(s1) <==> id in LostSparse(s0) - sparse {
      assert if id in sparse then id in s1.docs else SameAt(s0.docs, s1.docs, id);
    }
  }

  // ------------------------------------------------------- what one run does

  /** The embedder always answers, with one vector for each text. */
  ghost predicate Embeds<T(!new), Term>(k: Encoders<T, Term>) {
    forall texts :: |k.embed(texts)| == |texts|
  }

  lemma NothingWritten<Id(!new), T(!new), Term(!new)>(s: Picture<Id, T, Term>, k: Encoders<T, Term>)
    ensures Wrote(s, s, {}, {}, {}, k)
  {
    forall id ensures SameAt(s.records, s.records, id) {}
    forall id ensures SameAt(s.docs, s.docs, id) {}
  }

  /** What a batch did, as writes. */
  lemma BatchWrites<Id(!new), T(!new), Term(!new)>(
    batch: seq<Id>, added: nat, s1: Picture<Id, T, Term>, s2: Picture<Id, T, Term>, ok: bool, upserted: bool,
    k: Encoders<T, Term>)
    requires Rows(batch, s1.db) && added <= |batch| && s2.db == s1.db
    requires (added > 0 ==> upserted) && (ok ==> upserted && added == |batch|)
    requires upserted ==> |k.embed(ContentsOf(batch, s1.db))| == |batch|
    requires s2.records == if upserted then
                             Upserted(s1.records,
                                      RecordsOf(batch, k.embed(ContentsOf(batch, s1.db)), s1.db, k)) else s1.records
    requires s2.docs == Added(s1.docs, batch[..added], s1.db, k)
    requires s2.embedded == if ok then s1.embedded + IdsOf(batch) else s1.embedded
    ensures Wrote(s1, s2, if ok then IdsOf(batch) else {}, if upserted then IdsOf(batch) else {},
                  IdsOf(batch[..added]), k)
  {
    NothingWritten(s1, k);
    if upserted { UpsertWrites(s1.records, batch, k.embed(ContentsOf(batch, s1.db)), s1.db, k); }
    AddWrites(s1.docs, batch[..added], s1.db, k);
    PrefixWithin(batch, added);
    assert ok ==> batch[..added] == batch;
  }

  lemma WritesAddAs<Id(!new), T(!new), Term(!new)>(
    s0: Picture<Id, T, Term>, s1: Picture<Id, T, Term>, s2: Picture<Id, T, Term>, before: set<Id>, m: set<Id>,
    d: set<Id>, p: set<Id>, marked: set<Id>, dense: set<Id>, sparse: set<Id>, k: Encoders<T, Term>)
    requires Wrote(s0, s1, before, before, before, k) && Wrote(s1, s2, m, d, p, k)
    requires marked == before + m && dense == before + d && sparse == before + p
    ensures Wrote(s0, s2, marked, dense, sparse, k)
  {
    WritesAdd(s0, s1, s2, before, before, before, m, d, p, k);
  }

  lemma SliceSets<Id>(chunks: seq<Id>, start: nat, end: nat, added: nat)
    requires start <= end <= |chunks| && start + added <= end
    ensures IdsOf(chunks[..start + added]) == IdsOf(chunks[..start]) + IdsOf(chunks[start..end][..added])
  {
    IdsSplit(chunks, start, start + added);
    assert chunks[start..end][..added] == chunks[start..start + added];
  }

  lemma TurnWrites<Id(!new), T(!new), Term(!new)>(
    chunks: seq<Id>, start: nat, end: nat, added: nat, s0: Picture<Id, T, Term>, s1: Picture<Id, T, Term>,
    s2: Picture<Id, T, Term>, ok: bool, upserted: bool, k: Encoders<T, Term>)
    requires start <= end <= |chunks| && Rows(chunks[start..end], s1.db) && start + added <= end && s2.db == s1.db
    requires Wrote(s0, s1, IdsOf(chunks[..start]), IdsOf(chunks[..start]), IdsOf(chunks[..start]), k)
    requires (added > 0 ==> upserted) && (ok ==> upserted && added == end - start)
    requires upserted ==> |k.embed(ContentsOf(chunks[start..end], s1.db))| == end - start
    requires s2.records == if upserted then
                             Upserted(s1.records,
                                      RecordsOf(chunks[start..end], k.embed(ContentsOf(chunks[start..end], s1.db)),
                                                                           s1.db, k))
                           else s1.records
    requires s2.docs == Added(s1.docs, chunks[start..end][..added], s1.db, k)
    requires s2.embedded == if ok then s1.embedded + IdsOf(chunks[start..end]) else s1.embedded
    ensures Wrote(s0, s2, IdsOf(chunks[..if ok then end else start]), IdsOf(chunks[..if upserted then end else start]),
                  IdsOf(chunks[..start + added]), k)
  {
    BatchWrites(chunks[start..end], added, s1, s2, ok, upserted, k);
    UpToOneOf(chunks, start, end, ok);
    UpToOneOf(chunks, start, end, upserted);
    SliceSets(chunks, start, end, added);
    WritesAddAs(s0, s1, s2, IdsOf(chunks[..start]), if ok then IdsOf(chunks[start..end]) else {},
                if upserted then IdsOf(chunks[start..end]) else {}, IdsOf(chunks[start..end][..added]),
                IdsOf(chunks[..if ok then end else start]), IdsOf(chunks[..if upserted then end else start]),
                IdsOf(chunks[..start + added]), k);
  }

  lemma UpToOneOf<Id>(chunks: seq<Id>, start: nat, end: nat, further: bool)
    requires start <= end <= |chunks|
    ensures IdsOf(chunks[..if further then end else start])
         == IdsOf(chunks[..start]) + if further then IdsOf(chunks[start..end]) else {}
  {
    IdsSplit(chunks, start, end);
  }

  /** What a run without re-indexing does, wherever it stops: the rows stay, every mark
      stays and new ones are the paper's, no entry is dropped, and what marked chunks
      lack they lack still: such a run repairs nothing. */
  ghost predicate Continued<Id(!new), T(!new), Term(!new)>(s0: Picture<Id, T, Term>, s1: Picture<Id, T, Term>,
                                                           paperId: Id)
  {
    && s1.db == s0.db && s0.embedded <= s1.embedded <= s0.embedded + PaperRows(s0.db, paperId)
    && s0.records.Keys <= s1.records.Keys && s0.docs.Keys <= s1.docs.Keys
    && LostDense(s1) == LostDense(s0) && LostSparse(s1) == LostSparse(s0)
    && (Sound(s0) ==> Sound(s1))
  }

  lemma NothingToDo<Id(!new), T(!new), Term(!new)>(s: Picture<Id, T, Term>, paperId: Id)
    requires Intact(s.db)
    ensures Continued(s, s, paperId)
    ensures paperId !in s.db.papers ==> PaperRows(s.db, paperId) == {} && PaperRows(s.db, paperId) - s.embedded == {}
  {
  }

  /** Only unmarked chunks are written, so the lost ones are none of them. */
  lemma RunContinues<Id(!new), T(!new), Term(!new)>(
    s0: Picture<Id, T, Term>, s1: Picture<Id, T, Term>, paperId: Id, marked: set<Id>, dense: set<Id>, sparse: set<Id>,
    k: Encoders<T, Term>)
    requires Wrote(s0, s1, marked, dense, sparse, k) && dense <= PaperRows(s0.db, paperId) - s0.embedded
    ensures Continued(s0, s1, paperId)
  {
    WritingRestores(s0, s1, marked, dense, sparse, k);
    KeysGrow(s0, s1, marked, dense, sparse, k);
    if Sound(s0) { WritingKeepsSound(s0, s1, marked, dense, sparse, k); }
  }

  lemma KeysGrow<Id(!new), T(!new), Term(!new)>(
    s0: Picture<Id, T, Term>, s1: Picture<Id, T, Term>, marked: set<Id>, dense: set<Id>, sparse: set<Id>,
    k: Encoders<T, Term>)
    requires Wrote(s0, s1, marked, dense, sparse, k)
    ensures s0.records.Keys <= s1.records.Keys && s0.docs.Keys <= s1.docs.Keys
  {
    forall id | id in s0.records ensures id in s1.records {
      assert if id in dense then id in s1.records else SameAt(s0.records, s1.records, id);
    }
    forall id | id in s0.docs ensures id in s1.docs {
      assert if id in sparse then id in s1.docs else SameAt(s0.docs, s1.docs, id);
    }
  }

  // ---------------------------------------------------------------- re-index

  /** The paper's entries dropped from the dense index (`n` is 1), or from both (2). */
  function Dropped<Id(==), T, Term(==)>(s: Picture<Id, T, Term>, paperId: Id, n: nat): Picture<Id, T, Term> {
    if n == 0 then s
    else if n == 1 then s.(records := s.records - VectorStores.OfPaper(s.records, paperId))
    else s.(records := s.records - VectorStores.OfPaper(s.records, paperId),
            docs := s.docs - Bm25.OfPaper(s.docs, paperId))
  }

  function Drops(fuel: nat): nat { if fuel < 2 then fuel else 2 }

  /** What a re-index of a paper with rows does before it stops after `fuel` steps:
      it drops, then writes these chunks anew. */
  ghost predicate Rewritten<Id(!new), T(!new), Term(!new)>(
    s0: Picture<Id, T, Term>, s1: Picture<Id, T, Term>, paperId: Id, fuel: nat, completed: bool, dense: set<Id>,
    sparse: set<Id>, k: Encoders<T, Term>)
  {
    && (exists marked :: Wrote(Dropped(s0, paperId, Drops(fuel)), s1, marked, dense, sparse, k))
    && sparse <= dense <= PaperRows(s0.db, paperId) && (fuel <= 2 ==> dense == {} && !completed)
    && (completed ==> sparse == PaperRows(s0.db, paperId))
  }

  lemma DropsOnly<Id(!new), T(!new), Term(!new)>(s: Picture<Id, T, Term>, paperId: Id, n: nat, k: Encoders<T, Term>)
    requires n <= 2
    ensures Rewritten(s, Dropped(s, paperId, n), paperId, n, false, {}, {}, k)
  {
    NothingWritten(Dropped(s, paperId, n), k);
    assert Wrote(Dropped(s, paperId, Drops(n)), Dropped(s, paperId, n), {}, {}, {}, k);
  }

  lemma PrefixesRewrite<Id(!new), T(!new), Term(!new)>(
    s0: Picture<Id, T, Term>, s1: Picture<Id, T, Term>, paperId: Id, fuel: nat, completed: bool, chunks: seq<Id>,
    done: nat, m: nat, n: nat, k: Encoders<T, Term>)
    requires |chunks| > 0 && IdsOf(chunks) == PaperRows(s0.db, paperId) && done <= n <= m <= |chunks| && fuel >= 2
    requires (completed ==> done == |chunks|) && (fuel == 2 ==> m == 0)
    requires Wrote(Dropped(s0, paperId, 2), s1, IdsOf(chunks[..done]), IdsOf(chunks[..m]), IdsOf(chunks[..n]), k)
    ensures Rewritten(s0, s1, paperId, fuel, completed, IdsOf(chunks[..m]), IdsOf(chunks[..n]), k)
    ensures s0.embedded <= s1.embedded && (completed ==> PaperRows(s0.db, paperId) <= s1.embedded)
  {
    PrefixWithin(chunks, m);
    assert chunks[..|chunks|] == chunks;
    assert IdsOf(chunks[..0]) == {};
    assert Wrote(Dropped(s0, paperId, Drops(fuel)), s1, IdsOf(chunks[..done]), IdsOf(chunks[..m]),
                 IdsOf(chunks[..n]), k);
  }

  /** `index_paper` with `reindex` or without it, stopped after `fuel` steps; a re-index
      has written these chunks anew. */
  ghost predicate Ran<Id(!new), T(!new), Term(!new)>(
    s0: Picture<Id, T, Term>, s1: Picture<Id, T, Term>, paperId: Id, reindex: bool, fuel: nat, completed: bool,
    dense: set<Id>, sparse: set<Id>, k: Encoders<T, Term>)
  {
    if !reindex then Continued(s0, s1, paperId)
    else if PaperRows(s0.db, paperId) == {} then s1 == s0 && completed
    else Rewritten(s0, s1, paperId, fuel, completed, dense, sparse, k)
  }

  /** Dropping forgets the paper's marked chunks in that index, and nothing else. */
  lemma DroppingLoses<Id(!new), T(!new), Term(!new)>(s: Picture<Id, T, Term>, paperId: Id, n: nat)
    requires Sound(s) && n <= 2
    ensures Sound(Dropped(s, paperId, n))
    ensures LostDense(Dropped(s, paperId, n)) == LostDense(s) + if n == 0 then {}
                                                                else s.embedded * PaperRows(s.db, paperId)
    ensures LostSparse(Dropped(s, paperId, n)) == LostSparse(s) + if n < 2 then {}
                                                                  else s.embedded * PaperRows(s.db, paperId)
  {
  }

  /** What a re-index, wherever it stops, leaves marked chunks without: it loses the
      paper's, and finds again those it has written. */
  lemma ReindexLoses<Id(!new), T(!new), Term(!new)>(
    s0: Picture<Id, T, Term>, s1: Picture<Id, T, Term>, paperId: Id, fuel: nat, completed: bool, dense: set<Id>,
    sparse: set<Id>, k: Encoders<T, Term>)
    requires Sound(s0) && Rewritten(s0, s1, paperId, fuel, completed, dense, sparse, k)
    ensures Sound(s1) && s1.db == s0.db
    ensures LostDense(s1) == (LostDense(s0) + if fuel == 0 then {} else s0.embedded * PaperRows(s0.db, paperId)) - dense
    ensures LostSparse(s1) ==
              (LostSparse(s0) + if fuel < 2 then {} else s0.embedded * PaperRows(s0.db, paperId)) - sparse
  {
    var dropped := Dropped(s0, paperId, Drops(fuel));
    var marked :| Wrote(dropped, s1, marked, dense, sparse, k);
    DroppingLoses(s0, paperId, Drops(fuel));
    WritingKeepsSound(dropped, s1, marked, dense, sparse, k);
    WritingRestores(dropped, s1, marked, dense, sparse, k);
  }

  /** A re-index that stops somewhere keeps the invariant if and only if it has not
      begun, or has written again every marked chunk of the paper. */
  lemma ReindexKeepsStepIff<Id(!new), T(!new), Term(!new)>(
    s0: Picture<Id, T, Term>, s1: Picture<Id, T, Term>, paperId: Id, fuel: nat, completed: bool, dense: set<Id>,
    sparse: set<Id>, k: Encoders<T, Term>)
    requires InStep(s0) && Rewritten(s0, s1, paperId, fuel, completed, dense, sparse, k)
    ensures InStep(s1) <==> fuel == 0 || s0.embedded * PaperRows(s0.db, paperId) <= sparse
  {
    ReindexLoses(s0, s1, paperId, fuel, completed, dense, sparse, k);
    var lost := s0.embedded * PaperRows(s0.db, paperId);
    NoneLeft({}, lost, dense);
    NoneLeft({}, lost, sparse);
    NoneLeft({}, {}, dense);
    NoneLeft({}, {}, sparse);
  }

  /** A re-index that completes establishes the invariant for the whole database if and
      only if nothing outside the paper was lost before. */
  lemma ReindexRestoresIff<Id(!new), T(!new), Term(!new)>(
    s0: Picture<Id, T, Term>, s1: Picture<Id, T, Term>, paperId: Id, fuel: nat, dense: set<Id>, sparse: set<Id>,
    k: Encoders<T, Term>)
    requires Sound(s0) && Rewritten(s0, s1, paperId, fuel, true, dense, sparse, k)
    ensures InStep(s1) <==> LostDense(s0) + LostSparse(s0) <= PaperRows(s0.db, paperId)
  {
    ReindexLoses(s0, s1, paperId, fuel, true, dense, sparse, k);
    var rows := PaperRows(s0.db, paperId);
    NoneLeft(LostDense(s0), s0.embedded * rows, rows);
    NoneLeft(LostSparse(s0), s0.embedded * rows, rows);
  }

  lemma NoneLeft<T>(a: set<T>, b: set<T>, c: set<T>)
    ensures (a + b) - c == {} <==> a <= c && b <= c
    ensures a - c == {} <==> a <= c
  {
    if (a + b) - c == {} {
      forall x | x in a + b ensures x in c { assert x !in (a + b) - c; }
    }
    if a - c == {} {
      forall x | x in a ensures x in c { assert x !in a - c; }
    }
  }

  /** Both indexes hold the paper's rows and nothing else of the paper. */
  ghost predicate HoldsExactly<Id(!new), T(!new), Term(!new)>(s: Picture<Id, T, Term>, paperId: Id) {
    && VectorStores.OfPaper(s.records, paperId) == PaperRows(s.db, paperId)
    && Bm25.OfPaper(s.docs, paperId) == PaperRows(s.db, paperId)
  }

  ghost predicate HoldsNothing<Id(!new), T(!new), Term(!new)>(s: Picture<Id, T, Term>, paperId: Id) {
    VectorStores.OfPaper(s.records, paperId) == {} && Bm25.OfPaper(s.docs, paperId) == {}
  }

  /** After a completed re-index of a paper with rows, what both indexes hold of the
      paper is exactly its rows. */
  lemma ReindexIsExact<Id(!new), T(!new), Term(!new)>(
    s0: Picture<Id, T, Term>, s1: Picture<Id, T, Term>, paperId: Id, fuel: nat, dense: set<Id>, sparse: set<Id>,
    k: Encoders<T, Term>)
    requires Rewritten(s0, s1, paperId, fuel, true, dense, sparse, k)
    ensures HoldsExactly(s1, paperId)
  {
    var dropped := Dropped(s0, paperId, 2);
    var marked :| Wrote(dropped, s1, marked, dense, sparse, k);
    forall id ensures id in VectorStores.OfPaper(s1.records, paperId) <==> id in PaperRows(s0.db, paperId) {
      assert if id in dense then id in s1.records && Current(s1.records[id], id, s0.db, k)
             else SameAt(dropped.records, s1.records, id);
    }
    forall id ensures id in Bm25.OfPaper(s1.docs, paperId) <==> id in PaperRows(s0.db, paperId) {
      assert if id in sparse then id in s1.docs && CurrentDoc(s1.docs[id], id, s0.db, k)
             else SameAt(dropped.docs, s1.docs, id);
    }
  }

  /** All that follows for `index_paper`. */
  lemma ReindexConsequences<Id(!new), T(!new), Term(!new)>(
    s0: Picture<Id, T, Term>, s1: Picture<Id, T, Term>, paperId: Id, fuel: nat, completed: bool, dense: set<Id>,
    sparse: set<Id>, k: Encoders<T, Term>)
    requires Rewritten(s0, s1, paperId, fuel, completed, dense, sparse, k)
    ensures Sound(s0) ==> Sound(s1)
    ensures InStep(s0) && s0.embedded * PaperRows(s0.db, paperId) == {} ==> InStep(s1)
    ensures InStep(s0) && 1 <= fuel <= 2 ==> (InStep(s1) <==> s0.embedded * PaperRows(s0.db, paperId) == {})
    ensures Sound(s0) && completed ==> (InStep(s1) <==> LostDense(s0) + LostSparse(s0) <= PaperRows(s0.db, paperId))
    ensures completed ==> HoldsExactly(s1, paperId)
  {
    if Sound(s0) {
      ReindexLoses(s0, s1, paperId, fuel, completed, dense, sparse, k);
      if InStep(s0) { ReindexKeepsStepIff(s0, s1, paperId, fuel, completed, dense, sparse, k); }
      if completed { ReindexRestoresIff(s0, s1, paperId, fuel, dense, sparse, k); }
    }
    if completed { ReindexIsExact(s0, s1, paperId, fuel, dense, sparse, k); }
  }

  // ---------------------------------------------------------------- rebuilds

  /** The sparse index holds these chunks, currently, and nothing else. */
  ghost predicate RebuiltTo<Id(!new), T(!new), Term(!new)>(s0: Picture<Id, T, Term>, s1: Picture<Id, T, Term>,
                                                           added: set<Id>, k: Encoders<T, Term>)
  {
    && s1 == s0.(docs := s1.docs) && added <= s0.db.chunks.Keys && s1.docs.Keys == added
    && (forall id :: id in added ==> CurrentDoc(s1.docs[id], id, s0.db, k))
  }

  /** After a rebuild that stops somewhere, the invariant holds if and only if every
      marked chunk was reached, given that the dense index has them all. */
  lemma RebuildKeepsStepIff<Id(!new), T(!new), Term(!new)>(
    s0: Picture<Id, T, Term>, s1: Picture<Id, T, Term>, added: set<Id>, k: Encoders<T, Term>)
    requires Sound(s0) && RebuiltTo(s0, s1, added, k)
    ensures Sound(s1) && LostDense(s1) == LostDense(s0) && LostSparse(s1) == s0.embedded - added
    ensures InStep(s1) <==> LostDense(s0) == {} && s0.embedded <= added
  {
    forall id | id in s0.db.chunks && id in s1.docs
      ensures s1.docs[id].paperId == s0.db.chunks[id].paperId && Describes(s1.docs[id].metadata, s0.db.chunks[id])
    {
      assert CurrentDoc(s1.docs[id], id, s0.db, k);
    }
    NoneLeft(s0.embedded, {}, added);
  }

  function DocumentsOf<Id, T, Term>(order: seq<Id>, db: Database<Id, T>, k: Encoders<T, Term>)
    : (r: seq<Bm25.Document<Id, Term, Metadata<Id, T>>>)
    requires Rows(order, db)
    ensures |r| == |order| && forall i :: 0 <= i < |r| ==> r[i] == DocumentOf(order[i], db, k)
  {
    seq(|order|, i requires 0 <= i < |order| => DocumentOf(order[i], db, k))
  }

  function TokensOf<Id, T, Term>(order: seq<Id>, db: Database<Id, T>, k: Encoders<T, Term>): (r: seq<seq<Term>>)
    requires Rows(order, db)
    ensures |r| == |order| && forall i :: 0 <= i < |r| ==> r[i] == k.tokens(db.chunks[order[i]].content)
  {
    seq(|order|, i requires 0 <= i < |order| => k.tokens(db.chunks[order[i]].content))
  }

  lemma ListedOnce<Id(!new), T, Term>(order: seq<Id>, rows: seq<Bm25.Document<Id, Term, Metadata<Id, T>>>,
                                      db: Database<Id, T>, k: Encoders<T, Term>)
    requires Rows(order, db) && rows == DocumentsOf(order, db, k)
    requires forall i, j :: 0 <= i < j < |order| ==> order[i] != order[j]
    ensures forall i, j :: 0 <= i < j < |rows| ==> rows[i].chunkId != rows[j].chunkId
    ensures forall i :: 0 <= i < |rows| ==> rows[i].length == |TokensOf(order, db, k)[i]|
                                            && rows[i].termFrequencies == multiset(TokensOf(order, db, k)[i])
  {
    forall i, j | 0 <= i < j < |rows| ensures rows[i].chunkId != rows[j].chunkId {
      assert rows[i].chunkId == order[i] && rows[j].chunkId == order[j];
    }
  }

  lemma OrderCount<Id(!new)>(order: seq<Id>, keys: set<Id>)
    requires forall id :: id in order <==> id in keys
    requires forall i, j :: 0 <= i < j < |order| ==> order[i] != order[j]
    ensures |order| == |keys| && IdsOf(order) == keys
  {
    assert DistinctBy(order, Itself);
    DistinctCount(order);
    assert IdsOf(order) == keys;
  }

  lemma RebuiltFromRows<Id(!new), T(!new), Term(!new)>(
    s0: Picture<Id, T, Term>, docs: Docs<Id, Term, T>, order: seq<Id>,
    rows: seq<Bm25.Document<Id, Term, Metadata<Id, T>>>, count: nat, k: Encoders<T, Term>)
    requires count <= |order| && Rows(order, s0.db) && rows == DocumentsOf(order, s0.db, k)
    requires Bm25.Lists(rows[..count], docs)
    ensures RebuiltTo(s0, s0.(docs := docs), IdsOf(order[..count]), k)
  {
    var added := IdsOf(order[..count]);
    forall id | id in added ensures id in docs && id in s0.db.chunks && CurrentDoc(docs[id], id, s0.db, k) {
      var i :| 0 <= i < count && order[..count][i] == id;
      assert rows[..count][i] == DocumentOf(id, s0.db, k);
    }
    forall id | id in docs ensures id in added {
      var i :| 0 <= i < count && rows[..count][i] == docs[id];
      assert order[..count][i] == id;
    }
  }

  // ------------------------------------------------------------ replacements

  /** Rows for this paper whose ids are in use nowhere. */
  ghost predicate NewRows<Id(!new), T(!new), Term(!new)>(s: Picture<Id, T, Term>, paperId: Id,
                                                         rows: map<Id, ChunkRow<Id, T>>)
  {
    forall id :: id in rows ==> rows[id].paperId == paperId && id !in s.db.chunks && id !in s.records && id !in s.docs
  }

  /** The paper's rows deleted and these inserted, unmarked; the indexes do not notice. */
  function Replaced<Id(==), T, Term(==)>(s: Picture<Id, T, Term>, paperId: Id, rows: map<Id, ChunkRow<Id, T>>)
    : Picture<Id, T, Term>
  {
    s.(db := s.db.(chunks := (s.db.chunks - PaperRows(s.db, paperId)) + rows),
       embedded := s.embedded - PaperRows(s.db, paperId))
  }

  /** Replacing a paper's rows loses nothing that is still marked. */
  lemma ReplacingKeepsSound<Id(!new), T(!new), Term(!new)>(s: Picture<Id, T, Term>, paperId: Id,
                                                           rows: map<Id, ChunkRow<Id, T>>)
    requires Sound(s) && paperId in s.db.papers && NewRows(s, paperId, rows)
    ensures var after := Replaced(s, paperId, rows);
            && Sound(after) && LostDense(after) == LostDense(s) - PaperRows(s.db, paperId)
            && LostSparse(after) == LostSparse(s) - PaperRows(s.db, paperId)
  {
  }

  function Unmarked<Id(==), T, Term(==)>(s: Picture<Id, T, Term>): int {
    |s.db.chunks.Keys| - |s.embedded|
  }

  lemma ReplacingCounts<Id(!new), T(!new), Term(!new)>(s: Picture<Id, T, Term>, paperId: Id,
                                                       rows: map<Id, ChunkRow<Id, T>>)
    requires Sound(s) && NewRows(s, paperId, rows)
    ensures Unmarked(Replaced(s, paperId, rows)) <= Unmarked(s) + |rows|
  {
    var keys, gone := s.db.chunks.Keys, PaperRows(s.db, paperId);
    assert ((s.db.chunks - gone) + rows).Keys == (keys - gone) + rows.Keys;
    Exchange(keys, gone, rows.Keys, s.embedded);
  }

  lemma Exchange<T>(all: set<T>, gone: set<T>, others: set<T>, some: set<T>)
    requires gone <= all && others !! all && some <= all
    ensures |(all - gone) + others| - |some - gone| <= |all| - |some| + |others|
  {
    Disjoint(all - gone, others);
    Disjoint(all - gone, gone);
    assert all == (all - gone) + gone;
    Disjoint(some - gone, some * gone);
    assert some == (some - gone) + some * gone;
    SubsetSize(some * gone, gone);
  }

  // -------------------------------------------------------------- whole runs

  /** A run that returns, or one that an exception or a dying process cuts short. */
  datatype Outcome = Completed(indexed: nat) | Interrupted

  datatype Event<Id(==), T> =
    | Run(paperId: Id, reindex: bool, fuel: nat)
    | Rebuild(fuel: nat)
    | Replace(paperId: Id, rows: map<Id, ChunkRow<Id, T>>)

  /** One event, how it ended, which chunks a re-index wrote anew into either index or a
      rebuild added to the sparse one, and the picture after it. */
  datatype Turn<Id(==), T, Term(==)> =
    Turn(event: Event<Id, T>, outcome: Outcome, dense: set<Id>, sparse: set<Id>, after: Picture<Id, T, Term>)

  /** How one event takes the indexer from one picture to the next. */
  ghost predicate Step<Id(!new), T(!new), Term(!new)>(s0: Picture<Id, T, Term>, t: Turn<Id, T, Term>,
                                                      k: Encoders<T, Term>)
  {
    match t.event
    case Run(paperId, reindex, fuel) => Ran(s0, t.after, paperId, reindex, fuel, t.outcome.Completed?, t.dense,
                                            t.sparse, k)
    case Rebuild(_) => RebuiltTo(s0, t.after, t.sparse, k) && (t.outcome.Completed? ==> t.sparse == s0.db.chunks.Keys)
    case Replace(paperId, rows) => t.after == if Accepted(s0, paperId, rows) then Replaced(s0, paperId, rows) else s0
  }

  ghost predicate Accepted<Id(!new), T(!new), Term(!new)>(s: Picture<Id, T, Term>, paperId: Id,
                                                          rows: map<Id, ChunkRow<Id, T>>)
  {
    paperId in s.db.papers && NewRows(s, paperId, rows)
  }

  lemma ReplacementCounts<Id(!new), T(!new), Term(!new)>(
    s0: Picture<Id, T, Term>, s1: Picture<Id, T, Term>, paperId: Id, rows: map<Id, ChunkRow<Id, T>>)
    requires s1 == if Accepted(s0, paperId, rows) then Replaced(s0, paperId, rows) else s0
    ensures Sound(s0) ==> Unmarked(s1) <= Unmarked(s0) + |rows|
  {
    if Sound(s0) && s1 != s0 { ReplacingCounts(s0, paperId, rows); }
  }

  function EndOf<Id(==), T, Term(==)>(s: Picture<Id, T, Term>, turns: seq<Turn<Id, T, Term>>): Picture<Id, T, Term> {
    if |turns| == 0 then s else turns[|turns| - 1].after
  }

  function Front<T>(xs: seq<T>): seq<T>
    requires |xs| > 0
  {
    xs[..|xs| - 1]
  }

  function Last<T>(xs: seq<T>): T
    requires |xs| > 0
  {
    xs[|xs| - 1]
  }

  /** These events, one after the other from this picture. */
  ghost predicate Happened<Id(!new), T(!new), Term(!new)>(s: Picture<Id, T, Term>, turns: seq<Turn<Id, T, Term>>,
                                                          k: Encoders<T, Term>)
  {
    |turns| > 0 ==>
      Happened(s, Front(turns), k) && Step(EndOf(s, Front(turns)), Last(turns), k)
  }

  ghost predicate Logged<Id(!new), T(!new), Term(!new)>(turns: seq<Turn<Id, T, Term>>, events: seq<Event<Id, T>>,
                                                        outcomes: seq<Outcome>)
  {
    && |turns| == |events| == |outcomes|
    && forall i :: 0 <= i < |turns| ==> turns[i].event == events[i] && turns[i].outcome == outcomes[i]
  }

  lemma LoggedSnoc<Id(!new), T(!new), Term(!new)>(turns: seq<Turn<Id, T, Term>>, events: seq<Event<Id, T>>, n: nat,
                                                  outcomes: seq<Outcome>, turn: Turn<Id, T, Term>)
    requires n < |events| && Logged(turns, events[..n], outcomes) && turn.event == events[n]
    ensures Logged(turns + [turn], events[..n + 1], outcomes + [turn.outcome])
  {
  }

  /** How many chunks an event asks to be embedded that were not waiting already. */
  function Asked<Id(==), T, Term(==)>(s: Picture<Id, T, Term>, event: Event<Id, T>): nat {
    match event
    case Run(paperId, reindex, _) => if reindex then |PaperRows(s.db, paperId)| else 0
    case Rebuild(_) => 0
    case Replace(_, rows) => |rows|
  }

  function TotalAsked<Id(==), T, Term(==)>(s: Picture<Id, T, Term>, turns: seq<Turn<Id, T, Term>>): nat {
    if |turns| == 0 then 0 else TotalAsked(s, Front(turns)) + Asked(EndOf(s, Front(turns)), Last(turns).event)
  }

  lemma TurnsSnoc<Id(!new), T(!new), Term(!new)>(s: Picture<Id, T, Term>, turns: seq<Turn<Id, T, Term>>,
                                                 turn: Turn<Id, T, Term>, k: Encoders<T, Term>)
    requires Happened(s, turns, k) && Step(EndOf(s, turns), turn, k)
    ensures Happened(s, turns + [turn], k) && EndOf(s, turns + [turn]) == turn.after
    ensures TotalAsked(s, turns + [turn]) == TotalAsked(s, turns) + Asked(EndOf(s, turns), turn.event)
  {
    assert Front(turns + [turn]) == turns;
  }

  /** What marked chunks lack in either index. */
  datatype Lost<Id(==)> = Lost(dense: set<Id>, sparse: set<Id>)

  function LostOf<Id(==), T, Term(==)>(s: Picture<Id, T, Term>): Lost<Id> {
    Lost(LostDense(s), LostSparse(s))
  }

  /** How one event changes what is lost: a re-index loses the paper's marked chunks and
      finds those it wrote, a rebuild loses the marked chunks it did not reach and finds
      all others, a replacement takes its paper's losses with it. */
  ghost function LostIn<Id(!new), T(!new), Term(!new)>(s0: Picture<Id, T, Term>, lost: Lost<Id>, t: Turn<Id, T, Term>)
    : Lost<Id>
  {
    match t.event
    case Run(paperId, reindex, fuel) =>
      var marked := s0.embedded * PaperRows(s0.db, paperId);
      if !reindex || PaperRows(s0.db, paperId) == {} then lost
      else Lost((lost.dense + if fuel == 0 then {} else marked) - t.dense,
                (lost.sparse + if fuel < 2 then {} else marked) - t.sparse)
    case Rebuild(_) => Lost(lost.dense, s0.embedded - t.sparse)
    case Replace(paperId, rows) =>
      if !Accepted(s0, paperId, rows) then lost
      else Lost(lost.dense - PaperRows(s0.db, paperId), lost.sparse - PaperRows(s0.db, paperId))
  }

  ghost function LostAfter<Id(!new), T(!new), Term(!new)>(s: Picture<Id, T, Term>, turns: seq<Turn<Id, T, Term>>)
    : Lost<Id>
  {
    if |turns| == 0 then LostOf(s) else LostIn(EndOf(s, Front(turns)), LostAfter(s, Front(turns)), Last(turns))
  }

  /** No event, cut short anywhere, marks a chunk without a row or leaves an entry that
      misdescribes its row; and what it loses is exactly that. */
  lemma StepLoses<Id(!new), T(!new), Term(!new)>(s0: Picture<Id, T, Term>, t: Turn<Id, T, Term>, k: Encoders<T, Term>)
    requires Sound(s0) && Step(s0, t, k)
    ensures Sound(t.after) && LostOf(t.after) == LostIn(s0, LostOf(s0), t)
  {
    match t.event
    case Run(paperId, reindex, fuel) =>
      if reindex && PaperRows(s0.db, paperId) != {} {
        ReindexLoses(s0, t.after, paperId, fuel, t.outcome.Completed?, t.dense, t.sparse, k);
      }
    case Rebuild(_) => RebuildKeepsStepIff(s0, t.after, t.sparse, k);
    case Replace(paperId, rows) =>
      if Accepted(s0, paperId, rows) { ReplacingKeepsSound(s0, paperId, rows); }
  }

  lemma {:induction false} HistoryKeepsSound<Id(!new), T(!new), Term(!new)>(
    s: Picture<Id, T, Term>, turns: seq<Turn<Id, T, Term>>, k: Encoders<T, Term>)
    requires Sound(s) && Happened(s, turns, k)
    ensures Sound(EndOf(s, turns))
  {
    if |turns| > 0 {
      HistoryKeepsSound(s, Front(turns), k);
      StepLoses(EndOf(s, Front(turns)), Last(turns), k);
    }
  }

  lemma {:induction false} HistoryLoses<Id(!new), T(!new), Term(!new)>(
    s: Picture<Id, T, Term>, turns: seq<Turn<Id, T, Term>>, k: Encoders<T, Term>)
    requires Sound(s) && Happened(s, turns, k)
    ensures LostAfter(s, turns) == LostOf(EndOf(s, turns))
  {
    if |turns| > 0 {
      HistoryLoses(s, Front(turns), k);
      HistoryKeepsSound(s, Front(turns), k);
      StepLoses(EndOf(s, Front(turns)), Last(turns), k);
    }
  }

  /** The exact account: after any history, each event cut short anywhere or not, every
      marked chunk is in both indexes if and only if the books, kept from what each
      re-index and rebuild wrote, show nothing lost. */
  lemma HistoryIsInStepIff<Id(!new), T(!new), Term(!new)>(
    s: Picture<Id, T, Term>, turns: seq<Turn<Id, T, Term>>, k: Encoders<T, Term>)
    requires Sound(s) && Happened(s, turns, k)
    ensures LostAfter(s, turns) == LostOf(EndOf(s, turns))
    ensures InStep(EndOf(s, turns)) <==> LostAfter(s, turns) == Lost({}, {})
  {
    HistoryLoses(s, turns, k);
    HistoryKeepsSound(s, turns, k);
  }

  predicate IsReindex<Id(==), T>(event: Event<Id, T>) {
    event.Run? && event.reindex
  }

  /** The papers whose last re-index was cut short. */
  function HalfDone<Id(==), T, Term(==)>(turns: seq<Turn<Id, T, Term>>): set<Id> {
    if |turns| == 0 then {}
    else
      match Last(turns).event
      case Run(paperId, true, _) =>
        if Last(turns).outcome.Completed? then HalfDone(Front(turns)) - {paperId}
        else HalfDone(Front(turns)) + {paperId}
      case _ => HalfDone(Front(turns))
  }

  /** The last rebuild, if there was one, ran to its end. */
  predicate LastRebuildCompleted<Id(==), T, Term(==)>(turns: seq<Turn<Id, T, Term>>) {
    |turns| > 0 ==> if Last(turns).event.Rebuild? then Last(turns).outcome.Completed?
                    else LastRebuildCompleted(Front(turns))
  }

  /** Marked chunks of these papers. */
  function OfPapers<Id(==), T, Term(==)>(s: Picture<Id, T, Term>, papers: set<Id>): set<Id> {
    set id | id in s.embedded && id in s.db.chunks && s.db.chunks[id].paperId in papers
  }

  /** What a history can have cost: only half-done papers lack dense entries, and only
      they lack sparse ones once a rebuild has run to its end. */
  ghost predicate LossIsLocal<Id(!new), T(!new), Term(!new)>(s: Picture<Id, T, Term>, papers: set<Id>, rebuilt: bool) {
    Sound(s) && LostDense(s) <= OfPapers(s, papers) && (rebuilt ==> LostSparse(s) <= OfPapers(s, papers))
  }

  lemma ReindexKeepsLossLocal<Id(!new), T(!new), Term(!new)>(
    s0: Picture<Id, T, Term>, s1: Picture<Id, T, Term>, paperId: Id, fuel: nat, completed: bool, dense: set<Id>,
    sparse: set<Id>, papers: set<Id>, rebuilt: bool, k: Encoders<T, Term>)
    requires LossIsLocal(s0, papers, rebuilt) && Ran(s0, s1, paperId, true, fuel, completed, dense, sparse, k)
    ensures LossIsLocal(s1, if completed then papers - {paperId} else papers + {paperId}, rebuilt)
  {
    var rows := PaperRows(s0.db, paperId);
    var papers' := if completed then papers - {paperId} else papers + {paperId};
    forall id | id in OfPapers(s0, papers) && id !in rows ensures id in OfPapers(s0, papers - {paperId}) {}
    if rows != {} {
      ReindexLoses(s0, s1, paperId, fuel, completed, dense, sparse, k);
      if completed {
        assert LostDense(s1) <= OfPapers(s0, papers) - rows;
        assert rebuilt ==> LostSparse(s1) <= OfPapers(s0, papers) - rows;
      } else {
        assert s0.embedded * rows <= OfPapers(s0, papers + {paperId});
      }
      assert OfPapers(s0, papers') <= OfPapers(s1, papers');
    }
  }

  lemma StepKeepsLossLocal<Id(!new), T(!new), Term(!new)>(
    s0: Picture<Id, T, Term>, t: Turn<Id, T, Term>, papers: set<Id>, rebuilt: bool, k: Encoders<T, Term>)
    requires LossIsLocal(s0, papers, rebuilt) && Step(s0, t, k) && !IsReindex(t.event)
    ensures LossIsLocal(t.after, papers, if t.event.Rebuild? then t.outcome.Completed? else rebuilt)
  {
    StepLoses(s0, t, k);
  }

  lemma {:induction false} HistoryKeepsLossLocal<Id(!new), T(!new), Term(!new)>(
    s: Picture<Id, T, Term>, turns: seq<Turn<Id, T, Term>>, k: Encoders<T, Term>)
    requires InStep(s) && Happened(s, turns, k)
    ensures LossIsLocal(EndOf(s, turns), HalfDone(turns), LastRebuildCompleted(turns))
  {
    if |turns| > 0 {
      HistoryKeepsLossLocal(s, Front(turns), k);
      var s0, t := EndOf(s, Front(turns)), Last(turns);
      var papers, rebuilt := HalfDone(Front(turns)), LastRebuildCompleted(Front(turns));
      if IsReindex(t.event) {
        ReindexKeepsLossLocal(s0, t.after, t.event.paperId, t.event.fuel, t.outcome.Completed?, t.dense, t.sparse,
                              papers, rebuilt, k);
      } else {
        StepKeepsLossLocal(s0, t, papers, rebuilt, k);
      }
    }
  }

  /** The crash theorem: after any sequence of runs, re-indexes, rebuilds and
      replacements, each cut short anywhere or not, every marked chunk is in both indexes
      again as soon as the last rebuild ran to its end and so did the last re-index of
      each paper. */
  lemma SettledHistoryIsInStep<Id(!new), T(!new), Term(!new)>(
    s: Picture<Id, T, Term>, turns: seq<Turn<Id, T, Term>>, k: Encoders<T, Term>)
    requires InStep(s) && Happened(s, turns, k)
    ensures HalfDone(turns) == {} && LastRebuildCompleted(turns) ==> InStep(EndOf(s, turns))
    ensures HalfDone(turns) == {} ==> Sound(EndOf(s, turns)) && LostDense(EndOf(s, turns)) == {}
  {
    HistoryKeepsLossLocal(s, turns, k);
    var end := EndOf(s, turns);
    if HalfDone(turns) == {} { assert OfPapers(end, HalfDone(turns)) == {}; }
  }

  ghost predicate NoReindex<Id(!new), T(!new), Term(!new)>(turns: seq<Turn<Id, T, Term>>) {
    forall i :: 0 <= i < |turns| ==> !IsReindex(turns[i].event)
  }

  ghost predicate NoRebuild<Id(!new), T(!new), Term(!new)>(turns: seq<Turn<Id, T, Term>>) {
    forall i :: 0 <= i < |turns| ==> !turns[i].event.Rebuild?
  }

  /** What runs and replacements leave of the chunks a rebuild did not reach. */
  lemma {:induction false} MissedStayMissed<Id(!new), T(!new), Term(!new)>(
    s: Picture<Id, T, Term>, turns: seq<Turn<Id, T, Term>>, k: Encoders<T, Term>)
    requires Sound(s) && LostDense(s) == {} && Happened(s, turns, k) && NoReindex(turns) && NoRebuild(turns)
    ensures var end := EndOf(s, turns);
            && Sound(end) && LostDense(end) == {} && LostSparse(end) == LostSparse(s) * end.embedded
            && s.records.Keys <= end.records.Keys && s.embedded * end.db.chunks.Keys <= end.embedded
  {
    if |turns| > 0 {
      var front := Front(turns);
      assert NoReindex(front) && NoRebuild(front) by {
        forall i | 0 <= i < |front| ensures !IsReindex(front[i].event) && !front[i].event.Rebuild? {
          assert front[i] == turns[i];
        }
      }
      MissedStayMissed(s, front, k);
      MissedStep(s, EndOf(s, front), Last(turns), k);
    }
  }

  lemma MissedStep<Id(!new), T(!new), Term(!new)>(
    s: Picture<Id, T, Term>, s0: Picture<Id, T, Term>, t: Turn<Id, T, Term>, k: Encoders<T, Term>)
    requires Sound(s) && Sound(s0) && LostDense(s) == {} && LostDense(s0) == {}
             && LostSparse(s0) == LostSparse(s) * s0.embedded
    requires s.records.Keys <= s0.records.Keys && s.embedded * s0.db.chunks.Keys <= s0.embedded
    requires Step(s0, t, k) && !t.event.Rebuild? && !IsReindex(t.event)
    ensures var s1 := t.after;
            && Sound(s1) && LostDense(s1) == {} && LostSparse(s1) == LostSparse(s) * s1.embedded
            && s.records.Keys <= s1.records.Keys && s.embedded * s1.db.chunks.Keys <= s1.embedded
  {
    var s1 := t.after;
    if t.event.Replace? && s1 != s0 {
      var paperId, rows := t.event.paperId, t.event.rows;
      ReplacingKeepsSound(s0, paperId, rows);
      forall id | id in s.embedded * s1.db.chunks.Keys ensures id in s1.embedded {
        assert id !in LostDense(s);
        assert id in s.records && id !in rows;
      }
    } else if t.event.Run? {
      forall id | id in LostSparse(s) && id in s1.embedded ensures id in s0.embedded {
        assert id in s0.db.chunks && id in s.embedded * s0.db.chunks.Keys;
      }
    }
  }

  /** After a rebuild cut short, and whatever runs and replacements follow it, the
      invariant holds if and only if no chunk that was marked and not reached is marked
      still; after a rebuild that ran to its end it holds. */
  lemma LastRebuildDecides<Id(!new), T(!new), Term(!new)>(
    s0: Picture<Id, T, Term>, s: Picture<Id, T, Term>, added: set<Id>, turns: seq<Turn<Id, T, Term>>,
    k: Encoders<T, Term>)
    requires Sound(s0) && LostDense(s0) == {} && RebuiltTo(s0, s, added, k)
    requires Happened(s, turns, k) && NoReindex(turns) && NoRebuild(turns)
    ensures InStep(EndOf(s, turns)) <==> (s0.embedded - added) * EndOf(s, turns).embedded == {}
    ensures added == s0.db.chunks.Keys ==> InStep(EndOf(s, turns))
  {
    RebuildKeepsStepIff(s0, s, added, k);
    MissedStayMissed(s, turns, k);
  }

  /** The start-up whose rebuild fails right after clearing: every marked chunk is in no
      sparse index, no later run without re-indexing brings one back, and a later
      rebuild that runs to its end does. */
  lemma FailedRebuildLosesAll<Id(!new), T(!new), Term(!new)>(
    s0: Picture<Id, T, Term>, s1: Picture<Id, T, Term>, s2: Picture<Id, T, Term>, s3: Picture<Id, T, Term>, paperId: Id,
    k: Encoders<T, Term>)
    requires InStep(s0) && RebuiltTo(s0, s1, {}, k) && Continued(s1, s2, paperId)
             && RebuiltTo(s2, s3, s2.db.chunks.Keys, k)
    ensures LostSparse(s1) == LostSparse(s2) == s0.embedded && InStep(s3)
    ensures s0.embedded != {} ==> !InStep(s1) && !InStep(s2)
  {
    ClearedLosesAll(s0, s1, k);
    RebuildKeepsStepIff(s2, s3, s2.db.chunks.Keys, k);
  }

  lemma ClearedLosesAll<Id(!new), T(!new), Term(!new)>(s0: Picture<Id, T, Term>, s1: Picture<Id, T, Term>,
                                                       k: Encoders<T, Term>)
    requires InStep(s0) && RebuiltTo(s0, s1, {}, k)
    ensures Sound(s1) && LostDense(s1) == {} && LostSparse(s1) == s0.embedded
  {
    RebuildKeepsStepIff(s0, s1, {}, k);
    assert s0.embedded - {} == s0.embedded;
  }

  /** An interrupted run may have sent a batch to the embedder that it did not mark. */
  predicate Crashed<Id(==), T, Term(==)>(t: Turn<Id, T, Term>) {
    t.event.Run? && t.outcome.Interrupted?
  }

  function Crashes<Id(==), T, Term(==)>(turns: seq<Turn<Id, T, Term>>): nat {
    if |turns| == 0 then 0 else Crashes(Front(turns)) + if Crashed(Last(turns)) then 1 else 0
  }

  lemma CrashesSnoc<Id, T, Term>(turns: seq<Turn<Id, T, Term>>, t: Turn<Id, T, Term>, batchSize: nat)
    ensures Crashes(turns + [t]) * batchSize == Crashes(turns) * batchSize + if Crashed(t) then batchSize else 0
  {
    assert Front(turns + [t]) == turns;
    if Crashed(t) {
      assert (Crashes(turns) + 1) * batchSize == Crashes(turns) * batchSize + batchSize;
    }
  }

  function Itself<Id>(id: Id): Id { id }

  function Wanted<Id(==), T>(db: Database<Id, T>, embedded: set<Id>, paperId: Id, reindex: bool): Id -> bool {
    id => id in db.chunks && db.chunks[id].paperId == paperId && (reindex || id !in embedded)
  }

  function ByChunkIndex<Id(==), T>(db: Database<Id, T>): Id -> Key {
    id => Key(if id in db.chunks then -(db.chunks[id].chunkIndex as real) else 0.0, 0)
  }

  lemma IdsSnoc<Id>(batch: seq<Id>, x: Id)
    ensures IdsOf(batch + [x]) == IdsOf(batch) + {x}
  {
  }

  lemma OneMore<Id>(s: set<Id>, x: Id)
    requires x !in s
    ensures |s + {x}| == |s| + 1
  {
  }

  lemma Disjoint<Id>(a: set<Id>, b: set<Id>)
    requires a !! b
    ensures |a + b| == |a| + |b|
  {
  }

  lemma LastIsNew<Id>(batch: seq<Id>)
    requires |batch| > 0 && DistinctBy(batch, Itself)
    ensures batch[|batch| - 1] !in batch[..|batch| - 1] && DistinctBy(batch[..|batch| - 1], Itself)
  {
    var n := |batch| - 1;
    forall i | 0 <= i < n ensures batch[..n][i] != batch[n] {
      assert Itself(batch[i]) != Itself(batch[n]);
    }
    forall i, j | 0 <= i < j < n ensures Itself(batch[..n][i]) != Itself(batch[..n][j]) {
      assert Itself(batch[i]) != Itself(batch[j]);
    }
  }

  lemma {:induction false} DistinctCount<Id>(batch: seq<Id>)
    requires DistinctBy(batch, Itself)
    ensures |IdsOf(batch)| == |batch|
  {
    if |batch| == 0 {
      assert IdsOf(batch) == {};
    } else {
      var n := |batch| - 1;
      LastIsNew(batch);
      DistinctCount(batch[..n]);
      IdsSnoc(batch[..n], batch[n]);
      OneMore(IdsOf(batch[..n]), batch[n]);
      assert batch == batch[..n] + [batch[n]];
    }
  }

  lemma CommittedCount<Id>(embedded: set<Id>, chunks: seq<Id>, done: nat)
    requires done <= |chunks| && DistinctBy(chunks, Itself) && IdsOf(chunks) !! embedded
    ensures |embedded + IdsOf(chunks[..done])| == |embedded| + done
  {
    IdsSplit(chunks, 0, done);
    Disjoint(embedded, IdsOf(chunks[..done]));
    PrefixDistinct(chunks, done);
    DistinctCount(chunks[..done]);
  }

  lemma PrefixDistinct<Id>(chunks: seq<Id>, done: nat)
    requires done <= |chunks| && DistinctBy(chunks, Itself)
    ensures DistinctBy(chunks[..done], Itself)
  {
    forall i, j | 0 <= i < j < done ensures Itself(chunks[..done][i]) != Itself(chunks[..done][j]) {
      assert Itself(chunks[i]) != Itself(chunks[j]);
    }
  }

  lemma IdsSplit<Id>(chunks: seq<Id>, start: nat, end: nat)
    requires start <= end <= |chunks|
    ensures IdsOf(chunks[..end]) == IdsOf(chunks[..start]) + IdsOf(chunks[start..end])
    ensures IdsOf(chunks[..end]) <= IdsOf(chunks)
  {
    assert chunks[..end] == chunks[..start] + chunks[start..end];
  }

  lemma PrefixWithin<Id>(chunks: seq<Id>, n: nat)
    requires n <= |chunks|
    ensures IdsOf(chunks[..n]) <= IdsOf(chunks)
  {
    IdsSplit(chunks, 0, n);
  }

  // ------------------------------------------------------------- the indexer

  class Indexer<Id(==, !new), T(==, !new), Term(==, !new)> {
    const k: Encoders<T, Term>
    const store: InMemoryVectorStore<Id, T>
    const bm25: Bm25.BM25Index<Id, Term, Metadata<Id, T>>
    var db: Database<Id, T>
    /** The chunks whose `is_embedded` column is set, as committed. */
    var embedded: set<Id>
    /** How many chunks have been sent to the embedder so far. */
    var sent: nat

    ghost predicate Valid()
      reads this, store, bm25
    {
      store.Valid() && bm25.Valid() && Intact(db)
    }

    ghost function Now(): Picture<Id, T, Term>
      reads this, store, bm25
    {
      Picture(db, embedded, store.records, bm25.documents)
    }

    constructor (k: Encoders<T, Term>, db: Database<Id, T>)
      requires Intact(db)
      ensures Valid() && fresh(store) && fresh(bm25) && this.k == k
      ensures Now() == Picture(db, {}, map[], map[]) && sent == 0
    {
      this.k, this.db, embedded, sent := k, db, {}, 0;
      store := new InMemoryVectorStore();
      bm25 := new Bm25.BM25Index();
    }

    /** The loop that adds a batch to the sparse index, up to where it is cut short. */
    method AddBatch(batch: seq<Id>, fuel: nat) returns (added: nat, left: nat)
      requires bm25.Valid() && Rows(batch, db)
      modifies bm25
      ensures bm25.Valid() && added <= |batch|
      ensures bm25.documents == Added(old(bm25.documents), batch[..added], db, k)
      ensures if fuel >= |batch| then added == |batch| && left == fuel - |batch| else added == fuel && left == 0
    {
      left := fuel;
      for i := 0 to |batch|
        invariant bm25.Valid() && bm25.documents == Added(old(bm25.documents), batch[..i], db, k)
        invariant left + i == fuel
      {
        if left == 0 { return i, 0; }
        left := left - 1;
        assert batch[..i + 1][..i] == batch[..i];
        var row := db.chunks[batch[i]];
        bm25.Add(batch[i], row.paperId, k.tokens(row.content),
                 SparseMetadata(batch[i], row, db.papers[row.paperId].workspaceId, k.empty));
      }
      added := |batch|;
    }

    /** Embed one batch, write it to both indexes, mark it as embedded. `fuel` steps
        are taken before the run is cut short. */
    method IndexBatch(batch: seq<Id>, fuel: nat) returns (ok: bool, left: nat, upserted: bool, added: nat)
      requires Valid() && Rows(batch, db)
      modifies this`embedded, this`sent, store, bm25
      ensures Valid() && added <= |batch| && (added > 0 ==> upserted) && (ok ==> upserted && added == |batch|)
      ensures upserted ==> |k.embed(ContentsOf(batch, db))| == |batch|
      ensures store.records == if upserted then
                                 Upserted(old(store.records), RecordsOf(batch, k.embed(ContentsOf(batch, db)), db, k))
                               else old(store.records)
      ensures bm25.documents == Added(old(bm25.documents), batch[..added], db, k)
      ensures embedded == if ok then old(embedded) + IdsOf(batch) else old(embedded)
      ensures old(sent) <= sent <= old(sent) + |batch| && (ok ==> sent == old(sent) + |batch|)
      ensures fuel == 0 ==> !upserted
      ensures ok <==> fuel >= |batch| + 3 && |k.embed(ContentsOf(batch, db))| == |batch|
      ensures ok ==> left == fuel - |batch| - 3
    {
      if fuel == 0 { return false, 0, false, 0; }
      sent := sent + |batch|;
      var vectors := k.embed(ContentsOf(batch, db));
      if |vectors| != |batch| || fuel == 1 { return false, 0, false, 0; }
      store.Upsert(RecordsOf(batch, vectors, db, k));
      upserted := true;
      added, left := AddBatch(batch, fuel - 2);
      if added < |batch| || left == 0 { return false, 0, true, added; }
      assert batch[..added] == batch;
      embedded := embedded + IdsOf(batch);
      ok, left := true, left - 1;
    }

    /** One turn of the loop over batches, in terms of the picture before the loop. */
    method IndexSlice(chunks: seq<Id>, start: nat, end: nat, fuel: nat, ghost s0: Picture<Id, T, Term>)
      returns (ok: bool, left: nat, ghost m: nat, ghost n: nat)
      requires Valid() && Rows(chunks, db) && start <= end <= |chunks|
      requires Wrote(s0, Now(), IdsOf(chunks[..start]), IdsOf(chunks[..start]), IdsOf(chunks[..start]), k)
      modifies this`embedded, this`sent, store, bm25
      ensures Valid() && start <= n <= m <= end && (ok ==> n == end) && (fuel == 0 ==> m == start)
      ensures Embeds(k) && fuel >= end - start + 3 ==> ok
      ensures ok ==> left == fuel - (end - start) - 3
      ensures old(sent) <= sent <= old(sent) + (end - start) && (ok ==> sent == old(sent) + (end - start))
      ensures Wrote(s0, Now(), IdsOf(chunks[..if ok then end else start]), IdsOf(chunks[..m]), IdsOf(chunks[..n]), k)
    {
      var batch := chunks[start..end];
      var upserted, added;
      ok, left, upserted, added := IndexBatch(batch, fuel);
      m, n := if upserted then end else start, start + added;
      TurnWrites(chunks, start, end, added, s0, old(Now()), Now(), ok, upserted, k);
    }

    /** The loop over batches: what it marked, wrote densely and wrote sparsely are
        prefixes of the chunks, each at least as long as the one before. */
    method IndexAll(chunks: seq<Id>, batchSize: nat, fuel: nat)
      returns (outcome: Outcome, ghost done: nat, ghost m: nat, ghost n: nat)
      requires Valid() && Rows(chunks, db) && batchSize >= 1
      modifies this`embedded, this`sent, store, bm25
      ensures Valid() && done <= n <= m <= |chunks| && (fuel == 0 ==> m == 0)
      ensures outcome.Completed? ==> done == |chunks| == outcome.indexed
      ensures Embeds(k) && fuel >= 4 * |chunks| ==> outcome.Completed?
      ensures sent <= old(sent) + done + if outcome.Completed? then 0 else batchSize
      ensures Wrote(old(Now()), Now(), IdsOf(chunks[..done]), IdsOf(chunks[..m]), IdsOf(chunks[..n]), k)
    {
      var start: nat, left: nat := 0, fuel;
      ghost var s0 := Now();
      NothingWritten(s0, k);
      assert IdsOf(chunks[..0]) == {};
      while start < |chunks|
        invariant start <= |chunks| && Valid() && Rows(chunks, db)
        invariant sent == old(sent) + start && (start == 0 ==> left == fuel) && (fuel == 0 ==> start == 0)
        invariant fuel >= 4 * |chunks| ==> left >= 4 * (|chunks| - start)
        invariant Wrote(s0, Now(), IdsOf(chunks[..start]), IdsOf(chunks[..start]), IdsOf(chunks[..start]), k)
      {
        var end := if start + batchSize < |chunks| then start + batchSize else |chunks|;
        var ok;
        ok, left, m, n := IndexSlice(chunks, start, end, left, s0);
        if !ok { return Interrupted, start, m, n; }
        start := end;
      }
      return Completed(|chunks|), |chunks|, |chunks|, |chunks|;
    }

    // ----------------------------------------------------------- whole runs

    /** The chunks a run has to do, in chunk order. */
    method Pending(paperId: Id, reindex: bool) returns (chunks: seq<Id>)
      requires Valid()
      ensures Rows(chunks, db) && DistinctBy(chunks, Itself)
      ensures IdsOf(chunks) == if reindex then PaperRows(db, paperId) else PaperRows(db, paperId) - embedded
      ensures forall i, j :: 0 <= i < j < |chunks| ==>
                db.chunks[chunks[i]].chunkIndex <= db.chunks[chunks[j]].chunkIndex
    {
      var order := IterationOrder(db.chunks);
      var wanted := Wanted(db, embedded, paperId, reindex);
      FilterMembers(order, wanted);
      FilterDistinct(order, wanted, Itself);
      var selected := Filter(order, wanted);
      SortSpec(selected, ByChunkIndex(db));
      SortDistinct(selected, ByChunkIndex(db), Itself);
      chunks := SortDescending(selected, ByChunkIndex(db));
      forall i | 0 <= i < |chunks| ensures chunks[i] in db.chunks && db.chunks[chunks[i]].paperId in db.papers {
        assert chunks[i] in chunks;
      }
      forall i, j | 0 <= i < j < |chunks| ensures db.chunks[chunks[i]].chunkIndex <= db.chunks[chunks[j]].chunkIndex {
        assert !ByChunkIndex(db)(chunks[j]).Above(ByChunkIndex(db)(chunks[i]));
      }
    }

    /** `index_paper` without re-indexing: the chunks not marked yet. */
    method IndexNew(paperId: Id, batchSize: nat, fuel: nat) returns (outcome: Outcome)
      requires Valid() && batchSize >= 1
      modifies this`embedded, this`sent, store, bm25
      ensures Valid() && Continued(old(Now()), Now(), paperId)
      ensures outcome.Completed? ==>
                PaperRows(db, paperId) <= embedded && outcome.indexed == |PaperRows(db, paperId) - old(embedded)|
      ensures Embeds(k) && fuel >= 4 * |PaperRows(db, paperId)| ==> outcome.Completed?
      ensures sent + |old(embedded)| <= old(sent) + |embedded| + if outcome.Completed? then 0 else batchSize
    {
      if paperId !in db.papers {
        NothingToDo(Now(), paperId);
        return Completed(0);
      }
      var chunks := Pending(paperId, false);
      DistinctCount(chunks);
      SubsetSize(IdsOf(chunks), PaperRows(db, paperId));
      if |chunks| == 0 {
        NothingToDo(Now(), paperId);
        NoneLeft(PaperRows(db, paperId), {}, embedded);
        return Completed(0);
      }
      ghost var done, m, n;
      outcome, done, m, n := IndexAll(chunks, batchSize, fuel);
      assert outcome.Completed? ==> chunks[..done] == chunks;
      PrefixWithin(chunks, done);
      PrefixWithin(chunks, m);
      PrefixWithin(chunks, n);
      CommittedCount(old(embedded), chunks, done);
      RunContinues(old(Now()), Now(), paperId, IdsOf(chunks[..done]), IdsOf(chunks[..m]), IdsOf(chunks[..n]), k);
    }

    /** `index_paper` with re-indexing: drop the paper from both indexes, but not its
        `is_embedded` marks, then do all its chunks. */
    method Reindex(paperId: Id, batchSize: nat, fuel: nat)
      returns (outcome: Outcome, ghost dense: set<Id>, ghost sparse: set<Id>)
      requires Valid() && batchSize >= 1
      modifies this`embedded, this`sent, store, bm25
      ensures Valid() && (outcome.Completed? ==>
                            PaperRows(db, paperId) <= embedded && outcome.indexed == |PaperRows(db, paperId)|)
      ensures Embeds(k) && fuel >= 4 * |PaperRows(db, paperId)| + 2 ==> outcome.Completed?
      ensures PaperRows(db, paperId) == {} ==> Now() == old(Now()) && outcome.Completed?
      ensures sent + |old(embedded)| <= old(sent) + |embedded| + |PaperRows(db, paperId)| + if outcome.Completed? then 0
                                                                                            else batchSize
      ensures PaperRows(db, paperId) != {} ==>
                Rewritten(old(Now()), Now(), paperId, fuel, outcome.Completed?, dense, sparse, k)
    {
      dense, sparse := {}, {};
      if paperId !in db.papers { return Completed(0), {}, {}; }
      var chunks := Pending(paperId, true);
      if |chunks| == 0 { return Completed(0), {}, {}; }
      assert chunks[0] in IdsOf(chunks);
      ghost var s0 := Now();
      DropsOnly(s0, paperId, Drops(fuel), k);
      if fuel == 0 { return Interrupted, {}, {}; }
      var _ := store.DeleteByPaper(paperId);
      if fuel == 1 { return Interrupted, {}, {}; }
      var _ := bm25.RemovePaper(paperId);
      ghost var done, m, n;
      outcome, done, m, n := IndexAll(chunks, batchSize, fuel - 2);
      dense, sparse := IdsOf(chunks[..m]), IdsOf(chunks[..n]);
      DistinctCount(chunks);
      SubsetSize(s0.embedded, embedded);
      PrefixesRewrite(s0, Now(), paperId, fuel, outcome.Completed?, chunks, done, m, n, k);
    }

    /** `index_paper`. */
    method IndexPaper(paperId: Id, batchSize: nat, reindex: bool, fuel: nat)
      returns (outcome: Outcome, ghost dense: set<Id>, ghost sparse: set<Id>)
      requires Valid() && batchSize >= 1
      modifies this`embedded, this`sent, store, bm25
      ensures Valid() && db == old(db) && (Sound(old(Now())) ==> Sound(Now()))
      ensures outcome.Completed? ==> PaperRows(db, paperId) <= embedded
      ensures outcome.Completed? ==> outcome.indexed == if reindex then |PaperRows(db, paperId)|
                                                        else |PaperRows(db, paperId) - old(embedded)|
      ensures Embeds(k) && fuel >= 4 * |PaperRows(db, paperId)| + 2 ==> outcome.Completed?
      ensures Ran(old(Now()), Now(), paperId, reindex, fuel, outcome.Completed?, dense, sparse, k)
      ensures sent + |old(embedded)| <= old(sent) + |embedded| + (if reindex then |PaperRows(db, paperId)| else 0)
                                       + if outcome.Completed? then 0 else batchSize
      ensures reindex && InStep(old(Now())) && old(embedded) * PaperRows(db, paperId) == {} ==> InStep(Now())
      ensures reindex && InStep(old(Now())) && 1 <= fuel <= 2 ==>
                (InStep(Now()) <==> old(embedded) * PaperRows(db, paperId) == {})
      ensures reindex && Sound(old(Now())) && outcome.Completed? && PaperRows(db, paperId) != {} ==>
                (InStep(Now()) <==> LostDense(old(Now())) + LostSparse(old(Now())) <= PaperRows(db, paperId))
      ensures reindex && Sound(old(Now())) && outcome.Completed? ==>
                (HoldsExactly(Now(), paperId) <==> PaperRows(db, paperId) != {} || HoldsNothing(old(Now()), paperId))
    {
      if reindex {
        outcome, dense, sparse := Reindex(paperId, batchSize, fuel);
        if PaperRows(db, paperId) != {} {
          ReindexConsequences(old(Now()), Now(), paperId, fuel, outcome.Completed?, dense, sparse, k);
        }
      } else {
        outcome := IndexNew(paperId, batchSize, fuel);
        dense, sparse := {}, {};
      }
    }

    /** The sparse index is built anew from every row, at start-up or on a superuser's
        request, up to where it is cut short; an exception at start-up is swallowed. A
        new process has an empty index, which is what clearing leaves. */
    method Rebuild(fuel: nat) returns (outcome: Outcome, added: set<Id>)
      requires Valid()
      modifies bm25
      ensures Valid() && RebuiltTo(old(Now()), Now(), added, k)
      ensures outcome.Completed? <==> fuel > |db.chunks|
      ensures outcome.Completed? ==> added == db.chunks.Keys && outcome.indexed == |db.chunks|
      ensures fuel <= 1 && !outcome.Completed? ==> added == {}
    {
      var order := IterationOrder(db.chunks);
      assert forall i :: 0 <= i < |order| ==> order[i] in order;
      OrderCount(order, db.chunks.Keys);
      var rows := DocumentsOf(order, db, k);
      ListedOnce(order, rows, db, k);
      var count, completed := Bm25.RebuildSparseIndex(bm25, rows, TokensOf(order, db, k), fuel);
      RebuiltFromRows(old(Now()), bm25.documents, order, rows, count, k);
      added := IdsOf(order[..count]);
      PrefixWithin(order, count);
      if !completed { return Interrupted, added; }
      assert order[..count] == order;
      return Completed(count), added;
    }

    /** A paper's rows are replaced wholesale by new ones, unmarked. Row ids are random;
        one that is in use anywhere is not handed out. */
    method ReplaceRows(paperId: Id, rows: map<Id, ChunkRow<Id, T>>) returns (ok: bool)
      requires Valid()
      modifies this`db, this`embedded
      ensures Valid()
      ensures ok <==> paperId in old(db).papers && NewRows(old(Now()), paperId, rows)
      ensures Now() == if ok then Replaced(old(Now()), paperId, rows) else old(Now())
    {
      ok := paperId in db.papers
        && (forall id :: id in rows ==>
              rows[id].paperId == paperId && id !in db.chunks && id !in store.records && id !in bm25.documents);
      if !ok { return; }
      var gone := PaperRows(db, paperId);
      db := db.(chunks := (db.chunks - gone) + rows);
      embedded := embedded - gone;
    }

    /** One event, in terms of the pictures before and after it, and what it costs. */
    method Perform(event: Event<Id, T>, batchSize: nat) returns (outcome: Outcome, ghost t: Turn<Id, T, Term>)
      requires Valid() && batchSize >= 1
      modifies this`db, this`embedded, this`sent, store, bm25
      ensures Valid() && t.event == event && t.outcome == outcome && t.after == Now() && Step(old(Now()), t, k)
      ensures Sound(old(Now())) ==>
                sent + Unmarked(Now()) <= old(sent) + Unmarked(old(Now())) + Asked(old(Now()), event)
                                          + if Crashed(t) then batchSize else 0
    {
      ghost var s0 := Now();
      ghost var dense: set<Id>, sparse: set<Id> := {}, {};
      match event {
        case Run(paperId, reindex, fuel) => outcome, dense, sparse := IndexPaper(paperId, batchSize, reindex, fuel);
        case Rebuild(fuel) =>
          var added;
          outcome, added := Rebuild(fuel);
          sparse := added;
        case Replace(paperId, rows) =>
          outcome := Completed(0);
          var _ := ReplaceRows(paperId, rows);
          ReplacementCounts(s0, Now(), paperId, rows);
      }
      t := Turn(event, outcome, dense, sparse, Now());
    }

    /** Any sequence of runs, re-indexing or not, rebuilds and replacements of a paper's
        rows, each run and each rebuild cut short anywhere or not. */
    method Drive(events: seq<Event<Id, T>>, batchSize: nat)
      returns (outcomes: seq<Outcome>, ghost turns: seq<Turn<Id, T, Term>>)
      requires Valid() && batchSize >= 1 && Sound(Now())
      modifies this`db, this`embedded, this`sent, store, bm25
      ensures Valid() && Logged(turns, events, outcomes) && Happened(old(Now()), turns, k)
              && Now() == EndOf(old(Now()), turns)
      ensures InStep(Now()) <==> LostAfter(old(Now()), turns) == Lost({}, {})
      ensures sent + Unmarked(Now()) <= old(sent) + Unmarked(old(Now())) + TotalAsked(old(Now()), turns)
              + Crashes(turns) * batchSize
    {
      outcomes, turns := [], [];
      ghost var s0 := Now();
      for n := 0 to |events|
        invariant Valid() && Sound(Now()) && Happened(s0, turns, k) && Now() == EndOf(s0, turns)
        invariant Logged(turns, events[..n], outcomes)
        invariant sent + Unmarked(Now()) <= old(sent) + Unmarked(s0) + TotalAsked(s0, turns)
                  + Crashes(turns) * batchSize
      {
        ghost var before := Now();
        ghost var t;
        var outcome;
        outcome, t := Perform(events[n], batchSize);
        StepLoses(before, t, k);
        CrashesSnoc(turns, t, batchSize);
        TurnsSnoc(s0, turns, t, k);
        LoggedSnoc(turns, events, n, outcomes, t);
        outcomes, turns := outcomes + [outcome], turns + [t];
      }
      assert events[..|events|] == events;
      HistoryIsInStepIff(s0, turns, k);
    }
  }
}
