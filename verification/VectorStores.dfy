/** The in-memory vector store and its metadata filters
    (backend/app/retrieval/vector_store.py). */
module VectorStores {
  import opened Options
  import opened Ordering
  import opened Hits

  /** The metadata keys the indexer writes, and their values. */
  datatype Field = ChunkIdField | PaperIdField | WorkspaceIdField | KindField | SectionPathField | PageNumberField

  datatype Value<Id, T> = OfId(id: Id) | OfText(text: T) | OfNumber(number: int)

  type Metadata<Id, T> = map<Field, Value<Id, T>>

  /** One filter: any of some values, or one value; `None` is Python's. */
  datatype Expected<Id, T> = AnyOf(values: seq<Option<Value<Id, T>>>) | Exactly(value: Option<Value<Id, T>>)

  type Filters<Id, T> = map<Field, Expected<Id, T>>

  function Get<Id, T>(metadata: Metadata<Id, T>, key: Field): Option<Value<Id, T>> {
    if key in metadata then Some(metadata[key]) else None
  }

  predicate Accepts<Id(==), T(==)>(expected: Expected<Id, T>, actual: Option<Value<Id, T>>) {
    match expected
    case AnyOf(values) => actual in values
    case Exactly(value) => actual == value
  }

  /** Every filter accepts. */
  predicate Admits<Id(==), T(==)>(filters: Filters<Id, T>, metadata: Metadata<Id, T>) {
    forall key :: key in filters ==> Accepts(filters[key], Get(metadata, key))
  }

  method Matches<Id(==), T(==)>(metadata: Metadata<Id, T>, filters: Filters<Id, T>) returns (r: bool)
    ensures r == Admits(filters, metadata)
  {
    var keys := IterationOrder(filters);
    for i := 0 to |keys|
      invariant forall j :: 0 <= j < i ==> Accepts(filters[keys[j]], Get(metadata, keys[j]))
    {
      assert keys[i] in filters;
      if !Accepts(filters[keys[i]], Get(metadata, keys[i])) { return false; }
    }
    forall key | key in filters ensures Accepts(filters[key], Get(metadata, key)) {
      assert key in keys;
    }
    return true;
  }

  datatype VectorRecord<Id, T> =
    VectorRecord(chunkId: Id, paperId: Id, workspaceId: Id, vector: seq<real>, metadata: Metadata<Id, T>)

  type Records<Id(==), T> = map<Id, VectorRecord<Id, T>>

  // ------------------------------------------------------------------ search

  function Dot(a: seq<real>, b: seq<real>): real
    requires |a| == |b|
  {
    if a == [] then 0.0 else a[0] * b[0] + Dot(a[1..], b[1..])
  }

  function ByScore<Id, T>(h: Hit<Id, Metadata<Id, T>>): Key { Key(h.score, 0) }

  /** A record the filters admit, whose vector is as long as the query's. */
  predicate Comparable<Id(==), T(==)>(r: VectorRecord<Id, T>, vector: seq<real>, filters: Filters<Id, T>) {
    Admits(filters, r.metadata) ==> |r.vector| == |vector|
  }

  function HitOf<Id, T>(r: VectorRecord<Id, T>, vector: seq<real>): Hit<Id, Metadata<Id, T>>
    requires |r.vector| == |vector|
  {
    Hit(r.chunkId, r.paperId, Dot(vector, r.vector), r.metadata)
  }

  /** The hits of the admitted records, visited in this order. */
  function HitsAlong<Id(==), T(==)>(order: seq<Id>, records: Records<Id, T>, vector: seq<real>, filters: Filters<Id, T>)
    : seq<Hit<Id, Metadata<Id, T>>>
    requires forall i :: 0 <= i < |order| ==> order[i] in records && Comparable(records[order[i]], vector, filters)
  {
    if order == [] then []
    else
      var last := |order| - 1;
      var before := HitsAlong(order[..last], records, vector, filters);
      var record := records[order[last]];
      assert Comparable(record, vector, filters);
      if Admits(filters, record.metadata) then before + [HitOf(record, vector)] else before
  }

  ghost predicate Enumerates<Id(!new), T>(order: seq<Id>, records: Records<Id, T>) {
    && (forall id :: id in order <==> id in records)
    && (forall i, j :: 0 <= i < j < |order| ==> order[i] != order[j])
  }

  ghost predicate WellFormed<Id(!new), T>(records: Records<Id, T>) {
    forall id :: id in records ==> records[id].chunkId == id
  }

  /** A hit for an admitted record, scored by the dot product. */
  predicate IsHit<Id(==), T(==)>(h: Hit<Id, Metadata<Id, T>>, records: Records<Id, T>, vector: seq<real>,
                                 filters: Filters<Id, T>)
  {
    && h.chunkId in records && Admits(filters, records[h.chunkId].metadata)
    && |records[h.chunkId].vector| == |vector| && h == HitOf(records[h.chunkId], vector)
  }

  /** The hits are exactly the admitted records, once each. */
  lemma {:induction false} HitsAre<Id(!new), T(!new)>(order: seq<Id>, records: Records<Id, T>, vector: seq<real>,
                                                      filters: Filters<Id, T>)
    requires WellFormed(records)
    requires forall i, j :: 0 <= i < j < |order| ==> order[i] != order[j]
    requires forall i :: 0 <= i < |order| ==> order[i] in records && Comparable(records[order[i]], vector, filters)
    ensures var hits := HitsAlong(order, records, vector, filters);
            && DistinctBy(hits, ChunkOf)
            && (forall h :: h in hits ==> h.chunkId in order && IsHit(h, records, vector, filters))
            && (forall i :: 0 <= i < |order| && Admits(filters, records[order[i]].metadata) ==>
                  HitOf(records[order[i]], vector) in hits)
  {
    if order != [] {
      HitsAre(order[..|order| - 1], records, vector, filters);
      assert order == order[..|order| - 1] + [order[|order| - 1]];
    }
  }

  /** The result of an exact search over these records. */
  ghost predicate ExactSearch<Id(!new), T(!new)>(hits: seq<Hit<Id, Metadata<Id, T>>>, records: Records<Id, T>,
                                                 vector: seq<real>, limit: int, filters: Filters<Id, T>)
  {
    exists order :: Enumerates(order, records) && SearchedAlong(hits, order, records, vector, limit, filters)
  }

  ghost predicate SearchedAlong<Id(!new), T(!new)>(hits: seq<Hit<Id, Metadata<Id, T>>>, order: seq<Id>,
                                                   records: Records<Id, T>, vector: seq<real>, limit: int,
                                                   filters: Filters<Id, T>)
  {
    && (forall i :: 0 <= i < |order| ==> order[i] in records && Comparable(records[order[i]], vector, filters))
    && hits == Upto(SortDescending(HitsAlong(order, records, vector, filters), ByScore), limit)
  }

  /** Every hit is an admitted record with its dot product; none comes twice. */
  lemma SearchIsSound<Id(!new), T(!new)>(hits: seq<Hit<Id, Metadata<Id, T>>>, records: Records<Id, T>,
                                         vector: seq<real>, limit: int, filters: Filters<Id, T>)
    requires WellFormed(records) && ExactSearch(hits, records, vector, limit, filters)
    ensures DistinctBy(hits, ChunkOf) && (limit >= 0 ==> |hits| <= limit)
    ensures forall i :: 0 <= i < |hits| ==> IsHit(hits[i], records, vector, filters)
  {
    var order :| Enumerates(order, records) && SearchedAlong(hits, order, records, vector, limit, filters);
    var all := HitsAlong(order, records, vector, filters);
    HitsAre(order, records, vector, filters);
    TopIsSound(all, ByScore, ChunkOf, limit);
  }

  /** Exact search: an admitted record is missing only if the limit is used up by
      records that score at least as well. */
  lemma SearchIsComplete<Id(!new), T(!new)>(hits: seq<Hit<Id, Metadata<Id, T>>>, records: Records<Id, T>,
                                            vector: seq<real>, limit: nat, filters: Filters<Id, T>, id: Id)
    requires WellFormed(records) && ExactSearch(hits, records, vector, limit, filters)
    requires id in records && Admits(filters, records[id].metadata)
    ensures |records[id].vector| == |vector|
    ensures HitOf(records[id], vector) in hits || Outscored(HitOf(records[id], vector), hits, limit)
  {
    var order :| Enumerates(order, records) && SearchedAlong(hits, order, records, vector, limit, filters);
    var i :| 0 <= i < |order| && order[i] == id;
    HitsAre(order, records, vector, filters);
    TopOfSorted(HitsAlong(order, records, vector, filters), ByScore, limit, HitOf(records[id], vector));
  }

  /** Hits come best first. */
  lemma SearchIsSorted<Id(!new), T(!new)>(hits: seq<Hit<Id, Metadata<Id, T>>>, records: Records<Id, T>,
                                          vector: seq<real>, limit: nat, filters: Filters<Id, T>, i: nat, j: nat)
    requires ExactSearch(hits, records, vector, limit, filters) && i < j < |hits|
    ensures hits[i].score >= hits[j].score
  {
    var order :| Enumerates(order, records) && SearchedAlong(hits, order, records, vector, limit, filters);
    var sorted := SortDescending(HitsAlong(order, records, vector, filters), ByScore);
    SortSpec(HitsAlong(order, records, vector, filters), ByScore);
    assert !ByScore(sorted[j]).Above(ByScore(sorted[i]));
  }

  // ------------------------------------------------------------------- the store

  class InMemoryVectorStore<Id(==, !new), T(==, !new)> {
    var records: Records<Id, T>

    ghost predicate Valid()
      reads this
    {
      WellFormed(records)
    }

    constructor ()
      ensures Valid() && records == map[]
    {
      records := map[];
    }

    method Upsert(added: seq<VectorRecord<Id, T>>)
      requires Valid()
      modifies this
      ensures Valid() && records == Upserted(old(records), added)
    {
      for i := 0 to |added|
        invariant Valid() && records == Upserted(old(records), added[..i])
      {
        assert added[..i + 1][..i] == added[..i];
        records := records[added[i].chunkId := added[i]];
      }
      assert added[..|added|] == added;
    }

    /** Exact search; `None` when a vector to be compared has another dimension, which raises. */
    method Search(vector: seq<real>, limit: int, filters: Filters<Id, T>)
      returns (r: Option<seq<Hit<Id, Metadata<Id, T>>>>)
      requires Valid()
      ensures r.None? <==> exists id :: id in records && !Comparable(records[id], vector, filters)
      ensures r.Some? ==> ExactSearch(r.value, records, vector, limit, filters)
    {
      var order := IterationOrder(records);
      var hits: seq<Hit<Id, Metadata<Id, T>>> := [];
      for i := 0 to |order|
        invariant forall j :: 0 <= j < i ==> Comparable(records[order[j]], vector, filters)
        invariant hits == HitsAlong(order[..i], records, vector, filters)
      {
        assert order[i] in records;
        assert order[..i + 1][..i] == order[..i];
        var record := records[order[i]];
        var admitted := Matches(record.metadata, filters);
        if admitted {
          if |record.vector| != |vector| { return None; }
          hits := hits + [Hit(record.chunkId, record.paperId, Dot(vector, record.vector), record.metadata)];
        }
      }
      assert order[..|order|] == order;
      assert forall id :: id in records ==> id in order;
      hits := Upto(SortDescending(hits, ByScore), limit);
      assert Enumerates(order, records) && SearchedAlong(hits, order, records, vector, limit, filters);
      return Some(hits);
    }

    method DeleteByPaper(paperId: Id) returns (count: nat)
      requires Valid()
      modifies this
      ensures Valid() && records == old(records) - OfPaper(old(records), paperId)
      ensures count == |OfPaper(old(records), paperId)|
    {
      ghost var before := records;
      var doomed := OfPaper(records, paperId);
      var todo := doomed;
      while todo != {}
        invariant todo <= doomed && Valid() && records == before - (doomed - todo)
        decreases |todo|
      {
        var key :| key in todo;
        todo := todo - {key};
        records := records - {key};
        assert before - (doomed - todo - {key}) - {key} == before - (doomed - todo);
      }
      return |doomed|;
    }
  }

  function OfPaper<Id(==), T>(records: Records<Id, T>, paperId: Id): set<Id> {
    set id | id in records && records[id].paperId == paperId
  }

  function Upserted<Id(==), T>(records: Records<Id, T>, added: seq<VectorRecord<Id, T>>): Records<Id, T> {
    if added == [] then records
    else Upserted(records, added[..|added| - 1])[added[|added| - 1].chunkId := added[|added| - 1]]
  }
}
