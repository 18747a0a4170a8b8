/** Python's list idioms that several components rely on: `xs[:limit]`,
    filtering comprehensions, and `sorted(xs, key=..., reverse=True)`. */
module Ordering {
  import opened Sequences

  /** `xs[:limit]`; a negative limit counts from the end. */
  function Upto<T>(xs: seq<T>, limit: int): (r: seq<T>)
    ensures |r| <= |xs| && r == xs[..|r|]
    ensures 0 <= limit ==> |r| == if limit < |xs| then limit else |xs|
  {
    if limit >= |xs| then xs
    else if limit >= 0 then xs[..limit]
    else if |xs| + limit > 0 then xs[..|xs| + limit]
    else []
  }

  /** `[x for x in xs if keep(x)]`. */
  function Filter<T>(xs: seq<T>, keep: T -> bool): (r: seq<T>)
    ensures |r| <= |xs|
  {
    if xs == [] then [] else if keep(xs[0]) then [xs[0]] + Filter(xs[1..], keep) else Filter(xs[1..], keep)
  }

  lemma {:induction false} FilterMembers<T(!new)>(xs: seq<T>, keep: T -> bool)
    ensures forall x :: x in Filter(xs, keep) <==> x in xs && keep(x)
  {
    if xs != [] { FilterMembers(xs[1..], keep); }
  }

  lemma {:induction false} FilterConcat<T(!new)>(a: seq<T>, b: seq<T>, keep: T -> bool)
    ensures Filter(a + b, keep) == Filter(a, keep) + Filter(b, keep)
  {
    if a == [] {
      assert a + b == b;
    } else {
      FilterConcat(a[1..], b, keep);
      HeadOfConcat(a, b);
      ConsConcat(a[0], Filter(a[1..], keep), Filter(b, keep));
    }
  }

  lemma FilterSnoc<T(!new)>(a: seq<T>, x: T, keep: T -> bool)
    ensures Filter(a + [x], keep) == if keep(x) then Filter(a, keep) + [x] else Filter(a, keep)
  {
    FilterConcat(a, [x], keep);
    NoTail(Filter(a, keep));
    NoTail([x]);
  }

  lemma {:induction false} FilterAll<T(!new)>(xs: seq<T>, keep: T -> bool)
    requires forall x :: x in xs ==> keep(x)
    ensures Filter(xs, keep) == xs
  {
    if xs != [] { FilterAll(xs[1..], keep); }
  }

  lemma {:induction false} FilterSame<T(!new)>(xs: seq<T>, keep: T -> bool, keep': T -> bool)
    requires forall x :: x in xs ==> keep(x) == keep'(x)
    ensures Filter(xs, keep) == Filter(xs, keep')
  {
    if xs != [] { FilterSame(xs[1..], keep, keep'); }
  }

  /** No two positions carry the same identifier. */
  ghost predicate DistinctBy<T, K>(xs: seq<T>, id: T -> K) {
    forall i, j :: 0 <= i < j < |xs| ==> id(xs[i]) != id(xs[j])
  }

  lemma {:induction false} FilterDistinct<T(!new), K>(xs: seq<T>, keep: T -> bool, id: T -> K)
    requires DistinctBy(xs, id)
    ensures DistinctBy(Filter(xs, keep), id)
  {
    if xs != [] {
      FilterDistinct(xs[1..], keep, id);
      FilterMembers(xs[1..], keep);
      forall x | x in xs[1..] ensures id(x) != id(xs[0]) {}
    }
  }

  /** A sort key; `tie` is compared only between equal scores. */
  datatype Key = Key(score: real, tie: int) {
    predicate Above(other: Key) {
      score > other.score || (score == other.score && tie > other.tie)
    }
  }

  function Insert<T(!new)>(x: T, ys: seq<T>, key: T -> Key): (r: seq<T>) {
    if ys == [] || !key(ys[0]).Above(key(x)) then [x] + ys
    else [ys[0]] + Insert(x, ys[1..], key)
  }

  /** `sorted(xs, key=key, reverse=True)`: best first, equal keys in their original order. */
  function SortDescending<T(!new)>(xs: seq<T>, key: T -> Key): (r: seq<T>) {
    if xs == [] then [] else Insert(xs[0], SortDescending(xs[1..], key), key)
  }

  /** The items carrying one particular key, in order. */
  function WithKey<T(!new)>(xs: seq<T>, key: T -> Key, k: Key): (r: seq<T>) {
    if xs == [] then [] else if key(xs[0]) == k then [xs[0]] + WithKey(xs[1..], key, k) else WithKey(xs[1..], key, k)
  }

  ghost predicate Descending<T(!new)>(xs: seq<T>, key: T -> Key) {
    forall i, j :: 0 <= i < j < |xs| ==> !key(xs[j]).Above(key(xs[i]))
  }

  lemma {:induction false} InsertKeeps<T(!new)>(x: T, ys: seq<T>, key: T -> Key)
    ensures multiset(Insert(x, ys, key)) == multiset([x] + ys)
    ensures |Insert(x, ys, key)| == |ys| + 1
    ensures forall z :: z in Insert(x, ys, key) <==> z == x || z in ys
  {
    if ys != [] && key(ys[0]).Above(key(x)) {
      InsertKeeps(x, ys[1..], key);
      assert ys == [ys[0]] + ys[1..];
    }
  }

  lemma {:induction false} InsertSorted<T(!new)>(x: T, ys: seq<T>, key: T -> Key)
    requires Descending(ys, key)
    ensures Descending(Insert(x, ys, key), key)
  {
    if ys != [] && key(ys[0]).Above(key(x)) {
      var t := Insert(x, ys[1..], key);
      InsertSorted(x, ys[1..], key);
      InsertKeeps(x, ys[1..], key);
      forall j | 0 <= j < |t| ensures !key(t[j]).Above(key(ys[0])) { assert t[j] in t; }
    }
  }

  lemma InsertFacts<T(!new)>(x: T, ys: seq<T>, key: T -> Key)
    requires Descending(ys, key)
    ensures Descending(Insert(x, ys, key), key)
    ensures multiset(Insert(x, ys, key)) == multiset([x] + ys)
    ensures |Insert(x, ys, key)| == |ys| + 1
    ensures forall z :: z in Insert(x, ys, key) <==> z == x || z in ys
  {
    InsertSorted(x, ys, key);
    InsertKeeps(x, ys, key);
  }

  /** A stable sort leaves items with equal keys where they were. */
  lemma {:induction false} SortEqualKeys<T(!new)>(xs: seq<T>, key: T -> Key)
    requires forall i, j :: 0 <= i < j < |xs| ==> key(xs[i]) == key(xs[j])
    ensures SortDescending(xs, key) == xs
  {
    if xs != [] { SortEqualKeys(xs[1..], key); }
  }

  lemma {:induction false} InsertAgrees<T(!new)>(x: T, ys: seq<T>, key: T -> Key, key': T -> Key)
    requires forall y :: y in ys ==> key(y).Above(key(x)) == key'(y).Above(key'(x))
    ensures Insert(x, ys, key) == Insert(x, ys, key')
  {
    if ys != [] { InsertAgrees(x, ys[1..], key, key'); }
  }

  /** Keys that order the items in the same way sort them in the same way. */
  lemma {:induction false} SortAgrees<T(!new)>(xs: seq<T>, key: T -> Key, key': T -> Key)
    requires forall x, y :: x in xs && y in xs ==> key(x).Above(key(y)) == key'(x).Above(key'(y))
    ensures SortDescending(xs, key) == SortDescending(xs, key')
  {
    if xs != [] {
      SortAgrees(xs[1..], key, key');
      SortSpec(xs[1..], key);
      InsertAgrees(xs[0], SortDescending(xs[1..], key), key, key');
    }
  }

  lemma SortPair<T(!new)>(x: T, y: T, key: T -> Key)
    ensures SortDescending([x, y], key) == if key(y).Above(key(x)) then [y, x] else [x, y]
  {
    assert [x, y][1..] == [y] && [y][1..] == [];
    assert SortDescending([y], key) == [y];
    assert Insert(x, [], key) == [x];
  }

  lemma {:induction false} InsertStable<T(!new)>(x: T, ys: seq<T>, key: T -> Key, k: Key)
    ensures WithKey(Insert(x, ys, key), key, k) == WithKey([x] + ys, key, k)
  {
    if ys != [] && key(ys[0]).Above(key(x)) {
      InsertStable(x, ys[1..], key, k);
      assert ([x] + ys)[1..] == ys;
      assert ([x] + ys[1..])[1..] == ys[1..];
    }
  }

  /** What a descending stable sort returns: the same items, best first, and
      among equal keys exactly the original order. */
  lemma {:induction false} SortSpec<T(!new)>(xs: seq<T>, key: T -> Key)
    ensures Descending(SortDescending(xs, key), key)
    ensures multiset(SortDescending(xs, key)) == multiset(xs)
    ensures |SortDescending(xs, key)| == |xs|
    ensures forall z :: z in SortDescending(xs, key) <==> z in xs
    ensures forall k :: WithKey(SortDescending(xs, key), key, k) == WithKey(xs, key, k)
  {
    if xs != [] {
      var t := SortDescending(xs[1..], key);
      SortSpec(xs[1..], key);
      InsertFacts(xs[0], t, key);
      assert xs == [xs[0]] + xs[1..];
      forall k ensures WithKey(SortDescending(xs, key), key, k) == WithKey(xs, key, k) {
        InsertStable(xs[0], t, key, k);
        assert ([xs[0]] + t)[1..] == t;
      }
    }
  }

  /** Equal keys come in increasing rank. */
  ghost predicate TiesByRank<T>(xs: seq<T>, key: T -> Key, rank: T -> int) {
    forall i, j :: 0 <= i < j < |xs| && key(xs[i]) == key(xs[j]) ==> rank(xs[i]) < rank(xs[j])
  }

  lemma TiesCons<T(!new)>(x: T, ys: seq<T>, key: T -> Key, rank: T -> int)
    requires TiesByRank(ys, key, rank)
    requires forall y :: y in ys && key(y) == key(x) ==> rank(x) < rank(y)
    ensures TiesByRank([x] + ys, key, rank)
  {
    var r := [x] + ys;
    forall i, j | 0 <= i < j < |r| && key(r[i]) == key(r[j]) ensures rank(r[i]) < rank(r[j]) {
      assert r[j] == ys[j - 1] && ys[j - 1] in ys;
      if i > 0 { assert r[i] == ys[i - 1]; }
    }
  }

  lemma {:induction false} InsertKeepsTies<T(!new)>(x: T, ys: seq<T>, key: T -> Key, rank: T -> int)
    requires forall y :: y in ys ==> rank(x) < rank(y)
    requires TiesByRank(ys, key, rank)
    ensures TiesByRank(Insert(x, ys, key), key, rank)
  {
    if ys != [] && key(ys[0]).Above(key(x)) {
      InsertKeepsTies(x, ys[1..], key, rank);
      InsertKeeps(x, ys[1..], key);
      forall y | y in ys[1..] && key(y) == key(ys[0]) ensures rank(ys[0]) < rank(y) {
        var i :| 0 <= i < |ys| - 1 && ys[1..][i] == y;
        assert ys[i + 1] == y;
      }
      TiesCons(ys[0], Insert(x, ys[1..], key), key, rank);
    } else {
      TiesCons(x, ys, key, rank);
    }
  }

  /** Items with equal keys come out in the order they came in. */
  lemma {:induction false} SortKeepsTies<T(!new)>(xs: seq<T>, key: T -> Key, rank: T -> int)
    requires forall i, j :: 0 <= i < j < |xs| ==> rank(xs[i]) < rank(xs[j])
    ensures TiesByRank(SortDescending(xs, key), key, rank)
  {
    if xs != [] {
      SortKeepsTies(xs[1..], key, rank);
      SortSpec(xs[1..], key);
      InsertKeepsTies(xs[0], SortDescending(xs[1..], key), key, rank);
    }
  }

  /** Whatever has the greater key comes first. */
  lemma GreaterKeyFirst<T(!new)>(xs: seq<T>, key: T -> Key, x: T, q: nat) returns (p: nat)
    requires x in xs && q < |SortDescending(xs, key)|
    requires key(x).Above(key(SortDescending(xs, key)[q]))
    ensures p < q && SortDescending(xs, key)[p] == x
  {
    var sorted := SortDescending(xs, key);
    SortSpec(xs, key);
    assert x in sorted;
    forall j | q <= j < |sorted| ensures sorted[j] != x {
      assert !key(sorted[j]).Above(key(sorted[q]));
    }
    p :| p < |sorted| && sorted[p] == x;
  }

  lemma {:induction false} SortDistinct<T(!new), K>(xs: seq<T>, key: T -> Key, id: T -> K)
    requires DistinctBy(xs, id)
    ensures DistinctBy(SortDescending(xs, key), id)
  {
    if xs != [] {
      var t := SortDescending(xs[1..], key);
      SortDistinct(xs[1..], key, id);
      SortSpec(xs[1..], key);
      forall z | z in t ensures id(z) != id(xs[0]) { assert z in xs[1..]; }
      InsertDistinct(xs[0], t, key, id);
    }
  }

  lemma {:induction false} InsertDistinct<T(!new), K>(x: T, ys: seq<T>, key: T -> Key, id: T -> K)
    requires DistinctBy(ys, id) && Descending(ys, key)
    requires forall z :: z in ys ==> id(z) != id(x)
    ensures DistinctBy(Insert(x, ys, key), id)
  {
    if ys != [] && key(ys[0]).Above(key(x)) {
      var t := Insert(x, ys[1..], key);
      InsertDistinct(x, ys[1..], key, id);
      InsertFacts(x, ys[1..], key);
      forall j | 0 <= j < |t| ensures id(t[j]) != id(ys[0]) { assert t[j] in t; }
    }
  }

  /** The top of a list: from it, none twice, and no more than asked for. */
  lemma TopIsSound<T(!new), K>(xs: seq<T>, key: T -> Key, id: T -> K, limit: int)
    requires DistinctBy(xs, id)
    ensures var top := Upto(SortDescending(xs, key), limit);
            DistinctBy(top, id) && (limit >= 0 ==> |top| <= limit) && forall x :: x in top ==> x in xs
  {
    var sorted := SortDescending(xs, key);
    SortSpec(xs, key);
    SortDistinct(xs, key, id);
    forall x | x in Upto(sorted, limit) ensures x in xs { assert x in sorted; }
  }

  /** The keys of a dictionary in whatever order iteration visits them. */
  method IterationOrder<U(==), V>(table: map<U, V>) returns (order: seq<U>)
    ensures forall k :: k in order <==> k in table
    ensures forall i, j :: 0 <= i < j < |order| ==> order[i] != order[j]
  {
    order := [];
    var todo := table.Keys;
    while todo != {}
      invariant forall k :: k in table <==> k in todo || k in order
      invariant forall k :: k in order ==> k !in todo
      invariant forall i, j :: 0 <= i < j < |order| ==> order[i] != order[j]
      decreases |todo|
    {
      var k :| k in todo;
      todo := todo - {k};
      order := order + [k];
    }
  }
}
