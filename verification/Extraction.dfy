/** The sentences of a passage that bear on a query
    (backend/app/retrieval/reranker.py, `extract_supporting_sentences`). */
module Extraction {
  import opened Text
  import opened Ordering
  import opened Sentences
  import opened Tokens

  const MIN_SENTENCE_CHARS: nat := 20

  /** What extraction needs of a query and of characters. `overlap` counts the query
      terms a sentence shares; `hasTerms` says whether the query has any. */
  datatype Query<!C(!new)> =
    Query(hasTerms: bool, overlap: seq<C> -> nat, strip: seq<C> -> seq<C>, sentences: seq<C> -> seq<seq<C>>)

  /** How many terms of the query the sentence has. */
  function SharedTerms(query: string): string -> nat {
    (sentence: string) => |Terms(query) * Terms(sentence)|
  }

  function ProseQuery(query: string): Query<char> {
    Query(Terms(query) != {}, SharedTerms(query), Strip, SplitSentences)
  }

  datatype Scored<C> = Scored(overlap: nat, text: seq<C>)

  predicate Qualifies<C>(s: Scored<C>) {
    |s.text| >= MIN_SENTENCE_CHARS && s.overlap > 0
  }

  function ByOverlap<C>(s: Scored<C>): Key {
    Key(s.overlap as real, 0)
  }

  function ScoreAll<C(!new)>(sentences: seq<seq<C>>, q: Query<C>): (r: seq<Scored<C>>)
    ensures |r| == |sentences|
  {
    seq(|sentences|, i requires 0 <= i < |sentences| => Scored(q.overlap(q.strip(sentences[i])), q.strip(sentences[i])))
  }

  function Candidates<C(!new)>(q: Query<C>, text: seq<C>): seq<Scored<C>> {
    if q.hasTerms then Filter(ScoreAll(q.sentences(text), q), Qualifies) else []
  }

  function Best<C(!new)>(q: Query<C>, text: seq<C>, limit: int): seq<Scored<C>> {
    Upto(SortDescending(Candidates(q, text), ByOverlap), limit)
  }

  function TextsOf<C>(scored: seq<Scored<C>>): (r: seq<seq<C>>)
    ensures |r| == |scored|
    ensures forall i :: 0 <= i < |r| ==> r[i] == scored[i].text
  {
    seq(|scored|, i requires 0 <= i < |scored| => scored[i].text)
  }

  function SupportingSentences<C(!new)>(q: Query<C>, text: seq<C>, limit: int): (r: seq<seq<C>>)
    ensures limit >= 0 ==> |r| <= limit
  {
    TextsOf(Best(q, text, limit))
  }

  lemma ScoreAllMore<C(!new)>(sentences: seq<seq<C>>, s: seq<C>, q: Query<C>)
    ensures ScoreAll(sentences + [s], q) == ScoreAll(sentences, q) + [Scored(q.overlap(q.strip(s)), q.strip(s))]
  {
  }

  method ExtractSupportingSentences<C(==, !new)>(q: Query<C>, text: seq<C>, limit: int) returns (r: seq<seq<C>>)
    ensures r == SupportingSentences(q, text, limit)
  {
    var scored: seq<Scored<C>> := [];
    if q.hasTerms {
      var sentences := q.sentences(text);
      for i := 0 to |sentences|
        invariant scored == Filter(ScoreAll(sentences[..i], q), Qualifies)
      {
        assert sentences[..i + 1] == sentences[..i] + [sentences[i]];
        var cleaned := q.strip(sentences[i]);
        ScoreAllMore(sentences[..i], sentences[i], q);
        FilterSnoc(ScoreAll(sentences[..i], q), Scored(q.overlap(cleaned), cleaned), Qualifies);
        if |cleaned| < MIN_SENTENCE_CHARS { continue; }
        var overlap := q.overlap(cleaned);
        if overlap > 0 { scored := scored + [Scored(overlap, cleaned)]; }
      }
      assert sentences[..|sentences|] == sentences;
    }
    r := TextsOf(Upto(SortDescending(scored, ByOverlap), limit));
  }

  /** Not returned, for the only reason there is: the limit was used up by sentences
      that share at least as many terms. */
  ghost predicate Crowded<C>(s: Scored<C>, best: seq<Scored<C>>, limit: nat) {
    |best| == limit && forall i :: 0 <= i < |best| ==> best[i].overlap >= s.overlap
  }

  lemma BeyondPrefix<T>(xs: seq<T>, n: nat, x: T) returns (p: nat)
    requires n <= |xs| && x in xs && x !in xs[..n]
    ensures n <= p < |xs| && xs[p] == x
  {
    assert xs == xs[..n] + xs[n..];
    assert x in xs[n..];
    var i :| 0 <= i < |xs[n..]| && xs[n..][i] == x;
    p := n + i;
  }

  /** What is returned is the best of what qualifies, best first. */
  lemma SupportingAreTheBest<C(!new)>(q: Query<C>, text: seq<C>, limit: nat)
    ensures var best := Best(q, text, limit);
            && (forall i :: 0 <= i < |best| ==> Qualifies(best[i]) && best[i] in ScoreAll(q.sentences(text), q))
            && (forall i, j :: 0 <= i < j < |best| ==> best[i].overlap >= best[j].overlap)
            && (forall s :: s in Candidates(q, text) ==> s in best || Crowded(s, best, limit))
  {
    var all := Candidates(q, text);
    var sorted := SortDescending(all, ByOverlap);
    SortSpec(all, ByOverlap);
    FilterMembers(ScoreAll(q.sentences(text), q), Qualifies);
    var best := Upto(sorted, limit);
    forall i | 0 <= i < |best| ensures Qualifies(best[i]) && best[i] in ScoreAll(q.sentences(text), q) {
      assert best[i] == sorted[i] && sorted[i] in sorted;
    }
    forall i, j | 0 <= i < j < |sorted| ensures sorted[i].overlap >= sorted[j].overlap {
      assert !ByOverlap(sorted[j]).Above(ByOverlap(sorted[i]));
    }
    forall s | s in all && s !in best ensures Crowded(s, best, limit) {
      assert s in sorted && best == sorted[..|best|];
      var p := BeyondPrefix(sorted, |best|, s);
      forall i | 0 <= i < |best| ensures best[i].overlap >= s.overlap { assert sorted[i].overlap >= sorted[p].overlap; }
    }
  }
}
