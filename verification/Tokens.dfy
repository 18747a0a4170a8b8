/** The tokenizer shared by sparse search and by the extraction of supporting sentences
    (backend/app/retrieval/sparse.py, `tokenize`). */
module Tokens {
  import opened Sequences
  import opened Text

  /** The words that are dropped. */
  const STOPWORDS: set<string> :=
    {"a", "an", "and", "are", "as", "at", "be", "by", "for", "from", "has", "have", "in", "is", "it", "its", "of", "on",
     "or", "that", "the", "to", "was", "were", "will", "with", "this", "these", "those", "we", "our", "us", "you",
     "your", "they", "their"}

  const LONGEST_STOPWORD: nat := 5

  lemma StopwordsAreShort()
    ensures forall w :: w in STOPWORDS ==> |w| <= LONGEST_STOPWORD
  {
  }

  predicate StartsToken(c: char) {
    'a' <= c <= 'z' || '0' <= c <= '9'
  }

  predicate InToken(c: char) {
    StartsToken(c) || c == '-' || c == '_' || c == '.'
  }

  /** How many items of the beginning are of this kind. */
  function RunLength<C>(s: seq<C>, inside: C -> bool): (n: nat)
    ensures n <= |s| && (n < |s| ==> !inside(s[n]))
    ensures forall i :: 0 <= i < n ==> inside(s[i])
  {
    if |s| == 0 || !inside(s[0]) then 0 else 1 + RunLength(s[1..], inside)
  }

  /** The maximal runs that begin with a starting item, from left to right. */
  function Runs<C>(s: seq<C>, starts: C -> bool, inside: C -> bool): seq<seq<C>>
    decreases |s|
  {
    if |s| == 0 then []
    else if !starts(s[0]) then Runs(s[1..], starts, inside)
    else
      var n := 1 + RunLength(s[1..], inside);
      [s[..n]] + Runs(s[n..], starts, inside)
  }

  predicate IsTerm(token: string) {
    token !in STOPWORDS && |token| > 1
  }

  /** The terms of a text: `set(tokenize(text))`. */
  function Terms(text: string): set<string> {
    set token | token in Runs(Lower(text), StartsToken, InToken) && IsTerm(token)
  }

  // ----------------------------------------------------- texts of given words

  /** A single run: it starts one, and goes on to its end. */
  ghost predicate OneRun<C(!new)>(w: seq<C>, starts: C -> bool, inside: C -> bool) {
    |w| > 0 && starts(w[0]) && forall i :: 1 <= i < |w| ==> inside(w[i])
  }

  lemma {:induction false} RunUpTo<C>(s: seq<C>, n: nat, inside: C -> bool)
    requires n <= |s| && (forall i :: 0 <= i < n ==> inside(s[i])) && (n < |s| ==> !inside(s[n]))
    ensures RunLength(s, inside) == n
  {
    if n > 0 { RunUpTo(s[1..], n - 1, inside); }
  }

  lemma FirstRun<C(!new)>(w: seq<C>, rest: seq<C>, starts: C -> bool, inside: C -> bool)
    requires OneRun(w, starts, inside) && (|rest| > 0 ==> !inside(rest[0]))
    ensures Runs(w + rest, starts, inside) == [w] + Runs(rest, starts, inside)
  {
    var s := w + rest;
    RunUpTo(s[1..], |w| - 1, inside);
    assert s[..|w|] == w && s[|w|..] == rest;
  }

  lemma SingleRun<C(!new)>(w: seq<C>, starts: C -> bool, inside: C -> bool)
    requires OneRun(w, starts, inside)
    ensures Runs(w, starts, inside) == [w]
  {
    FirstRun(w, [], starts, inside);
    NoTail(w);
    NoTail([w]);
  }

  lemma TwoRuns<C(!new)>(w: seq<C>, space: C, w': seq<C>, starts: C -> bool, inside: C -> bool)
    requires OneRun(w, starts, inside) && OneRun(w', starts, inside) && !inside(space) && !starts(space)
    ensures Runs(w + ([space] + w'), starts, inside) == [w, w']
  {
    FirstRun(w, [space] + w', starts, inside);
    assert ([space] + w')[1..] == w';
    SingleRun(w', starts, inside);
    assert [w] + [w'] == [w, w'];
  }

  /** A long word in lower case, with nothing in it that ends a token. */
  ghost predicate LongWord(w: string) {
    |w| > LONGEST_STOPWORD && OneRun(w, StartsToken, InToken) && IsLowered(w)
  }

  lemma TermsOfWord(w: string)
    requires LongWord(w)
    ensures Terms(w) == {w}
  {
    StopwordsAreShort();
    LoweredStays(w);
    SingleRun(w, StartsToken, InToken);
  }

  lemma LoweredConcat(a: string, b: string)
    requires IsLowered(a) && IsLowered(b)
    ensures IsLowered(a + b)
  {
  }

  lemma TermsOfTwoWords(w: string, w': string)
    requires LongWord(w) && LongWord(w')
    ensures Terms(w + ([' '] + w')) == {w, w'}
  {
    StopwordsAreShort();
    LoweredConcat([' '], w');
    LoweredConcat(w, [' '] + w');
    LoweredStays(w + ([' '] + w'));
    TwoRuns(w, ' ', w', StartsToken, InToken);
  }
}
