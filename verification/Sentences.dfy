/** Splitting prose into sentences: `re.split(r"(?<=[.!?])\s+", text)`, used by the
    chunker and by the extraction of supporting sentences. The splitting is stated
    for any characters, given which of them stop a sentence and which are blank. */
module Sentences {
  import opened Sequences
  import opened Text

  predicate IsStop(c: char) {
    c == '.' || c == '!' || c == '?'
  }

  predicate BreaksAt<C>(s: seq<C>, j: int, stop: C -> bool, blank: C -> bool) {
    1 <= j < |s| && stop(s[j - 1]) && blank(s[j])
  }

  /** The first position where a blank follows a sentence stop, or the end of the text. */
  function SentenceEnd<C>(s: seq<C>, from: nat, stop: C -> bool, blank: C -> bool): (j: nat)
    requires from <= |s|
    ensures from <= j <= |s| && (j < |s| ==> BreaksAt(s, j, stop, blank))
    ensures forall i :: from <= i < j ==> !BreaksAt(s, i, stop, blank)
    decreases |s| - from
  {
    if from == |s| || BreaksAt(s, from, stop, blank) then from else SentenceEnd(s, from + 1, stop, blank)
  }

  function SplitBy<C>(text: seq<C>, stop: C -> bool, blank: C -> bool): (sentences: seq<seq<C>>)
    ensures |sentences| > 0
    decreases |text|
  {
    var j := SentenceEnd(text, 0, stop, blank);
    if j == |text| then [text] else [text[..j]] + SplitBy(LStripBy(text[j..], blank), stop, blank)
  }

  function SplitSentences(text: string): seq<string> {
    SplitBy(text, IsStop, IsSpace)
  }

  lemma InkAfterBreak<C>(s: seq<C>, j: nat, blank: C -> bool)
    requires j <= |s|
    ensures Ink(s, blank) == Ink(s[..j], blank) + Ink(LStripBy(s[j..], blank), blank)
  {
    var rest := s[j..];
    InkCut(s, j, blank);
    InkDropBlank(rest, |rest| - |LStripBy(rest, blank)|, blank);
  }

  /** Splitting into sentences only ever removes whitespace. */
  lemma {:induction false} SentencesConserve<C>(text: seq<C>, stop: C -> bool, blank: C -> bool)
    ensures Flatten(InkAll(SplitBy(text, stop, blank), blank)) == Ink(text, blank)
    decreases |text|
  {
    var j := SentenceEnd(text, 0, stop, blank);
    if j == |text| {
      InkAllCons(text, [], blank);
      NoTail([text]);
      NoTail(Ink(text, blank));
    } else {
      var rest := LStripBy(text[j..], blank);
      SentencesConserve(rest, stop, blank);
      InkAfterBreak(text, j, blank);
      InkAllCons(text[..j], SplitBy(rest, stop, blank), blank);
    }
  }

  // --------------------------------------------------- a sentence on its own

  /** Ends with a stop, starts with no blank, and has no break inside. */
  ghost predicate Single<C>(s: seq<C>, stop: C -> bool, blank: C -> bool) {
    |s| > 0 && stop(s[|s| - 1]) && !blank(s[0]) && forall j :: 0 <= j < |s| ==> !BreaksAt(s, j, stop, blank)
  }

  lemma FirstBreakIs<C>(text: seq<C>, j: nat, stop: C -> bool, blank: C -> bool)
    requires j <= |text| && (j < |text| ==> BreaksAt(text, j, stop, blank))
    requires forall i :: 0 <= i < j ==> !BreaksAt(text, i, stop, blank)
    ensures SentenceEnd(text, 0, stop, blank) == j
  {
  }

  lemma SingleAlone<C>(s: seq<C>, stop: C -> bool, blank: C -> bool)
    requires Single(s, stop, blank)
    ensures SplitBy(s, stop, blank) == [s]
  {
    FirstBreakIs(s, |s|, stop, blank);
  }

  lemma BreakAfter<C>(s: seq<C>, space: C, rest: seq<C>, stop: C -> bool, blank: C -> bool)
    requires Single(s, stop, blank) && blank(space)
    ensures SentenceEnd(s + [space] + rest, 0, stop, blank) == |s|
  {
    var text := s + [space] + rest;
    assert BreaksAt(text, |s|, stop, blank);
    forall i | 0 <= i < |s| ensures !BreaksAt(text, i, stop, blank) {
      assert !BreaksAt(s, i, stop, blank);
      if i > 0 { assert text[i] == s[i] && text[i - 1] == s[i - 1]; }
    }
    FirstBreakIs(text, |s|, stop, blank);
  }

  lemma LStripOne<C>(space: C, rest: seq<C>, blank: C -> bool)
    requires blank(space) && (|rest| > 0 ==> !blank(rest[0]))
    ensures LStripBy([space] + rest, blank) == rest
  {
    StripAfterBlank(rest, space, blank);
  }

  lemma SplitAt<C>(text: seq<C>, j: nat, rest: seq<C>, stop: C -> bool, blank: C -> bool)
    requires SentenceEnd(text, 0, stop, blank) == j < |text| && LStripBy(text[j..], blank) == rest
    ensures SplitBy(text, stop, blank) == [text[..j]] + SplitBy(rest, stop, blank)
  {
  }

  /** A sentence followed by one blank and more text is split off whole. */
  lemma SplitFirst<C>(s: seq<C>, space: C, rest: seq<C>, stop: C -> bool, blank: C -> bool)
    requires Single(s, stop, blank) && blank(space) && (|rest| > 0 ==> !blank(rest[0]))
    ensures SplitBy(s + [space] + rest, stop, blank) == [s] + SplitBy(rest, stop, blank)
  {
    var text := s + [space] + rest;
    BreakAfter(s, space, rest, stop, blank);
    LStripOne(space, rest, blank);
    assert text[..|s|] == s && text[|s|..] == [space] + rest;
    SplitAt(text, |s|, rest, stop, blank);
  }

  ghost predicate AllSingle<C>(sentences: seq<seq<C>>, stop: C -> bool, blank: C -> bool) {
    forall i :: 0 <= i < |sentences| ==> Single(sentences[i], stop, blank)
  }

  lemma JoinTwo<C>(sep: seq<C>, sentences: seq<seq<C>>)
    requires |sentences| >= 2
    ensures Join(sep, sentences) == sentences[0] + sep + Join(sep, sentences[1..])
  {
  }

  lemma SplitsOffFirst<C>(first: seq<C>, space: C, rest: seq<seq<C>>, stop: C -> bool, blank: C -> bool)
    requires Single(first, stop, blank) && blank(space) && |rest| > 0
    requires var tail := Join([space], rest); |tail| > 0 && !blank(tail[0]) && SplitBy(tail, stop, blank) == rest
    ensures SplitBy(first + [space] + Join([space], rest), stop, blank) == [first] + rest
  {
    SplitFirst(first, space, Join([space], rest), stop, blank);
  }

  lemma FirstOfConcat<C>(a: seq<C>, b: seq<C>, c: seq<C>)
    requires |a| > 0
    ensures |a + b + c| > 0 && (a + b + c)[0] == a[0]
  {
  }

  /** Sentences on their own, joined by single blanks, are what the text is split into. */
  lemma {:induction false} JoinSplits<C>(sentences: seq<seq<C>>, space: C, stop: C -> bool, blank: C -> bool)
    requires |sentences| > 0 && AllSingle(sentences, stop, blank) && blank(space)
    ensures SplitBy(Join([space], sentences), stop, blank) == sentences
    ensures |Join([space], sentences)| > 0 && Join([space], sentences)[0] == sentences[0][0]
  {
    assert Single(sentences[0], stop, blank);
    if |sentences| == 1 {
      SingleAlone(sentences[0], stop, blank);
    } else {
      var rest := sentences[1..];
      assert AllSingle(rest, stop, blank);
      JoinSplits(rest, space, stop, blank);
      assert Single(rest[0], stop, blank);
      JoinTwo([space], sentences);
      SplitsOffFirst(sentences[0], space, rest, stop, blank);
      FirstOfConcat(sentences[0], [space], Join([space], rest));
    }
  }
}
