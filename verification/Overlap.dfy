/** When the budget is kept (backend/app/ingestion/chunking.py, `_hard_split` and
    `chunk_text`): the tail carried over a sentence boundary is not counted. */
module Overlap {
  import opened Sequences
  import opened Text
  import opened Ordering
  import opened Options
  import opened Sentences
  import opened Splitting
  import opened Chunking

  // ---------------------------------------------- sentences that fill the budget

  function Copies<C>(a: seq<C>, n: nat): (r: seq<seq<C>>)
    ensures |r| == n
  {
    if n == 0 then [] else Copies(a, n - 1) + [a]
  }

  lemma {:induction false} CopiesAre<C>(a: seq<C>, n: nat)
    ensures forall i :: 0 <= i < n ==> Copies(a, n)[i] == a
  {
    if n > 0 { CopiesAre(a, n - 1); }
  }

  /** A sentence that is the whole budget long, with no blank in it. */
  ghost predicate FillsBudget<C(!new)>(a: seq<C>, k: Config<C>) {
    |a| == k.maxChars >= 1 && forall i :: 0 <= i < |a| ==> !k.blank(a[i])
  }

  /** Words with one space between them. */
  ghost predicate Spaced<C(!new)>(s: seq<C>, k: Config<C>) {
    && |s| > 0 && TrimmedBy(s, k.blank)
    && (forall i :: 0 <= i < |s| && k.blank(s[i]) ==> s[i] == k.space)
    && (forall i, j :: 0 <= i < j < |s| && j == i + 1 && k.blank(s[i]) ==> !k.blank(s[j]))
  }

  function Least(a: nat, b: nat): nat { if a < b then a else b }

  lemma SuffixOfSpaced<C(!new)>(s: seq<C>, d: nat, k: Config<C>)
    requires Spaced(s, k) && d < |s| && !k.blank(s[d])
    ensures Spaced(s[d..], k)
  {
    var tail := s[d..];
    assert forall i :: 0 <= i < |tail| ==> tail[i] == s[d + i];
    forall i, j | 0 <= i < j < |tail| && j == i + 1 && k.blank(tail[i]) ensures !k.blank(tail[j]) {
      assert tail[i] == s[d + i] && tail[j] == s[d + j];
    }
  }

  lemma TailOfSpaced<C(!new)>(s: seq<C>, n: nat, k: Config<C>)
    requires Spaced(s, k) && 0 < n <= |s|
    ensures var tail := s[|s| - n..];
            Spaced(tail, k) || (n >= 2 && tail == [k.space] + tail[1..] && Spaced(tail[1..], k))
  {
    var d := |s| - n;
    if k.blank(s[d]) {
      assert d + 1 < |s| && !k.blank(s[d + 1]);
      SuffixOfSpaced(s, d + 1, k);
      assert s[d..][1..] == s[d + 1..] && s[d..][0] == k.space;
    } else {
      SuffixOfSpaced(s, d, k);
    }
  }

  lemma SpacedJoin<C(!new)>(s: seq<C>, a: seq<C>, k: Config<C>)
    requires Spaced(s, k) && FillsBudget(a, k) && k.Proper()
    ensures Spaced(s + [k.space] + a, k)
  {
    var r := s + [k.space] + a;
    forall i, j | 0 <= i < j < |r| && j == i + 1 && k.blank(r[i]) ensures !k.blank(r[j]) {
      if j < |s| { assert r[i] == s[i] && r[j] == s[j]; }
    }
    forall i | 0 <= i < |r| && k.blank(r[i]) ensures r[i] == k.space {
      if i < |s| { assert r[i] == s[i]; }
    }
  }

  lemma FillingIsSpaced<C(!new)>(a: seq<C>, k: Config<C>)
    requires FillsBudget(a, k) && k.Proper() && k.Idempotent()
    ensures Spaced(a, k) && k.strip([k.space] + a) == a
  {
    assert k.strip([k.space] + a) == k.strip(a);
    assert TrimmedBy(a, k.blank);
  }

  /** A repeat that begins with the space loses it. */
  lemma AfterBlank<C(!new)>(tail: seq<C>, a: seq<C>, k: Config<C>)
    requires k.Proper() && k.Idempotent() && FillsBudget(a, k)
    requires |tail| >= 2 && tail == [k.space] + tail[1..] && Spaced(tail[1..], k)
    ensures Spaced(tail[1..] + [k.space] + a, k)
    ensures k.strip(tail + [k.space] + a) == tail[1..] + [k.space] + a
  {
    var rest := tail[1..];
    SpacedJoin(rest, a, k);
    assert tail + [k.space] + a == [k.space] + (rest + [k.space] + a);
    assert k.strip(rest + [k.space] + a) == rest + [k.space] + a;
  }

  /** The piece after the next sentence repeats what the overlap allows, but for at most
      one space, and holds the sentence: nothing counts the repeat. */
  lemma NextPiece<C(!new)>(current: seq<C>, a: seq<C>, k: Config<C>)
    requires k.Proper() && k.Idempotent() && Spaced(current, k) && FillsBudget(a, k)
    ensures var next := k.strip(LastChars(current, k.overlap) + [k.space] + a);
            Spaced(next, k) && |next| >= Least(k.overlap, |current|) + k.maxChars
  {
    var tail := LastChars(current, k.overlap);
    if |tail| == 0 {
      assert tail + [k.space] + a == [k.space] + a;
      FillingIsSpaced(a, k);
    } else {
      TailOfSpaced(current, |tail|, k);
      if Spaced(tail, k) {
        SpacedJoin(tail, a, k);
        assert k.strip(tail + [k.space] + a) == tail + [k.space] + a;
      } else {
        AfterBlank(tail, a, k);
      }
    }
  }

  lemma AfterFirst<C(!new)>(a: seq<C>, k: Config<C>)
    requires k.Proper() && k.Idempotent() && FillsBudget(a, k)
    ensures AddSentence(Split([], []), a, k) == Split([], a)
  {
    FillingIsSpaced(a, k);
    assert [] + [k.space] + a == [k.space] + a;
  }

  lemma AfterNext<C(!new)>(st: Split<C>, a: seq<C>, k: Config<C>)
    requires k.Proper() && k.Idempotent() && FillsBudget(a, k) && Spaced(st.current, k)
    ensures AddSentence(st, a, k)
         == Split(st.pieces + [st.current], k.strip(LastChars(st.current, k.overlap) + [k.space] + a))
  {
    assert k.strip(st.current) == st.current;
  }

  lemma {:induction false} Accumulates<C(!new)>(a: seq<C>, n: nat, k: Config<C>)
    requires k.Proper() && k.Idempotent() && FillsBudget(a, k) && n >= 1
    ensures var st := AddSentences(Copies(a, n), k);
            && Spaced(st.current, k) && |st.current| >= Least(k.overlap, n - 1) + k.maxChars
            && |Filter(st.pieces, IsPiece)| == n - 1
  {
    var copies := Copies(a, n);
    assert copies[..n - 1] == Copies(a, n - 1) && copies[n - 1] == a;
    if n == 1 {
      AfterFirst(a, k);
      FillingIsSpaced(a, k);
    } else {
      Accumulates(a, n - 1, k);
      var st := AddSentences(Copies(a, n - 1), k);
      AfterNext(st, a, k);
      NextPiece(st.current, a, k);
      FilterSnoc(st.pieces, st.current, IsPiece);
    }
  }

  /** With one sentence more than the overlap has characters, the last piece holds the
      whole overlap, or all of it but a space, on top of the whole budget. */
  lemma LastPieceOverflows<C(!new)>(text: seq<C>, a: seq<C>, k: Config<C>)
    requires k.Proper() && k.Idempotent() && FillsBudget(a, k) && k.sentences(text) == Copies(a, k.overlap + 1)
    ensures var pieces := HardSplitSpec(text, k);
            |pieces| == k.overlap + 1 && |pieces[k.overlap]| >= k.maxChars + k.overlap
  {
    Accumulates(a, k.overlap + 1, k);
    var st := AddSentences(k.sentences(text), k);
    assert k.strip(st.current) == st.current;
    FilterSnoc(st.pieces, st.current, IsPiece);
  }

  // --------------------------------------------------------- the same, in prose

  function Word(length: nat): (r: string)
    requires length >= 1
    ensures |r| == length && r[length - 1] == '.' && forall i :: 0 <= i < length - 1 ==> r[i] == 'x'
  {
    seq(length, i requires 0 <= i < length => if i == length - 1 then '.' else 'x')
  }

  lemma WordIsSentence(length: nat)
    requires length >= 1
    ensures Single(Word(length), IsStop, IsSpace) && forall i :: 0 <= i < length ==> !IsSpace(Word(length)[i])
  {
  }

  /** The text whose split overflows: sentences of the whole budget's length. */
  function Overflowing(maxChars: nat, overlap: nat): string
    requires maxChars >= 1
  {
    Join([' '], Copies(Word(maxChars), overlap + 1))
  }

  lemma OverflowingSplits(maxChars: nat, overlap: nat)
    requires maxChars >= 1
    ensures var pieces := HardSplitSpec(Overflowing(maxChars, overlap), Prose(maxChars, overlap));
            |pieces| == overlap + 1 && |pieces[overlap]| >= maxChars + overlap
  {
    var k := Prose(maxChars, overlap);
    ProseIsProper(maxChars, overlap);
    ProseIsIdempotent(maxChars, overlap);
    WordIsSentence(maxChars);
    CopiesAre(Word(maxChars), overlap + 1);
    JoinSplits(Copies(Word(maxChars), overlap + 1), ' ', IsStop, IsSpace);
    LastPieceOverflows(Overflowing(maxChars, overlap), Word(maxChars), k);
  }

  ghost predicate AlwaysWithinBudget(maxChars: nat, overlap: nat) {
    forall text :: AllWithin(HardSplitSpec(text, Prose(maxChars, overlap)), maxChars, IsSpace)
  }

  /** A hard split keeps to its budget on every text if and only if nothing is carried
      over from one piece to the next. */
  lemma BudgetKeptIffNoOverlap(maxChars: nat, overlap: nat)
    requires maxChars >= 1
    ensures AlwaysWithinBudget(maxChars, overlap) <==> overlap == 0
  {
    if overlap == 0 {
      forall text ensures AllWithin(HardSplitSpec(text, Prose(maxChars, 0)), maxChars, IsSpace) {
        ProseIsProper(maxChars, 0);
        HardSplitBounded(text, Prose(maxChars, 0));
      }
    } else {
      OverflowingSplits(maxChars, overlap);
      var pieces := HardSplitSpec(Overflowing(maxChars, overlap), Prose(maxChars, overlap));
      assert !AllWithin(pieces, maxChars, IsSpace) by { assert |pieces[overlap]| > maxChars; }
    }
  }

  // ------------------------------------------------------ a single piece fits

  function Count<C(!new)>(pieces: seq<seq<C>>): nat {
    |Filter(pieces, IsPiece)|
  }

  /** Before a second piece exists nothing was carried over, so nothing is too long. */
  ghost predicate Calm<C(!new)>(st: Split<C>, k: Config<C>) {
    && TrimmedBy(st.current, k.blank)
    && (Count(st.pieces) >= 2
        || (AllWithin(st.pieces, k.maxChars, k.blank) && (Count(st.pieces) >= 1 || |st.current| <= k.maxChars)))
  }

  lemma CountSnoc<C(!new)>(pieces: seq<seq<C>>, p: seq<C>)
    ensures Count(pieces + [p]) == Count(pieces) + if |p| > 0 then 1 else 0
  {
    FilterSnoc(pieces, p, IsPiece);
  }

  lemma TrimmedInk<C(!new)>(s: seq<C>, k: Config<C>)
    requires k.Proper() && TrimmedBy(s, k.blank) && |s| > 0
    ensures |k.strip(s)| > 0
  {
    InkCut(s, 1, k.blank);
    assert s[..1] == [s[0]];
    assert Ink(s[..1], k.blank) != [];
  }

  lemma EmitCalm<C(!new)>(st: Split<C>, k: Config<C>)
    requires k.Proper() && Calm(st, k) && st.current != []
    ensures Count(Emit(st, k).pieces) == Count(st.pieces) + 1
    ensures Calm(Emit(st, k), k)
  {
    TrimmedInk(st.current, k);
    CountSnoc(st.pieces, k.strip(st.current));
  }

  lemma WindowCalm<C(!new)>(pieces: seq<seq<C>>, window: seq<C>, k: Config<C>)
    requires k.Proper() && Calm(Split(pieces, []), k) && |window| <= k.maxChars
    ensures Calm(Split(pieces + [k.strip(window)], []), k)
  {
    CountSnoc(pieces, k.strip(window));
  }

  lemma {:induction false} CutLongCalm<C(!new)>(st: Split<C>, sentence: seq<C>, k: Config<C>)
    requires k.Proper() && Calm(st, k)
    ensures Calm(CutLong(st, sentence, k).0, k)
    decreases |sentence|
  {
    if |sentence| > k.maxChars {
      var emitted := EmitAny(st, k);
      if st.current != [] { EmitCalm(st, k); }
      assert emitted == Split(emitted.pieces, []);
      WindowCalm(emitted.pieces, sentence[..k.maxChars], k);
      CutLongCalm(Split(emitted.pieces + [k.strip(sentence[..k.maxChars])], []), sentence[k.Step()..], k);
    }
  }

  /** What is carried over comes after a piece; what is not fits. */
  lemma MakeRoomCalm<C(!new)>(st: Split<C>, rest: seq<C>, k: Config<C>)
    requires k.Proper() && Calm(st, k) && |rest| <= k.maxChars
    ensures var roomy := MakeRoom(st, rest, k);
            Calm(roomy.(current := k.strip(roomy.current + [k.space] + rest)), k)
  {
    var roomy := MakeRoom(st, rest, k);
    if st.current != [] && |st.current| + |rest| + 1 > k.maxChars {
      EmitCalm(st, k);
    } else {
      JoinedWithin(st.current, rest, k, k.maxChars + |st.current| + 1);
      if st.current == [] {
        assert st.current + [k.space] + rest == [k.space] + rest;
        assert k.strip([k.space] + rest) == k.strip(rest);
      }
    }
  }

  lemma {:induction false} AddSentencesCalm<C(!new)>(sentences: seq<seq<C>>, k: Config<C>)
    requires k.Proper()
    ensures Calm(AddSentences(sentences, k), k)
  {
    if sentences != [] {
      var st, last := AddSentences(sentences[..|sentences| - 1], k), sentences[|sentences| - 1];
      AddSentencesCalm(sentences[..|sentences| - 1], k);
      CutLongCalm(st, last, k);
      MakeRoomCalm(CutLong(st, last, k).0, CutLong(st, last, k).1, k);
    }
  }

  /** A split into a single piece keeps to the budget. */
  lemma OnePieceFits<C(!new)>(text: seq<C>, k: Config<C>)
    requires k.Proper()
    ensures |HardSplitSpec(text, k)| >= 2 || AllWithin(HardSplitSpec(text, k), k.maxChars, k.blank)
  {
    var st := AddSentences(k.sentences(text), k);
    AddSentencesCalm(k.sentences(text), k);
    if st.current != [] {
      TrimmedInk(st.current, k);
      EmitCalm(st, k);
    } else {
      assert |k.strip(st.current)| == 0;
    }
    if Count(Finish(st, k)) < 2 {
      FilterWithin(Finish(st, k), k.maxChars, k.blank);
    }
  }

  /** More than one part, or none too long. */
  ghost predicate PartsCalm<C(!new)>(parts: seq<seq<C>>, k: Config<C>) {
    |Cleaned(parts, k)| >= 2 || forall i :: 0 <= i < |parts| ==> |parts[i]| <= k.maxChars
  }

  lemma MorePartsCalm<C(!new)>(parts: seq<seq<C>>, part: seq<C>, k: Config<C>)
    requires PartsCalm(parts, k) && |part| <= k.maxChars
    ensures PartsCalm(parts + [part], k)
  {
    StripAllMore(parts, part, k);
    CountSnoc(StripAll(parts, k), k.strip(part));
  }

  lemma CutPartsCalm<C(!new)>(parts: seq<seq<C>>, paragraph: seq<C>, k: Config<C>)
    requires k.Proper() && k.Idempotent() && PartsCalm(parts, k)
    ensures PartsCalm(parts + HardSplitSpec(paragraph, k), k)
  {
    var pieces := HardSplitSpec(paragraph, k);
    PiecesAreStripped(paragraph, k);
    CleanedOfPieces(parts, pieces, k);
    OnePieceFits(paragraph, k);
  }

  lemma {:induction false} AddParagraphsCalm<C(!new)>(paragraphs: seq<seq<C>>, k: Config<C>)
    requires k.Proper() && k.Idempotent()
    ensures PartsCalm(Close(AddParagraphs(paragraphs, k)), k) && PartsCalm(AddParagraphs(paragraphs, k).parts, k)
  {
    AddParagraphsFit(paragraphs, k);
    var after := AddParagraphs(paragraphs, k);
    if paragraphs != [] {
      var rest, last := paragraphs[..|paragraphs| - 1], paragraphs[|paragraphs| - 1];
      var p := AddParagraphs(rest, k);
      AddParagraphsFit(rest, k);
      AddParagraphsCalm(rest, k);
      if |last| > k.maxChars {
        CutPartsCalm(Close(p), last, k);
      } else {
        MorePartsCalm(p.parts, p.buffer, k);
      }
    }
    MorePartsCalm(after.parts, after.buffer, k);
  }

  // ----------------------------------------------------------- chunks in tokens

  predicate NoNewline(s: string) {
    forall i :: 0 <= i < |s| ==> s[i] != '\n'
  }

  lemma {:induction false} OneLine(s: string, from: nat)
    requires NoNewline(s) && from <= |s|
    ensures FindBlankLine(s, from) == |s|
    decreases |s| - from
  {
    if from < |s| { OneLine(s, from + 1); }
  }

  lemma {:induction false} JoinedOnOneLine(sentences: seq<string>)
    requires forall i :: 0 <= i < |sentences| ==> NoNewline(sentences[i])
    ensures NoNewline(Join([' '], sentences))
  {
    if |sentences| > 1 { JoinedOnOneLine(sentences[1..]); }
  }

  lemma {:induction false} JoinedTrimmed<C>(sentences: seq<seq<C>>, sep: seq<C>, blank: C -> bool)
    requires |sentences| > 0 && forall i :: 0 <= i < |sentences| ==>
               |sentences[i]| > 0 && TrimmedBy(sentences[i], blank)
    ensures |Join(sep, sentences)| >= |sentences[0]| && Join(sep, sentences)[0] == sentences[0][0]
    ensures TrimmedBy(Join(sep, sentences), blank)
  {
    if |sentences| > 1 { JoinedTrimmed(sentences[1..], sep, blank); }
  }

  /** A text of one line that has no blank at its ends is one paragraph. */
  lemma OneParagraph(text: string, k: Config<char>)
    requires k.Idempotent() && NoNewline(text) && |text| > 0 && TrimmedBy(text, k.blank)
    ensures SplitParagraphs(text, k) == [text]
  {
    OneLine(text, 0);
    assert RawParagraphs(text) == [text];
    assert StripAll([text], k) == [text];
    FilterAll([text], IsPiece);
  }

  lemma PartsOfOversized(text: string, k: Config<char>)
    requires k.Proper() && k.Idempotent() && SplitParagraphs(text, k) == [text] && |text| > k.maxChars
    ensures Parts(text, k) == HardSplitSpec(text, k)
  {
    var pieces := HardSplitSpec(text, k);
    assert [text][..0] == [];
    assert AddParagraphs([text], k) == Packing([] + pieces, []);
    PiecesAreStripped(text, k);
    CleanedOfPieces([], pieces, k);
    assert Cleaned([], k) == [];
    NoTail(pieces);
  }

  ghost predicate TokensWithin(chunks: seq<Chunk>, maxTokens: nat) {
    forall p :: 0 <= p < |chunks| ==> chunks[p].tokenEstimate <= maxTokens
  }

  ghost predicate BudgetIsKept(maxTokens: nat, overlapTokens: nat) {
    forall text, sectionPath, startIndex ::
      TokensWithin(ChunkTextSpec(text, maxTokens, overlapTokens, sectionPath, startIndex), maxTokens)
  }

  lemma OverflowingIsLong(maxChars: nat, overlap: nat)
    requires maxChars >= 1 && overlap >= 1
    ensures |Overflowing(maxChars, overlap)| > maxChars
  {
    var copies := Copies(Word(maxChars), overlap + 1);
    CopiesAre(Word(maxChars), overlap + 1);
    JoinTwo([' '], copies);
  }

  lemma OverflowingParts(maxChars: nat, overlap: nat)
    requires maxChars >= 1 && overlap >= 1
    ensures var parts := Parts(Overflowing(maxChars, overlap), Prose(maxChars, overlap));
            |parts| >= 2 && exists i :: 0 <= i < |parts| && |parts[i]| >= maxChars + overlap
  {
    var k, text := Prose(maxChars, overlap), Overflowing(maxChars, overlap);
    ProseIsProper(maxChars, overlap);
    ProseIsIdempotent(maxChars, overlap);
    WordIsSentence(maxChars);
    CopiesAre(Word(maxChars), overlap + 1);
    JoinedOnOneLine(Copies(Word(maxChars), overlap + 1));
    JoinedTrimmed(Copies(Word(maxChars), overlap + 1), [' '], IsSpace);
    OverflowingIsLong(maxChars, overlap);
    OneParagraph(text, k);
    PartsOfOversized(text, k);
    OverflowingSplits(maxChars, overlap);
    assert |Parts(text, k)[overlap]| >= maxChars + overlap;
  }

  /** A retained part is some chunk's content. */
  lemma RetainedIsChunk(text: string, maxTokens: nat, overlapTokens: nat, i: nat) returns (p: nat)
    requires var parts := Parts(text, Budget(maxTokens, overlapTokens));
             i < |parts| && |parts| >= 2 && IsLongEnough(parts[i])
    ensures var chunks := ChunkTextSpec(text, maxTokens, overlapTokens, None, 0);
            p < |chunks| && chunks[p].tokenEstimate == EstimateTokens(Parts(text, Budget(maxTokens, overlapTokens))[i])
  {
    var parts := Parts(text, Budget(maxTokens, overlapTokens));
    OnlySliversAreDropped(text, maxTokens, overlapTokens, None, 0);
    FilterMembers(parts, IsLongEnough);
    var chunks := ChunkTextSpec(text, maxTokens, overlapTokens, None, 0);
    assert parts[i] in Contents(chunks);
    p :| 0 <= p < |chunks| && Contents(chunks)[p] == parts[i];
    var j := MadeFromOne(parts, 0, Keeper(parts), Maker(None, 0), p);
  }

  lemma ChunkFits(text: string, maxTokens: nat, overlapTokens: nat, sectionPath: Option<string>, startIndex: nat,
                  p: nat)
    requires maxTokens == 0 || overlapTokens == 0 || maxTokens + overlapTokens < 20
    requires p < |ChunkTextSpec(text, maxTokens, overlapTokens, sectionPath, startIndex)|
    ensures ChunkTextSpec(text, maxTokens, overlapTokens, sectionPath, startIndex)[p].tokenEstimate <= maxTokens
  {
    var k := Budget(maxTokens, overlapTokens);
    var parts, paragraphs := Parts(text, k), SplitParagraphs(text, k);
    var j := MadeFromOne(parts, 0, Keeper(parts), Maker(sectionPath, startIndex), p);
    ProseIsProper(k.maxChars, k.overlap);
    ProseIsIdempotent(k.maxChars, k.overlap);
    PackedFits(paragraphs, k, parts[j]);
    if maxTokens == 0 {
      NothingFitsZero(paragraphs, parts[j], k);
    } else if |parts| <= 1 {
      AddParagraphsCalm(paragraphs, k);
      CleanedNoLonger(Close(AddParagraphs(paragraphs, k)), k, j);
    }
  }

  lemma NothingFitsZero<C(!new)>(paragraphs: seq<seq<C>>, part: seq<C>, k: Config<C>)
    requires k.Proper() && k.maxChars == 0 && |part| > 0
    ensures !FitsOrCut(paragraphs, part, k)
  {
    forall q: seq<C> ensures HardSplitSpec(q, k) == [] {
      ZeroBudgetSplitsToNothing(q, k);
    }
  }

  lemma CleanedNoLonger<C(!new)>(parts: seq<seq<C>>, k: Config<C>, j: nat)
    requires k.Proper() && j < |Cleaned(parts, k)| && forall i :: 0 <= i < |parts| ==> |parts[i]| <= k.maxChars
    ensures |Cleaned(parts, k)[j]| <= k.maxChars
  {
    FilterMembers(StripAll(parts, k), IsPiece);
    assert Cleaned(parts, k)[j] in StripAll(parts, k);
    var i :| 0 <= i < |parts| && StripAll(parts, k)[i] == Cleaned(parts, k)[j];
  }

  /** The budget in tokens, as callers configure it: it is kept for every text if and
      only if it is zero, or nothing is carried over, or what a piece could grow to is
      dropped as a sliver anyway. The defaults, 512 and 64, do not keep it. */
  lemma BudgetKeptIff(maxTokens: nat, overlapTokens: nat)
    ensures BudgetIsKept(maxTokens, overlapTokens) <==>
              maxTokens == 0 || overlapTokens == 0 || maxTokens + overlapTokens < 20
  {
    if maxTokens == 0 || overlapTokens == 0 || maxTokens + overlapTokens < 20 {
      forall text, sectionPath, startIndex
        ensures TokensWithin(ChunkTextSpec(text, maxTokens, overlapTokens, sectionPath, startIndex), maxTokens)
      {
        var chunks := ChunkTextSpec(text, maxTokens, overlapTokens, sectionPath, startIndex);
        forall p | 0 <= p < |chunks| ensures chunks[p].tokenEstimate <= maxTokens {
          ChunkFits(text, maxTokens, overlapTokens, sectionPath, startIndex, p);
        }
      }
    } else {
      var k := Budget(maxTokens, overlapTokens);
      var text := Overflowing(k.maxChars, k.overlap);
      OverflowingParts(k.maxChars, k.overlap);
      var i :| 0 <= i < |Parts(text, k)| && |Parts(text, k)[i]| >= k.maxChars + k.overlap;
      var p := RetainedIsChunk(text, maxTokens, overlapTokens, i);
      assert !TokensWithin(ChunkTextSpec(text, maxTokens, overlapTokens, None, 0), maxTokens);
    }
  }

  /** No part of a section is lost, whatever the overlap, if and only if the budget is at
      least one character or nothing was visible. */
  lemma PartsConserveIff(text: string, maxChars: nat, overlap: nat)
    ensures Accounts(Parts(text, Prose(maxChars, overlap)), Visible(text), overlap, IsSpace) <==>
              maxChars >= 1 || Visible(text) == ""
  {
    var k := Prose(maxChars, overlap);
    if maxChars >= 1 {
      var novel := PartsConserve(text, maxChars, overlap);
    } else {
      ProseIsProper(0, overlap);
      ProseIsIdempotent(0, overlap);
      var paragraphs := SplitParagraphs(text, k);
      if Parts(text, k) != [] {
        PackedFits(paragraphs, k, Parts(text, k)[0]);
        NothingFitsZero(paragraphs, Parts(text, k)[0], k);
        assert false;
      }
      NoPiecesAccountForNothing(Visible(text), overlap, IsSpace);
    }
  }
}
