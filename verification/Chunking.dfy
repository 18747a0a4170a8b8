/** Hierarchical chunking (backend/app/ingestion/chunking.py): paragraphs packed
    into a character budget, within one section. */
module Chunking {
  import opened Sequences
  import opened Text
  import opened Ordering
  import opened Options
  import opened Splitting

  const MIN_CHUNK_CHARS: nat := 80

  datatype Chunk =
    Chunk(index: nat, content: string, sectionPath: Option<string>, tokenEstimate: nat,
          pageNumber: Option<int>, kind: string)

  // -------------------------------------------------------------- paragraphs

  function SkipBlanks(s: string, i: nat): (j: nat)
    requires i <= |s|
    ensures i <= j <= |s| && forall k :: i <= k < j ==> IsSpace(s[k])
    decreases |s| - i
  {
    if i < |s| && (s[i] == ' ' || s[i] == '\t') then SkipBlanks(s, i + 1) else i
  }

  /** A blank line starts here: `\n[ \t]*\n`. */
  predicate BlankLineAt(s: string, i: nat) {
    i < |s| && s[i] == '\n' && SkipBlanks(s, i + 1) < |s| && s[SkipBlanks(s, i + 1)] == '\n'
  }

  function FindBlankLine(s: string, from: nat): (i: nat)
    requires from <= |s|
    ensures from <= i <= |s| && (i < |s| ==> BlankLineAt(s, i))
    ensures forall k :: from <= k < i ==> !BlankLineAt(s, k)
    decreases |s| - from
  {
    if from == |s| || BlankLineAt(s, from) then from else FindBlankLine(s, from + 1)
  }

  /** `re.split(r"\n[ \t]*\n", text)`. */
  function RawParagraphs(s: string): seq<string>
    decreases |s|
  {
    var i := FindBlankLine(s, 0);
    if i == |s| then [s] else [s[..i]] + RawParagraphs(s[SkipBlanks(s, i + 1) + 1..])
  }

  function StripAll<C(!new)>(parts: seq<seq<C>>, k: Config<C>): (r: seq<seq<C>>)
    ensures |r| == |parts|
  {
    seq(|parts|, i requires 0 <= i < |parts| => k.strip(parts[i]))
  }

  /** The parts that are not blank, stripped. */
  function Cleaned<C(!new)>(parts: seq<seq<C>>, k: Config<C>): seq<seq<C>> {
    Filter(StripAll(parts, k), IsPiece)
  }

  function SplitParagraphs(text: string, k: Config<char>): seq<string> {
    var paragraphs := Cleaned(RawParagraphs(text), k);
    if paragraphs != [] then paragraphs
    else if k.strip(text) != "" then [k.strip(text)] else []
  }

  lemma {:induction false} RawParagraphsConserve(s: string)
    ensures Flatten(VisibleAll(RawParagraphs(s))) == Visible(s)
    decreases |s|
  {
    var i := FindBlankLine(s, 0);
    if i == |s| {
      InkAllCons(s, [], IsSpace);
      assert [s] + [] == [s];
    } else {
      var j := SkipBlanks(s, i + 1) + 1;
      RawParagraphsConserve(s[j..]);
      InkGap(s, i, j, IsSpace);
      InkAllCons(s[..i], RawParagraphs(s[j..]), IsSpace);
    }
  }

  /** The ink of the cleaned parts. */
  function Shown<C(!new)>(parts: seq<seq<C>>, k: Config<C>): seq<seq<C>> {
    Kept(StripAll(parts, k), k.blank)
  }

  lemma StripAllMore<C(!new)>(parts: seq<seq<C>>, p: seq<C>, k: Config<C>)
    ensures StripAll(parts + [p], k) == StripAll(parts, k) + [k.strip(p)]
  {
  }

  lemma ShownSnoc<C(!new)>(parts: seq<seq<C>>, p: seq<C>, k: Config<C>)
    requires k.Proper()
    ensures Shown(parts + [p], k) == Pushed(Shown(parts, k), Ink(p, k.blank))
  {
    StripAllMore(parts, p, k);
    KeptSnoc(StripAll(parts, k), p, k);
  }

  lemma FlattenPushed<C>(parts: seq<seq<C>>, p: seq<C>)
    ensures Flatten(Pushed(parts, p)) == Flatten(parts) + p
  {
    FlattenSnoc(parts, p);
  }

  /** Cleaning drops only parts with nothing visible. */
  lemma {:induction false} CleanedConserves<C(!new)>(parts: seq<seq<C>>, k: Config<C>)
    requires k.Proper()
    ensures Flatten(Shown(parts, k)) == Flatten(InkAll(parts, k.blank))
  {
    if parts != [] {
      var rest, last := parts[..|parts| - 1], parts[|parts| - 1];
      CleanedConserves(rest, k);
      assert parts == rest + [last];
      ShownSnoc(rest, last, k);
      FlattenPushed(Shown(rest, k), Ink(last, k.blank));
      InkAllSnoc(parts, k.blank);
    }
  }

  lemma ParagraphsConserve(text: string, k: Config<char>)
    requires k.Proper() && k.blank == IsSpace
    ensures Flatten(VisibleAll(SplitParagraphs(text, k))) == Visible(text)
  {
    RawParagraphsConserve(text);
    CleanedConserves(RawParagraphs(text), k);
    if Cleaned(RawParagraphs(text), k) == [] {
      assert Flatten(VisibleAll([])) == "";
      assert |k.strip(text)| > 0 <==> Visible(text) != "";
    }
  }

  // ------------------------------------------------------------------ packing

  /** The parts closed so far and the one being filled. */
  datatype Packing<C> = Packing(parts: seq<seq<C>>, buffer: seq<C>)

  function Close<C>(p: Packing<C>): seq<seq<C>> {
    if |p.buffer| > 0 then p.parts + [p.buffer] else p.parts
  }

  function Candidate<C(!new)>(buffer: seq<C>, paragraph: seq<C>, k: Config<C>): seq<C> {
    if |buffer| > 0 then buffer + k.gap + paragraph else paragraph
  }

  function AddParagraph<C(!new)>(p: Packing<C>, paragraph: seq<C>, k: Config<C>): Packing<C> {
    if |paragraph| > k.maxChars then Packing(Close(p) + HardSplitSpec(paragraph, k), [])
    else if |Candidate(p.buffer, paragraph, k)| > k.maxChars then Packing(p.parts + [p.buffer], paragraph)
    else Packing(p.parts, Candidate(p.buffer, paragraph, k))
  }

  function AddParagraphs<C(!new)>(paragraphs: seq<seq<C>>, k: Config<C>): Packing<C> {
    if paragraphs == [] then Packing([], [])
    else AddParagraph(AddParagraphs(paragraphs[..|paragraphs| - 1], k), paragraphs[|paragraphs| - 1], k)
  }

  function Parts(text: string, k: Config<char>): seq<string> {
    Cleaned(Close(AddParagraphs(SplitParagraphs(text, k), k)), k)
  }

  predicate IsLongEnough(part: string) {
    |part| >= MIN_CHUNK_CHARS
  }

  predicate Retained(cleaned: seq<string>, part: string) {
    |cleaned| <= 1 || IsLongEnough(part)
  }

  /** `[make(i, x) for i, x in enumerate(items) if keep(x)]`, from position `i` on. */
  function MakeFrom<A, B>(items: seq<A>, i: nat, keep: A -> bool, make: (nat, A) -> B): seq<B>
    requires i <= |items|
    decreases |items| - i
  {
    if i == |items| then []
    else if keep(items[i]) then [make(i, items[i])] + MakeFrom(items, i + 1, keep, make)
    else MakeFrom(items, i + 1, keep, make)
  }

  function Keeper(cleaned: seq<string>): string -> bool {
    (part: string) => Retained(cleaned, part)
  }

  function Maker(sectionPath: Option<string>, startIndex: nat): (nat, string) -> Chunk {
    (offset: nat, part: string) => Chunk(startIndex + offset, part, sectionPath, EstimateTokens(part), None, "text")
  }

  /** The chunks made of the retained parts; indices count all parts. */
  function ChunksFrom(cleaned: seq<string>, sectionPath: Option<string>, startIndex: nat): seq<Chunk> {
    MakeFrom(cleaned, 0, Keeper(cleaned), Maker(sectionPath, startIndex))
  }

  function Budget(maxTokens: nat, overlapTokens: nat): Config<char> {
    Prose(maxTokens * CHARS_PER_TOKEN, overlapTokens * CHARS_PER_TOKEN)
  }

  function ChunkTextSpec(text: string, maxTokens: nat, overlapTokens: nat, sectionPath: Option<string>, startIndex: nat)
    : seq<Chunk>
  {
    ChunksFrom(Parts(text, Budget(maxTokens, overlapTokens)), sectionPath, startIndex)
  }

  /** The packing loop of `chunk_text`. */
  method PackParagraphs<C(==, !new)>(paragraphs: seq<seq<C>>, k: Config<C>) returns (parts: seq<seq<C>>, buffer: seq<C>)
    ensures Packing(parts, buffer) == AddParagraphs(paragraphs, k)
  {
    parts, buffer := [], [];
    for i := 0 to |paragraphs|
      invariant Packing(parts, buffer) == AddParagraphs(paragraphs[..i], k)
    {
      assert paragraphs[..i + 1][..i] == paragraphs[..i];
      var paragraph := paragraphs[i];
      if |paragraph| > k.maxChars {
        if |buffer| > 0 {
          parts := parts + [buffer];
          buffer := [];
        }
        var pieces := HardSplit(paragraph, k);
        parts := parts + pieces;
        continue;
      }
      var candidate := if |buffer| > 0 then buffer + k.gap + paragraph else paragraph;
      if |candidate| > k.maxChars {
        parts, buffer := parts + [buffer], paragraph;
      } else {
        buffer := candidate;
      }
    }
    assert paragraphs[..|paragraphs|] == paragraphs;
  }

  method ChunkText(text: string, maxTokens: nat, overlapTokens: nat, sectionPath: Option<string>, startIndex: nat)
    returns (chunks: seq<Chunk>)
    ensures chunks == ChunkTextSpec(text, maxTokens, overlapTokens, sectionPath, startIndex)
  {
    var k := Budget(maxTokens, overlapTokens);
    var parts, buffer := PackParagraphs(SplitParagraphs(text, k), k);
    if |buffer| > 0 { parts := parts + [buffer]; }
    chunks := ChunksFrom(Cleaned(parts, k), sectionPath, startIndex);
  }

  // ------------------------------------------------------------- conservation

  lemma ChainConcat<C>(a: seq<seq<C>>, na: seq<seq<C>>, b: seq<seq<C>>, nb: seq<seq<C>>, overlap: nat)
    requires Chain(a, na, overlap) && Chain(b, nb, overlap)
    ensures Chain(a + b, na + nb, overlap)
  {
    var c, n := a + b, na + nb;
    forall i | 0 <= i < |c| ensures Extends(Before(c, i), c[i], n[i], overlap) {
      if i < |a| {
        assert Extends(Before(a, i), a[i], na[i], overlap);
      } else {
        assert Extends(Before(b, i - |a|), b[i - |a|], nb[i - |a|], overlap);
      }
    }
  }

  lemma ChainOfNew<C>(parts: seq<seq<C>>, overlap: nat)
    ensures Chain(parts, parts, overlap)
  {
    forall i | 0 <= i < |parts| ensures Extends(Before(parts, i), parts[i], parts[i], overlap) {
      NoTail(parts[i]);
    }
  }

  lemma ChainPushed<C>(parts: seq<seq<C>>, novel: seq<seq<C>>, v: seq<C>, overlap: nat)
    requires Chain(parts, novel, overlap)
    ensures Chain(Pushed(parts, v), Pushed(novel, v), overlap)
    ensures Flatten(Pushed(novel, v)) == Flatten(novel) + v
  {
    FlattenPushed(novel, v);
    if v != [] {
      ChainOfNew([v], overlap);
      ChainConcat(parts, novel, [v], [v], overlap);
    }
  }

  /** Closing the buffer, as a new part all of whose text is new. */
  lemma CloseKeeps<C(!new)>(p: Packing<C>, novel: seq<seq<C>>, k: Config<C>) returns (novel': seq<seq<C>>)
    requires k.Proper() && Chain(Shown(p.parts, k), novel, k.overlap)
    ensures Chain(Shown(Close(p), k), novel', k.overlap) && Flatten(novel') == Flatten(novel) + Ink(p.buffer, k.blank)
  {
    if p.buffer == [] {
      novel' := novel;
    } else {
      ShownSnoc(p.parts, p.buffer, k);
      ChainPushed(Shown(p.parts, k), novel, Ink(p.buffer, k.blank), k.overlap);
      novel' := Pushed(novel, Ink(p.buffer, k.blank));
    }
  }

  /** Stripping and filtering leave hard-split pieces alone. */
  lemma CleanedOfPieces<C(!new)>(a: seq<seq<C>>, pieces: seq<seq<C>>, k: Config<C>)
    requires forall p :: p in pieces ==> IsPiece(p) && k.strip(p) == p
    ensures Cleaned(a + pieces, k) == Cleaned(a, k) + pieces
  {
    assert StripAll(a + pieces, k) == StripAll(a, k) + pieces;
    FilterConcat(StripAll(a, k), pieces, IsPiece);
    FilterAll(pieces, IsPiece);
  }

  /** Pieces come out stripped, so stripping them again changes nothing. */
  lemma PiecesAreStripped<C(!new)>(text: seq<C>, k: Config<C>)
    requires k.Proper() && k.Idempotent()
    ensures forall p :: p in HardSplitSpec(text, k) ==> IsPiece(p) && k.strip(p) == p
  {
    HardSplitPiecesNonEmpty(text, k);
    HardSplitBounded(text, k);
  }

  lemma OversizedKeeps<C(!new)>(parts: seq<seq<C>>, novel: seq<seq<C>>, paragraph: seq<C>, k: Config<C>)
    returns (novel': seq<seq<C>>)
    requires k.Conserving() && k.Idempotent() && k.maxChars >= 1 && Chain(Shown(parts, k), novel, k.overlap)
    ensures Chain(Shown(parts + HardSplitSpec(paragraph, k), k), novel', k.overlap)
    ensures Flatten(novel') == Flatten(novel) + Ink(paragraph, k.blank)
  {
    var pieces := HardSplitSpec(paragraph, k);
    PiecesAreStripped(paragraph, k);
    var added := HardSplitConserves(paragraph, k);
    CleanedOfPieces(parts, pieces, k);
    InkAllConcat(Cleaned(parts, k), pieces, k.blank);
    ChainConcat(Shown(parts, k), novel, InkAll(pieces, k.blank), added, k.overlap);
    novel' := novel + added;
    FlattenConcat(novel, added);
  }

  lemma InkCandidate<C(!new)>(buffer: seq<C>, paragraph: seq<C>, k: Config<C>)
    requires k.Conserving()
    ensures Ink(Candidate(buffer, paragraph, k), k.blank) == Ink(buffer, k.blank) + Ink(paragraph, k.blank)
  {
    if buffer != [] { InkAround(buffer, k.gap, paragraph, k.blank); }
  }

  lemma AddParagraphKeeps<C(!new)>(p: Packing<C>, paragraph: seq<C>, k: Config<C>, novel: seq<seq<C>>)
    returns (novel': seq<seq<C>>)
    requires k.Conserving() && k.Idempotent() && k.maxChars >= 1 && Chain(Shown(p.parts, k), novel, k.overlap)
    ensures var q := AddParagraph(p, paragraph, k);
            && Chain(Shown(q.parts, k), novel', k.overlap)
            && Flatten(novel') + Ink(q.buffer, k.blank) ==
                 Flatten(novel) + Ink(p.buffer, k.blank) + Ink(paragraph, k.blank)
  {
    if |paragraph| > k.maxChars {
      var closed := CloseKeeps(p, novel, k);
      novel' := OversizedKeeps(Close(p), closed, paragraph, k);
      InkNothing(k.blank);
      NoTail(Flatten(novel'));
    } else if |Candidate(p.buffer, paragraph, k)| > k.maxChars {
      novel' := CloseKeeps(p, novel, k);
    } else {
      novel' := novel;
      InkCandidate(p.buffer, paragraph, k);
      Assoc(Flatten(novel), Ink(p.buffer, k.blank), Ink(paragraph, k.blank));
    }
  }

  lemma {:induction false} AddParagraphsKeeps<C(!new)>(paragraphs: seq<seq<C>>, k: Config<C>)
    returns (novel: seq<seq<C>>)
    requires k.Conserving() && k.Idempotent() && k.maxChars >= 1
    ensures var p := AddParagraphs(paragraphs, k);
            && Chain(Shown(p.parts, k), novel, k.overlap)
            && Flatten(novel) + Ink(p.buffer, k.blank) == Flatten(InkAll(paragraphs, k.blank))
  {
    if paragraphs == [] {
      return [];
    }
    var rest, last := paragraphs[..|paragraphs| - 1], paragraphs[|paragraphs| - 1];
    var before := AddParagraphsKeeps(rest, k);
    InkAllSnoc(paragraphs, k.blank);
    novel := AddParagraphKeeps(AddParagraphs(rest, k), last, k, before);
  }

  /** Packing loses nothing: the parts are new text, each preceded by a repeat of at
      most `overlap` visible characters ending the part before it, and the new text
      is the visible text of the section, in order. */
  lemma PartsConserve(text: string, maxChars: nat, overlap: nat) returns (novel: seq<string>)
    requires maxChars >= 1
    ensures Chain(VisibleAll(Parts(text, Prose(maxChars, overlap))), novel, overlap)
    ensures Flatten(novel) == Visible(text)
  {
    var k := Prose(maxChars, overlap);
    ProseIsConserving(maxChars, overlap);
    ProseIsIdempotent(maxChars, overlap);
    var paragraphs := SplitParagraphs(text, k);
    ParagraphsConserve(text, k);
    var before := AddParagraphsKeeps(paragraphs, k);
    novel := CloseKeeps(AddParagraphs(paragraphs, k), before, k);
  }

  // ------------------------------------------------------------ length bounds

  /** Within the budget, or a hard-split piece of a paragraph that was not. */
  ghost predicate FitsOrCut<C(!new)>(paragraphs: seq<seq<C>>, part: seq<C>, k: Config<C>) {
    |part| <= k.maxChars || CutFrom(paragraphs, part, k)
  }

  ghost predicate CutFrom<C(!new)>(paragraphs: seq<seq<C>>, part: seq<C>, k: Config<C>) {
    exists q :: q in paragraphs && |q| > k.maxChars && part in HardSplitSpec(q, k)
  }

  ghost predicate AllFitOrCut<C(!new)>(paragraphs: seq<seq<C>>, parts: seq<seq<C>>, k: Config<C>) {
    forall part :: part in parts ==> FitsOrCut(paragraphs, part, k)
  }

  lemma MoreParagraphs<C(!new)>(rest: seq<seq<C>>, last: seq<C>, parts: seq<seq<C>>, k: Config<C>)
    requires AllFitOrCut(rest, parts, k)
    ensures AllFitOrCut(rest + [last], parts, k)
  {
    forall part | part in parts ensures FitsOrCut(rest + [last], part, k) {
      assert FitsOrCut(rest, part, k);
      if |part| > k.maxChars {
        var q :| q in rest && |q| > k.maxChars && part in HardSplitSpec(q, k);
        assert q in rest + [last];
      }
    }
  }

  lemma AddParagraphFits<C(!new)>(rest: seq<seq<C>>, last: seq<C>, p: Packing<C>, k: Config<C>)
    requires AllFitOrCut(rest, p.parts, k) && |p.buffer| <= k.maxChars
    ensures var q := AddParagraph(p, last, k); AllFitOrCut(rest + [last], q.parts, k) && |q.buffer| <= k.maxChars
  {
    MoreParagraphs(rest, last, p.parts, k);
    assert last in rest + [last];
  }

  lemma {:induction false} AddParagraphsFit<C(!new)>(paragraphs: seq<seq<C>>, k: Config<C>)
    ensures var p := AddParagraphs(paragraphs, k); AllFitOrCut(paragraphs, p.parts, k) && |p.buffer| <= k.maxChars
  {
    if paragraphs != [] {
      var rest, last := paragraphs[..|paragraphs| - 1], paragraphs[|paragraphs| - 1];
      AddParagraphsFit(rest, k);
      AddParagraphFits(rest, last, AddParagraphs(rest, k), k);
      assert paragraphs == rest + [last];
    }
  }

  lemma CutIsWithin<C(!new)>(paragraphs: seq<seq<C>>, part: seq<C>, k: Config<C>)
    requires k.Proper() && k.Idempotent() && CutFrom(paragraphs, part, k)
    ensures |part| <= PieceLimit(k.maxChars, k.overlap) && k.strip(part) == part
  {
    var q :| q in paragraphs && |q| > k.maxChars && part in HardSplitSpec(q, k);
    HardSplitBounded(q, k);
    PiecesAreStripped(q, k);
  }

  lemma StrippedFits<C(!new)>(paragraphs: seq<seq<C>>, raw: seq<C>, k: Config<C>)
    requires k.Proper() && k.Idempotent() && FitsOrCut(paragraphs, raw, k)
    ensures FitsOrCut(paragraphs, k.strip(raw), k) && |k.strip(raw)| <= PieceLimit(k.maxChars, k.overlap)
  {
    assert |k.strip(raw)| <= |raw|;
    if |raw| > k.maxChars { CutIsWithin(paragraphs, raw, k); }
  }

  lemma CloseFits<C(!new)>(paragraphs: seq<seq<C>>, p: Packing<C>, k: Config<C>)
    requires AllFitOrCut(paragraphs, p.parts, k) && |p.buffer| <= k.maxChars
    ensures AllFitOrCut(paragraphs, Close(p), k)
  {
  }

  lemma CleanedFits<C(!new)>(paragraphs: seq<seq<C>>, parts: seq<seq<C>>, k: Config<C>, part: seq<C>)
    requires k.Proper() && k.Idempotent() && AllFitOrCut(paragraphs, parts, k) && part in Cleaned(parts, k)
    ensures |part| > 0 && |part| <= PieceLimit(k.maxChars, k.overlap) && FitsOrCut(paragraphs, part, k)
  {
    FilterMembers(StripAll(parts, k), IsPiece);
    assert IsPiece(part);
    var i :| 0 <= i < |parts| && StripAll(parts, k)[i] == part;
    assert parts[i] in parts;
    StrippedFits(paragraphs, parts[i], k);
  }

  /** Every part is non-empty, within the budget when it came from packing, and
      otherwise a hard-split piece, at most the overlap and a space beyond it. */
  lemma PackedFits<C(!new)>(paragraphs: seq<seq<C>>, k: Config<C>, part: seq<C>)
    requires k.Proper() && k.Idempotent() && part in Cleaned(Close(AddParagraphs(paragraphs, k)), k)
    ensures |part| > 0 && |part| <= PieceLimit(k.maxChars, k.overlap) && FitsOrCut(paragraphs, part, k)
  {
    var p := AddParagraphs(paragraphs, k);
    AddParagraphsFit(paragraphs, k);
    CloseFits(paragraphs, p, k);
    CleanedFits(paragraphs, Close(p), k, part);
  }

  function Mapped<A, B>(xs: seq<A>, f: A -> B): (r: seq<B>)
    ensures |r| == |xs| && forall i :: 0 <= i < |r| ==> r[i] == f(xs[i])
  {
    seq(|xs|, i requires 0 <= i < |xs| => f(xs[i]))
  }

  function Content(c: Chunk): string { c.content }

  function Contents(chunks: seq<Chunk>): seq<string> {
    Mapped(chunks, Content)
  }

  lemma MappedCons<A, B>(x: A, xs: seq<A>, f: A -> B)
    ensures Mapped([x] + xs, f) == [f(x)] + Mapped(xs, f)
  {
  }

  lemma {:induction false} MadeFromKept<A(!new), B>(items: seq<A>, i: nat, keep: A -> bool, make: (nat, A) -> B,
                                                    back: B -> A)
    requires i <= |items| && forall n: nat, x :: back(make(n, x)) == x
    ensures Mapped(MakeFrom(items, i, keep, make), back) == Filter(items[i..], keep)
    decreases |items| - i
  {
    if i < |items| {
      MadeFromKept(items, i + 1, keep, make, back);
      assert items[i..][1..] == items[i + 1..] && items[i..][0] == items[i];
      MappedCons(make(i, items[i]), MakeFrom(items, i + 1, keep, make), back);
    }
  }

  lemma {:induction false} MadeFromOne<A, B>(items: seq<A>, i: nat, keep: A -> bool, make: (nat, A) -> B, p: nat)
    returns (j: nat)
    requires i <= |items| && p < |MakeFrom(items, i, keep, make)|
    ensures j < |items| && keep(items[j]) && MakeFrom(items, i, keep, make)[p] == make(j, items[j])
    decreases |items| - i
  {
    if !keep(items[i]) {
      j := MadeFromOne(items, i + 1, keep, make, p);
    } else if p == 0 {
      j := i;
    } else {
      j := MadeFromOne(items, i + 1, keep, make, p - 1);
    }
  }

  lemma ContentsKept(parts: seq<string>, sectionPath: Option<string>, startIndex: nat)
    ensures Contents(ChunksFrom(parts, sectionPath, startIndex)) == Filter(parts, Keeper(parts))
  {
    MadeFromKept(parts, 0, Keeper(parts), Maker(sectionPath, startIndex), Content);
    assert parts[0..] == parts;
  }

  lemma KeptAre(parts: seq<string>)
    ensures Filter(parts, Keeper(parts)) == if |parts| <= 1 then parts else Filter(parts, IsLongEnough)
  {
    if |parts| <= 1 {
      FilterAll(parts, Keeper(parts));
    } else {
      FilterSame(parts, Keeper(parts), IsLongEnough);
    }
  }

  /** The only text `chunk_text` drops is whole parts shorter than the minimum, and
      none when there is a single part. */
  lemma OnlySliversAreDropped(text: string, maxTokens: nat, overlapTokens: nat, sectionPath: Option<string>,
                              startIndex: nat)
    ensures var parts := Parts(text, Budget(maxTokens, overlapTokens));
            Contents(ChunkTextSpec(text, maxTokens, overlapTokens, sectionPath, startIndex))
            == if |parts| <= 1 then parts else Filter(parts, IsLongEnough)
  {
    ContentsKept(Parts(text, Budget(maxTokens, overlapTokens)), sectionPath, startIndex);
    KeptAre(Parts(text, Budget(maxTokens, overlapTokens)));
  }

  /** A part of a section's text that is kept as a chunk: long enough, or the only one. */
  ghost predicate KeptPart(text: string, maxTokens: nat, overlapTokens: nat, part: string) {
    var parts := Parts(text, Budget(maxTokens, overlapTokens));
    part in parts && Retained(parts, part)
  }

  /** The budget that callers configure: a chunk is a part that is kept, and exceeds the
      budget by no more than the configured overlap and one character. */
  lemma ChunksBounded(text: string, maxTokens: nat, overlapTokens: nat, sectionPath: Option<string>, startIndex: nat,
                      p: nat)
    requires p < |ChunkTextSpec(text, maxTokens, overlapTokens, sectionPath, startIndex)|
    ensures var c := ChunkTextSpec(text, maxTokens, overlapTokens, sectionPath, startIndex)[p];
            && c.sectionPath == sectionPath && KeptPart(text, maxTokens, overlapTokens, c.content)
            && 0 < |c.content| <= PieceLimit(maxTokens * CHARS_PER_TOKEN, overlapTokens * CHARS_PER_TOKEN)
  {
    var parts := Parts(text, Budget(maxTokens, overlapTokens));
    var j := MadeFromOne(parts, 0, Keeper(parts), Maker(sectionPath, startIndex), p);
    var k := Budget(maxTokens, overlapTokens);
    ProseIsProper(k.maxChars, k.overlap);
    ProseIsIdempotent(k.maxChars, k.overlap);
    PackedFits(SplitParagraphs(text, k), k, parts[j]);
  }
}
