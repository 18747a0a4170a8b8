/** What becomes of a whole document (backend/app/ingestion/chunking.py): where its
    text goes, and when a chunk's breadcrumb names the headings it stands under. */
module Outlines {
  import opened Sequences
  import opened Text
  import opened Ordering
  import opened Options
  import opened Splitting
  import opened Chunking
  import opened Breadcrumbs
  import opened Documents
  import opened Overlap

  // --------------------------------------------- headings that have no body

  /** The positions of the items that are kept. */
  function Positions<A>(xs: seq<A>, keep: A -> bool): (r: seq<nat>)
    ensures forall i :: 0 <= i < |r| ==> r[i] < |xs|
  {
    if |xs| == 0 then []
    else if keep(xs[|xs| - 1]) then Positions(xs[..|xs| - 1], keep) + [|xs| - 1]
    else Positions(xs[..|xs| - 1], keep)
  }

  lemma {:induction false} PositionsIncrease<A(!new)>(xs: seq<A>, keep: A -> bool)
    ensures Increasing(Positions(xs, keep), |xs|)
  {
    if |xs| > 0 { PositionsIncrease(xs[..|xs| - 1], keep); }
  }

  lemma {:induction false} PositionsHold<A(!new)>(xs: seq<A>, keep: A -> bool, j: nat)
    ensures j in Positions(xs, keep) <==> j < |xs| && keep(xs[j])
  {
    if |xs| > 0 { PositionsHold(xs[..|xs| - 1], keep, j); }
  }

  lemma {:induction false} PositionsFilter<A(!new)>(xs: seq<A>, keep: A -> bool)
    ensures Select(xs, Positions(xs, keep)) == Filter(xs, keep)
  {
    if |xs| > 0 {
      var rest, last := xs[..|xs| - 1], xs[|xs| - 1];
      PositionsFilter(rest, keep);
      assert xs == rest + [last];
      FilterSnoc(rest, last, keep);
      assert Select(xs, Positions(rest, keep)) == Select(rest, Positions(rest, keep));
    }
  }

  lemma PositionsAre<A(!new)>(xs: seq<A>, keep: A -> bool)
    ensures Increasing(Positions(xs, keep), |xs|)
    ensures forall j: nat :: j in Positions(xs, keep) <==> j < |xs| && keep(xs[j])
    ensures Select(xs, Positions(xs, keep)) == Filter(xs, keep)
  {
    PositionsIncrease(xs, keep);
    PositionsFilter(xs, keep);
    forall j: nat ensures j in Positions(xs, keep) <==> j < |xs| && keep(xs[j]) { PositionsHold(xs, keep, j); }
  }

  /** Every heading as a section, with or without a body, after the preamble if that has a text. */
  function Outlined<C>(text: seq<C>, hs: seq<Heading<C>>, k: Layout<C>): seq<Section<C>>
    requires HeadingsIn(text, hs)
  {
    var all := AllSections(text, hs, |hs|, k);
    if |all| > 0 && HasText(all[0]) then all else if |all| > 0 then all[1..] else []
  }

  lemma OutlinedKeeps<C(!new)>(text: seq<C>, hs: seq<Heading<C>>, k: Layout<C>)
    requires HeadingsIn(text, hs)
    ensures Filter(Outlined(text, hs, k), HasText) == Sections(text, hs, k)
  {
  }

  /** Every heading that section `p` stands under has a body. */
  ghost predicate ParentsHaveText(outline: seq<Section<char>>, p: nat) {
    forall j: nat :: Encloses(CrumbsOf(outline), j, p + 1) ==> HasText(outline[j])
  }

  /** Over the sections that are returned, the stack at the `i`-th names the headings it
      names over the whole outline. */
  ghost predicate NamesItsParents(outline: seq<Section<char>>, kept: seq<nat>, i: nat)
    requires Increasing(kept, |outline|) && i < |kept|
  {
    var headings := Numbering(CrumbsOf(outline));
    StackAfter(Select(headings, kept), i + 1) == StackAfter(headings, kept[i] + 1)
  }

  lemma CrumbsOfSelected(outline: seq<Section<char>>, kept: seq<nat>)
    requires Increasing(kept, |outline|)
    ensures CrumbsOf(Select(outline, kept)) == Select(CrumbsOf(outline), kept)
  {
  }

  lemma ParentsAreKept(outline: seq<Section<char>>, p: nat)
    requires p < |outline|
    ensures ParentsHaveText(outline, p) <==> AncestorsKept(CrumbsOf(outline), Positions(outline, HasText), p)
  {
    PositionsAre(outline, HasText);
    var kept, crumbs, n := Positions(outline, HasText), CrumbsOf(outline), p + 1;
    forall j: nat | Encloses(crumbs, j, n) ensures HasText(outline[j]) <==> j in kept {}
  }

  /** The breadcrumb of a section names the headings it stands under, all of them and no
      other, if and only if each of those has a body of its own; a preamble that is not
      blank counts as a first heading of level 1. */
  lemma PathIsRightIff(text: string, hs: seq<Heading<char>>, k: Layout<char>, i: nat)
    requires HeadingsIn(text, hs) && i < |Sections(text, hs, k)|
    ensures var outline, sections := Outlined(text, hs, k), Sections(text, hs, k);
            var kept := Positions(outline, HasText);
            && Increasing(kept, |outline|) && |kept| == |sections| && sections[i] == outline[kept[i]]
            && (NamesItsParents(outline, kept, i) <==> ParentsHaveText(outline, kept[i]))
            && (ParentsHaveText(outline, kept[i]) ==> PathAt(sections, i) == PathAt(outline, kept[i]))
  {
    var outline := Outlined(text, hs, k);
    var kept := Positions(outline, HasText);
    PositionsAre(outline, HasText);
    OutlinedKeeps(text, hs, k);
    CrumbsOfSelected(outline, kept);
    ParentsAreKept(outline, kept[i]);
    StackIsRightIff(CrumbsOf(outline), kept, i);
    if ParentsHaveText(outline, kept[i]) { StackOfKept(CrumbsOf(outline), kept, i); }
  }

  /** Two chapters, the second with nothing between its heading and its first subsection. */
  ghost predicate EmptySecondChapter(text: string, hs: seq<Heading<char>>, k: Layout<char>) {
    && HeadingsIn(text, hs) && |hs| == 3 && hs[0].level == 1 && hs[1].level == 1 && hs[2].level == 2
    && |k.strip(text[..hs[0].start])| == 0 && |k.strip(RawBody(text, hs, 0))| > 0
    && |k.strip(RawBody(text, hs, 1))| == 0 && |k.strip(RawBody(text, hs, 2))| > 0
  }

  function CrumbOf(h: Heading<char>): Crumb<string> { Crumb(h.level, h.title) }

  lemma ThreeSections(text: string, hs: seq<Heading<char>>, k: Layout<char>)
    requires EmptySecondChapter(text, hs, k)
    ensures AllSections(text, hs, 3, k)
         == [Section(k.frontMatter, 1, k.strip(text[..hs[0].start]), 0),
             SectionAt(text, hs, 0, k), SectionAt(text, hs, 1, k), SectionAt(text, hs, 2, k)]
    ensures Outlined(text, hs, k) == [SectionAt(text, hs, 0, k), SectionAt(text, hs, 1, k), SectionAt(text, hs, 2, k)]
  {
    assert AllSections(text, hs, 1, k) == AllSections(text, hs, 0, k) + [SectionAt(text, hs, 0, k)];
    assert AllSections(text, hs, 2, k) == AllSections(text, hs, 1, k) + [SectionAt(text, hs, 1, k)];
  }

  lemma FilterThree<A(!new)>(a: A, b: A, c: A, keep: A -> bool)
    requires keep(a) && !keep(b) && keep(c)
    ensures Filter([a, b, c], keep) == [a, c]
  {
    assert Filter([c], keep) == [c] + Filter([], keep);
    assert [b, c][1..] == [c] && [a, b, c][1..] == [b, c];
  }

  lemma StackOfTwo<T>(a: Crumb<T>, b: Crumb<T>)
    requires a.level < b.level
    ensures StackAfter([a, b], 2) == [a, b]
  {
    assert StackAfter([a, b], 1) == [a];
  }

  lemma StackOfThree<T>(a: Crumb<T>, b: Crumb<T>, c: Crumb<T>)
    requires a.level == b.level < c.level
    ensures StackAfter([a, b, c], 3) == [b, c]
  {
    assert StackAfter([a, b, c], 1) == [a];
    assert Pop([a], b.level) == [];
    assert StackAfter([a, b, c], 2) == [b];
  }

  /** The heading that is dropped never closes the chapter before it: what stands under
      the second chapter is filed under the first. */
  lemma FiledUnderTheWrongChapter(text: string, hs: seq<Heading<char>>, k: Layout<char>)
    requires EmptySecondChapter(text, hs, k)
    ensures |Sections(text, hs, k)| == 2 && |Outlined(text, hs, k)| == 3
            && Outlined(text, hs, k)[2] == Sections(text, hs, k)[1]
    ensures StackAfter(CrumbsOf(Sections(text, hs, k)), 2) == [CrumbOf(hs[0]), CrumbOf(hs[2])]
    ensures StackAfter(CrumbsOf(Outlined(text, hs, k)), 3) == [CrumbOf(hs[1]), CrumbOf(hs[2])]
  {
    var a, b, c := SectionAt(text, hs, 0, k), SectionAt(text, hs, 1, k), SectionAt(text, hs, 2, k);
    ThreeSections(text, hs, k);
    OutlinedKeeps(text, hs, k);
    FilterThree(a, b, c, HasText);
    assert CrumbsOf([a, c]) == [CrumbOf(hs[0]), CrumbOf(hs[2])];
    assert CrumbsOf([a, b, c]) == [CrumbOf(hs[0]), CrumbOf(hs[1]), CrumbOf(hs[2])];
    StackOfTwo(CrumbOf(hs[0]), CrumbOf(hs[2]));
    StackOfThree(CrumbOf(hs[0]), CrumbOf(hs[1]), CrumbOf(hs[2]));
  }

  /** Three heading lines, each followed by its body. */
  function Laid<C>(a: seq<C>, b: seq<C>, c: seq<C>, d: seq<C>, e: seq<C>, f: seq<C>): seq<C> {
    a + (b + (c + (d + (e + f))))
  }

  function LaidHeadings<C>(a: seq<C>, b: seq<C>, c: seq<C>, d: seq<C>, e: seq<C>, levels: (nat, nat, nat))
    : seq<Heading<C>>
  {
    [Heading(0, |a|, a, levels.0), Heading(|a| + |b|, |a| + |b| + |c|, c, levels.1),
     Heading(|a| + |b| + |c| + |d|, |a| + |b| + |c| + |d| + |e|, e, levels.2)]
  }

  lemma MiddleOf<C>(a: seq<C>, b: seq<C>, c: seq<C>)
    ensures (a + (b + c))[|a|..|a| + |b|] == b && (a + (b + c))[|a| + |b|..] == c
  {
  }

  lemma LaidOut<C>(a: seq<C>, b: seq<C>, c: seq<C>, d: seq<C>, e: seq<C>, f: seq<C>, levels: (nat, nat, nat))
    ensures var text, hs := Laid(a, b, c, d, e, f), LaidHeadings(a, b, c, d, e, levels);
            && HeadingsIn(text, hs) && text[..hs[0].start] == []
            && RawBody(text, hs, 0) == b && RawBody(text, hs, 1) == d && RawBody(text, hs, 2) == f
  {
    var text := Laid(a, b, c, d, e, f);
    MiddleOf(a, b, c + (d + (e + f)));
    assert text == (a + b + c) + (d + (e + f));
    MiddleOf(a + b + c, d, e + f);
    assert text == (a + b + c + d + e) + (f + []);
    MiddleOf(a + b + c + d + e, f, []);
  }

  /** Such a document, with its headings where the heading pattern finds them. */
  function Sample(): (string, seq<Heading<char>>) {
    (Laid("2 One", "\nx\n", "3 Two", "\n", "3.1 Sub", "\ny"),
     LaidHeadings("2 One", "\nx\n", "3 Two", "\n", "3.1 Sub", (1, 1, 2)))
  }

  lemma SampleIsMisfiled()
    ensures var (text, hs) := Sample();
            && HeadingsIn(text, hs)
            && var sections := Sections(text, hs, PaperLayout());
               |sections| == 2 && StackAfter(CrumbsOf(sections), 2) == [Crumb(1, "2 One"), Crumb(2, "3.1 Sub")]
  {
    var (text, hs) := Sample();
    LaidOut("2 One", "\nx\n", "3 Two", "\n", "3.1 Sub", "\ny", (1, 1, 2));
    SampleBodies();
    FiledUnderTheWrongChapter(text, hs, PaperLayout());
  }

  lemma SampleBodies()
    ensures |Strip("\nx\n")| > 0 && |Strip("\ny")| > 0 && |Strip("\n")| == 0 && |Strip("")| == 0
  {
    HasInk("\nx\n", 1);
    HasInk("\ny", 1);
    InkStrip("\n", IsSpace);
    assert Ink("\n", IsSpace) == [];
    InkStrip("", IsSpace);
  }

  lemma HasInk(s: string, i: nat)
    requires i < |s| && !IsSpace(s[i])
    ensures |Strip(s)| > 0
  {
    InkStrip(s, IsSpace);
    InkCut(s, i, IsSpace);
    assert s[i..][0] == s[i];
  }

  // --------------------------------------------------------- where the text goes

  /** The chunk contents of a document, before slivers are dropped: its sections' parts. */
  function PartsOf(sections: seq<Section<char>>, i: nat, maxTokens: nat, overlapTokens: nat): seq<string> {
    if i < |sections| then Parts(sections[i].text, Budget(maxTokens, overlapTokens)) else []
  }

  /** What is left of a section's parts: all of a single one, else the long enough ones. */
  function KeptOf(parts: seq<string>): seq<string> {
    if |parts| <= 1 then parts else Filter(parts, IsLongEnough)
  }

  function Joined<B>(pieces: nat -> seq<B>, n: nat): seq<B> {
    if n == 0 then [] else Joined(pieces, n - 1) + pieces(n - 1)
  }

  function Keeping(sections: seq<Section<char>>, maxTokens: nat, overlapTokens: nat): nat -> seq<string> {
    (i: nat) => KeptOf(PartsOf(sections, i, maxTokens, overlapTokens))
  }

  /** Section by section, the parts that are kept. */
  function KeptParts(sections: seq<Section<char>>, maxTokens: nat, overlapTokens: nat): seq<string> {
    Joined(Keeping(sections, maxTokens, overlapTokens), |sections|)
  }

  lemma MappedConcat<A, B>(xs: seq<A>, ys: seq<A>, f: A -> B)
    ensures Mapped(xs + ys, f) == Mapped(xs, f) + Mapped(ys, f)
  {
  }

  lemma {:induction false} GatheredIsJoined<A, B>(make: (nat, nat) -> seq<A>, n: nat, f: A -> B, pieces: nat -> seq<B>)
    requires forall i: nat, start: nat :: i < n ==> Mapped(make(i, start), f) == pieces(i)
    ensures Mapped(Gather(make, n), f) == Joined(pieces, n)
  {
    if n > 0 {
      var before := Gather(make, n - 1);
      GatheredIsJoined(make, n - 1, f, pieces);
      MappedConcat(before, make(n - 1, |before|), f);
    }
  }

  lemma ContentsBefore(sections: seq<Section<char>>, maxTokens: nat, overlapTokens: nat)
    ensures Contents(ChunksBefore(sections, |sections|, maxTokens, overlapTokens)) ==
              KeptParts(sections, maxTokens, overlapTokens)
  {
    var make, pieces := SectionMaker(sections, maxTokens, overlapTokens), Keeping(sections, maxTokens, overlapTokens);
    forall i: nat, start: nat | i < |sections| ensures Mapped(make(i, start), Content) == pieces(i) {
      OnlySliversAreDropped(sections[i].text, maxTokens, overlapTokens, Some(PathAt(sections, i)), start);
    }
    GatheredIsJoined(make, |sections|, Content, pieces);
  }

  /** What is dropped of a document's parts is its slivers: the contents of its chunks
      are, section by section, the parts that are kept. */
  lemma ContentsAreKeptParts(text: string, hs: seq<Heading<char>>, maxTokens: nat, overlapTokens: nat)
    requires HeadingsIn(text, hs)
    ensures var sections := Sections(text, hs, PaperLayout());
            Contents(DocumentChunks(text, hs, maxTokens, overlapTokens)) ==
              KeptParts(sections, maxTokens, overlapTokens)
  {
    var sections := Sections(text, hs, PaperLayout());
    ContentsBefore(sections, maxTokens, overlapTokens);
    assert Contents(DocumentChunks(text, hs, maxTokens, overlapTokens))
        == Contents(ChunksBefore(sections, |sections|, maxTokens, overlapTokens));
  }

  /** The parts of every section are its text in order: each is new text after a repeat of
      at most the overlap, and the new text is all that is visible in the section. */
  ghost predicate EverySectionAccountedFor(sections: seq<Section<char>>, maxTokens: nat, overlapTokens: nat) {
    forall i :: 0 <= i < |sections| ==>
      Accounts(PartsOf(sections, i, maxTokens, overlapTokens), Visible(sections[i].text),
               overlapTokens * CHARS_PER_TOKEN, IsSpace)
  }

  lemma {:induction false} FilterKeeps<C(!new)>(parts: seq<seq<C>>, blank: C -> bool)
    requires NoneBlank(parts, blank)
    ensures Flatten(InkAll(Filter(parts, IsPiece), blank)) == Flatten(InkAll(parts, blank))
  {
    if |parts| > 0 {
      var rest, last := parts[..|parts| - 1], parts[|parts| - 1];
      FilterKeeps(rest, blank);
      assert parts == rest + [last];
      InkOfKept(rest, last, Ink(last, blank), blank);
      FlattenPushed(Kept(rest, blank), Ink(last, blank));
      InkAllSnoc(parts, blank);
    }
  }

  /** Nothing is left of a blank text, and something of any other. */
  ghost predicate Strips<C(!new)>(strip: seq<C> -> seq<C>, blank: C -> bool) {
    forall s {:trigger strip(s)} :: |strip(s)| > 0 <==> Ink(strip(s), blank) != []
  }

  ghost predicate NoneBlank<C(!new)>(bodies: seq<seq<C>>, blank: C -> bool) {
    forall i :: 0 <= i < |bodies| ==> (|bodies[i]| > 0 <==> Ink(bodies[i], blank) != [])
  }

  lemma {:induction false} BodiesAreNotBlank<C(!new)>(text: seq<C>, hs: seq<Heading<C>>, n: nat,
                                                      strip: seq<C> -> seq<C>, blank: C -> bool)
    requires HeadingsIn(text, hs) && n <= |hs| && Strips(strip, blank)
    ensures NoneBlank(Bodies(text, hs, n, strip), blank)
  {
    if n > 0 { BodiesAreNotBlank(text, hs, n - 1, strip, blank); }
  }

  lemma BodiesAreStripped(text: string, hs: seq<Heading<char>>)
    requires HeadingsIn(text, hs)
    ensures NoneBlank(Bodies(text, hs, |hs|, Strip), IsSpace)
  {
    forall s {:trigger Strip(s)} ensures |Strip(s)| > 0 <==> Ink(Strip(s), IsSpace) != [] { InkStrip(s, IsSpace); }
    BodiesAreNotBlank(text, hs, |hs|, Strip, IsSpace);
  }

  /** The lines the headings stand on, and between them the bodies: from the preamble on,
      each heading line followed by its body. */
  function Woven<C>(text: seq<C>, hs: seq<Heading<C>>, bodies: seq<seq<C>>, n: nat, blank: C -> bool): seq<C>
    requires HeadingsIn(text, hs) && n <= |hs| && n < |bodies|
  {
    if n == 0 then Ink(bodies[0], blank)
    else
      Woven(text, hs, bodies, n - 1, blank) + Ink(text[hs[n - 1].start..hs[n - 1].end], blank) + Ink(bodies[n], blank)
  }

  lemma {:induction false} BodiesCount<C>(text: seq<C>, hs: seq<Heading<C>>, n: nat, strip: seq<C> -> seq<C>)
    requires HeadingsIn(text, hs) && n <= |hs|
    ensures |Bodies(text, hs, n, strip)| == n + 1
  {
    if n > 0 { BodiesCount(text, hs, n - 1, strip); }
  }

  lemma {:induction false} BodiesPrefix<C>(text: seq<C>, hs: seq<Heading<C>>, n: nat, m: nat, strip: seq<C> -> seq<C>)
    requires HeadingsIn(text, hs) && n <= m <= |hs|
    ensures |Bodies(text, hs, m, strip)| == m + 1 && |Bodies(text, hs, n, strip)| == n + 1
    ensures Bodies(text, hs, m, strip)[n] == Bodies(text, hs, n, strip)[n]
  {
    BodiesCount(text, hs, m, strip);
    BodiesCount(text, hs, n, strip);
    if n < m { BodiesPrefix(text, hs, n, m - 1, strip); }
  }

  /** What precedes a heading, its line, and its stripped body. */
  lemma InkThree<C(!new)>(s: seq<C>, a: nat, b: nat, c: nat, blank: C -> bool)
    requires a <= b <= c <= |s|
    ensures Ink(s[..c], blank) == Ink(s[..a], blank) + Ink(s[a..b], blank) + Ink(StripBy(s[b..c], blank), blank)
  {
    InkStrip(s[b..c], blank);
    InkSlice(s, 0, b, c, blank);
    InkSlice(s, 0, a, b, blank);
    assert s[0..c] == s[..c] && s[0..b] == s[..b] && s[0..a] == s[..a];
  }

  /** These are the preamble and the bodies, stripped. */
  ghost predicate StrippedBodies<C(!new)>(text: seq<C>, hs: seq<Heading<C>>, bodies: seq<seq<C>>, blank: C -> bool) {
    && HeadingsIn(text, hs) && |hs| > 0 && |bodies| == |hs| + 1 && bodies[0] == StripBy(text[..hs[0].start], blank)
    && forall i :: 1 <= i < |bodies| ==> bodies[i] == StripBy(RawBody(text, hs, i - 1), blank)
  }

  lemma {:induction false} WovenIsPrefix<C(!new)>(text: seq<C>, hs: seq<Heading<C>>, bodies: seq<seq<C>>, n: nat,
                                                  blank: C -> bool)
    requires StrippedBodies(text, hs, bodies, blank) && n <= |hs|
    ensures Woven(text, hs, bodies, n, blank) == Ink(text[..StartOf(text, hs, n)], blank)
  {
    if n == 0 {
      InkStrip(text[..hs[0].start], blank);
    } else {
      WovenIsPrefix(text, hs, bodies, n - 1, blank);
      InkThree(text, hs[n - 1].start, hs[n - 1].end, StartOf(text, hs, n), blank);
    }
  }

  lemma BodiesAre(text: string, hs: seq<Heading<char>>)
    requires HeadingsIn(text, hs) && |hs| > 0
    ensures StrippedBodies(text, hs, Bodies(text, hs, |hs|, Strip), IsSpace)
  {
    var bodies := Bodies(text, hs, |hs|, Strip);
    BodiesPrefix(text, hs, 0, |hs|, Strip);
    forall i | 1 <= i < |bodies| ensures bodies[i] == StripBy(RawBody(text, hs, i - 1), IsSpace) {
      BodiesPrefix(text, hs, i, |hs|, Strip);
    }
  }

  /** Whole documents: heading lines and bodies make up all that is visible; the sections'
      texts are the bodies; the parts of each section are its text, in order, with the
      allowed repeats; and the chunks' contents are those parts less the slivers. So of
      the visible characters only heading lines and slivers are in no chunk's content. */
  lemma DocumentConserves(text: string, hs: seq<Heading<char>>, maxTokens: nat, overlapTokens: nat)
    requires HeadingsIn(text, hs)
    ensures var bodies, sections := Bodies(text, hs, |hs|, Strip), Sections(text, hs, PaperLayout());
            && |bodies| == |hs| + 1
            && Woven(text, hs, bodies, |hs|, IsSpace) == Visible(text)
            && Flatten(VisibleAll(Texts(sections))) == Flatten(VisibleAll(bodies))
            && (EverySectionAccountedFor(sections, maxTokens, overlapTokens) <==> maxTokens >= 1 || sections == [])
            && Contents(DocumentChunks(text, hs, maxTokens, overlapTokens)) ==
                 KeptParts(sections, maxTokens, overlapTokens)
  {
    WholeIsWoven(text, hs);
    SectionsAreNonEmptyBodies(text, hs, PaperLayout());
    BodiesAreStripped(text, hs);
    FilterKeeps(Bodies(text, hs, |hs|, Strip), IsSpace);
    SectionsAccountedForIff(text, hs, maxTokens, overlapTokens);
    ContentsAreKeptParts(text, hs, maxTokens, overlapTokens);
  }

  lemma WholeIsWoven(text: string, hs: seq<Heading<char>>)
    requires HeadingsIn(text, hs)
    ensures |Bodies(text, hs, |hs|, Strip)| == |hs| + 1
    ensures Woven(text, hs, Bodies(text, hs, |hs|, Strip), |hs|, IsSpace) == Visible(text)
  {
    BodiesCount(text, hs, |hs|, Strip);
    if |hs| == 0 {
      InkStrip(text, IsSpace);
    } else {
      BodiesAre(text, hs);
      WovenIsPrefix(text, hs, Bodies(text, hs, |hs|, Strip), |hs|, IsSpace);
      assert text[..|text|] == text;
    }
  }

  lemma SectionHasInk(text: string, hs: seq<Heading<char>>, i: nat)
    requires HeadingsIn(text, hs) && i < |Sections(text, hs, PaperLayout())|
    ensures Visible(Sections(text, hs, PaperLayout())[i].text) != ""
  {
    var sections, bodies := Sections(text, hs, PaperLayout()), Bodies(text, hs, |hs|, Strip);
    SectionsAreNonEmptyBodies(text, hs, PaperLayout());
    FilterMembers(bodies, IsPiece);
    BodiesAreStripped(text, hs);
    assert Texts(sections)[i] in Filter(bodies, IsPiece);
    var j :| 0 <= j < |bodies| && bodies[j] == sections[i].text;
    assert IsPiece(sections[i].text);
  }

  lemma SectionsAccountedForIff(text: string, hs: seq<Heading<char>>, maxTokens: nat, overlapTokens: nat)
    requires HeadingsIn(text, hs)
    ensures var sections := Sections(text, hs, PaperLayout());
            EverySectionAccountedFor(sections, maxTokens, overlapTokens) <==> maxTokens >= 1 || sections == []
  {
    var sections := Sections(text, hs, PaperLayout());
    forall i | 0 <= i < |sections|
      ensures Accounts(PartsOf(sections, i, maxTokens, overlapTokens), Visible(sections[i].text),
                       overlapTokens * CHARS_PER_TOKEN, IsSpace)
         <==> maxTokens >= 1
    {
      SectionHasInk(text, hs, i);
      PartsConserveIff(sections[i].text, maxTokens * CHARS_PER_TOKEN, overlapTokens * CHARS_PER_TOKEN);
    }
    if |sections| > 0 && EverySectionAccountedFor(sections, maxTokens, overlapTokens) {
      assert Accounts(PartsOf(sections, 0, maxTokens, overlapTokens), Visible(sections[0].text),
                      overlapTokens * CHARS_PER_TOKEN, IsSpace);
    }
  }
}
