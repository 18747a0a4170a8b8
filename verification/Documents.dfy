/** Whole documents: sections, breadcrumbs and chunk indices
    (backend/app/ingestion/chunking.py, `split_sections` and `chunk_document`;
    backend/app/worker/tasks.py, `_replace_chunks`). */
module Documents {
  import opened Sequences
  import opened Text
  import opened Ordering
  import opened Options
  import opened Splitting
  import opened Chunking
  import opened Breadcrumbs

  /** A heading as the heading pattern reports it: where its line is, its title and level. */
  datatype Heading<C> = Heading(start: nat, end: nat, title: seq<C>, level: nat)

  datatype Section<C> = Section(title: seq<C>, level: nat, text: seq<C>, startOffset: nat)

  /** How bodies are stripped, and the titles of the synthetic sections. */
  datatype Layout<!C> = Layout(strip: seq<C> -> seq<C>, document: seq<C>, frontMatter: seq<C>)

  function PaperLayout(): Layout<char> {
    Layout(Strip, "Document", "Front Matter")
  }

  /** Matches come in order and do not overlap. */
  predicate HeadingsIn<C>(text: seq<C>, hs: seq<Heading<C>>) {
    && (forall i :: 0 <= i < |hs| ==> hs[i].start <= hs[i].end <= |text|)
    && (forall i, j :: 0 <= i < j < |hs| ==> hs[i].end <= hs[j].start)
  }

  // ----------------------------------------------------------------- sections

  /** Where the `n`-th heading starts, or the end of the text. */
  function StartOf<C>(text: seq<C>, hs: seq<Heading<C>>, n: nat): (e: nat)
    requires HeadingsIn(text, hs) && n <= |hs|
    ensures e <= |text| && (n > 0 ==> hs[n - 1].end <= e)
  {
    if n < |hs| then hs[n].start else |text|
  }

  function RawBody<C>(text: seq<C>, hs: seq<Heading<C>>, i: nat): seq<C>
    requires HeadingsIn(text, hs) && i < |hs|
  {
    text[hs[i].end..StartOf(text, hs, i + 1)]
  }

  function SectionAt<C>(text: seq<C>, hs: seq<Heading<C>>, i: nat, k: Layout<C>): Section<C>
    requires HeadingsIn(text, hs) && i < |hs|
  {
    Section(hs[i].title, hs[i].level, k.strip(RawBody(text, hs, i)), hs[i].start)
  }

  /** The synthetic section, and one for each of the first `n` headings. */
  function AllSections<C>(text: seq<C>, hs: seq<Heading<C>>, n: nat, k: Layout<C>): seq<Section<C>>
    requires HeadingsIn(text, hs) && n <= |hs|
  {
    if n > 0 then AllSections(text, hs, n - 1, k) + [SectionAt(text, hs, n - 1, k)]
    else if |hs| == 0 then [Section(k.document, 1, k.strip(text), 0)]
    else [Section(k.frontMatter, 1, k.strip(text[..hs[0].start]), 0)]
  }

  predicate HasText<C>(s: Section<C>) { |s.text| > 0 }

  /** Those that have a text: a heading with nothing under it is dropped with its title. */
  function Sections<C>(text: seq<C>, hs: seq<Heading<C>>, k: Layout<C>): seq<Section<C>>
    requires HeadingsIn(text, hs)
  {
    Filter(AllSections(text, hs, |hs|, k), HasText)
  }

  method SplitSections<C(!new)>(text: seq<C>, hs: seq<Heading<C>>, k: Layout<C>) returns (sections: seq<Section<C>>)
    requires HeadingsIn(text, hs)
    ensures sections == Sections(text, hs, k)
  {
    if |hs| == 0 {
      sections := FirstSection(Section(k.document, 1, k.strip(text), 0));
      return;
    }
    sections := FirstSection(Section(k.frontMatter, 1, k.strip(text[..hs[0].start]), 0));
    for i := 0 to |hs|
      invariant sections == Filter(AllSections(text, hs, i, k), HasText)
    {
      var end := if i + 1 < |hs| then hs[i + 1].start else |text|;
      var section := Section(hs[i].title, hs[i].level, k.strip(text[hs[i].end..end]), hs[i].start);
      sections := AddSection(AllSections(text, hs, i, k), sections, section);
    }
  }

  method FirstSection<C(!new)>(section: Section<C>) returns (r: seq<Section<C>>)
    ensures r == Filter([section], HasText)
  {
    r := AddSection([], [], section);
    NoTail([section]);
  }

  /** Append a section unless its text is empty. */
  method AddSection<C(!new)>(ghost all: seq<Section<C>>, sections: seq<Section<C>>, section: Section<C>)
    returns (r: seq<Section<C>>)
    requires sections == Filter(all, HasText)
    ensures r == Filter(all + [section], HasText)
  {
    FilterSnoc(all, section, HasText);
    if |section.text| == 0 { return sections; }
    return sections + [section];
  }

  function TextOf<C>(s: Section<C>): seq<C> { s.text }

  function Texts<C>(sections: seq<Section<C>>): seq<seq<C>> {
    Mapped(sections, TextOf)
  }

  /** The stripped preamble, or the whole text if there is no heading, and the stripped
      bodies of the first `n` headings. */
  function Bodies<C>(text: seq<C>, hs: seq<Heading<C>>, n: nat, strip: seq<C> -> seq<C>): seq<seq<C>>
    requires HeadingsIn(text, hs) && n <= |hs|
  {
    if n > 0 then Bodies(text, hs, n - 1, strip) + [strip(RawBody(text, hs, n - 1))]
    else [strip(if |hs| == 0 then text else text[..hs[0].start])]
  }

  lemma {:induction false} MappedFilter<A(!new), B(!new)>(xs: seq<A>, f: A -> B, keep: A -> bool, keep': B -> bool)
    requires forall x :: keep(x) == keep'(f(x))
    ensures Mapped(Filter(xs, keep), f) == Filter(Mapped(xs, f), keep')
  {
    if xs != [] {
      MappedFilter(xs[1..], f, keep, keep');
      assert xs == [xs[0]] + xs[1..];
      MappedCons(xs[0], xs[1..], f);
      MappedCons(xs[0], Filter(xs[1..], keep), f);
    }
  }

  lemma MappedSnoc<A, B>(xs: seq<A>, x: A, f: A -> B)
    ensures Mapped(xs + [x], f) == Mapped(xs, f) + [f(x)]
  {
  }

  lemma {:induction false} TextsOfAll<C>(text: seq<C>, hs: seq<Heading<C>>, n: nat, k: Layout<C>)
    requires HeadingsIn(text, hs) && n <= |hs|
    ensures Texts(AllSections(text, hs, n, k)) == Bodies(text, hs, n, k.strip)
  {
    if n > 0 {
      TextsOfAll(text, hs, n - 1, k);
      MappedSnoc(AllSections(text, hs, n - 1, k), SectionAt(text, hs, n - 1, k), TextOf);
    }
  }

  /** The texts of the sections are the preamble and the bodies, in order, less the
      empty ones, whether or not there are headings. */
  lemma SectionsAreNonEmptyBodies<C(!new)>(text: seq<C>, hs: seq<Heading<C>>, k: Layout<C>)
    requires HeadingsIn(text, hs)
    ensures Texts(Sections(text, hs, k)) == Filter(Bodies(text, hs, |hs|, k.strip), IsPiece)
  {
    MappedFilter(AllSections(text, hs, |hs|, k), TextOf, HasText, IsPiece);
    TextsOfAll(text, hs, |hs|, k);
  }

  // ---------------------------------------------------------------- documents

  /** The headings of the returned sections; titles of dropped sections are not among them. */
  function CrumbsOf(sections: seq<Section<char>>): (r: seq<Crumb<string>>)
    ensures |r| == |sections|
  {
    seq(|sections|, i requires 0 <= i < |sections| => Crumb(sections[i].level, sections[i].title))
  }

  function Titles(stack: seq<Crumb<string>>): (r: seq<string>)
    ensures |r| == |stack|
  {
    seq(|stack|, i requires 0 <= i < |stack| => stack[i].title)
  }

  function PathAt(sections: seq<Section<char>>, i: nat): string
    requires i < |sections|
  {
    Join(" > ", Titles(StackAfter(CrumbsOf(sections), i + 1)))
  }

  /** The chunks of one section, numbered from `start`. */
  function SectionChunks(sections: seq<Section<char>>, i: nat, maxTokens: nat, overlapTokens: nat, start: nat)
    : seq<Chunk>
  {
    if i < |sections|
    then ChunkTextSpec(sections[i].text, maxTokens, overlapTokens, Some(PathAt(sections, i)), start)
    else []
  }

  function SectionMaker(sections: seq<Section<char>>, maxTokens: nat, overlapTokens: nat): (nat, nat) -> seq<Chunk> {
    (i: nat, start: nat) => SectionChunks(sections, i, maxTokens, overlapTokens, start)
  }

  /** The lists made for positions 0 to `n`, each told how many items precede it, one after another. */
  function Gather<T>(make: (nat, nat) -> seq<T>, n: nat): seq<T> {
    if n == 0 then [] else Gather(make, n - 1) + make(n - 1, |Gather(make, n - 1)|)
  }

  lemma {:induction false} Locate<T>(make: (nat, nat) -> seq<T>, n: nat, p: nat) returns (i: nat)
    requires p < |Gather(make, n)|
    ensures i < n && |Gather(make, i)| <= p && p - |Gather(make, i)| < |make(i, |Gather(make, i)|)|
    ensures Gather(make, n)[p] == make(i, |Gather(make, i)|)[p - |Gather(make, i)|]
  {
    if p < |Gather(make, n - 1)| { i := Locate(make, n - 1, p); } else { i := n - 1; }
  }

  /** The chunks of the first `n` sections, before re-indexing. */
  function ChunksBefore(sections: seq<Section<char>>, n: nat, maxTokens: nat, overlapTokens: nat): seq<Chunk> {
    Gather(SectionMaker(sections, maxTokens, overlapTokens), n)
  }

  function Reindexed(chunks: seq<Chunk>): (r: seq<Chunk>)
    ensures |r| == |chunks|
    ensures forall i :: 0 <= i < |r| ==> r[i] == chunks[i].(index := i)
  {
    seq(|chunks|, i requires 0 <= i < |chunks| => chunks[i].(index := i))
  }

  function DocumentChunks(text: string, hs: seq<Heading<char>>, maxTokens: nat, overlapTokens: nat): (r: seq<Chunk>)
    requires HeadingsIn(text, hs)
    ensures forall i :: 0 <= i < |r| ==> r[i].index == i
  {
    Reindexed(ChunksBefore(Sections(text, hs, PaperLayout()), |Sections(text, hs, PaperLayout())|, maxTokens,
                           overlapTokens))
  }

  method ChunkDocument(text: string, hs: seq<Heading<char>>, maxTokens: nat, overlapTokens: nat)
    returns (chunks: seq<Chunk>)
    requires HeadingsIn(text, hs)
    ensures chunks == DocumentChunks(text, hs, maxTokens, overlapTokens)
  {
    var sections := SplitSections(text, hs, PaperLayout());
    chunks := ChunkSections(sections, maxTokens, overlapTokens);
    chunks := Renumber(chunks);
  }

  /** The main loop of `chunk_document`. */
  method ChunkSections(sections: seq<Section<char>>, maxTokens: nat, overlapTokens: nat) returns (chunks: seq<Chunk>)
    ensures chunks == ChunksBefore(sections, |sections|, maxTokens, overlapTokens)
  {
    chunks := [];
    var pathStack: seq<Crumb<string>> := [];
    for i := 0 to |sections|
      invariant pathStack == StackAfter(CrumbsOf(sections), i)
      invariant chunks == Gather(SectionMaker(sections, maxTokens, overlapTokens), i)
    {
      var added;
      pathStack, added := ChunkSection(sections, i, pathStack, maxTokens, overlapTokens, |chunks|);
      chunks := chunks + added;
    }
  }

  /** Its body: maintain the breadcrumb, then chunk the section under it. */
  method ChunkSection(sections: seq<Section<char>>, i: nat, pathStack: seq<Crumb<string>>, maxTokens: nat,
                      overlapTokens: nat, start: nat)
    returns (pathStack': seq<Crumb<string>>, added: seq<Chunk>)
    requires i < |sections| && pathStack == StackAfter(CrumbsOf(sections), i)
    ensures pathStack' == StackAfter(CrumbsOf(sections), i + 1)
    ensures added == SectionMaker(sections, maxTokens, overlapTokens)(i, start)
  {
    pathStack' := PushSection(pathStack, sections[i].level, sections[i].title);
    OneMoreCrumb(sections, i);
    added := ChunkText(sections[i].text, maxTokens, overlapTokens, Some(Join(" > ", Titles(pathStack'))), start);
  }

  lemma OneMoreCrumb(sections: seq<Section<char>>, i: nat)
    requires i < |sections|
    ensures StackAfter(CrumbsOf(sections), i + 1)
         == Pop(StackAfter(CrumbsOf(sections), i), sections[i].level) + [Crumb(sections[i].level, sections[i].title)]
  {
    assert CrumbsOf(sections)[i] == Crumb(sections[i].level, sections[i].title);
  }

  /** Popping the headings that do not enclose the new one, then pushing it. */
  method PushSection(stack: seq<Crumb<string>>, level: nat, title: string) returns (stack': seq<Crumb<string>>)
    ensures stack' == Pop(stack, level) + [Crumb(level, title)]
  {
    stack' := stack;
    while stack' != [] && stack'[|stack'| - 1].level >= level
      invariant Pop(stack', level) == Pop(stack, level)
      decreases |stack'|
    {
      stack' := stack'[..|stack'| - 1];
    }
    stack' := stack' + [Crumb(level, title)];
  }

  method Renumber(chunks: seq<Chunk>) returns (r: seq<Chunk>)
    ensures r == Reindexed(chunks)
  {
    r := chunks;
    for position := 0 to |chunks|
      invariant |r| == |chunks|
      invariant forall i :: 0 <= i < position ==> r[i] == chunks[i].(index := i)
      invariant forall i :: position <= i < |chunks| ==> r[i] == chunks[i]
    {
      r := r[position := r[position].(index := position)];
    }
    assert r == Reindexed(chunks);
  }

  /** A chunk made from a section: its text, its breadcrumb, its bound. */
  ghost predicate MadeFrom(sections: seq<Section<char>>, i: nat, maxTokens: nat, overlapTokens: nat, c: Chunk) {
    && i < |sections| && c.sectionPath == Some(PathAt(sections, i))
    && KeptPart(sections[i].text, maxTokens, overlapTokens, c.content)
    && |c.content| <= PieceLimit(maxTokens * CHARS_PER_TOKEN, overlapTokens * CHARS_PER_TOKEN)
  }

  /** What holds of whatever is made at each position holds of everything gathered. */
  lemma GatheredFrom<T>(make: (nat, nat) -> seq<T>, n: nat, good: (nat, T) -> bool, p: nat) returns (i: nat)
    requires forall i: nat, start: nat, q: nat :: i < n && q < |make(i, start)| ==> good(i, make(i, start)[q])
    requires p < |Gather(make, n)|
    ensures i < n && good(i, Gather(make, n)[p])
  {
    i := Locate(make, n, p);
  }

  ghost function Origin(sections: seq<Section<char>>, maxTokens: nat, overlapTokens: nat): (nat, Chunk) -> bool {
    (i: nat, c: Chunk) => MadeFrom(sections, i, maxTokens, overlapTokens, c)
  }

  lemma SectionMakerMakes(sections: seq<Section<char>>, maxTokens: nat, overlapTokens: nat, i: nat, start: nat, q: nat)
    requires q < |SectionMaker(sections, maxTokens, overlapTokens)(i, start)|
    ensures Origin(sections, maxTokens, overlapTokens)(i, SectionMaker(sections, maxTokens, overlapTokens)(i, start)[q])
  {
    ChunksBounded(sections[i].text, maxTokens, overlapTokens, Some(PathAt(sections, i)), start, q);
  }

  /** Every chunk carries the breadcrumb, the text and the bound of one section. */
  lemma ChunkCarriesItsPath(sections: seq<Section<char>>, maxTokens: nat, overlapTokens: nat, p: nat) returns (i: nat)
    requires p < |ChunksBefore(sections, |sections|, maxTokens, overlapTokens)|
    ensures MadeFrom(sections, i, maxTokens, overlapTokens,
                     ChunksBefore(sections, |sections|, maxTokens, overlapTokens)[p])
  {
    var make, good := SectionMaker(sections, maxTokens, overlapTokens), Origin(sections, maxTokens, overlapTokens);
    forall i: nat, start: nat, q: nat | i < |sections| && q < |make(i, start)| ensures good(i, make(i, start)[q]) {
      SectionMakerMakes(sections, maxTokens, overlapTokens, i, start, q);
    }
    i := GatheredFrom(make, |sections|, good, p);
  }

  // --------------------------------------------------------- replacing a paper's chunks

  datatype Table = Table(markdown: string, caption: Option<string>, pageNumber: int)
  datatype Figure = Figure(caption: Option<string>, pageNumber: int)

  function Truthy(s: Option<string>): bool {
    s.Some? && s.value != ""
  }

  /** `caption.split(":")[0]`. */
  function BeforeColon(s: string): string {
    if s == "" || s[0] == ':' then "" else [s[0]] + BeforeColon(s[1..])
  }

  /** A table or figure as its own chunk. */
  function ChunkAsset(kind: string, content: string, caption: Option<string>, pageNumber: int, index: nat): Chunk {
    var body := if Truthy(caption) then Strip(caption.value + "\n\n" + content) else Strip(content);
    var path := if Truthy(caption) && ':' in caption.value then Some(BeforeColon(caption.value)) else None;
    Chunk(index, body, path, EstimateTokens(body), Some(pageNumber), kind)
  }

  function TableChunk(table: Table, index: nat): (c: Chunk)
    ensures c.index == index
  {
    ChunkAsset("table", table.markdown, table.caption, table.pageNumber, index)
  }

  function FigureChunk(figure: Figure, index: nat): (c: Chunk)
    ensures c.index == index
  {
    ChunkAsset("figure", "", figure.caption, figure.pageNumber, index)
  }

  predicate HasCaption(f: Figure) { Truthy(f.caption) }

  /** A list continued by two kinds of items, numbered on from it. */
  function Continued<A, B, C>(prose: seq<C>, xs: seq<A>, makeX: (A, nat) -> C, ys: seq<B>, makeY: (B, nat) -> C): seq<C>
  {
    prose + Numbered(xs, makeX, |prose|) + Numbered(ys, makeY, |prose| + |xs|)
  }

  /** All chunks of a parsed paper: text, then tables, then figures with a caption;
      a figure without one carries no text worth embedding. */
  function PaperChunks(text: string, hs: seq<Heading<char>>, tables: seq<Table>, figures: seq<Figure>, maxTokens: nat,
                       overlapTokens: nat)
    : seq<Chunk>
    requires HeadingsIn(text, hs)
  {
    Continued(DocumentChunks(text, hs, maxTokens, overlapTokens), tables, TableChunk, Filter(figures, HasCaption),
              FigureChunk)
  }

  /** The indices of a paper's chunks, over all three kinds together, are exactly 0 to n-1. */
  lemma PaperChunksNumbered(text: string, hs: seq<Heading<char>>, tables: seq<Table>, figures: seq<Figure>,
                            maxTokens: nat, overlapTokens: nat, i: nat)
    requires HeadingsIn(text, hs) && i < |PaperChunks(text, hs, tables, figures, maxTokens, overlapTokens)|
    ensures PaperChunks(text, hs, tables, figures, maxTokens, overlapTokens)[i].index == i
  {
    ContinuedNumbered(DocumentChunks(text, hs, maxTokens, overlapTokens), tables, TableChunk,
                      Filter(figures, HasCaption), FigureChunk, IndexOf, i);
  }

  function IndexOf(c: Chunk): nat { c.index }

  /** Items turned into chunks that are numbered consecutively. */
  function Numbered<A, C>(items: seq<A>, make: (A, nat) -> C, start: nat): (r: seq<C>)
    ensures |r| == |items|
  {
    seq(|items|, i requires 0 <= i < |items| => make(items[i], start + i))
  }

  lemma NumberedSnoc<A, C>(items: seq<A>, x: A, make: (A, nat) -> C, start: nat)
    ensures Numbered(items + [x], make, start) == Numbered(items, make, start) + [make(x, start + |items|)]
  {
  }

  lemma NumberedFilterSnoc<A(!new), C>(items: seq<A>, i: nat, keep: A -> bool, make: (A, nat) -> C, start: nat)
    requires i < |items|
    ensures var before := Numbered(Filter(items[..i], keep), make, start);
            Numbered(Filter(items[..i + 1], keep), make, start)
            == if keep(items[i]) then before + [make(items[i], start + |before|)] else before
  {
    assert items[..i + 1] == items[..i] + [items[i]];
    FilterSnoc(items[..i], items[i], keep);
    NumberedSnoc(Filter(items[..i], keep), items[i], make, start);
  }

  lemma ContinuedNumbered<A(!new), B(!new), C>(prose: seq<C>, xs: seq<A>, makeX: (A, nat) -> C, ys: seq<B>,
                                               makeY: (B, nat) -> C, index: C -> nat, i: nat)
    requires forall k :: 0 <= k < |prose| ==> index(prose[k]) == k
    requires forall x, n :: index(makeX(x, n)) == n
    requires forall y, n :: index(makeY(y, n)) == n
    requires i < |Continued(prose, xs, makeX, ys, makeY)|
    ensures index(Continued(prose, xs, makeX, ys, makeY)[i]) == i
  {
  }

  lemma AppendStep<A(!new), C>(base: seq<C>, items: seq<A>, i: nat, keep: A -> bool, make: (A, nat) -> C, start: nat)
    requires i < |items| && start == |base|
    ensures var before := base + Numbered(Filter(items[..i], keep), make, start);
            base + Numbered(Filter(items[..i + 1], keep), make, start)
            == if keep(items[i]) then before + [make(items[i], |before|)] else before
  {
    NumberedFilterSnoc(items, i, keep, make, start);
    Assoc(base, Numbered(Filter(items[..i], keep), make, start), [make(items[i], start + |Filter(items[..i], keep)|)]);
  }

  /** The loop both asset kinds go through: skip what is not kept, number the rest on from the list. */
  method AppendNumbered<A(!new), C>(base: seq<C>, items: seq<A>, keep: A -> bool, make: (A, nat) -> C, start: nat)
    returns (chunks: seq<C>, nextIndex: nat)
    requires start == |base|
    ensures chunks == base + Numbered(Filter(items, keep), make, start) && nextIndex == |chunks|
  {
    chunks, nextIndex := base, start;
    for i := 0 to |items|
      invariant nextIndex == |chunks| && chunks == base + Numbered(Filter(items[..i], keep), make, start)
    {
      AppendStep(base, items, i, keep, make, start);
      if !keep(items[i]) { continue; }
      chunks := chunks + [make(items[i], nextIndex)];
      nextIndex := nextIndex + 1;
    }
    assert items[..|items|] == items;
  }

  predicate Always<A>(x: A) { true }

  /** Every table, then every figure worth keeping. */
  method AppendAssets<A(!new), B(!new), C>(prose: seq<C>, xs: seq<A>, makeX: (A, nat) -> C,
                                           ys: seq<B>, keep: B -> bool, makeY: (B, nat) -> C)
    returns (chunks: seq<C>)
    ensures chunks == Continued(prose, xs, makeX, Filter(ys, keep), makeY)
  {
    FilterAll(xs, Always);
    var nextIndex;
    chunks, nextIndex := AppendNumbered(prose, xs, Always, makeX, |prose|);
    chunks, nextIndex := AppendNumbered(chunks, ys, keep, makeY, nextIndex);
  }

  /** The chunk list assembled by `_replace_chunks`, with its running index. */
  method AssembleChunks(text: string, hs: seq<Heading<char>>, tables: seq<Table>, figures: seq<Figure>,
                        maxTokens: nat, overlapTokens: nat)
    returns (chunks: seq<Chunk>)
    requires HeadingsIn(text, hs)
    ensures chunks == PaperChunks(text, hs, tables, figures, maxTokens, overlapTokens)
  {
    chunks := ChunkDocument(text, hs, maxTokens, overlapTokens);
    chunks := AppendAssets(chunks, tables, TableChunk, figures, HasCaption, FigureChunk);
  }

  /** A row is unique per paper and chunk index. */
  type RowKey = (nat, nat)

  class ChunkTable {
    var rows: map<RowKey, Chunk>

    constructor ()
      ensures rows == map[]
    {
      rows := map[];
    }

    /** The rows of one paper, replaced wholesale by its chunks under their own
        indices; no other paper's row changes. Every insertion respects the unique
        index on paper and chunk index. */
    method ReplaceChunks(paperId: nat, text: string, hs: seq<Heading<char>>, tables: seq<Table>, figures: seq<Figure>,
                         maxTokens: nat, overlapTokens: nat)
      returns (count: nat)
      requires HeadingsIn(text, hs)
      modifies this
      ensures var chunks := PaperChunks(text, hs, tables, figures, maxTokens, overlapTokens);
              && count == |chunks|
              && (forall i: nat :: (paperId, i) in rows <==> i < count)
              && (forall i: nat :: i < count ==> rows[(paperId, i)] == chunks[i])
      ensures forall p: nat, i: nat :: p != paperId ==> ((p, i) in rows <==> (p, i) in old(rows))
      ensures forall p: nat, i: nat :: p != paperId && (p, i) in rows ==> rows[(p, i)] == old(rows)[(p, i)]
    {
      rows := map key | key in rows && key.0 != paperId :: rows[key];
      var chunks := AssembleChunks(text, hs, tables, figures, maxTokens, overlapTokens);
      forall i: nat | i < |chunks| ensures chunks[i].index == i {
        PaperChunksNumbered(text, hs, tables, figures, maxTokens, overlapTokens, i);
      }
      InsertRows(paperId, chunks);
      return |chunks|;
    }

    method InsertRows(paperId: nat, chunks: seq<Chunk>)
      requires forall i :: 0 <= i < |chunks| ==> chunks[i].index == i
      requires forall i: nat :: (paperId, i) !in rows
      modifies this
      ensures forall i: nat :: (paperId, i) in rows <==> i < |chunks|
      ensures forall i: nat :: i < |chunks| ==> rows[(paperId, i)] == chunks[i]
      ensures forall p: nat, i: nat :: p != paperId ==> ((p, i) in rows <==> (p, i) in old(rows))
      ensures forall p: nat, i: nat :: p != paperId && (p, i) in rows ==> rows[(p, i)] == old(rows)[(p, i)]
    {
      for i := 0 to |chunks|
        invariant forall j: nat :: (paperId, j) in rows <==> j < i
        invariant forall j: nat :: j < i ==> rows[(paperId, j)] == chunks[j]
        invariant forall p: nat, j: nat :: p != paperId ==> ((p, j) in rows <==> (p, j) in old(rows))
        invariant forall p: nat, j: nat :: p != paperId && (p, j) in rows ==> rows[(p, j)] == old(rows)[(p, j)]
      {
        assert (paperId, chunks[i].index) !in rows;
        rows := rows[(paperId, chunks[i].index) := chunks[i]];
      }
    }
  }
}
