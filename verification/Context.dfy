/** Packing retrieved passages into a token budget (backend/app/llm/context.py). */
module Context {
  import opened Sequences
  import opened Text
  import opened Options
  import opened Sentences
  import opened Ordering
  import opened Extraction
  import opened Tokens

  const DEFAULT_RESERVED_TOKENS: int := 1200
  const MIN_EXCERPT_TOKENS: int := 40
  const EXTRACTED_SENTENCES: int := 6

  datatype Passage<Id, C> = Passage(id: Id, content: seq<C>)

  datatype PackedContext<Id, C> =
    PackedContext(chunks: seq<Passage<Id, C>>, usedTokens: nat, droppedCount: nat, compressedCount: nat)

  function Budget(maxTokens: int, reservedTokens: int): (b: nat)
    ensures b as int == maxTokens - reservedTokens || (b == 0 && maxTokens < reservedTokens)
  {
    if maxTokens - reservedTokens > 0 then maxTokens - reservedTokens else 0
  }

  // ------------------------------------------------------------- one passage

  /** The longest prefix of the sentences whose estimates, on top of `used`, stay within the target. */
  function Affordable<C>(sentences: seq<seq<C>>, used: nat, target: int): (kept: seq<seq<C>>)
    ensures kept <= sentences
    ensures kept != [] ==> used + Costs(kept) <= target
  {
    if sentences == [] || used + EstimateTokens(sentences[0]) > target then []
    else
      var rest := Affordable(sentences[1..], used + EstimateTokens(sentences[0]), target);
      assert ([sentences[0]] + rest)[1..] == rest;
      [sentences[0]] + rest
  }

  /** The estimates of the parts, added up. */
  function Costs<C>(parts: seq<seq<C>>): nat {
    if parts == [] then 0 else EstimateTokens(parts[0]) + Costs(parts[1..])
  }

  function Shrunk<C(!new)>(content: seq<C>, q: Query<C>, space: C, target: int): Option<seq<C>> {
    var kept := Affordable(SupportingSentences(q, content, EXTRACTED_SENTENCES), 0, target);
    if kept == [] then None else Some(Join([space], kept))
  }

  method ShrinkByExtraction<C(==, !new)>(content: seq<C>, q: Query<C>, space: C, target: int)
    returns (reduced: Option<seq<C>>)
    ensures reduced == Shrunk(content, q, space, target)
  {
    var sentences := ExtractSupportingSentences(q, content, EXTRACTED_SENTENCES);
    if sentences == [] { return None; }
    var kept := KeepAffordable(sentences, target);
    if kept == [] { return None; }
    return Some(Join([space], kept));
  }

  method KeepAffordable<C(==)>(sentences: seq<seq<C>>, target: int) returns (kept: seq<seq<C>>)
    ensures kept == Affordable(sentences, 0, target)
  {
    kept := [];
    var used: nat := 0;
    assert sentences[0..] == sentences;
    NoTail(Affordable(sentences, 0, target));
    for i := 0 to |sentences|
      invariant kept + Affordable(sentences[i..], used, target) == Affordable(sentences, 0, target)
    {
      var cost := EstimateTokens(sentences[i]);
      if used + cost > target {
        AffordNone(sentences[i..], used, target);
        NoTail(kept);
        return;
      }
      AffordOne(kept, sentences, i, used, target);
      kept, used := kept + [sentences[i]], used + cost;
    }
    AffordNone(sentences[|sentences|..], used, target);
    NoTail(kept);
  }

  lemma AffordNone<C>(sentences: seq<seq<C>>, used: nat, target: int)
    requires |sentences| > 0 ==> used + EstimateTokens(sentences[0]) > target
    ensures Affordable(sentences, used, target) == []
  {
  }

  lemma AffordOne<C>(kept: seq<seq<C>>, sentences: seq<seq<C>>, i: nat, used: nat, target: int)
    requires i < |sentences| && used + EstimateTokens(sentences[i]) <= target
    ensures kept + Affordable(sentences[i..], used, target)
         == (kept + [sentences[i]]) + Affordable(sentences[i + 1..], used + EstimateTokens(sentences[i]), target)
  {
    assert sentences[i..][1..] == sentences[i + 1..];
    Assoc(kept, [sentences[i]], Affordable(sentences[i + 1..], used + EstimateTokens(sentences[i]), target));
  }

  /** How long the kept sentences are once joined. */
  lemma {:induction false} JoinedLength<C>(space: C, parts: seq<seq<C>>)
    requires parts != []
    ensures |Join([space], parts)| + 1 <= CHARS_PER_TOKEN * (Costs(parts) + |parts|)
    ensures Costs(parts) >= 1
  {
    if |parts| == 1 {
      assert parts[1..] == [];
    } else {
      JoinedLength(space, parts[1..]);
    }
  }

  /** Floors are charged sentence by sentence, but the joined text is charged once
      more: each sentence after the first can cost one token extra. */
  lemma JoinedCost<C>(space: C, parts: seq<seq<C>>)
    requires parts != []
    ensures EstimateTokens(Join([space], parts)) <= Costs(parts) + |parts| - 1
  {
    JoinedLength(space, parts);
  }

  lemma ShrunkCost<C(!new)>(content: seq<C>, q: Query<C>, space: C, target: int)
    requires Shrunk(content, q, space, target).Some?
    ensures EstimateTokens(Shrunk(content, q, space, target).value) <= target + EXTRACTED_SENTENCES - 1
  {
    JoinedCost(space, Affordable(SupportingSentences(q, content, EXTRACTED_SENTENCES), 0, target));
  }

  // ------------------------------------------------------------ the whole list

  function Place<Id, C(!new)>(st: PackedContext<Id, C>, chunk: Passage<Id, C>, q: Query<C>, space: C, budget: nat)
    : PackedContext<Id, C>
  {
    if st.usedTokens + EstimateTokens(chunk.content) <= budget then
      st.(chunks := st.chunks + [chunk], usedTokens := st.usedTokens + EstimateTokens(chunk.content))
    else if budget - st.usedTokens < MIN_EXCERPT_TOKENS then st.(droppedCount := st.droppedCount + 1)
    else PlaceReduced(st, chunk, Shrunk(chunk.content, q, space, budget - st.usedTokens))
  }

  function PlaceReduced<Id, C>(st: PackedContext<Id, C>, chunk: Passage<Id, C>, reduced: Option<seq<C>>)
    : PackedContext<Id, C>
  {
    match reduced
    case None => st.(droppedCount := st.droppedCount + 1)
    case Some(content) =>
      PackedContext(st.chunks + [chunk.(content := content)], st.usedTokens + EstimateTokens(content),
                    st.droppedCount, st.compressedCount + 1)
  }

  function PackAll<Id, C(!new)>(chunks: seq<Passage<Id, C>>, q: Query<C>, space: C, budget: nat): PackedContext<Id, C> {
    if chunks == [] then PackedContext([], 0, 0, 0)
    else Place(PackAll(chunks[..|chunks| - 1], q, space, budget), chunks[|chunks| - 1], q, space, budget)
  }

  method PackContext<Id(==), C(==, !new)>(chunks: seq<Passage<Id, C>>, q: Query<C>, space: C, maxTokens: int,
                                          reservedTokens: int)
    returns (r: PackedContext<Id, C>)
    ensures r == PackAll(chunks, q, space, Budget(maxTokens, reservedTokens))
  {
    var budget := Budget(maxTokens, reservedTokens);
    r := PackedContext([], 0, 0, 0);
    for i := 0 to |chunks|
      invariant r == PackAll(chunks[..i], q, space, budget)
    {
      PackMore(chunks, i, q, space, budget);
      r := PackOne(r.chunks, r.usedTokens, r.droppedCount, r.compressedCount, chunks[i], q, space, budget);
    }
    assert chunks[..|chunks|] == chunks;
  }

  lemma PackMore<Id, C(!new)>(chunks: seq<Passage<Id, C>>, i: nat, q: Query<C>, space: C, budget: nat)
    requires i < |chunks|
    ensures PackAll(chunks[..i + 1], q, space, budget) ==
              Place(PackAll(chunks[..i], q, space, budget), chunks[i], q, space, budget)
  {
    assert chunks[..i + 1][..i] == chunks[..i];
  }

  /** The body of the loop. */
  method PackOne<Id(==), C(==, !new)>(packed: seq<Passage<Id, C>>, used: nat, dropped: nat, compressed: nat,
                                      chunk: Passage<Id, C>, q: Query<C>, space: C, budget: nat)
    returns (r: PackedContext<Id, C>)
    ensures r == Place(PackedContext(packed, used, dropped, compressed), chunk, q, space, budget)
  {
    var cost := EstimateTokens(chunk.content);
    if used + cost <= budget {
      return PackedContext(packed + [chunk], used + cost, dropped, compressed);
    }
    var remaining: int := budget - used;
    if remaining < MIN_EXCERPT_TOKENS {
      return PackedContext(packed, used, dropped + 1, compressed);
    }
    var reduced := ShrinkByExtraction(chunk.content, q, space, remaining);
    if reduced.None? {
      return PackedContext(packed, used, dropped + 1, compressed);
    }
    var content := reduced.value;
    return PackedContext(packed + [chunk.(content := content)], used + EstimateTokens(content), dropped,
                         compressed + 1);
  }

  // --------------------------------------------------------------- the bound

  function ContentsOf<Id, C>(chunks: seq<Passage<Id, C>>): (r: seq<seq<C>>)
    ensures |r| == |chunks|
  {
    seq(|chunks|, i requires 0 <= i < |chunks| => chunks[i].content)
  }

  lemma {:induction false} CostsSnoc<C>(parts: seq<seq<C>>, x: seq<C>)
    ensures Costs(parts + [x]) == Costs(parts) + EstimateTokens(x)
  {
    if parts == [] {
      assert [x][1..] == [];
    } else {
      CostsSnoc(parts[1..], x);
      assert (parts + [x])[1..] == parts[1..] + [x];
    }
  }

  lemma ContentsMore<Id, C>(chunks: seq<Passage<Id, C>>, p: Passage<Id, C>)
    ensures ContentsOf(chunks + [p]) == ContentsOf(chunks) + [p.content]
  {
  }

  /** What every prefix of the run keeps. */
  ghost predicate Accounted<Id, C>(st: PackedContext<Id, C>, seen: nat, budget: nat) {
    && st.usedTokens == Costs(ContentsOf(st.chunks))
    && |st.chunks| + st.droppedCount == seen && st.compressedCount <= |st.chunks|
    && (st.compressedCount == 0 ==> st.usedTokens <= budget)
    && (st.usedTokens > budget ==>
          && st.chunks != []
          && st.usedTokens <= budget + EXTRACTED_SENTENCES - 1
          && Costs(ContentsOf(st.chunks[..|st.chunks| - 1])) + MIN_EXCERPT_TOKENS <= budget)
  }

  lemma PlaceAccounts<Id, C(!new)>(st: PackedContext<Id, C>, chunk: Passage<Id, C>, q: Query<C>, space: C, budget: nat,
                                   seen: nat)
    requires Accounted(st, seen, budget)
    ensures Accounted(Place(st, chunk, q, space, budget), seen + 1, budget)
  {
    var st' := Place(st, chunk, q, space, budget);
    if st'.chunks != st.chunks {
      var p := st'.chunks[|st.chunks|];
      ContentsMore(st.chunks, p);
      CostsSnoc(ContentsOf(st.chunks), p.content);
      assert st'.chunks[..|st'.chunks| - 1] == st.chunks;
      if st'.compressedCount > st.compressedCount {
        ShrunkCost(chunk.content, q, space, budget - st.usedTokens);
      }
    }
  }

  /** The accounts of a packed context: the tokens used are the estimates of what was
      packed; packed and dropped are all there was; the budget can be passed by at most
      five, only by the last passage packed, only if something was compressed, and only
      from at least forty tokens below. */
  lemma {:induction false} PackBounds<Id, C(!new)>(chunks: seq<Passage<Id, C>>, q: Query<C>, space: C, budget: nat)
    ensures Accounted(PackAll(chunks, q, space, budget), |chunks|, budget)
    ensures PackAll(chunks, q, space, budget).usedTokens <= budget + 5
  {
    if chunks != [] {
      PackBounds(chunks[..|chunks| - 1], q, space, budget);
      PlaceAccounts(PackAll(chunks[..|chunks| - 1], q, space, budget), chunks[|chunks| - 1], q, space, budget,
                    |chunks| - 1);
    }
  }

  /** Only one passage ever goes over: from then on everything is dropped. */
  lemma {:induction false} NothingAfterOvershoot<Id, C(!new)>(chunks: seq<Passage<Id, C>>, i: nat, n: nat, q: Query<C>,
                                                              space: C, budget: nat)
    requires i <= n <= |chunks| && PackAll(chunks[..i], q, space, budget).usedTokens > budget
    ensures PackAll(chunks[..n], q, space, budget).chunks == PackAll(chunks[..i], q, space, budget).chunks
    ensures PackAll(chunks[..n], q, space, budget).usedTokens == PackAll(chunks[..i], q, space, budget).usedTokens
  {
    if i < n {
      NothingAfterOvershoot(chunks, i, n - 1, q, space, budget);
      PackMore(chunks, n - 1, q, space, budget);
    }
  }

  /** The excerpt of a passage that does not fit is too long for the room that is left.
      Everything here is known before the excerpt is charged. */
  ghost predicate Overflows<Id, C(!new)>(used: nat, chunk: Passage<Id, C>, q: Query<C>, space: C, budget: nat) {
    var remaining := budget - used;
    var kept := Affordable(SupportingSentences(q, chunk.content, EXTRACTED_SENTENCES), 0, remaining);
    && remaining < EstimateTokens(chunk.content) && MIN_EXCERPT_TOKENS <= remaining
    && kept != [] && Lengths(kept) + |kept| - 1 >= CHARS_PER_TOKEN * (remaining + 1)
  }

  function Lengths<C>(parts: seq<seq<C>>): nat {
    if parts == [] then 0 else |parts[0]| + Lengths(parts[1..])
  }

  lemma {:induction false} LengthOfJoin<C>(space: C, parts: seq<seq<C>>)
    requires parts != []
    ensures |Join([space], parts)| == Lengths(parts) + |parts| - 1
  {
    if |parts| == 1 {
      assert parts[1..] == [];
    } else {
      LengthOfJoin(space, parts[1..]);
    }
  }

  lemma PlaceOverflows<Id, C(!new)>(st: PackedContext<Id, C>, chunk: Passage<Id, C>, q: Query<C>, space: C, budget: nat)
    requires st.usedTokens <= budget
    ensures Place(st, chunk, q, space, budget).usedTokens > budget <==>
              Overflows(st.usedTokens, chunk, q, space, budget)
  {
    var kept := Affordable(SupportingSentences(q, chunk.content, EXTRACTED_SENTENCES), 0, budget - st.usedTokens);
    if kept != [] { LengthOfJoin(space, kept); }
  }

  ghost predicate OverflowsAt<Id, C(!new)>(chunks: seq<Passage<Id, C>>, i: nat, q: Query<C>, space: C, budget: nat)
    requires i < |chunks|
  {
    Overflows(PackAll(chunks[..i], q, space, budget).usedTokens, chunks[i], q, space, budget)
  }

  /** Tokens used after the first `i` passages. */
  ghost function UsedAfter<Id, C(!new)>(chunks: seq<Passage<Id, C>>, q: Query<C>, space: C, budget: nat): nat -> nat {
    (i: nat) => PackAll(Upto(chunks, i), q, space, budget).usedTokens
  }

  ghost function OverflowAt<Id, C(!new)>(chunks: seq<Passage<Id, C>>, q: Query<C>, space: C, budget: nat): nat -> bool {
    (i: nat) => i < |chunks| && OverflowsAt(chunks, i, q, space, budget)
  }

  lemma StepsOver<Id, C(!new)>(chunks: seq<Passage<Id, C>>, i: nat, q: Query<C>, space: C, budget: nat)
    requires i < |chunks|
    ensures var used, over := UsedAfter(chunks, q, space, budget), OverflowAt(chunks, q, space, budget);
            if used(i) > budget then used(i + 1) > budget else used(i + 1) > budget <==> over(i)
  {
    PackMore(chunks, i, q, space, budget);
    if PackAll(chunks[..i], q, space, budget).usedTokens <= budget {
      PlaceOverflows(PackAll(chunks[..i], q, space, budget), chunks[i], q, space, budget);
    }
  }

  ghost predicate OverOnly(used: nat -> nat, over: nat -> bool, n: nat, budget: nat) {
    forall i: nat :: i < n ==> if used(i) > budget then used(i + 1) > budget else used(i + 1) > budget <==> over(i)
  }

  lemma {:induction false} OverOnce(used: nat -> nat, over: nat -> bool, n: nat, budget: nat)
    requires used(0) <= budget
    requires OverOnly(used, over, n, budget)
    ensures used(n) <= budget <==> forall i: nat :: i < n ==> !over(i)
  {
    if n > 0 { OverOnce(used, over, n - 1, budget); }
  }

  lemma AllStepsOver<Id, C(!new)>(chunks: seq<Passage<Id, C>>, q: Query<C>, space: C, budget: nat)
    ensures OverOnly(UsedAfter(chunks, q, space, budget), OverflowAt(chunks, q, space, budget), |chunks|, budget)
  {
    var used, over := UsedAfter(chunks, q, space, budget), OverflowAt(chunks, q, space, budget);
    forall i: nat | i < |chunks|
      ensures if used(i) > budget then used(i + 1) > budget else used(i + 1) > budget <==> over(i)
    {
      StepsOver(chunks, i, q, space, budget);
    }
  }

  /** Exactly when the budget is kept: no passage's excerpt, spaces included, has four
      characters more than the room left for it. */
  lemma KeepsBudgetIff<Id, C(!new)>(chunks: seq<Passage<Id, C>>, q: Query<C>, space: C, budget: nat)
    ensures PackAll(chunks, q, space, budget).usedTokens <= budget
       <==> forall i: nat :: i < |chunks| ==> !OverflowAt(chunks, q, space, budget)(i)
  {
    AllStepsOver(chunks, q, space, budget);
    OverOnce(UsedAfter(chunks, q, space, budget), OverflowAt(chunks, q, space, budget), |chunks|, budget);
  }

  // ------------------------------------------------------- what was packed

  /** A passage whole, or its best sentences. */
  ghost predicate Excerpt<Id, C(!new)>(p: Passage<Id, C>, chunk: Passage<Id, C>, q: Query<C>, space: C) {
    p.id == chunk.id && (p.content == chunk.content || IsExcerpt(p.content, chunk.content, q, space))
  }

  ghost predicate IsExcerpt<C(!new)>(excerpt: seq<C>, content: seq<C>, q: Query<C>, space: C) {
    exists n: nat :: 0 < n <= |SupportingSentences(q, content, EXTRACTED_SENTENCES)|
                     && excerpt == Join([space], SupportingSentences(q, content, EXTRACTED_SENTENCES)[..n])
  }

  /** What was packed are excerpts of some of the passages, in their order. */
  ghost predicate PackedFrom<Id, C(!new)>(packed: seq<Passage<Id, C>>, chunks: seq<Passage<Id, C>>, q: Query<C>,
                                          space: C)
    decreases |chunks|
  {
    packed == [] || (chunks != [] &&
      (PackedFrom(packed, chunks[..|chunks| - 1], q, space)
       || (Excerpt(packed[|packed| - 1], chunks[|chunks| - 1], q, space)
           && PackedFrom(packed[..|packed| - 1], chunks[..|chunks| - 1], q, space))))
  }

  lemma ShrunkIsExcerpt<C(!new)>(content: seq<C>, q: Query<C>, space: C, target: int)
    requires Shrunk(content, q, space, target).Some?
    ensures IsExcerpt(Shrunk(content, q, space, target).value, content, q, space)
  {
    var sentences := SupportingSentences(q, content, EXTRACTED_SENTENCES);
    var kept := Affordable(sentences, 0, target);
    assert kept == sentences[..|kept|];
  }

  lemma PlacePacks<Id, C(!new)>(st: PackedContext<Id, C>, chunk: Passage<Id, C>, q: Query<C>, space: C, budget: nat)
    returns (p: Passage<Id, C>)
    ensures var packed := Place(st, chunk, q, space, budget).chunks;
            packed == st.chunks || (packed == st.chunks + [p] && Excerpt(p, chunk, q, space))
  {
    p := chunk;
    if st.usedTokens + EstimateTokens(chunk.content) > budget
      && Shrunk(chunk.content, q, space, budget - st.usedTokens).Some? {
      ShrunkIsExcerpt(chunk.content, q, space, budget - st.usedTokens);
      p := chunk.(content := Shrunk(chunk.content, q, space, budget - st.usedTokens).value);
    }
  }

  lemma PackedOneMore<Id, C(!new)>(packed: seq<Passage<Id, C>>, p: Passage<Id, C>, chunks: seq<Passage<Id, C>>,
                                   chunk: Passage<Id, C>, q: Query<C>, space: C)
    requires PackedFrom(packed, chunks, q, space)
    ensures PackedFrom(packed, chunks + [chunk], q, space)
    ensures Excerpt(p, chunk, q, space) ==> PackedFrom(packed + [p], chunks + [chunk], q, space)
  {
    assert (chunks + [chunk])[..|chunks|] == chunks && (packed + [p])[..|packed|] == packed;
  }

  lemma {:induction false} PackKeepsOrder<Id, C(!new)>(chunks: seq<Passage<Id, C>>, q: Query<C>, space: C, budget: nat)
    ensures PackedFrom(PackAll(chunks, q, space, budget).chunks, chunks, q, space)
  {
    if chunks != [] {
      var rest, last := chunks[..|chunks| - 1], chunks[|chunks| - 1];
      PackKeepsOrder(rest, q, space, budget);
      var st := PackAll(rest, q, space, budget);
      var p := PlacePacks(st, last, q, space, budget);
      PackedOneMore(st.chunks, p, rest, last, q, space);
      assert chunks == rest + [last];
    }
  }

  // ------------------------------------------------ what a caller can rely on

  lemma {:induction false} AffordAll<C>(sentences: seq<seq<C>>, used: nat, target: int)
    requires used + Costs(sentences) <= target
    ensures Affordable(sentences, used, target) == sentences
  {
    if sentences != [] {
      AffordAll(sentences[1..], used + EstimateTokens(sentences[0]), target);
      assert sentences == [sentences[0]] + sentences[1..];
    }
  }

  /** Long enough and sharing as many terms as any other. */
  ghost predicate EquallyGood<C(!new)>(s: seq<C>, q: Query<C>, terms: nat) {
    q.strip(s) == s && q.overlap(s) == terms && |s| >= MIN_SENTENCE_CHARS
  }

  /** Sentences that are equally good are all returned, as they stand. */
  lemma SupportingAll<C(!new)>(q: Query<C>, text: seq<C>, sentences: seq<seq<C>>, terms: nat, limit: nat)
    requires q.hasTerms && terms > 0 && q.sentences(text) == sentences && |sentences| <= limit
    requires forall i :: 0 <= i < |sentences| ==> EquallyGood(sentences[i], q, terms)
    ensures SupportingSentences(q, text, limit) == sentences
  {
    var scored := ScoreAll(sentences, q);
    assert forall i :: 0 <= i < |scored| ==>
             EquallyGood(sentences[i], q, terms) && scored[i] == Scored(terms, sentences[i]);
    FilterAll(scored, Qualifies);
    SortEqualKeys(scored, ByOverlap);
  }

  lemma PackSingle<Id, C(!new)>(chunk: Passage<Id, C>, q: Query<C>, space: C, budget: nat)
    requires MIN_EXCERPT_TOKENS <= budget < EstimateTokens(chunk.content)
             && Shrunk(chunk.content, q, space, budget).Some?
    ensures PackAll([chunk], q, space, budget).usedTokens ==
              EstimateTokens(Shrunk(chunk.content, q, space, budget).value)
  {
    assert [chunk][..0] == [];
  }

  /** A passage whose sentences fit one by one but not joined is packed as it stands,
      and charged as it stands. */
  lemma ChargedForItsSpaces<Id, C(!new)>(id: Id, q: Query<C>, sentences: seq<seq<C>>, terms: nat, space: C, budget: nat)
    requires q.hasTerms && terms > 0 && 0 < |sentences| <= EXTRACTED_SENTENCES
             && q.sentences(Join([space], sentences)) == sentences
    requires forall i :: 0 <= i < |sentences| ==> EquallyGood(sentences[i], q, terms)
    requires budget >= MIN_EXCERPT_TOKENS && Costs(sentences) <= budget < EstimateTokens(Join([space], sentences))
    ensures PackAll([Passage(id, Join([space], sentences))], q, space, budget).usedTokens ==
              EstimateTokens(Join([space], sentences))
  {
    SupportingAll(q, Join([space], sentences), sentences, terms, EXTRACTED_SENTENCES);
    AffordAll(sentences, 0, budget);
    PackSingle(Passage(id, Join([space], sentences)), q, space, budget);
  }

  /** A sentence of that many letters and a full stop. */
  function DullSentence(letters: nat): (s: string)
    ensures |s| == letters + 1 && s[letters] == '.' && forall i :: 0 <= i < letters ==> s[i] == 'a'
  {
    seq(letters + 1, i => if i < letters then 'a' else '.')
  }

  /** The query that names both sentences. */
  function DullQuery(letters: nat): string {
    DullSentence(22) + ([' '] + DullSentence(letters))
  }

  lemma DullIsLongWord(letters: nat)
    requires letters >= 22
    ensures LongWord(DullSentence(letters))
  {
  }

  /** Each of the two sentences shares one term with that query: itself. */
  lemma DullShareOneTerm(letters: nat)
    requires letters > 22
    ensures ProseQuery(DullQuery(letters)).hasTerms
    ensures SharedTerms(DullQuery(letters))(DullSentence(22)) ==
              SharedTerms(DullQuery(letters))(DullSentence(letters)) == 1
  {
    var short, long := DullSentence(22), DullSentence(letters);
    DullIsLongWord(22);
    DullIsLongWord(letters);
    TermsOfTwoWords(short, long);
    TermsOfWord(short);
    TermsOfWord(long);
    assert {short, long} * {short} == {short} && {short, long} * {long} == {long};
    assert short in Terms(DullQuery(letters));
  }

  lemma DullIsSingle(letters: nat)
    requires letters >= 1
    ensures Single(DullSentence(letters), IsStop, IsSpace) && Strip(DullSentence(letters)) == DullSentence(letters)
  {
    var s := DullSentence(letters);
    forall j | 0 <= j < |s| ensures !BreaksAt(s, j, IsStop, IsSpace) {
      if 1 <= j { assert s[j - 1] == 'a'; }
    }
    assert s[0] == 'a';
    StripByTrims(s, IsSpace);
  }

  /** A sentence `n` times, then another. */
  function CopiesThen<C>(x: seq<C>, n: nat, y: seq<C>): (r: seq<seq<C>>)
    ensures |r| == n + 1 && forall i :: 0 <= i < |r| ==> r[i] == x || r[i] == y
  {
    if n == 0 then [y] else [x] + CopiesThen(x, n - 1, y)
  }

  lemma OneMoreTimes(n: nat, k: nat)
    requires n > 0
    ensures n * k == (n - 1) * k + k
  {
  }

  lemma {:induction false} CopiesCost<C>(x: seq<C>, n: nat, y: seq<C>)
    ensures Costs(CopiesThen(x, n, y)) == n * EstimateTokens(x) + EstimateTokens(y)
    ensures Lengths(CopiesThen(x, n, y)) == n * |x| + |y|
  {
    if n > 0 {
      CopiesCost(x, n - 1, y);
      assert CopiesThen(x, n, y)[1..] == CopiesThen(x, n - 1, y);
      OneMoreTimes(n, EstimateTokens(x));
      OneMoreTimes(n, |x|);
    } else {
      assert CopiesThen(x, n, y)[1..] == [];
    }
  }

  /** Six sentences whose estimates, each rounded down by three characters, add up to the
      budget: joined by five spaces they cost five tokens more. */
  lemma SixOvershoot<C>(x: seq<C>, y: seq<C>, space: C, budget: nat)
    requires |x| == 23 && budget >= MIN_EXCERPT_TOKENS && |y| == 4 * (budget - 25) + 3
    ensures Costs(CopiesThen(x, 5, y)) == budget && EstimateTokens(Join([space], CopiesThen(x, 5, y))) == budget + 5
  {
    CopiesCost(x, 5, y);
    LengthOfJoin(space, CopiesThen(x, 5, y));
  }

  lemma SixAreCharged<Id, C(!new)>(id: Id, q: Query<C>, x: seq<C>, y: seq<C>, terms: nat, space: C, stop: C -> bool,
                                   blank: C -> bool, budget: nat)
    requires q.hasTerms && terms > 0 && EquallyGood(x, q, terms) && EquallyGood(y, q, terms)
    requires Single(x, stop, blank) && Single(y, stop, blank) && blank(space)
    requires forall s :: q.sentences(s) == SplitBy(s, stop, blank)
    requires |x| == 23 && budget >= MIN_EXCERPT_TOKENS && |y| == 4 * (budget - 25) + 3
    ensures PackAll([Passage(id, Join([space], CopiesThen(x, 5, y)))], q, space, budget).usedTokens == budget + 5
  {
    var sentences := CopiesThen(x, 5, y);
    assert AllSingle(sentences, stop, blank);
    JoinSplits(sentences, space, stop, blank);
    SixOvershoot(x, y, space, budget);
    ChargedForItsSpaces(id, q, sentences, terms, space, budget);
  }

  /** With forty tokens or more to spend, some passage is charged five tokens too many
      under some query. */
  lemma SomePassageOvershoots<Id>(id: Id, budget: nat) returns (passage: string, query: string)
    requires budget >= MIN_EXCERPT_TOKENS
    ensures PackAll([Passage(id, passage)], ProseQuery(query), ' ', budget).usedTokens == budget + 5
  {
    var letters := 4 * (budget - 25) + 2;
    query := DullQuery(letters);
    DullShareOneTerm(letters);
    DullIsSingle(22);
    DullIsSingle(letters);
    passage := Join([' '], CopiesThen(DullSentence(22), 5, DullSentence(letters)));
    SixAreCharged(id, ProseQuery(query), DullSentence(22), DullSentence(letters), 1, ' ', IsStop, IsSpace, budget);
  }

  /** Nothing is compressed into less than forty tokens. */
  lemma SmallBudgetIsKept<Id, C(!new)>(chunks: seq<Passage<Id, C>>, q: Query<C>, space: C, budget: nat)
    requires budget < MIN_EXCERPT_TOKENS
    ensures PackAll(chunks, q, space, budget).usedTokens <= budget
  {
    KeepsBudgetIff(chunks, q, space, budget);
  }

  /** No passages and no query make the packed context exceed the budget by more. */
  ghost predicate NeverOverBy(excess: nat, budget: nat) {
    forall chunks: seq<Passage<nat, char>>, query: string :: OverByAtMost(excess, chunks, query, budget)
  }

  ghost predicate OverByAtMost(excess: nat, chunks: seq<Passage<nat, char>>, query: string, budget: nat) {
    PackAll(chunks, ProseQuery(query), ' ', budget).usedTokens <= budget + excess
  }

  lemma SomeInputOvershoots(excess: nat, budget: nat)
    requires excess < 5 && budget >= MIN_EXCERPT_TOKENS
    ensures !NeverOverBy(excess, budget)
  {
    var id: nat := 0;
    var passage, query := SomePassageOvershoots(id, budget);
    assert !OverByAtMost(excess, [Passage(id, passage)], query, budget);
  }

  /** What a caller can rely on, from the two numbers it passes: the budget is kept for
      all inputs if and only if it is below forty tokens, and from forty on the worst
      case is five tokens over, no less and no more. */
  lemma WorstOvershoot(maxTokens: int, reservedTokens: int, excess: nat)
    ensures NeverOverBy(excess, Budget(maxTokens, reservedTokens))
       <==> excess >= 5 || maxTokens - reservedTokens < MIN_EXCERPT_TOKENS
  {
    var budget := Budget(maxTokens, reservedTokens);
    if excess >= 5 || budget < MIN_EXCERPT_TOKENS {
      forall chunks: seq<Passage<nat, char>>, query: string ensures OverByAtMost(excess, chunks, query, budget) {
        PackBounds(chunks, ProseQuery(query), ' ', budget);
        if budget < MIN_EXCERPT_TOKENS { SmallBudgetIsKept(chunks, ProseQuery(query), ' ', budget); }
      }
    } else {
      SomeInputOvershoots(excess, budget);
    }
  }
}
