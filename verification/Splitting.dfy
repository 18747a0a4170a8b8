/** Splitting an oversized paragraph (backend/app/ingestion/chunking.py, `_hard_split`).
    The splitting itself is stated for sequences of any characters, given which
    are blank and what joins two sentences; only the sentence breaks are about text. */
module Splitting {
  import opened Sequences
  import opened Text
  import opened Ordering
  import opened Sentences

  /** The budget, and what the splitter needs to know about characters: which are
      blank, how to strip them off a piece, where sentences end, and what joins two
      sentences or two paragraphs. */
  datatype Config<!C(!new)> =
    Config(maxChars: nat, overlap: nat, blank: C -> bool, strip: seq<C> -> seq<C>,
           sentences: seq<C> -> seq<seq<C>>, space: C, gap: seq<C>)
  {
    /** What is used of stripping: it removes blanks only, and all of them at the ends. */
    ghost predicate Proper() {
      && blank(space)
      && (forall s {:trigger strip(s)} :: |strip(s)| <= |s| && TrimmedBy(strip(s), blank))
      && (forall s {:trigger strip(s)} ::
            Ink(strip(s), blank) == Ink(s, blank) && (|strip(s)| > 0 <==> Ink(s, blank) != []))
      && (forall s {:trigger strip([space] + s)} :: strip([space] + s) == strip(s))
    }

    /** A text with no blank at either end is stripped already. */
    ghost predicate Idempotent() {
      forall s {:trigger strip(s)} :: TrimmedBy(s, blank) ==> strip(s) == s
    }

    /** Neither splitting into sentences nor joining paragraphs adds or loses anything but blanks. */
    ghost predicate Conserving() {
      && Proper()
      && (forall s {:trigger sentences(s)} :: Flatten(InkAll(sentences(s), blank)) == Ink(s, blank))
      && (forall i :: 0 <= i < |gap| ==> blank(gap[i]))
    }

    function Step(): (step: nat)
      ensures step >= 1
    {
      if maxChars - overlap > 1 then maxChars - overlap else 1
    }
  }

  function Prose(maxChars: nat, overlap: nat): Config<char> {
    Config(maxChars, overlap, IsSpace, Strip, SplitSentences, ' ', "\n\n")
  }

  lemma ProseIsProper(maxChars: nat, overlap: nat)
    ensures Prose(maxChars, overlap).Proper()
  {
    forall s ensures |Strip(s)| <= |s| && TrimmedBy(Strip(s), IsSpace) { StripByTrims(s, IsSpace); }
    forall s ensures Ink(Strip(s), IsSpace) == Ink(s, IsSpace) && (|Strip(s)| > 0 <==> Ink(s, IsSpace) != []) {
      InkStrip(s, IsSpace);
    }
    forall s ensures Strip([' '] + s) == Strip(s) { StripAfterBlank(s, ' ', IsSpace); }
  }

  lemma ProseIsIdempotent(maxChars: nat, overlap: nat)
    ensures Prose(maxChars, overlap).Idempotent()
  {
    forall s | TrimmedBy(s, IsSpace) ensures Strip(s) == s { StripByTrims(s, IsSpace); }
  }

  lemma ProseIsConserving(maxChars: nat, overlap: nat)
    ensures Prose(maxChars, overlap).Conserving()
  {
    ProseIsProper(maxChars, overlap);
    forall s ensures Flatten(InkAll(SplitSentences(s), IsSpace)) == Ink(s, IsSpace) {
      SentencesConserve(s, IsStop, IsSpace);
    }
  }

  /** The pieces emitted so far and the piece being assembled. */
  datatype Split<C> = Split(pieces: seq<seq<C>>, current: seq<C>)

  function Emit<C(!new)>(st: Split<C>, k: Config<C>): Split<C> {
    Split(st.pieces + [k.strip(st.current)], [])
  }

  function EmitAny<C(!new)>(st: Split<C>, k: Config<C>): Split<C> {
    if st.current != [] then Emit(st, k) else st
  }

  /** The inner loop: a sentence longer than the whole budget is cut into windows
      that overlap; what is left of it is returned. */
  function CutLong<C(!new)>(st: Split<C>, sentence: seq<C>, k: Config<C>): (r: (Split<C>, seq<C>))
    ensures |r.1| <= k.maxChars
    decreases |sentence|
  {
    if |sentence| <= k.maxChars then (st, sentence)
    else CutLong(Split(EmitAny(st, k).pieces + [k.strip(sentence[..k.maxChars])], []), sentence[k.Step()..], k)
  }

  /** `s[-n:] if n else ""`. */
  function LastChars<C>(s: seq<C>, n: nat): (r: seq<C>)
    ensures |r| <= n && |r| <= |s| && r == s[|s| - |r|..]
  {
    if n < |s| then s[|s| - n..] else s
  }

  function MakeRoom<C(!new)>(st: Split<C>, sentence: seq<C>, k: Config<C>): Split<C> {
    if st.current != [] && |st.current| + |sentence| + 1 > k.maxChars
    then Emit(st, k).(current := LastChars(st.current, k.overlap))
    else st
  }

  function AddSentence<C(!new)>(st: Split<C>, sentence: seq<C>, k: Config<C>): Split<C> {
    var (cut, rest) := CutLong(st, sentence, k);
    var roomy := MakeRoom(cut, rest, k);
    roomy.(current := k.strip(roomy.current + [k.space] + rest))
  }

  function AddSentences<C(!new)>(sentences: seq<seq<C>>, k: Config<C>): Split<C> {
    if sentences == [] then Split([], [])
    else AddSentence(AddSentences(sentences[..|sentences| - 1], k), sentences[|sentences| - 1], k)
  }

  predicate IsPiece<C>(p: seq<C>) { |p| > 0 }

  function Finish<C(!new)>(st: Split<C>, k: Config<C>): seq<seq<C>> {
    if |k.strip(st.current)| > 0 then Emit(st, k).pieces else st.pieces
  }

  function HardSplitSpec<C(!new)>(text: seq<C>, k: Config<C>): seq<seq<C>> {
    Filter(Finish(AddSentences(k.sentences(text), k), k), IsPiece)
  }

  method HardSplit<C(==, !new)>(text: seq<C>, k: Config<C>) returns (result: seq<seq<C>>)
    ensures result == HardSplitSpec(text, k)
  {
    var pieces, current := SplitAll(k.sentences(text), k);
    if |k.strip(current)| > 0 {
      pieces := pieces + [k.strip(current)];
    }
    result := Filter(pieces, IsPiece);
  }

  /** The two nested loops of `_hard_split`. */
  method SplitAll<C(==, !new)>(sentences: seq<seq<C>>, k: Config<C>) returns (pieces: seq<seq<C>>, current: seq<C>)
    ensures Split(pieces, current) == AddSentences(sentences, k)
  {
    pieces, current := [], [];
    for i := 0 to |sentences|
      invariant Split(pieces, current) == AddSentences(sentences[..i], k)
    {
      assert sentences[..i + 1][..i] == sentences[..i];
      var sentence := sentences[i];
      ghost var st := Split(pieces, current);
      while |sentence| > k.maxChars
        invariant CutLong(Split(pieces, current), sentence, k) == CutLong(st, sentences[i], k)
        decreases |sentence|
      {
        if current != [] {
          pieces := pieces + [k.strip(current)];
          current := [];
        }
        pieces := pieces + [k.strip(sentence[..k.maxChars])];
        sentence := sentence[k.Step()..];
      }
      if current != [] && |current| + |sentence| + 1 > k.maxChars {
        pieces := pieces + [k.strip(current)];
        current := LastChars(current, k.overlap);
      }
      current := k.strip(current + [k.space] + sentence);
    }
    assert sentences[..|sentences|] == sentences;
  }

  // ------------------------------------------------ repeats and novel material

  /** `cur` is at most `overlap` items that end `prev`, repeated, followed by `novel`. */
  ghost predicate Extends<C>(prev: seq<C>, cur: seq<C>, novel: seq<C>, overlap: nat) {
    && |novel| <= |cur| && |cur| - |novel| <= overlap && |cur| - |novel| <= |prev|
    && cur == prev[|prev| - (|cur| - |novel|)..] + novel
  }

  function Last<C>(pieces: seq<seq<C>>): seq<C> {
    if pieces == [] then [] else pieces[|pieces| - 1]
  }

  function Before<C>(pieces: seq<seq<C>>, i: nat): seq<C>
    requires i < |pieces|
  {
    if i == 0 then [] else pieces[i - 1]
  }

  /** Every piece repeats at most `overlap` items from the end of the piece before it. */
  ghost predicate Chain<C>(pieces: seq<seq<C>>, novel: seq<seq<C>>, overlap: nat) {
    && |pieces| == |novel|
    && forall i {:trigger novel[i]} :: 0 <= i < |pieces| ==> Extends(Before(pieces, i), pieces[i], novel[i], overlap)
  }

  lemma ChainSnoc<C>(pieces: seq<seq<C>>, novel: seq<seq<C>>, overlap: nat, p: seq<C>, f: seq<C>)
    requires Chain(pieces, novel, overlap) && Extends(Last(pieces), p, f, overlap)
    ensures Chain(pieces + [p], novel + [f], overlap)
  {
    var ps, fs := pieces + [p], novel + [f];
    forall i | 0 <= i < |ps| ensures Extends(Before(ps, i), ps[i], fs[i], overlap) {
      if i < |pieces| {
        assert Extends(Before(pieces, i), pieces[i], novel[i], overlap);
      }
    }
  }

  lemma ExtendsMore<C>(prev: seq<C>, cur: seq<C>, novel: seq<C>, overlap: nat, more: seq<C>)
    requires Extends(prev, cur, novel, overlap)
    ensures Extends(prev, cur + more, novel + more, overlap)
  {
    var k := |cur| - |novel|;
    assert prev[|prev| - k..] + novel + more == prev[|prev| - k..] + (novel + more);
  }

  /** The emitted pieces form a chain that `cur` would continue with fresh part
      `f`, and `rep` repeats the end of the last piece. */
  ghost predicate Flow<C>(kept: seq<seq<C>>, cur: seq<C>, rep: seq<C>, novel: seq<seq<C>>, f: seq<C>, overlap: nat) {
    && Chain(kept, novel, overlap)
    && Extends(Last(kept), cur, f, overlap)
    && Extends(Last(kept), rep, [], overlap)
  }

  /** Empty pieces are filtered out in the end. */
  function Pushed<C(==)>(kept: seq<seq<C>>, p: seq<C>): seq<seq<C>> {
    if |p| == 0 then kept else kept + [p]
  }

  function NovelPushed<C(==)>(novel: seq<seq<C>>, p: seq<C>, f: seq<C>): seq<seq<C>> {
    if |p| == 0 then novel else novel + [f]
  }

  lemma ExtendsTail<C>(a: seq<C>, b: seq<C>, overlap: nat)
    requires |b| <= overlap
    ensures Extends(a + b, b, [], overlap)
  {
    NoTail(b);
    assert (a + b)[|a + b| - |b|..] == b;
  }

  lemma ExtendsNothing<C>(prev: seq<C>, f: seq<C>, overlap: nat)
    requires Extends(prev, [], f, overlap)
    ensures f == []
  {
  }

  /** Emitting `cur`; the new last piece may then be repeated from its end. */
  lemma FlowPush<C>(kept: seq<seq<C>>, cur: seq<C>, rep: seq<C>, novel: seq<seq<C>>, f: seq<C>, overlap: nat,
                    a: seq<C>, b: seq<C>)
    requires Flow(kept, cur, rep, novel, f, overlap) && cur == a + b && |b| <= overlap
    ensures Flow(Pushed(kept, cur), b, b, NovelPushed(novel, cur, f), [], overlap)
    ensures Flatten(NovelPushed(novel, cur, f)) == Flatten(novel) + f
  {
    if |cur| == 0 {
      assert b == [];
      ExtendsNothing(Last(kept), f, overlap);
      NoTail(Flatten(novel));
    } else {
      ChainSnoc(kept, novel, overlap, cur, f);
      ExtendsTail(a, b, overlap);
      FlattenSnoc(novel, f);
    }
  }

  /** Emitting a window that starts with the repeat and goes on with new material. */
  lemma FlowWindow<C>(kept: seq<seq<C>>, rep: seq<C>, x: seq<C>, novel: seq<seq<C>>, overlap: nat, a: seq<C>, b: seq<C>)
    requires Flow(kept, [], rep, novel, [], overlap) && rep + x == a + b && |b| <= overlap
    ensures Flow(Pushed(kept, rep + x), [], b, NovelPushed(novel, rep + x, x), [], overlap)
    ensures Flatten(NovelPushed(novel, rep + x, x)) == Flatten(novel) + x
  {
    ExtendsMore(Last(kept), rep, [], overlap, x);
    assert [] + x == x;
    FlowPush(kept, rep + x, rep, novel, x, overlap, a, b);
  }

  /** Appending new material to the current piece, or starting one from the repeat. */
  lemma FlowAppend<C>(kept: seq<seq<C>>, cur: seq<C>, rep: seq<C>, x: seq<C>, novel: seq<seq<C>>, f: seq<C>,
                      overlap: nat)
    requires Flow(kept, cur, rep, novel, f, overlap) && (cur == [] || rep == [])
    ensures Flow(kept, cur + (rep + x), [], novel, f + x, overlap)
  {
    if cur == [] {
      assert f == [] && f + x == [] + x && cur + (rep + x) == rep + x;
      ExtendsMore(Last(kept), rep, [], overlap, x);
    } else {
      assert rep + x == x;
      ExtendsMore(Last(kept), cur, f, overlap, x);
    }
  }

  /** With no overlap allowed, the pieces are all new. */
  lemma {:induction false} ChainWithoutOverlap(pieces: seq<string>, novel: seq<string>)
    requires Chain(pieces, novel, 0)
    ensures novel == pieces
  {
    forall i | 0 <= i < |pieces| ensures novel[i] == pieces[i] {
      assert Extends(Before(pieces, i), pieces[i], novel[i], 0);
    }
  }

  // ----------------------------------------------------------- conservation

  /** The ink of the non-empty pieces. */
  function Kept<C(!new)>(pieces: seq<seq<C>>, blank: C -> bool): seq<seq<C>> {
    InkAll(Filter(pieces, IsPiece), blank)
  }

  lemma KeptSnoc<C(!new)>(pieces: seq<seq<C>>, raw: seq<C>, k: Config<C>)
    requires k.Proper()
    ensures Kept(pieces + [k.strip(raw)], k.blank) == Pushed(Kept(pieces, k.blank), Ink(raw, k.blank))
  {
    var p := k.strip(raw);
    assert Ink(p, k.blank) == Ink(raw, k.blank) && (|p| > 0 <==> Ink(raw, k.blank) != []);
    InkOfKept(pieces, p, Ink(raw, k.blank), k.blank);
  }

  lemma InkOfKept<C(!new)>(pieces: seq<seq<C>>, p: seq<C>, v: seq<C>, blank: C -> bool)
    requires v == Ink(p, blank) && (|p| > 0 <==> v != [])
    ensures Kept(pieces + [p], blank) == Pushed(Kept(pieces, blank), v)
  {
    FilterSnoc(pieces, p, IsPiece);
    InkAllMore(Filter(pieces, IsPiece), p, blank);
  }

  /** Between steps: the first `r` characters of the sentence are a repeat. */
  ghost predicate Sane<C(!new)>(st: Split<C>, sentence: seq<C>, r: nat, k: Config<C>, novel: seq<seq<C>>, f: seq<C>) {
    && r <= |sentence| && r <= k.overlap && r <= k.maxChars
    && (st.current != [] ==> r == 0)
    && Flow(Kept(st.pieces, k.blank), Ink(st.current, k.blank), Ink(sentence[..r], k.blank), novel, f, k.overlap)
  }

  lemma EmitFlow<C>(kept: seq<seq<C>>, cur: seq<C>, rep: seq<C>, novel: seq<seq<C>>, f: seq<C>, overlap: nat,
                    kept': seq<seq<C>>)
    requires Flow(kept, cur, rep, novel, f, overlap) && kept' == Pushed(kept, cur)
    ensures Flow(kept', [], [], NovelPushed(novel, cur, f), [], overlap)
    ensures Flatten(NovelPushed(novel, cur, f)) == Flatten(novel) + f
  {
    assert cur == cur + [];
    FlowPush(kept, cur, rep, novel, f, overlap, cur, []);
  }

  /** Emitting the current piece, if there is one. */
  lemma EmitKeeps<C(!new)>(st: Split<C>, sentence: seq<C>, r: nat, k: Config<C>, novel: seq<seq<C>>, f: seq<C>)
    returns (novel': seq<seq<C>>)
    requires k.Proper() && Sane(st, sentence, r, k, novel, f)
    ensures Sane(EmitAny(st, k), sentence, r, k, novel', [])
    ensures Flatten(novel') == Flatten(novel) + f
  {
    if st.current == [] {
      novel' := novel;
    } else {
      var cur := Ink(st.current, k.blank);
      assert sentence[..r] == [];
      KeptSnoc(st.pieces, st.current, k);
      EmitFlow(Kept(st.pieces, k.blank), cur, [], novel, f, k.overlap, Kept(Emit(st, k).pieces, k.blank));
      novel' := NovelPushed(novel, cur, f);
    }
  }

  /** The flow after one window, whatever list the kept pieces now are. */
  lemma WindowFlow<C>(kept: seq<seq<C>>, sentence: seq<C>, r: nat, step: nat, max: nat, overlap: nat, blank: C -> bool,
                      novel: seq<seq<C>>, kept': seq<seq<C>>)
    returns (novel': seq<seq<C>>)
    requires r <= max <= |sentence| && step <= max && max - step <= overlap
    requires Flow(kept, [], Ink(sentence[..r], blank), novel, [], overlap)
    requires kept' == Pushed(kept, Ink(sentence[..max], blank))
    ensures Flow(kept', [], Ink(sentence[step..][..max - step], blank), novel', [], overlap)
    ensures Flatten(novel') == Flatten(novel) + Ink(sentence[r..max], blank)
  {
    var rep, x := Ink(sentence[..r], blank), Ink(sentence[r..max], blank);
    WindowInk(sentence, r, step, max, blank);
    FlowWindow(kept, rep, x, novel, overlap, Ink(sentence[..step], blank), Ink(sentence[step..][..max - step], blank));
    novel' := NovelPushed(novel, rep + x, x);
  }

  lemma InkNothing<C>(blank: C -> bool)
    ensures Ink([], blank) == []
  {
  }

  /** One window of the inner loop. */
  lemma WindowKeeps<C(!new)>(pieces: seq<seq<C>>, sentence: seq<C>, r: nat, k: Config<C>, novel: seq<seq<C>>)
    returns (novel': seq<seq<C>>)
    requires k.Proper() && 1 <= k.maxChars < |sentence| && Sane(Split(pieces, []), sentence, r, k, novel, [])
    ensures Sane(Split(pieces + [k.strip(sentence[..k.maxChars])], []), sentence[k.Step()..],
                 k.maxChars - k.Step(), k, novel', [])
    ensures Flatten(novel') == Flatten(novel) + Ink(sentence[r..k.maxChars], k.blank)
  {
    InkNothing(k.blank);
    KeptSnoc(pieces, sentence[..k.maxChars], k);
    novel' := WindowFlow(Kept(pieces, k.blank), sentence, r, k.Step(), k.maxChars, k.overlap, k.blank, novel,
                         Kept(pieces + [k.strip(sentence[..k.maxChars])], k.blank));
  }

  /** A window read as repeat plus new material, and as what comes before the overlap plus the overlap. */
  lemma WindowInk<C>(sentence: seq<C>, r: nat, step: nat, max: nat, blank: C -> bool)
    requires r <= max <= |sentence| && step <= max
    ensures Ink(sentence[..max], blank) == Ink(sentence[..r], blank) + Ink(sentence[r..max], blank)
    ensures Ink(sentence[..max], blank) == Ink(sentence[..step], blank) + Ink(sentence[step..][..max - step], blank)
  {
    InkCut(sentence[..max], r, blank);
    assert sentence[..max][..r] == sentence[..r] && sentence[..max][r..] == sentence[r..max];
    InkCut(sentence[..max], step, blank);
    assert sentence[..max][..step] == sentence[..step] && sentence[..max][step..] == sentence[step..][..max - step];
  }

  lemma RestOfSentence<C>(sentence: seq<C>, r: nat, step: nat, max: nat, blank: C -> bool)
    requires r <= max <= |sentence| && step <= max
    ensures Ink(sentence[r..], blank) == Ink(sentence[r..max], blank) + Ink(sentence[step..][max - step..], blank)
  {
    InkCut(sentence[r..], max - r, blank);
    assert sentence[r..][..max - r] == sentence[r..max] && sentence[r..][max - r..] == sentence[step..][max - step..];
  }

  lemma AddsUp<C>(before: seq<C>, x: seq<C>, left: seq<C>, after: seq<C>, v: seq<C>, total: seq<C>)
    requires after == before + x && v == x + left && before + v == total
    ensures after + left == total
  {
  }

  lemma {:induction false} WindowsKeep<C(!new)>(pieces: seq<seq<C>>, sentence: seq<C>, r: nat, k: Config<C>,
                                                novel: seq<seq<C>>, total: seq<C>)
    returns (r': nat, novel': seq<seq<C>>)
    requires k.Proper() && k.maxChars >= 1 && Sane(Split(pieces, []), sentence, r, k, novel, [])
    requires Flatten(novel) + Ink(sentence[r..], k.blank) == total
    ensures var (st', rest) := CutLong(Split(pieces, []), sentence, k);
            Sane(st', rest, r', k, novel', []) && Flatten(novel') + Ink(rest[r'..], k.blank) == total
    decreases |sentence|
  {
    if |sentence| <= k.maxChars {
      return r, novel;
    }
    var step, max := k.Step(), k.maxChars;
    var novel1 := WindowKeeps(pieces, sentence, r, k, novel);
    RestOfSentence(sentence, r, step, max, k.blank);
    AddsUp(Flatten(novel), Ink(sentence[r..max], k.blank), Ink(sentence[step..][max - step..], k.blank),
             Flatten(novel1), Ink(sentence[r..], k.blank), total);
    r', novel' := WindowsKeep(pieces + [k.strip(sentence[..max])], sentence[step..], max - step, k, novel1, total);
  }

  lemma CutLongFromEmpty<C(!new)>(st: Split<C>, sentence: seq<C>, k: Config<C>)
    requires |sentence| > k.maxChars
    ensures EmitAny(st, k).current == [] && CutLong(st, sentence, k) == CutLong(EmitAny(st, k), sentence, k)
  {
  }

  /** The whole inner loop. */
  lemma CutLongKeeps<C(!new)>(st: Split<C>, sentence: seq<C>, k: Config<C>, novel: seq<seq<C>>, f: seq<C>,
                              total: seq<C>)
    returns (r': nat, novel': seq<seq<C>>, f': seq<C>)
    requires k.Proper() && k.maxChars >= 1 && Sane(st, sentence, 0, k, novel, f)
    requires Flatten(novel) + f + Ink(sentence, k.blank) == total
    ensures var (st', rest) := CutLong(st, sentence, k);
            Sane(st', rest, r', k, novel', f') && Flatten(novel') + f' + Ink(rest[r'..], k.blank) == total
  {
    if |sentence| <= k.maxChars {
      assert sentence[0..] == sentence;
      return 0, novel, f;
    }
    assert sentence[0..] == sentence;
    CutLongFromEmpty(st, sentence, k);
    var novel1 := EmitKeeps(st, sentence, 0, k, novel, f);
    assert EmitAny(st, k) == Split(EmitAny(st, k).pieces, []);
    f' := [];
    r', novel' := WindowsKeep(EmitAny(st, k).pieces, sentence, 0, k, novel1, total);
    NoTail(Flatten(novel'));
  }

  lemma ExtendsEmpty<C>(prev: seq<C>, overlap: nat)
    ensures Extends(prev, [], [], overlap)
  {
  }

  /** Carrying a tail over: it repeats the end of the piece just emitted. */
  lemma CarryKeeps<C(!new)>(pieces: seq<seq<C>>, current: seq<C>, tail: seq<C>, k: Config<C>, novel: seq<seq<C>>,
                            f: seq<C>)
    requires k.Proper() && Flow(Kept(pieces, k.blank), Ink(current, k.blank), [], novel, f, k.overlap)
    requires |tail| <= k.overlap && |tail| <= |current| && tail == current[|current| - |tail|..]
    ensures Flow(Kept(pieces + [k.strip(current)], k.blank), Ink(tail, k.blank), [],
                 NovelPushed(novel, Ink(current, k.blank), f), [], k.overlap)
    ensures Flatten(NovelPushed(novel, Ink(current, k.blank), f)) == Flatten(novel) + f
  {
    var cur, cut := Ink(current, k.blank), |current| - |tail|;
    InkCut(current, cut, k.blank);
    KeptSnoc(pieces, current, k);
    FlowPush(Kept(pieces, k.blank), cur, [], novel, f, k.overlap, Ink(current[..cut], k.blank), Ink(tail, k.blank));
    ExtendsEmpty(Last(Pushed(Kept(pieces, k.blank), cur)), k.overlap);
  }

  /** Making room for the rest of the sentence. */
  lemma MakeRoomKeeps<C(!new)>(st: Split<C>, rest: seq<C>, r: nat, k: Config<C>, novel: seq<seq<C>>, f: seq<C>)
    returns (novel': seq<seq<C>>, f': seq<C>)
    requires k.Proper() && Sane(st, rest, r, k, novel, f)
    ensures var roomy := MakeRoom(st, rest, k);
            && Flow(Kept(roomy.pieces, k.blank), Ink(roomy.current, k.blank), Ink(rest[..r], k.blank), novel',
                    f', k.overlap)
            && (roomy.current != [] ==> r == 0)
    ensures Flatten(novel') + f' == Flatten(novel) + f
  {
    if st.current != [] && |st.current| + |rest| + 1 > k.maxChars {
      assert rest[..r] == [];
      CarryKeeps(st.pieces, st.current, LastChars(st.current, k.overlap), k, novel, f);
      novel', f' := NovelPushed(novel, Ink(st.current, k.blank), f), [];
    } else {
      novel', f' := novel, f;
    }
  }

  lemma InkJoined<C(!new)>(a: seq<C>, b: seq<C>, k: Config<C>)
    requires k.Proper()
    ensures Ink(k.strip(a + [k.space] + b), k.blank) == Ink(a, k.blank) + Ink(b, k.blank)
  {
    assert Ink(k.strip(a + [k.space] + b), k.blank) == Ink(a + [k.space] + b, k.blank);
    InkAround(a, [k.space], b, k.blank);
  }

  /** Appending the rest of the sentence to the current piece. */
  lemma AppendKeeps<C(!new)>(st: Split<C>, rest: seq<C>, r: nat, k: Config<C>, novel: seq<seq<C>>, f: seq<C>)
    requires k.Proper() && r <= |rest| && (st.current != [] ==> r == 0)
    requires Flow(Kept(st.pieces, k.blank), Ink(st.current, k.blank), Ink(rest[..r], k.blank), novel, f, k.overlap)
    ensures Flow(Kept(st.pieces, k.blank), Ink(k.strip(st.current + [k.space] + rest), k.blank), [],
                 novel, f + Ink(rest[r..], k.blank), k.overlap)
  {
    var cur, rep, x := Ink(st.current, k.blank), Ink(rest[..r], k.blank), Ink(rest[r..], k.blank);
    InkJoined(st.current, rest, k);
    InkCut(rest, r, k.blank);
    FlowAppend(Kept(st.pieces, k.blank), cur, rep, x, novel, f, k.overlap);
  }

  /** One sentence of the outer loop. */
  lemma AddSentenceKeeps<C(!new)>(st: Split<C>, sentence: seq<C>, k: Config<C>, novel: seq<seq<C>>, f: seq<C>)
    returns (novel': seq<seq<C>>, f': seq<C>)
    requires k.maxChars >= 1 && k.Proper()
    requires Flow(Kept(st.pieces, k.blank), Ink(st.current, k.blank), [], novel, f, k.overlap)
    ensures var st' := AddSentence(st, sentence, k);
            Flow(Kept(st'.pieces, k.blank), Ink(st'.current, k.blank), [], novel', f', k.overlap)
    ensures Flatten(novel') + f' == Flatten(novel) + f + Ink(sentence, k.blank)
  {
    assert sentence[..0] == [];
    var r, novel1, f1 := CutLongKeeps(st, sentence, k, novel, f, Flatten(novel) + f + Ink(sentence, k.blank));
    var (cut, rest) := CutLong(st, sentence, k);
    var f2;
    novel', f2 := MakeRoomKeeps(cut, rest, r, k, novel1, f1);
    AppendKeeps(MakeRoom(cut, rest, k), rest, r, k, novel', f2);
    f' := f2 + Ink(rest[r..], k.blank);
    Assoc(Flatten(novel'), f2, Ink(rest[r..], k.blank));
  }

  lemma {:induction false} AddSentencesKeeps<C(!new)>(sentences: seq<seq<C>>, k: Config<C>)
    returns (novel: seq<seq<C>>, f: seq<C>)
    requires k.maxChars >= 1 && k.Proper()
    ensures var st := AddSentences(sentences, k);
            Flow(Kept(st.pieces, k.blank), Ink(st.current, k.blank), [], novel, f, k.overlap)
    ensures Flatten(novel) + f == Flatten(InkAll(sentences, k.blank))
  {
    if sentences == [] {
      return [], [];
    }
    var rest, last := sentences[..|sentences| - 1], sentences[|sentences| - 1];
    var novel1, f1 := AddSentencesKeeps(rest, k);
    novel, f := AddSentenceKeeps(AddSentences(rest, k), last, k, novel1, f1);
    InkAllSnoc(sentences, k.blank);
  }

  lemma FinishKeeps<C(!new)>(st: Split<C>, k: Config<C>, novel: seq<seq<C>>, f: seq<C>) returns (novel': seq<seq<C>>)
    requires k.Proper() && Flow(Kept(st.pieces, k.blank), Ink(st.current, k.blank), [], novel, f, k.overlap)
    ensures Chain(Kept(Finish(st, k), k.blank), novel', k.overlap)
    ensures Flatten(novel') == Flatten(novel) + f
  {
    var cur := Ink(st.current, k.blank);
    KeptSnoc(st.pieces, st.current, k);
    assert cur == cur + [];
    FlowPush(Kept(st.pieces, k.blank), cur, [], novel, f, k.overlap, cur, []);
    novel' := NovelPushed(novel, cur, f);
  }

  /** Nothing is lost or reordered: every piece is new text preceded by a repeat of at
      most `overlap` visible characters that end the piece before it, and the new
      parts together are the visible characters of the text, in order. */
  lemma HardSplitConserves<C(!new)>(text: seq<C>, k: Config<C>) returns (novel: seq<seq<C>>)
    requires k.Conserving() && k.maxChars >= 1
    ensures Chain(InkAll(HardSplitSpec(text, k), k.blank), novel, k.overlap)
    ensures Flatten(novel) == Ink(text, k.blank)
  {
    var novel1, f1 := AddSentencesKeeps(k.sentences(text), k);
    novel := FinishKeeps(AddSentences(k.sentences(text), k), k, novel1, f1);
  }

  // A budget of zero characters is the one setting that loses text.

  lemma {:induction false} ZeroBudgetWindows<C(!new)>(st: Split<C>, sentence: seq<C>, k: Config<C>)
    requires k.Proper() && k.maxChars == 0 && Filter(st.pieces, IsPiece) == [] && st.current == []
    ensures var (st', rest) := CutLong(st, sentence, k);
            Filter(st'.pieces, IsPiece) == [] && st'.current == [] && rest == []
    decreases |sentence|
  {
    if sentence != [] {
      var nothing := k.strip(sentence[..0]);
      assert |nothing| == 0;
      FilterConcat(st.pieces, [nothing], IsPiece);
      assert Filter([nothing], IsPiece) == [];
      ZeroBudgetWindows(Split(st.pieces + [nothing], []), sentence[k.Step()..], k);
    }
  }

  lemma {:induction false} ZeroBudgetEmits<C(!new)>(sentences: seq<seq<C>>, k: Config<C>)
    requires k.maxChars == 0 && k.Proper()
    ensures var st := AddSentences(sentences, k); Filter(st.pieces, IsPiece) == [] && st.current == []
  {
    if sentences != [] {
      var rest := sentences[..|sentences| - 1];
      ZeroBudgetEmits(rest, k);
      ZeroBudgetWindows(AddSentences(rest, k), sentences[|sentences| - 1], k);
      InkBlank([k.space], k.blank);
      assert [] + [k.space] + [] == [k.space];
      assert |k.strip([k.space])| == 0;
    }
  }

  lemma ZeroBudgetSplitsToNothing<C(!new)>(text: seq<C>, k: Config<C>)
    requires k.Proper() && k.maxChars == 0
    ensures HardSplitSpec(text, k) == []
  {
    ZeroBudgetEmits(k.sentences(text), k);
    assert |k.strip([])| == 0;
  }

  /** These pieces are new text, each preceded by an allowed repeat, and the new text is `ink`. */
  ghost predicate Accounts<C(!new)>(pieces: seq<seq<C>>, ink: seq<C>, overlap: nat, blank: C -> bool) {
    exists novel :: Chain(InkAll(pieces, blank), novel, overlap) && Flatten(novel) == ink
  }

  lemma NoPiecesAccountForNothing<C(!new)>(ink: seq<C>, overlap: nat, blank: C -> bool)
    ensures Accounts([], ink, overlap, blank) <==> ink == []
  {
    if ink == [] {
      assert Chain(InkAll([], blank), [], overlap) && Flatten<C>([]) == [];
    }
    forall novel | Chain(InkAll([], blank), novel, overlap) ensures Flatten(novel) == [] {
      assert novel == [];
    }
  }

  /** Conservation holds, whatever the overlap, if and only if the budget is at least one
      character or nothing was visible. */
  lemma HardSplitConservesIff<C(!new)>(text: seq<C>, k: Config<C>)
    requires k.Conserving()
    ensures Accounts(HardSplitSpec(text, k), Ink(text, k.blank), k.overlap, k.blank) <==>
              k.maxChars >= 1 || Ink(text, k.blank) == []
  {
    if k.maxChars >= 1 {
      var novel := HardSplitConserves(text, k);
    } else {
      ZeroBudgetSplitsToNothing(text, k);
      NoPiecesAccountForNothing(Ink(text, k.blank), k.overlap, k.blank);
    }
  }

  /** With no overlap the pieces hold exactly the visible characters of the text,
      if and only if the budget is at least one character or there were none. */
  lemma HardSplitWithoutOverlap(text: string, maxChars: nat)
    ensures Flatten(VisibleAll(HardSplitSpec(text, Prose(maxChars, 0)))) == Visible(text)
       <==> maxChars >= 1 || Visible(text) == ""
  {
    var k := Prose(maxChars, 0);
    ProseIsConserving(maxChars, 0);
    if maxChars >= 1 {
      var novel := HardSplitConserves(text, k);
      ChainWithoutOverlap(VisibleAll(HardSplitSpec(text, k)), novel);
    } else {
      ZeroBudgetSplitsToNothing(text, k);
      assert Flatten(VisibleAll([])) == "";
    }
  }

  // ------------------------------------------------------------ length bound

  /** The longest a piece can get. */
  function PieceLimit(maxChars: nat, overlap: nat): nat {
    if overlap == 0 then maxChars else maxChars + overlap + 1
  }

  predicate AllWithin<C>(pieces: seq<seq<C>>, limit: nat, blank: C -> bool) {
    forall i :: 0 <= i < |pieces| ==> |pieces[i]| <= limit && TrimmedBy(pieces[i], blank)
  }

  predicate Within<C>(st: Split<C>, limit: nat, blank: C -> bool) {
    AllWithin(st.pieces, limit, blank) && |st.current| <= limit
  }

  lemma {:induction false} CutLongWithin<C(!new)>(st: Split<C>, sentence: seq<C>, k: Config<C>, limit: nat)
    requires k.Proper() && Within(st, limit, k.blank) && k.maxChars <= limit
    ensures Within(CutLong(st, sentence, k).0, limit, k.blank)
    decreases |sentence|
  {
    if |sentence| > k.maxChars {
      CutLongWithin(Split(EmitAny(st, k).pieces + [k.strip(sentence[..k.maxChars])], []),
                    sentence[k.Step()..], k, limit);
    }
  }

  /** Room is made by carrying at most the overlap, or was there already. */
  lemma MakeRoomWithin<C(!new)>(st: Split<C>, rest: seq<C>, k: Config<C>)
    requires k.Proper() && Within(st, PieceLimit(k.maxChars, k.overlap), k.blank) && |rest| <= k.maxChars
    ensures AllWithin(MakeRoom(st, rest, k).pieces, PieceLimit(k.maxChars, k.overlap), k.blank)
    ensures var room := MakeRoom(st, rest, k).current;
            room != [] ==> |room| + 1 + |rest| <= PieceLimit(k.maxChars, k.overlap)
  {
  }

  lemma JoinedWithin<C(!new)>(current: seq<C>, rest: seq<C>, k: Config<C>, limit: nat)
    requires k.Proper() && |rest| <= limit && (current != [] ==> |current| + 1 + |rest| <= limit)
    ensures |k.strip(current + [k.space] + rest)| <= limit
  {
    if current == [] {
      assert current + [k.space] + rest == [k.space] + rest;
      assert k.strip([k.space] + rest) == k.strip(rest);
    }
  }

  lemma AddSentenceWithin<C(!new)>(st: Split<C>, sentence: seq<C>, k: Config<C>)
    requires k.Proper() && Within(st, PieceLimit(k.maxChars, k.overlap), k.blank)
    ensures Within(AddSentence(st, sentence, k), PieceLimit(k.maxChars, k.overlap), k.blank)
  {
    CutLongWithin(st, sentence, k, PieceLimit(k.maxChars, k.overlap));
    var (cut, rest) := CutLong(st, sentence, k);
    MakeRoomWithin(cut, rest, k);
    JoinedWithin(MakeRoom(cut, rest, k).current, rest, k, PieceLimit(k.maxChars, k.overlap));
  }

  lemma {:induction false} AddSentencesWithin<C(!new)>(sentences: seq<seq<C>>, k: Config<C>)
    requires k.Proper()
    ensures Within(AddSentences(sentences, k), PieceLimit(k.maxChars, k.overlap), k.blank)
  {
    if sentences != [] {
      AddSentencesWithin(sentences[..|sentences| - 1], k);
      AddSentenceWithin(AddSentences(sentences[..|sentences| - 1], k), sentences[|sentences| - 1], k);
    }
  }

  lemma {:induction false} FilterWithin<C(!new)>(pieces: seq<seq<C>>, limit: nat, blank: C -> bool)
    requires AllWithin(pieces, limit, blank)
    ensures AllWithin(Filter(pieces, IsPiece), limit, blank)
  {
    if pieces != [] { FilterWithin(pieces[1..], limit, blank); }
  }

  lemma FinishWithin<C(!new)>(st: Split<C>, k: Config<C>, limit: nat)
    requires k.Proper() && Within(st, limit, k.blank)
    ensures AllWithin(Finish(st, k), limit, k.blank)
  {
  }

  /** A piece is never padded, and exceeds the budget by at most the overlap and one
      joining space; with no overlap it keeps to the budget. */
  lemma HardSplitBounded<C(!new)>(text: seq<C>, k: Config<C>)
    requires k.Proper()
    ensures AllWithin(HardSplitSpec(text, k), PieceLimit(k.maxChars, k.overlap), k.blank)
  {
    AddSentencesWithin(k.sentences(text), k);
    FinishWithin(AddSentences(k.sentences(text), k), k, PieceLimit(k.maxChars, k.overlap));
    FilterWithin(Finish(AddSentences(k.sentences(text), k), k), PieceLimit(k.maxChars, k.overlap), k.blank);
  }

  lemma HardSplitPiecesNonEmpty<C(!new)>(text: seq<C>, k: Config<C>)
    ensures forall p :: p in HardSplitSpec(text, k) ==> IsPiece(p)
  {
    FilterMembers(Finish(AddSentences(k.sentences(text), k), k), IsPiece);
  }
}
