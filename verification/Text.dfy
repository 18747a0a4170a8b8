/** Helpers shared by the text-handling components: Python's whitespace set,
    `strip`, `join`, and the visible (non-whitespace) characters of a text, in
    terms of which conservation results are stated. What does not depend on
    characters is stated for any sequence and any notion of blank. */
module Text {
  import opened Sequences

  /** Python's `str.isspace`, which both `strip()` and the regex class `\s` use. */
  predicate IsSpace(c: char) {
    || '\U{09}' <= c <= '\U{0D}' || '\U{1C}' <= c <= '\U{20}' || c == '\U{85}' || c == '\U{A0}'
    || c == '\U{1680}' || '\U{2000}' <= c <= '\U{200A}' || c == '\U{2028}' || c == '\U{2029}'
    || c == '\U{202F}' || c == '\U{205F}' || c == '\U{3000}'
  }

  // ---------------------------------------------------------------- stripping

  function LStripBy<C>(s: seq<C>, drop: C -> bool): (r: seq<C>)
    ensures |r| <= |s| && r == s[|s| - |r|..]
    ensures r != [] ==> !drop(r[0])
    ensures forall i :: 0 <= i < |s| - |r| ==> drop(s[i])
  {
    if s != [] && drop(s[0]) then LStripBy(s[1..], drop) else s
  }

  function RStripBy<C>(s: seq<C>, drop: C -> bool): (r: seq<C>)
    ensures |r| <= |s| && r == s[..|r|]
    ensures r != [] ==> !drop(r[|r| - 1])
    ensures forall i :: |r| <= i < |s| ==> drop(s[i])
  {
    if s != [] && drop(s[|s| - 1]) then RStripBy(s[..|s| - 1], drop) else s
  }

  function StripBy<C>(s: seq<C>, drop: C -> bool): (r: seq<C>)
    ensures |r| <= |s|
  {
    RStripBy(LStripBy(s, drop), drop)
  }

  function Strip(s: string): (r: string) {
    StripBy(s, IsSpace)
  }

  /** A text that stripping leaves alone. */
  predicate TrimmedBy<C>(s: seq<C>, drop: C -> bool) {
    s != [] ==> !drop(s[0]) && !drop(s[|s| - 1])
  }

  lemma StripByTrims<C>(s: seq<C>, drop: C -> bool)
    ensures TrimmedBy(StripBy(s, drop), drop)
    ensures |StripBy(s, drop)| <= |s|
    ensures TrimmedBy(s, drop) ==> StripBy(s, drop) == s
  {
    var l := LStripBy(s, drop);
    var r := RStripBy(l, drop);
    if r != [] { assert r[0] == l[0]; }
  }

  /** What stripping removes is a run of dropped characters on each side. */
  lemma StripByCut<C>(s: seq<C>, drop: C -> bool) returns (a: nat, b: nat)
    ensures a <= b <= |s| && StripBy(s, drop) == s[a..b]
    ensures forall i :: 0 <= i < a || b <= i < |s| ==> drop(s[i])
  {
    var l := LStripBy(s, drop);
    var r := RStripBy(l, drop);
    a := |s| - |l|;
    b := a + |r|;
    forall i | b <= i < |s| ensures drop(s[i]) { assert s[i] == l[i - a]; }
  }

  lemma StripAfterBlank<C>(s: seq<C>, c: C, drop: C -> bool)
    requires drop(c)
    ensures LStripBy([c] + s, drop) == LStripBy(s, drop) && StripBy([c] + s, drop) == StripBy(s, drop)
  {
    assert ([c] + s)[1..] == s;
  }

  // -------------------------------------------------------------- lower case

  predicate IsUpper(c: char) { 'A' <= c <= 'Z' }

  /** `str.lower`, on the ASCII letters. */
  function LowerChar(c: char): (r: char) {
    if IsUpper(c) then (c as int + 32) as char else c
  }

  function Lower(s: string): (r: string)
    ensures |r| == |s|
  {
    seq(|s|, i requires 0 <= i < |s| => LowerChar(s[i]))
  }

  predicate IsLowered(s: string) {
    forall c :: c in s ==> !IsUpper(c)
  }

  lemma LoweredStays(s: string)
    requires IsLowered(s)
    ensures Lower(s) == s
  {
  }

  // ------------------------------------------------- what is not blank in a text

  /** The items of a sequence that are not blank, in order. */
  function Ink<C>(s: seq<C>, blank: C -> bool): (r: seq<C>)
    ensures |r| <= |s|
  {
    if s == [] then [] else if blank(s[0]) then Ink(s[1..], blank) else [s[0]] + Ink(s[1..], blank)
  }

  lemma {:induction false} InkConcat<C>(a: seq<C>, b: seq<C>, blank: C -> bool)
    ensures Ink(a + b, blank) == Ink(a, blank) + Ink(b, blank)
  {
    if a == [] {
      assert a + b == b;
    } else {
      InkConcat(a[1..], b, blank);
      HeadOfConcat(a, b);
      ConsConcat(a[0], Ink(a[1..], blank), Ink(b, blank));
    }
  }

  lemma {:induction false} InkBlank<C>(s: seq<C>, blank: C -> bool)
    requires forall i :: 0 <= i < |s| ==> blank(s[i])
    ensures Ink(s, blank) == []
  {
    if s != [] { InkBlank(s[1..], blank); }
  }

  lemma InkCut<C>(s: seq<C>, j: nat, blank: C -> bool)
    requires j <= |s|
    ensures Ink(s, blank) == Ink(s[..j], blank) + Ink(s[j..], blank)
  {
    InkConcat(s[..j], s[j..], blank);
    Halves(s, j);
  }

  lemma InkSlice<C>(s: seq<C>, a: nat, b: nat, c: nat, blank: C -> bool)
    requires a <= b <= c <= |s|
    ensures Ink(s[a..c], blank) == Ink(s[a..b], blank) + Ink(s[b..c], blank)
  {
    InkConcat(s[a..b], s[b..c], blank);
    SliceHalves(s, a, b, c);
  }

  lemma InkDropBlank<C>(s: seq<C>, j: nat, blank: C -> bool)
    requires j <= |s| && forall k :: 0 <= k < j ==> blank(s[k])
    ensures Ink(s, blank) == Ink(s[j..], blank)
  {
    InkCut(s, j, blank);
    InkBlank(s[..j], blank);
  }

  /** A blank stretch can be cut out. */
  lemma InkGap<C>(s: seq<C>, i: nat, j: nat, blank: C -> bool)
    requires i <= j <= |s| && forall k :: i <= k < j ==> blank(s[k])
    ensures Ink(s, blank) == Ink(s[..i], blank) + Ink(s[j..], blank)
  {
    InkCut(s, j, blank);
    InkPrefix(s[..j], i, blank);
    assert s[..j][..i] == s[..i];
  }

  lemma InkAround<C>(a: seq<C>, gap: seq<C>, b: seq<C>, blank: C -> bool)
    requires forall i :: 0 <= i < |gap| ==> blank(gap[i])
    ensures Ink(a + gap + b, blank) == Ink(a, blank) + Ink(b, blank)
  {
    InkConcat(a + gap, b, blank);
    InkConcat(a, gap, blank);
    InkBlank(gap, blank);
    NoTail(Ink(a, blank));
  }

  lemma InkPrefix<C>(s: seq<C>, b: nat, blank: C -> bool)
    requires b <= |s| && forall i :: b <= i < |s| ==> blank(s[i])
    ensures Ink(s[..b], blank) == Ink(s, blank)
  {
    InkCut(s, b, blank);
    InkBlank(s[b..], blank);
  }

  /** Stripping loses nothing but blanks, and leaves nothing only of a blank text. */
  lemma InkStrip<C>(s: seq<C>, blank: C -> bool)
    ensures Ink(StripBy(s, blank), blank) == Ink(s, blank)
    ensures StripBy(s, blank) == [] <==> Ink(s, blank) == []
  {
    var l := LStripBy(s, blank);
    var r := RStripBy(l, blank);
    InkDropBlank(s, |s| - |l|, blank);
    InkPrefix(l, |r|, blank);
    StripByTrims(s, blank);
  }

  /** The ink of each part in turn. */
  function InkAll<C>(parts: seq<seq<C>>, blank: C -> bool): (r: seq<seq<C>>)
    ensures |r| == |parts|
    ensures forall i :: 0 <= i < |r| ==> r[i] == Ink(parts[i], blank)
  {
    seq(|parts|, i requires 0 <= i < |parts| => Ink(parts[i], blank))
  }

  lemma InkAllConcat<C>(a: seq<seq<C>>, b: seq<seq<C>>, blank: C -> bool)
    ensures InkAll(a + b, blank) == InkAll(a, blank) + InkAll(b, blank)
  {
  }

  // ----------------------------------------------------------------- flattening

  function Flatten<C>(parts: seq<seq<C>>): (r: seq<C>) {
    if parts == [] then [] else parts[0] + Flatten(parts[1..])
  }

  lemma {:induction false} FlattenConcat<C>(a: seq<seq<C>>, b: seq<seq<C>>)
    ensures Flatten(a + b) == Flatten(a) + Flatten(b)
  {
    if a == [] {
      assert a + b == b;
    } else {
      FlattenConcat(a[1..], b);
      HeadOfConcat(a, b);
      Assoc(a[0], Flatten(a[1..]), Flatten(b));
    }
  }

  lemma FlattenSnoc<C>(a: seq<seq<C>>, x: seq<C>)
    ensures Flatten(a + [x]) == Flatten(a) + x
  {
    FlattenConcat(a, [x]);
  }

  lemma InkAllCons<C>(x: seq<C>, rest: seq<seq<C>>, blank: C -> bool)
    ensures Flatten(InkAll([x] + rest, blank)) == Ink(x, blank) + Flatten(InkAll(rest, blank))
  {
    assert InkAll([x] + rest, blank)[1..] == InkAll(rest, blank);
  }

  lemma InkAllMore<C>(parts: seq<seq<C>>, x: seq<C>, blank: C -> bool)
    ensures InkAll(parts + [x], blank) == InkAll(parts, blank) + [Ink(x, blank)]
  {
  }

  lemma InkAllSnoc<C>(parts: seq<seq<C>>, blank: C -> bool)
    requires parts != []
    ensures Flatten(InkAll(parts, blank)) ==
              Flatten(InkAll(parts[..|parts| - 1], blank)) + Ink(parts[|parts| - 1], blank)
  {
    var rest, last := parts[..|parts| - 1], parts[|parts| - 1];
    assert parts == rest + [last];
    InkAllMore(rest, last, blank);
    FlattenSnoc(InkAll(rest, blank), Ink(last, blank));
  }

  /** The non-whitespace characters of a text, in order. */
  function Visible(s: string): string {
    Ink(s, IsSpace)
  }

  function VisibleAll(parts: seq<string>): seq<string> {
    InkAll(parts, IsSpace)
  }

  /** `sep.join(parts)`. */
  function Join<C>(sep: seq<C>, parts: seq<seq<C>>): (r: seq<C>) {
    if parts == [] then [] else if |parts| == 1 then parts[0] else parts[0] + sep + Join(sep, parts[1..])
  }

  // ------------------------------------------------------------- token estimates

  const CHARS_PER_TOKEN: nat := 4

  function EstimateTokens<C>(text: seq<C>): (n: nat)
    ensures n >= 1
  {
    if |text| / CHARS_PER_TOKEN > 1 then |text| / CHARS_PER_TOKEN else 1
  }
}
