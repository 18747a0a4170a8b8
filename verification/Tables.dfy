/** Tables rendered as Markdown, and read back (backend/app/ingestion/assets.py,
    `_clean` and `_cells_to_markdown`; compare section 4.10 of the GitHub Flavored
    Markdown Spec). What does not depend on particular characters is stated for any
    characters that play the parts of the pipe, the backslash and so on. */
module Tables {
  import opened Options
  import opened Text

  datatype Marks<C> = Marks(pipe: C, escape: C, space: C, newline: C, rule: seq<C>)

  const MARKDOWN: Marks<char> := Marks('|', '\\', ' ', '\n', "---")

  /** The parts are played by different characters. */
  predicate Proper<C(==)>(k: Marks<C>) {
    && k.pipe != k.escape && k.pipe != k.space && k.escape != k.space
    && k.newline != k.pipe && k.newline != k.escape && k.newline != k.space && k.newline !in k.rule
  }

  // --------------------------------------------------------------------- cells

  /** Every run of blanks becomes one space. */
  function Collapsed<C>(s: seq<C>, blank: C -> bool, space: C): seq<C>
    decreases |s|
  {
    if s == [] then []
    else if blank(s[0]) then [space] + Collapsed(LStripBy(s[1..], blank), blank, space)
    else [s[0]] + Collapsed(s[1..], blank, space)
  }

  function CleanBy<C>(s: seq<C>, blank: C -> bool, space: C): seq<C> {
    StripBy(Collapsed(s, blank, space), blank)
  }

  function Clean(text: string): string {
    CleanBy(text, IsSpace, ' ')
  }

  /** The only blank in it is the space. */
  predicate OneLine<C(==)>(s: seq<C>, blank: C -> bool, space: C) {
    forall i :: 0 <= i < |s| ==> blank(s[i]) ==> s[i] == space
  }

  lemma {:induction false} CollapsedIs<C(!new)>(s: seq<C>, blank: C -> bool, space: C)
    requires blank(space)
    ensures OneLine(Collapsed(s, blank, space), blank, space)
    ensures Ink(Collapsed(s, blank, space), blank) == Ink(s, blank)
    decreases |s|
  {
    if s != [] {
      if blank(s[0]) {
        var rest := LStripBy(s[1..], blank);
        CollapsedIs(rest, blank, space);
        InkDropBlank(s[1..], |s[1..]| - |rest|, blank);
        InkCons(space, Collapsed(rest, blank, space), blank);
      } else {
        CollapsedIs(s[1..], blank, space);
        InkCons(s[0], Collapsed(s[1..], blank, space), blank);
      }
    }
  }

  lemma InkCons<C>(c: C, s: seq<C>, blank: C -> bool)
    ensures Ink([c] + s, blank) == if blank(c) then Ink(s, blank) else [c] + Ink(s, blank)
  {
    assert ([c] + s)[1..] == s;
  }

  /** A cleaned cell is stripped, has no blank but spaces, and has lost nothing else. */
  lemma CleanIs<C(!new)>(s: seq<C>, blank: C -> bool, space: C)
    requires blank(space)
    ensures OneLine(CleanBy(s, blank, space), blank, space) && TrimmedBy(CleanBy(s, blank, space), blank)
    ensures Ink(CleanBy(s, blank, space), blank) == Ink(s, blank)
  {
    var c := Collapsed(s, blank, space);
    CollapsedIs(s, blank, space);
    InkStrip(c, blank);
    StripByTrims(c, blank);
    var a, b := StripByCut(c, blank);
  }

  /** `cell.replace("|", "\\|")`. */
  function Escaped<C(==)>(s: seq<C>, k: Marks<C>): seq<C> {
    if s == [] then [] else (if s[0] == k.pipe then [k.escape, k.pipe] else [s[0]]) + Escaped(s[1..], k)
  }

  /** Reading: a backslash before a pipe goes away. */
  function Unescaped<C(==)>(s: seq<C>, k: Marks<C>): seq<C> {
    if s == [] then []
    else if |s| >= 2 && s[0] == k.escape && s[1] == k.pipe then [k.pipe] + Unescaped(s[2..], k)
    else [s[0]] + Unescaped(s[1..], k)
  }

  lemma {:induction false} UnescapeEscaped<C>(s: seq<C>, k: Marks<C>)
    requires Proper(k)
    ensures Unescaped(Escaped(s, k), k) == s
    ensures s != [] ==> Escaped(s, k) != [] && Escaped(s, k)[0] != k.pipe
  {
    if s != [] {
      var rest := Escaped(s[1..], k);
      UnescapeEscaped(s[1..], k);
      if s[0] == k.pipe {
        assert ([k.escape, k.pipe] + rest)[2..] == rest;
      } else {
        assert ([s[0]] + rest)[1..] == rest;
      }
    }
  }

  // ---------------------------------------------------------------------- rows

  function EscapedAll<C(==)>(cells: seq<seq<C>>, k: Marks<C>): (r: seq<seq<C>>)
    ensures |r| == |cells|
  {
    seq(|cells|, i requires 0 <= i < |cells| => Escaped(cells[i], k))
  }

  function Bordered<C>(cells: seq<seq<C>>, k: Marks<C>): seq<C> {
    [k.pipe, k.space] + Join([k.space, k.pipe, k.space], cells) + [k.space, k.pipe]
  }

  function RenderRow<C(==)>(cells: seq<seq<C>>, k: Marks<C>): seq<C> {
    Bordered(EscapedAll(cells, k), k)
  }

  /** The pieces of a line between its bare pipes, those not preceded by a backslash;
      `escaped` tells whether a backslash precedes the line. */
  function Pieces<C(==)>(s: seq<C>, escaped: bool, k: Marks<C>): (r: seq<seq<C>>)
    ensures |r| > 0
  {
    if s == [] then [[]]
    else if s[0] == k.pipe && !escaped then [[]] + Pieces(s[1..], false, k)
    else
      var rest := Pieces(s[1..], s[0] == k.escape, k);
      [[s[0]] + rest[0]] + rest[1..]
  }

  /** No bare pipe in it, and no backslash at its end. */
  predicate Solid<C(==)>(s: seq<C>, escaped: bool, k: Marks<C>) {
    if s == [] then !escaped
    else (s[0] == k.pipe ==> escaped) && Solid(s[1..], s[0] == k.escape, k)
  }

  lemma {:induction false} SolidPiece<C>(s: seq<C>, escaped: bool, rest: seq<C>, k: Marks<C>)
    requires Proper(k) && Solid(s, escaped, k)
    ensures Pieces(s + [k.pipe] + rest, escaped, k) == [s] + Pieces(rest, false, k)
  {
    var line := s + [k.pipe] + rest;
    if s == [] {
      assert line == [k.pipe] + rest && line[1..] == rest;
    } else {
      assert line[1..] == s[1..] + [k.pipe] + rest;
      SolidPiece(s[1..], s[0] == k.escape, rest, k);
      var pieces := Pieces(line[1..], s[0] == k.escape, k);
      assert pieces[0] == s[1..] && pieces[1..] == Pieces(rest, false, k);
      assert [s[0]] + s[1..] == s;
    }
  }

  /** An escaped cell followed by a space has no bare pipe. */
  lemma {:induction false} EscapedIsSolid<C>(s: seq<C>, escaped: bool, k: Marks<C>)
    requires Proper(k)
    ensures Solid(Escaped(s, k) + [k.space], escaped, k)
  {
    var e := Escaped(s, k) + [k.space];
    if s == [] {
      assert e == [k.space] && e[1..] == [];
    } else {
      var rest := Escaped(s[1..], k) + [k.space];
      if s[0] == k.pipe {
        assert e == [k.escape, k.pipe] + rest && e[1..] == [k.pipe] + rest && e[1..][1..] == rest;
        EscapedIsSolid(s[1..], false, k);
      } else {
        assert e == [s[0]] + rest && e[1..] == rest;
        EscapedIsSolid(s[1..], s[0] == k.escape, k);
      }
    }
  }

  /** A cell as it stands in its line. */
  function Framed<C(==)>(cell: seq<C>, k: Marks<C>): seq<C> {
    [k.space] + Escaped(cell, k) + [k.space]
  }

  /** A line after its first pipe: each cell framed and followed by a pipe. */
  function AfterPipe<C(==)>(cells: seq<seq<C>>, k: Marks<C>): seq<C> {
    if cells == [] then [] else Framed(cells[0], k) + [k.pipe] + AfterPipe(cells[1..], k)
  }

  lemma {:induction false} RowIsFramed<C>(cells: seq<seq<C>>, k: Marks<C>)
    requires cells != []
    ensures [k.space] + Join([k.space, k.pipe, k.space], EscapedAll(cells, k)) + [k.space, k.pipe] ==
              AfterPipe(cells, k)
  {
    var e, sep := EscapedAll(cells, k), [k.space, k.pipe, k.space];
    if |cells| == 1 {
      assert AfterPipe(cells[1..], k) == [];
      assert Framed(cells[0], k) + [k.pipe] + [] == [k.space] + e[0] + [k.space, k.pipe];
    } else {
      RowIsFramed(cells[1..], k);
      assert e[1..] == EscapedAll(cells[1..], k);
      var tail := Join(sep, e[1..]);
      assert [k.space] + (e[0] + sep + tail) + [k.space, k.pipe]
          == Framed(cells[0], k) + [k.pipe] + ([k.space] + tail + [k.space, k.pipe]);
    }
  }

  function FramedAll<C(==)>(cells: seq<seq<C>>, k: Marks<C>): (r: seq<seq<C>>)
    ensures |r| == |cells| && forall i :: 0 <= i < |r| ==> r[i] == Framed(cells[i], k)
  {
    seq(|cells|, i requires 0 <= i < |cells| => Framed(cells[i], k))
  }

  lemma {:induction false} PiecesOfRow<C>(cells: seq<seq<C>>, k: Marks<C>)
    requires Proper(k)
    ensures Pieces(AfterPipe(cells, k), false, k) == FramedAll(cells, k) + [[]]
  {
    if cells != [] {
      var framed := Framed(cells[0], k);
      EscapedIsSolid(cells[0], false, k);
      assert framed[1..] == Escaped(cells[0], k) + [k.space];
      SolidPiece(framed, false, AfterPipe(cells[1..], k), k);
      PiecesOfRow(cells[1..], k);
      assert FramedAll(cells, k) == [framed] + FramedAll(cells[1..], k);
    }
  }

  /** One space off each side, then the escapes. */
  function ReadCell<C(==)>(piece: seq<C>, k: Marks<C>): seq<C> {
    Unescaped(if |piece| >= 2 then piece[1..|piece| - 1] else [], k)
  }

  /** The cells of a line: what lies between its bare pipes. */
  function ReadRow<C(==)>(line: seq<C>, k: Marks<C>): seq<seq<C>> {
    var pieces := Pieces(line, false, k);
    seq(if |pieces| >= 2 then |pieces| - 2 else 0, i requires 0 <= i < |pieces| - 2 => ReadCell(pieces[i + 1], k))
  }

  lemma ReadFramed<C>(cell: seq<C>, k: Marks<C>)
    requires Proper(k)
    ensures ReadCell(Framed(cell, k), k) == cell
  {
    UnescapeEscaped(cell, k);
    assert Framed(cell, k)[1..|Framed(cell, k)| - 1] == Escaped(cell, k);
  }

  /** A row is read back as it was, whatever pipes and backslashes its cells contain. */
  lemma RowRoundTrip<C>(cells: seq<seq<C>>, k: Marks<C>)
    requires Proper(k) && cells != []
    ensures ReadRow(RenderRow(cells, k), k) == cells
  {
    RowIsFramed(cells, k);
    assert RenderRow(cells, k) == [k.pipe] + AfterPipe(cells, k);
    PiecesOfRow(cells, k);
    var pieces := Pieces(RenderRow(cells, k), false, k);
    assert pieces == [[]] + (FramedAll(cells, k) + [[]]);
    forall i | 0 <= i < |cells| ensures ReadCell(pieces[i + 1], k) == cells[i] {
      assert pieces[i + 1] == FramedAll(cells, k)[i];
      ReadFramed(cells[i], k);
    }
  }

  // -------------------------------------------------------------------- tables

  function Width<C>(rows: seq<seq<C>>): (w: nat)
    ensures forall i :: 0 <= i < |rows| ==> |rows[i]| <= w
    ensures w > 0 <==> exists i :: 0 <= i < |rows| && |rows[i]| > 0
  {
    if rows == [] then 0
    else
      var rest := Width(rows[1..]);
      assert forall i :: 0 < i < |rows| ==> rows[i] == rows[1..][i - 1];
      if |rows[0]| > rest then |rows[0]| else rest
  }

  /** Cells cleaned, a missing one empty, the row padded with empty cells. */
  function PadRow<A, C>(row: seq<A>, clean: A -> seq<C>, width: nat): (r: seq<seq<C>>)
    requires |row| <= width
    ensures |r| == width
  {
    seq(width, i requires 0 <= i < width => if i < |row| then clean(row[i]) else [])
  }

  function Padded<A, C>(rows: seq<seq<A>>, clean: A -> seq<C>): (r: seq<seq<seq<C>>>)
    ensures |r| == |rows|
    ensures forall i :: 0 <= i < |r| ==> |r[i]| == Width(rows) && r[i] == PadRow(rows[i], clean, Width(rows))
  {
    seq(|rows|, i requires 0 <= i < |rows| => PadRow(rows[i], clean, Width(rows)))
  }

  function RuleRow<C>(width: nat, k: Marks<C>): seq<C> {
    Bordered(seq(width, _ => k.rule), k)
  }

  function RenderRows<C(==)>(rows: seq<seq<seq<C>>>, k: Marks<C>): (r: seq<seq<C>>)
    ensures |r| == |rows| && forall i :: 0 <= i < |r| ==> r[i] == RenderRow(rows[i], k)
  {
    seq(|rows|, i requires 0 <= i < |rows| => RenderRow(rows[i], k))
  }

  /** Header, rule, body. */
  function TableLines<C(==)>(table: seq<seq<seq<C>>>, width: nat, k: Marks<C>): seq<seq<C>>
    requires table != []
  {
    [RenderRow(table[0], k), RuleRow(width, k)] + RenderRows(table[1..], k)
  }

  function Render<A, C(==)>(rows: seq<seq<A>>, clean: A -> seq<C>, k: Marks<C>): seq<C> {
    if rows == [] || Width(rows) == 0 then []
    else Join([k.newline], TableLines(Padded(rows, clean), Width(rows), k))
  }

  method CellsToMarkdown<A, C(==)>(rows: seq<seq<A>>, clean: A -> seq<C>, k: Marks<C>) returns (markdown: seq<C>)
    ensures markdown == Render(rows, clean, k)
  {
    if rows == [] { return []; }
    var width := Width(rows);
    if width == 0 { return []; }
    var normalized := Padded(rows, clean);
    var lines := [RenderRow(normalized[0], k), RuleRow(width, k)];
    var body := normalized[1..];
    for i := 0 to |body|
      invariant lines == [RenderRow(normalized[0], k), RuleRow(width, k)] + RenderRows(body[..i], k)
    {
      assert RenderRows(body[..i + 1], k) == RenderRows(body[..i], k) + [RenderRow(body[i], k)];
      lines := lines + [RenderRow(body[i], k)];
    }
    assert body[..|body|] == body;
    return Join([k.newline], lines);
  }

  /** `text.split("\n")`. */
  function SplitLines<C(==)>(s: seq<C>, newline: C): (r: seq<seq<C>>)
    ensures |r| > 0
  {
    if s == [] then [[]]
    else if s[0] == newline then [[]] + SplitLines(s[1..], newline)
    else
      var rest := SplitLines(s[1..], newline);
      [[s[0]] + rest[0]] + rest[1..]
  }

  /** A line on its own. */
  predicate Flat<C(==)>(line: seq<C>, newline: C) {
    newline !in line
  }

  lemma {:induction false} SplitOne<C>(line: seq<C>, rest: seq<C>, newline: C)
    requires newline !in line
    ensures SplitLines(line + [newline] + rest, newline) == [line] + SplitLines(rest, newline)
    ensures SplitLines(line, newline) == [line]
  {
    var s := line + [newline] + rest;
    if line == [] {
      assert s == [newline] + rest && s[1..] == rest;
    } else {
      assert s[1..] == line[1..] + [newline] + rest;
      SplitOne(line[1..], rest, newline);
      assert [line[0]] + line[1..] == line;
    }
  }

  lemma SplitNext<C>(line: seq<C>, lines: seq<seq<C>>, newline: C)
    requires Flat(line, newline) && lines != [] && SplitLines(Join([newline], lines), newline) == lines
    ensures SplitLines(Join([newline], [line] + lines), newline) == [line] + lines
  {
    assert ([line] + lines)[1..] == lines;
    SplitOne(line, Join([newline], lines), newline);
  }

  lemma {:induction false} SplitJoined<C>(lines: seq<seq<C>>, newline: C)
    requires lines != [] && forall i :: 0 <= i < |lines| ==> Flat(lines[i], newline)
    ensures SplitLines(Join([newline], lines), newline) == lines
  {
    if |lines| == 1 {
      SplitOne(lines[0], [], newline);
    } else {
      SplitJoined(lines[1..], newline);
      SplitNext(lines[0], lines[1..], newline);
      assert lines == [lines[0]] + lines[1..];
    }
  }

  /** Reading a table: its lines but the second, which is the rule. */
  function ReadLines<C(==)>(lines: seq<seq<C>>, k: Marks<C>): (r: seq<seq<seq<C>>>)
    requires |lines| >= 2
    ensures |r| == |lines| - 1
  {
    seq(|lines| - 1, i requires 0 <= i < |lines| - 1 => ReadRow(lines[if i == 0 then 0 else i + 1], k))
  }

  function ReadTable<C(==)>(markdown: seq<C>, k: Marks<C>): seq<seq<seq<C>>> {
    var lines := SplitLines(markdown, k.newline);
    if |lines| < 2 then [] else ReadLines(lines, k)
  }

  // ---------------------------------------------------------------- round trip

  lemma {:induction false} EscapedStaysOnLine<C>(s: seq<C>, k: Marks<C>)
    requires Proper(k) && k.newline !in s
    ensures k.newline !in Escaped(s, k)
  {
    if s != [] { EscapedStaysOnLine(s[1..], k); }
  }

  lemma {:induction false} JoinStaysOnLine<C>(sep: seq<C>, parts: seq<seq<C>>, newline: C)
    requires newline !in sep && forall i :: 0 <= i < |parts| ==> newline !in parts[i]
    ensures newline !in Join(sep, parts)
  {
    if |parts| > 1 { JoinStaysOnLine(sep, parts[1..], newline); }
  }

  lemma BorderedStaysOnLine<C>(cells: seq<seq<C>>, k: Marks<C>)
    requires Proper(k) && forall i :: 0 <= i < |cells| ==> k.newline !in cells[i]
    ensures k.newline !in Bordered(cells, k)
  {
    JoinStaysOnLine([k.space, k.pipe, k.space], cells, k.newline);
  }

  lemma RowStaysOnLine<C>(cells: seq<seq<C>>, k: Marks<C>)
    requires Proper(k) && forall i :: 0 <= i < |cells| ==> k.newline !in cells[i]
    ensures k.newline !in RenderRow(cells, k)
  {
    forall i | 0 <= i < |cells| ensures k.newline !in EscapedAll(cells, k)[i] { EscapedStaysOnLine(cells[i], k); }
    BorderedStaysOnLine(EscapedAll(cells, k), k);
  }

  lemma LinesReadBack<C>(table: seq<seq<seq<C>>>, width: nat, k: Marks<C>)
    requires Proper(k) && table != [] && width > 0 && forall i :: 0 <= i < |table| ==> |table[i]| == width
    ensures ReadLines(TableLines(table, width, k), k) == table
  {
    var lines := TableLines(table, width, k);
    forall i | 0 <= i < |table| ensures ReadLines(lines, k)[i] == table[i] {
      RowRoundTrip(table[i], k);
      assert i > 0 ==> lines[i + 1] == RenderRows(table[1..], k)[i - 1];
    }
  }

  /** Cleaning leaves no newline in any cell. */
  ghost predicate Cleans<A(!new), C>(clean: A -> seq<C>, k: Marks<C>) {
    forall a :: k.newline !in clean(a)
  }

  lemma PaddedOnOneLine<A(!new), C>(rows: seq<seq<A>>, clean: A -> seq<C>, k: Marks<C>, i: nat)
    requires Proper(k) && Cleans(clean, k) && i < |rows|
    ensures Flat(RenderRow(Padded(rows, clean)[i], k), k.newline)
  {
    var row := Padded(rows, clean)[i];
    forall j | 0 <= j < |row| ensures k.newline !in row[j] {
      assert j < |rows[i]| ==> k.newline !in clean(rows[i][j]);
    }
    RowStaysOnLine(row, k);
  }

  lemma TableLinesAreFlat<C>(table: seq<seq<seq<C>>>, width: nat, k: Marks<C>, i: nat)
    requires Proper(k) && table != [] && forall i :: 0 <= i < |table| ==> Flat(RenderRow(table[i], k), k.newline)
    requires i < |TableLines(table, width, k)|
    ensures Flat(TableLines(table, width, k)[i], k.newline)
  {
    BorderedStaysOnLine(seq(width, _ => k.rule), k);
    if i >= 2 { assert TableLines(table, width, k)[i] == RenderRow(table[i - 1], k); }
  }

  /** A table with a non-empty row is read back as its cleaned cells padded to the
      width, whatever pipes, backslashes and empty cells it has; one without renders
      to nothing and reads as no rows. */
  lemma TableRoundTrip<A(!new), C>(rows: seq<seq<A>>, clean: A -> seq<C>, k: Marks<C>)
    requires Proper(k) && Cleans(clean, k)
    ensures ReadTable(Render(rows, clean, k), k) == if Width(rows) > 0 then Padded(rows, clean) else []
  {
    if Width(rows) > 0 {
      var table, width := Padded(rows, clean), Width(rows);
      var lines := TableLines(table, width, k);
      forall i | 0 <= i < |table| ensures Flat(RenderRow(table[i], k), k.newline) {
        PaddedOnOneLine(rows, clean, k, i);
      }
      forall i | 0 <= i < |lines| ensures Flat(lines[i], k.newline) { TableLinesAreFlat(table, width, k, i); }
      SplitJoined(lines, k.newline);
      LinesReadBack(table, width, k);
    }
  }

  /** Rendering is injective on cleaned padded tables. */
  lemma RenderIsInjective<A(!new), C>(a: seq<seq<A>>, b: seq<seq<A>>, clean: A -> seq<C>, k: Marks<C>)
    requires Proper(k) && Cleans(clean, k) && Width(a) > 0 && Width(b) > 0
    ensures Render(a, clean, k) == Render(b, clean, k) <==> Padded(a, clean) == Padded(b, clean)
  {
    TableRoundTrip(a, clean, k);
    TableRoundTrip(b, clean, k);
    if Padded(a, clean) == Padded(b, clean) { SameWidth(a, b, clean); }
  }

  lemma SameWidth<A, C>(a: seq<seq<A>>, b: seq<seq<A>>, clean: A -> seq<C>)
    requires Width(a) > 0 && Width(b) > 0 && Padded(a, clean) == Padded(b, clean)
    ensures Width(a) == Width(b)
  {
    assert |Padded(a, clean)[0]| == Width(a) && |Padded(b, clean)[0]| == Width(b);
  }

  // ------------------------------------------------------ the table as extracted

  /** A cell may be missing. */
  function CleanCell(cell: Option<string>): string {
    if cell.Some? then Clean(cell.value) else Clean("")
  }

  lemma MarkdownIsProper()
    ensures Proper(MARKDOWN)
  {
  }

  lemma CleanedOnOneLine<C(!new)>(s: seq<C>, blank: C -> bool, space: C, newline: C)
    requires blank(space) && blank(newline) && newline != space
    ensures newline !in CleanBy(s, blank, space)
  {
    CleanIs(s, blank, space);
  }

  lemma CleanCellCleans()
    ensures Cleans(CleanCell, MARKDOWN)
  {
    forall cell: Option<string> ensures MARKDOWN.newline !in CleanCell(cell) {
      CleanedOnOneLine(if cell.Some? then cell.value else "", IsSpace, ' ', '\n');
    }
  }

  /** The rendered table of extracted cells is read back exactly. */
  lemma MarkdownRoundTrip(rows: seq<seq<Option<string>>>)
    requires Width(rows) > 0
    ensures ReadTable(Render(rows, CleanCell, MARKDOWN), MARKDOWN) == Padded(rows, CleanCell)
  {
    MarkdownIsProper();
    CleanCellCleans();
    TableRoundTrip(rows, CleanCell, MARKDOWN);
  }
}
