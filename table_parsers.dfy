/** The two Markdown table parsers of the report generator: the platform
    matrix and the severity table. Both read the non-blank lines of a
    section; a first line with a '|' is the header, and later lines are
    rows when they hold a '|' and no "---". */
module TableParsers {
  import opened Wrappers
  import opened Text
  import opened Json
  import OrderedDict
  import opened ReportSchema

  // ---------------------------------------------------------------------
  // Lines and cells
  // ---------------------------------------------------------------------

  /** `[x.strip() for x in xs if x.strip()]`. */
  function StrippedNonBlank(xs: seq<string>): (r: seq<string>)
    ensures |r| <= |xs|
  {
    if xs == [] then []
    else
      var n := |xs| - 1;
      StrippedNonBlank(xs[..n]) + (if Strip(xs[n]) != "" then [Strip(xs[n])] else [])
  }

  /** The stripped, non-blank lines of a section. */
  function NonBlankLines(text: string): seq<string> {
    StrippedNonBlank(SplitLines(text))
  }

  /** The stripped, non-empty cells of a table line. */
  function Cells(line: string): seq<string> {
    StrippedNonBlank(Split(line, "|"))
  }

  /** A body line the parsers read: it holds a '|' and no "---". */
  predicate TableLine(line: string) {
    Contains(line, "|") && !Contains(line, "---")
  }

  /** Every kept piece is non-empty and stripped. */
  lemma {:induction false} StrippedNonBlankSpec(xs: seq<string>, k: nat)
    requires k < |StrippedNonBlank(xs)|
    ensures StrippedNonBlank(xs)[k] != [] && Trimmed(StrippedNonBlank(xs)[k])
  {
    var n := |xs| - 1;
    if k < |StrippedNonBlank(xs[..n])| {
      StrippedNonBlankSpec(xs[..n], k);
    } else {
      StripSpec(xs[n]);
    }
  }

  lemma {:induction false} StrippedNonBlankAppend(a: seq<string>, b: seq<string>)
    ensures StrippedNonBlank(a + b) == StrippedNonBlank(a) + StrippedNonBlank(b)
    decreases |b|
  {
    if b == [] {
      assert a + b == a;
    } else {
      var n := |b| - 1;
      assert (a + b)[..|a + b| - 1] == a + b[..n];
      assert (a + b)[|a + b| - 1] == b[n];
      StrippedNonBlankAppend(a, b[..n]);
      var last := if Strip(b[n]) != "" then [Strip(b[n])] else [];
      AppendAssoc(StrippedNonBlank(a), StrippedNonBlank(b[..n]), last);
    }
  }

  lemma StrippedNonBlankOne(x: string)
    ensures StrippedNonBlank([x]) == if Strip(x) != "" then [Strip(x)] else []
  {
    assert [x][..0] == [];
  }

  /** Pieces that are already non-empty and stripped are kept as they are. */
  lemma {:induction false} StrippedNonBlankClean(xs: seq<string>)
    requires forall k :: 0 <= k < |xs| ==> xs[k] != [] && Trimmed(xs[k])
    ensures StrippedNonBlank(xs) == xs
  {
    if xs != [] {
      var n := |xs| - 1;
      StrippedNonBlankClean(xs[..n]);
      StripTrimmed(xs[n]);
      assert xs[..n] + [xs[n]] == xs;
    }
  }

  // ---------------------------------------------------------------------
  // Rendering rows, for the round trips
  // ---------------------------------------------------------------------

  /** A cell a table line can hold and give back: non-empty, stripped, one
      line, and free of '|' and '-'. */
  predicate CleanCell(c: string) {
    c != [] && Trimmed(c) && NoLineBreak(c)
    && forall j :: 0 <= j < |c| ==> c[j] != '|' && c[j] != '-'
  }

  predicate CleanCells(cells: seq<string>) {
    forall k :: 0 <= k < |cells| ==> CleanCell(cells[k])
  }

  /** The line `|c1|c2|...|`. */
  function RowText(cells: seq<string>): string {
    Join("|", [""] + cells + [""])
  }

  lemma RowTextShape(cells: seq<string>)
    ensures RowText(cells) == "|" + Join("|", cells + [""])
  {
    var xs := [""] + cells + [""];
    assert xs[1..] == cells + [""];
  }

  function Pieces(cells: seq<string>): seq<string> {
    [""] + cells + [""]
  }

  lemma PiecesClean(cells: seq<string>)
    requires CleanCells(cells)
    ensures forall k, j :: 0 <= k < |Pieces(cells)| && 0 <= j < |Pieces(cells)[k]| ==>
              Pieces(cells)[k][j] != '|' && Pieces(cells)[k][j] != '-' && !IsLineBreak(Pieces(cells)[k][j])
  {
    var xs := Pieces(cells);
    forall k, j | 0 <= k < |xs| && 0 <= j < |xs[k]|
      ensures xs[k][j] != '|' && xs[k][j] != '-' && !IsLineBreak(xs[k][j])
    {
      assert xs[k] == cells[k - 1];
    }
  }

  lemma RowTextChars(cells: seq<string>)
    requires CleanCells(cells)
    ensures Split(RowText(cells), "|") == Pieces(cells)
    ensures NoLineBreak(RowText(cells))
    ensures forall j :: 0 <= j < |RowText(cells)| ==> RowText(cells)[j] != '-'
  {
    PiecesClean(cells);
    SplitJoinChar(Pieces(cells), '|');
    JoinLacks("|", Pieces(cells), '-');
    JoinNoBreak("|", Pieces(cells));
  }

  lemma RowTextEnds(cells: seq<string>)
    ensures |RowText(cells)| >= 1 && RowText(cells)[0] == '|' && RowText(cells)[|RowText(cells)| - 1] == '|'
  {
    RowTextShape(cells);
    JoinEndsWithSep(cells);
    var j := Join("|", cells + [""]);
    if j != [] {
      assert RowText(cells)[|RowText(cells)| - 1] == j[|j| - 1];
    }
  }

  lemma RowTextTableLine(cells: seq<string>)
    requires CleanCells(cells)
    ensures TableLine(RowText(cells)) && NoLineBreak(RowText(cells))
    ensures Trimmed(RowText(cells)) && RowText(cells) != []
  {
    var s := RowText(cells);
    RowTextChars(cells);
    RowTextEnds(cells);
    assert OccursAt(s, "|", 0) by { assert s[0..1] == "|"; }
    forall j | 0 <= j <= |s| ensures !OccursAt(s, "---", j) {
      if j + 3 <= |s| { assert s[j..j + 3][0] == s[j]; }
    }
  }

  lemma RowTextCellsBack(cells: seq<string>)
    requires CleanCells(cells)
    ensures Cells(RowText(cells)) == cells
  {
    RowTextChars(cells);
    assert Pieces(cells) == ([""] + cells) + [""];
    StrippedNonBlankAppend([""] + cells, [""]);
    StrippedNonBlankAppend([""], cells);
    StrippedNonBlankOne("");
    StrippedNonBlankClean(cells);
  }

  /** A rendered row is a one-line table line whose cells are read back. */
  lemma RowTextCells(cells: seq<string>)
    requires CleanCells(cells)
    ensures TableLine(RowText(cells)) && NoLineBreak(RowText(cells))
    ensures Trimmed(RowText(cells)) && RowText(cells) != []
    ensures Cells(RowText(cells)) == cells
  {
    RowTextTableLine(cells);
    RowTextCellsBack(cells);
  }

  lemma {:induction false} JoinEndsWithSep(cells: seq<string>)
    ensures var s := Join("|", cells + [""]); s != [] ==> s[|s| - 1] == '|'
    ensures cells != [] ==> Join("|", cells + [""]) != []
  {
    var xs := cells + [""];
    if |cells| >= 1 {
      assert xs[1..] == cells[1..] + [""];
      JoinEndsWithSep(cells[1..]);
      var r := Join("|", xs[1..]);
      if r == [] {
        assert |xs[1..]| == 1;
        assert Join("|", xs) == cells[0] + "|" + "";
      }
    }
  }

  // ---------------------------------------------------------------------
  // Platform matrix
  // ---------------------------------------------------------------------

  /** `cols[i] if len(cols) > i else None`. */
  function CellAt(cols: seq<string>, i: nat): (r: Json)
    ensures i < |cols| ==> r == JString(cols[i])
    ensures i >= |cols| ==> r == JNull
  {
    if i < |cols| then JString(cols[i]) else JNull
  }

  /** The matrix row that the cells of one line give: the attribute and
      then web, iOS and Android, `None` where a cell is missing. */
  function RowOfCells(cols: seq<string>): PlatformRow
    requires cols != []
  {
    PlatformRow(JString(cols[0]), CellAt(cols, 1), CellAt(cols, 2), CellAt(cols, 3))
  }

  /** The rows one body line contributes (none or one). */
  function MatrixLine(line: string): seq<PlatformRow> {
    if !TableLine(line) then []
    else
      var cols := Cells(line);
      if cols == [] then [] else [RowOfCells(cols)]
  }

  function MatrixRows(lines: seq<string>): (r: seq<PlatformRow>)
    ensures |r| <= |lines|
  {
    if lines == [] then []
    else
      var n := |lines| - 1;
      MatrixRows(lines[..n]) + MatrixLine(lines[n])
  }

  /** `_parse_platform_matrix(text)` as a value. */
  function PlatformMatrix(text: string): seq<PlatformRow> {
    var lines := NonBlankLines(text);
    if lines == [] || !Contains(lines[0], "|") then [] else MatrixRows(lines[1..])
  }

  lemma MatrixStep(body: seq<string>, i: nat)
    requires i < |body|
    ensures MatrixRows(body[..i + 1]) == MatrixRows(body[..i]) + MatrixLine(body[i])
  {
    assert body[..i + 1][..i] == body[..i];
  }

  /** The row loop of `_parse_platform_matrix` over the lines after the
      header. */
  method MatrixBody(body: seq<string>) returns (rows: seq<PlatformRow>)
    ensures rows == MatrixRows(body)
  {
    rows := [];
    var i := 0;
    while i < |body|
      invariant 0 <= i <= |body|
      invariant rows == MatrixRows(body[..i])
    {
      var line := body[i];
      MatrixStep(body, i);
      if TableLine(line) {
        var cols := Cells(line);
        if cols != [] {
          rows := rows + [PlatformRow(JString(cols[0]), CellAt(cols, 1), CellAt(cols, 2), CellAt(cols, 3))];
        }
      }
      i := i + 1;
    }
    assert body[..|body|] == body;
  }

  /** `_parse_platform_matrix(text)`. */
  method ParsePlatformMatrix(text: string) returns (rows: seq<PlatformRow>)
    ensures rows == PlatformMatrix(text)
  {
    var lines := NonBlankLines(text);
    rows := [];
    if lines == [] || !Contains(lines[0], "|") {
      return;
    }
    rows := MatrixBody(lines[1..]);
  }

  /** Body lines that the parsers read as rows. */
  function CountTableLines(lines: seq<string>): (n: nat)
    ensures n <= |lines|
  {
    if lines == [] then 0
    else
      var n := |lines| - 1;
      CountTableLines(lines[..n]) + (if TableLine(lines[n]) then 1 else 0)
  }

  /** A value a matrix cell can hold: `None` or a non-empty stripped text. */
  predicate CellValue(j: Json) {
    j.JNull? || (j.JString? && j.s != [] && Trimmed(j.s))
  }

  /** A row with a non-empty stripped attribute in which each platform cell
      is `None` or a non-empty stripped text. */
  predicate WellFormedRow(r: PlatformRow) {
    r.attribute.JString? && r.attribute.s != [] && Trimmed(r.attribute.s)
    && CellValue(r.web) && CellValue(r.ios) && CellValue(r.android)
  }

  lemma CellsSpec(line: string, i: nat)
    requires i < |Cells(line)|
    ensures Cells(line)[i] != [] && Trimmed(Cells(line)[i])
  {
    StrippedNonBlankSpec(Split(line, "|"), i);
  }

  lemma MatrixLineShape(line: string)
    requires MatrixLine(line) != []
    ensures WellFormedRow(MatrixLine(line)[0])
  {
    var cols := Cells(line);
    CellsSpec(line, 0);
    if 1 < |cols| { CellsSpec(line, 1); }
    if 2 < |cols| { CellsSpec(line, 2); }
    if 3 < |cols| { CellsSpec(line, 3); }
  }

  /** Every row of the matrix is well formed. */
  lemma {:induction false} MatrixRowsShape(lines: seq<string>, k: nat)
    requires k < |MatrixRows(lines)|
    ensures WellFormedRow(MatrixRows(lines)[k])
  {
    var n := |lines| - 1;
    var p := MatrixRows(lines[..n]);
    var last := MatrixLine(lines[n]);
    assert MatrixRows(lines) == p + last;
    if k < |p| {
      assert MatrixRows(lines)[k] == p[k];
      MatrixRowsShape(lines[..n], k);
    } else {
      assert MatrixRows(lines)[k] == last[0];
      MatrixLineShape(lines[n]);
    }
  }

  /** At most one row per table line: lines without '|', rule lines and
      lines without cells give none. */
  lemma {:induction false} MatrixRowsCount(lines: seq<string>)
    ensures |MatrixRows(lines)| <= CountTableLines(lines)
  {
    if lines != [] {
      MatrixRowsCount(lines[..|lines| - 1]);
    }
  }

  /** A section whose first non-blank line has no '|' has no matrix. */
  lemma MatrixNeedsHeader(h: string, body: string)
    requires NoLineBreak(h) && Strip(h) != "" && !Contains(h, "|")
    ensures PlatformMatrix(h + "\n" + body) == []
  {
    SplitLinesCons(h, body);
    StrippedNonBlankAppend([h], SplitLines(body));
    StrippedNonBlankOne(h);
    if Contains(Strip(h), "|") { ContainsStrip(h, "|"); }
  }

  /** Rows of cells written one per line. */
  function RowTexts(rows: seq<seq<string>>): (r: seq<string>)
    ensures |r| == |rows|
  {
    if rows == [] then [] else RowTexts(rows[..|rows| - 1]) + [RowText(rows[|rows| - 1])]
  }

  /** The matrix rows that rows of cells stand for. */
  function RowsOfCells(rows: seq<seq<string>>): (r: seq<PlatformRow>)
    requires forall k :: 0 <= k < |rows| ==> rows[k] != []
    ensures |r| == |rows|
  {
    if rows == [] then [] else RowsOfCells(rows[..|rows| - 1]) + [RowOfCells(rows[|rows| - 1])]
  }

  lemma {:induction false} RowTextsClean(rows: seq<seq<string>>, k: nat)
    requires forall k :: 0 <= k < |rows| ==> CleanCells(rows[k])
    requires k < |rows|
    ensures var t := RowTexts(rows)[k]; t != [] && NoLineBreak(t) && Trimmed(t)
  {
    var n := |rows| - 1;
    if k < n {
      assert RowTexts(rows)[k] == RowTexts(rows[..n])[k];
      RowTextsClean(rows[..n], k);
    } else {
      RowTextTableLine(rows[n]);
    }
  }

  lemma PairShape<T>(a: T, b: T, c: seq<T>)
    ensures [a] + [b] == [a, b] && ([a, b] + c)[1..] == [b] + c
  {
  }

  lemma JoinThree(h: string, rule: string, b: string)
    ensures h + "\n" + rule + "\n" + b == h + "\n" + (rule + "\n" + b)
  {
  }

  /** The lines of a header, a rule and one-line body texts. */
  lemma ThreeParts(h: string, rule: string, texts: seq<string>)
    requires NoLineBreak(h) && NoLineBreak(rule)
    requires forall k :: 0 <= k < |texts| ==> texts[k] != [] && NoLineBreak(texts[k])
    ensures SplitLines(h + "\n" + rule + "\n" + Join("\n", texts)) == [h, rule] + texts
  {
    var b := Join("\n", texts);
    SplitLinesJoin(texts);
    SplitLinesCons(rule, b);
    JoinThree(h, rule, b);
    SplitLinesCons(h, rule + "\n" + b);
  }

  lemma CleanLines(h: string, rule: string, texts: seq<string>)
    requires h != [] && Trimmed(h) && rule != [] && Trimmed(rule)
    requires forall k :: 0 <= k < |texts| ==> texts[k] != [] && Trimmed(texts[k])
    ensures StrippedNonBlank([h, rule] + texts) == [h, rule] + texts
  {
    StrippedNonBlankAppend([h, rule], texts);
    PairShape(h, rule, texts);
    StrippedNonBlankAppend([h], [rule]);
    StrippedNonBlankOne(h);
    StrippedNonBlankOne(rule);
    StripTrimmed(h);
    StripTrimmed(rule);
    StrippedNonBlankClean(texts);
  }

  /** The non-blank lines of a header, a rule and rendered rows. */
  lemma TableLines(h: string, rule: string, rows: seq<seq<string>>)
    requires h != [] && Trimmed(h) && NoLineBreak(h)
    requires rule != [] && Trimmed(rule) && NoLineBreak(rule)
    requires forall k :: 0 <= k < |rows| ==> CleanCells(rows[k])
    ensures NonBlankLines(h + "\n" + rule + "\n" + Join("\n", RowTexts(rows)))
         == [h, rule] + RowTexts(rows)
  {
    var texts := RowTexts(rows);
    forall k | 0 <= k < |texts| ensures texts[k] != [] && NoLineBreak(texts[k]) && Trimmed(texts[k]) {
      RowTextsClean(rows, k);
    }
    ThreeParts(h, rule, texts);
    CleanLines(h, rule, texts);
  }

  /** Rows of clean cells written under a header line with a '|' and a rule
      line with "---" are read back, one matrix row per table row. */
  lemma MatrixRoundTrip(h: string, rule: string, rows: seq<seq<string>>)
    requires h != [] && Trimmed(h) && NoLineBreak(h) && Contains(h, "|")
    requires rule != [] && Trimmed(rule) && NoLineBreak(rule) && Contains(rule, "---")
    requires forall k :: 0 <= k < |rows| ==> rows[k] != [] && CleanCells(rows[k])
    ensures PlatformMatrix(h + "\n" + rule + "\n" + Join("\n", RowTexts(rows))) == RowsOfCells(rows)
  {
    var texts := RowTexts(rows);
    var text := h + "\n" + rule + "\n" + Join("\n", texts);
    TableLines(h, rule, rows);
    MatrixOfLines(text, h, rule, texts);
    MatrixOfRows(rows);
  }

  /** Below a header line and a rule line, the matrix is read from the
      remaining lines. */
  lemma MatrixOfLines(text: string, h: string, rule: string, body: seq<string>)
    requires NonBlankLines(text) == [h, rule] + body
    requires Contains(h, "|") && Contains(rule, "---")
    ensures PlatformMatrix(text) == MatrixRows(body)
  {
    PairShape(h, rule, body);
    MatrixRowsAppend([rule], body);
    assert MatrixRows([rule]) == [] by {
      assert [rule][..0] == [];
      assert MatrixLine(rule) == [];
    }
  }

  lemma {:induction false} MatrixRowsAppend(a: seq<string>, b: seq<string>)
    ensures MatrixRows(a + b) == MatrixRows(a) + MatrixRows(b)
    decreases |b|
  {
    if b == [] {
      assert a + b == a;
    } else {
      var n := |b| - 1;
      assert (a + b)[..|a + b| - 1] == a + b[..n];
      assert (a + b)[|a + b| - 1] == b[n];
      MatrixRowsAppend(a, b[..n]);
      AppendAssoc(MatrixRows(a), MatrixRows(b[..n]), MatrixLine(b[n]));
    }
  }

  lemma {:induction false} MatrixOfRows(rows: seq<seq<string>>)
    requires forall k :: 0 <= k < |rows| ==> rows[k] != [] && CleanCells(rows[k])
    ensures MatrixRows(RowTexts(rows)) == RowsOfCells(rows)
  {
    if rows != [] {
      var n := |rows| - 1;
      var texts := RowTexts(rows);
      MatrixOfRows(rows[..n]);
      assert texts[..n] == RowTexts(rows[..n]);
      assert texts[n] == RowText(rows[n]);
      RowTextCells(rows[n]);
    }
  }

  /** A blank cell is dropped with the other empty pieces, so the cells
      after it move one column to the left: `|a| |c|` gives `c` as the web
      value. */
  lemma BlankCellShifts(a: string, c: string)
    requires CleanCell(a) && CleanCell(c)
    ensures MatrixLine(Join("|", ["", a, " ", c, ""])) == [PlatformRow(JString(a), JString(c), JNull, JNull)]
  {
    var xs := ["", a, " ", c, ""];
    BlankCellLine(a, c);
    BlankCellPieces(a, c);
    assert Cells(Join("|", xs)) == [a, c];
  }

  lemma BlankCellLine(a: string, c: string)
    requires CleanCell(a) && CleanCell(c)
    ensures var xs := ["", a, " ", c, ""];
            Split(Join("|", xs), "|") == xs && TableLine(Join("|", xs))
  {
    PiecesClean2(a, c);
    LineOfPieces(["", a, " ", c, ""]);
  }

  /** Pieces free of '|' and '-', the first one empty, joined by '|'. */
  lemma LineOfPieces(xs: seq<string>)
    requires |xs| >= 2 && xs[0] == ""
    requires forall k, j :: 0 <= k < |xs| && 0 <= j < |xs[k]| ==> xs[k][j] != '|' && xs[k][j] != '-'
    ensures Split(Join("|", xs), "|") == xs && TableLine(Join("|", xs))
  {
    var line := Join("|", xs);
    SplitJoinChar(xs, '|');
    JoinLacks("|", xs, '-');
    assert line == xs[0] + "|" + Join("|", xs[1..]);
    assert OccursAt(line, "|", 0) by { assert line[0..1] == "|"; }
    forall j | 0 <= j <= |line| ensures !OccursAt(line, "---", j) {
      if j + 3 <= |line| { assert line[j..j + 3][0] == line[j]; }
    }
  }

  lemma BlankCellPieces(a: string, c: string)
    requires CleanCell(a) && CleanCell(c)
    ensures StrippedNonBlank(["", a, " ", c, ""]) == [a, c]
  {
    StripTrimmed(a);
    StripTrimmed(c);
    StripAllSpace(" ");
    StripAllSpace("");
    var p1: seq<string> := [""];
    StrippedNonBlankOne("");
    assert StrippedNonBlank(p1) == [];
    var p2 := p1 + [a];
    StrippedNonBlankSnoc(p1, a);
    assert StrippedNonBlank(p2) == [a];
    var p3 := p2 + [" "];
    StrippedNonBlankSnoc(p2, " ");
    assert StrippedNonBlank(p3) == [a];
    var p4 := p3 + [c];
    StrippedNonBlankSnoc(p3, c);
    assert StrippedNonBlank(p4) == [a] + [c];
    var p5 := p4 + [""];
    StrippedNonBlankSnoc(p4, "");
    assert StrippedNonBlank(p5) == [a, c];
    FiveShape("", a, " ", c, "");
  }

  lemma FiveShape<T>(x1: T, x2: T, x3: T, x4: T, x5: T)
    ensures [x1, x2, x3, x4, x5] == [x1] + [x2] + [x3] + [x4] + [x5]
  {
  }

  lemma StrippedNonBlankSnoc(xs: seq<string>, x: string)
    ensures StrippedNonBlank(xs + [x]) == StrippedNonBlank(xs) + (if Strip(x) != "" then [Strip(x)] else [])
  {
    assert (xs + [x])[..|xs|] == xs;
  }

  lemma PiecesClean2(a: string, c: string)
    requires CleanCell(a) && CleanCell(c)
    ensures var xs := ["", a, " ", c, ""];
            forall k, j :: 0 <= k < |xs| && 0 <= j < |xs[k]| ==> xs[k][j] != '|' && xs[k][j] != '-'
  {
    var xs := ["", a, " ", c, ""];
    forall k, j | 0 <= k < |xs| && 0 <= j < |xs[k]| ensures xs[k][j] != '|' && xs[k][j] != '-' {
      if k == 1 { assert xs[k] == a; } else if k == 3 { assert xs[k] == c; } else if k == 2 { assert xs[k] == " "; }
    }
  }

  // ---------------------------------------------------------------------
  // Severity table
  // ---------------------------------------------------------------------

  /** The header cells, stripped and lowercased. */
  function HeaderCols(line: string): (r: seq<string>)
    ensures |r| == |Cells(line)|
  {
    var cols := Cells(line);
    seq(|cols|, k requires 0 <= k < |cols| => Lower(cols[k]))
  }

  /** `cols[i] if i < len(cols) else ""`. */
  function CellText(cols: seq<string>, i: nat): (r: string)
    ensures i < |cols| ==> r == cols[i]
    ensures i >= |cols| ==> r == ""
  {
    if i < |cols| then cols[i] else ""
  }

  /** The dict the inner loop builds: each header names the cell below it,
      or "" past the last cell. */
  function Mapping(headers: seq<string>, cols: seq<string>): OrderedDict.Dict<string, string> {
    if headers == [] then []
    else
      var n := |headers| - 1;
      OrderedDict.Put(Mapping(headers[..n], cols), headers[n], CellText(cols, n))
  }

  /** `mapping.get(key) or ""`. */
  function Field(m: OrderedDict.Dict<string, string>, key: string): string {
    OrderedDict.Get(m, key).GetOr("")
  }

  /** `mapping.get(key) or mapping.get(alias) or ""`. */
  function FieldOr(m: OrderedDict.Dict<string, string>, key: string, alias: string): (r: string)
    ensures Field(m, key) != "" ==> r == Field(m, key)
    ensures Field(m, key) == "" ==> r == Field(m, alias)
  {
    if Field(m, key) != "" then Field(m, key) else Field(m, alias)
  }

  /** The item one row's dict gives. */
  function SeverityOf(m: OrderedDict.Dict<string, string>): SeverityRow {
    SeverityRow(
      JString(FieldOr(m, "issue type", "issue")),
      JString(Field(m, "user impact")),
      JString(Field(m, "severity")),
      JString(FieldOr(m, "recommended priority", "priority")))
  }

  /** The items one body line contributes: every table line gives one, even
      one without cells. */
  function SeverityLine(headers: seq<string>, line: string): seq<SeverityRow> {
    if TableLine(line) then [SeverityOf(Mapping(headers, Cells(line)))] else []
  }

  function SeverityRows(headers: seq<string>, lines: seq<string>): (r: seq<SeverityRow>)
    ensures |r| <= |lines|
  {
    if lines == [] then []
    else
      var n := |lines| - 1;
      SeverityRows(headers, lines[..n]) + SeverityLine(headers, lines[n])
  }

  /** `_parse_severity_table(text)` as a value. */
  function SeverityTable(text: string): seq<SeverityRow> {
    var lines := NonBlankLines(text);
    if lines == [] || !Contains(lines[0], "|") then [] else SeverityRows(HeaderCols(lines[0]), lines[1..])
  }

  lemma MappingStep(headers: seq<string>, cols: seq<string>, j: nat)
    requires j < |headers|
    ensures Mapping(headers[..j + 1], cols) == OrderedDict.Put(Mapping(headers[..j], cols), headers[j], CellText(cols, j))
  {
    assert headers[..j + 1][..j] == headers[..j];
  }

  /** The inner loop of `_parse_severity_table`: `mapping[h] = cols[i] if
      i < len(cols) else ""` for each header in turn. */
  method BuildMapping(headers: seq<string>, cols: seq<string>) returns (mapping: OrderedDict.Dict<string, string>)
    ensures mapping == Mapping(headers, cols)
  {
    mapping := [];
    var j := 0;
    while j < |headers|
      invariant 0 <= j <= |headers|
      invariant mapping == Mapping(headers[..j], cols)
    {
      MappingStep(headers, cols, j);
      mapping := OrderedDict.Put(mapping, headers[j], if j < |cols| then cols[j] else "");
      j := j + 1;
    }
    assert headers[..|headers|] == headers;
  }

  lemma SeverityStep(headers: seq<string>, body: seq<string>, i: nat)
    requires i < |body|
    ensures SeverityRows(headers, body[..i + 1]) == SeverityRows(headers, body[..i]) + SeverityLine(headers, body[i])
  {
    assert body[..i + 1][..i] == body[..i];
  }

  /** The row loop of `_parse_severity_table` over the lines after the
      header. */
  method SeverityBody(headers: seq<string>, body: seq<string>) returns (items: seq<SeverityRow>)
    ensures items == SeverityRows(headers, body)
  {
    items := [];
    var i := 0;
    while i < |body|
      invariant 0 <= i <= |body|
      invariant items == SeverityRows(headers, body[..i])
    {
      var line := body[i];
      SeverityStep(headers, body, i);
      if TableLine(line) {
        var cols := Cells(line);
        var mapping := BuildMapping(headers, cols);
        items := items + [SeverityOf(mapping)];
      }
      i := i + 1;
    }
    assert body[..|body|] == body;
  }

  /** `_parse_severity_table(text)`. */
  method ParseSeverityTable(text: string) returns (items: seq<SeverityRow>)
    ensures items == SeverityTable(text)
  {
    var lines := NonBlankLines(text);
    items := [];
    if lines == [] || !Contains(lines[0], "|") {
      return;
    }
    var headers := HeaderCols(lines[0]);
    items := SeverityBody(headers, lines[1..]);
  }

  /** Under its last occurrence, a header reads the cell in its column, or
      "" past the last cell. */
  lemma {:induction false} MappingGet(headers: seq<string>, cols: seq<string>, k: nat)
    requires k < |headers|
    requires forall j :: k < j < |headers| ==> headers[j] != headers[k]
    ensures OrderedDict.Get(Mapping(headers, cols), headers[k]) == Some(CellText(cols, k))
  {
    var n := |headers| - 1;
    var p := headers[..n];
    var m := Mapping(p, cols);
    assert Mapping(headers, cols) == OrderedDict.Put(m, headers[n], CellText(cols, n));
    if k < n {
      assert p[k] == headers[k];
      assert forall j :: k < j < |p| ==> p[j] != p[k];
      MappingGet(p, cols, k);
    }
  }

  /** A name that is no header is not in the dict. */
  lemma {:induction false} MappingMissing(headers: seq<string>, cols: seq<string>, h: string)
    requires forall j :: 0 <= j < |headers| ==> headers[j] != h
    ensures OrderedDict.Get(Mapping(headers, cols), h) == None
  {
    if headers != [] {
      MappingMissing(headers[..|headers| - 1], cols, h);
    }
  }

  /** Without cells every header reads "". */
  lemma {:induction false} MappingBlank(headers: seq<string>, h: string)
    ensures Field(Mapping(headers, []), h) == ""
  {
    if headers != [] {
      var n := |headers| - 1;
      MappingBlank(headers[..n], h);
    }
  }

  /** A table line without cells still gives an item, all of whose fields
      are "". */
  lemma SeverityBlankRow(headers: seq<string>, line: string)
    requires TableLine(line) && Cells(line) == []
    ensures SeverityLine(headers, line) == [SeverityRow(JString(""), JString(""), JString(""), JString(""))]
  {
    MappingBlank(headers, "issue type");
    MappingBlank(headers, "issue");
    MappingBlank(headers, "user impact");
    MappingBlank(headers, "severity");
    MappingBlank(headers, "recommended priority");
    MappingBlank(headers, "priority");
  }

  /** One item per table line, unlike the matrix. */
  lemma {:induction false} SeverityRowsCount(headers: seq<string>, lines: seq<string>)
    ensures |SeverityRows(headers, lines)| == CountTableLines(lines)
  {
    if lines != [] {
      SeverityRowsCount(headers, lines[..|lines| - 1]);
    }
  }

  /** A dict holding the four long names gives an item of their values. */
  lemma SeverityOfFields(m: OrderedDict.Dict<string, string>, a: string, b: string, c: string, d: string)
    requires a != "" && d != ""
    requires OrderedDict.Get(m, "issue type") == Some(a) && OrderedDict.Get(m, "user impact") == Some(b)
    requires OrderedDict.Get(m, "severity") == Some(c) && OrderedDict.Get(m, "recommended priority") == Some(d)
    ensures SeverityOf(m) == SeverityRow(JString(a), JString(b), JString(c), JString(d))
  {
  }

  /** A dict holding the short names and not the long ones gives an item of
      their values. */
  lemma SeverityOfShortFields(m: OrderedDict.Dict<string, string>, a: string, b: string, c: string, d: string)
    requires OrderedDict.Get(m, "issue type") == None && OrderedDict.Get(m, "recommended priority") == None
    requires OrderedDict.Get(m, "issue") == Some(a) && OrderedDict.Get(m, "user impact") == Some(b)
    requires OrderedDict.Get(m, "severity") == Some(c) && OrderedDict.Get(m, "priority") == Some(d)
    ensures SeverityOf(m) == SeverityRow(JString(a), JString(b), JString(c), JString(d))
  {
  }

  /** Distinct headers each read the cell in their own column. */
  lemma MappingDistinct(headers: seq<string>, cells: seq<string>)
    requires forall i, j :: 0 <= i < j < |headers| ==> headers[i] != headers[j]
    ensures forall k :: 0 <= k < |headers| ==> OrderedDict.Get(Mapping(headers, cells), headers[k]) == Some(CellText(cells, k))
  {
    forall k | 0 <= k < |headers| ensures OrderedDict.Get(Mapping(headers, cells), headers[k]) == Some(CellText(cells, k)) {
      MappingGet(headers, cells, k);
    }
  }

  predicate LongHeaders(headers: seq<string>) {
    |headers| == 4 && headers[0] == "issue type" && headers[1] == "user impact"
    && headers[2] == "severity" && headers[3] == "recommended priority"
  }

  predicate ShortHeaders(headers: seq<string>) {
    |headers| == 4 && headers[0] == "issue" && headers[1] == "user impact"
    && headers[2] == "severity" && headers[3] == "priority"
  }

  lemma HeadersDistinct(headers: seq<string>)
    requires LongHeaders(headers) || ShortHeaders(headers)
    ensures forall i, j :: 0 <= i < j < |headers| ==> headers[i] != headers[j]
    ensures ShortHeaders(headers) ==> forall j :: 0 <= j < 4 ==> headers[j] != "issue type" && headers[j] != "recommended priority"
  {
    assert |"issue type"| == 10 && |"recommended priority"| == 20;
    assert headers[2][0] == 's';
    if LongHeaders(headers) {
      assert |headers[0]| == 10 && |headers[1]| == 11 && |headers[2]| == 8 && |headers[3]| == 20;
    } else {
      assert |headers[0]| == 5 && |headers[1]| == 11 && |headers[2]| == 8 && |headers[3]| == 8;
      assert headers[3][0] == 'p';
    }
  }

  /** The four cells of a row under the headers "Issue Type", "User Impact",
      "Severity" and "Recommended Priority" fill the four fields. */
  lemma SeverityColumns(headers: seq<string>, cells: seq<string>)
    requires LongHeaders(headers)
    requires |cells| == 4 && forall k :: 0 <= k < 4 ==> cells[k] != ""
    ensures SeverityOf(Mapping(headers, cells))
         == SeverityRow(JString(cells[0]), JString(cells[1]), JString(cells[2]), JString(cells[3]))
  {
    HeadersDistinct(headers);
    MappingDistinct(headers, cells);
    SeverityOfFields(Mapping(headers, cells), cells[0], cells[1], cells[2], cells[3]);
  }

  /** The short headers "Issue" and "Priority" are read when the long ones
      are absent. */
  lemma SeverityShortColumns(headers: seq<string>, cells: seq<string>)
    requires ShortHeaders(headers)
    requires |cells| == 4
    ensures SeverityOf(Mapping(headers, cells))
         == SeverityRow(JString(cells[0]), JString(cells[1]), JString(cells[2]), JString(cells[3]))
  {
    HeadersDistinct(headers);
    MappingDistinct(headers, cells);
    MappingMissing(headers, cells, "issue type");
    MappingMissing(headers, cells, "recommended priority");
    SeverityOfShortFields(Mapping(headers, cells), cells[0], cells[1], cells[2], cells[3]);
  }

  /** A header without its column reads "": the long name wins only when its
      cell is non-empty. */
  lemma SeverityMissingColumns(headers: seq<string>, cols: seq<string>)
    requires forall j :: 0 <= j < |headers| ==> headers[j] != "severity" && headers[j] != "user impact"
    ensures SeverityOf(Mapping(headers, cols)).severity == JString("")
    ensures SeverityOf(Mapping(headers, cols)).userImpact == JString("")
  {
    MappingMissing(headers, cols, "severity");
    MappingMissing(headers, cols, "user impact");
  }

  /** The header line's cells, lowercased, are the dict keys. */
  lemma HeaderOfRow(hs: seq<string>)
    requires CleanCells(hs)
    ensures HeaderCols(RowText(hs)) == seq(|hs|, k requires 0 <= k < |hs| => Lower(hs[k]))
  {
    RowTextCellsBack(hs);
  }

  /** The items that rows of four cells under the long headers stand for. */
  function SeverityItems(rows: seq<seq<string>>): (r: seq<SeverityRow>)
    requires forall k :: 0 <= k < |rows| ==> |rows[k]| == 4
    ensures |r| == |rows|
  {
    if rows == [] then []
    else
      var n := |rows| - 1;
      var c := rows[n];
      SeverityItems(rows[..n]) + [SeverityRow(JString(c[0]), JString(c[1]), JString(c[2]), JString(c[3]))]
  }

  /** Below a header line and a rule line, the items are read from the
      remaining lines under the header's columns. */
  lemma SeverityOfLines(text: string, h: string, rule: string, body: seq<string>)
    requires NonBlankLines(text) == [h, rule] + body
    requires Contains(h, "|") && Contains(rule, "---")
    ensures SeverityTable(text) == SeverityRows(HeaderCols(h), body)
  {
    PairShape(h, rule, body);
    SeverityRowsAppend(HeaderCols(h), [rule], body);
    assert SeverityRows(HeaderCols(h), [rule]) == [] by {
      assert [rule][..0] == [];
    }
  }

  lemma {:induction false} SeverityRowsAppend(headers: seq<string>, a: seq<string>, b: seq<string>)
    ensures SeverityRows(headers, a + b) == SeverityRows(headers, a) + SeverityRows(headers, b)
    decreases |b|
  {
    if b == [] {
      assert a + b == a;
    } else {
      var n := |b| - 1;
      assert (a + b)[..|a + b| - 1] == a + b[..n];
      assert (a + b)[|a + b| - 1] == b[n];
      SeverityRowsAppend(headers, a, b[..n]);
      AppendAssoc(SeverityRows(headers, a), SeverityRows(headers, b[..n]), SeverityLine(headers, b[n]));
    }
  }

  lemma {:induction false} SeverityOfRows(headers: seq<string>, rows: seq<seq<string>>)
    requires LongHeaders(headers)
    requires forall k :: 0 <= k < |rows| ==> |rows[k]| == 4 && CleanCells(rows[k])
    ensures SeverityRows(headers, RowTexts(rows)) == SeverityItems(rows)
  {
    if rows != [] {
      var n := |rows| - 1;
      var texts := RowTexts(rows);
      SeverityOfRows(headers, rows[..n]);
      assert texts[..n] == RowTexts(rows[..n]);
      assert texts[n] == RowText(rows[n]);
      RowTextCells(rows[n]);
      SeverityColumns(headers, rows[n]);
    }
  }

  /** Rows of four clean cells written under the header line
      `|Issue Type|User Impact|Severity|Recommended Priority|` (in any
      letter case) and a rule line are read back, one item per row. */
  lemma SeverityRoundTrip(hs: seq<string>, rule: string, rows: seq<seq<string>>)
    requires CleanCells(hs) && LongHeaders(seq(|hs|, k requires 0 <= k < |hs| => Lower(hs[k])))
    requires rule != [] && Trimmed(rule) && NoLineBreak(rule) && Contains(rule, "---")
    requires forall k :: 0 <= k < |rows| ==> |rows[k]| == 4 && CleanCells(rows[k])
    ensures SeverityTable(RowText(hs) + "\n" + rule + "\n" + Join("\n", RowTexts(rows))) == SeverityItems(rows)
  {
    var h := RowText(hs);
    RowTextTableLine(hs);
    HeaderOfRow(hs);
    TableLines(h, rule, rows);
    SeverityOfLines(h + "\n" + rule + "\n" + Join("\n", RowTexts(rows)), h, rule, RowTexts(rows));
    SeverityOfRows(HeaderCols(h), rows);
  }
}
