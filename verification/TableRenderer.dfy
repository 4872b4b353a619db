/** Docling tables as Markdown: cells are placed on a grid, and the grid is printed row by row. */
module TableRenderer {
  import opened Wrappers
  import opened Sequences
  import opened Text

  /** A JSON value where an offset should be. */
  datatype Value = Missing | Number(n: int) | Digits(s: string) | NotANumber

  /** `text` is the cell's text as str() prints it. */
  datatype Cell = Cell(startRow: Value, startCol: Value, endRow: Value, endCol: Value, text: string)

  type Grid = seq<seq<string>>

  function SafeInt(v: Value, default: int): int {
    match v
    case Missing => default
    case Number(n) => n
    case Digits(s) => ParseInt(s).GetOr(0)
    case NotANumber => 0
  }

  function RowOf(cell: Cell): nat { Max(SafeInt(cell.startRow, 0), 0) }

  function ColOf(cell: Cell): nat { Max(SafeInt(cell.startCol, 0), 0) }

  function RowCount(cells: seq<Cell>): (n: int)
    requires cells != []
    ensures forall i :: 0 <= i < |cells| ==> SafeInt(cells[i].endRow, 1) <= n
  {
    var first := SafeInt(cells[0].endRow, 1);
    if |cells| == 1 then first else Max(first, RowCount(cells[1..]))
  }

  function ColCount(cells: seq<Cell>): (n: int)
    requires cells != []
    ensures forall i :: 0 <= i < |cells| ==> SafeInt(cells[i].endCol, 1) <= n
  {
    var first := SafeInt(cells[0].endCol, 1);
    if |cells| == 1 then first else Max(first, ColCount(cells[1..]))
  }

  // ---------------------------------------------------------------------- grid

  /** The last cell that starts at a position, if any. */
  function LastAt(cells: seq<Cell>, row: nat, col: nat): Option<Cell>
    decreases |cells|
  {
    if cells == [] then None
    else
      var last := cells[|cells| - 1];
      if RowOf(last) == row && ColOf(last) == col then Some(last) else LastAt(cells[..|cells| - 1], row, col)
  }

  function TextAt(cells: seq<Cell>, row: nat, col: nat): string {
    match LastAt(cells, row, col)
    case None => ""
    case Some(cell) => Strip(cell.text)
  }

  function GridOf(cells: seq<Cell>, rows: nat, cols: nat): (g: Grid)
    ensures Rectangular(g, rows, cols)
    ensures forall r, c :: 0 <= r < rows && 0 <= c < cols ==> g[r][c] == TextAt(cells, r, c)
  {
    seq(rows, r requires 0 <= r < rows => GridRow(cells, r, cols))
  }

  function GridRow(cells: seq<Cell>, r: nat, cols: nat): (row: seq<string>)
    ensures |row| == cols && forall c :: 0 <= c < cols ==> row[c] == TextAt(cells, r, c)
  {
    seq(cols, c requires 0 <= c < cols => TextAt(cells, r, c))
  }

  predicate Rectangular(g: Grid, rows: nat, cols: nat) {
    |g| == rows && forall r :: 0 <= r < rows ==> |g[r]| == cols
  }

  /** A position shows the last cell starting there, and a later one there wins. */
  lemma {:induction false} LastAtLaw(cells: seq<Cell>, row: nat, col: nat)
    ensures match LastAt(cells, row, col)
            case None => forall i :: 0 <= i < |cells| ==> RowOf(cells[i]) != row || ColOf(cells[i]) != col
            case Some(cell) =>
              exists i :: 0 <= i < |cells| && cells[i] == cell && RowOf(cell) == row && ColOf(cell) == col
                       && forall j :: i < j < |cells| ==> RowOf(cells[j]) != row || ColOf(cells[j]) != col
    decreases |cells|
  {
    if cells != [] {
      var n := |cells| - 1;
      hide RowOf, ColOf;
      if RowOf(cells[n]) == row && ColOf(cells[n]) == col {
        assert cells[n] == LastAt(cells, row, col).value;
      } else {
        LastAtLaw(cells[..n], row, col);
        if LastAt(cells[..n], row, col).Some? {
          var i :| 0 <= i < n && cells[..n][i] == LastAt(cells, row, col).value
                && forall j :: i < j < n ==> RowOf(cells[..n][j]) != row || ColOf(cells[..n][j]) != col;
          assert cells[i] == LastAt(cells, row, col).value;
          assert forall j :: i < j < n ==> cells[j] == cells[..n][j];
        } else {
          assert forall i :: 0 <= i < n ==> cells[i] == cells[..n][i];
        }
      }
    }
  }

  // ------------------------------------------------------------------ printing

  function Line(row: seq<string>): string { "| " + Join(row, " | ") + " |" }

  function Repeat(text: string, n: nat): (row: seq<string>)
    ensures |row| == n && forall i :: 0 <= i < n ==> row[i] == text
  {
    seq(n, _ => text)
  }

  function Lines(rows: Grid): (lines: seq<string>)
    ensures |lines| == |rows| && forall i :: 0 <= i < |rows| ==> lines[i] == Line(rows[i])
  {
    seq(|rows|, i requires 0 <= i < |rows| => Line(rows[i]))
  }

  /** A table of one row gets an empty body row. */
  function Padded(g: Grid): Grid
    requires g != []
  {
    if |g| == 1 then g + [Repeat("", |g[0]|)] else g
  }

  /** Header, separator and body. */
  function PrintedRows(g: Grid): Grid
    requires g != []
  {
    [g[0], Repeat("---", |g[0]|)] + Padded(g)[1..]
  }

  function Print(g: Grid): string
    requires g != []
  {
    Join(Lines(PrintedRows(g)), "\n")
  }

  function Rendered(cells: seq<Cell>): Option<string> {
    if cells == [] then None
    else if RowCount(cells) <= 0 || ColCount(cells) <= 0 then None
    else Some(Print(GridOf(cells, RowCount(cells), ColCount(cells))))
  }

  method RenderMarkdown(cells: seq<Cell>) returns (markdown: Option<string>)
    ensures markdown == Rendered(cells)
  {
    if cells == [] {
      return None;
    }
    var rows, cols := RowCount(cells), ColCount(cells);
    if rows <= 0 || cols <= 0 {
      return None;
    }
    var grid := new string[rows, cols]((_, _) => "");
    for i := 0 to |cells|
      invariant forall r, c :: 0 <= r < rows && 0 <= c < cols ==> grid[r, c] == TextAt(cells[..i], r, c)
    {
      assert cells[..i + 1][..i] == cells[..i];
      var row, col := RowOf(cells[i]), ColOf(cells[i]);
      if row < rows && col < cols {
        grid[row, col] := Strip(cells[i].text);
      }
    }
    assert cells[..|cells|] == cells;
    var g: Grid := [];
    for r := 0 to rows
      invariant |g| == r && forall k :: 0 <= k < r ==> g[k] == GridRow(cells, k, cols)
    {
      g := g + [seq(cols, c requires 0 <= c < cols reads grid => grid[r, c])];
      assert g[r] == GridRow(cells, r, cols);
    }
    assert g == GridOf(cells, rows, cols);
    var header := g[0];
    var body := if |g[1..]| == 0 then [Repeat("", |header|)] else g[1..];
    assert [header, Repeat("---", |header|)] + body == PrintedRows(g);
    markdown := Some(Join(Lines([header, Repeat("---", |header|)] + body), "\n"));
  }

  // ------------------------------------------------------------------- reading

  function Wrapped(row: seq<string>): (parts: seq<string>)
    ensures |parts| == |row| && forall i :: 0 <= i < |row| ==> parts[i] == " " + row[i] + " "
  {
    seq(|row|, i requires 0 <= i < |row| => " " + row[i] + " ")
  }

  function ReadCell(part: string): string {
    if |part| < 2 then part else part[1..|part| - 1]
  }

  function ReadCells(parts: seq<string>): (row: seq<string>)
    ensures |row| == |parts| && forall i :: 0 <= i < |row| ==> row[i] == ReadCell(parts[i])
  {
    seq(|parts|, i requires 0 <= i < |parts| => ReadCell(parts[i]))
  }

  function ReadLine(line: string): seq<string> {
    var parts := Split(line, '|');
    if |parts| < 2 then [] else ReadCells(parts[1..|parts| - 1])
  }

  function ReadLines(lines: seq<string>): (rows: Grid)
    ensures |rows| == |lines| && forall i :: 0 <= i < |rows| ==> rows[i] == ReadLine(lines[i])
  {
    seq(|lines|, i requires 0 <= i < |lines| => ReadLine(lines[i]))
  }

  /** Reads a printed table back, the separator line left out. */
  function Read(markdown: string): Grid {
    var lines := Split(markdown, '\n');
    if |lines| < 2 then ReadLines(lines) else ReadLines([lines[0]] + lines[2..])
  }

  predicate CleanRow(row: seq<string>) {
    forall i :: 0 <= i < |row| ==> '|' !in row[i] && '\n' !in row[i]
  }

  /** A table with at least one row and column whose texts have no pipe and no newline. */
  predicate CleanTable(g: Grid, cols: nat) {
    0 < cols && 0 < |g| && Rectangular(g, |g|, cols) && forall r :: 0 <= r < |g| ==> CleanRow(g[r])
  }

  lemma {:induction false} JoinWrapped(row: seq<string>)
    requires row != []
    ensures Join(Wrapped(row) + [""], "|") == " " + Join(row, " | ") + " |"
  {
    var parts := Wrapped(row) + [""];
    if |row| == 1 {
      assert parts[1..] == [""];
      assert Join(parts, "|") == parts[0] + "|" + Join(parts[1..], "|");
    } else {
      var rest := row[1..];
      JoinWrapped(rest);
      assert parts[1..] == Wrapped(rest) + [""];
      assert Join(parts, "|") == (" " + row[0] + " ") + "|" + (" " + Join(rest, " | ") + " |");
      assert Join(row, " | ") == row[0] + " | " + Join(rest, " | ");
    }
  }

  lemma {:induction false} JoinChars(parts: seq<string>, sep: string, c: char)
    requires c !in sep && forall p :: p in parts ==> c !in p
    ensures c !in Join(parts, sep)
  {
    if |parts| > 1 {
      JoinChars(parts[1..], sep, c);
    }
  }

  /** A joining keeps the characters of its parts. */
  lemma {:induction false} JoinKeeps(parts: seq<string>, sep: string, c: char, k: nat)
    requires k < |parts| && c in parts[k]
    ensures c in Join(parts, sep)
  {
    if k > 0 {
      JoinKeeps(parts[1..], sep, c, k - 1);
    }
  }

  lemma LineIsJoin(row: seq<string>)
    requires row != []
    ensures Line(row) == Join([""] + Wrapped(row) + [""], "|")
  {
    var inner := Wrapped(row) + [""];
    var parts := [""] + inner;
    JoinWrapped(row);
    assert parts[1..] == inner;
    assert Join(parts, "|") == "" + "|" + Join(inner, "|");
    assert parts == [""] + Wrapped(row) + [""];
  }

  /** A line splits at its pipes into the cells, one blank on either side, between two empty parts. */
  lemma LineParts(row: seq<string>)
    requires row != [] && CleanRow(row)
    ensures Split(Line(row), '|') == [""] + Wrapped(row) + [""]
    ensures '\n' !in Line(row)
    ensures ReadLine(Line(row)) == row
  {
    var parts := [""] + Wrapped(row) + [""];
    LineIsJoin(row);
    SplitJoin(parts, '|');
    assert parts[1..|parts| - 1] == Wrapped(row);
    assert ReadCells(Wrapped(row)) == row;
    JoinChars(row, " | ", '\n');
  }

  // -------------------------------------------------------------- main results

  /** A cell with no later one at the same place is the last there. */
  lemma LastHere(cells: seq<Cell>, i: nat)
    requires i < |cells|
    requires forall j :: i < j < |cells| ==> RowOf(cells[j]) != RowOf(cells[i]) || ColOf(cells[j]) != ColOf(cells[i])
    ensures LastAt(cells, RowOf(cells[i]), ColOf(cells[i])) == Some(cells[i])
  {
    var row, col := RowOf(cells[i]), ColOf(cells[i]);
    LastAtLaw(cells, row, col);
    hide *;
    var k :| 0 <= k < |cells| && Some(cells[k]) == LastAt(cells, row, col)
          && RowOf(cells[k]) == row && ColOf(cells[k]) == col
          && forall j :: k < j < |cells| ==> RowOf(cells[j]) != row || ColOf(cells[j]) != col;
    assert k == i;
  }

  /**
   * A cell that ends after it starts in both directions finds its place on the
   * grid, and shows there unless a later cell starts at the same place.
   */
  lemma CellShown(cells: seq<Cell>, i: nat)
    requires i < |cells| && Rendered(cells).Some?
    requires SafeInt(cells[i].startRow, 0) < SafeInt(cells[i].endRow, 1)
    requires SafeInt(cells[i].startCol, 0) < SafeInt(cells[i].endCol, 1)
    requires forall j :: i < j < |cells| ==> RowOf(cells[j]) != RowOf(cells[i]) || ColOf(cells[j]) != ColOf(cells[i])
    ensures var (row, col) := (RowOf(cells[i]), ColOf(cells[i]));
            && row < RowCount(cells) && col < ColCount(cells)
            && GridOf(cells, RowCount(cells), ColCount(cells))[row][col] == Strip(cells[i].text)
  {
    assert SafeInt(cells[i].endRow, 1) <= RowCount(cells);
    assert SafeInt(cells[i].endCol, 1) <= ColCount(cells);
    LastHere(cells, i);
  }

  /** A position where no cell starts is blank. */
  lemma BlankShown(cells: seq<Cell>, rows: nat, cols: nat, row: nat, col: nat)
    requires row < rows && col < cols
    requires forall i :: 0 <= i < |cells| ==> RowOf(cells[i]) != row || ColOf(cells[i]) != col
    ensures GridOf(cells, rows, cols)[row][col] == ""
  {
    LastAtLaw(cells, row, col);
  }

  /** A printed table has 2 + max(1, rows - 1) lines, each of cols cells. */
  lemma PrintedShape(g: Grid, cols: nat)
    requires CleanTable(g, cols)
    ensures Split(Print(g), '\n') == Lines(PrintedRows(g))
    ensures |Split(Print(g), '\n')| == 2 + Max(1, |g| - 1)
    ensures forall i :: 0 <= i < |Split(Print(g), '\n')| ==> |Split(Split(Print(g), '\n')[i], '|')| == cols + 2
  {
    var rows := PrintedRows(g);
    forall i | 0 <= i < |rows|
      ensures |rows[i]| == cols && CleanRow(rows[i])
    {
    }
    forall i | 0 <= i < |rows|
      ensures '\n' !in Lines(rows)[i] && |Split(Lines(rows)[i], '|')| == cols + 2
    {
      LineParts(rows[i]);
    }
    SplitJoin(Lines(rows), '\n');
  }

  /** On a clean table printing loses nothing but whether a single row had an empty second one. */
  lemma ReadClean(g: Grid, cols: nat)
    requires CleanTable(g, cols)
    ensures Read(Print(g)) == Padded(g)
  {
    PrintedShape(g, cols);
    var lines := Lines(PrintedRows(g));
    var kept := [lines[0]] + lines[2..];
    forall r | 0 <= r < |Padded(g)|
      ensures ReadLine(kept[r]) == Padded(g)[r]
    {
      assert |Padded(g)[r]| == cols && CleanRow(Padded(g)[r]);
      LineParts(Padded(g)[r]);
    }
    hide Split, Join, ReadLine, Print;
    assert Read(Print(g)) == ReadLines(kept) == Padded(g);
  }

  /** The row of a table, as a row of its printing. */
  lemma PrintedRow(g: Grid, r: nat) returns (k: nat)
    requires r < |g|
    ensures k < |PrintedRows(g)| && PrintedRows(g)[k] == g[r] && k == if r == 0 then 0 else r + 1
    ensures |PrintedRows(g)| == |Padded(g)| + 1
  {
    k := if r == 0 then 0 else r + 1;
  }

  /** A line break in a text makes a line too many. */
  lemma NewlineMisread(g: Grid, cols: nat, r: nat, c: nat)
    requires 0 < cols && Rectangular(g, |g|, cols) && r < |g| && c < cols && '\n' in g[r][c]
    ensures |Read(Print(g))| > |Padded(g)|
  {
    var k := PrintedRow(g, r);
    var lines := Lines(PrintedRows(g));
    LineIsJoin(g[r]);
    var parts := [""] + Wrapped(g[r]) + [""];
    assert parts[c + 1] == " " + g[r][c] + " ";
    JoinKeeps(parts, "|", '\n', c + 1);
    CountJoin(lines, '\n', k);
    SplitCount(Print(g), '\n');
  }

  lemma NoNewlineLines(g: Grid, cols: nat)
    requires 0 < cols && 0 < |g| && Rectangular(g, |g|, cols)
    requires forall r, c :: 0 <= r < |g| && 0 <= c < cols ==> '\n' !in g[r][c]
    ensures Split(Print(g), '\n') == Lines(PrintedRows(g))
  {
    var rows := PrintedRows(g);
    forall i | 0 <= i < |rows|
      ensures '\n' !in Lines(rows)[i]
    {
      JoinChars(rows[i], " | ", '\n');
    }
    SplitJoin(Lines(rows), '\n');
  }

  /** A pipe in a text makes a cell too many. */
  lemma PipeMisread(g: Grid, cols: nat, r: nat, c: nat)
    requires 0 < cols && Rectangular(g, |g|, cols) && r < |g| && c < cols && '|' in g[r][c]
    requires forall i, j :: 0 <= i < |g| && 0 <= j < cols ==> '\n' !in g[i][j]
    ensures r < |Read(Print(g))| && |Read(Print(g))[r]| > |g[r]|
  {
    var parts := [""] + Wrapped(g[r]) + [""];
    LineIsJoin(g[r]);
    assert parts[c + 1] == " " + g[r][c] + " ";
    CountJoin(parts, '|', c + 1);
    SplitCount(Line(g[r]), '|');
    assert |ReadLine(Line(g[r]))| > |g[r]|;
    NoNewlineLines(g, cols);
    hide *;
    ReadRow(g, r);
  }

  lemma ReadRow(g: Grid, r: nat)
    requires r < |g| && Split(Print(g), '\n') == Lines(PrintedRows(g))
    ensures r < |Read(Print(g))| && Read(Print(g))[r] == ReadLine(Line(g[r]))
  {
    var k := PrintedRow(g, r);
    var lines := Lines(PrintedRows(g));
    var kept := [lines[0]] + lines[2..];
    hide Split, Print, Line, ReadLine, PrintedRows;
    assert kept[r] == lines[k];
    assert Read(Print(g)) == ReadLines(kept);
  }

  /** Reading the Markdown gives the table back iff no text holds a pipe or a line break: nothing is escaped. */
  lemma ReadPrintedExactly(g: Grid, cols: nat)
    requires 0 < cols && 0 < |g| && Rectangular(g, |g|, cols)
    ensures Read(Print(g)) == Padded(g) <==> CleanTable(g, cols)
  {
    if CleanTable(g, cols) {
      ReadClean(g, cols);
    } else if exists r, c :: 0 <= r < |g| && 0 <= c < cols && '\n' in g[r][c] {
      var r, c :| 0 <= r < |g| && 0 <= c < cols && '\n' in g[r][c];
      NewlineMisread(g, cols, r, c);
    } else {
      var r :| 0 <= r < |g| && !CleanRow(g[r]);
      var c :| 0 <= c < cols && ('|' in g[r][c] || '\n' in g[r][c]);
      PipeMisread(g, cols, r, c);
      assert Padded(g)[r] == g[r];
    }
  }

  // ------------------------------------------------------------- printing alike

  predicate PipeFree(g: Grid) {
    forall r, c :: 0 <= r < |g| && 0 <= c < |g[r]| ==> '|' !in g[r][c]
  }

  /** The printing of some rows between its first pipe and its last, cut at the pipes. */
  function Segments(rows: Grid): seq<string>
    requires rows != []
  {
    if |rows| == 1 then Wrapped(rows[0]) else Wrapped(rows[0]) + ["\n"] + Segments(rows[1..])
  }

  /** A line alone, and a line with more lines after it: the line break between them is a segment of its own. */
  lemma RowCut(row: seq<string>, rest: string, more: seq<string>)
    requires row != [] && forall c :: 0 <= c < |row| ==> '|' !in row[c]
    requires Split(rest, '|') == [""] + more
    ensures Split(Line(row), '|') == [""] + Wrapped(row) + [""]
    ensures Split(Line(row) + ("\n" + rest), '|') == [""] + Wrapped(row) + (["\n"] + more)
  {
    var parts := [""] + Wrapped(row) + [""];
    LineIsJoin(row);
    SplitJoin(parts, '|');
    SplitJoined(parts, '|', "\n" + rest);
    LineBreakCut(rest, more);
    hide Split, Join, Line;
    assert parts[..|parts| - 1] == [""] + Wrapped(row);
    assert parts[|parts| - 1] + ("\n" + rest) == "\n" + rest;
  }

  lemma LineBreakCut(rest: string, more: seq<string>)
    requires Split(rest, '|') == [""] + more
    ensures Split("\n" + rest, '|') == ["\n"] + more
  {
    SplitPrefix("\n", '|', rest);
    assert ([""] + more)[0] == "" && ([""] + more)[1..] == more && "\n" + "" == "\n";
  }

  lemma FirstLine(rows: Grid)
    requires |rows| > 1
    ensures Join(Lines(rows), "\n") == Line(rows[0]) + ("\n" + Join(Lines(rows[1..]), "\n"))
  {
    assert Lines(rows)[1..] == Lines(rows[1..]);
  }

  lemma {:induction false} PrintingCut(rows: Grid)
    requires rows != [] && PipeFree(rows) && forall r :: 0 <= r < |rows| ==> rows[r] != []
    ensures Split(Join(Lines(rows), "\n"), '|') == [""] + (Segments(rows) + [""])
  {
    if |rows| == 1 {
      RowCut(rows[0], "", []);
      assert Join(Lines(rows), "\n") == Line(rows[0]);
      assert [""] + Wrapped(rows[0]) + [""] == [""] + (Segments(rows) + [""]);
    } else {
      PrintingCut(rows[1..]);
      RowCut(rows[0], Join(Lines(rows[1..]), "\n"), Segments(rows[1..]) + [""]);
      FirstLine(rows);
      assert Segments(rows) == Wrapped(rows[0]) + ["\n"] + Segments(rows[1..]);
      hide *;
      assert [""] + Wrapped(rows[0]) + (["\n"] + (Segments(rows[1..]) + [""]))
          == [""] + (Wrapped(rows[0]) + ["\n"] + Segments(rows[1..]) + [""]);
    }
  }

  lemma WrappedInjective(a: seq<string>, b: seq<string>)
    requires Wrapped(a) == Wrapped(b)
    ensures a == b
  {
    forall i | 0 <= i < |a|
      ensures a[i] == b[i]
    {
      assert Wrapped(a)[i] == Wrapped(b)[i];
      assert a[i] == Wrapped(a)[i][1..|a[i]| + 1] && b[i] == Wrapped(b)[i][1..|b[i]| + 1];
    }
  }

  /** The first segment that is a line break ends the first row. */
  lemma FirstRowEnds(rows: Grid)
    requires rows != []
    ensures Segments(rows)[..|rows[0]|] == Wrapped(rows[0])
    ensures |rows| > 1 ==> |Segments(rows)| > |rows[0]| && Segments(rows)[|rows[0]|] == "\n"
    ensures |rows| > 1 ==> Segments(rows)[|rows[0]| + 1..] == Segments(rows[1..])
    ensures |rows| == 1 ==> |Segments(rows)| == |rows[0]|
  {
  }

  lemma RowLengthShows(a: Grid, b: Grid)
    requires a != [] && b != [] && |a[0]| < |b[0]|
    ensures Segments(a) != Segments(b)
  {
    FirstRowEnds(a);
    FirstRowEnds(b);
    var n := |a[0]|;
    assert Segments(b)[n] == Segments(b)[..|b[0]|][n] == Wrapped(b[0])[n];
    assert Wrapped(b[0])[n][0] == ' ';
  }

  lemma {:induction false} SegmentsInjective(a: Grid, b: Grid)
    requires a != [] && b != [] && Segments(a) == Segments(b)
    ensures a == b
    decreases |a|
  {
    if |a[0]| < |b[0]| {
      RowLengthShows(a, b);
    } else if |b[0]| < |a[0]| {
      RowLengthShows(b, a);
    } else {
      FirstRowEnds(a);
      FirstRowEnds(b);
      WrappedInjective(a[0], b[0]);
      if |a| > 1 && |b| > 1 {
        SegmentsInjective(a[1..], b[1..]);
      }
      assert a == [a[0]] + a[1..] && b == [b[0]] + b[1..];
    }
  }

  lemma PrintedCut(g: Grid, cols: nat)
    requires 0 < cols && 0 < |g| && Rectangular(g, |g|, cols) && PipeFree(g)
    ensures Split(Print(g), '|') == [""] + (Segments(PrintedRows(g)) + [""])
  {
    PrintingCut(PrintedRows(g));
  }

  /** The printed rows hold the padded table and nothing else that varies. */
  lemma RowsDecide(g: Grid, h: Grid)
    requires g != [] && h != []
    ensures PrintedRows(g) == PrintedRows(h) <==> Padded(g) == Padded(h)
  {
    assert Padded(g) == [g[0]] + Padded(g)[1..] && Padded(h) == [h[0]] + Padded(h)[1..];
    assert PrintedRows(g)[2..] == Padded(g)[1..] && PrintedRows(h)[2..] == Padded(h)[1..];
    assert PrintedRows(g)[0] == g[0] && PrintedRows(h)[0] == h[0];
  }

  lemma SameInside(a: seq<string>, b: seq<string>)
    requires [""] + (a + [""]) == [""] + (b + [""])
    ensures a == b
  {
    assert a == ([""] + (a + [""]))[1..|a| + 1] && b == ([""] + (b + [""]))[1..|b| + 1];
  }

  /**
   * Two tables without pipes print alike iff they are alike once a single row is
   * padded: line breaks can spoil the reading, but cannot make two tables collide.
   */
  lemma PrintedAlikeExactly(g: Grid, h: Grid, cols: nat, width: nat)
    requires 0 < cols && 0 < |g| && Rectangular(g, |g|, cols) && PipeFree(g)
    requires 0 < width && 0 < |h| && Rectangular(h, |h|, width) && PipeFree(h)
    ensures Print(g) == Print(h) <==> Padded(g) == Padded(h)
  {
    RowsDecide(g, h);
    PrintedCut(g, cols);
    PrintedCut(h, width);
    if Print(g) == Print(h) {
      hide *;
      SameInside(Segments(PrintedRows(g)), Segments(PrintedRows(h)));
      SegmentsInjective(PrintedRows(g), PrintedRows(h));
    } else {
      assert PrintedRows(g) != PrintedRows(h);
    }
  }

  /** So tables of two rows and more are told apart, but a table of one row is not from its padding. */
  lemma OneRowLooksPadded(text: string)
    requires '|' !in text
    ensures Print([[text]]) == Print([[text], [""]]) && [[text]] != [[text], [""]]
  {
    assert Padded([[text]]) == [[text], [""]] by {
      assert Repeat("", 1) == [""];
    }
    PrintedAlikeExactly([[text]], [[text], [""]], 1, 1);
  }

  /** Pipes are not escaped: with one in a text, different tables of one size print alike. */
  lemma PipesCollide()
    ensures Print([["a | b", "c"]]) == Print([["a", "b | c"]])
  {
    assert Line(["a | b", "c"]) == Line(["a", "b | c"]) by {
      assert Join(["a | b", "c"], " | ") == "a | b" + " | " + Join(["c"], " | ");
      assert Join(["a", "b | c"], " | ") == "a" + " | " + Join(["b | c"], " | ");
    }
    var g, h := [["a | b", "c"]], [["a", "b | c"]];
    assert PrintedRows(g)[1..] == PrintedRows(h)[1..];
    assert Lines(PrintedRows(g)) == Lines(PrintedRows(h));
  }

  /** With a line break between the pipes the tables need not even have the same number of rows. */
  lemma NewlinesCollide()
    ensures Print([["h"], ["a |\n| b"]]) == Print([["h"], ["a"], ["b"]])
  {
    var g, h := [["h"], ["a |\n| b"]], [["h"], ["a"], ["b"]];
    var head := [Line(["h"]), Line(["---"])];
    assert Repeat("---", 1) == ["---"];
    assert Lines(PrintedRows(g)) == head + [Line(["a |\n| b"])];
    assert Lines(PrintedRows(h)) == head + [Line(["a"]), Line(["b"])];
    assert Line(["a |\n| b"]) == Line(["a"]) + "\n" + Line(["b"]);
    var lines, more := Lines(PrintedRows(g)), Lines(PrintedRows(h));
    assert lines[1..] == [head[1], Line(["a |\n| b"])] && lines[1..][1..] == [Line(["a |\n| b"])];
    assert more[1..] == [head[1], Line(["a"]), Line(["b"])] && more[1..][1..] == [Line(["a"]), Line(["b"])];
    assert more[1..][1..][1..] == [Line(["b"])];
    assert Join(more[1..][1..], "\n") == Line(["a"]) + "\n" + Line(["b"]);
    assert Join(lines[1..], "\n") == head[1] + "\n" + Join(lines[1..][1..], "\n");
    assert Join(more[1..], "\n") == head[1] + "\n" + Join(more[1..][1..], "\n");
  }

  lemma GridIsClean(cells: seq<Cell>, rows: nat, cols: nat)
    requires 0 < rows && 0 < cols
    requires forall i :: 0 <= i < |cells| ==> '|' !in cells[i].text && '\n' !in cells[i].text
    ensures CleanTable(GridOf(cells, rows, cols), cols)
  {
    var g := GridOf(cells, rows, cols);
    forall r, c | 0 <= r < rows && 0 <= c < cols
      ensures '|' !in g[r][c] && '\n' !in g[r][c]
    {
      LastAtLaw(cells, r, c);
      if LastAt(cells, r, c).Some? {
        StripTrimmed(LastAt(cells, r, c).value.text);
      }
    }
  }

  /**
   * From cells to text and back: reading the rendering gives each position its last
   * cell's stripped text iff no text that shows holds a pipe or a line break, as when no cell's does.
   */
  lemma RenderingShowsTheGrid(cells: seq<Cell>)
    requires Rendered(cells).Some?
    ensures var rows, cols := RowCount(cells), ColCount(cells);
            && 0 < rows && 0 < cols
            && (Read(Rendered(cells).value) == Padded(GridOf(cells, rows, cols))
                <==> CleanTable(GridOf(cells, rows, cols), cols))
            && ((forall i :: 0 <= i < |cells| ==> '|' !in cells[i].text && '\n' !in cells[i].text)
                ==> CleanTable(GridOf(cells, rows, cols), cols))
  {
    var rows, cols := RowCount(cells), ColCount(cells);
    ReadPrintedExactly(GridOf(cells, rows, cols), cols);
    if forall i :: 0 <= i < |cells| ==> '|' !in cells[i].text && '\n' !in cells[i].text {
      GridIsClean(cells, rows, cols);
    }
  }

  // ---------------------------------------------------------------- dimensions

  /** The table is as high and as wide as its cells' ends say, and some cell ends there. */
  lemma {:induction false} RowCountExactly(cells: seq<Cell>)
    requires cells != []
    ensures exists i :: 0 <= i < |cells| && SafeInt(cells[i].endRow, 1) == RowCount(cells)
  {
    if SafeInt(cells[0].endRow, 1) != RowCount(cells) {
      RowCountExactly(cells[1..]);
      var i :| 0 <= i < |cells[1..]| && SafeInt(cells[1..][i].endRow, 1) == RowCount(cells[1..]);
      assert cells[i + 1] == cells[1..][i];
    }
  }

  lemma {:induction false} ColCountExactly(cells: seq<Cell>)
    requires cells != []
    ensures exists i :: 0 <= i < |cells| && SafeInt(cells[i].endCol, 1) == ColCount(cells)
  {
    if SafeInt(cells[0].endCol, 1) != ColCount(cells) {
      ColCountExactly(cells[1..]);
      var i :| 0 <= i < |cells[1..]| && SafeInt(cells[1..][i].endCol, 1) == ColCount(cells[1..]);
      assert cells[i + 1] == cells[1..][i];
    }
  }

  /** There is no table just when there are no cells, or none of them ends after the first row, or the first column. */
  lemma NoTableExactly(cells: seq<Cell>)
    ensures Rendered(cells).None? <==>
              || cells == []
              || (forall i :: 0 <= i < |cells| ==> SafeInt(cells[i].endRow, 1) <= 0)
              || (forall i :: 0 <= i < |cells| ==> SafeInt(cells[i].endCol, 1) <= 0)
  {
    if cells != [] {
      RowCountExactly(cells);
      ColCountExactly(cells);
    }
  }

  /** Offsets: a missing one is the default, a text is read as a number, and what is no number is 0. */
  lemma OffsetLaw(default: int, n: nat, m: int)
    ensures SafeInt(Missing, default) == default && SafeInt(Number(m), default) == m
    ensures SafeInt(NotANumber, default) == 0
    ensures SafeInt(Digits(Text.Print(n)), default) == n && SafeInt(Digits(""), default) == 0
  {
    ParsePrint(n);
    ParseSigned(0);
  }

  /** A negative start counts as the first row or column. */
  lemma StartLaw(cell: Cell)
    ensures RowOf(cell) == (if SafeInt(cell.startRow, 0) < 0 then 0 else SafeInt(cell.startRow, 0))
    ensures ColOf(cell) == (if SafeInt(cell.startCol, 0) < 0 then 0 else SafeInt(cell.startCol, 0))
  {
  }

  /** The printing line by line: the header, the separator of three hyphens a column, and the body. */
  lemma PrintedLines(g: Grid, cols: nat)
    requires CleanTable(g, cols)
    ensures var lines := Split(Print(g), '\n');
            && |lines| == 2 + Max(1, |g| - 1)
            && Split(lines[0], '|') == [""] + Wrapped(g[0]) + [""]
            && Split(lines[1], '|') == [""] + seq(cols, _ => " --- ") + [""]
            && (forall r :: 1 <= r < |g| ==> Split(lines[r + 1], '|') == [""] + Wrapped(g[r]) + [""])
            && (|g| == 1 ==> Split(lines[2], '|') == [""] + seq(cols, _ => "  ") + [""])
  {
    PrintedShape(g, cols);
    var rows := PrintedRows(g);
    forall i | 0 <= i < |rows|
      ensures Split(Lines(rows)[i], '|') == [""] + Wrapped(rows[i]) + [""]
    {
      assert |rows[i]| == cols && CleanRow(rows[i]);
      LineParts(rows[i]);
    }
    SeparatorCells(cols);
    hide Split, Print, Wrapped, Repeat;
  }

  lemma SeparatorCells(cols: nat)
    ensures Wrapped(Repeat("---", cols)) == seq(cols, _ => " --- ")
    ensures Wrapped(Repeat("", cols)) == seq(cols, _ => "  ")
  {
    assert " " + "---" + " " == " --- " && " " + "" + " " == "  ";
    forall i | 0 <= i < cols
      ensures Wrapped(Repeat("---", cols))[i] == " --- " && Wrapped(Repeat("", cols))[i] == "  "
    {
    }
  }
}
