/** Lossless wrapping: whatever is printed in single-width characters can be read back, row by row,
    from the lines scrolled out followed by the screen. */
module Wrapping {
  import opened Options
  import opened Utf8
  import opened Grid
  import opened GridRuns
  import opened GridScroll

  datatype Glyph = Glyph(ch: Scalar, attrs: Attrs)

  /** Print characters of width one; the screen, and the lines scrolled out on the way. */
  ghost function PrintRun(g: Screen, text: seq<Glyph>): (r: (Screen, seq<Line>))
    requires Shape(g)
    ensures Shape(r.0)
    decreases |text|
  {
    if text == [] then (g, [])
    else
      var (h, out) := PrintRun(g, text[..|text| - 1]);
      var last := text[|text| - 1];
      var (next, gone) := Print(h, last.ch, 1, last.attrs);
      PrintShape(h, last.ch, 1, last.attrs);
      (next, out + Lines(gone))
  }

  function Lines(gone: Option<Line>): seq<Line> { if gone.Some? then [gone.value] else [] }

  // ---- reading row by row ----

  function Flatten(lines: seq<Line>): seq<Cell> {
    if lines == [] then [] else lines[0] + Flatten(lines[1..])
  }

  ghost predicate Even(lines: seq<Line>, cols: nat) {
    forall i :: 0 <= i < |lines| ==> |lines[i]| == cols
  }

  lemma {:induction false} FlattenLength(lines: seq<Line>, cols: nat)
    requires Even(lines, cols)
    ensures |Flatten(lines)| == |lines| * cols
  {
    if lines != [] {
      FlattenLength(lines[1..], cols);
      assert |lines| * cols == cols + (|lines| - 1) * cols;
    }
  }

  lemma {:induction false} FlattenAppend(a: seq<Line>, b: seq<Line>)
    ensures Flatten(a + b) == Flatten(a) + Flatten(b)
  {
    if a == [] {
      assert a + b == b;
    } else {
      FlattenAppend(a[1..], b);
      assert (a + b)[1..] == a[1..] + b && (a + b)[0] == a[0];
      assert a[0] + (Flatten(a[1..]) + Flatten(b)) == a[0] + Flatten(a[1..]) + Flatten(b);
    }
  }

  /** Changing one cell of one line changes that one cell of the text. */
  lemma FlattenUpdate(lines: seq<Line>, cols: nat, i: nat, j: nat, x: Cell)
    requires Even(lines, cols) && i < |lines| && j < cols
    ensures 0 <= i * cols + j < |Flatten(lines)|
    ensures Flatten(lines[i := lines[i][j := x]]) == Flatten(lines)[i * cols + j := x]
  {
    var line := lines[i];
    var before, after := lines[..i], lines[i + 1..];
    assert lines == before + ([line] + after);
    assert lines[i := line[j := x]] == before + ([line[j := x]] + after);
    FlattenAppend(before, [line] + after);
    FlattenAppend(before, [line[j := x]] + after);
    assert ([line] + after)[1..] == after && ([line[j := x]] + after)[1..] == after;
    FlattenLength(before, cols);
    var a, b := Flatten(before), Flatten(after);
    UpdateInside(a, line, b, j, x);
  }

  lemma UpdateInside<T>(a: seq<T>, line: seq<T>, b: seq<T>, j: nat, x: T)
    requires j < |line|
    ensures a + (line[j := x] + b) == (a + (line + b))[|a| + j := x]
  {
  }

  // ---- the invariant ----

  function CellsOf(text: seq<Glyph>): (r: seq<Cell>)
    ensures |r| == |text| && forall i :: 0 <= i < |text| ==> r[i] == MakeCell(text[i].ch, text[i].attrs)
  {
    seq(|text|, i requires 0 <= i < |text| => MakeCell(text[i].ch, text[i].attrs))
  }

  /** The cursor stands behind `n` characters, counted through the lines already scrolled out. */
  ghost predicate Behind(g: Screen, gone: nat, n: nat) {
    && g.top == 0 && g.bottom == g.rowCount - 1
    && (gone > 0 ==> g.cursor.row == g.bottom)
    && (if g.wrapPending then g.cursor.col == g.cols - 1 && n == (gone + g.cursor.row) * g.cols + g.cols
        else n == (gone + g.cursor.row) * g.cols + g.cursor.col)
    && (!g.wrapPending && n > 0 ==> g.cursor.col > 0)
  }

  /** The whole page reads as `cells`, then blanks. */
  ghost predicate Reads(page: seq<Line>, cols: nat, cells: seq<Cell>) {
    && Even(page, cols) && |cells| <= |page| * cols
    && Flatten(page) == cells + BlankLine(|page| * cols - |cells|)
  }

  ghost predicate Written(g: Screen, gone: seq<Line>, cells: seq<Cell>) {
    Shape(g) && Behind(g, |gone|, |cells|) && Reads(gone + g.rows, g.cols, cells)
  }

  /** After the wrap, if one was due, the cursor is exactly where the next character belongs. */
  ghost predicate Ready(g: Screen, gone: seq<Line>, cells: seq<Cell>) {
    && Shape(g) && Reads(gone + g.rows, g.cols, cells)
    && g.top == 0 && g.bottom == g.rowCount - 1 && (|gone| > 0 ==> g.cursor.row == g.bottom)
    && |cells| == (|gone| + g.cursor.row) * g.cols + g.cursor.col
  }

  lemma IndexAtBottom(g: Screen)
    requires Shape(g) && g.top == 0 && g.bottom == g.rowCount - 1 && g.cursor.row == g.bottom
    ensures Index(g) == (AllDirty(g.(wrapPending := false, rows := g.rows[1..] + [BlankLine(g.cols)])), Some(g.rows[0]))
  {
    DeleteOnce(g.rows, 0, g.bottom, g.cols);
    hide DeleteRows;
    assert InsertAt(RemoveAt(g.rows, 0), g.bottom, BlankLine(g.cols)) == g.rows[1..] + [BlankLine(g.cols)];
  }

  lemma ReadsMoreRoom(page: seq<Line>, cols: nat, cells: seq<Cell>)
    requires Reads(page, cols, cells)
    ensures Reads(page + [BlankLine(cols)], cols, cells)
  {
    FlattenAppend(page, [BlankLine(cols)]);
    assert Flatten([BlankLine(cols)]) == BlankLine(cols) + Flatten([]);
    assert (|page| + 1) * cols == |page| * cols + cols;
    var k := |page| * cols - |cells|;
    assert BlankLine(k) + BlankLine(cols) == BlankLine(k + cols);
    assert cells + BlankLine(k) + BlankLine(cols) == cells + (BlankLine(k) + BlankLine(cols));
  }

  lemma WrapReady(g: Screen, gone: seq<Line>, cells: seq<Cell>)
    requires Written(g, gone, cells)
    ensures var (h, out) := Wrapped(g, 1); Ready(h, gone + Lines(out), cells) && h.cols == g.cols && h.rowCount == g.rowCount
  {
    WrappedShape(g, 1);
    if g.wrapPending {
      assert (|gone| + g.cursor.row + 1) * g.cols == (|gone| + g.cursor.row) * g.cols + g.cols;
      if g.cursor.row == g.bottom {
        IndexAtBottom(g);
        var h := Wrapped(g, 1).0;
        hide Index, Shape, Wrapped;
        assert gone + [g.rows[0]] + h.rows == gone + g.rows + [BlankLine(g.cols)];
        ReadsMoreRoom(gone + g.rows, g.cols, cells);
      } else {
        assert gone + [] == gone;
      }
    } else {
      assert gone + [] == gone;
    }
  }

  /** Writing at the cursor extends the text by one cell. */
  lemma ReadsOneMore(page: seq<Line>, cols: nat, cells: seq<Cell>, i: nat, j: nat, x: Cell)
    requires Reads(page, cols, cells) && i < |page| && j < cols && |cells| == i * cols + j
    ensures Reads(page[i := page[i][j := x]], cols, cells + [x])
  {
    FlattenUpdate(page, cols, i, j, x);
    FlattenLength(page, cols);
    var k := |page| * cols - |cells|;
    assert BlankLine(k)[0 := x] == [x] + BlankLine(k - 1);
    assert (cells + BlankLine(k))[|cells| := x] == cells + BlankLine(k)[0 := x];
    assert cells + ([x] + BlankLine(k - 1)) == (cells + [x]) + BlankLine(k - 1);
  }

  lemma PutWritten(h: Screen, gone: seq<Line>, cells: seq<Cell>, c: Glyph)
    requires Ready(h, gone, cells)
    ensures var line := PutGlyph(h.rows[h.cursor.row], h.cursor.col, c.ch, 1, c.attrs);
            var next := Advanced(EditRow(h, line), 1);
            Shape(next) ==> Written(next, gone, cells + [MakeCell(c.ch, c.attrs)])
  {
    var row, col, x := h.cursor.row, h.cursor.col, MakeCell(c.ch, c.attrs);
    var page := gone + h.rows;
    assert page[|gone| + row] == h.rows[row];
    ReadsOneMore(page, h.cols, cells, |gone| + row, col, x);
    hide Reads, Shape;
    assert page[|gone| + row := h.rows[row][col := x]] == gone + h.rows[row := h.rows[row][col := x]];
  }

  lemma PrintWritten(g: Screen, gone: seq<Line>, cells: seq<Cell>, c: Glyph)
    requires Written(g, gone, cells)
    ensures var (next, out) := Print(g, c.ch, 1, c.attrs);
            && Written(next, gone + Lines(out), cells + [MakeCell(c.ch, c.attrs)])
            && next.cols == g.cols && next.rowCount == g.rowCount
  {
    WrapReady(g, gone, cells);
    PrintShape(g, c.ch, 1, c.attrs);
    var (h, out) := Wrapped(g, 1);
    PutWritten(h, gone + Lines(out), cells, c);
    hide Ready, Written, Wrapped, PutGlyph;
  }

  lemma {:induction false} RunWritten(g: Screen, text: seq<Glyph>)
    requires Written(g, [], [])
    ensures Written(PrintRun(g, text).0, PrintRun(g, text).1, CellsOf(text))
    ensures PrintRun(g, text).0.cols == g.cols && PrintRun(g, text).0.rowCount == g.rowCount
    decreases |text|
  {
    if text == [] {
      assert CellsOf(text) == [];
    } else {
      var prefix, last := text[..|text| - 1], text[|text| - 1];
      assert CellsOf(text) == CellsOf(prefix) + [MakeCell(last.ch, last.attrs)];
      RunWritten(g, prefix);
      var (h, gone) := PrintRun(g, prefix);
      hide Written, Print, CellsOf, Shape;
      PrintWritten(h, gone, CellsOf(prefix), last);
    }
  }

  // ---- the theorem ----

  /** Where `n` characters leave the cursor, and how many lines have scrolled out. */
  ghost predicate Settled(g: Screen, gone: nat, n: nat)
    requires g.cols > 0
  {
    if n == 0 then g.cursor == Pos(0, 0) && !g.wrapPending && gone == 0
    else EndsAt(g, gone, (n - 1) / g.cols, (n - 1) % g.cols)
  }

  /** The last character is in this line and column, counting lines from the first one printed. */
  ghost predicate EndsAt(g: Screen, gone: nat, line: int, col: int) {
    && g.cursor.row == Min(line, g.rowCount - 1) && g.cursor.col == Min(col + 1, g.cols - 1)
    && g.wrapPending == (col == g.cols - 1)
    && gone == Max(0, line - (g.rowCount - 1))
  }

  lemma Divided(n: nat, q: nat, r: nat, d: nat)
    requires r < d && n == q * d + r
    ensures n / d == q && n % d == r
  {
    var k := n / d - q;
    assert n == (n / d) * d + n % d;
    assert k * d == (n / d) * d - q * d;
    assert k > 0 ==> k * d >= d;
    assert k < 0 ==> k * d + d <= 0;
  }

  lemma WrittenMeans(g: Screen, gone: seq<Line>, cells: seq<Cell>)
    requires Written(g, gone, cells)
    ensures Shape(g) && |cells| <= (|gone| + g.rowCount) * g.cols
    ensures Flatten(gone + g.rows) == cells + BlankLine((|gone| + g.rowCount) * g.cols - |cells|)
    ensures Settled(g, |gone|, |cells|)
  {
    BehindSettled(g, |gone|, |cells|);
  }

  lemma BehindSettled(g: Screen, gone: nat, n: nat)
    requires Shape(g) && Behind(g, gone, n)
    ensures Settled(g, gone, n)
  {
    var line := gone + g.cursor.row;
    var lines := line * g.cols;
    if n == 0 {
      assert line > 0 ==> lines >= g.cols;
    } else {
      var col := if g.wrapPending then g.cols - 1 else g.cursor.col - 1;
      assert EndsAt(g, gone, line, col);
      assert n - 1 == lines + col;
      hide EndsAt, Behind, Shape;
      Divided(n - 1, line, col, g.cols);
    }
  }

  lemma {:induction false} BlankPage(n: nat, cols: nat)
    ensures Flatten(BlankRows(n, cols)) == BlankLine(n * cols)
  {
    if n > 0 {
      BlankRowsSplit(n, cols);
      BlankPage(n - 1, cols);
      assert BlankRows(n, cols)[1..] == BlankRows(n - 1, cols);
      assert n * cols == cols + (n - 1) * cols;
    } else {
      assert BlankRows(n, cols) == [];
    }
  }

  lemma BlankWritten(cols: nat, rows: nat)
    requires Grid.Fits(cols, rows)
    ensures Written(NewScreen(cols, rows).value, [], [])
  {
    var g := NewScreen(cols, rows).value;
    BlankPage(rows, cols);
    assert g.rows == BlankRows(rows, cols) && [] + g.rows == g.rows;
    assert [] + BlankLine(rows * cols) == BlankLine(rows * cols);
    assert Even(g.rows, cols);
    BlankLineOk(cols);
    assert RowsOk(g.rows, cols);
    hide RowsOk, BlankLine, Flatten;
    assert 0 * cols == 0;
  }

  /** What a run leaves: lines scrolled out, then the live rows, read as the text and then blanks. */
  ghost predicate Lossless(run: (Screen, seq<Line>), text: seq<Glyph>) {
    var (g, gone) := run;
    && |text| <= (|gone| + g.rowCount) * g.cols
    && Flatten(gone + g.rows) == CellsOf(text) + BlankLine((|gone| + g.rowCount) * g.cols - |text|)
  }

  lemma WrittenLossless(g: Screen, gone: seq<Line>, text: seq<Glyph>)
    requires Written(g, gone, CellsOf(text))
    ensures Lossless((g, gone), text) && Settled(g, |gone|, |text|)
  {
    WrittenMeans(g, gone, CellsOf(text));
    hide Written, Flatten, Settled, CellsOf, BlankLine;
  }

  lemma RunReads(g0: Screen, text: seq<Glyph>)
    requires Written(g0, [], [])
    ensures Lossless(PrintRun(g0, text), text)
    ensures var (g, gone) := PrintRun(g0, text);
            g.cols == g0.cols && g.rowCount == g0.rowCount && Settled(g, |gone|, |text|)
  {
    hide PrintRun, Lossless, Settled, CellsOf;
    RunWritten(g0, text);
    var (g, gone) := PrintRun(g0, text);
    WrittenLossless(g, gone, text);
  }

  /** Printing any text of single-width characters on a new screen loses nothing; and the cursor, the
      pending wrap and the number of lines scrolled out are functions of the length alone. */
  lemma WrappingIsLossless(cols: nat, rows: nat, text: seq<Glyph>)
    requires Grid.Fits(cols, rows)
    ensures Shape(NewScreen(cols, rows).value)
    ensures var run := PrintRun(NewScreen(cols, rows).value, text);
            && Lossless(run, text) && run.0.cols == cols && run.0.rowCount == rows
            && Settled(run.0, |run.1|, |text|)
  {
    BlankWritten(cols, rows);
    RunReads(NewScreen(cols, rows).value, text);
  }
}
