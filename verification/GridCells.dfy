/** The screen cell by cell: where every cell, the cursor, the region and the tab stops come from after
    each operation, without looking at how the operation cuts and joins rows. */
module GridCells {
  import opened Options
  import opened Utf8
  import opened Grid
  import opened GridRuns
  import opened GridScroll

  /** As many rows and columns as before, and nothing but cells and dirty marks may differ. */
  ghost predicate OnlyCells(g: Screen, h: Screen) {
    && h == g.(rows := h.rows, dirty := h.dirty, dirtyAll := h.dirtyAll)
    && |h.rows| == g.rowCount && forall i :: 0 <= i < g.rowCount ==> |h.rows[i]| == g.cols
  }

  /** Row `i`, column `j` is read before `p`. */
  predicate Before(i: nat, j: nat, p: Pos) { i < p.row || (i == p.row && j < p.col) }

  // ---- erasing ----

  lemma BlankedAt(line: Line, from: nat, to: nat, j: nat)
    requires from <= to <= |line| && j < |line|
    ensures Blanked(line, from, to)[j] == if from <= j < to then BLANK else line[j]
  {
  }

  /** Erase in display: mode 0 blanks the cursor's cell and everything read after it, mode 1 the cursor's
      cell and everything read before it, any other mode the screen; every other cell stays. */
  lemma EraseDisplayCells(g: Screen, mode: nat)
    requires Shape(g)
    ensures var h := EraseInDisplay(g, mode);
            && OnlyCells(g, h)
            && forall i, j :: 0 <= i < g.rowCount && 0 <= j < g.cols ==>
                 h.rows[i][j] == if (mode == 0 && Before(i, j, g.cursor))
                                    || (mode == 1 && !Before(i, j, g.cursor) && Pos(i, j) != g.cursor)
                                 then g.rows[i][j] else BLANK
  {
    forall i, j | 0 <= i < g.rowCount && 0 <= j < g.cols
      ensures var h := EraseInDisplay(g, mode);
              |h.rows[i]| == g.cols
              && h.rows[i][j] == if (mode == 0 && Before(i, j, g.cursor))
                                    || (mode == 1 && !Before(i, j, g.cursor) && Pos(i, j) != g.cursor)
                                 then g.rows[i][j] else BLANK
    {
      EraseDisplayAt(g, mode, i, j);
    }
    assert forall i :: 0 <= i < g.rowCount ==> |EraseInDisplay(g, mode).rows[i]| == g.cols;
  }

  lemma EraseDisplayAt(g: Screen, mode: nat, i: nat, j: nat)
    requires Shape(g) && i < g.rowCount && j < g.cols
    ensures var h := EraseInDisplay(g, mode);
            && |h.rows| == g.rowCount && |h.rows[i]| == g.cols
            && h.rows[i][j] == if (mode == 0 && Before(i, j, g.cursor))
                                  || (mode == 1 && !Before(i, j, g.cursor) && Pos(i, j) != g.cursor)
                               then g.rows[i][j] else BLANK
  {
    hide LineOk;
    assert LineOk(g.rows[i], g.cols) && LineOk(g.rows[g.cursor.row], g.cols);
    RowLength(g.rows[i], g.cols);
    RowLength(g.rows[g.cursor.row], g.cols);
  }

  lemma RowLength(line: Line, cols: nat)
    requires LineOk(line, cols)
    ensures |line| == cols
  {
  }

  /** One row edited at the cursor, the other rows left alone. */
  ghost predicate RowEdited(g: Screen, h: Screen) {
    && OnlyCells(g, h) && g.cursor.row < g.rowCount == |g.rows|
    && forall i :: 0 <= i < g.rowCount && i != g.cursor.row ==> h.rows[i] == g.rows[i]
  }

  lemma EditRowMeans(g: Screen, line: Line)
    requires Shape(g) && |line| == g.cols
    ensures RowEdited(g, EditRow(g, line)) && EditRow(g, line).rows[g.cursor.row] == line
  {
  }

  /** Erase in line, the same within the cursor's row. */
  lemma EraseLineCells(g: Screen, mode: nat)
    requires Shape(g)
    ensures var h := EraseInLine(g, mode);
            && RowEdited(g, h)
            && forall j :: 0 <= j < g.cols ==>
                 h.rows[g.cursor.row][j] == if (mode == 0 && j < g.cursor.col) || (mode == 1 && j > g.cursor.col)
                                            then g.rows[g.cursor.row][j] else BLANK
  {
    EditRowMeans(g, EraseInLine(g, mode).rows[g.cursor.row]);
  }

  /** Erasing characters blanks as many cells from the cursor on, as far as there are. */
  lemma EraseCharsCells(g: Screen, n: nat)
    requires Shape(g)
    ensures var h := EraseChars(g, n);
            && RowEdited(g, h)
            && forall j :: 0 <= j < g.cols ==>
                 h.rows[g.cursor.row][j] == if g.cursor.col <= j < g.cursor.col + n then BLANK else g.rows[g.cursor.row][j]
  {
    EditRowMeans(g, EraseChars(g, n).rows[g.cursor.row]);
  }

  // ---- inserting and deleting ----

  /** Inserting characters moves the rest of the row right; what passes the edge is lost. */
  lemma InsertCharsCells(g: Screen, n: nat)
    requires Shape(g)
    ensures var h := InsertChars(g, n);
            && RowEdited(g, h)
            && forall j :: 0 <= j < g.cols ==>
                 h.rows[g.cursor.row][j] == if j < g.cursor.col then g.rows[g.cursor.row][j]
                                            else if j < g.cursor.col + n then BLANK
                                            else g.rows[g.cursor.row][j - n]
  {
    EditRowMeans(g, InsertChars(g, n).rows[g.cursor.row]);
  }

  /** Deleting characters moves the rest of the row left and blanks the end. */
  lemma DeleteCharsCells(g: Screen, n: nat)
    requires Shape(g)
    ensures var h := DeleteChars(g, n);
            && RowEdited(g, h)
            && forall j :: 0 <= j < g.cols ==>
                 h.rows[g.cursor.row][j] == if j < g.cursor.col then g.rows[g.cursor.row][j]
                                            else if j + n < g.cols then g.rows[g.cursor.row][j + n]
                                            else BLANK
  {
    EditRowMeans(g, DeleteChars(g, n).rows[g.cursor.row]);
  }

  /** Row `i` after `n` insertions at `at`. */
  lemma InsertedRowAt(rows: seq<Line>, at: nat, bottom: nat, cols: nat, n: nat, i: nat)
    requires at <= bottom < |rows| && i < |rows|
    ensures InsertRows(rows, at, bottom, cols, n)[i] == if i < at || i > bottom then rows[i]
                                                        else if i < at + n then BlankLine(cols) else rows[i - n]
  {
    var room := bottom + 1 - at;
    if n <= room {
      InsertRowsClosed(rows, at, bottom, cols, n);
    } else {
      InsertRowsAll(rows, at, bottom, cols, n);
    }
    hide InsertRows, BlankLine;
  }

  /** Inserting lines moves the rows from the cursor to the region's end down; no more than the region's
      height is inserted. */
  lemma InsertLinesRows(g: Screen, n: nat)
    requires Shape(g) && g.cursor.row <= g.bottom
    ensures var h := InsertLines(g, n);
            var k := Min(n, g.bottom + 1 - g.top);
            && h == g.(rows := h.rows, dirtyAll := true) && |h.rows| == g.rowCount
            && forall i :: 0 <= i < g.rowCount ==>
                 h.rows[i] == if i < g.cursor.row || i > g.bottom then g.rows[i]
                              else if i < g.cursor.row + k then BlankLine(g.cols)
                              else g.rows[i - k]
  {
    hide InsertRows, RowsOk, BlankLine;
    forall i | 0 <= i < g.rowCount
      ensures InsertLines(g, n).rows[i] == var k := Min(n, g.bottom + 1 - g.top);
                                           if i < g.cursor.row || i > g.bottom then g.rows[i]
                                           else if i < g.cursor.row + k then BlankLine(g.cols) else g.rows[i - k]
    {
      InsertedRowAt(g.rows, g.cursor.row, g.bottom, g.cols, Min(n, Height(g)), i);
    }
  }

  /** Row `i` after `n` deletions at `at`, and line `i` taken out. */
  ghost predicate RowDeleted(rows: seq<Line>, at: nat, bottom: nat, cols: nat, n: nat, i: nat)
    requires at <= bottom < |rows| && i < |rows|
  {
    var (r, out) := DeleteRows(rows, at, bottom, cols, n);
    && (r[i] == if i < at || i > bottom then rows[i] else if i + n <= bottom then rows[i + n] else BlankLine(cols))
    && (i < n ==> out[i] == if at + i <= bottom then rows[at + i] else BlankLine(cols))
  }

  lemma DeletedRowAt(rows: seq<Line>, at: nat, bottom: nat, cols: nat, n: nat, i: nat)
    requires at <= bottom < |rows| && i < |rows|
    ensures RowDeleted(rows, at, bottom, cols, n, i)
  {
    var room := bottom + 1 - at;
    if n <= room {
      DeleteRowsClosed(rows, at, bottom, cols, n);
      hide DeleteRows, BlankLine;
      var r, k := DeleteRows(rows, at, bottom, cols, n).0, bottom + 1 - n;
      if i < at {
        assert r[i] == rows[..at][i];
      } else if i < k {
        assert r[i] == rows[at + n..bottom + 1][i - at];
      } else if i <= bottom {
        assert r[i] == BlankRows(n, cols)[i - k];
      } else {
        assert r[i] == rows[bottom + 1..][i - bottom - 1];
      }
    } else {
      DeletedAll(rows, at, bottom, cols, n);
      hide DeleteRows, BlankLine, BlankRows;
    }
  }

  /** More deletions than rows: all go, and then blank ones. */
  lemma DeletedAll(rows: seq<Line>, at: nat, bottom: nat, cols: nat, n: nat)
    requires at <= bottom < |rows| && n > bottom + 1 - at
    ensures var (r, out) := DeleteRows(rows, at, bottom, cols, n);
            var room := bottom + 1 - at;
            && r == rows[..at] + BlankRows(room, cols) + rows[bottom + 1..]
            && out[..room] == rows[at..bottom + 1] && forall i :: room <= i < n ==> out[i] == BlankLine(cols)
  {
    var room := bottom + 1 - at;
    DeleteRowsClosed(rows, at, bottom, cols, room);
    var (rest, out) := DeleteRows(rows, at, bottom, cols, room);
    DeleteRowsMore(rows, at, bottom, cols, room, n - room);
    hide DeleteRows, BlankLine;
    assert rest == rows[..at] + BlankRows(room, cols) + rows[bottom + 1..];
    assert forall k :: at <= k <= bottom ==> rest[k] == BlankLine(cols);
    DeleteBlanks(rest, at, bottom, cols, n - room);
  }

  /** Deleting lines moves the rows below the cursor up and blanks the region's end; the lines taken out
      are reported in order. */
  lemma DeleteLinesRows(g: Screen, n: nat)
    requires Shape(g) && g.top <= g.cursor.row <= g.bottom
    ensures var (h, out) := DeleteLines(g, n);
            && h == g.(rows := h.rows, dirtyAll := true) && |h.rows| == g.rowCount
            && |out| == Min(n, g.bottom + 1 - g.top)
            && (forall i :: 0 <= i < |out| ==>
                  out[i] == if g.cursor.row + i <= g.bottom then g.rows[g.cursor.row + i] else BlankLine(g.cols))
            && forall i :: 0 <= i < g.rowCount ==>
                 h.rows[i] == if i < g.cursor.row || i > g.bottom then g.rows[i]
                              else if i + n <= g.bottom then g.rows[i + n]
                              else BlankLine(g.cols)
  {
    hide DeleteRows, RowsOk, BlankLine;
    var k := Min(n, Height(g));
    forall i | 0 <= i < g.rowCount
      ensures RowDeleted(g.rows, g.cursor.row, g.bottom, g.cols, k, i)
    {
      DeletedRowAt(g.rows, g.cursor.row, g.bottom, g.cols, k, i);
    }
    var (h, out) := DeleteLines(g, n);
    forall i | 0 <= i < |out|
      ensures out[i] == if g.cursor.row + i <= g.bottom then g.rows[g.cursor.row + i] else BlankLine(g.cols)
    {
      assert RowDeleted(g.rows, g.cursor.row, g.bottom, g.cols, k, i);
    }
    forall i {:trigger h.rows[i]} | 0 <= i < g.rowCount
      ensures h.rows[i] == if i < g.cursor.row || i > g.bottom then g.rows[i]
                           else if i + n <= g.bottom then g.rows[i + n] else BlankLine(g.cols)
    {
      assert RowDeleted(g.rows, g.cursor.row, g.bottom, g.cols, k, i);
    }
  }

  lemma {:induction false} DeleteRowsMore(rows: seq<Line>, at: nat, bottom: nat, cols: nat, n: nat, m: nat)
    requires at <= bottom < |rows|
    ensures var (r, a) := DeleteRows(rows, at, bottom, cols, n);
            var (q, b) := DeleteRows(r, at, bottom, cols, m);
            DeleteRows(rows, at, bottom, cols, n + m) == (q, a + b)
    decreases n
  {
    if n == 0 {
      var (q, b) := DeleteRows(rows, at, bottom, cols, m);
      assert [] + b == b;
    } else {
      var next := InsertAt(RemoveAt(rows, at), bottom, BlankLine(cols));
      DeleteRowsMore(next, at, bottom, cols, n - 1, m);
      var (r, a) := DeleteRows(next, at, bottom, cols, n - 1);
      var (q, b) := DeleteRows(r, at, bottom, cols, m);
      assert [rows[at]] + (a + b) == [rows[at]] + a + b;
    }
  }

  lemma {:induction false} DeleteBlanks(rows: seq<Line>, at: nat, bottom: nat, cols: nat, n: nat)
    requires at <= bottom < |rows| && forall i :: at <= i <= bottom ==> rows[i] == BlankLine(cols)
    ensures DeleteRows(rows, at, bottom, cols, n).0 == rows
    ensures forall i :: 0 <= i < n ==> DeleteRows(rows, at, bottom, cols, n).1[i] == BlankLine(cols)
    decreases n
  {
    if n > 0 {
      assert InsertAt(RemoveAt(rows, at), bottom, BlankLine(cols)) == rows;
      DeleteBlanks(rows, at, bottom, cols, n - 1);
    }
  }

  // ---- up and down ----

  /** Index: one row down above the region's end, else the region moves up a row and its top one leaves. */
  lemma IndexMeans(g: Screen)
    requires Shape(g)
    ensures var (h, out) := Index(g);
            if g.cursor.row < g.bottom
            then h == g.(cursor := Pos(g.cursor.row + 1, g.cursor.col), wrapPending := false) && out == None
            else && h == g.(rows := h.rows, wrapPending := false, dirtyAll := true) && |h.rows| == g.rowCount
                 && out == Some(g.rows[g.top])
                 && forall i :: 0 <= i < g.rowCount ==>
                      h.rows[i] == if i < g.top || i > g.bottom then g.rows[i]
                                   else if i < g.bottom then g.rows[i + 1] else BlankLine(g.cols)
  {
    DeleteRowsClosed(g.rows, g.top, g.bottom, g.cols, 1);
    hide DeleteRows, RowsOk, BlankLine;
  }

  /** Reverse index: one row up below the region's top, else the region moves down a row. */
  lemma ReverseIndexMeans(g: Screen)
    requires Shape(g)
    ensures var (h, scrolled) := ReverseIndex(g);
            && scrolled == (g.cursor.row <= g.top)
            && if !scrolled then h == g.(cursor := Pos(g.cursor.row - 1, g.cursor.col), wrapPending := false)
               else && h == g.(rows := h.rows, wrapPending := false, dirtyAll := true) && |h.rows| == g.rowCount
                    && forall i :: 0 <= i < g.rowCount ==>
                         h.rows[i] == if i < g.top || i > g.bottom then g.rows[i]
                                      else if i > g.top then g.rows[i - 1] else BlankLine(g.cols)
  {
    InsertRowsClosed(g.rows, g.top, g.bottom, g.cols, 1);
    hide InsertRows, RowsOk, BlankLine;
  }

  // ---- printing ----

  /** The glyph goes to the next line first: a wrap was due, or the row has no room for it. */
  predicate Breaks(g: Screen, width: nat) { g.wrapPending || g.cursor.col + width > g.cols }

  /** The screen a glyph is written on. */
  ghost function Under(g: Screen, width: nat): Screen
    requires Shape(g)
  {
    if Breaks(g, width) then Index(g).0 else g
  }

  /** Where it starts. */
  ghost function StartsAt(g: Screen, width: nat): Pos
    requires Shape(g)
  {
    Pos(Under(g, width).cursor.row, if Breaks(g, width) then 0 else g.cursor.col)
  }

  /** What cell `j` of the glyph's row holds when it starts at `col`: the glyph, the continuation of a wide
      one, or what was there. */
  function Glyph(ch: Scalar, width: nat, a: Attrs, col: nat, j: nat, was: Cell): Cell {
    if j == col then Cell(ch, a.fg, a.bg, if width == 2 then a.flags.(wide := true) else a.flags, [])
    else if width == 2 && j == col + 1 then Cell(0, 0, 0, Flags(false, true, 0), [])
    else was
  }

  /** Printing a glyph: it has all its cells on one row, so a wide one never starts in the last column; a
      wide one lies on two adjacent cells, the second its continuation; no other cell of the screen it is
      written on changes; and the cursor waits behind it, in the last column if there is nothing behind. */
  lemma PrintCells(g: Screen, ch: Scalar, width: nat, a: Attrs)
    requires Shape(g) && 1 <= width <= 2
    ensures var (h, out) := Print(g, ch, width, a);
            var u, p := Under(g, width), StartsAt(g, width);
            && Shape(h) && Shape(u) && h.cols == u.cols == g.cols && h.rowCount == u.rowCount == g.rowCount
            && p.row < g.rowCount && p.col + width <= g.cols
            && (forall i :: 0 <= i < g.rowCount && i != p.row ==> h.rows[i] == u.rows[i])
            && (forall j :: 0 <= j < g.cols ==> h.rows[p.row][j] == Glyph(ch, width, a, p.col, j, u.rows[p.row][j]))
            && h.cursor == Pos(p.row, Min(p.col + width, g.cols - 1)) && h.wrapPending == (p.col + width == g.cols)
            && out == if Breaks(g, width) then Index(g).1 else None
  {
    IndexShape(g);
    PrintShape(g, ch, width, a);
    WrappedShape(g, width);
    var (w, out) := Wrapped(g, width);
    assert w == Under(g, width).(cursor := StartsAt(g, width));
    hide Index, Wrapped, RowsOk;
    WrittenCells(w, ch, width, a);
  }

  lemma WrittenCells(w: Screen, ch: Scalar, width: nat, a: Attrs)
    requires Shape(w) && 1 <= width <= 2 && w.cursor.col + width <= w.cols
    ensures var h := EditRow(w, PutGlyph(w.rows[w.cursor.row], w.cursor.col, ch, width, a));
            && RowEdited(w, h)
            && forall j :: 0 <= j < w.cols ==>
                 h.rows[w.cursor.row][j] == Glyph(ch, width, a, w.cursor.col, j, w.rows[w.cursor.row][j])
  {
    EditRowMeans(w, PutGlyph(w.rows[w.cursor.row], w.cursor.col, ch, width, a));
  }

  /** A zero-width mark joins the cell before the cursor, at most two of them, and moves nothing. */
  lemma MarkCells(g: Screen, mark: Scalar, a: Attrs)
    requires Shape(g)
    ensures var (h, out) := Print(g, mark, 0, a);
            && RowEdited(g, h) && out == None
            && forall j :: 0 <= j < g.cols ==>
                 var was := g.rows[g.cursor.row][j];
                 h.rows[g.cursor.row][j]
                 == if j + 1 == g.cursor.col && |was.combining| < 2 then was.(combining := was.combining + [mark]) else was
  {
    if g.cursor.col > 0 {
      var line, col := g.rows[g.cursor.row], g.cursor.col - 1;
      EditRowMeans(g, line[col := line[col].(combining := line[col].combining + [mark])]);
    }
  }

  /** A mark printed right behind a glyph is meant for it, but joins it only if the cursor stands one column
      behind the glyph's first cell: behind a narrow glyph that does not end the row, or a wide one that does. */
  lemma MarkJoinsIff(g: Screen, ch: Scalar, width: nat, a: Attrs, mark: Scalar)
    requires Shape(g) && 1 <= width <= 2
    ensures var h := Print(g, ch, width, a).0;
            var p := StartsAt(g, width);
            && Shape(h) && p.row < h.rowCount == |h.rows| && p.col < h.cols && OnlyCells(h, Print(h, mark, 0, a).0)
            && (Print(h, mark, 0, a).0.rows[p.row][p.col].combining == [mark] <==> (width == 1) == !h.wrapPending)
  {
    PrintCells(g, ch, width, a);
    var h := Print(g, ch, width, a).0;
    MarkCells(h, mark, a);
    var p := StartsAt(g, width);
    assert h.rows[p.row][p.col].combining == [];
    hide Print, Shape, StartsAt, Under;
  }

  // ---- size ----

  /** Resizing keeps the cells in the top left corner, but for a wide glyph cut by the new edge, and blanks the
      rest; cursor and saved cursor stay on screen where they were or at the edge; the region ends at the edge
      if it was cut, and starts at the top if nothing is left of it; tab stops are the default ones. */
  lemma ResizeCells(g: Screen, cols: nat, rows: nat)
    requires Shape(g) && Grid.Fits(cols, rows)
    ensures Resize(g, cols, rows) == Some(Resized(g, cols, rows))
    ensures var h := Resized(g, cols, rows);
            && Shape(h) && h.cols == cols && h.rowCount == rows
            && (forall i, j :: 0 <= i < rows && 0 <= j < cols ==>
                  h.rows[i][j] == if i < g.rowCount && j < g.cols && !(j == cols - 1 && g.rows[i][j].flags.wide)
                                  then g.rows[i][j] else BLANK)
            && h.cursor == Pos(Min(g.cursor.row, rows - 1), Min(g.cursor.col, cols - 1))
            && h.saved == Pos(Min(g.saved.row, rows - 1), Min(g.saved.col, cols - 1))
            && h.bottom == Min(g.bottom, rows - 1) && h.top == (if g.top < rows then g.top else 0)
            && (forall c :: 0 <= c < cols ==> h.tabs[c] == (c % 8 == 0))
            && h.origin == g.origin && !h.wrapPending && h.dirtyAll
  {
    ResizedShape(g, cols, rows);
    forall i, j | 0 <= i < rows && 0 <= j < cols
      ensures var h := Resized(g, cols, rows);
              |h.rows| == rows && |h.rows[i]| == cols
              && h.rows[i][j] == if i < g.rowCount && j < g.cols && !(j == cols - 1 && g.rows[i][j].flags.wide)
                                 then g.rows[i][j] else BLANK
    {
      ResizedAt(g, cols, rows, i, j);
    }
    hide RowsResized, RowsOk;
  }

  lemma ResizedAt(g: Screen, cols: nat, rows: nat, i: nat, j: nat)
    requires Shape(g) && Grid.Fits(cols, rows) && i < rows && j < cols
    ensures var h := Resized(g, cols, rows);
            && |h.rows| == rows && |h.rows[i]| == cols
            && h.rows[i][j] == if i < g.rowCount && j < g.cols && !(j == cols - 1 && g.rows[i][j].flags.wide)
                               then g.rows[i][j] else BLANK
  {
    if i < g.rowCount {
      assert LineOk(g.rows[i], g.cols);
      NormalizedAt(g.rows[i], cols, j);
    } else {
      NormalizedAt(BlankLine(cols), cols, j);
    }
    hide Normalized, LineOk, RowsOk;
  }

  /** A line cut or padded, cell by cell. */
  lemma NormalizedAt(line: Line, cols: nat, j: nat)
    requires j < cols
    ensures Normalized(line, cols)[j] == if j < |line| && !(j == cols - 1 && line[j].flags.wide) then line[j] else BLANK
  {
  }

  // ---- the cursor ----

  /** Absolute positions count from the region's top under origin mode, else from the screen's, and stop at
      the edges; relative ones stop at the edges of the screen. */
  lemma CursorMoves(g: Screen, row: nat, col: nat, drow: int, dcol: int)
    requires Shape(g)
    ensures var p := SetCursor(g, row, col).cursor;
            && p.col == (if col < g.cols then col else g.cols - 1)
            && (if g.origin then g.top <= p.row <= g.bottom && (g.top + row <= g.bottom ==> p.row == g.top + row)
                                 && (g.top + row > g.bottom ==> p.row == g.bottom)
                else p.row == if row < g.rowCount then row else g.rowCount - 1)
    ensures var p, was := MoveCursor(g, drow, dcol).cursor, g.cursor;
            && (p.row == was.row + drow || (p.row == 0 && was.row + drow < 0) || (p.row == g.rowCount - 1 && was.row + drow > p.row))
            && (p.col == was.col + dcol || (p.col == 0 && was.col + dcol < 0) || (p.col == g.cols - 1 && was.col + dcol > p.col))
    ensures SetCursor(g, row, col) == g.(cursor := SetCursor(g, row, col).cursor, wrapPending := false)
    ensures MoveCursor(g, drow, dcol) == g.(cursor := MoveCursor(g, drow, dcol).cursor, wrapPending := false)
  {
  }

  /** A scroll region is taken over if it has rows, and the cursor goes home either way: to the region's top
      under origin mode, else to the screen's. */
  lemma RegionMeans(g: Screen, top: nat, bottom: nat)
    requires Shape(g)
    ensures var h := SetRegion(g, top, bottom);
            && (if top <= bottom || bottom >= g.rowCount - 1
                then h.top == Min(top, g.rowCount - 1) && h.bottom == Min(bottom, g.rowCount - 1)
                else h.top == g.top && h.bottom == g.bottom)
            && h.cursor == Pos(if g.origin then h.top else 0, 0)
            && h == g.(top := h.top, bottom := h.bottom, cursor := h.cursor, wrapPending := false)
    ensures forall on :: SetOrigin(g, on)
                         == g.(origin := on, cursor := Pos(if on then g.top else 0, 0), wrapPending := false)
  {
  }

  /** To a column or row, as far as the edge; back one, as far as the first column. A tab stop set or cleared is the one
      under the cursor. */
  lemma SmallMoves(g: Screen, col: nat, row: nat, on: bool)
    requires Shape(g)
    ensures Apply(g, ColOp(col)) == MovedTo(g, g.cursor.row, if col < g.cols then col else g.cols - 1)
    ensures Apply(g, RowOp(row)) == MovedTo(g, if row < g.rowCount then row else g.rowCount - 1, g.cursor.col)
    ensures Apply(g, BackspaceOp) == MovedTo(g, g.cursor.row, if g.cursor.col > 0 then g.cursor.col - 1 else 0)
    ensures var h := Apply(g, SetTabOp(on));
            && h == g.(tabs := h.tabs) && |h.tabs| == g.cols
            && forall c :: 0 <= c < g.cols ==> h.tabs[c] == if c == g.cursor.col then on else g.tabs[c]
    ensures var h := Apply(g, ClearTabsOp);
            h == g.(tabs := h.tabs) && |h.tabs| == g.cols && forall c :: 0 <= c < g.cols ==> !h.tabs[c]
  {
    hide RowsOk, LineOk;
  }

  /** To the nearest tab stop in either direction, nothing else changing. */
  lemma TabMoves(g: Screen) returns (next: nat, previous: nat)
    requires Shape(g)
    ensures Apply(g, TabOp) == MovedTo(g, g.cursor.row, next) && NearestBehind(g.tabs, g.cursor.col, next)
    ensures Apply(g, BackTabOp) == MovedTo(g, g.cursor.row, previous) && NearestAhead(g.tabs, g.cursor.col, previous)
  {
    NextStopIsNearest(g.tabs, g.cursor.col + 1, g.cols);
    PreviousStopIsNearest(g.tabs, g.cursor.col);
    next, previous := NextStop(g.tabs, g.cursor.col + 1, g.cols), PreviousStop(g.tabs, g.cursor.col);
    hide NextStop, PreviousStop, RowsOk, LineOk;
  }

  function MovedTo(g: Screen, row: nat, col: nat): Screen { g.(cursor := Pos(row, col), wrapPending := false) }

  ghost predicate NearestBehind(tabs: seq<bool>, col: nat, c: nat) {
    && c < |tabs| && (forall k :: col < k < c ==> !tabs[k])
    && ((col < c && tabs[c]) || (c == |tabs| - 1 && forall k :: col < k < |tabs| ==> !tabs[k]))
  }

  ghost predicate NearestAhead(tabs: seq<bool>, col: nat, c: nat) {
    && c <= col <= |tabs| && (forall k :: c < k < col ==> !tabs[k])
    && ((c < col && tabs[c]) || (c == 0 && forall k :: 0 <= k < col ==> !tabs[k]))
  }

  /** A new line is an index from the first column. */
  lemma NextLineMeans(g: Screen)
    requires Shape(g)
    ensures var h := Apply(g, NextLineOp);
            h.cursor == Pos(if g.cursor.row < g.bottom then g.cursor.row + 1 else g.cursor.row, 0)
            && h.rows == Apply(g, IndexOp).rows
  {
    IndexMeans(g);
    IndexMeans(AtCol(g, 0));
    hide RowsOk;
    var a, b := Index(g).0, Index(AtCol(g, 0)).0;
    assert a.rows == b.rows;
    hide Index;
  }

  /** Tab goes to the nearest stop behind the cursor, or to the last column if there is none. */
  lemma {:induction false} NextStopIsNearest(tabs: seq<bool>, from: nat, to: nat)
    requires 0 < to <= |tabs|
    ensures var c := NextStop(tabs, from, to);
            && c < to && (forall k :: from <= k < c ==> !tabs[k])
            && ((from <= c && tabs[c]) || (c == to - 1 && forall k :: from <= k < to ==> !tabs[k]))
    decreases if from < to then to - from else 0
  {
    if from < to && !tabs[from] {
      NextStopIsNearest(tabs, from + 1, to);
    }
  }

  /** Back-tab goes to the nearest stop before the cursor, or to the first column. */
  lemma {:induction false} PreviousStopIsNearest(tabs: seq<bool>, col: nat)
    requires col <= |tabs|
    ensures var c := PreviousStop(tabs, col);
            && c <= col && (forall k :: c < k < col ==> !tabs[k])
            && ((c < col && tabs[c]) || (c == 0 && forall k :: 0 <= k < col ==> !tabs[k]))
  {
    if col > 0 && !tabs[col - 1] {
      PreviousStopIsNearest(tabs, col - 1);
    }
  }

  // ---- save and restore ----

  ghost function ApplyAll(g: Screen, ops: seq<Op>): (r: Screen)
    requires Shape(g) && forall i :: 0 <= i < |ops| ==> OpOk(ops[i])
    ensures Shape(r)
    decreases |ops|
  {
    if ops == [] then g
    else
      ApplyShape(g, ops[0]);
      ApplyAll(Apply(g, ops[0]), ops[1..])
  }

  /** Whatever happens in between, short of another save or a resize, restoring brings the cursor back to
      where it was saved. */
  lemma {:induction false} RestoreBringsBack(g: Screen, ops: seq<Op>)
    requires Shape(g) && forall i :: 0 <= i < |ops| ==> OpOk(ops[i]) && !ops[i].SaveOp? && !ops[i].ResizeOp?
    ensures Shape(Apply(g, SaveOp))
    ensures var h := ApplyAll(Apply(g, SaveOp), ops);
            Apply(h, RestoreOp) == MovedTo(h, g.cursor.row, g.cursor.col)
  {
    var start := g.(saved := g.cursor);
    assert Apply(g, SaveOp) == start && Shape(start);
    SavedStays(start, ops);
    var h := ApplyAll(start, ops);
    hide ApplyAll;
    assert Shape(h);
    assert h.saved == g.cursor && h.cols == g.cols && h.rowCount == g.rowCount;
    assert Apply(h, RestoreOp) == Grid.Restore(h);
    hide Apply;
  }

  lemma {:induction false} SavedStays(g: Screen, ops: seq<Op>)
    requires Shape(g) && forall i :: 0 <= i < |ops| ==> OpOk(ops[i]) && !ops[i].SaveOp? && !ops[i].ResizeOp?
    ensures var h := ApplyAll(g, ops); h.saved == g.saved && h.cols == g.cols && h.rowCount == g.rowCount
    decreases |ops|
  {
    if ops != [] {
      ApplyShape(g, ops[0]);
      SavedStep(g, ops[0]);
      var next := Apply(g, ops[0]);
      hide Apply, Shape;
      SavedStays(next, ops[1..]);
    }
  }

  lemma SavedStep(g: Screen, op: Op)
    requires Shape(g) && !op.SaveOp? && !op.ResizeOp?
    ensures var h := Apply(g, op); h.saved == g.saved && h.cols == g.cols && h.rowCount == g.rowCount
  {
    if MovesLines(op) {
      LineOpsSaved(g, op);
    } else if Edits(op) {
      EditOpsSaved(g, op);
    } else {
      hide RowsOk, LineOk, NextStop, PreviousStop;
    }
  }

  predicate MovesLines(op: Op) {
    || op.PrintOp? || op.IndexOp? || op.ReverseIndexOp? || op.NextLineOp? || op.ScrollUpOp? || op.ScrollDownOp?
    || op.InsertLinesOp? || op.DeleteLinesOp? || op.PushLineOp?
  }

  predicate Edits(op: Op) {
    || op.InsertCharsOp? || op.DeleteCharsOp? || op.EraseCharsOp? || op.EraseLineOp? || op.EraseDisplayOp? || op.FillOp?
    || op.ClearOp? || op.WriteOp?
  }

  lemma LineOpsSaved(g: Screen, op: Op)
    requires Shape(g) && MovesLines(op)
    ensures SavedSame(g, Apply(g, op))
  {
    hide RowsOk, LineOk, Print, Index, ReverseIndex, ScrollUp, ScrollDown, PushLine, InsertLines, DeleteLines;
    match op
    case PrintOp(ch, width, attrs) => PrintSaved(g, ch, width, attrs);
    case IndexOp => ScrollsSaved(g);
    case ReverseIndexOp => ScrollsSaved(g);
    case NextLineOp => ScrollsSaved(AtCol(g, 0));
    case ScrollUpOp(n) => LinesSaved(g, n, BlankLine(g.cols));
    case ScrollDownOp(n) => LinesSaved(g, n, BlankLine(g.cols));
    case InsertLinesOp(n) => LinesSaved(g, n, BlankLine(g.cols));
    case DeleteLinesOp(n) => LinesSaved(g, n, BlankLine(g.cols));
    case PushLineOp(line) => LinesSaved(g, 1, line);
  }

  lemma EditOpsSaved(g: Screen, op: Op)
    requires Shape(g) && Edits(op)
    ensures SavedSame(g, Apply(g, op))
  {
    hide RowsOk, LineOk, InsertChars, DeleteChars, EraseChars, EraseInLine, EraseInDisplay, FillScreen, Clear, WriteCell;
    match op
    case InsertCharsOp(n) => EditsSaved(g, n);
    case DeleteCharsOp(n) => EditsSaved(g, n);
    case EraseCharsOp(n) => EditsSaved(g, n);
    case EraseLineOp(mode) => EditsSaved(g, mode);
    case EraseDisplayOp(mode) => WholeSaved(g, mode, 0, 0, BLANK);
    case FillOp(ch) => WholeSaved(g, ch, 0, 0, BLANK);
    case ClearOp => WholeSaved(g, 0, 0, 0, BLANK);
    case WriteOp(row, col, cell) => WholeSaved(g, 0, row, col, cell);
  }

  /** Cursor saved, width and height as before. */
  predicate SavedSame(g: Screen, h: Screen) { h.saved == g.saved && h.cols == g.cols && h.rowCount == g.rowCount }

  lemma EditsSaved(g: Screen, n: nat)
    requires Shape(g)
    ensures SavedSame(g, InsertChars(g, n)) && SavedSame(g, DeleteChars(g, n))
    ensures SavedSame(g, EraseChars(g, n)) && SavedSame(g, EraseInLine(g, n))
  {
    hide Blanked, CellInsert, CellDelete, RowsOk, LineOk;
  }

  lemma WholeSaved(g: Screen, n: nat, row: nat, col: nat, cell: Cell)
    requires Shape(g)
    ensures SavedSame(g, EraseInDisplay(g, n)) && SavedSame(g, Clear(g)) && SavedSame(g, WriteCell(g, row, col, cell))
    ensures forall ch: Scalar :: SavedSame(g, FillScreen(g, ch))
  {
    hide ErasedRows, RowsOk, LineOk;
  }

  lemma PrintSaved(g: Screen, ch: Scalar, width: nat, a: Attrs)
    requires Shape(g)
    ensures SavedSame(g, Print(g, ch, width, a).0)
  {
    WrappedShape(g, width);
    hide DeleteRows, RowsOk, LineOk, PutGlyph;
  }

  lemma ScrollsSaved(g: Screen)
    requires Shape(g)
    ensures SavedSame(g, Index(g).0) && SavedSame(g, ReverseIndex(g).0)
  {
    hide DeleteRows, InsertRows, RowsOk;
  }

  lemma LinesSaved(g: Screen, n: nat, line: Line)
    requires Shape(g)
    ensures SavedSame(g, ScrollUp(g, n).0) && SavedSame(g, ScrollDown(g, n)) && SavedSame(g, PushLine(g, line))
    ensures SavedSame(g, InsertLines(g, n)) && SavedSame(g, DeleteLines(g, n).0)
  {
    hide DeleteRows, InsertRows, RowsOk, Normalized;
  }

  // ---- the whole screen ----

  /** A new screen, if its size is within bounds: blank, the cursor in the corner, the region the whole screen, a tab
      stop every eight columns, everything to be drawn. */
  lemma NewScreenIs(cols: nat, rows: nat)
    ensures NewScreen(cols, rows).Some? <==> 2 <= cols <= 4096 && 1 <= rows <= 4096
    ensures NewScreen(cols, rows).Some? ==>
              var g := NewScreen(cols, rows).value;
              && g.cols == cols && g.rowCount == |g.rows| == rows && (forall i :: 0 <= i < rows ==> g.rows[i] == BlankLine(cols))
              && g.cursor == g.saved == Pos(0, 0) && g.top == 0 && g.bottom == rows - 1
              && |g.tabs| == cols && (forall c :: 0 <= c < cols ==> g.tabs[c] == (c % 8 == 0))
              && !g.wrapPending && !g.origin && g.dirtyAll
  {
  }

  /** Filling gives every cell the character and nothing else, and goes home. */
  lemma FillCells(g: Screen, ch: Scalar)
    requires Shape(g)
    ensures var h := FillScreen(g, ch);
            && h == g.(rows := h.rows, cursor := Pos(if g.origin then g.top else 0, 0), wrapPending := false, dirtyAll := true)
            && |h.rows| == g.rowCount
            && forall i :: 0 <= i < g.rowCount ==>
                 |h.rows[i]| == g.cols && forall j :: 0 <= j < g.cols ==> h.rows[i][j] == Cell(ch, 0, 0, Flags(false, false, 0), [])
  {
  }

  /** Clearing blanks every cell and goes to the corner; writing one cell changes that one, if it is on screen. */
  lemma ClearAndWriteCells(g: Screen, row: nat, col: nat, cell: Cell)
    requires Shape(g)
    ensures var h := Clear(g);
            && h == g.(rows := h.rows, cursor := Pos(0, 0), wrapPending := false, dirtyAll := true)
            && |h.rows| == g.rowCount && forall i :: 0 <= i < g.rowCount ==> h.rows[i] == BlankLine(g.cols)
    ensures var h := WriteCell(g, row, col, cell);
            && OnlyCells(g, h)
            && forall i, j :: 0 <= i < g.rowCount && 0 <= j < g.cols ==>
                 h.rows[i][j] == if i == row && j == col then cell else g.rows[i][j]
  {
  }
}
