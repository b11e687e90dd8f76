/** The screen as the program runs it: rows edited in place by loops, proved to follow the functions
    of `Grid`, so that everything proved about those holds of it. */
module GridMachine {
  import opened Options
  import opened Utf8
  import opened Grid
  import opened GridRuns
  import Spec = Grid

  /** Cut or pad a line to a width; clear a wide glyph cut in half at the edge. */
  method FitLine(given: Line, cols: nat) returns (line: Line)
    requires cols > 0
    ensures line == Normalized(given, cols)
  {
    line := given;
    if |line| > cols {
      line := line[..cols];
    }
    while |line| < cols
      invariant |line| <= cols
      invariant if |given| > cols then line == given[..cols] else |given| <= |line| && line == given + BlankLine(|line| - |given|)
    {
      line := line + [BLANK];
    }
    if line[cols - 1].flags.wide {
      line := line[cols - 1 := BLANK];
    }
  }

  class TerminalGrid {
    var rows: seq<Line>
    var cols: nat
    var rowCount: nat
    var cursor: Pos
    var saved: Pos
    var top: nat
    var bottom: nat
    var tabs: seq<bool>
    var wrapPending: bool
    var origin: bool
    var dirty: seq<bool>
    var dirtyAll: bool

    ghost function View(): Screen
      reads this
    {
      Screen(rows, cols, rowCount, cursor, saved, top, bottom, tabs, wrapPending, origin, dirty, dirtyAll)
    }

    ghost predicate Valid()
      reads this
    {
      Shape(View())
    }

    constructor (cols: nat, rows: nat)
      requires Spec.Fits(cols, rows)
      ensures Valid() && View() == NewScreen(cols, rows).value
    {
      this.rows := seq(rows, _ => BlankLine(cols));
      this.cols, this.rowCount := cols, rows;
      cursor, saved := Pos(0, 0), Pos(0, 0);
      top, bottom := 0, rows - 1;
      tabs := DefaultTabs(cols);
      wrapPending, origin := false, false;
      dirty := seq(rows, _ => true);
      dirtyAll := true;
      new;
      NewScreenShape(cols, rows);
    }

    // ---- dirty marks ----

    method MarkAllDirty()
      requires Valid()
      modifies `dirtyAll
      ensures Valid() && View() == AllDirty(old(View()))
    {
      dirtyAll := true;
    }

    /** Report what changed, and forget it. */
    method ConsumeDirty() returns (all: bool, listed: seq<nat>)
      requires Valid()
      modifies `dirty, `dirtyAll
      ensures Valid() && (View(), all, listed) == Consumed(old(View()))
    {
      all, listed := dirtyAll, [];
      if all {
        for i := 0 to rowCount
          modifies {}
          invariant listed == Range(i)
        {
          listed := listed + [i];
        }
      } else {
        for i := 0 to |dirty|
          modifies {}
          invariant listed + Marked(dirty, i) == Marked(dirty, 0)
        {
          if dirty[i] {
            assert listed + ([i] + Marked(dirty, i + 1)) == (listed + [i]) + Marked(dirty, i + 1);
            listed := listed + [i];
          } else {
            assert [] + Marked(dirty, i + 1) == Marked(dirty, i + 1);
          }
        }
      }
      assert !all ==> listed + [] == listed;
      dirtyAll := false;
      var n := |dirty|;
      for i := 0 to n
        modifies `dirty
        invariant |dirty| == n && forall k :: 0 <= k < i ==> !dirty[k]
      {
        dirty := dirty[i := false];
      }
      ghost var goal := Consumed(old(View()));
      assert dirty == goal.0.dirty && listed == goal.2;
    }

    method MarkDirtyRow(row: nat)
      requires |dirty| == rowCount
      modifies `dirty
      ensures View() == RowDirty(old(View()), row)
    {
      if row < rowCount {
        dirty := dirty[row := true];
      }
    }

    // ---- cursor ----

    method ClampCursor(row: nat, col: nat) returns (p: Pos)
      requires rowCount > 0 && cols > 0
      ensures p == Pos(Min(row, rowCount - 1), Min(col, cols - 1))
    {
      p := Pos(Min(row, rowCount - 1), Min(col, cols - 1));
    }

    method SetCursor(row: nat, col: nat)
      requires Valid()
      modifies `cursor, `wrapPending
      ensures Valid() && View() == Spec.SetCursor(old(View()), row, col)
    {
      var r := if origin then Min(top + row, bottom) else Min(row, rowCount - 1);
      cursor := ClampCursor(r, col);
      wrapPending := false;
    }

    method SetOriginMode(on: bool)
      requires Valid()
      modifies `origin, `cursor, `wrapPending
      ensures Valid() && View() == SetOrigin(old(View()), on)
    {
      origin := on;
      if on {
        cursor := Pos(top, 0);
      } else {
        cursor := Pos(0, 0);
      }
      wrapPending := false;
    }

    method SetScrollRegion(first: nat, last: nat)
      requires Valid()
      modifies `top, `bottom, `cursor, `wrapPending
      ensures Valid() && View() == SetRegion(old(View()), first, last)
    {
      var t, b := Min(first, rowCount - 1), Min(last, rowCount - 1);
      if b >= t {
        top, bottom := t, b;
      }
      SetCursor(0, 0);
    }

    method MoveCursor(drow: int, dcol: int)
      requires Valid()
      modifies `cursor, `wrapPending
      ensures Valid() && View() == Spec.MoveCursor(old(View()), drow, dcol)
    {
      var row, col := cursor.row + drow, cursor.col + dcol;
      cursor := Pos(Min(Max(row, 0), rowCount - 1), Min(Max(col, 0), cols - 1));
      wrapPending := false;
    }

    method SetCol(col: nat)
      requires Valid()
      modifies `cursor, `wrapPending
      ensures Valid() && View() == AtCol(old(View()), Min(col, cols - 1))
    {
      cursor := cursor.(col := Min(col, cols - 1));
      wrapPending := false;
    }

    method SetRow(row: nat)
      requires Valid()
      modifies `cursor, `wrapPending
      ensures Valid() && View() == AtRow(old(View()), Min(row, rowCount - 1))
    {
      cursor := cursor.(row := Min(row, rowCount - 1));
      wrapPending := false;
    }

    method CarriageReturn()
      requires Valid()
      modifies `cursor, `wrapPending
      ensures Valid() && View() == AtCol(old(View()), 0)
    {
      cursor := cursor.(col := 0);
      wrapPending := false;
    }

    method Backspace()
      requires Valid()
      modifies `cursor, `wrapPending
      ensures Valid() && View() == AtCol(old(View()), Max(old(cursor.col) - 1, 0))
    {
      if cursor.col > 0 {
        cursor := cursor.(col := cursor.col - 1);
      }
      wrapPending := false;
    }

    /** On to the next tab stop, or the last column. */
    method Tab()
      requires Valid()
      modifies `cursor, `wrapPending
      ensures Valid() && View() == AtCol(old(View()), NextStop(tabs, old(cursor.col) + 1, cols))
    {
      var next := cursor.col + 1;
      while next < cols && !tabs[next]
        invariant next <= cols
        invariant NextStop(tabs, next, cols) == NextStop(tabs, cursor.col + 1, cols)
      {
        next := next + 1;
      }
      cursor := cursor.(col := if next < cols then next else cols - 1);
      wrapPending := false;
    }

    method BackspaceToTab()
      requires Valid()
      modifies `cursor, `wrapPending
      ensures Valid() && View() == AtCol(old(View()), PreviousStop(tabs, old(cursor.col)))
    {
      var col := cursor.col;
      if col > 0 {
        while col > 0 && !tabs[col - 1]
          invariant col <= cursor.col && PreviousStop(tabs, col) == PreviousStop(tabs, cursor.col)
        {
          col := col - 1;
        }
        cursor := cursor.(col := if col > 0 then col - 1 else 0);
      }
      wrapPending := false;
    }

    method SetTabStop(on: bool)
      requires Valid()
      modifies `tabs
      ensures Valid() && View() == old(View()).(tabs := old(tabs)[cursor.col := on])
    {
      if cursor.col < |tabs| {
        tabs := tabs[cursor.col := on];
      }
    }

    method ClearAllTabStops()
      requires Valid()
      modifies `tabs
      ensures Valid() && View() == old(View()).(tabs := seq(|old(tabs)|, _ => false))
    {
      var n := |tabs|;
      for i := 0 to n
        invariant |tabs| == n && forall k :: 0 <= k < i ==> !tabs[k]
      {
        tabs := tabs[i := false];
      }
    }

    method SaveCursor()
      requires Valid()
      modifies `saved
      ensures Valid() && View() == old(View()).(saved := cursor)
    {
      saved := cursor;
    }

    method RestoreCursor()
      requires Valid()
      modifies `cursor, `wrapPending
      ensures Valid() && View() == Restore(old(View()))
    {
      cursor := ClampCursor(saved.row, saved.col);
      wrapPending := false;
    }

    // ---- scrolling ----

    /** `n` times: a row out at `at`, a blank one in at the bottom of the region. */
    method CycleUp(at: nat, n: nat) returns (out: seq<Line>)
      requires at < |rows| && bottom < |rows|
      modifies `rows
      ensures (rows, out) == DeleteRows(old(rows), at, bottom, cols, n)
    {
      out := [];
      ghost var goal := DeleteRows(rows, at, bottom, cols, n);
      assert [] + goal.1 == goal.1;
      for i := 0 to n
        invariant |rows| == |old(rows)|
        invariant var rest := DeleteRows(rows, at, bottom, cols, n - i); goal == (rest.0, out + rest.1)
      {
        ghost var rest := DeleteRows(rows, at, bottom, cols, n - i);
        var removed := rows[at];
        assert out + rest.1 == (out + [removed]) + rest.1[1..];
        rows := RemoveAt(rows, at);
        out := out + [removed];
        rows := InsertAt(rows, bottom, BlankLine(cols));
      }
      assert out + [] == out;
    }

    /** `n` times: a blank row in at `at`, the one pushed below the region out. */
    method CycleDown(at: nat, n: nat)
      requires at < |rows| && bottom < |rows|
      modifies `rows
      ensures rows == InsertRows(old(rows), at, bottom, cols, n)
    {
      for i := 0 to n
        invariant |rows| == |old(rows)|
        invariant InsertRows(rows, at, bottom, cols, n - i) == InsertRows(old(rows), at, bottom, cols, n)
      {
        rows := InsertAt(rows, at, BlankLine(cols));
        rows := RemoveAt(rows, bottom + 1);
      }
    }

    method ScrollUpRegion(n: nat) returns (out: seq<Line>)
      requires Valid()
      modifies `rows, `dirtyAll
      ensures Valid() && (View(), out) == ScrollUp(old(View()), n)
    {
      ghost var g := View();
      out := CycleUp(top, Min(n, bottom - top + 1));
      dirtyAll := true;
      DeleteShape(g, top, n);
      hide RowsOk, DeleteRows;
    }

    method ScrollDownRegion(n: nat)
      requires Valid()
      modifies `rows, `dirtyAll
      ensures Valid() && View() == ScrollDown(old(View()), n)
    {
      ghost var g := View();
      CycleDown(top, Min(n, bottom - top + 1));
      dirtyAll := true;
      InsertShape(g, top, n);
      hide RowsOk, InsertRows;
    }

    /** A line from history back onto the top of the region. */
    method PushLineFromScrollback(line: Line)
      requires Valid() && forall c :: c in line ==> CellOk(c)
      modifies `rows, `dirtyAll
      ensures Valid() && View() == PushLine(old(View()), line)
    {
      ghost var g := View();
      PushLineShape(g, line);
      ScrollDownRegion(1);
      hide ScrollDown, Normalized;
      var fit := FitLine(line, cols);
      rows := rows[top := fit];
      dirtyAll := true;
    }

    method InsertLines(n: nat)
      requires Valid()
      modifies `rows, `dirtyAll
      ensures Valid() && View() == Spec.InsertLines(old(View()), n)
    {
      ghost var g := View();
      CycleDown(cursor.row, Min(n, bottom - top + 1));
      dirtyAll := true;
      InsertShape(g, cursor.row, n);
      hide RowsOk, InsertRows;
    }

    method DeleteLines(n: nat) returns (removed: seq<Line>)
      requires Valid()
      modifies `rows, `dirtyAll
      ensures Valid() && (View(), removed) == Spec.DeleteLines(old(View()), n)
    {
      ghost var g := View();
      removed := CycleUp(cursor.row, Min(n, bottom - top + 1));
      dirtyAll := true;
      DeleteShape(g, cursor.row, n);
      hide RowsOk, DeleteRows;
    }

    // ---- moving down and up ----

    method Index() returns (scrolled: Option<Line>)
      requires Valid()
      modifies `rows, `dirtyAll, `cursor, `wrapPending
      ensures Valid() && (View(), scrolled) == Spec.Index(old(View()))
    {
      wrapPending := false;
      if cursor.row < bottom {
        cursor := cursor.(row := cursor.row + 1);
        scrolled := None;
      } else {
        var out := ScrollUpRegion(1);
        scrolled := if out == [] then None else Some(out[0]);
      }
    }

    method ReverseIndex() returns (atTop: bool)
      requires Valid()
      modifies `rows, `dirtyAll, `cursor, `wrapPending
      ensures Valid() && (View(), atTop) == Spec.ReverseIndex(old(View()))
    {
      wrapPending := false;
      if cursor.row > top {
        cursor := cursor.(row := cursor.row - 1);
        atTop := false;
      } else {
        ScrollDownRegion(1);
        atTop := true;
      }
    }

    method LineFeed() returns (scrolled: Option<Line>)
      requires Valid()
      modifies `rows, `dirtyAll, `cursor, `wrapPending
      ensures Valid() && (View(), scrolled) == Spec.Index(old(View()))
    {
      wrapPending := false;
      if cursor.row < bottom {
        cursor := cursor.(row := cursor.row + 1);
        scrolled := None;
      } else {
        var out := ScrollUpRegion(1);
        scrolled := if out == [] then None else Some(out[|out| - 1]);
      }
    }

    method NextLine() returns (scrolled: Option<Line>)
      requires Valid()
      modifies `rows, `dirtyAll, `cursor, `wrapPending
      ensures Valid() && (View(), scrolled) == Spec.Index(AtCol(old(View()), 0))
    {
      CarriageReturn();
      scrolled := LineFeed();
    }

    // ---- cells ----

    /** Blank the cells `from..to` of one row, one by one. */
    method BlankCells(row: nat, from: nat, to: nat)
      requires row < |rows| && from <= to <= |rows[row]|
      modifies `rows
      ensures rows == old(rows)[row := Blanked(old(rows)[row], from, to)]
    {
      assert Blanked(rows[row], from, from) == rows[row];
      for c := from to to
        invariant |rows| == |old(rows)| && rows == old(rows)[row := Blanked(old(rows)[row], from, c)]
      {
        assert Blanked(old(rows)[row], from, c)[c := BLANK] == Blanked(old(rows)[row], from, c + 1);
        rows := rows[row := rows[row][c := BLANK]];
      }
    }

    /** Blank the rows `from..to`. */
    method BlankWhole(from: nat, to: nat)
      requires from <= to <= |rows| && forall i :: 0 <= i < |rows| ==> |rows[i]| == cols
      modifies `rows
      ensures rows == old(rows)[..from] + BlankRows(to - from, cols) + old(rows)[to..]
    {
      for r := from to to
        invariant rows == old(rows)[..from] + BlankRows(r - from, cols) + old(rows)[r..]
        invariant forall i :: 0 <= i < |rows| ==> |rows[i]| == cols
      {
        assert Blanked(rows[r], 0, cols) == BlankLine(cols);
        BlankCells(r, 0, cols);
      }
    }

    /** Insert blank cells at the cursor; the line's end falls off. */
    method InsertChars(n: nat)
      requires Valid()
      modifies `rows, `dirty
      ensures Valid() && View() == Spec.InsertChars(old(View()), n)
    {
      InsertCharsKeeps(View(), n);
      hide RowsOk, Shape;
      var row, col := cursor.row, cursor.col;
      var k := Min(n, cols - col);
      var line := rows[row];
      line := line[..col] + BlankLine(k) + line[col..];
      line := line[..cols];
      rows := rows[row := line];
      MarkDirtyRow(row);
    }

    method DeleteChars(n: nat)
      requires Valid()
      modifies `rows, `dirty
      ensures Valid() && View() == Spec.DeleteChars(old(View()), n)
    {
      DeleteCharsKeeps(View(), n);
      hide RowsOk, Shape;
      var row, col := cursor.row, cursor.col;
      var k := Min(n, cols - col);
      var line := rows[row];
      line := line[..col] + line[col + k..];
      line := line + BlankLine(k);
      rows := rows[row := line];
      MarkDirtyRow(row);
    }

    method EraseChars(n: nat)
      requires Valid()
      modifies `rows, `dirty
      ensures Valid() && View() == Spec.EraseChars(old(View()), n)
    {
      EraseCharsKeeps(View(), n);
      hide RowsOk, Shape;
      var row, col := cursor.row, cursor.col;
      BlankCells(row, col, col + Min(n, cols - col));
      MarkDirtyRow(row);
    }

    method EraseInLine(mode: nat)
      requires Valid()
      modifies `rows, `dirty
      ensures Valid() && View() == Spec.EraseInLine(old(View()), mode)
    {
      EraseLineKeeps(View(), mode);
      hide RowsOk, Shape;
      var row, col := cursor.row, cursor.col;
      if mode == 0 {
        BlankCells(row, col, cols);
      } else if mode == 1 {
        BlankCells(row, 0, col + 1);
      } else {
        BlankCells(row, 0, cols);
      }
      MarkDirtyRow(row);
    }

    method EraseInDisplay(mode: nat)
      requires Valid()
      modifies `rows, `dirtyAll
      ensures Valid() && View() == Spec.EraseInDisplay(old(View()), mode)
    {
      WholeShape(View(), EraseDisplayOp(mode));
      hide Shape, RowsOk, ErasedRows;
      EraseRows(mode);
      dirtyAll := true;
    }

    method EraseRows(mode: nat)
      requires Valid()
      modifies `rows
      ensures rows == ErasedRows(old(View()), mode)
    {
      assert |rows| == rowCount && forall i :: 0 <= i < |rows| ==> |rows[i]| == cols;
      if mode == 0 {
        EraseBelow();
      } else if mode == 1 {
        EraseAbove();
      } else {
        BlankWhole(0, rowCount);
      }
      hide Shape, RowsOk, Blanked, BlankRows;
    }

    /** The cursor row from the cursor on, and every row below it. */
    method EraseBelow()
      requires Valid()
      modifies `rows
      ensures rows == old(rows)[..cursor.row] + [Blanked(old(rows)[cursor.row], cursor.col, cols)]
                    + BlankRows(rowCount - cursor.row - 1, cols)
    {
      var row, col := cursor.row, cursor.col;
      assert |rows| == rowCount && row < rowCount && col < cols && forall i :: 0 <= i < |rows| ==> |rows[i]| == cols;
      hide Shape, RowsOk, Blanked, BlankRows;
      BlankCells(row, col, cols);
      BlankWhole(row + 1, rowCount);
    }

    /** Every row above the cursor, and its own up to and with the cursor. */
    method EraseAbove()
      requires Valid()
      modifies `rows
      ensures rows == BlankRows(cursor.row, cols) + [Blanked(old(rows)[cursor.row], 0, cursor.col + 1)]
                    + old(rows)[cursor.row + 1..]
    {
      var row, col := cursor.row, cursor.col;
      assert |rows| == rowCount && row < rowCount && col < cols && forall i :: 0 <= i < |rows| ==> |rows[i]| == cols;
      hide Shape, RowsOk, Blanked, BlankRows;
      BlankWhole(0, row);
      BlankCells(row, 0, col + 1);
    }

    /** Print one character of the given display width. */
    method Print(ch: Scalar, width: nat, attrs: Attrs) returns (scrolled: Option<Line>)
      requires Valid()
      modifies `rows, `dirty, `dirtyAll, `cursor, `wrapPending
      ensures Valid() && (View(), scrolled) == Spec.Print(old(View()), ch, width, attrs)
    {
      PrintShape(View(), ch, width, attrs);
      scrolled := None;
      if width == 0 {
        JoinPrevious(ch);
        return;
      }
      scrolled := WrapIfNeeded(width);
      PutCell(ch, width, attrs);
      hide Shape, Wrapped;
      if cursor.col + width >= cols {
        cursor := cursor.(col := cols - 1);
        wrapPending := true;
      } else {
        cursor := cursor.(col := cursor.col + width);
        wrapPending := false;
      }
    }

    /** A zero-width character joins the cell before the cursor. */
    method JoinPrevious(ch: Scalar)
      requires Valid()
      modifies `rows, `dirty
      ensures View() == Combine(old(View()), ch)
    {
      if cursor.col > 0 {
        var row, col := cursor.row, cursor.col - 1;
        var cell := rows[row][col];
        if |cell.combining| < MAX_COMBINING {
          rows := rows[row := rows[row][col := cell.(combining := cell.combining + [ch])]];
          MarkDirtyRow(cursor.row);
        }
      }
    }

    method WrapIfNeeded(width: nat) returns (scrolled: Option<Line>)
      requires Valid()
      modifies `rows, `dirtyAll, `cursor, `wrapPending
      ensures Valid() && (View(), scrolled) == Wrapped(old(View()), width)
    {
      WrappedShape(View(), width);
      hide Shape, RowsOk;
      scrolled := None;
      if wrapPending || (width > 1 && cursor.col + width > cols) {
        scrolled := Index();
        cursor := cursor.(col := 0);
      }
    }

    method PutCell(ch: Scalar, width: nat, attrs: Attrs)
      requires Valid()
      modifies `rows, `dirty
      ensures View() == EditRow(old(View()), PutGlyph(old(rows)[cursor.row], cursor.col, ch, width, attrs))
    {
      var row, col := cursor.row, cursor.col;
      var line := rows[row];
      var cell := MakeCell(ch, attrs);
      if width == 2 {
        cell := cell.(flags := cell.flags.(wide := true));
      }
      rows := rows[row := rows[row][col := cell]];
      if width == 2 && col + 1 < cols {
        rows := rows[row := rows[row][col + 1 := CONTINUATION]];
      }
      assert rows[row] == PutGlyph(line, col, ch, width, attrs);
      MarkDirtyRow(row);
    }

    /** Write one cell, as the cell accessor lets its caller do; off the screen nothing happens. */
    method WriteCell(row: nat, col: nat, cell: Cell)
      requires Valid() && CellOk(cell)
      modifies `rows, `dirty
      ensures Valid() && View() == Spec.WriteCell(old(View()), row, col, cell)
    {
      WriteShape(View(), row, col, cell);
      if row >= rowCount || col >= cols {
        return;
      }
      MarkDirtyRow(row);
      rows := rows[row := rows[row][col := cell]];
      hide Shape, RowsOk;
    }

    // ---- whole screen ----

    /** Fill every cell with a character, row by row. */
    method FillScreen(ch: Scalar)
      requires Valid()
      modifies `rows, `cursor, `wrapPending, `dirtyAll
      ensures Valid() && View() == Spec.FillScreen(old(View()), ch)
    {
      WholeShape(View(), FillOp(ch));
      var full: Line := seq(cols, _ => BLANK.(ch := ch));
      var n := |rows|;
      for r := 0 to n
        modifies `rows
        invariant |rows| == n && forall i :: 0 <= i < n ==> |rows[i]| == cols
        invariant forall i :: 0 <= i < r ==> rows[i] == full
      {
        for c := 0 to cols
          modifies `rows
          invariant |rows| == n && forall i :: 0 <= i < n ==> |rows[i]| == cols
          invariant forall i :: 0 <= i < r ==> rows[i] == full
          invariant forall k :: 0 <= k < c ==> rows[r][k] == BLANK.(ch := ch)
        {
          rows := rows[r := rows[r][c := BLANK.(ch := ch)]];
        }
        assert rows[r] == full;
      }
      assert rows == seq(n, _ => full);
      assert LineOk(full, cols) && RowsOk(rows, cols);
      SetCursor(0, 0);
      dirtyAll := true;
    }

    method Clear()
      requires Valid()
      modifies `rows, `cursor, `wrapPending, `dirtyAll
      ensures Valid() && View() == Spec.Clear(old(View()))
    {
      WholeShape(View(), ClearOp);
      BlankWhole(0, |rows|);
      cursor := Pos(0, 0);
      wrapPending := false;
      dirtyAll := true;
    }

    /** Change size, keeping the top of the screen; a size out of bounds changes nothing. */
    method Resize(newCols: nat, newRows: nat) returns (ok: bool)
      requires Valid()
      modifies this
      ensures Valid() && ok == Spec.Fits(newCols, newRows)
      ensures View() == if ok then Resized(old(View()), newCols, newRows) else old(View())
    {
      ok := Spec.Fits(newCols, newRows);
      if !ok {
        return;
      }
      ResizedShape(View(), newCols, newRows);
      assert |rows| == rowCount && newCols > 0 && newRows > 0;
      hide Shape, RowsResized, Framed;
      Reshape(newCols, newRows);
      Reframe(newCols, newRows);
    }

    /** Sizes, cursors, region, tab stops and marks. */
    method Reframe(newCols: nat, newRows: nat)
      requires newCols > 0 && newRows > 0
      modifies this
      ensures View() == Framed(old(View()), newCols, newRows)
    {
      cols, rowCount := newCols, newRows;
      cursor := ClampCursor(cursor.row, cursor.col);
      saved := ClampCursor(saved.row, saved.col);
      ClampRegion(newRows);
      tabs := DefaultTabs(newCols);
      dirty := seq(newRows, _ => true);
      dirtyAll, wrapPending := true, false;
    }

    method ClampRegion(newRows: nat)
      requires newRows > 0
      modifies `top, `bottom
      ensures bottom == if old(bottom) >= newRows then newRows - 1 else old(bottom)
      ensures top == if old(top) > bottom then 0 else old(top)
    {
      if bottom >= newRows {
        bottom := newRows - 1;
      }
      if top > bottom {
        top := 0;
      }
    }

    method Reshape(newCols: nat, newRows: nat)
      requires |rows| == rowCount && newCols > 0
      modifies `rows
      ensures rows == RowsResized(old(View()), newCols, newRows)
    {
      KeepRows(newCols, newRows);
      FitRows(newCols);
      hide Normalized;
    }

    /** Rows at the bottom dropped or added. */
    method KeepRows(newCols: nat, newRows: nat)
      requires |rows| == rowCount
      modifies `rows
      ensures rows == if newRows < rowCount then old(rows)[..newRows] else old(rows) + BlankRows(newRows - rowCount, newCols)
    {
      if newRows < rowCount {
        rows := rows[..newRows];
      } else {
        for i := 0 to newRows - rowCount
          invariant rows == old(rows) + BlankRows(i, newCols)
        {
          rows := rows + [BlankLine(newCols)];
        }
      }
    }

    /** Every row cut or padded to the new width. */
    method FitRows(newCols: nat)
      requires newCols > 0
      modifies `rows
      ensures |rows| == |old(rows)| && forall i :: 0 <= i < |rows| ==> rows[i] == Normalized(old(rows)[i], newCols)
    {
      for i := 0 to |rows|
        invariant |rows| == |old(rows)|
        invariant forall k :: 0 <= k < i ==> rows[k] == Normalized(old(rows)[k], newCols)
        invariant forall k :: i <= k < |rows| ==> rows[k] == old(rows)[k]
      {
        var line := FitLine(rows[i], newCols);
        rows := rows[i := line];
      }
    }
  }
}
