/** Every operation on the screen in any order: the shape is kept, dirty marks miss no change, and a
    copy refreshed from them alone never differs from the screen. */
module GridRuns {
  import opened Utf8
  import opened Grid

  datatype Op =
    | PrintOp(ch: Scalar, width: nat, attrs: Attrs)
    | SetCursorOp(row: nat, col: nat)
    | SetOriginOp(on: bool)
    | SetRegionOp(top: nat, bottom: nat)
    | MoveOp(drow: int, dcol: int)
    | ColOp(col: nat)
    | RowOp(row: nat)
    | BackspaceOp
    | TabOp
    | BackTabOp
    | SetTabOp(on: bool)
    | ClearTabsOp
    | SaveOp
    | RestoreOp
    | IndexOp
    | ReverseIndexOp
    | NextLineOp
    | ScrollUpOp(n: nat)
    | ScrollDownOp(n: nat)
    | PushLineOp(line: Line)
    | InsertCharsOp(n: nat)
    | DeleteCharsOp(n: nat)
    | EraseCharsOp(n: nat)
    | EraseLineOp(mode: nat)
    | EraseDisplayOp(mode: nat)
    | InsertLinesOp(n: nat)
    | DeleteLinesOp(n: nat)
    | FillOp(ch: Scalar)
    | ResizeOp(cols: nat, rows: nat)
    | ClearOp
    | WriteOp(row: nat, col: nat, cell: Cell)
    | MarkAllOp

  predicate CellOk(c: Cell) { |c.combining| <= MAX_COMBINING }

  /** Cells handed in from outside carry at most two combining marks. */
  ghost predicate OpOk(op: Op) {
    match op
    case PushLineOp(line) => forall c :: c in line ==> CellOk(c)
    case WriteOp(_, _, cell) => CellOk(cell)
    case _ => true
  }

  ghost function Apply(g: Screen, op: Op): Screen
    requires Shape(g)
  {
    match op
    case PrintOp(ch, width, attrs) => Print(g, ch, width, attrs).0
    case SetCursorOp(row, col) => SetCursor(g, row, col)
    case SetOriginOp(on) => SetOrigin(g, on)
    case SetRegionOp(top, bottom) => SetRegion(g, top, bottom)
    case MoveOp(drow, dcol) => MoveCursor(g, drow, dcol)
    case ColOp(col) => AtCol(g, Min(col, g.cols - 1))
    case RowOp(row) => AtRow(g, Min(row, g.rowCount - 1))
    case BackspaceOp => AtCol(g, Max(g.cursor.col - 1, 0))
    case TabOp => AtCol(g, NextStop(g.tabs, g.cursor.col + 1, g.cols))
    case BackTabOp => AtCol(g, PreviousStop(g.tabs, g.cursor.col))
    case SetTabOp(on) => g.(tabs := g.tabs[g.cursor.col := on])
    case ClearTabsOp => g.(tabs := seq(|g.tabs|, _ => false))
    case SaveOp => g.(saved := g.cursor)
    case RestoreOp => Restore(g)
    case IndexOp => Index(g).0
    case ReverseIndexOp => ReverseIndex(g).0
    case NextLineOp => Index(AtCol(g, 0)).0
    case ScrollUpOp(n) => ScrollUp(g, n).0
    case ScrollDownOp(n) => ScrollDown(g, n)
    case PushLineOp(line) => PushLine(g, line)
    case InsertCharsOp(n) => InsertChars(g, n)
    case DeleteCharsOp(n) => DeleteChars(g, n)
    case EraseCharsOp(n) => EraseChars(g, n)
    case EraseLineOp(mode) => EraseInLine(g, mode)
    case EraseDisplayOp(mode) => EraseInDisplay(g, mode)
    case InsertLinesOp(n) => InsertLines(g, n)
    case DeleteLinesOp(n) => DeleteLines(g, n).0
    case FillOp(ch) => FillScreen(g, ch)
    case ResizeOp(cols, rows) => if Fits(cols, rows) then Resized(g, cols, rows) else g
    case ClearOp => Clear(g)
    case WriteOp(row, col, cell) => WriteCell(g, row, col, cell)
    case MarkAllOp => AllDirty(g)
  }

  // ---- shape ----

  lemma StopsInRange(tabs: seq<bool>, from: nat, to: nat, col: nat)
    requires 0 < to <= |tabs| && col < |tabs|
    ensures NextStop(tabs, from, to) < to
    ensures PreviousStop(tabs, col) <= col
  {
    NextStopInRange(tabs, from, to);
    PreviousStopInRange(tabs, col);
  }

  lemma {:induction false} NextStopInRange(tabs: seq<bool>, from: nat, to: nat)
    requires 0 < to <= |tabs|
    ensures NextStop(tabs, from, to) < to
    decreases if from < to then to - from else 0
  {
    if from < to && !tabs[from] { NextStopInRange(tabs, from + 1, to); }
  }

  lemma {:induction false} PreviousStopInRange(tabs: seq<bool>, col: nat)
    requires col <= |tabs|
    ensures PreviousStop(tabs, col) <= Max(col - 1, 0)
  {
    if col > 0 && !tabs[col - 1] { PreviousStopInRange(tabs, col - 1); }
  }

  lemma EditRowShape(g: Screen, line: Line)
    requires Shape(g) && LineOk(line, g.cols)
    ensures Shape(EditRow(g, line))
  {
    hide LineOk;
  }

  lemma LineOkFrom(line: Line, a: Line, cols: nat)
    requires LineOk(a, |a|) && |line| == cols && forall i :: 0 <= i < |line| ==> line[i] in a || line[i] == BLANK
    ensures LineOk(line, cols)
  {
  }

  lemma CursorShape(g: Screen, op: Op)
    requires Shape(g)
    requires op.SetCursorOp? || op.SetOriginOp? || op.SetRegionOp? || op.MoveOp? || op.ColOp? || op.RowOp? || op.BackspaceOp?
          || op.TabOp? || op.BackTabOp? || op.SetTabOp? || op.ClearTabsOp? || op.SaveOp? || op.RestoreOp? || op.MarkAllOp?
    ensures Shape(Apply(g, op))
    ensures Apply(g, op).rows == g.rows && Apply(g, op).dirty == g.dirty && Apply(g, op).cols == g.cols
    ensures Apply(g, op).dirtyAll == (g.dirtyAll || op.MarkAllOp?) && Apply(g, op).rowCount == g.rowCount
  {
    StopsInRange(g.tabs, g.cursor.col + 1, g.cols, g.cursor.col);
    hide RowsOk, NextStop, PreviousStop;
  }

  lemma RowsShape(g: Screen, op: Op)
    requires Shape(g)
    requires op.ScrollUpOp? || op.ScrollDownOp? || op.InsertLinesOp? || op.DeleteLinesOp? || op.IndexOp? || op.ReverseIndexOp? || op.NextLineOp?
    ensures Shape(Apply(g, op)) && Apply(g, op).cols == g.cols && Apply(g, op).rowCount == g.rowCount
    ensures Apply(g, op).dirty == g.dirty && (g.dirtyAll ==> Apply(g, op).dirtyAll)
    ensures Apply(g, op).dirtyAll || Apply(g, op).rows == g.rows
  {
    hide RowsOk, DeleteRows, InsertRows, LineOk, Clamp, NextStop, PreviousStop;
    match op
    case ScrollUpOp(n) => DeleteShape(g, g.top, n);
    case ScrollDownOp(n) => InsertShape(g, g.top, n);
    case InsertLinesOp(n) => InsertShape(g, g.cursor.row, n);
    case DeleteLinesOp(n) => DeleteShape(g, g.cursor.row, n);
    case IndexOp => DeleteShape(g, g.top, 1);
    case ReverseIndexOp => InsertShape(g, g.top, 1);
    case NextLineOp => DeleteShape(g, g.top, 1);
  }

  lemma DeleteShape(g: Screen, at: nat, n: nat)
    requires Shape(g) && at < g.rowCount
    ensures RowsOk(DeleteRows(g.rows, at, g.bottom, g.cols, Min(n, Height(g))).0, g.cols)
  {
    DeleteRowsOk(g.rows, at, g.bottom, g.cols, Min(n, Height(g)));
  }

  lemma InsertShape(g: Screen, at: nat, n: nat)
    requires Shape(g) && at < g.rowCount
    ensures RowsOk(InsertRows(g.rows, at, g.bottom, g.cols, Min(n, Height(g))), g.cols)
  {
    InsertRowsOk(g.rows, at, g.bottom, g.cols, Min(n, Height(g)));
  }

  lemma NormalizedOk(line: Line, cols: nat)
    requires cols > 0 && forall c :: c in line ==> CellOk(c)
    ensures LineOk(Normalized(line, cols), cols)
  {
    var r := Normalized(line, cols);
    assert forall i :: 0 <= i < |line| ==> line[i] in line;
    forall i | 0 <= i < |r| ensures CellOk(r[i]) {
    }
  }

  lemma PushLineShape(g: Screen, line: Line)
    requires Shape(g) && forall c :: c in line ==> CellOk(c)
    ensures Shape(PushLine(g, line))
  {
    RowsShape(g, ScrollDownOp(1));
    NormalizedOk(line, g.cols);
    hide ScrollDown, LineOk, Normalized, CellOk;
  }

  lemma CellInsertOk(line: Line, col: nat, n: nat, cols: nat)
    requires col + n <= cols == |line| && LineOk(line, cols)
    ensures LineOk(CellInsert(line, col, n, cols), cols)
  {
    assert forall i :: 0 <= i < |line| ==> line[i] in line;
    LineOkFrom(CellInsert(line, col, n, cols), line, cols);
  }

  lemma CellDeleteOk(line: Line, col: nat, n: nat)
    requires col + n <= |line| && LineOk(line, |line|)
    ensures LineOk(CellDelete(line, col, n), |line|)
  {
    assert forall i :: 0 <= i < |line| ==> line[i] in line;
    LineOkFrom(CellDelete(line, col, n), line, |line|);
  }

  lemma BlankedOk(line: Line, from: nat, to: nat)
    requires from <= to <= |line| && LineOk(line, |line|)
    ensures LineOk(Blanked(line, from, to), |line|)
  {
    assert forall i :: 0 <= i < |line| ==> line[i] in line;
    LineOkFrom(Blanked(line, from, to), line, |line|);
  }

  lemma WholeShape(g: Screen, op: Op)
    requires Shape(g) && OpOk(op)
    requires op.EraseDisplayOp? || op.FillOp? || op.ClearOp?
    ensures Shape(Apply(g, op)) && Apply(g, op).dirtyAll
  {
    var line, row, col := g.rows[g.cursor.row], g.cursor.row, g.cursor.col;
    BlankLineOk(g.cols);
    assert LineOk(line, g.cols);
    BlankedOk(line, col, g.cols);
    BlankedOk(line, 0, col + 1);
    match op
    case FillOp(ch) => assert LineOk(seq(g.cols, _ => BLANK.(ch := ch)), g.cols);
    case _ => hide LineOk, Blanked;
  }

  lemma ResizedShape(g: Screen, cols: nat, rows: nat)
    requires Shape(g) && Fits(cols, rows)
    ensures Shape(Resized(g, cols, rows)) && Resized(g, cols, rows).dirtyAll
  {
    BlankLineOk(cols);
    var kept := if rows < g.rowCount then g.rows[..rows] else g.rows + BlankRows(rows - g.rowCount, cols);
    forall i | 0 <= i < rows ensures LineOk(Normalized(kept[i], cols), cols) {
      assert LineOk(kept[i], |kept[i]|);
      NormalizedOk(kept[i], cols);
    }
    assert RowsOk(RowsResized(g, cols, rows), cols);
    hide Normalized, LineOk, RowsResized;
  }

  lemma PutGlyphOk(line: Line, col: nat, ch: Scalar, width: nat, a: Attrs)
    requires col < |line| && LineOk(line, |line|)
    ensures LineOk(PutGlyph(line, col, ch, width, a), |line|)
  {
    var r := PutGlyph(line, col, ch, width, a);
    assert forall i :: 0 <= i < |line| ==> line[i] in line;
    forall i | 0 <= i < |r| ensures CellOk(r[i]) {
    }
  }

  lemma PrintShape(g: Screen, ch: Scalar, width: nat, a: Attrs)
    requires Shape(g)
    ensures Shape(Print(g, ch, width, a).0) && Print(g, ch, width, a).0.cols == g.cols
  {
    if width == 0 {
      CombineShape(g, ch);
    } else {
      WrappedShape(g, width);
      var h := Wrapped(g, width).0;
      var line := h.rows[h.cursor.row];
      PutGlyphOk(line, h.cursor.col, ch, width, a);
      hide Wrapped, PutGlyph, LineOk;
      EditRowShape(h, PutGlyph(line, h.cursor.col, ch, width, a));
    }
  }

  lemma CombineShape(g: Screen, ch: Scalar)
    requires Shape(g)
    ensures Shape(Combine(g, ch)) && Combine(g, ch).cols == g.cols
  {
    if g.cursor.col > 0 {
      var line, col := g.rows[g.cursor.row], g.cursor.col - 1;
      if |line[col].combining| < MAX_COMBINING {
        var changed := line[col := line[col].(combining := line[col].combining + [ch])];
        assert forall i :: 0 <= i < |line| ==> line[i] in line;
        assert LineOk(changed, g.cols) by {
          assert LineOk(line, g.cols);
        }
        EditRowShape(g, changed);
      }
    }
  }

  /** Every operation, with any arguments, keeps the shape: row count, row width, cursor and saved
      cursor on the screen, a proper scroll region, table lengths, at most two combining marks. */
  lemma ApplyShape(g: Screen, op: Op)
    requires Shape(g) && OpOk(op)
    ensures Shape(Apply(g, op))
  {
    hide LineOk, RowsOk, Print, Index, ReverseIndex, ScrollUp, ScrollDown, PushLine, InsertChars, DeleteChars, EraseChars,
         EraseInLine, EraseInDisplay, InsertLines, DeleteLines, FillScreen, Resized, Clear;
    match op
    case PrintOp(ch, width, attrs) => PrintShape(g, ch, width, attrs);
    case ScrollUpOp(_) => RowsShape(g, op);
    case ScrollDownOp(_) => RowsShape(g, op);
    case InsertLinesOp(_) => RowsShape(g, op);
    case DeleteLinesOp(_) => RowsShape(g, op);
    case IndexOp => RowsShape(g, op);
    case ReverseIndexOp => RowsShape(g, op);
    case NextLineOp => RowsShape(g, op);
    case PushLineOp(line) => PushLineShape(g, line);
    case InsertCharsOp(n) => InsertCharsKeeps(g, n);
    case DeleteCharsOp(n) => DeleteCharsKeeps(g, n);
    case EraseCharsOp(n) => EraseCharsKeeps(g, n);
    case EraseLineOp(mode) => EraseLineKeeps(g, mode);
    case EraseDisplayOp(_) => WholeShape(g, op);
    case FillOp(_) => WholeShape(g, op);
    case ClearOp => WholeShape(g, op);
    case ResizeOp(cols, rows) => if Fits(cols, rows) { ResizedShape(g, cols, rows); }
    case WriteOp(row, col, cell) => WriteShape(g, row, col, cell);
    case _ => CursorShape(g, op);
  }

  lemma InsertCharsKeeps(g: Screen, n: nat)
    requires Shape(g)
    ensures Shape(InsertChars(g, n)) && Tracked(g, InsertChars(g, n))
  {
    var line, col, k := g.rows[g.cursor.row], g.cursor.col, CharRoom(g, n);
    assert LineOk(line, g.cols);
    CellInsertOk(line, col, k, g.cols);
    EditKeeps(g, CellInsert(line, col, k, g.cols));
  }

  lemma DeleteCharsKeeps(g: Screen, n: nat)
    requires Shape(g)
    ensures Shape(DeleteChars(g, n)) && Tracked(g, DeleteChars(g, n))
  {
    var line, col, k := g.rows[g.cursor.row], g.cursor.col, CharRoom(g, n);
    assert LineOk(line, g.cols);
    CellDeleteOk(line, col, k);
    EditKeeps(g, CellDelete(line, col, k));
  }

  lemma EraseCharsKeeps(g: Screen, n: nat)
    requires Shape(g)
    ensures Shape(EraseChars(g, n)) && Tracked(g, EraseChars(g, n))
  {
    var line, col, k := g.rows[g.cursor.row], g.cursor.col, CharRoom(g, n);
    assert LineOk(line, g.cols);
    BlankedOk(line, col, col + k);
    EditKeeps(g, Blanked(line, col, col + k));
  }

  lemma EraseLineKeeps(g: Screen, mode: nat)
    requires Shape(g)
    ensures Shape(EraseInLine(g, mode)) && Tracked(g, EraseInLine(g, mode))
  {
    var line, col := g.rows[g.cursor.row], g.cursor.col;
    assert LineOk(line, g.cols);
    var from, to := if mode == 0 then col else 0, if mode == 1 then col + 1 else g.cols;
    BlankedOk(line, from, to);
    EditKeeps(g, Blanked(line, from, to));
  }

  lemma EditKeeps(g: Screen, line: Line)
    requires Shape(g) && LineOk(line, g.cols)
    ensures Shape(EditRow(g, line)) && Tracked(g, EditRow(g, line))
  {
    EditRowShape(g, line);
    EditRowTracked(g, line);
  }

  lemma WriteShape(g: Screen, row: nat, col: nat, cell: Cell)
    requires Shape(g) && CellOk(cell)
    ensures Shape(WriteCell(g, row, col, cell)) && Tracked(g, WriteCell(g, row, col, cell))
  {
    if row < g.rowCount && col < g.cols {
      var line := g.rows[row];
      assert LineOk(line, g.cols);
      assert forall i :: 0 <= i < |line| ==> line[i] in line;
      assert LineOk(line[col := cell], g.cols);
      hide LineOk;
    }
  }

  // ---- dirty marks ----

  /** From `g` to `h` every changed row is marked, no mark is lost, and any change of size marks all. */
  ghost predicate Tracked(g: Screen, h: Screen) {
    && (g.dirtyAll ==> h.dirtyAll)
    && (h.dirtyAll ||
        (|h.rows| == |g.rows| && |h.dirty| == |g.dirty| == |g.rows|
         && forall i :: 0 <= i < |g.rows| ==> (g.dirty[i] ==> h.dirty[i]) && (h.rows[i] != g.rows[i] ==> h.dirty[i])))
  }

  lemma EditRowTracked(g: Screen, line: Line)
    requires Shape(g)
    ensures Tracked(g, EditRow(g, line))
  {
    hide RowsOk;
  }

  lemma TrackedTwice(g: Screen, h: Screen, k: Screen)
    requires Tracked(g, h) && Tracked(h, k)
    ensures Tracked(g, k)
  {
  }

  lemma PrintTracked(g: Screen, ch: Scalar, width: nat, a: Attrs)
    requires Shape(g)
    ensures Tracked(g, Print(g, ch, width, a).0)
  {
    if width == 0 {
      if g.cursor.col > 0 {
        var line, col := g.rows[g.cursor.row], g.cursor.col - 1;
        EditRowTracked(g, line[col := line[col].(combining := line[col].combining + [ch])]);
      }
      hide EditRow, RowsOk;
    } else {
      WrappedShape(g, width);
      WrappedTracked(g, width);
      var h := Wrapped(g, width).0;
      var line := h.rows[h.cursor.row];
      hide Wrapped, PutGlyph, Shape;
      EditRowTracked(h, PutGlyph(line, h.cursor.col, ch, width, a));
      TrackedTwice(g, h, EditRow(h, PutGlyph(line, h.cursor.col, ch, width, a)));
    }
  }

  lemma WrappedTracked(g: Screen, width: nat)
    requires Shape(g)
    ensures Tracked(g, Wrapped(g, width).0)
  {
    RowsShape(g, IndexOp);
    hide RowsOk, Index;
  }

  /** No operation changes a row without leaving a mark for it. */
  lemma ApplyTracked(g: Screen, op: Op)
    requires Shape(g) && OpOk(op)
    ensures Tracked(g, Apply(g, op))
  {
    hide LineOk, RowsOk, Print, Index, ReverseIndex, ScrollUp, ScrollDown, InsertChars, DeleteChars, EraseChars,
         EraseInLine, InsertLines, DeleteLines, Resized;
    match op
    case PrintOp(ch, width, attrs) => PrintTracked(g, ch, width, attrs);
    case ScrollUpOp(_) => RowsShape(g, op);
    case ScrollDownOp(_) => RowsShape(g, op);
    case InsertLinesOp(_) => RowsShape(g, op);
    case DeleteLinesOp(_) => RowsShape(g, op);
    case IndexOp => RowsShape(g, op);
    case ReverseIndexOp => RowsShape(g, op);
    case NextLineOp => RowsShape(g, op);
    case PushLineOp(line) =>
    case InsertCharsOp(n) => InsertCharsKeeps(g, n);
    case DeleteCharsOp(n) => DeleteCharsKeeps(g, n);
    case EraseCharsOp(n) => EraseCharsKeeps(g, n);
    case EraseLineOp(mode) => EraseLineKeeps(g, mode);
    case EraseDisplayOp(_) => WholeShape(g, op);
    case FillOp(_) => WholeShape(g, op);
    case ClearOp => WholeShape(g, op);
    case ResizeOp(cols, rows) => if Fits(cols, rows) { ResizedShape(g, cols, rows); }
    case WriteOp(row, col, cell) => WriteShape(g, row, col, cell);
    case _ => CursorShape(g, op);
  }

  // ---- a shadow of the screen ----

  /** A screen and a copy kept by someone who sees only what `Consumed` reports. */
  datatype Watched = Watched(screen: Screen, shadow: seq<Line>)

  datatype Event = Edit(op: Op) | Refresh

  /** Take over the reported rows; a report of everything also fixes the size. */
  ghost function Refreshed(shadow: seq<Line>, rows: seq<Line>, listed: seq<nat>): seq<Line> {
    seq(|rows|, i requires 0 <= i < |rows| => if i in listed then rows[i] else if i < |shadow| then shadow[i] else [])
  }

  ghost function Watch(w: Watched, e: Event): Watched
    requires Shape(w.screen)
  {
    match e
    case Edit(op) => w.(screen := Apply(w.screen, op))
    case Refresh =>
      var (next, _, listed) := Consumed(w.screen);
      Watched(next, Refreshed(w.shadow, w.screen.rows, listed))
  }

  /** Unmarked rows of the shadow are up to date. */
  ghost predicate UpToMarks(w: Watched) {
    && Shape(w.screen)
    && (w.screen.dirtyAll ||
        (|w.shadow| == |w.screen.rows|
         && forall i :: 0 <= i < |w.shadow| && !w.screen.dirty[i] ==> w.shadow[i] == w.screen.rows[i]))
  }

  lemma {:induction false} MarkedHas(dirty: seq<bool>, i: nat)
    requires i <= |dirty|
    ensures forall k :: k in Marked(dirty, i) <==> i <= k < |dirty| && dirty[k]
    decreases |dirty| - i
  {
    if i < |dirty| {
      MarkedHas(dirty, i + 1);
    }
  }

  lemma RefreshExact(w: Watched)
    requires UpToMarks(w)
    ensures UpToMarks(Watch(w, Refresh)) && Watch(w, Refresh).shadow == w.screen.rows == Watch(w, Refresh).screen.rows
  {
    var g := w.screen;
    MarkedHas(g.dirty, 0);
    var listed := Consumed(g).2;
    forall i | 0 <= i < g.rowCount && g.dirtyAll ensures i in listed {
      assert Range(g.rowCount)[i] == i;
    }
    assert Refreshed(w.shadow, g.rows, listed) == g.rows;
  }

  ghost predicate EventOk(e: Event) { e.Edit? ==> OpOk(e.op) }

  lemma WatchKeeps(w: Watched, e: Event)
    requires UpToMarks(w) && EventOk(e)
    ensures UpToMarks(Watch(w, e))
  {
    match e
    case Edit(op) =>
      ApplyShape(w.screen, op);
      ApplyTracked(w.screen, op);
      hide Apply, RowsOk;
    case Refresh => RefreshExact(w);
  }

  /** A run keeps the shape as it goes, so each next step is defined. */
  ghost function WatchRun(w: Watched, events: seq<Event>): (r: Watched)
    requires UpToMarks(w) && forall i :: 0 <= i < |events| ==> EventOk(events[i])
    ensures UpToMarks(r)
    decreases |events|
  {
    if events == [] then w
    else
      WatchKeeps(w, events[0]);
      WatchRun(Watch(w, events[0]), events[1..])
  }

  /** The shadow agrees: from a new screen and any copy at all, after any operations in any order
      and any refreshes in between, refreshing once more makes the copy equal to the screen. */
  lemma ShadowAgrees(cols: nat, rows: nat, shadow: seq<Line>, events: seq<Event>)
    requires Fits(cols, rows) && forall i :: 0 <= i < |events| ==> EventOk(events[i])
    ensures var w0 := Watched(NewScreen(cols, rows).value, shadow);
            && UpToMarks(w0)
            && Watch(WatchRun(w0, events), Refresh).shadow == WatchRun(w0, events).screen.rows
  {
    NewScreenShape(cols, rows);
    var w0 := Watched(NewScreen(cols, rows).value, shadow);
    RefreshExact(WatchRun(w0, events));
  }

  lemma NewScreenShape(cols: nat, rows: nat)
    requires Fits(cols, rows)
    ensures Shape(NewScreen(cols, rows).value)
  {
    BlankLineOk(cols);
  }
}
