/** The live terminal screen as a function of values: cursor, scroll region, tab stops, printing,
    scrolling, editing, resizing and dirty tracking. */
module Grid {
  import opened Options
  import opened Utf8

  const MIN_COLS: nat := 2
  const MAX_COLS: nat := 4096
  const MIN_ROWS: nat := 1
  const MAX_ROWS: nat := 4096
  const MAX_COMBINING: nat := 2

  /** Wide and continuation marks, and the other six attribute bits. */
  datatype Flags = Flags(wide: bool, wideCont: bool, style: nat)

  /** One cell; character 0 marks an empty one. */
  datatype Cell = Cell(ch: Scalar, fg: nat, bg: nat, flags: Flags, combining: seq<Scalar>)

  datatype Attrs = Attrs(fg: nat, bg: nat, flags: Flags)

  const BLANK: Cell := Cell(0, 0, 0, Flags(false, false, 0), [])

  type Line = seq<Cell>

  datatype Pos = Pos(row: nat, col: nat)

  datatype Screen = Screen(
    rows: seq<Line>,
    cols: nat,
    rowCount: nat,
    cursor: Pos,
    saved: Pos,
    top: nat,
    bottom: nat,
    tabs: seq<bool>,
    wrapPending: bool,
    origin: bool,
    dirty: seq<bool>,
    dirtyAll: bool)

  // ---- shape ----

  ghost predicate LineOk(line: Line, cols: nat) {
    |line| == cols && forall c :: c in line ==> |c.combining| <= MAX_COMBINING
  }

  ghost predicate RowsOk(rows: seq<Line>, cols: nat) {
    forall i :: 0 <= i < |rows| ==> LineOk(rows[i], cols)
  }

  predicate PosOk(p: Pos, rows: nat, cols: nat) { p.row < rows && p.col < cols }

  /** The shape every operation keeps. */
  ghost predicate Shape(g: Screen) {
    && MIN_COLS <= g.cols <= MAX_COLS && MIN_ROWS <= g.rowCount <= MAX_ROWS
    && |g.rows| == g.rowCount && RowsOk(g.rows, g.cols)
    && PosOk(g.cursor, g.rowCount, g.cols) && PosOk(g.saved, g.rowCount, g.cols)
    && g.top <= g.bottom < g.rowCount
    && |g.tabs| == g.cols && |g.dirty| == g.rowCount
  }

  function Min(a: int, b: int): int { if a < b then a else b }

  function Max(a: int, b: int): int { if a > b then a else b }

  function BlankLine(cols: nat): (r: Line)
    ensures |r| == cols && forall i :: 0 <= i < cols ==> r[i] == BLANK
  {
    seq(cols, _ => BLANK)
  }

  function DefaultTabs(cols: nat): seq<bool> { seq(cols, c => c % 8 == 0) }

  function Fits(cols: nat, rows: nat): bool {
    MIN_COLS <= cols <= MAX_COLS && MIN_ROWS <= rows <= MAX_ROWS
  }

  function NewScreen(cols: nat, rows: nat): Option<Screen> {
    if !Fits(cols, rows) then None
    else Some(Screen(seq(rows, _ => BlankLine(cols)), cols, rows, Pos(0, 0), Pos(0, 0), 0, rows - 1,
                     DefaultTabs(cols), false, false, seq(rows, _ => true), true))
  }

  // ---- dirty tracking ----

  function AllDirty(g: Screen): Screen { g.(dirtyAll := true) }

  function RowDirty(g: Screen, row: nat): Screen
    requires |g.dirty| == g.rowCount
  {
    if row < g.rowCount then g.(dirty := g.dirty[row := true]) else g
  }

  function Range(n: nat): seq<nat> { seq(n, i => i) }

  /** Indices of the set marks, ascending, from `i` on. */
  function Marked(dirty: seq<bool>, i: nat): seq<nat>
    decreases |dirty| - i
  {
    if i >= |dirty| then [] else (if dirty[i] then [i] else []) + Marked(dirty, i + 1)
  }

  function Consumed(g: Screen): (Screen, bool, seq<nat>) {
    (g.(dirtyAll := false, dirty := seq(|g.dirty|, _ => false)), g.dirtyAll,
     if g.dirtyAll then Range(g.rowCount) else Marked(g.dirty, 0))
  }

  // ---- cursor ----

  function Clamp(g: Screen, row: nat, col: nat): Pos
    requires g.rowCount > 0 && g.cols > 0
  {
    Pos(Min(row, g.rowCount - 1), Min(col, g.cols - 1))
  }

  function SetCursor(g: Screen, row: nat, col: nat): Screen
    requires g.rowCount > 0 && g.cols > 0
  {
    var r := if g.origin then Min(g.top + row, g.bottom) else Min(row, g.rowCount - 1);
    g.(cursor := Clamp(g, r, col), wrapPending := false)
  }

  function SetOrigin(g: Screen, on: bool): Screen {
    g.(origin := on, cursor := Pos(if on then g.top else 0, 0), wrapPending := false)
  }

  function SetRegion(g: Screen, top: nat, bottom: nat): Screen
    requires g.rowCount > 0 && g.cols > 0
  {
    var t, b := Min(top, g.rowCount - 1), Min(bottom, g.rowCount - 1);
    SetCursor(if b >= t then g.(top := t, bottom := b) else g, 0, 0)
  }

  function MoveCursor(g: Screen, drow: int, dcol: int): Screen
    requires g.rowCount > 0 && g.cols > 0
  {
    var row := Min(Max(g.cursor.row + drow, 0), g.rowCount - 1);
    var col := Min(Max(g.cursor.col + dcol, 0), g.cols - 1);
    g.(cursor := Pos(row, col), wrapPending := false)
  }

  function AtCol(g: Screen, col: nat): Screen {
    g.(cursor := Pos(g.cursor.row, col), wrapPending := false)
  }

  function AtRow(g: Screen, row: nat): Screen {
    g.(cursor := Pos(row, g.cursor.col), wrapPending := false)
  }

  /** First tab stop in `from..to`, or the last column. */
  function NextStop(tabs: seq<bool>, from: nat, to: nat): nat
    requires to <= |tabs| && to > 0
    decreases if from < to then to - from else 0
  {
    if from >= to then to - 1 else if tabs[from] then from else NextStop(tabs, from + 1, to)
  }

  /** Last tab stop before `col`, or column 0. */
  function PreviousStop(tabs: seq<bool>, col: nat): nat
    requires col <= |tabs|
  {
    if col == 0 then 0 else if tabs[col - 1] then col - 1 else PreviousStop(tabs, col - 1)
  }

  function Restore(g: Screen): Screen
    requires g.rowCount > 0 && g.cols > 0
  {
    g.(cursor := Clamp(g, g.saved.row, g.saved.col), wrapPending := false)
  }

  // ---- rows in and out ----

  function InsertAt<T>(s: seq<T>, i: nat, x: T): seq<T>
    requires i <= |s|
  {
    s[..i] + [x] + s[i..]
  }

  function RemoveAt<T>(s: seq<T>, i: nat): seq<T>
    requires i < |s|
  {
    s[..i] + s[i + 1..]
  }

  /** `n` times: take the row at `at` out, put a blank one in at `bottom`. */
  function DeleteRows(rows: seq<Line>, at: nat, bottom: nat, cols: nat, n: nat): (r: (seq<Line>, seq<Line>))
    requires at < |rows| && bottom < |rows|
    ensures |r.0| == |rows| && |r.1| == n
    decreases n
  {
    if n == 0 then (rows, [])
    else
      var (rest, out) := DeleteRows(InsertAt(RemoveAt(rows, at), bottom, BlankLine(cols)), at, bottom, cols, n - 1);
      (rest, [rows[at]] + out)
  }

  /** `n` times: put a blank row in at `at`, take the one below `bottom` out. */
  function InsertRows(rows: seq<Line>, at: nat, bottom: nat, cols: nat, n: nat): (r: seq<Line>)
    requires at < |rows| && bottom < |rows|
    ensures |r| == |rows|
    decreases n
  {
    if n == 0 then rows
    else InsertRows(RemoveAt(InsertAt(rows, at, BlankLine(cols)), bottom + 1), at, bottom, cols, n - 1)
  }

  function Height(g: Screen): nat
    requires g.top <= g.bottom
  {
    g.bottom - g.top + 1
  }

  function ScrollUp(g: Screen, n: nat): (Screen, seq<Line>)
    requires g.top <= g.bottom < |g.rows|
  {
    var (rows, out) := DeleteRows(g.rows, g.top, g.bottom, g.cols, Min(n, Height(g)));
    (AllDirty(g.(rows := rows)), out)
  }

  function ScrollDown(g: Screen, n: nat): Screen
    requires g.top <= g.bottom < |g.rows|
  {
    AllDirty(g.(rows := InsertRows(g.rows, g.top, g.bottom, g.cols, Min(n, Height(g)))))
  }

  /** A line cut or padded to a width; a wide glyph cut in half at the edge is cleared. */
  function Normalized(line: Line, cols: nat): (r: Line)
    requires cols > 0
    ensures |r| == cols
  {
    var cut := if |line| > cols then line[..cols] else line + BlankLine(cols - |line|);
    if cut[cols - 1].flags.wide then cut[cols - 1 := BLANK] else cut
  }

  function PushLine(g: Screen, line: Line): Screen
    requires g.top <= g.bottom < |g.rows| && g.cols > 0
  {
    var down := ScrollDown(g, 1);
    AllDirty(down.(rows := down.rows[g.top := Normalized(line, g.cols)]))
  }

  function InsertLines(g: Screen, n: nat): Screen
    requires g.top <= g.bottom < |g.rows| && g.cursor.row < |g.rows|
  {
    AllDirty(g.(rows := InsertRows(g.rows, g.cursor.row, g.bottom, g.cols, Min(n, Height(g)))))
  }

  function DeleteLines(g: Screen, n: nat): (Screen, seq<Line>)
    requires g.top <= g.bottom < |g.rows| && g.cursor.row < |g.rows|
  {
    var (rows, out) := DeleteRows(g.rows, g.cursor.row, g.bottom, g.cols, Min(n, Height(g)));
    (AllDirty(g.(rows := rows)), out)
  }

  // ---- moving down and up ----

  /** Index: down one row, scrolling the region at its bottom; the line scrolled out, if any. */
  function Index(g: Screen): (Screen, Option<Line>)
    requires g.top <= g.bottom < |g.rows|
  {
    var h := g.(wrapPending := false);
    if g.cursor.row < g.bottom then (h.(cursor := Pos(g.cursor.row + 1, g.cursor.col)), None)
    else
      var (s, out) := ScrollUp(h, 1);
      (s, if out == [] then None else Some(out[0]))
  }

  function ReverseIndex(g: Screen): (Screen, bool)
    requires g.top <= g.bottom < |g.rows|
  {
    var h := g.(wrapPending := false);
    if g.cursor.row > g.top then (h.(cursor := Pos(g.cursor.row - 1, g.cursor.col)), false)
    else (ScrollDown(h, 1), true)
  }

  // ---- cells ----

  /** `line` with `BLANK` in columns `from..to`. */
  function Blanked(line: Line, from: nat, to: nat): (r: Line)
    requires from <= to <= |line|
    ensures |r| == |line|
  {
    line[..from] + BlankLine(to - from) + line[to..]
  }

  function CellInsert(line: Line, col: nat, n: nat, cols: nat): Line
    requires col + n <= cols == |line|
  {
    (line[..col] + BlankLine(n) + line[col..])[..cols]
  }

  function CellDelete(line: Line, col: nat, n: nat): Line
    requires col + n <= |line|
  {
    line[..col] + line[col + n..] + BlankLine(n)
  }

  /** Replace the cursor row and mark it. */
  function EditRow(g: Screen, line: Line): Screen
    requires g.cursor.row < |g.rows| && |g.dirty| == g.rowCount
  {
    RowDirty(g.(rows := g.rows[g.cursor.row := line]), g.cursor.row)
  }

  function CharRoom(g: Screen, n: nat): nat
    requires g.cursor.col < g.cols
  {
    Min(n, g.cols - g.cursor.col)
  }

  ghost function InsertChars(g: Screen, n: nat): Screen
    requires Shape(g)
  {
    EditRow(g, CellInsert(g.rows[g.cursor.row], g.cursor.col, CharRoom(g, n), g.cols))
  }

  ghost function DeleteChars(g: Screen, n: nat): Screen
    requires Shape(g)
  {
    EditRow(g, CellDelete(g.rows[g.cursor.row], g.cursor.col, CharRoom(g, n)))
  }

  ghost function EraseChars(g: Screen, n: nat): Screen
    requires Shape(g)
  {
    EditRow(g, Blanked(g.rows[g.cursor.row], g.cursor.col, g.cursor.col + CharRoom(g, n)))
  }

  /** Erase in line: 0 right of the cursor, 1 up to and with it, else all. */
  ghost function EraseInLine(g: Screen, mode: nat): Screen
    requires Shape(g)
  {
    var line, col := g.rows[g.cursor.row], g.cursor.col;
    EditRow(g, if mode == 0 then Blanked(line, col, g.cols)
               else if mode == 1 then Blanked(line, 0, col + 1)
               else Blanked(line, 0, g.cols))
  }

  /** Erase in display: 0 from the cursor on, 1 up to and with it, else all. */
  ghost function EraseInDisplay(g: Screen, mode: nat): Screen
    requires Shape(g)
  {
    AllDirty(g.(rows := ErasedRows(g, mode)))
  }

  ghost function ErasedRows(g: Screen, mode: nat): seq<Line>
    requires Shape(g)
  {
    var row, col := g.cursor.row, g.cursor.col;
    var line := g.rows[row];
    if mode == 0 then g.rows[..row] + [Blanked(line, col, g.cols)] + BlankRows(g.rowCount - row - 1, g.cols)
    else if mode == 1 then BlankRows(row, g.cols) + [Blanked(line, 0, col + 1)] + g.rows[row + 1..]
    else BlankRows(g.rowCount, g.cols)
  }

  function BlankRows(n: nat, cols: nat): (r: seq<Line>)
    ensures |r| == n && forall i :: 0 <= i < n ==> r[i] == BlankLine(cols)
  {
    seq(n, _ => BlankLine(cols))
  }

  function MakeCell(ch: Scalar, a: Attrs): Cell { Cell(ch, a.fg, a.bg, a.flags, []) }

  const CONTINUATION: Cell := BLANK.(flags := Flags(false, true, 0))

  /** `line` with a glyph of the given width put at `col`. */
  function PutGlyph(line: Line, col: nat, ch: Scalar, width: nat, a: Attrs): (r: Line)
    requires col < |line|
    ensures |r| == |line|
  {
    var cell := MakeCell(ch, a);
    if width == 2 then
      var wide := line[col := cell.(flags := cell.flags.(wide := true))];
      if col + 1 < |line| then wide[col + 1 := CONTINUATION] else wide
    else line[col := cell]
  }

  /** A zero-width character joins the cell before the cursor, while there is room. */
  ghost function Combine(g: Screen, ch: Scalar): Screen
    requires Shape(g)
  {
    if g.cursor.col == 0 then g
    else
      var line, col := g.rows[g.cursor.row], g.cursor.col - 1;
      var cell := line[col];
      if |cell.combining| < MAX_COMBINING then
        EditRow(g, line[col := cell.(combining := cell.combining + [ch])])
      else g
  }

  ghost predicate NeedsWrap(g: Screen, width: nat) {
    g.wrapPending || (width > 1 && g.cursor.col + width > g.cols)
  }

  /** Where printing continues once a pending wrap is done; the line scrolled out, if any. */
  ghost function Wrapped(g: Screen, width: nat): (Screen, Option<Line>)
    requires Shape(g)
  {
    if NeedsWrap(g, width) then
      var (h, out) := Index(g);
      (h.(cursor := Pos(h.cursor.row, 0)), out)
    else (g, None)
  }

  /** The cursor moves past the glyph, or waits at the last column for the next one. */
  function Advanced(g: Screen, width: nat): Screen {
    if g.cursor.col + width >= g.cols then g.(cursor := Pos(g.cursor.row, if g.cols > 0 then g.cols - 1 else 0), wrapPending := true)
    else g.(cursor := Pos(g.cursor.row, g.cursor.col + width), wrapPending := false)
  }

  /** Print one character of the given width (0, 1 or 2). */
  ghost function Print(g: Screen, ch: Scalar, width: nat, a: Attrs): (Screen, Option<Line>)
    requires Shape(g)
  {
    if width == 0 then (Combine(g, ch), None)
    else
      var (h, out) := Wrapped(g, width);
      WrappedShape(g, width);
      (Advanced(EditRow(h, PutGlyph(h.rows[h.cursor.row], h.cursor.col, ch, width, a)), width), out)
  }

  // ---- whole screen ----

  ghost function WriteCell(g: Screen, row: nat, col: nat, cell: Cell): Screen
    requires Shape(g)
  {
    if row >= g.rowCount || col >= g.cols then g
    else RowDirty(g.(rows := g.rows[row := g.rows[row][col := cell]]), row)
  }

  ghost function FillScreen(g: Screen, ch: Scalar): Screen
    requires Shape(g)
  {
    AllDirty(SetCursor(g.(rows := seq(|g.rows|, _ => seq(g.cols, _ => BLANK.(ch := ch)))), 0, 0))
  }

  /** The rows at a new size: the top kept, blanks added below, each cut or padded to width. */
  ghost function RowsResized(g: Screen, cols: nat, rows: nat): (r: seq<Line>)
    requires |g.rows| == g.rowCount && cols > 0
    ensures |r| == rows
  {
    var kept := if rows < g.rowCount then g.rows[..rows] else g.rows + BlankRows(rows - g.rowCount, cols);
    seq(rows, i requires 0 <= i < rows => Normalized(kept[i], cols))
  }

  /** Everything but the rows at a new size. */
  function Framed(g: Screen, cols: nat, rows: nat): Screen
    requires cols > 0 && rows > 0
  {
    var bottom := if g.bottom >= rows then rows - 1 else g.bottom;
    var h := g.(cols := cols, rowCount := rows, bottom := bottom, top := if g.top > bottom then 0 else g.top,
                tabs := DefaultTabs(cols), dirty := seq(rows, _ => true), dirtyAll := true, wrapPending := false);
    h.(cursor := Clamp(h, g.cursor.row, g.cursor.col), saved := Clamp(h, g.saved.row, g.saved.col))
  }

  ghost function Resized(g: Screen, cols: nat, rows: nat): Screen
    requires Shape(g) && Fits(cols, rows)
  {
    Framed(g.(rows := RowsResized(g, cols, rows)), cols, rows)
  }

  /** Resize, or no change when the size is out of bounds. */
  ghost function Resize(g: Screen, cols: nat, rows: nat): Option<Screen>
    requires Shape(g)
  {
    if Fits(cols, rows) then Some(Resized(g, cols, rows)) else None
  }

  ghost function Clear(g: Screen): Screen
    requires Shape(g)
  {
    AllDirty(g.(rows := BlankRows(|g.rows|, g.cols), cursor := Pos(0, 0), wrapPending := false))
  }

  // ---- shape facts the operations rest on ----

  lemma BlankLineOk(cols: nat)
    ensures LineOk(BlankLine(cols), cols)
  {
  }

  lemma {:induction false} DeleteRowsOk(rows: seq<Line>, at: nat, bottom: nat, cols: nat, n: nat)
    requires at < |rows| && bottom < |rows| && RowsOk(rows, cols)
    ensures RowsOk(DeleteRows(rows, at, bottom, cols, n).0, cols) && RowsOk(DeleteRows(rows, at, bottom, cols, n).1, cols)
    decreases n
  {
    if n > 0 {
      BlankLineOk(cols);
      var next := InsertAt(RemoveAt(rows, at), bottom, BlankLine(cols));
      DeleteRowsOk(next, at, bottom, cols, n - 1);
    }
  }

  lemma {:induction false} InsertRowsOk(rows: seq<Line>, at: nat, bottom: nat, cols: nat, n: nat)
    requires at < |rows| && bottom < |rows| && RowsOk(rows, cols)
    ensures RowsOk(InsertRows(rows, at, bottom, cols, n), cols)
    decreases n
  {
    if n > 0 {
      BlankLineOk(cols);
      var next := RemoveAt(InsertAt(rows, at, BlankLine(cols)), bottom + 1);
      InsertRowsOk(next, at, bottom, cols, n - 1);
    }
  }

  lemma IndexShape(g: Screen)
    requires Shape(g)
    ensures Shape(Index(g).0)
    ensures Index(g).1.Some? ==> LineOk(Index(g).1.value, g.cols)
  {
    DeleteRowsOk(g.rows, g.top, g.bottom, g.cols, Min(1, Height(g)));
    hide RowsOk, LineOk, DeleteRows;
    OutOk(DeleteRows(g.rows, g.top, g.bottom, g.cols, Min(1, Height(g))).1, g.cols);
  }

  lemma OutOk(out: seq<Line>, cols: nat)
    requires RowsOk(out, cols)
    ensures out != [] ==> LineOk(out[0], cols)
  {
  }

  lemma WrappedShape(g: Screen, width: nat)
    requires Shape(g)
    ensures Shape(Wrapped(g, width).0) && Wrapped(g, width).0.cols == g.cols
  {
    IndexShape(g);
    hide RowsOk, DeleteRows;
  }
}
