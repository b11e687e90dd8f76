/** What scrolling and line editing do to the rows, in closed form: lines are conserved, and rows
    outside the scroll region stay exactly when the cursor allows it. */
module GridScroll {
  import opened Utf8
  import opened Grid
  import opened GridRuns

  // ---- closed forms ----

  lemma DeleteOne(rows: seq<Line>, at: nat, bottom: nat, cols: nat)
    requires at <= bottom < |rows|
    ensures InsertAt(RemoveAt(rows, at), bottom, BlankLine(cols))
         == rows[..at] + rows[at + 1..bottom + 1] + [BlankLine(cols)] + rows[bottom + 1..]
  {
  }

  lemma InsertOne(rows: seq<Line>, at: nat, bottom: nat, cols: nat)
    requires at <= bottom < |rows|
    ensures RemoveAt(InsertAt(rows, at, BlankLine(cols)), bottom + 1)
         == rows[..at] + [BlankLine(cols)] + rows[at..bottom] + rows[bottom + 1..]
  {
  }

  lemma BlankRowsSplit(n: nat, cols: nat)
    requires n > 0
    ensures BlankRows(n, cols) == [BlankLine(cols)] + BlankRows(n - 1, cols)
    ensures BlankRows(n, cols) == BlankRows(n - 1, cols) + [BlankLine(cols)]
  {
  }

  /** Deleting `n` rows removes exactly those, moves the rest of the region up, and pads below. */
  lemma {:induction false} DeleteRowsClosed(rows: seq<Line>, at: nat, bottom: nat, cols: nat, n: nat)
    requires at <= bottom < |rows| && n <= bottom + 1 - at
    ensures DeleteRows(rows, at, bottom, cols, n)
         == (rows[..at] + rows[at + n..bottom + 1] + BlankRows(n, cols) + rows[bottom + 1..], rows[at..at + n])
    decreases n
  {
    if n == 0 {
      assert rows[..at] + rows[at..bottom + 1] + [] + rows[bottom + 1..] == rows;
    } else {
      DeleteOne(rows, at, bottom, cols);
      var next := rows[..at] + rows[at + 1..bottom + 1] + [BlankLine(cols)] + rows[bottom + 1..];
      DeleteRowsClosed(next, at, bottom, cols, n - 1);
      hide DeleteRows;
      DeleteSlices(rows, next, at, bottom, cols, n);
    }
  }

  lemma DeleteSlices(rows: seq<Line>, next: seq<Line>, at: nat, bottom: nat, cols: nat, n: nat)
    requires at <= bottom < |rows| && 0 < n <= bottom + 1 - at
    requires next == rows[..at] + rows[at + 1..bottom + 1] + [BlankLine(cols)] + rows[bottom + 1..]
    ensures next[..at] + next[at + n - 1..bottom + 1] + BlankRows(n - 1, cols) + next[bottom + 1..]
         == rows[..at] + rows[at + n..bottom + 1] + BlankRows(n, cols) + rows[bottom + 1..]
    ensures [rows[at]] + next[at..at + n - 1] == rows[at..at + n]
  {
    BlankRowsSplit(n, cols);
    assert next[..at] == rows[..at] && next[bottom + 1..] == rows[bottom + 1..];
    assert next[at + n - 1..bottom + 1] == rows[at + n..bottom + 1] + [BlankLine(cols)];
    assert forall k :: at <= k < bottom ==> next[k] == rows[k + 1];
    SliceShifted(next, at, rows, at + 1, n - 1);
    assert rows[at..at + n] == [rows[at]] + rows[at + 1..at + n];
  }

  lemma SliceShifted<T>(a: seq<T>, i: nat, b: seq<T>, j: nat, n: nat)
    requires i + n <= |a| && j + n <= |b|
    requires forall k :: i <= k < i + n ==> a[k] == b[k - i + j]
    ensures a[i..i + n] == b[j..j + n]
  {
  }

  /** Inserting `n` rows moves the region down and drops its last `n`. */
  lemma {:induction false} InsertRowsClosed(rows: seq<Line>, at: nat, bottom: nat, cols: nat, n: nat)
    requires at <= bottom < |rows| && n <= bottom + 1 - at
    ensures InsertRows(rows, at, bottom, cols, n)
         == rows[..at] + BlankRows(n, cols) + rows[at..bottom + 1 - n] + rows[bottom + 1..]
    decreases n
  {
    if n == 0 {
      assert rows[..at] + [] + rows[at..bottom + 1] + rows[bottom + 1..] == rows;
    } else {
      InsertOne(rows, at, bottom, cols);
      var next := rows[..at] + [BlankLine(cols)] + rows[at..bottom] + rows[bottom + 1..];
      InsertRowsClosed(next, at, bottom, cols, n - 1);
      hide InsertRows;
      InsertSlices(rows, next, at, bottom, cols, n);
    }
  }

  lemma InsertSlices(rows: seq<Line>, next: seq<Line>, at: nat, bottom: nat, cols: nat, n: nat)
    requires at <= bottom < |rows| && 0 < n <= bottom + 1 - at
    requires next == rows[..at] + [BlankLine(cols)] + rows[at..bottom] + rows[bottom + 1..]
    ensures next[..at] + BlankRows(n - 1, cols) + next[at..bottom + 1 - (n - 1)] + next[bottom + 1..]
         == rows[..at] + BlankRows(n, cols) + rows[at..bottom + 1 - n] + rows[bottom + 1..]
  {
    BlankRowsSplit(n, cols);
    assert next[..at] == rows[..at] && next[bottom + 1..] == rows[bottom + 1..];
    var k := bottom + 1 - n - at;
    SliceShifted(next, at + 1, rows, at, k);
    assert next[at..at + 1 + k] == [next[at]] + next[at + 1..at + 1 + k];
    assert next[at] == BlankLine(cols);
  }

  /** Scrolling up conserves lines: what left, and what stayed, is the old region; the rest of the
      screen is untouched. */
  lemma ScrollUpConserves(g: Screen, n: nat)
    requires Shape(g)
    ensures var k := Min(n, Height(g));
            var (h, out) := ScrollUp(g, n);
            && out + h.rows[g.top..g.bottom + 1 - k] == g.rows[g.top..g.bottom + 1]
            && h.rows[g.bottom + 1 - k..g.bottom + 1] == BlankRows(k, g.cols)
            && h.rows[..g.top] == g.rows[..g.top] && h.rows[g.bottom + 1..] == g.rows[g.bottom + 1..]
  {
    var k := Min(n, Height(g));
    DeleteRowsClosed(g.rows, g.top, g.bottom, g.cols, k);
    hide DeleteRows, RowsOk;
    var h := ScrollUp(g, n).0;
    assert h.rows[g.top..g.bottom + 1 - k] == g.rows[g.top + k..g.bottom + 1];
  }

  /** Scrolling down likewise; its lost lines are the lowest of the region. */
  lemma ScrollDownConserves(g: Screen, n: nat)
    requires Shape(g)
    ensures var k := Min(n, Height(g));
            var h := ScrollDown(g, n);
            && h.rows[g.top + k..g.bottom + 1] + g.rows[g.bottom + 1 - k..g.bottom + 1] == g.rows[g.top..g.bottom + 1]
            && h.rows[g.top..g.top + k] == BlankRows(k, g.cols)
            && h.rows[..g.top] == g.rows[..g.top] && h.rows[g.bottom + 1..] == g.rows[g.bottom + 1..]
  {
    var k := Min(n, Height(g));
    InsertRowsClosed(g.rows, g.top, g.bottom, g.cols, k);
    hide InsertRows, RowsOk;
    var h := ScrollDown(g, n);
    assert h.rows[g.top + k..g.bottom + 1] == g.rows[g.top..g.bottom + 1 - k];
  }

  // ---- who touches rows outside the region ----

  lemma {:induction false} DeleteRowsOutside(rows: seq<Line>, at: nat, bottom: nat, cols: nat, n: nat)
    requires at <= bottom < |rows|
    ensures forall i :: 0 <= i < |rows| && (i < at || i > bottom) ==> DeleteRows(rows, at, bottom, cols, n).0[i] == rows[i]
    decreases n
  {
    if n > 0 {
      DeleteRowsOutside(InsertAt(RemoveAt(rows, at), bottom, BlankLine(cols)), at, bottom, cols, n - 1);
    }
  }

  lemma {:induction false} InsertRowsOutside(rows: seq<Line>, at: nat, bottom: nat, cols: nat, n: nat)
    requires at <= bottom + 1 && at < |rows| && bottom < |rows|
    ensures forall i :: 0 <= i < |rows| && (i < at || i > bottom) ==> InsertRows(rows, at, bottom, cols, n)[i] == rows[i]
    decreases n
  {
    if n > 0 {
      InsertRowsOutside(RemoveAt(InsertAt(rows, at, BlankLine(cols)), bottom + 1), at, bottom, cols, n - 1);
    }
  }

  ghost predicate OutsideSame(g: Screen, h: Screen) {
    |h.rows| == |g.rows| && forall i :: 0 <= i < |g.rows| && (i < g.top || i > g.bottom) ==> h.rows[i] == g.rows[i]
  }

  /** Every row full of its own character: no two rows alike, none blank. */
  function Ruled(rows: nat, cols: nat): seq<Line>
    requires rows <= MAX_ROWS
  {
    seq(rows, i requires 0 <= i < rows => seq(cols, _ => BLANK.(ch := i + 1)))
  }

  lemma RuledOk(rows: nat, cols: nat)
    requires rows <= MAX_ROWS
    ensures RowsOk(Ruled(rows, cols), cols)
  {
  }

  /** `DL` keeps to the scroll region, whatever the screen shows, exactly when the cursor is in it. */
  lemma DeleteLinesConfinedIff(g: Screen)
    requires Shape(g)
    ensures (forall rows, n: nat :: |rows| == g.rowCount && RowsOk(rows, g.cols) ==>
               OutsideSame(g.(rows := rows), DeleteLines(g.(rows := rows), n).0))
       <==> g.top <= g.cursor.row <= g.bottom
  {
    if g.top <= g.cursor.row <= g.bottom {
      forall rows, n: nat | |rows| == g.rowCount && RowsOk(rows, g.cols)
        ensures OutsideSame(g.(rows := rows), DeleteLines(g.(rows := rows), n).0)
      {
        DeleteRowsOutside(rows, g.cursor.row, g.bottom, g.cols, Min(n, Height(g)));
      }
    } else {
      var rows := Ruled(g.rowCount, g.cols);
      RuledOk(g.rowCount, g.cols);
      var h := g.(rows := rows);
      var c := g.cursor.row;
      DeleteOnce(rows, c, g.bottom, g.cols);
      assert DeleteLines(h, 1).0.rows == InsertAt(RemoveAt(rows, c), g.bottom, BlankLine(g.cols));
      if c > g.bottom {
        assert DeleteLines(h, 1).0.rows[g.bottom + 1][0] == rows[g.bottom][0];
        assert !OutsideSame(h, DeleteLines(h, 1).0);
      } else {
        assert DeleteLines(h, 1).0.rows[c][0] == (if c < g.bottom then rows[c + 1] else BlankLine(g.cols))[0];
        assert !OutsideSame(h, DeleteLines(h, 1).0);
      }
    }
  }

  lemma DeleteOnce(rows: seq<Line>, at: nat, bottom: nat, cols: nat)
    requires at < |rows| && bottom < |rows|
    ensures DeleteRows(rows, at, bottom, cols, 1) == (InsertAt(RemoveAt(rows, at), bottom, BlankLine(cols)), [rows[at]])
  {
    var next := InsertAt(RemoveAt(rows, at), bottom, BlankLine(cols));
    assert DeleteRows(next, at, bottom, cols, 0) == (next, []);
    assert [rows[at]] + [] == [rows[at]];
  }

  lemma InsertOnce(rows: seq<Line>, at: nat, bottom: nat, cols: nat)
    requires at < |rows| && bottom < |rows|
    ensures InsertRows(rows, at, bottom, cols, 1) == RemoveAt(InsertAt(rows, at, BlankLine(cols)), bottom + 1)
  {
    var next := RemoveAt(InsertAt(rows, at, BlankLine(cols)), bottom + 1);
    assert InsertRows(next, at, bottom, cols, 0) == next;
  }

  /** `IL` keeps to the region exactly when the cursor is in it or on the row just below. */
  lemma InsertLinesConfinedIff(g: Screen)
    requires Shape(g)
    ensures (forall rows, n: nat :: |rows| == g.rowCount && RowsOk(rows, g.cols) ==>
               OutsideSame(g.(rows := rows), InsertLines(g.(rows := rows), n)))
       <==> g.top <= g.cursor.row <= g.bottom + 1
  {
    if g.top <= g.cursor.row <= g.bottom + 1 {
      forall rows, n: nat | |rows| == g.rowCount && RowsOk(rows, g.cols)
        ensures OutsideSame(g.(rows := rows), InsertLines(g.(rows := rows), n))
      {
        InsertRowsOutside(rows, g.cursor.row, g.bottom, g.cols, Min(n, Height(g)));
        if g.cursor.row == g.bottom + 1 { InsertRowsBelow(rows, g.bottom, g.cols, Min(n, Height(g))); }
      }
    } else {
      var rows := Ruled(g.rowCount, g.cols);
      RuledOk(g.rowCount, g.cols);
      var h := g.(rows := rows);
      var c := g.cursor.row;
      InsertOnce(rows, c, g.bottom, g.cols);
      var after := RemoveAt(InsertAt(rows, c, BlankLine(g.cols)), g.bottom + 1);
      assert InsertLines(h, 1).rows == after;
      if c < g.top {
        assert after[c][0] == BLANK;
        assert !OutsideSame(h, InsertLines(h, 1));
      } else {
        InsertBelowMoves(rows, g.bottom, c, g.cols);
        assert !OutsideSame(h, InsertLines(h, 1));
      }
    }
  }

  lemma InsertBelowMoves(rows: seq<Line>, bottom: nat, c: nat, cols: nat)
    requires bottom + 1 < c < |rows| <= MAX_ROWS && 0 < cols && rows == Ruled(|rows|, cols)
    ensures RemoveAt(InsertAt(rows, c, BlankLine(cols)), bottom + 1)[bottom + 1] != rows[bottom + 1]
  {
    var put := InsertAt(rows, c, BlankLine(cols));
    assert RemoveAt(put, bottom + 1)[bottom + 1] == put[bottom + 2];
    assert put[bottom + 2][0] == (if bottom + 2 < c then rows[bottom + 2][0] else BLANK);
  }

  /** Just below the region, `IL` takes out the very row it put in. */
  lemma {:induction false} InsertRowsBelow(rows: seq<Line>, bottom: nat, cols: nat, n: nat)
    requires bottom + 1 < |rows|
    ensures InsertRows(rows, bottom + 1, bottom, cols, n) == rows
    decreases n
  {
    if n > 0 {
      assert RemoveAt(InsertAt(rows, bottom + 1, BlankLine(cols)), bottom + 1) == rows;
      InsertRowsBelow(rows, bottom, cols, n - 1);
    }
  }

  // ---- what undoes what ----

  /** Deleting as many cells as were inserted gives the line back, but for the cells pushed off its end. */
  lemma DeleteUndoesInsert(g: Screen, n: nat)
    requires Shape(g)
    ensures Shape(InsertChars(g, n))
    ensures var k, line := CharRoom(g, n), g.rows[g.cursor.row];
            DeleteChars(InsertChars(g, n), n).rows == g.rows[g.cursor.row := line[..g.cols - k] + BlankLine(k)]
  {
    InsertCharsKeeps(g, n);
    var k, line, col := CharRoom(g, n), g.rows[g.cursor.row], g.cursor.col;
    assert |line| == g.cols;
    hide Shape, RowsOk;
    CellsBack(line, col, k);
  }

  lemma CellsBack(line: Line, col: nat, k: nat)
    requires col + k <= |line|
    ensures |CellInsert(line, col, k, |line|)| == |line|
    ensures CellDelete(CellInsert(line, col, k, |line|), col, k) == line[..|line| - k] + BlankLine(k)
  {
  }

  /** Deleting as many lines as were inserted gives the screen back, but for the lowest of the region. */
  lemma DeleteLinesUndoInsert(g: Screen, n: nat)
    requires Shape(g) && g.top <= g.cursor.row <= g.bottom
    ensures var h := InsertLines(g, n);
            var k := Min(n, g.bottom + 1 - g.cursor.row);
            && DeleteLines(h, n).0.rows == g.rows[..g.bottom + 1 - k] + BlankRows(k, g.cols) + g.rows[g.bottom + 1..]
            && DeleteLines(h, n).1 == BlankRows(Min(n, Height(g)), g.cols)
  {
    var room, at := g.bottom + 1 - g.cursor.row, g.cursor.row;
    if n <= room {
      UndoInsertWithin(g, n);
    } else {
      var m := Min(n, Height(g));
      InsertRowsAll(g.rows, at, g.bottom, g.cols, m);
      BlankRegionStays(InsertLines(g, n).rows, at, g.bottom, g.cols, m);
      hide InsertRows, DeleteRows, RowsOk, BlankRows;
    }
  }

  /** Inserting at least as many rows as there are leaves the region blank from the cursor down. */
  lemma {:induction false} InsertRowsAll(rows: seq<Line>, at: nat, bottom: nat, cols: nat, n: nat)
    requires at <= bottom < |rows| && n >= bottom + 1 - at
    ensures InsertRows(rows, at, bottom, cols, n) == rows[..at] + BlankRows(bottom + 1 - at, cols) + rows[bottom + 1..]
    decreases n
  {
    if n == bottom + 1 - at {
      InsertRowsClosed(rows, at, bottom, cols, n);
      assert rows[at..at] == [];
    } else {
      InsertOne(rows, at, bottom, cols);
      var next := RemoveAt(InsertAt(rows, at, BlankLine(cols)), bottom + 1);
      InsertRowsAll(next, at, bottom, cols, n - 1);
      hide BlankRows;
      assert next[..at] == rows[..at] && next[bottom + 1..] == rows[bottom + 1..];
    }
  }

  /** Deleting from a region that is blank from the cursor down changes nothing. */
  lemma {:induction false} BlankRegionStays(rows: seq<Line>, at: nat, bottom: nat, cols: nat, n: nat)
    requires at <= bottom < |rows| && forall i :: at <= i <= bottom ==> rows[i] == BlankLine(cols)
    ensures DeleteRows(rows, at, bottom, cols, n) == (rows, BlankRows(n, cols))
    decreases n
  {
    if n == 0 {
      assert BlankRows(0, cols) == [];
    } else {
      assert InsertAt(RemoveAt(rows, at), bottom, BlankLine(cols)) == rows;
      BlankRegionStays(rows, at, bottom, cols, n - 1);
      BlankRowsSplit(n, cols);
      hide BlankRows;
    }
  }

  lemma UndoInsertWithin(g: Screen, n: nat)
    requires Shape(g) && g.top <= g.cursor.row <= g.bottom && n <= g.bottom + 1 - g.cursor.row
    ensures var h := InsertLines(g, n);
            && DeleteLines(h, n).0.rows == g.rows[..g.bottom + 1 - n] + BlankRows(n, g.cols) + g.rows[g.bottom + 1..]
            && DeleteLines(h, n).1 == BlankRows(n, g.cols)
  {
    InsertRowsClosed(g.rows, g.cursor.row, g.bottom, g.cols, n);
    var mid := InsertLines(g, n).rows;
    DeleteRowsClosed(mid, g.cursor.row, g.bottom, g.cols, n);
    hide InsertRows, DeleteRows, RowsOk, BlankRows;
    InsertedSlices(g.rows, mid, g.cursor.row, g.bottom + 1 - n, n, BlankRows(n, g.cols), g.bottom + 1);
  }

  lemma InsertedSlices(rows: seq<Line>, mid: seq<Line>, at: nat, k: nat, n: nat, blank: seq<Line>, end: nat)
    requires at <= k <= k + n == end <= |rows| && |blank| == n
    requires mid == rows[..at] + blank + rows[at..k] + rows[end..]
    ensures |mid| == |rows| && mid[at..at + n] == blank && mid[end..] == rows[end..]
    ensures mid[..at] + mid[at + n..end] == rows[..k]
  {
    assert mid[..at] == rows[..at];
    assert mid[at + n..end] == rows[at..k];
    assert rows[..at] + rows[at..k] == rows[..k];
  }
}
