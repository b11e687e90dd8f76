/** The bounded history of scrolled-out lines, and what scrolling out and restoring does to a screen. */
module History {
  import opened Options
  import opened Utf8
  import opened Grid
  import opened GridRuns
  import opened GridScroll

  const MIN_SCROLLBACK: nat := 100
  const MAX_SCROLLBACK: nat := 100_000

  /** Lines oldest first, at most `maxLines`, each `cols` wide. */
  datatype Ring = Ring(lines: seq<Line>, maxLines: nat, cols: nat)

  ghost predicate Valid(r: Ring) {
    && MIN_SCROLLBACK <= r.maxLines <= MAX_SCROLLBACK && r.cols > 0
    && |r.lines| <= r.maxLines
    && forall i :: 0 <= i < |r.lines| ==> |r.lines[i]| == r.cols
  }

  function NewRing(maxLines: nat, cols: nat): (r: Option<Ring>)
    ensures r.Some? ==> Valid(r.value)
  {
    if MIN_SCROLLBACK <= maxLines <= MAX_SCROLLBACK && cols > 0 then Some(Ring([], maxLines, cols)) else None
  }

  /** Append a line, cut or padded to width; a full ring gives up its oldest. */
  ghost function Push(r: Ring, line: Line): (p: (Ring, bool))
    requires Valid(r)
    ensures Valid(p.0)
  {
    var evicted := |r.lines| == r.maxLines;
    var kept := if evicted then r.lines[1..] else r.lines;
    (r.(lines := kept + [Normalized(line, r.cols)]), evicted)
  }

  ghost function PushAll(r: Ring, lines: seq<Line>): (p: Ring)
    requires Valid(r)
    ensures Valid(p) && p.cols == r.cols && p.maxLines == r.maxLines
    decreases |lines|
  {
    if lines == [] then r else PushAll(Push(r, lines[0]).0, lines[1..])
  }

  ghost function PopNewest(r: Ring): (p: (Ring, Option<Line>))
    requires Valid(r)
    ensures Valid(p.0)
  {
    if r.lines == [] then (r, None)
    else (r.(lines := r.lines[..|r.lines| - 1]), Some(r.lines[|r.lines| - 1]))
  }

  function Newest<T>(s: seq<T>, n: nat): seq<T> { if |s| > n then s[|s| - n..] else s }

  function NormalizedAll(lines: seq<Line>, cols: nat): (r: seq<Line>)
    requires cols > 0
    ensures |r| == |lines|
  {
    seq(|lines|, i requires 0 <= i < |lines| => Normalized(lines[i], cols))
  }

  /** However many lines are pushed, the ring holds exactly the newest it has room for. */
  lemma {:induction false} PushAllKeepsNewest(r: Ring, lines: seq<Line>)
    requires Valid(r)
    ensures PushAll(r, lines).lines == Newest(r.lines + NormalizedAll(lines, r.cols), r.maxLines)
    decreases |lines|
  {
    var normal := NormalizedAll(lines, r.cols);
    if lines == [] {
      assert r.lines + normal == r.lines;
    } else {
      var next := Push(r, lines[0]).0;
      PushAllKeepsNewest(next, lines[1..]);
      var rest := NormalizedAll(lines[1..], r.cols);
      assert normal == [Normalized(lines[0], r.cols)] + rest;
      hide Normalized, NormalizedAll, Newest;
      NewestStep(r.lines, Normalized(lines[0], r.cols), rest, r.maxLines);
    }
  }

  lemma NewestStep<T>(before: seq<T>, line: T, rest: seq<T>, room: nat)
    requires 0 < room && |before| <= room
    ensures var kept := if |before| == room then before[1..] else before;
            Newest(kept + [line] + rest, room) == Newest(before + ([line] + rest), room)
  {
    var whole := before + ([line] + rest);
    if |before| == room {
      assert before[1..] + [line] + rest == whole[1..];
    } else {
      assert before + [line] + rest == whole;
    }
  }

  // ---- restoring ----

  /** Take the newest line back onto the screen, if there is one. */
  ghost function Restore(g: Screen, r: Ring): (p: (Screen, Ring))
    requires g.top <= g.bottom < |g.rows| && g.cols > 0 && Valid(r)
    ensures Valid(p.1) && p.0.top == g.top && p.0.bottom == g.bottom && p.0.cols == g.cols && |p.0.rows| == |g.rows|
  {
    var (next, line) := PopNewest(r);
    if line.Some? then (PushLine(g, line.value), next) else (g, next)
  }

  ghost function RestoreTimes(g: Screen, r: Ring, n: nat): (Screen, Ring)
    requires g.top <= g.bottom < |g.rows| && g.cols > 0 && Valid(r)
    decreases n
  {
    if n == 0 then (g, r)
    else
      var (h, next) := Restore(g, r);
      RestoreTimes(h, next, n - 1)
  }

  /** Rows with `put` on top of the region and its last lines gone. */
  function Under(rows: seq<Line>, top: nat, bottom: nat, put: seq<Line>): seq<Line>
    requires top <= bottom < |rows| && |put| <= bottom + 1 - top
  {
    rows[..top] + put + rows[top..bottom + 1 - |put|] + rows[bottom + 1..]
  }

  lemma PushLineClosed(g: Screen, line: Line)
    requires g.top <= g.bottom < |g.rows| && g.cols > 0
    ensures PushLine(g, line) == AllDirty(g.(rows := Under(g.rows, g.top, g.bottom, [Normalized(line, g.cols)])))
  {
    InsertRowsClosed(g.rows, g.top, g.bottom, g.cols, 1);
    assert BlankRows(1, g.cols) == [BlankLine(g.cols)];
    hide InsertRows, Normalized, BlankLine, BlankRows;
    assert ScrollDown(g, 1).rows == Under(g.rows, g.top, g.bottom, [BlankLine(g.cols)]);
    assert Under(g.rows, g.top, g.bottom, [BlankLine(g.cols)])[g.top := Normalized(line, g.cols)]
        == Under(g.rows, g.top, g.bottom, [Normalized(line, g.cols)]);
  }

  lemma UnderTwice(rows: seq<Line>, top: nat, bottom: nat, put: seq<Line>, line: Line)
    requires top <= bottom < |rows| && |put| < bottom + 1 - top
    ensures |Under(rows, top, bottom, [line])| == |rows|
    ensures Under(Under(rows, top, bottom, [line]), top, bottom, put) == Under(rows, top, bottom, put + [line])
  {
    var next := Under(rows, top, bottom, [line]);
    var k := bottom - top - |put|;
    SliceShifted(next, top + 1, rows, top, k);
    assert next[top..top + 1 + k] == [next[top]] + next[top + 1..top + 1 + k];
    assert next[..top] == rows[..top] && next[bottom + 1..] == rows[bottom + 1..] && next[top] == line;
  }

  /** Screen and ring once the newest `j` lines are back on top, oldest first. */
  ghost predicate Back(g: Screen, r: Ring, j: nat, after: (Screen, Ring))
    requires g.top <= g.bottom < |g.rows| && g.cols > 0 && j <= |r.lines| && j <= Height(g)
  {
    && after.0 == g.(rows := Under(g.rows, g.top, g.bottom, NormalizedAll(Newest(r.lines, j), g.cols)), dirtyAll := after.0.dirtyAll)
    && after.1 == r.(lines := r.lines[..|r.lines| - j])
  }

  /** Restoring `n` times brings back the newest `n`, or all there are. */
  lemma {:induction false} RestoreTimesClosed(g: Screen, r: Ring, n: nat)
    requires g.top <= g.bottom < |g.rows| && g.cols > 0 && Valid(r) && n <= Height(g)
    ensures Back(g, r, Min(n, |r.lines|), RestoreTimes(g, r, n))
    decreases n
  {
    if n == 0 {
      RestoreNothing(g, r);
    } else {
      var (h, next) := Restore(g, r);
      RestoreTimesClosed(h, next, n - 1);
      if r.lines != [] {
        BackOnce(g, r, Min(n, |r.lines|), h, next, RestoreTimes(h, next, n - 1));
      }
    }
  }

  lemma BackOnce(g: Screen, r: Ring, j: nat, h: Screen, next: Ring, after: (Screen, Ring))
    requires g.top <= g.bottom < |g.rows| && g.cols > 0 && Valid(r) && 0 < j <= Height(g) && j <= |r.lines|
    requires (h, next) == Restore(g, r) && Back(h, next, j - 1, after)
    ensures Back(g, r, j, after)
  {
    RestoreOne(g, r, j);
    hide Restore, Under, NormalizedAll, Newest, Valid;
  }

  lemma RestoreNothing(g: Screen, r: Ring)
    requires g.top <= g.bottom < |g.rows| && g.cols > 0
    ensures NormalizedAll(Newest(r.lines, 0), g.cols) == []
    ensures Under(g.rows, g.top, g.bottom, []) == g.rows && r.lines[..|r.lines|] == r.lines
  {
  }

  /** The first of `j` restores, seen from the result of the others. */
  lemma RestoreOne(g: Screen, r: Ring, j: nat)
    requires g.top <= g.bottom < |g.rows| && g.cols > 0 && Valid(r) && 0 < j <= Height(g) && j <= |r.lines|
    ensures var (h, next) := Restore(g, r);
            && h == g.(rows := h.rows, dirtyAll := true) && next == r.(lines := next.lines)
            && |next.lines| == |r.lines| - 1 && next.lines[..|next.lines| - (j - 1)] == r.lines[..|r.lines| - j]
            && Under(h.rows, g.top, g.bottom, NormalizedAll(Newest(next.lines, j - 1), g.cols))
            == Under(g.rows, g.top, g.bottom, NormalizedAll(Newest(r.lines, j), g.cols))
  {
    var all := r.lines;
    var last, next := all[|all| - 1], all[..|all| - 1];
    var older := NormalizedAll(Newest(next, j - 1), g.cols);
    NormalizedLast(all, j, g.cols);
    assert next[..|next| - (j - 1)] == all[..|all| - j];
    hide NormalizedAll, Newest, Normalized, Valid, PushLine, Under;
    PushLineClosed(g, last);
    UnderTwice(g.rows, g.top, g.bottom, older, Normalized(last, g.cols));
  }

  lemma NormalizedLast(all: seq<Line>, j: nat, cols: nat)
    requires 0 < j <= |all| && cols > 0
    ensures NormalizedAll(Newest(all, j), cols)
         == NormalizedAll(Newest(all[..|all| - 1], j - 1), cols) + [Normalized(all[|all| - 1], cols)]
  {
    assert Newest(all, j) == Newest(all[..|all| - 1], j - 1) + [all[|all| - 1]];
    hide Normalized;
  }

  // ---- the round trip ----

  ghost function ScrolledAway(g: Screen, r: Ring, n: nat): (Screen, Ring)
    requires Shape(g) && Valid(r)
  {
    var (h, out) := ScrollUp(g, n);
    (h, PushAll(r, out))
  }

  /** A line comes back unharmed through a ring `cols` wide onto a screen `width` wide. */
  ghost predicate Survives(line: Line, cols: nat, width: nat)
    requires cols > 0 && width > 0 && |line| == width
  {
    if cols >= width then !line[width - 1].flags.wide
    else !line[cols - 1].flags.wide && forall j :: cols <= j < width ==> line[j] == BLANK
  }

  lemma SurvivesMeans(line: Line, cols: nat, width: nat)
    requires cols > 0 && width > 0 && |line| == width
    ensures Survives(line, cols, width) <==> Normalized(Normalized(line, cols), width) == line
  {
    var there := Normalized(line, cols);
    var back := Normalized(there, width);
    if cols >= width {
      assert forall j :: 0 <= j < width - 1 ==> back[j] == line[j];
      assert back[width - 1] == (if line[width - 1].flags.wide then BLANK else line[width - 1]);
    } else {
      assert forall j :: 0 <= j < cols - 1 ==> back[j] == line[j];
      assert back[cols - 1] == (if line[cols - 1].flags.wide then BLANK else line[cols - 1]);
      assert forall j :: cols <= j < width ==> back[j] == BLANK;
    }
  }

  /** `n` lines scrolled out of the region into history, then `n` times restored. */
  ghost function ThereAndBack(g: Screen, r: Ring, n: nat): (Screen, Ring)
    requires Shape(g) && Valid(r) && n <= Height(g)
  {
    var (h, kept) := ScrolledAway(g, r, n);
    RestoreTimes(h, kept, n)
  }

  /** Old lines given up when `n` more are pushed. */
  function Evicted(r: Ring, n: nat): (k: nat)
    ensures k <= |r.lines|
  {
    Min(|r.lines|, Max(0, |r.lines| + n - r.maxLines))
  }

  /** What restoring finds: old lines not given up, then the newest of those pushed. */
  lemma PushedOnTop(r: Ring, out: seq<Line>, j: nat)
    requires Valid(r) && j == Min(|out|, r.maxLines)
    ensures PushAll(r, out).lines == r.lines[Evicted(r, |out|)..] + NormalizedAll(out[|out| - j..], r.cols)
  {
    PushAllKeepsNewest(r, out);
    NewestOfBoth(r.lines, NormalizedAll(out, r.cols), r.maxLines);
    NormalizedSlice(out, |out| - j, r.cols);
    hide PushAll, NormalizedAll, Newest, Normalized;
  }

  lemma NormalizedSlice(lines: seq<Line>, i: nat, cols: nat)
    requires i <= |lines| && cols > 0
    ensures NormalizedAll(lines, cols)[i..] == NormalizedAll(lines[i..], cols)
  {
  }

  lemma NewestOfBoth<T>(a: seq<T>, b: seq<T>, room: nat)
    requires |a| <= room
    ensures Newest(a + b, room) == a[Min(|a|, Max(0, |a| + |b| - room))..] + b[|b| - Min(|b|, room)..]
  {
    var d := Max(0, |a| + |b| - room);
    if d <= |a| {
      assert (a + b)[d..] == a[d..] + b;
      assert b[0..] == b && a[0..] == a;
    } else {
      assert (a + b)[d..] == b[|b| - room..];
      assert a[|a|..] == [];
    }
  }

  lemma NewestOfSum<T>(older: seq<T>, newer: seq<T>)
    ensures Newest(older + newer, |newer|) == newer && (older + newer)[..|older|] == older
  {
  }

  /** The screen after the trip: of the lines scrolled out, the newest the ring had room for are back on
      top, through both widths; what stayed follows, and blanks stand for the lines lost. */
  ghost function RowsBack(g: Screen, r: Ring, n: nat): seq<Line>
    requires Shape(g) && Valid(r) && n <= Height(g)
  {
    var j := Min(n, r.maxLines);
    g.rows[..g.top] + NormalizedAll(NormalizedAll(g.rows[g.top + n - j..g.top + n], r.cols), g.cols)
    + g.rows[g.top + n..g.bottom + 1] + BlankRows(n - j, g.cols) + g.rows[g.bottom + 1..]
  }

  /** The whole trip in closed form, whatever the widths and however small the ring. */
  lemma ThereAndBackClosed(g: Screen, r: Ring, n: nat)
    requires Shape(g) && Valid(r) && n <= Height(g)
    ensures var (k, rest) := ThereAndBack(g, r, n);
            k == g.(rows := RowsBack(g, r, n), dirtyAll := k.dirtyAll) && rest == r.(lines := r.lines[Evicted(r, n)..])
  {
    ScrollUpClosed(g, n);
    var (h, out) := ScrollUp(g, n);
    hide PushAll, RestoreTimes, Valid, Shape, ScrollUp, Evicted, RowsBack, RowsLeft, RowsGone, Height;
    RestoredFrom(g, r, n, h, out);
  }

  lemma RestoredFrom(g: Screen, r: Ring, n: nat, h: Screen, out: seq<Line>)
    requires Shape(g) && Valid(r) && n <= Height(g) && out == RowsGone(g, n)
    requires h == g.(rows := RowsLeft(g, n), dirtyAll := true)
    ensures var after := RestoreTimes(h, PushAll(r, out), n);
            && after.0 == g.(rows := RowsBack(g, r, n), dirtyAll := after.0.dirtyAll)
            && after.1 == r.(lines := r.lines[Evicted(r, n)..])
  {
    hide PushAll, RestoreTimes, NormalizedAll, Valid, RowsOk, Back, Evicted, RowsBack, Under, RowsLeft, RowsGone;
    var kept, newer := KeptParts(r, out, Min(n, r.maxLines));
    var after := RestoreTimes(h, kept, n);
    RestoreTimesClosed(h, kept, n);
    BackOf(h, kept, r.lines[Evicted(r, n)..], newer, after);
    TripRows(g, r, n);
  }

  lemma KeptParts(r: Ring, out: seq<Line>, j: nat) returns (kept: Ring, newer: seq<Line>)
    requires Valid(r) && j == Min(|out|, r.maxLines)
    ensures kept == PushAll(r, out) && kept == r.(lines := r.lines[Evicted(r, |out|)..] + newer)
    ensures newer == NormalizedAll(out[|out| - j..], r.cols) && |newer| == j == Min(|out|, |kept.lines|)
  {
    PushedOnTop(r, out, j);
    kept, newer := PushAll(r, out), NormalizedAll(out[|out| - j..], r.cols);
    assert |kept.lines| >= j && |kept.lines| <= r.maxLines;
  }

  lemma BackOf(h: Screen, kept: Ring, older: seq<Line>, newer: seq<Line>, after: (Screen, Ring))
    requires h.top <= h.bottom < |h.rows| && h.cols > 0 && |newer| <= Height(h)
    requires kept.lines == older + newer && Back(h, kept, |newer|, after)
    ensures after.0 == h.(rows := Under(h.rows, h.top, h.bottom, NormalizedAll(newer, h.cols)), dirtyAll := after.0.dirtyAll)
    ensures after.1 == kept.(lines := older)
  {
    NewestOfSum(older, newer);
    hide Newest, NormalizedAll, Under;
  }

  lemma TripRows(g: Screen, r: Ring, n: nat)
    requires Shape(g) && Valid(r) && n <= Height(g)
    ensures Under(RowsLeft(g, n), g.top, g.bottom, NormalizedAll(NormalizedAll(RowsGone(g, n)[n - Min(n, r.maxLines)..], r.cols), g.cols))
         == RowsBack(g, r, n)
  {
    var j := Min(n, r.maxLines);
    SliceOfSlice(g.rows, g.top, n, n - j);
    hide NormalizedAll, Valid, RowsOk, BlankRows, Under;
    ScrolledUnder(g, RowsLeft(g, n), n, NormalizedAll(NormalizedAll(RowsGone(g, n)[n - j..], r.cols), g.cols));
  }

  lemma SliceOfSlice<T>(s: seq<T>, i: nat, n: nat, k: nat)
    requires i + n <= |s| && k <= n
    ensures s[i..i + n][k..] == s[i + k..i + n]
  {
  }

  /** The rows once `n` lines have left the region. */
  ghost function RowsLeft(g: Screen, n: nat): (rows: seq<Line>)
    requires Shape(g) && n <= Height(g)
    ensures |rows| == |g.rows|
  {
    g.rows[..g.top] + g.rows[g.top + n..g.bottom + 1] + BlankRows(n, g.cols) + g.rows[g.bottom + 1..]
  }

  ghost function RowsGone(g: Screen, n: nat): (out: seq<Line>)
    requires Shape(g) && n <= Height(g)
    ensures |out| == n
  {
    g.rows[g.top..g.top + n]
  }

  lemma ScrollUpClosed(g: Screen, n: nat)
    requires Shape(g) && n <= Height(g)
    ensures ScrollUp(g, n) == (g.(rows := RowsLeft(g, n), dirtyAll := true), RowsGone(g, n))
  {
    DeleteRowsClosed(g.rows, g.top, g.bottom, g.cols, n);
    hide DeleteRows, RowsOk;
  }

  lemma ScrolledUnder(g: Screen, rows: seq<Line>, n: nat, put: seq<Line>)
    requires Shape(g) && |put| <= n <= Height(g)
    requires rows == g.rows[..g.top] + g.rows[g.top + n..g.bottom + 1] + BlankRows(n, g.cols) + g.rows[g.bottom + 1..]
    ensures Under(rows, g.top, g.bottom, put)
         == g.rows[..g.top] + put + g.rows[g.top + n..g.bottom + 1] + BlankRows(n - |put|, g.cols) + g.rows[g.bottom + 1..]
  {
    hide RowsOk;
    var rest := g.rows[g.top + n..g.bottom + 1];
    assert rows[..g.top] == g.rows[..g.top] && rows[g.bottom + 1..] == g.rows[g.bottom + 1..];
    assert rows[g.top..g.bottom + 1 - |put|] == rest + BlankRows(n - |put|, g.cols);
  }

  /** The rows on screen survive the trip: with room for all, each scrolled line survives the widths;
      without, nothing was there to lose. */
  ghost predicate Restorable(g: Screen, r: Ring, n: nat)
    requires Shape(g) && Valid(r) && n <= Height(g)
  {
    if n <= r.maxLines then forall i :: g.top <= i < g.top + n ==> Survives(g.rows[i], r.cols, g.cols)
    else forall i :: g.top <= i <= g.bottom ==> g.rows[i] == BlankLine(g.cols)
  }

  /** Scrolling `n` lines out and restoring `n` times gives the screen back exactly when: the ring has room
      for them and every one survives the widths (between equal widths, none has a wide glyph in its last
      cell); or it has not, and the region is blank. Older history loses only what was evicted, and
      nothing but the rows and the dirty mark is touched. */
  lemma HistoryRoundTrip(g: Screen, r: Ring, n: nat)
    requires Shape(g) && Valid(r) && n <= Height(g)
    ensures var (k, rest) := ThereAndBack(g, r, n);
            && (k.rows == g.rows <==> Restorable(g, r, n))
            && k == g.(rows := k.rows, dirtyAll := k.dirtyAll)
            && rest == r.(lines := r.lines[Evicted(r, n)..])
  {
    ThereAndBackClosed(g, r, n);
    if n <= r.maxLines {
      RowsBackOrNot(g, r, n);
    } else {
      RowsLostOrBlank(g, r, n);
    }
    hide ThereAndBack, RowsBack, Shape, Survives, Evicted;
  }

  lemma RowsBackOrNot(g: Screen, r: Ring, n: nat)
    requires Shape(g) && Valid(r) && n <= Height(g) && n <= r.maxLines
    ensures RowsBack(g, r, n) == g.rows <==> forall i :: g.top <= i < g.top + n ==> Survives(g.rows[i], r.cols, g.cols)
  {
    var back := TwiceNormalized(g, r, n);
    RowsBackParts(g, r, n);
    BackOrNot(g, n, back, RowsBack(g, r, n));
    hide RowsBack, Shape, Valid, TwiceNormalized, Survives, BlankRows;
    forall i | g.top <= i < g.top + n
      ensures Survives(g.rows[i], r.cols, g.cols) <==> back[i - g.top] == g.rows[i]
    {
      BackAt(g, r, n, i);
    }
  }

  ghost function TwiceNormalized(g: Screen, r: Ring, n: nat): (back: seq<Line>)
    requires Shape(g) && Valid(r) && n <= Height(g)
    ensures |back| == n
  {
    NormalizedAll(NormalizedAll(g.rows[g.top..g.top + n], r.cols), g.cols)
  }

  lemma RowsBackParts(g: Screen, r: Ring, n: nat)
    requires Shape(g) && Valid(r) && n <= Height(g) && n <= r.maxLines
    ensures RowsBack(g, r, n) == g.rows[..g.top] + TwiceNormalized(g, r, n) + g.rows[g.top + n..g.bottom + 1]
                               + BlankRows(0, g.cols) + g.rows[g.bottom + 1..]
  {
    assert g.rows[g.top + n - n..g.top + n] == g.rows[g.top..g.top + n];
    hide BlankRows, NormalizedAll;
  }

  lemma BackAt(g: Screen, r: Ring, n: nat, i: nat)
    requires Shape(g) && Valid(r) && n <= Height(g) && g.top <= i < g.top + n
    ensures Survives(g.rows[i], r.cols, g.cols) <==> TwiceNormalized(g, r, n)[i - g.top] == g.rows[i]
  {
    SurvivesMeans(g.rows[i], r.cols, g.cols);
    assert |g.rows[i]| == g.cols;
    hide Survives, Normalized, RowsOk;
    assert g.rows[g.top..g.top + n][i - g.top] == g.rows[i];
  }

  lemma BackOrNot(g: Screen, n: nat, back: seq<Line>, rows: seq<Line>)
    requires Shape(g) && |back| == n <= Height(g)
    requires rows == g.rows[..g.top] + back + g.rows[g.top + n..g.bottom + 1] + BlankRows(0, g.cols) + g.rows[g.bottom + 1..]
    ensures rows == g.rows <==> forall i :: g.top <= i < g.top + n ==> back[i - g.top] == g.rows[i]
  {
    hide RowsOk;
    assert forall i :: g.top <= i < g.top + n ==> rows[i] == back[i - g.top];
  }

  // ---- more lines than room ----

  /** What a row becomes when lines were lost: the one as far below as lines were lost, or blank. */
  ghost function RowFrom(g: Screen, r: Ring, n: nat, i: nat): Line
    requires Shape(g) && Valid(r) && r.maxLines < n <= Height(g) && g.top <= i <= g.bottom
  {
    var d := n - r.maxLines;
    if i > g.bottom - d then BlankLine(g.cols)
    else if i < g.top + r.maxLines then Normalized(Normalized(g.rows[i + d], r.cols), g.cols)
    else g.rows[i + d]
  }

  lemma RowsBackAt(g: Screen, r: Ring, n: nat, i: nat)
    requires Shape(g) && Valid(r) && r.maxLines < n <= Height(g) && g.top <= i <= g.bottom
    ensures |RowsBack(g, r, n)| == |g.rows| && RowsBack(g, r, n)[i] == RowFrom(g, r, n, i)
  {
    var j := r.maxLines;
    var d := n - j;
    hide RowsOk, Normalized;
    var kept := NormalizedAll(NormalizedAll(g.rows[g.top + d..g.top + n], r.cols), g.cols);
    assert i < g.top + j ==> kept[i - g.top] == Normalized(Normalized(g.rows[i + d], r.cols), g.cols);
    hide NormalizedAll;
    var a, b, c := g.rows[..g.top], g.rows[g.top + n..g.bottom + 1], BlankRows(d, g.cols);
    assert RowsBack(g, r, n) == a + kept + b + c + g.rows[g.bottom + 1..];
  }

  /** The last rows come back blank; so, if the screen is unchanged, does each row above them in turn. */
  lemma {:induction false} BlankUpwards(g: Screen, r: Ring, n: nat, i: nat)
    requires Shape(g) && Valid(r) && r.maxLines < n <= Height(g) && g.top <= i <= g.bottom
    requires RowsBack(g, r, n) == g.rows
    ensures g.rows[i] == BlankLine(g.cols)
    decreases g.bottom - i
  {
    var d := n - r.maxLines;
    RowsBackAt(g, r, n, i);
    hide RowsBack, RowsOk;
    if i <= g.bottom - d {
      BlankUpwards(g, r, n, i + d);
      BlankNormalized(g.cols, r.cols);
    }
  }

  lemma BlankNormalized(width: nat, cols: nat)
    requires width > 0 && cols > 0
    ensures Normalized(Normalized(BlankLine(width), cols), width) == BlankLine(width)
  {
    assert Normalized(BlankLine(width), cols) == BlankLine(cols);
  }

  lemma RowsLostOrBlank(g: Screen, r: Ring, n: nat)
    requires Shape(g) && Valid(r) && r.maxLines < n <= Height(g)
    ensures RowsBack(g, r, n) == g.rows <==> forall i :: g.top <= i <= g.bottom ==> g.rows[i] == BlankLine(g.cols)
  {
    if RowsBack(g, r, n) == g.rows {
      forall i | g.top <= i <= g.bottom ensures g.rows[i] == BlankLine(g.cols) {
        BlankUpwards(g, r, n, i);
      }
    }
    if forall i :: g.top <= i <= g.bottom ==> g.rows[i] == BlankLine(g.cols) {
      BlankNormalized(g.cols, r.cols);
      RowsBackAt(g, r, n, g.top);
      RowsBackOutside(g, r, n);
      forall i | g.top <= i <= g.bottom ensures RowsBack(g, r, n)[i] == g.rows[i] {
        RowsBackAt(g, r, n, i);
      }
      hide RowsBack, RowsOk;
      assert RowsBack(g, r, n) == g.rows;
    }
  }

  lemma RowsBackOutside(g: Screen, r: Ring, n: nat)
    requires Shape(g) && Valid(r) && n <= Height(g)
    ensures |RowsBack(g, r, n)| == |g.rows|
    ensures forall i :: 0 <= i < |g.rows| && (i < g.top || i > g.bottom) ==> RowsBack(g, r, n)[i] == g.rows[i]
  {
    hide RowsOk, NormalizedAll, BlankRows;
  }

  /** With less room than lines scrolled out, the screen comes back exactly when its region is blank. */
  lemma LostBeyondCapacity(g: Screen, r: Ring, n: nat)
    requires Shape(g) && Valid(r) && r.maxLines < n <= Height(g)
    ensures ThereAndBack(g, r, n).0.rows == g.rows <==> forall i :: g.top <= i <= g.bottom ==> g.rows[i] == BlankLine(g.cols)
  {
    ThereAndBackClosed(g, r, n);
    RowsLostOrBlank(g, r, n);
    hide ThereAndBack, RowsBack, Shape;
  }
}
