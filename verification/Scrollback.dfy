/** The history ring as the program runs it: one queue of lines edited in place. */
module ScrollbackMachine {
  import opened Options
  import opened Utf8
  import opened Grid
  import opened GridMachine
  import History

  class Scrollback {
    var lines: seq<Line>
    const maxLines: nat
    const cols: nat

    ghost function View(): History.Ring
      reads this
    {
      History.Ring(lines, maxLines, cols)
    }

    ghost predicate Valid()
      reads this
    {
      History.Valid(View())
    }

    constructor (maxLines: nat, cols: nat)
      requires History.NewRing(maxLines, cols).Some?
      ensures Valid() && View() == History.NewRing(maxLines, cols).value
    {
      lines := [];
      this.maxLines, this.cols := maxLines, cols;
    }

    /** Cut or pad the line, clear half a glyph at its edge, make room, append. */
    method Push(given: Line) returns (evicted: bool)
      requires Valid()
      modifies this
      ensures Valid() && (View(), evicted) == History.Push(old(View()), given)
    {
      var line := FitLine(given, cols);
      evicted := |lines| == maxLines;
      if evicted {
        lines := lines[1..];
      }
      lines := lines + [line];
    }

    method PopNewest() returns (line: Option<Line>)
      requires Valid()
      modifies this
      ensures Valid() && (View(), line) == History.PopNewest(old(View()))
    {
      if lines == [] {
        return None;
      }
      line := Some(lines[|lines| - 1]);
      lines := lines[..|lines| - 1];
    }

    method PopOldest() returns (line: Option<Line>)
      requires Valid()
      modifies this
      ensures Valid()
      ensures old(lines) == [] ==> line == None && lines == []
      ensures old(lines) != [] ==> line.Some? && [line.value] + lines == old(lines)
    {
      if lines == [] {
        return None;
      }
      line := Some(lines[0]);
      lines := lines[1..];
    }

    /** Line `i` counted from the newest. */
    function FromBottom(i: nat): (line: Option<Line>)
      reads this
      ensures line.Some? <==> i < |lines|
      ensures line.Some? ==> line == FromTop(|lines| - 1 - i)
    {
      if i >= |lines| then None else Some(lines[|lines| - 1 - i])
    }

    /** Line `i` counted from the oldest. */
    function FromTop(i: nat): Option<Line>
      reads this
    {
      if i < |lines| then Some(lines[i]) else None
    }

    method Clear()
      requires Valid()
      modifies this
      ensures Valid() && lines == []
    {
      lines := [];
    }

    /** Drop the oldest `n`, or all there are. */
    method DrainOldest(n: nat)
      requires Valid()
      modifies this
      ensures Valid() && lines == old(lines)[Min(n, |old(lines)|)..]
    {
      var k := Min(n, |lines|);
      for i := 0 to k
        invariant Valid() && lines == old(lines)[i..]
      {
        lines := lines[1..];
      }
    }

    /** Take scrolled-out lines in, in order. */
    method PushLines(given: seq<Line>)
      requires Valid()
      modifies this
      ensures Valid() && View() == History.PushAll(old(View()), given)
    {
      assert given[0..] == given;
      for i := 0 to |given|
        invariant Valid()
        invariant History.PushAll(View(), given[i..]) == History.PushAll(old(View()), given)
      {
        assert given[i..][1..] == given[i + 1..];
        var _ := Push(given[i]);
      }
      assert given[|given|..] == [];
    }
  }
}
