/** What a tap is, told from the list of operations alone: which press a release is measured from, and
    what spoils it. */
module KeyboardTaps {
  import opened Options
  import opened Keys
  import opened Slots
  import opened Keyboard
  import opened KeyboardRuns

  ghost function HeldAfter(s: Settings, ops: seq<Op>): set<PhysicalKey> { Run(s, ops).0.depressed }

  /** Operation `i` is a press that goes through: the key was up, and the rollover cap allowed it. */
  ghost predicate Lands(s: Settings, ops: seq<Op>, i: nat) {
    && i < |ops| && ops[i].PressOp?
    && ops[i].key !in HeldAfter(s, ops[..i]) && |HeldAfter(s, ops[..i])| < s.maxHeldKeys
  }

  /** A press of a modifier: its key, its moment and its place in the run. */
  datatype Stroke = Stroke(key: PhysicalKey, down: Moment, at: nat)

  /** The modifier presses no release was measured from yet, oldest first, at most 32 of them. */
  ghost function Open(s: Settings, ops: seq<Op>): (r: seq<Stroke>)
    ensures forall j :: 0 <= j < |r| ==> r[j].at < |ops|
    ensures |r| <= CAPACITY
    decreases |ops|
  {
    if ops == [] then []
    else
      var n := |ops| - 1;
      var before := Open(s, ops[..n]);
      match ops[n]
      case PressOp(key, now) =>
        if IsModifier(key) && Lands(s, ops, n) && |before| < CAPACITY then before + [Stroke(key, now, n)] else before
      case ReleaseOp(key, _) =>
        if IsModifier(key) && key in HeldAfter(s, ops[..n]) then OldestTaken(before, key) else before
      case ReleaseAllOp => []
  }

  /** Without the oldest stroke of the key. */
  function OldestTaken(open: seq<Stroke>, key: PhysicalKey): (r: seq<Stroke>)
    ensures |r| <= |open| && forall j :: 0 <= j < |r| ==> r[j] in open
  {
    if open == [] then []
    else if open[0].key == key then open[1..]
    else [open[0]] + OldestTaken(open[1..], key)
  }

  function Oldest(open: seq<Stroke>, key: PhysicalKey): (r: Option<Stroke>)
    ensures r.Some? ==> r.value in open && r.value.key == key
  {
    if open == [] then None
    else if open[0].key == key then Some(open[0])
    else Oldest(open[1..], key)
  }

  /** A modifier of another kind was held when the stroke came, or a normal key went down since. */
  ghost predicate Spoiled(s: Settings, ops: seq<Op>, k: Stroke) {
    || Chord(s, ops, k)
    || exists m :: k.at < m < |ops| && Spends(s, ops, m)
  }

  ghost predicate Chord(s: Settings, ops: seq<Op>, k: Stroke) {
    k.at <= |ops| && exists o :: o in HeldAfter(s, ops[..k.at]) && IsModifier(o) && KindOf(o) != KindOf(k.key)
  }

  ghost predicate Spends(s: Settings, ops: seq<Op>, m: nat) {
    Lands(s, ops, m) && IsNormal(ops[m].key)
  }

  /** Letting `key` go at `now`, after the run, is a tap: the oldest press still open is unspoiled and less than
      the timeout ago. Where a track was stranded, that is the press it is measured from. */
  ghost predicate Tapped(s: Settings, ops: seq<Op>, key: PhysicalKey, now: Moment) {
    match Oldest(Open(s, ops), key)
    case None => false
    case Some(k) => !Spoiled(s, ops, k) && s.tapTimeout > 0 && (now - k.down) * NANOS_PER_MILLI < s.tapTimeout
  }

  // ---- the tap table is the open strokes ----

  ghost function TracksOf(s: Settings, ops: seq<Op>, open: seq<Stroke>): (r: seq<(PhysicalKey, TapTrack)>)
    ensures |r| == |open|
  {
    seq(|open|, j requires 0 <= j < |open| => TrackOf(s, ops, open[j]))
  }

  ghost function TrackOf(s: Settings, ops: seq<Op>, k: Stroke): (PhysicalKey, TapTrack) {
    (k.key, TapTrack(k.down, Spoiled(s, ops, k)))
  }

  lemma {:induction false} FindIsOldest(s: Settings, ops: seq<Op>, open: seq<Stroke>, key: PhysicalKey)
    ensures Lookup(TracksOf(s, ops, open), key)
         == match Oldest(open, key) case None => None case Some(k) => Some(TrackOf(s, ops, k).1)
    ensures Without(TracksOf(s, ops, open), key) == TracksOf(s, ops, OldestTaken(open, key))
  {
    hide TrackOf;
    var tracks := TracksOf(s, ops, open);
    if open != [] {
      KeyOfTrack(s, ops, open[0]);
      assert tracks[0] == TrackOf(s, ops, open[0]);
      assert tracks[1..] == TracksOf(s, ops, open[1..]);
      if open[0].key != key {
        FindIsOldest(s, ops, open[1..], key);
        FindSecond(tracks, key);
        assert TracksOf(s, ops, OldestTaken(open, key)) == [tracks[0]] + TracksOf(s, ops, OldestTaken(open[1..], key));
      } else {
        assert Find(tracks, key) == Some(0);
      }
    }
  }

  lemma KeyOfTrack(s: Settings, ops: seq<Op>, k: Stroke)
    ensures TrackOf(s, ops, k).0 == k.key
  {
  }

  lemma FindSecond(tracks: seq<(PhysicalKey, TapTrack)>, key: PhysicalKey)
    requires tracks != [] && tracks[0].0 != key
    ensures Lookup(tracks, key) == Lookup(tracks[1..], key)
    ensures Without(tracks, key) == [tracks[0]] + Without(tracks[1..], key)
  {
    var rest := tracks[1..];
    var f := Find(rest, key);
    assert Find(tracks, key) == if f.Some? then Some(f.value + 1) else None;
    hide Find;
    if f.Some? {
      assert tracks[..f.value + 1] == [tracks[0]] + rest[..f.value];
      assert tracks[f.value + 2..] == rest[f.value + 1..];
      assert [tracks[0]] + (rest[..f.value] + rest[f.value + 1..]) == [tracks[0]] + rest[..f.value] + rest[f.value + 1..];
    } else {
      assert tracks == [tracks[0]] + rest;
    }
  }

  lemma HeldEarlier(s: Settings, init: seq<Op>, op: Op, i: nat)
    requires i <= |init|
    ensures HeldAfter(s, (init + [op])[..i]) == HeldAfter(s, init[..i])
  {
    assert (init + [op])[..i] == init[..i];
  }

  lemma SpendsEarlier(s: Settings, init: seq<Op>, op: Op, m: nat)
    requires m < |init|
    ensures Spends(s, init + [op], m) <==> Spends(s, init, m)
    ensures Lands(s, init + [op], m) <==> Lands(s, init, m)
  {
    HeldEarlier(s, init, op, m);
  }

  /** One more operation spoils what was open exactly if it is a normal key going down. */
  lemma SpoiledMore(s: Settings, init: seq<Op>, op: Op, k: Stroke)
    requires k.at < |init|
    ensures Spoiled(s, init + [op], k) <==> Spoiled(s, init, k) || Spends(s, init + [op], |init|)
  {
    var ops := init + [op];
    HeldEarlier(s, init, op, k.at);
    assert Chord(s, ops, k) <==> Chord(s, init, k);
    hide Spends, HeldAfter, Chord;
    forall m | k.at < m < |init| ensures Spends(s, ops, m) <==> Spends(s, init, m) {
      SpendsEarlier(s, init, op, m);
    }
  }

  lemma TracksMore(s: Settings, init: seq<Op>, op: Op, open: seq<Stroke>)
    requires forall j :: 0 <= j < |open| ==> open[j].at < |init|
    ensures TracksOf(s, init + [op], open)
         == if Spends(s, init + [op], |init|) then Interleaved(TracksOf(s, init, open)) else TracksOf(s, init, open)
  {
    hide Spends, Spoiled;
    forall j | 0 <= j < |open| ensures Spoiled(s, init + [op], open[j]) <==> Spoiled(s, init, open[j]) || Spends(s, init + [op], |init|) {
      SpoiledMore(s, init, op, open[j]);
    }
  }

  lemma {:induction false} TapsAreOpen(s: Settings, ops: seq<Op>)
    ensures Run(s, ops).0.taps == TracksOf(s, ops, Open(s, ops)) && Run(s, ops).0.settings == s
    decreases |ops|
  {
    if ops != [] {
      var init, op := ops[..|ops| - 1], ops[|ops| - 1];
      TapsAreOpen(s, init);
      hide Run, Step, TracksOf;
      assert ops == init + [op];
      StepTaps(s, init, op);
      StepRun(s, init, op);
    }
  }

  lemma StepRun(s: Settings, init: seq<Op>, op: Op)
    ensures Run(s, init + [op]).0 == Step(Run(s, init).0, op).0
  {
    assert (init + [op])[..|init|] == init;
    hide Step;
  }

  lemma StepTaps(s: Settings, init: seq<Op>, op: Op)
    requires Run(s, init).0.taps == TracksOf(s, init, Open(s, init)) && Run(s, init).0.settings == s
    ensures Step(Run(s, init).0, op).0.taps == TracksOf(s, init + [op], Open(s, init + [op]))
  {
    var ops, before, kb := init + [op], Open(s, init), Run(s, init).0;
    assert ops[..|init|] == init && ops[|init|] == op;
    TracksMore(s, init, op, before);
    match op
    case PressOp(key, now) =>
      PressTaps(s, init, key, now);
    case ReleaseOp(key, now) =>
      ReleaseTaps(kb, key, now);
      FindIsOldest(s, init, before, key);
      TracksMore(s, init, op, OldestTaken(before, key)) by {
        forall j | 0 <= j < |OldestTaken(before, key)| ensures OldestTaken(before, key)[j].at < |init| {
          assert OldestTaken(before, key)[j] in before;
        }
      }
      hide Step, TracksOf, Run;
    case ReleaseAllOp =>
  }

  lemma ReleaseTaps(kb: Keyboard, key: PhysicalKey, now: Moment)
    ensures Step(kb, ReleaseOp(key, now)).0.taps
         == if key in kb.depressed && IsModifier(key) then Without(kb.taps, key) else kb.taps
  {
    hide IsTap, LetGo, Without;
  }

  lemma PressTaps(s: Settings, init: seq<Op>, key: PhysicalKey, now: Moment)
    requires Run(s, init).0.taps == TracksOf(s, init, Open(s, init)) && Run(s, init).0.settings == s
    ensures var ops := init + [PressOp(key, now)];
            Step(Run(s, init).0, PressOp(key, now)).0.taps == TracksOf(s, ops, Open(s, ops))
  {
    var op := PressOp(key, now);
    var ops, before, kb := init + [op], Open(s, init), Run(s, init).0;
    assert ops[..|init|] == init && ops[|init|] == op;
    TracksMore(s, init, op, before);
    PressLeaves(kb, key, now);
    assert Lands(s, ops, |init|) <==> key !in kb.depressed && |kb.depressed| < s.maxHeldKeys;
    var k := Stroke(key, now, |init|);
    if IsModifier(key) && Lands(s, ops, |init|) {
      assert Spoiled(s, ops, k) <==> OtherHeld(kb.depressed, KindOf(key).value) by {
        OtherIs(kb.depressed, key);
      }
      hide Spoiled, Run, Step, OtherHeld, Lands;
      if |before| < CAPACITY {
        assert TracksOf(s, ops, before + [k]) == TracksOf(s, ops, before) + [TrackOf(s, ops, k)];
      }
    }
    hide Run, Step, Spoiled, OtherHeld, TracksOf, Lands;
  }

  lemma OtherIs(held: set<PhysicalKey>, key: PhysicalKey)
    requires IsModifier(key)
    ensures OtherHeld(held, KindOf(key).value) <==> exists o :: o in held && IsModifier(o) && KindOf(o) != KindOf(key)
  {
    if o :| o in held && IsModifier(o) && KindOf(o) != KindOf(key) {
      assert IsOther(o, KindOf(key).value);
    }
  }

  lemma PressLeaves(kb: Keyboard, key: PhysicalKey, now: Moment)
    ensures var taps := Step(kb, PressOp(key, now)).0.taps;
            var lands := key !in kb.depressed && |kb.depressed| < kb.settings.maxHeldKeys;
            && (lands && IsModifier(key) ==> taps == Append(kb.taps, (key, TapTrack(now, OtherHeld(kb.depressed, KindOf(key).value)))))
            && (lands && IsNormal(key) ==> taps == Interleaved(kb.taps))
            && (!lands || IsLock(key) ==> taps == kb.taps)
  {
    hide Inject, OtherHeld;
  }

  /** The machine sees a tap exactly where the operations say there is one. */
  lemma TapIsTapped(s: Settings, ops: seq<Op>, key: PhysicalKey, now: Moment)
    ensures IsTap(Run(s, ops).0, key, now) <==> Tapped(s, ops, key, now)
  {
    TapsAreOpen(s, ops);
    FindIsOldest(s, ops, Open(s, ops), key);
    hide Run, TracksOf, Spoiled, Open;
  }

  // ---- the plain case ----

  /** Where no older press of the key is still open, a press held until now is the one measured: letting go is a
      tap exactly when it comes within the timeout, no normal key went down since, and no modifier of another
      kind was held at the press. */
  lemma TapMeans(s: Settings, ops: seq<Op>, i: nat, now: Moment)
    requires Lands(s, ops, i) && IsModifier(ops[i].key)
    requires forall m :: i < m <= |ops| ==> ops[i].key in HeldAfter(s, ops[..m])
    requires Oldest(Open(s, ops[..i]), ops[i].key) == None && |Open(s, ops[..i])| < CAPACITY
    ensures Tapped(s, ops, ops[i].key, now)
       <==> && 0 < s.tapTimeout && (now - ops[i].now) * NANOS_PER_MILLI < s.tapTimeout
            && (forall o :: o in HeldAfter(s, ops[..i]) && IsModifier(o) ==> KindOf(o) == KindOf(ops[i].key))
            && (forall m :: i < m < |ops| ==> !Spends(s, ops, m))
  {
    MeasuredFrom(s, ops, i);
    hide HeldAfter, Open, Oldest, Spends;
    var k := Stroke(ops[i].key, ops[i].now, i);
    assert Spoiled(s, ops, k) <==> Chord(s, ops, k) || exists m :: i < m < |ops| && Spends(s, ops, m);
  }

  lemma {:induction false} MeasuredFrom(s: Settings, ops: seq<Op>, i: nat)
    requires Lands(s, ops, i) && IsModifier(ops[i].key)
    requires forall m :: i < m <= |ops| ==> ops[i].key in HeldAfter(s, ops[..m])
    requires Oldest(Open(s, ops[..i]), ops[i].key) == None && |Open(s, ops[..i])| < CAPACITY
    ensures Oldest(Open(s, ops), ops[i].key) == Some(Stroke(ops[i].key, ops[i].now, i))
    decreases |ops|
  {
    var n := |ops| - 1;
    var init, op, key := ops[..n], ops[n], ops[i].key;
    hide HeldAfter, Oldest, Open, Lands;
    assert ops == init + [op];
    if i == n {
      MeasuredAtPress(s, init, op);
    } else {
      assert init[..i] == ops[..i] && init[i] == ops[i];
      SpendsEarlier(s, init, op, i);
      forall m | i < m <= |init| ensures key in HeldAfter(s, init[..m]) {
        assert init[..m] == ops[..m];
      }
      MeasuredFrom(s, init, i);
      assert ops[..n + 1] == ops;
      HeldStays(s, init, op, key);
      OldestStays(s, init, op, key);
    }
  }

  lemma MeasuredAtPress(s: Settings, init: seq<Op>, op: Op)
    requires Lands(s, init + [op], |init|) && IsModifier(op.key)
    requires Oldest(Open(s, init), op.key) == None && |Open(s, init)| < CAPACITY
    ensures Oldest(Open(s, init + [op]), op.key) == Some(Stroke(op.key, op.now, |init|))
  {
    var ops := init + [op];
    assert ops[..|init|] == init && ops[|init|] == op;
    OldestSnoc(Open(s, init), Stroke(op.key, op.now, |init|), op.key);
    hide HeldAfter, Oldest, Lands;
  }

  lemma OldestStays(s: Settings, init: seq<Op>, op: Op, key: PhysicalKey)
    requires !op.ReleaseAllOp? && !(op.ReleaseOp? && op.key == key)
    requires Oldest(Open(s, init), key).Some?
    ensures Oldest(Open(s, init + [op]), key) == Oldest(Open(s, init), key)
  {
    var ops := init + [op];
    assert ops[..|init|] == init;
    hide HeldAfter;
    if op.PressOp? {
      OldestSnoc(Open(s, init), Stroke(op.key, op.now, |init|), key);
    } else {
      OtherTaken(Open(s, init), op.key, key);
    }
  }

  lemma HeldStays(s: Settings, init: seq<Op>, op: Op, key: PhysicalKey)
    requires IsModifier(key) && key in HeldAfter(s, init + [op])
    ensures !op.ReleaseAllOp? && !(op.ReleaseOp? && op.key == key)
  {
    StepRun(s, init, op);
    hide Run, IsTap, LetGo, Inject, OtherHeld;
  }

  lemma {:induction false} OldestSnoc(open: seq<Stroke>, k: Stroke, key: PhysicalKey)
    ensures Oldest(open + [k], key)
         == if Oldest(open, key).Some? then Oldest(open, key) else if k.key == key then Some(k) else None
  {
    if open == [] {
      assert open + [k] == [k];
    } else {
      assert (open + [k])[1..] == open[1..] + [k] && (open + [k])[0] == open[0];
      OldestSnoc(open[1..], k, key);
    }
  }

  lemma {:induction false} OtherTaken(open: seq<Stroke>, other: PhysicalKey, key: PhysicalKey)
    requires other != key
    ensures Oldest(OldestTaken(open, other), key) == Oldest(open, key)
  {
    if open != [] {
      if open[0].key != other {
        OtherTaken(open[1..], other, key);
        var rest := OldestTaken(open[1..], other);
        assert ([open[0]] + rest)[1..] == rest;
      }
    }
  }
}
