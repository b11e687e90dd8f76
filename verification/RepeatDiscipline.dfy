/** Autorepeat timing over whole runs, told from the history of actions alone; and the layouts
    for which a repeat can reach the sink for a key that is not down. */
module RepeatDiscipline {
  import opened Options
  import opened Keys
  import opened Slots
  import opened SortedKeys
  import opened Keyboard
  import opened Sinks
  import opened KeyboardRuns
  import opened KeyboardLimits
  import opened Layouts
  import opened Repeats
  import opened Drivers
  import opened DriverRuns

  /** The last press action on a held repeatable key, and the last repeat sent since. */
  datatype Armed = Armed(downAt: Moment, lastRepeat: Option<Moment>)

  /** What one action means for `k`, given what was known before it. */
  ghost function ArmedBy(d: Driver, op: DriverOp, k: PhysicalKey, was: Option<Armed>): Option<Armed> {
    match op
    case Act(DownAction, key, now) =>
      if key == k && Press(d.kb, key, now).Done? then
        if IsRepeatable(d.layout, k) then Some(Armed(now, None)) else None
      else was
    case Act(UpAction, key, _) => if key == k then None else was
    case Act(TapAction, key, _) => if key == k then None else was
    case Act(ReleaseAllAction, _, _) => None
    case Tick(now) =>
      if was.Some? && Repeat(k) in Emitted(Respond(d, op)) then Some(was.value.(lastRepeat := Some(now))) else was
    case EmergencyRelease => None
    case SetLayout(_) => was
  }

  ghost function ArmedAfter(d0: Driver, ops: seq<DriverOp>, k: PhysicalKey): Option<Armed>
    decreases |ops|
  {
    if ops == [] then None
    else
      var init := ops[..|ops| - 1];
      ArmedBy(DriverRun(d0, init).0, ops[|ops| - 1], k, ArmedAfter(d0, init, k))
  }

  /** When the next repeat may go out: the delay after the press, then the cadence after each repeat. */
  function DueAt(rs: RepeatSettings, a: Armed): Moment {
    match a.lastRepeat
    case None => After(a.downAt, rs.delay)
    case Some(t) => After(t, rs.cadence)
  }

  /** The engine's table tells the same story as the history. */
  ghost predicate Agrees(d: Driver, k: PhysicalKey, a: Option<Armed>) {
    match a
    case None => Lookup(d.repeats, k) == None
    case Some(a) => Lookup(d.repeats, k) == Some(RepeatState(DueAt(d.rs, a), a.lastRepeat.Some?))
  }

  // ---- lookups ----

  lemma LookupIff(tracks: Tracks, k: PhysicalKey, i: nat, held: set<PhysicalKey>)
    requires TracksDown(tracks, held) && i < |tracks| && tracks[i].0 == k
    ensures Find(tracks, k) == Some(i) && Lookup(tracks, k) == Some(tracks[i].1)
  {
    assert Find(tracks, k).Some?;
  }

  lemma LookupWithout(tracks: Tracks, key: PhysicalKey, k: PhysicalKey, held: set<PhysicalKey>)
    requires TracksDown(tracks, held)
    ensures Lookup(Without(tracks, key), k) == if k == key then None else Lookup(tracks, k)
  {
    WithoutFacts(tracks, key, held);
    var rest := Without(tracks, key);
    if k == key {
      assert forall j :: 0 <= j < |rest| ==> rest[j].0 in held - {key};
    } else if Find(tracks, k).Some? {
      var i := Find(tracks, k).value;
      if Find(tracks, key).Some? {
        var at := Find(tracks, key).value;
        var j := if i < at then i else i - 1;
        assert rest[j] == tracks[i];
        LookupIff(rest, k, j, held - {key});
      }
    }
  }

  lemma LookupSnoc(tracks: Tracks, key: PhysicalKey, t: RepeatState, k: PhysicalKey, held: set<PhysicalKey>)
    requires TracksDown(tracks + [(key, t)], held)
    ensures Lookup(tracks + [(key, t)], k) == if k == key then Some(t) else Lookup(tracks, k)
  {
    var more := tracks + [(key, t)];
    assert forall i :: 0 <= i < |tracks| ==> more[i] == tracks[i];
    assert forall i, j :: 0 <= i < j < |tracks| ==> more[i].0 != more[j].0;
    if k == key {
      LookupIff(more, k, |tracks|, held);
    } else if Find(tracks, k).Some? {
      LookupIff(more, k, Find(tracks, k).value, held);
    }
  }

  lemma LookupTicked(rs: RepeatSettings, tracks: Tracks, now: Moment, k: PhysicalKey, held: set<PhysicalKey>)
    requires TracksDown(tracks, held) && rs.enabled
    ensures k in Due(rs, tracks, now) <==> Lookup(tracks, k).Some? && now >= Lookup(tracks, k).value.nextAt
    ensures Lookup(Ticked(rs, tracks, now), k)
         == if k in Due(rs, tracks, now) then Some(RepeatState(After(now, rs.cadence), true)) else Lookup(tracks, k)
  {
    TickedAt(rs, tracks, now);
    DueTracked(rs, tracks, now);
    var ticked := Ticked(rs, tracks, now);
    if Find(tracks, k).Some? {
      var i := Find(tracks, k).value;
      assert forall j :: 0 <= j < |tracks| && tracks[j].0 == k ==> j == i;
      LookupIff(ticked, k, i, held);
    } else {
      assert forall j :: 0 <= j < |ticked| ==> ticked[j].0 == tracks[j].0;
      assert Find(ticked, k) == None;
    }
  }

  // ---- one action ----

  lemma DownAgrees(d: Driver, key: PhysicalKey, now: Moment, k: PhysicalKey, was: Option<Armed>)
    requires Good(d) && d.rs.enabled && Agrees(d, k, was)
    ensures Agrees(DownKey(d, key, now).next, k, ArmedBy(d, Act(DownAction, key, now), k, was))
  {
    if Press(d.kb, key, now).Done? {
      PressHolds(d.kb, key, now);
      PressKeeps(d.kb, key, now);
      var held := Press(d.kb, key, now).next.depressed;
      hide Press, Inv;
      WithoutFacts(d.repeats, key, d.kb.depressed);
      LookupWithout(d.repeats, key, k, d.kb.depressed);
      var rest := Without(d.repeats, key);
      TrackRoom(d, key);
      if IsRepeatable(d.layout, key) {
        var t := RepeatState(After(now, d.rs.delay), false);
        TracksSnoc(rest, key, t, d.kb.depressed);
        LookupSnoc(rest, key, t, k, d.kb.depressed + {key});
      }
    }
  }

  lemma TracksSnoc(tracks: Tracks, key: PhysicalKey, t: RepeatState, held: set<PhysicalKey>)
    requires TracksDown(tracks, held - {key})
    ensures TracksDown(tracks + [(key, t)], held + {key})
  {
    var more := tracks + [(key, t)];
    assert forall i :: 0 <= i < |more| ==> more[i] == if i < |tracks| then tracks[i] else (key, t);
  }

  /** The table of tracks never overflows: its keys are different held keys. */
  lemma TrackRoom(d: Driver, key: PhysicalKey)
    requires Good(d) && d.rs.enabled
    requires key in d.kb.depressed || |d.kb.depressed| < d.kb.settings.maxHeldKeys
    ensures |Without(d.repeats, key)| < CAPACITY
  {
    WithoutFacts(d.repeats, key, d.kb.depressed);
    TrackCount(Without(d.repeats, key), d.kb.depressed - {key});
    hide Without;
    if key in d.kb.depressed {
      assert |d.kb.depressed - {key}| < |d.kb.depressed|;
    } else {
      assert d.kb.depressed - {key} == d.kb.depressed;
    }
  }

  lemma ReleasedAgrees(d: Driver, next: Driver, key: PhysicalKey, k: PhysicalKey, was: Option<Armed>)
    requires Good(d) && d.rs.enabled && Agrees(d, k, was)
    requires next.repeats == Without(d.repeats, key) && next.rs == d.rs
    ensures Agrees(next, k, if key == k then None else was)
  {
    LookupWithout(d.repeats, key, k, d.kb.depressed);
  }

  lemma TickAgrees(d: Driver, now: Moment, k: PhysicalKey, was: Option<Armed>)
    requires Good(d) && d.rs.enabled && Agrees(d, k, was)
    ensures Repeat(k) in TickRepeats(d, now).events <==> was.Some? && now >= DueAt(d.rs, was.value)
    ensures Agrees(TickRepeats(d, now).next, k, ArmedBy(d, Tick(now), k, was))
  {
    LookupTicked(d.rs, d.repeats, now, k, d.kb.depressed);
    var keys := Due(d.rs, d.repeats, now);
    assert Repeat(k) in Repeated(keys) <==> k in keys by {
      if k in keys {
        var i :| 0 <= i < |keys| && keys[i] == k;
        assert Repeated(keys)[i] == Repeat(k);
      }
    }
  }

  lemma StepAgrees(d: Driver, op: DriverOp, k: PhysicalKey, was: Option<Armed>)
    requires Good(d) && d.rs.enabled && Agrees(d, k, was)
    ensures Agrees(Respond(d, op).next, k, ArmedBy(d, op, k, was))
  {
    hide Good, Press, Release, ReleaseAll, Without;
    match op
    case Act(DownAction, key, now) => DownAgrees(d, key, now, k, was);
    case Act(UpAction, key, now) => ReleasedAgrees(d, UpKey(d, key, now).next, key, k, was);
    case Act(TapAction, key, now) => ReleasedAgrees(d, TapKey(d, key, now).next, key, k, was);
    case Act(ReleaseAllAction, key, now) =>
    case Tick(now) => TickAgrees(d, now, k, was);
    case EmergencyRelease =>
    case SetLayout(layout) =>
  }

  lemma {:induction false} RunAgrees(s: Settings, rs: RepeatSettings, layout: Layout, ops: seq<DriverOp>, k: PhysicalKey)
    requires Fits(s) && Calm(s, rs, layout) && CalmOps(s, rs, ops) && rs.enabled
    ensures var d0 := Fresh(s, rs, layout);
            Agrees(DriverRun(d0, ops).0, k, ArmedAfter(d0, ops, k))
    decreases |ops|
  {
    var d0 := Fresh(s, rs, layout);
    if ops != [] {
      var init, op := ops[..|ops| - 1], ops[|ops| - 1];
      RunAgrees(s, rs, layout, init, k);
      DriverRunGood(s, rs, layout, init);
      StepAgrees(DriverRun(d0, init).0, op, k, ArmedAfter(d0, init, k));
    }
  }

  /** Autorepeat discipline: after any run, a tick repeats a key exactly when repeats are on, the
      key's last action was a press that went through, and its due moment has come; and a key that
      repeats is down. */
  lemma RepeatsKeepTime(s: Settings, rs: RepeatSettings, layout: Layout, ops: seq<DriverOp>, now: Moment, k: PhysicalKey)
    requires Fits(s) && Calm(s, rs, layout) && CalmOps(s, rs, ops)
    ensures var d0 := Fresh(s, rs, layout);
            var d := DriverRun(d0, ops).0;
            var armed := ArmedAfter(d0, ops, k);
            var sent := TickRepeats(d, now).events;
            && (Repeat(k) in sent <==> rs.enabled && armed.Some? && now >= DueAt(rs, armed.value))
            && (Repeat(k) in sent ==> k in d.kb.depressed)
  {
    var d0 := Fresh(s, rs, layout);
    var d := DriverRun(d0, ops).0;
    DriverRunGood(s, rs, layout, ops);
    if rs.enabled {
      RunAgrees(s, rs, layout, ops, k);
      TickAgrees(d, now, k, ArmedAfter(d0, ops, k));
      DueTracked(d.rs, d.repeats, now);
    } else {
      NothingDue(d.rs, d.repeats, now);
    }
  }

  /** Away from the end of the clock, due means what it says: the first repeat comes no sooner than
      the delay after the press, a later one no sooner than the cadence after the one before. */
  lemma DueMeans(rs: RepeatSettings, a: Armed, now: Moment)
    requires now >= DueAt(rs, a) && now < TICK_LIMIT - 1
    requires rs.delay < TICK_LIMIT * NANOS_PER_MILLI && rs.cadence < TICK_LIMIT * NANOS_PER_MILLI
    ensures a.lastRepeat == None ==> now >= a.downAt + rs.delay / NANOS_PER_MILLI
    ensures a.lastRepeat.Some? ==> now >= a.lastRepeat.value + rs.cadence / NANOS_PER_MILLI
  {
    AfterExact(a.downAt, rs.delay);
    if a.lastRepeat.Some? {
      AfterExact(a.lastRepeat.value, rs.cadence);
    }
  }

  lemma AfterExact(t: Moment, d: Duration)
    requires d < TICK_LIMIT * NANOS_PER_MILLI
    ensures After(t, d) == if t + d / NANOS_PER_MILLI < TICK_LIMIT then t + d / NANOS_PER_MILLI else TICK_LIMIT - 1
  {
    assert d / NANOS_PER_MILLI < TICK_LIMIT;
    assert (d / NANOS_PER_MILLI) % TICK_LIMIT == d / NANOS_PER_MILLI;
  }

  // ---- layouts that can repeat a key that is up ----

  lemma {:induction false} PreferredOfOne(kinds: seq<ModifierKind>, kind: ModifierKind)
    requires Distinct(kinds)
    ensures PreferredOf(kinds, {kind}) == if kind in kinds then [Preferred(kind)] else []
  {
    if kinds != [] {
      PreferredOfOne(kinds[1..], kind);
      assert kind in kinds <==> kind == kinds[0] || kind in kinds[1..];
      assert kinds[0] !in kinds[1..];
    }
  }

  lemma InjectOne(kind: ModifierKind, held: set<PhysicalKey>)
    requires held == {}
    ensures Inject(KINDS, {kind}, held) == ({Preferred(kind)}, [Preferred(kind)])
  {
    assert kind in KINDS;
    PreferredOfOne(KINDS, kind);
    InjectExact(KINDS, {kind}, held);
    hide PreferredOf, Preferred, KindOf;
    InjectFacts(KINDS, {kind}, held);
  }

  /** A latched kind and nothing held: pressing a plain key puts down the kind's key as well. */
  lemma LatchedPress(s: Settings, kind: ModifierKind)
    requires Fits(s) && CanLatch(s)
    ensures var p := Preferred(kind);
            PressNormal(Parked(s, 0, {kind}), FIRST_PLAIN).0
            == Idle(s).(depressed := {p, FIRST_PLAIN}, injected := [(FIRST_PLAIN, [p])])
  {
    var kb := Parked(s, 0, {kind});
    assert Plain(0) == {};
    assert Engaged(kb) - HeldKinds(kb.depressed) == {kind};
    InjectOne(kind, kb.depressed);
    hide Inject, HeldKinds, Engaged;
    PressNormalParts(kb, FIRST_PLAIN, {kind});
    assert Interleaved(kb.taps) == [];
    assert [] + [(FIRST_PLAIN, [Preferred(kind)])] == [(FIRST_PLAIN, [Preferred(kind)])];
  }

  /** Releasing that key lets go of both. */
  lemma LatchedRelease(s: Settings, kind: ModifierKind)
    ensures var p := Preferred(kind);
            var kb := Idle(s).(depressed := {p, FIRST_PLAIN}, injected := [(FIRST_PLAIN, [p])]);
            ReleaseNormal(kb, FIRST_PLAIN).0.depressed == {}
  {
    var p := Preferred(kind);
    LetGoFacts([p], {p});
    assert {p, FIRST_PLAIN} - {FIRST_PLAIN} == {p};
    var table: Records := [(FIRST_PLAIN, [p])];
    assert Lookup(table, FIRST_PLAIN) == Some([p]);
    hide LetGo;
  }

  /** Tap the modifier, press a plain key, press the modifier too, release the plain key, wait. */
  ghost function Ghosting(p: PhysicalKey): seq<DriverOp> {
    [Act(DownAction, p, 0), Act(UpAction, p, 0), Act(DownAction, FIRST_PLAIN, 0), Act(DownAction, p, 0),
     Act(UpAction, FIRST_PLAIN, 0), Tick(TICK_LIMIT - 1)]
  }

  lemma DriverRunSnoc(d0: Driver, ops: seq<DriverOp>, op: DriverOp)
    ensures var (d, es) := DriverRun(d0, ops);
            DriverRun(d0, ops + [op]) == (Respond(d, op).next, es + Emitted(Respond(d, op)))
  {
    assert (ops + [op])[..|ops|] == ops;
  }

  lemma WithoutPair(tracks: Tracks, key: PhysicalKey, t: RepeatState)
    requires forall i :: 0 <= i < |tracks| ==> tracks[i].0 != key
    ensures Without(tracks, key) == tracks
    ensures Without([(key, t)] + tracks, key) == tracks && Without(tracks + [(key, t)], key) == tracks
  {
    assert Find(tracks, key) == None;
    var after := tracks + [(key, t)];
    assert after[|tracks|].0 == key;
    assert Find(after, key) == Some(|tracks|) by {
      assert forall j :: 0 <= j < |tracks| ==> after[j] == tracks[j];
    }
    assert ([(key, t)] + tracks)[1..] == tracks;
  }

  /** What is tracked after the second press of the modifier: the plain key if it repeats, and the
      modifier, although it is down only for the plain key. */
  ghost function GhostTracks(rs: RepeatSettings, layout: Layout, p: PhysicalKey): Tracks {
    var t := RepeatState(FirstAt(rs, 0), false);
    (if IsRepeatable(layout, FIRST_PLAIN) then [(FIRST_PLAIN, t)] else []) + [(p, t)]
  }

  lemma GhostingArms(s: Settings, rs: RepeatSettings, layout: Layout, kind: ModifierKind)
    requires Fits(s) && CanLatch(s) && IsRepeatable(layout, Preferred(kind))
    ensures var p := Preferred(kind);
            var d := DriverRun(Fresh(s, rs, layout), Ghosting(p)[..4]).0;
            && d.kb == Idle(s).(depressed := {p, FIRST_PLAIN}, injected := [(FIRST_PLAIN, [p])])
            && d.rs == rs && d.repeats == GhostTracks(rs, layout, p)
  {
    var p := Preferred(kind);
    var ops := Ghosting(p);
    var d0 := Fresh(s, rs, layout);
    hide CanLatch, Fits, Respond, IsRepeatable, Preferred, DriverRun;
    GhostingTap(s, rs, layout, kind);
    GhostingPress(s, rs, layout, kind);
    hide Tapping, Parked;
    DriverRunTwo(d0, [], ops[0], ops[1]);
    assert [] + [ops[0]] + [ops[1]] == [ops[0], ops[1]];
    DriverRunTwo(d0, [ops[0], ops[1]], ops[2], ops[3]);
    assert ops[..4] == [ops[0], ops[1]] + [ops[2]] + [ops[3]];
    DriverRunNone(d0);
  }

  lemma DriverRunNone(d0: Driver)
    ensures DriverRun(d0, []) == (d0, [])
  {
  }

  lemma DriverRunTwo(d0: Driver, ops: seq<DriverOp>, a: DriverOp, b: DriverOp)
    ensures DriverRun(d0, ops + [a] + [b]).0 == Respond(Respond(DriverRun(d0, ops).0, a).next, b).next
  {
    hide Respond;
    DriverRunSnoc(d0, ops, a);
    DriverRunSnoc(d0, ops + [a], b);
  }

  lemma GhostingTap(s: Settings, rs: RepeatSettings, layout: Layout, kind: ModifierKind)
    requires Fits(s) && CanLatch(s) && IsRepeatable(layout, Preferred(kind))
    ensures var p := Preferred(kind);
            var t := RepeatState(FirstAt(rs, 0), false);
            var d0 := Fresh(s, rs, layout);
            var d1 := d0.(kb := Tapping(s, 0, {}, p), repeats := [(p, t)]);
            && Respond(d0, Act(DownAction, p, 0)).next == d1
            && Respond(d1, Act(UpAction, p, 0)).next == d0.(kb := Parked(s, 0, {kind}))
  {
    var p := Preferred(kind);
    var t := RepeatState(FirstAt(rs, 0), false);
    assert Plain(0) == {};
    assert Idle(s) == Parked(s, 0, {});
    TapDown(s, 0, {}, p);
    TapUp(s, 0, {}, p);
    WithoutPair([], p, t);
    assert [] + [(p, t)] == [(p, t)];
    StepIsPress(Idle(s), p, 0);
    hide Press, Release, IsRepeatable, Without;
  }

  lemma StepIsPress(kb: Keyboard, key: PhysicalKey, now: Moment)
    requires |kb.depressed| < kb.settings.maxHeldKeys
    ensures Press(kb, key, now) == Done(Step(kb, PressOp(key, now)).0, Step(kb, PressOp(key, now)).1)
  {
  }

  lemma GhostingPress(s: Settings, rs: RepeatSettings, layout: Layout, kind: ModifierKind)
    requires Fits(s) && CanLatch(s) && IsRepeatable(layout, Preferred(kind))
    ensures var p, q := Preferred(kind), FIRST_PLAIN;
            var t := RepeatState(FirstAt(rs, 0), false);
            var tracked := if IsRepeatable(layout, q) then [(q, t)] else [];
            var d2 := Fresh(s, rs, layout).(kb := Parked(s, 0, {kind}));
            var d3 := d2.(kb := Idle(s).(depressed := {p, q}, injected := [(q, [p])]), repeats := tracked);
            && Respond(d2, Act(DownAction, q, 0)).next == d3
            && Respond(d3, Act(DownAction, p, 0)).next == d3.(repeats := tracked + [(p, t)])
  {
    var p, q := Preferred(kind), FIRST_PLAIN;
    var t := RepeatState(FirstAt(rs, 0), false);
    var tracked: Tracks := if IsRepeatable(layout, q) then [(q, t)] else [];
    var kb := Parked(s, 0, {kind});
    assert Plain(0) == {};
    LatchedPress(s, kind);
    StepNormal(kb, q, 0);
    StepIsPress(kb, q, 0);
    WithoutPair([], q, t);
    WithoutPair(tracked, p, t);
    var kb3 := Idle(s).(depressed := {p, q}, injected := [(q, [p])]);
    assert Press(kb, q, 0).next == kb3;
    assert Press(kb3, p, 0) == Done(kb3, []);
    hide Press, IsRepeatable, Without;
    assert [] + [(q, t)] == [(q, t)];
  }

  // ---- key actions as a caller of the state machine gives them ----

  function Acted(op: Op): DriverOp {
    match op
    case PressOp(key, now) => Act(DownAction, key, now)
    case ReleaseOp(key, now) => Act(UpAction, key, now)
    case ReleaseAllOp => EmergencyRelease
  }

  function Acting(ops: seq<Op>): (r: seq<DriverOp>)
    ensures |r| == |ops|
  {
    seq(|ops|, i requires 0 <= i < |ops| => Acted(ops[i]))
  }

  lemma ActedStep(d: Driver, op: Op)
    ensures var o := Respond(d, Acted(op));
            (o.next.kb, Emitted(o)) == Step(d.kb, op)
  {
    hide PressNormal, PressModifier, Release, ReleaseAll, Track, Without;
  }

  /** The engine sends what the state machine emits. */
  lemma {:induction false} ActingRuns(d0: Driver, s: Settings, ops: seq<Op>)
    requires d0.kb == Idle(s)
    ensures (DriverRun(d0, Acting(ops)).0.kb, DriverRun(d0, Acting(ops)).1) == Run(s, ops)
    decreases |ops|
  {
    if ops != [] {
      var init, op := ops[..|ops| - 1], ops[|ops| - 1];
      assert Acting(ops)[..|ops| - 1] == Acting(init);
      ActingRuns(d0, s, init);
      hide Respond, Step, Acting;
      ActedStep(DriverRun(d0, Acting(init)).0, op);
    }
  }

  /** The keyboard part of that run. */
  ghost function GhostKeys(p: PhysicalKey): seq<Op> {
    [PressOp(p, 0), ReleaseOp(p, 0), PressOp(FIRST_PLAIN, 0), PressOp(p, 0), ReleaseOp(FIRST_PLAIN, 0)]
  }

  lemma GhostQuiet(s: Settings, rs: RepeatSettings, layout: Layout, p: PhysicalKey)
    requires Fits(s)
    ensures var before := DriverRun(Fresh(s, rs, layout), Ghosting(p)[..5]);
            Replay(Holding({}), before.1) == Holding(before.0.kb.depressed)
  {
    var d0 := Fresh(s, rs, layout);
    assert Ghosting(p)[..5] == Acting(GhostKeys(p));
    ActingRuns(d0, s, GhostKeys(p));
    NoStuckKeys(s, GhostKeys(p));
    hide Run, Acting, Replay, DriverRun;
  }

  /** The last two steps. */
  lemma GhostTail(s: Settings, d4: Driver, layout: Layout, kind: ModifierKind)
    requires d4.kb == Idle(s).(depressed := {Preferred(kind), FIRST_PLAIN}, injected := [(FIRST_PLAIN, [Preferred(kind)])])
    requires d4.repeats == GhostTracks(d4.rs, layout, Preferred(kind)) && d4.rs.enabled
    ensures var d5 := Respond(d4, Act(UpAction, FIRST_PLAIN, 0)).next;
            d5.kb.depressed == {} && Emitted(Respond(d5, Tick(TICK_LIMIT - 1))) == [Repeat(Preferred(kind))]
  {
    GhostUp(s, d4, layout, kind);
    var d5 := UpKey(d4, FIRST_PLAIN, 0).next;
    hide UpKey, IsRepeatable, GhostTracks;
    GhostTick(d5, Preferred(kind), RepeatState(FirstAt(d4.rs, 0), false));
  }

  /** Everything is up, at the sink too, and the modifier repeats. */
  lemma GhostRepeats(s: Settings, rs: RepeatSettings, layout: Layout, kind: ModifierKind)
    requires Fits(s) && CanLatch(s) && rs.enabled && IsRepeatable(layout, Preferred(kind))
    ensures var p, d0 := Preferred(kind), Fresh(s, rs, layout);
            var before := DriverRun(d0, Ghosting(p)[..5]);
            && DriverRun(d0, Ghosting(p)).1 == before.1 + [Repeat(p)]
            && before.0.kb.depressed == {} && Replay(Holding({}), before.1) == Holding({})
  {
    var p := Preferred(kind);
    var ops := Ghosting(p);
    var d0 := Fresh(s, rs, layout);
    GhostingArms(s, rs, layout, kind);
    GhostQuiet(s, rs, layout, p);
    GhostTail(s, DriverRun(d0, ops[..4]).0, layout, kind);
    assert ops[..5] == ops[..4] + [ops[4]];
    assert ops == ops[..5] + [ops[5]];
    hide Fits, CanLatch, Replay, DriverRun, Respond, Fresh, Preferred, IsRepeatable, GhostTracks;
    DriverRunSnoc(d0, ops[..4], ops[4]);
    DriverRunSnoc(d0, ops[..5], ops[5]);
  }

  lemma GhostUp(s: Settings, d4: Driver, layout: Layout, kind: ModifierKind)
    requires d4.kb == Idle(s).(depressed := {Preferred(kind), FIRST_PLAIN}, injected := [(FIRST_PLAIN, [Preferred(kind)])])
    requires d4.repeats == GhostTracks(d4.rs, layout, Preferred(kind))
    ensures var d5 := UpKey(d4, FIRST_PLAIN, 0).next;
            && d5.repeats == [(Preferred(kind), RepeatState(FirstAt(d4.rs, 0), false))]
            && d5.rs == d4.rs && d5.kb.depressed == {}
  {
    LatchedRelease(s, kind);
    var t := RepeatState(FirstAt(d4.rs, 0), false);
    WithoutPair([(Preferred(kind), t)], FIRST_PLAIN, t);
    assert [] + [(Preferred(kind), t)] == [(Preferred(kind), t)];
    hide Without, ReleaseNormal, IsRepeatable;
  }

  lemma GhostTick(d: Driver, p: PhysicalKey, t: RepeatState)
    requires d.repeats == [(p, t)] && d.rs.enabled
    ensures var o := Respond(d, Tick(TICK_LIMIT - 1));
            Emitted(o) == [Repeat(p)] && o.next.kb == d.kb
  {
    assert Due(d.rs, d.repeats, TICK_LIMIT - 1) == [p];
  }

  lemma RepeatOfFreeKey(es: seq<KeyEvent>, k: PhysicalKey)
    requires Replay(Holding({}), es) == Holding({})
    ensures Replay(Holding({}), es + [Repeat(k)]) == Broken
  {
    ReplayConcat(Holding({}), es, [Repeat(k)]);
    ReplayFirst(Holding({}), Repeat(k), []);
  }

  ghost predicate StreamFits(d0: Driver, ops: seq<DriverOp>) {
    Replay(Holding({}), DriverRun(d0, ops).1) == Holding(DriverRun(d0, ops).0.kb.depressed)
  }

  ghost predicate KeepsLayout(ops: seq<DriverOp>) {
    forall i :: 0 <= i < |ops| ==> !ops[i].SetLayout?
  }

  /** Under a fixed layout, what reaches the sink is balanced on every run, repeats included, exactly when
      the settings leave room in the held-key array, and repeats or latching are off or the layout
      repeats no injectable key. */
  lemma RepeatsHeldIffCalm(s: Settings, rs: RepeatSettings, layout: Layout)
    ensures (forall ops :: KeepsLayout(ops) ==> StreamFits(Fresh(s, rs, layout), ops)) <==> Fits(s) && Calm(s, rs, layout)
  {
    var d0 := Fresh(s, rs, layout);
    if !Fits(s) {
      var keys, key := LostKey(s);
      ActingRuns(d0, s, keys);
      hide Run;
      assert KeepsLayout(Acting(keys)) && !StreamFits(d0, Acting(keys));
    } else if Calm(s, rs, layout) {
      forall ops | KeepsLayout(ops) ensures StreamFits(d0, ops) {
        DriverRunGood(s, rs, layout, ops);
      }
    } else {
      GhostBreaks(s, rs, layout);
    }
  }

  lemma GhostBreaks(s: Settings, rs: RepeatSettings, layout: Layout)
    requires Fits(s) && !Calm(s, rs, layout)
    ensures exists ops :: KeepsLayout(ops) && !StreamFits(Fresh(s, rs, layout), ops)
  {
    var p :| IsPreferred(p) && IsRepeatable(layout, p);
    var d0 := Fresh(s, rs, layout);
    hide DriverRun, IsRepeatable, Replay;
    assert KeepsLayout(Ghosting(p));
    GhostRepeats(s, rs, layout, KindOf(p).value);
    hide Fits, Calm, KeepsLayout, Ghosting;
    RepeatOfFreeKey(DriverRun(d0, Ghosting(p)[..5]).1, p);
    assert !StreamFits(d0, Ghosting(p));
  }
}
