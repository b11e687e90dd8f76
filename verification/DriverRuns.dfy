/** Whole runs of the engine: what the sink is sent stays balanced, repeats included, exactly when
    no injectable key repeats; repeats keep their delay and cadence; and neither destination
    behind the router ever sees half of a press. */
module DriverRuns {
  import opened Options
  import opened Keys
  import opened Slots
  import opened SortedKeys
  import opened Keyboard
  import opened Sinks
  import opened KeyboardRuns
  import opened Layouts
  import opened Repeats
  import opened Drivers

  /** No key that injection uses repeats. */
  ghost predicate Quiet(layout: Layout) {
    forall k: PhysicalKey :: IsPreferred(k) ==> !IsRepeatable(layout, k)
  }

  /** The layout cannot make an injected key repeat: it is quiet, or repeats or latches are off. */
  ghost predicate Calm(s: Settings, rs: RepeatSettings, layout: Layout) {
    rs.enabled && CanLatch(s) ==> Quiet(layout)
  }

  /** Tracked keys are different keys, all of them down. */
  ghost predicate TracksDown(tracks: Tracks, held: set<PhysicalKey>) {
    && (forall i :: 0 <= i < |tracks| ==> tracks[i].0 in held)
    && (forall i, j :: 0 <= i < j < |tracks| ==> tracks[i].0 != tracks[j].0)
  }

  ghost predicate NonePreferred(tracks: Tracks) {
    forall i :: 0 <= i < |tracks| ==> !IsPreferred(tracks[i].0)
  }

  ghost predicate Good(d: Driver) {
    && Inv(d.kb)
    && Calm(d.kb.settings, d.rs, d.layout)
    && (d.rs.enabled ==> TracksDown(d.repeats, d.kb.depressed))
    && (d.rs.enabled && CanLatch(d.kb.settings) ==> NonePreferred(d.repeats))
  }

  // ---- tables of tracks ----

  lemma {:induction false} TrackCount(tracks: Tracks, held: set<PhysicalKey>)
    requires TracksDown(tracks, held)
    ensures |tracks| <= |held|
  {
    if tracks != [] {
      var rest := tracks[1..];
      assert forall i :: 0 <= i < |rest| ==> rest[i] == tracks[i + 1];
      TrackCount(rest, held - {tracks[0].0});
    }
  }

  lemma WithoutFacts(tracks: Tracks, key: PhysicalKey, held: set<PhysicalKey>)
    requires TracksDown(tracks, held)
    ensures var rest := Without(tracks, key);
            && TracksDown(rest, held - {key}) && (NonePreferred(tracks) ==> NonePreferred(rest))
            && forall j :: 0 <= j < |rest| ==> exists i :: 0 <= i < |tracks| && rest[j] == tracks[i]
  {
    hide IsPreferred;
    var rest := Without(tracks, key);
    if Find(tracks, key).Some? {
      var i := Find(tracks, key).value;
      forall j | 0 <= j < |rest|
        ensures rest[j] == tracks[if j < i then j else j + 1]
      {
      }
    } else {
      assert held - {key} <= held;
    }
  }

  lemma TrackFacts(d: Driver, key: PhysicalKey, now: Moment, held: set<PhysicalKey>)
    requires Good(d) && d.rs.enabled && d.kb.depressed <= held && key in held
    ensures var t := Track(d.rs, d.repeats, key, now, IsRepeatable(d.layout, key));
            TracksDown(t, held) && (CanLatch(d.kb.settings) ==> NonePreferred(t))
  {
    WithoutFacts(d.repeats, key, d.kb.depressed);
    hide IsRepeatable, IsPreferred, Without;
    var rest := Without(d.repeats, key);
    var added := (key, RepeatState(FirstAt(d.rs, now), false));
    var t := rest + [added];
    assert forall i :: 0 <= i < |t| ==> t[i] == if i < |rest| then rest[i] else added;
  }

  // ---- what a step of the state machine does to the held keys ----

  lemma PressHolds(kb: Keyboard, key: PhysicalKey, now: Moment)
    requires Inv(kb) && Press(kb, key, now).Done?
    ensures kb.depressed <= Press(kb, key, now).next.depressed && key in Press(kb, key, now).next.depressed
  {
    if key !in kb.depressed && IsNormal(key) {
      InjectBound(kb, Engaged(kb) - HeldKinds(kb.depressed));
    }
  }

  /** A release takes away the key itself and, at most, preferred modifier keys. */
  lemma ReleaseTakes(kb: Keyboard, key: PhysicalKey, now: Moment)
    requires Inv(kb)
    ensures var next := Release(kb, key, now).0;
            forall k :: k in kb.depressed && k != key && !(CanLatch(kb.settings) && IsPreferred(k)) ==> k in next.depressed
    ensures key !in Release(kb, key, now).0.depressed
  {
    if key in kb.depressed {
      if IsModifier(key) {
        ReleaseModifierKeeps(kb, key, now);
      } else if IsLock(key) {
        ReleaseLockKeeps(kb, key);
      } else if Lookup(kb.injected, key).Some? {
        LetGoFacts(Lookup(kb.injected, key).value, kb.depressed - {key});
      }
    }
  }

  lemma {:induction false} RepeatedReplay(keys: seq<PhysicalKey>, held: set<PhysicalKey>)
    requires forall k :: k in keys ==> k in held
    ensures Replay(Holding(held), Repeated(keys)) == Holding(held)
  {
    if keys != [] {
      RepeatedReplay(keys[1..], held);
      assert Repeated(keys) == [Repeat(keys[0])] + Repeated(keys[1..]);
      ReplayFirst(Holding(held), Repeat(keys[0]), Repeated(keys[1..]));
    }
  }

  lemma {:induction false} DueTracked(rs: RepeatSettings, tracks: Tracks, now: Moment)
    ensures forall k :: k in Due(rs, tracks, now) ==>
              rs.enabled && exists i :: 0 <= i < |tracks| && tracks[i].0 == k && now >= tracks[i].1.nextAt
    ensures forall i :: 0 <= i < |tracks| && rs.enabled && now >= tracks[i].1.nextAt ==>
              tracks[i].0 in Due(rs, tracks, now)
  {
    if tracks != [] {
      DueTracked(rs, tracks[1..], now);
    }
  }

  // ---- a step of the engine ----

  ghost predicate Balanced(d: Driver, o: Outcome) {
    Replay(Holding(d.kb.depressed), Emitted(o)) == Holding(o.next.kb.depressed)
  }

  lemma DownGood(d: Driver, key: PhysicalKey, now: Moment)
    requires Good(d)
    ensures Good(DownKey(d, key, now).next) && Balanced(d, DownKey(d, key, now))
  {
    if Press(d.kb, key, now).Done? {
      PressKeeps(d.kb, key, now);
      PressHolds(d.kb, key, now);
      if d.rs.enabled {
        TrackFacts(d, key, now, Press(d.kb, key, now).next.depressed);
      }
    }
    hide Press, Inv, IsPreferred, IsRepeatable, Track;
  }

  lemma UpGood(d: Driver, key: PhysicalKey, now: Moment)
    requires Good(d)
    ensures Good(UpKey(d, key, now).next) && Balanced(d, UpKey(d, key, now))
  {
    ReleaseKeeps(d.kb, key, now);
    ReleaseTakes(d.kb, key, now);
    if d.rs.enabled {
      WithoutFacts(d.repeats, key, d.kb.depressed);
    }
    hide Release, Inv, IsPreferred, IsRepeatable, Without;
  }

  lemma TapGood(d: Driver, key: PhysicalKey, now: Moment)
    requires Good(d)
    ensures Good(TapKey(d, key, now).next) && Balanced(d, TapKey(d, key, now))
  {
    var quiet := d.(repeats := Without(d.repeats, key));
    if d.rs.enabled {
      WithoutFacts(d.repeats, key, d.kb.depressed);
    }
    match Press(d.kb, key, now)
    case Rollover(_) =>
    case Done(kb, downs) =>
      PressKeeps(d.kb, key, now);
      PressHolds(d.kb, key, now);
      hide Press;
      TapReleases(quiet, kb, key, After(now, TAP_GRACE));
      ReplayConcat(Holding(d.kb.depressed), downs, Release(kb, key, After(now, TAP_GRACE)).1);
  }

  lemma TapReleases(d: Driver, kb: Keyboard, key: PhysicalKey, now: Moment)
    requires Inv(kb) && kb.settings == d.kb.settings && Calm(kb.settings, d.rs, d.layout)
    requires d.kb.depressed <= kb.depressed
    requires d.rs.enabled ==> TracksDown(d.repeats, d.kb.depressed - {key})
    requires d.rs.enabled && CanLatch(kb.settings) ==> NonePreferred(d.repeats)
    ensures var (kb', ups) := Release(kb, key, now);
            Good(d.(kb := kb')) && Replay(Holding(kb.depressed), ups) == Holding(kb'.depressed)
  {
    ReleaseKeeps(kb, key, now);
    ReleaseTakes(kb, key, now);
    hide Release, Inv, IsPreferred, IsRepeatable;
  }

  lemma EmergencyGood(d: Driver)
    requires Good(d)
    ensures Good(Emergency(d).next) && Balanced(d, Emergency(d)) && Emergency(d).next.kb.depressed == {}
  {
    ReleaseAllKeeps(d.kb);
  }

  lemma TickGood(d: Driver, now: Moment)
    requires Good(d)
    ensures Good(TickRepeats(d, now).next) && Balanced(d, TickRepeats(d, now))
  {
    TickedAt(d.rs, d.repeats, now);
    DueTracked(d.rs, d.repeats, now);
    hide Ticked, Due, IsPreferred, Inv;
    RepeatedReplay(Due(d.rs, d.repeats, now), d.kb.depressed);
  }

  ghost predicate CalmOp(s: Settings, rs: RepeatSettings, op: DriverOp) {
    op.SetLayout? ==> Calm(s, rs, op.layout)
  }

  lemma StepGood(d: Driver, op: DriverOp)
    requires Good(d) && CalmOp(d.kb.settings, d.rs, op)
    ensures Good(Respond(d, op).next) && Balanced(d, Respond(d, op))
    ensures Respond(d, op).next.kb.settings == d.kb.settings && Respond(d, op).next.rs == d.rs
  {
    hide Good, Press, Release, ReleaseAll, Track, Replay;
    match op
    case Act(DownAction, key, now) => DownGood(d, key, now);
    case Act(UpAction, key, now) => UpGood(d, key, now);
    case Act(TapAction, key, now) => TapGood(d, key, now);
    case Act(ReleaseAllAction, key, now) => EmergencyGood(d);
    case Tick(now) => TickGood(d, now);
    case EmergencyRelease => EmergencyGood(d);
    case SetLayout(layout) => SetLayoutGood(d, layout);
  }

  lemma SetLayoutGood(d: Driver, layout: Layout)
    requires Good(d) && Calm(d.kb.settings, d.rs, layout)
    ensures Good(d.(layout := layout)) && Replay(Holding(d.kb.depressed), []) == Holding(d.kb.depressed)
  {
  }

  // ---- runs ----

  ghost function Fresh(s: Settings, rs: RepeatSettings, layout: Layout): Driver {
    Driver(Idle(s), rs, [], layout)
  }

  /** The engine and the whole stream its sink was sent. */
  ghost function DriverRun(d0: Driver, ops: seq<DriverOp>): (Driver, seq<KeyEvent>)
    decreases |ops|
  {
    if ops == [] then (d0, [])
    else
      var (d, es) := DriverRun(d0, ops[..|ops| - 1]);
      var o := Respond(d, ops[|ops| - 1]);
      (o.next, es + Emitted(o))
  }

  ghost predicate CalmOps(s: Settings, rs: RepeatSettings, ops: seq<DriverOp>) {
    forall i :: 0 <= i < |ops| ==> CalmOp(s, rs, ops[i])
  }

  lemma FreshGood(s: Settings, rs: RepeatSettings, layout: Layout)
    requires Fits(s) && Calm(s, rs, layout)
    ensures Good(Fresh(s, rs, layout))
  {
  }

  lemma {:induction false} DriverRunGood(s: Settings, rs: RepeatSettings, layout: Layout, ops: seq<DriverOp>)
    requires Fits(s) && Calm(s, rs, layout) && CalmOps(s, rs, ops)
    ensures var (d, es) := DriverRun(Fresh(s, rs, layout), ops);
            && Good(d) && d.kb.settings == s && d.rs == rs
            && Replay(Holding({}), es) == Holding(d.kb.depressed)
    decreases |ops|
  {
    var d0 := Fresh(s, rs, layout);
    FreshGood(s, rs, layout);
    if ops != [] {
      var init, op := ops[..|ops| - 1], ops[|ops| - 1];
      DriverRunGood(s, rs, layout, init);
      var (d, es) := DriverRun(d0, init);
      StepGood(d, op);
      hide Good, Respond, Fits, Calm;
      ReplayConcat(Holding({}), es, Emitted(Respond(d, op)));
    }
  }

  // ---- routing ----

  ghost function LogOf(r: Routed, d: Destination): Option<Log> {
    match d
    case System => r.system
    case Terminal => r.terminal
  }

  /** A destination that is present has been sent a balanced stream; only the active one holds keys. */
  ghost predicate Isolated(r: Routed, d: Destination) {
    LogOf(r, d).Some? ==>
      Replay(Holding({}), LogOf(r, d).value) == Holding(if d == r.active then r.driver.kb.depressed else {})
  }

  lemma DeliverIsolated(r: Routed, o: Outcome)
    requires Isolated(r, System) && Isolated(r, Terminal) && Balanced(r.driver, o)
    ensures var r' := Deliver(r.(driver := o.next), Emitted(o));
            Isolated(r', System) && Isolated(r', Terminal)
  {
    if LogOf(r, r.active).Some? {
      ReplayConcat(Holding({}), LogOf(r, r.active).value, Emitted(o));
    }
  }

  ghost predicate CalmRouted(s: Settings, rs: RepeatSettings, ops: seq<RoutedOp>) {
    forall i :: 0 <= i < |ops| && ops[i].Drive? ==> CalmOp(s, rs, ops[i].op)
  }

  ghost function RoutedRun(r0: Routed, ops: seq<RoutedOp>): Routed
    decreases |ops|
  {
    if ops == [] then r0 else RoutedStep(RoutedRun(r0, ops[..|ops| - 1]), ops[|ops| - 1])
  }

  /** Destination isolation, over any mix of key actions, repeat ticks, layout changes and switches:
      each destination's own stream is balanced, and the inactive one holds nothing. */
  lemma {:induction false} DestinationsIsolated(s: Settings, rs: RepeatSettings, layout: Layout, active: Destination,
                                                system: bool, terminal: bool, ops: seq<RoutedOp>)
    requires Fits(s) && Calm(s, rs, layout) && CalmRouted(s, rs, ops)
    ensures var r0 := Routed(Fresh(s, rs, layout), active, if system then Some([]) else None, if terminal then Some([]) else None);
            var r := RoutedRun(r0, ops);
            && Isolated(r, System) && Isolated(r, Terminal)
            && Good(r.driver) && r.driver.kb.settings == s && r.driver.rs == rs
    decreases |ops|
  {
    var r0 := Routed(Fresh(s, rs, layout), active, if system then Some([]) else None, if terminal then Some([]) else None);
    if ops == [] {
      FreshGood(s, rs, layout);
    } else {
      DestinationsIsolated(s, rs, layout, active, system, terminal, ops[..|ops| - 1]);
      RoutedStepIsolated(RoutedRun(r0, ops[..|ops| - 1]), ops[|ops| - 1]);
    }
  }

  lemma RoutedStepIsolated(r: Routed, op: RoutedOp)
    requires Isolated(r, System) && Isolated(r, Terminal) && Good(r.driver)
    requires op.Drive? ==> CalmOp(r.driver.kb.settings, r.driver.rs, op.op)
    ensures var r' := RoutedStep(r, op);
            && Isolated(r', System) && Isolated(r', Terminal) && Good(r'.driver)
            && r'.driver.kb.settings == r.driver.kb.settings && r'.driver.rs == r.driver.rs
  {
    var dop := match op case Drive(d) => d case Switch => EmergencyRelease;
    StepGood(r.driver, dop);
    EmergencyGood(r.driver);
    hide Good, Handle, TickRepeats, Emergency;
    DeliverIsolated(r, Respond(r.driver, dop));
  }
}
