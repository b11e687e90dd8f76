/** Where events go: over any run of the router, which destination is active, what each was sent, and that
    nothing is sent twice or lost; and how long a tap is, and which keys repeat. */
module Routing {
  import opened Options
  import opened Keys
  import opened Slots
  import opened Keyboard
  import opened KeyboardRuns
  import opened Layouts
  import opened Repeats
  import opened Drivers
  import opened DriverRuns

  /** What the engine is asked to do: the operation itself, or to let everything go before a switch. */
  function Driven(op: RoutedOp): DriverOp {
    match op
    case Drive(dop) => dop
    case Switch => EmergencyRelease
  }

  function DrivenAll(ops: seq<RoutedOp>): (r: seq<DriverOp>)
    ensures |r| == |ops|
  {
    seq(|ops|, i requires 0 <= i < |ops| => Driven(ops[i]))
  }

  function Switches(ops: seq<RoutedOp>): nat {
    if ops == [] then 0 else Switches(ops[..|ops| - 1]) + (if ops[|ops| - 1] == Switch then 1 else 0)
  }

  /** The destination that is active after the run: the first one, the other after an odd number of switches. */
  function ActiveAfter(first: Destination, ops: seq<RoutedOp>): Destination {
    if Switches(ops) % 2 == 0 then first else if first == System then Terminal else System
  }

  /** What the engine emitted while `d` was active; a switch still belongs to the destination it leaves. */
  ghost function SentTo(d0: Driver, first: Destination, ops: seq<RoutedOp>, d: Destination): seq<KeyEvent>
    decreases |ops|
  {
    if ops == [] then []
    else
      var init := ops[..|ops| - 1];
      var engine := DriverRun(d0, DrivenAll(init)).0;
      SentTo(d0, first, init, d)
      + (if ActiveAfter(first, init) == d then Emitted(Respond(engine, Driven(ops[|ops| - 1]))) else [])
  }

  /** A destination's log with more sent to it; one that is absent stays so. */
  ghost predicate Grown(was: Option<Log>, sent: Log, now: Option<Log>) {
    match was
    case None => now == None
    case Some(log) => now == Some(log + sent)
  }

  /** After any run: the engine is where the same operations alone would bring it, the active destination is the
      first one flipped once per switch, and each log has grown by exactly what was emitted while its
      destination was active. */
  lemma {:induction false} RoutedExactly(r0: Routed, ops: seq<RoutedOp>)
    ensures var r := RoutedRun(r0, ops);
            && r.driver == DriverRun(r0.driver, DrivenAll(ops)).0
            && r.active == ActiveAfter(r0.active, ops)
            && Grown(r0.system, SentTo(r0.driver, r0.active, ops, System), r.system)
            && Grown(r0.terminal, SentTo(r0.driver, r0.active, ops, Terminal), r.terminal)
    decreases |ops|
  {
    if ops == [] {
      assert forall log: Option<Log> :: Grown(log, [], log) by {
        forall log: Option<Log> ensures Grown(log, [], log) {
          if log.Some? { assert log.value + [] == log.value; }
        }
      }
    } else {
      var init, op := ops[..|ops| - 1], ops[|ops| - 1];
      RoutedExactly(r0, init);
      var r := RoutedRun(r0, init);
      hide RoutedRun, Switches;
      LastRouted(r0, init, op);
      RoutedStepExactly(r, op);
      SwitchesLast(ops);
      hide RoutedStep, Respond;
      var sent := Emitted(Respond(r.driver, Driven(op)));
      GrownMore(r0.system, SentTo(r0.driver, r0.active, init, System), r.system, sent);
      GrownMore(r0.terminal, SentTo(r0.driver, r0.active, init, Terminal), r.terminal, sent);
      assert ops == init + [op];
    }
  }

  lemma LastRouted(r0: Routed, init: seq<RoutedOp>, op: RoutedOp)
    ensures RoutedRun(r0, init + [op]) == RoutedStep(RoutedRun(r0, init), op)
    ensures DriverRun(r0.driver, DrivenAll(init + [op])).0 == Respond(DriverRun(r0.driver, DrivenAll(init)).0, Driven(op)).next
  {
    assert (init + [op])[..|init|] == init;
    assert DrivenAll(init + [op])[..|init|] == DrivenAll(init);
    hide RoutedStep, Respond;
  }

  lemma SwitchesLast(ops: seq<RoutedOp>)
    requires ops != []
    ensures forall first :: ActiveAfter(first, ops)
                         == if ops[|ops| - 1] != Switch then ActiveAfter(first, ops[..|ops| - 1])
                            else if ActiveAfter(first, ops[..|ops| - 1]) == System then Terminal else System
  {
  }

  lemma GrownMore(was: Option<Log>, sent: Log, now: Option<Log>, more: Log)
    requires Grown(was, sent, now)
    ensures Grown(was, sent + more, Extended(now, more)) && Grown(was, sent + [], now)
  {
    if was.Some? {
      assert was.value + sent + more == was.value + (sent + more);
      assert sent + [] == sent;
    }
  }

  lemma RoutedStepExactly(r: Routed, op: RoutedOp)
    ensures var o := Respond(r.driver, Driven(op));
            RoutedStep(r, op) == Routed(o.next,
                                        if op != Switch then r.active else if r.active == System then Terminal else System,
                                        if r.active == System then Extended(r.system, Emitted(o)) else r.system,
                                        if r.active == Terminal then Extended(r.terminal, Emitted(o)) else r.terminal)
  {
    hide Handle, TickRepeats, Emergency;
  }

  /** Every event the engine emits goes to exactly one of the two. */
  lemma {:induction false} NothingLost(d0: Driver, first: Destination, ops: seq<RoutedOp>)
    ensures multiset(SentTo(d0, first, ops, System)) + multiset(SentTo(d0, first, ops, Terminal))
         == multiset(DriverRun(d0, DrivenAll(ops)).1)
    decreases |ops|
  {
    if ops != [] {
      var init := ops[..|ops| - 1];
      NothingLost(d0, first, init);
      assert DrivenAll(ops)[..|ops| - 1] == DrivenAll(init);
      hide Respond, ActiveAfter;
    }
  }

  // ---- a tap is short ----

  /** The tap action lets its key go 20 milliseconds after pressing it: tapping a modifier from rest latches it
      exactly when latching is on and the timeout is longer than that. */
  lemma TapActionLatchesIff(s: Settings, d: Driver, p: PhysicalKey, now: Moment)
    requires d.kb == Idle(s) && s.maxHeldKeys > 0 && IsModifier(p) && now + 20 < TICK_LIMIT
    ensures var o := Handle(d, TapAction, p, now);
            && o.Sent? && o.events == [Down(p), Up(p)] && o.next.kb.depressed == {}
            && o.next.kb.latched == (if s.latchEnabled && s.tapTimeout > 20_000_000 then {KindOf(p).value} else {})
  {
    assert After(now, TAP_GRACE) == now + 20;
    var kb := PressModifier(Idle(s), p, now);
    assert Press(Idle(s), p, now) == Done(kb, [Down(p)]);
    assert kb.depressed == {p} && kb.taps == [(p, TapTrack(now, false))];
    assert Lookup(kb.taps, p) == Some(TapTrack(now, false));
    assert IsTap(kb, p, now + 20) <==> s.tapTimeout > 20_000_000;
    hide Without, Press;
    assert [Down(p)] + [Up(p)] == [Down(p), Up(p)];
  }

  /** A key that a press could not put down, the held-key array being full, is not set to repeat. */
  lemma DroppedNotTracked(d: Driver, key: PhysicalKey, now: Moment)
    requires Handle(d, DownAction, key, now).Sent? && key !in Handle(d, DownAction, key, now).next.kb.depressed
    ensures Handle(d, DownAction, key, now).next.repeats == d.repeats
  {
    hide Press;
  }

  /** A key held down from rest repeats by itself at a tick exactly when repeats are on, the delay has passed, and the
      layout lets it: as its entry says, or, without one, unless it is a modifier or a lock key. */
  lemma HoldRepeatsIff(s: Settings, rs: RepeatSettings, layout: Layout, key: PhysicalKey, now: Moment, later: Moment)
    requires s.maxHeldKeys > 0
    ensures var d := Handle(Fresh(s, rs, layout), DownAction, key, now).next;
            var lets := if key in layout.keys then layout.keys[key].repeatable else !IsModifier(key) && !IsLock(key);
            && d.kb.depressed == {key}
            && Emitted(TickRepeats(d, later)) == if rs.enabled && lets && later >= After(now, rs.delay) then [Repeat(key)] else []
  {
    var d0 := Fresh(s, rs, layout);
    PressFromRest(s, key, now);
    hide Press;
    var kb := Press(Idle(s), key, now).next;
    var none: Tracks := [];
    assert Without(none, key) == none;
    var t := (key, RepeatState(FirstAt(rs, now), false));
    assert none + [t] == [t];
    assert Due(rs, [t], later) == if rs.enabled && later >= t.1.nextAt then [key] else [];
    assert Due(rs, none, later) == [];
  }

  lemma PressFromRest(s: Settings, key: PhysicalKey, now: Moment)
    requires s.maxHeldKeys > 0
    ensures Press(Idle(s), key, now).Done? && Press(Idle(s), key, now).next.depressed == {key}
  {
    var kb := Idle(s);
    assert Engaged(kb) - HeldKinds(kb.depressed) == {};
    InjectNothing(KINDS, {});
    hide Inject, HeldKinds, Engaged;
  }
}
