/** The engine as it runs: a driver that owns the state machine and the repeat engine and sends
    every event through the router to the active destination. */
module KeyboardDrivers {
  import opened Options
  import opened Keys
  import opened Slots
  import opened Keyboard
  import opened KeyboardMachine
  import opened Layouts
  import opened Repeats
  import opened Drivers

  /** One point that every event passes; a destination that is absent drops what it is sent. */
  class InputRouter {
    var active: Destination
    var system: Option<Log>
    var terminal: Option<Log>

    constructor (system: Option<Log>, terminal: Option<Log>, initial: Destination)
      ensures this.system == system && this.terminal == terminal && active == initial
    {
      this.system, this.terminal, active := system, terminal, initial;
    }

    method Send(e: KeyEvent)
      modifies this`system, this`terminal
      ensures system == if active == System then Extended(old(system), [e]) else old(system)
      ensures terminal == if active == Terminal then Extended(old(terminal), [e]) else old(terminal)
    {
      match active
      case System =>
        if system.Some? {
          system := Some(system.value + [e]);
        }
      case Terminal =>
        if terminal.Some? {
          terminal := Some(terminal.value + [e]);
        }
    }

    /** Callers release everything first: see `KeyboardDriver.SwitchDestination`. */
    method SetActive(dest: Destination)
      modifies this`active
      ensures active == dest
    {
      active := dest;
    }
  }

  class KeyboardDriver {
    const state: KeyboardState
    const repeats: RepeatEngine
    var layout: Layout
    const sink: InputRouter

    ghost function Repr(): set<object> {
      {this, sink} + state.Repr() + repeats.Repr()
    }

    ghost predicate Valid()
      reads this, Repr()
    {
      && this !in state.Repr() + repeats.Repr() && sink as object !in state.Repr() + repeats.Repr()
      && state.Repr() !! repeats.Repr()
      && state.Valid() && repeats.Valid()
    }

    ghost function Engine(): Driver
      requires Valid()
      reads this, Repr()
    {
      Driver(state.View(), repeats.settings, repeats.View(), layout)
    }

    ghost function View(): Routed
      requires Valid()
      reads this, Repr()
    {
      Routed(Engine(), sink.active, sink.system, sink.terminal)
    }

    constructor (s: Settings, rs: RepeatSettings, layout: Layout, sink: InputRouter)
      ensures Valid() && this.sink == sink
      ensures Engine() == Driver(Idle(s), rs, [], layout)
      ensures fresh(Repr() - {sink})
    {
      state := new KeyboardState(s);
      repeats := new RepeatEngine(rs);
      this.layout := layout;
      this.sink := sink;
    }

    method SetLayout(layout: Layout)
      requires Valid()
      modifies this`layout
      ensures Valid() && View() == old(View()).(driver := old(Engine()).(layout := layout))
    {
      this.layout := layout;
    }

    method Emit(events: seq<KeyEvent>)
      requires Valid()
      modifies sink`system, sink`terminal
      ensures Valid() && View() == Deliver(old(View()), events)
    {
      DeliverNothing(View());
      for i := 0 to |events|
        invariant Valid() && View() == Deliver(old(View()), events[..i])
      {
        DeliverTwice(old(View()), events[..i], [events[i]]);
        assert events[..i + 1] == events[..i] + [events[i]];
        sink.Send(events[i]);
      }
      assert events[..|events|] == events;
    }

    /** One action of the user; an error says the rollover limit refused the press. */
    method HandleAction(action: Action, key: PhysicalKey, now: Moment) returns (error: Option<nat>)
      requires Valid()
      modifies Repr()
      ensures Valid()
      ensures var o := Handle(old(Engine()), action, key, now);
              && View() == Deliver(old(View()).(driver := o.next), Emitted(o))
              && error == (if o.Refused? then Some(o.limit) else None)
    {
      hide Press, Release, ReleaseAll, Track, Without, Effective, LayerOf;
      var events;
      DeliverNothing(View());
      match action {
        case DownAction =>
          error, events := PressAndTrack(key, now);
        case UpAction =>
          events := ReleaseKey(key, now);
          error := None;
        case TapAction =>
          error, events := PressAndRelease(key, now);
        case ReleaseAllAction =>
          events := ReleaseEverything();
          error := None;
      }
      if error == None {
        Emit(events);
      }
    }

    method ReleaseKey(key: PhysicalKey, now: Moment) returns (events: seq<KeyEvent>)
      requires Valid()
      modifies state.Repr(), repeats.Repr()
      ensures Valid()
      ensures var o := UpKey(old(Engine()), key, now); Engine() == o.next && events == Emitted(o)
    {
      repeats.KeyUp(key);
      events := state.Release(key, now);
    }

    method ReleaseEverything() returns (events: seq<KeyEvent>)
      requires Valid()
      modifies state.Repr(), repeats.Repr()
      ensures Valid()
      ensures var o := Emergency(old(Engine())); Engine() == o.next && events == Emitted(o)
    {
      repeats.ReleaseAll();
      events := state.ReleaseAll();
    }

    method PressAndTrack(key: PhysicalKey, now: Moment) returns (error: Option<nat>, events: seq<KeyEvent>)
      requires Valid()
      modifies state.Repr(), repeats.Repr()
      ensures Valid()
      ensures var o := DownKey(old(Engine()), key, now);
              && Engine() == o.next && events == Emitted(o)
              && error == (if o.Refused? then Some(o.limit) else None)
    {
      hide Press, Effective, LayerOf, HeldKinds, Track, IsRepeatable, Without;
      var r := state.Press(key, now);
      if r.RolloverError? {
        return Some(r.limit), [];
      }
      var down := state.depressed.Contains(key);
      if down {
        repeats.KeyDown(key, now, IsRepeatable(layout, key));
      }
      return None, r.events;
    }

    method PressAndRelease(key: PhysicalKey, now: Moment) returns (error: Option<nat>, events: seq<KeyEvent>)
      requires Valid()
      modifies state.Repr(), repeats.Repr()
      ensures Valid()
      ensures var o := TapKey(old(Engine()), key, now);
              && Engine() == o.next && events == Emitted(o)
              && error == (if o.Refused? then Some(o.limit) else None)
    {
      repeats.KeyUp(key);
      var r := state.Press(key, now);
      if r.RolloverError? {
        return Some(r.limit), [];
      }
      var ups := state.Release(key, After(now, TAP_GRACE));
      return None, r.events + ups;
    }

    method TickRepeat(now: Moment)
      requires Valid()
      modifies Repr()
      ensures Valid()
      ensures var o := TickRepeats(old(Engine()), now);
              View() == Deliver(old(View()).(driver := o.next), Emitted(o))
    {
      var due := repeats.Tick(now);
      Emit(Repeated(due));
    }

    method EmergencyRelease()
      requires Valid()
      modifies Repr()
      ensures Valid()
      ensures var o := Emergency(old(Engine()));
              View() == Deliver(old(View()).(driver := o.next), Emitted(o))
    {
      hide ReleaseAll, Effective, LayerOf;
      var events := ReleaseEverything();
      Emit(events);
    }

    /** Release what is held on the old destination, then flip. */
    method SwitchDestination()
      requires Valid()
      modifies Repr()
      ensures Valid() && View() == RoutedStep(old(View()), Switch)
    {
      hide Emergency, Effective, LayerOf;
      var next := Other(sink.active);
      EmergencyRelease();
      sink.SetActive(next);
    }
  }

  lemma DeliverNothing(r: Routed)
    ensures Deliver(r, []) == r
  {
    assert forall l: Log :: l + [] == l;
  }

  lemma DeliverTwice(r: Routed, a: Log, b: Log)
    ensures Deliver(Deliver(r, a), b) == Deliver(r, a + b)
  {
    assert forall l: Log :: (l + a) + b == l + (a + b);
  }
}
