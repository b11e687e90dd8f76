/** The whole keyboard engine as a function of values: state machine, autorepeat and layout, and
    the router in front of the two destinations. */
module Drivers {
  import opened Options
  import opened Keys
  import opened Slots
  import opened Keyboard
  import opened Layouts
  import opened Repeats

  datatype Driver = Driver(kb: Keyboard, rs: RepeatSettings, repeats: Tracks, layout: Layout)

  datatype Action = DownAction | UpAction | TapAction | ReleaseAllAction

  /** How long a tap holds its key: 20 ms. */
  const TAP_GRACE: Duration := 20 * NANOS_PER_MILLI

  datatype Outcome = Sent(next: Driver, events: seq<KeyEvent>) | Refused(next: Driver, limit: nat)

  ghost function DownKey(d: Driver, key: PhysicalKey, now: Moment): Outcome {
    match Press(d.kb, key, now)
    case Rollover(limit) => Refused(d, limit)
    case Done(kb, events) =>
      Sent(d.(kb := kb,
              repeats := if key in kb.depressed
                         then Track(d.rs, d.repeats, key, now, IsRepeatable(d.layout, key)) else d.repeats),
           events)
  }

  ghost function UpKey(d: Driver, key: PhysicalKey, now: Moment): Outcome {
    var (kb, events) := Release(d.kb, key, now);
    Sent(d.(kb := kb, repeats := Without(d.repeats, key)), events)
  }

  ghost function TapKey(d: Driver, key: PhysicalKey, now: Moment): Outcome {
    var quiet := d.(repeats := Without(d.repeats, key));
    match Press(d.kb, key, now)
    case Rollover(limit) => Refused(quiet, limit)
    case Done(kb, downs) =>
      var (kb', ups) := Release(kb, key, After(now, TAP_GRACE));
      Sent(quiet.(kb := kb'), downs + ups)
  }

  ghost function Emergency(d: Driver): Outcome {
    var (kb, events) := ReleaseAll(d.kb);
    Sent(d.(kb := kb, repeats := []), events)
  }

  ghost function Handle(d: Driver, action: Action, key: PhysicalKey, now: Moment): Outcome {
    match action
    case DownAction => DownKey(d, key, now)
    case UpAction => UpKey(d, key, now)
    case TapAction => TapKey(d, key, now)
    case ReleaseAllAction => Emergency(d)
  }

  function Repeated(keys: seq<PhysicalKey>): seq<KeyEvent> {
    seq(|keys|, i requires 0 <= i < |keys| => Repeat(keys[i]))
  }

  ghost function TickRepeats(d: Driver, now: Moment): Outcome {
    Sent(d.(repeats := Ticked(d.rs, d.repeats, now)), Repeated(Due(d.rs, d.repeats, now)))
  }

  datatype DriverOp =
    | Act(action: Action, key: PhysicalKey, now: Moment)
    | Tick(now: Moment)
    | EmergencyRelease
    | SetLayout(layout: Layout)

  ghost function Respond(d: Driver, op: DriverOp): Outcome {
    match op
    case Act(action, key, now) => Handle(d, action, key, now)
    case Tick(now) => TickRepeats(d, now)
    case EmergencyRelease => Emergency(d)
    case SetLayout(layout) => Sent(d.(layout := layout), [])
  }

  function Emitted(o: Outcome): seq<KeyEvent> {
    match o
    case Sent(_, events) => events
    case Refused(_, _) => []
  }

  // ---- routing ----

  datatype Destination = System | Terminal

  type Log = seq<KeyEvent>

  /** A driver behind a router; each destination is absent or keeps the stream it was sent. */
  datatype Routed = Routed(driver: Driver, active: Destination, system: Option<Log>, terminal: Option<Log>)

  function Extended(log: Option<Log>, events: seq<KeyEvent>): Option<Log> {
    match log
    case None => None
    case Some(l) => Some(l + events)
  }

  /** Deliver to the active destination only; an absent one swallows the events. */
  ghost function Deliver(r: Routed, events: seq<KeyEvent>): Routed {
    match r.active
    case System => r.(system := Extended(r.system, events))
    case Terminal => r.(terminal := Extended(r.terminal, events))
  }

  function Other(d: Destination): Destination {
    match d
    case System => Terminal
    case Terminal => System
  }

  datatype RoutedOp = Drive(op: DriverOp) | Switch

  ghost function RoutedStep(r: Routed, op: RoutedOp): Routed {
    match op
    case Drive(dop) =>
      var o := Respond(r.driver, dop);
      Deliver(r.(driver := o.next), Emitted(o))
    case Switch =>
      var o := Emergency(r.driver);
      Deliver(r.(driver := o.next), Emitted(o)).(active := Other(r.active))
  }
}
