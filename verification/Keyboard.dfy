/** The keyboard state machine as a function of values: what press, release and release-all do
    to the held keys, the latch, the locks and the two record tables, and the events they emit. */
module Keyboard {
  import opened Options
  import opened Keys
  import opened Slots
  import opened SortedKeys

  datatype Settings = Settings(latchEnabled: bool, tapTimeout: Duration, maxHeldKeys: nat)

  datatype TapTrack = TapTrack(downAt: Moment, interleaved: bool)

  datatype Layer = BaseLayer | ShiftLayer | AltGrLayer | FnLayer

  datatype Keyboard = Keyboard(
    settings: Settings,
    depressed: set<PhysicalKey>,
    latched: set<ModifierKind>,
    locked: set<ModifierKind>,
    capsLock: bool,
    numLock: bool,
    injected: seq<(PhysicalKey, seq<PhysicalKey>)>,
    taps: seq<(PhysicalKey, TapTrack)>)

  datatype Reply = Done(next: Keyboard, events: seq<KeyEvent>) | Rollover(limit: nat)

  ghost function Idle(settings: Settings): Keyboard {
    Keyboard(settings, {}, {}, {}, false, false, [], [])
  }

  function LayerOf(mods: set<ModifierKind>): Layer {
    if Fn in mods then FnLayer
    else if AltGr in mods then AltGrLayer
    else if Shift in mods then ShiftLayer
    else BaseLayer
  }

  /** Modifiers that apply to key presses: held, latched and locked. */
  ghost function Effective(kb: Keyboard): set<ModifierKind> {
    HeldKinds(kb.depressed) + kb.latched + kb.locked
  }

  /** Insertion into the bounded held-key array: dropped when the array is full. */
  ghost function Grow(held: set<PhysicalKey>, key: PhysicalKey): set<PhysicalKey> {
    if |held| < CAPACITY then held + {key} else held
  }

  // ---- press ----

  /** The kinds a normal press engages: latched ones, and locked ones except the Caps Lock mirror. */
  ghost function Engaged(kb: Keyboard): set<ModifierKind> {
    kb.latched + (kb.locked - {Shift})
  }

  /** Put down the preferred key of every wanted kind, in order: the new held set and the keys put down. */
  ghost function Inject(kinds: seq<ModifierKind>, wanted: set<ModifierKind>, held: set<PhysicalKey>)
    : (set<PhysicalKey>, seq<PhysicalKey>)
  {
    if kinds == [] then (held, [])
    else
      var p := Preferred(kinds[0]);
      if kinds[0] in wanted && p !in held then
        var (h, ps) := Inject(kinds[1..], wanted, Grow(held, p));
        (h, [p] + ps)
      else
        Inject(kinds[1..], wanted, held)
  }

  function Downs(keys: seq<PhysicalKey>): seq<KeyEvent> {
    seq(|keys|, i requires 0 <= i < |keys| => Down(keys[i]))
  }

  function Interleaved(taps: seq<(PhysicalKey, TapTrack)>): (r: seq<(PhysicalKey, TapTrack)>) {
    seq(|taps|, i requires 0 <= i < |taps| => (taps[i].0, taps[i].1.(interleaved := true)))
  }

  predicate IsOther(k: PhysicalKey, kind: ModifierKind) {
    KindOf(k).Some? && KindOf(k).value != kind
  }

  /** A modifier of another kind is down: pressing one of `kind` now is a chord. */
  ghost predicate OtherHeld(held: set<PhysicalKey>, kind: ModifierKind) {
    exists k :: k in held && IsOther(k, kind)
  }

  ghost function PressModifier(kb: Keyboard, key: PhysicalKey, now: Moment): (r: Keyboard)
    requires IsModifier(key)
    ensures r.settings == kb.settings
  {
    var chord := OtherHeld(kb.depressed, KindOf(key).value);
    kb.(depressed := Grow(kb.depressed, key), taps := Append(kb.taps, (key, TapTrack(now, chord))))
  }

  ghost function PressNormal(kb: Keyboard, key: PhysicalKey): (r: (Keyboard, seq<KeyEvent>))
    ensures r.0.settings == kb.settings
  {
    var (held, mods) := Inject(KINDS, Engaged(kb) - HeldKinds(kb.depressed), kb.depressed);
    (kb.(depressed := Grow(held, key),
         injected := if mods == [] then kb.injected else Append(kb.injected, (key, mods)),
         latched := {},
         taps := Interleaved(kb.taps)),
     Downs(mods) + [Down(key)])
  }

  ghost function Press(kb: Keyboard, key: PhysicalKey, now: Moment): (r: Reply)
    ensures r.Done? ==> r.next.settings == kb.settings
  {
    if key in kb.depressed then Done(kb, [])
    else if |kb.depressed| >= kb.settings.maxHeldKeys then Rollover(kb.settings.maxHeldKeys)
    else if IsModifier(key) then Done(PressModifier(kb, key, now), [Down(key)])
    else if IsLock(key) then Done(kb.(depressed := Grow(kb.depressed, key)), [Down(key)])
    else
      var (next, events) := PressNormal(kb, key);
      Done(next, events)
  }

  // ---- release ----

  /** Whether releasing `key` now is a tap: its first track is short and saw no other key. */
  ghost predicate IsTap(kb: Keyboard, key: PhysicalKey, now: Moment) {
    match Lookup(kb.taps, key)
    case None => false
    case Some(t) => !t.interleaved && Since(now, t.downAt) < kb.settings.tapTimeout
  }

  /** A tap toggles: it disengages an active kind and latches an idle one. */
  ghost function Toggle(kb: Keyboard, kind: ModifierKind): Keyboard {
    if kind in Engaged(kb) then
      kb.(latched := kb.latched - {kind}, locked := if kind == Shift then kb.locked else kb.locked - {kind})
    else
      kb.(latched := kb.latched + {kind})
  }

  ghost function ReleaseModifier(kb: Keyboard, key: PhysicalKey, now: Moment): (r: Keyboard)
    requires IsModifier(key)
    ensures r.settings == kb.settings
  {
    var base := kb.(depressed := kb.depressed - {key}, taps := Without(kb.taps, key));
    if IsTap(kb, key, now) && kb.settings.latchEnabled then Toggle(base, KindOf(key).value) else base
  }

  ghost function ReleaseLock(kb: Keyboard, key: PhysicalKey): Keyboard {
    var base := kb.(depressed := kb.depressed - {key});
    if key == CAPS_LOCK then
      base.(capsLock := !kb.capsLock, locked := if kb.capsLock then kb.locked - {Shift} else kb.locked + {Shift})
    else if key == NUM_LOCK then base.(numLock := !kb.numLock)
    else base
  }

  /** Let go of injected keys that are still down: the held set left and the events. */
  ghost function LetGo(mods: seq<PhysicalKey>, held: set<PhysicalKey>): (set<PhysicalKey>, seq<KeyEvent>) {
    if mods == [] then (held, [])
    else
      var (h, es) := LetGo(mods[1..], held - {mods[0]});
      (h, if mods[0] in held then [Up(mods[0])] + es else es)
  }

  ghost function ReleaseNormal(kb: Keyboard, key: PhysicalKey): (r: (Keyboard, seq<KeyEvent>))
    ensures r.0.settings == kb.settings
  {
    var held := kb.depressed - {key};
    match Lookup(kb.injected, key)
    case None => (kb.(depressed := held), [Up(key)])
    case Some(mods) =>
      var (h, es) := LetGo(mods, held);
      (kb.(depressed := h, injected := Without(kb.injected, key)), [Up(key)] + es)
  }

  ghost function Release(kb: Keyboard, key: PhysicalKey, now: Moment): (r: (Keyboard, seq<KeyEvent>))
    ensures r.0.settings == kb.settings
  {
    if key !in kb.depressed then (kb, [])
    else if IsModifier(key) then (ReleaseModifier(kb, key, now), [Up(key)])
    else if IsLock(key) then (ReleaseLock(kb, key), [Up(key)])
    else ReleaseNormal(kb, key)
  }

  // ---- release all ----

  /** Releases for the modifiers (or the others) among `keys`, last listed first. */
  ghost function UpsWhere(keys: seq<PhysicalKey>, modifiers: bool): seq<KeyEvent> {
    if keys == [] then []
    else
      var k := keys[|keys| - 1];
      (if IsModifier(k) == modifiers then [Up(k)] else []) + UpsWhere(keys[..|keys| - 1], modifiers)
  }

  ghost function ReleaseAll(kb: Keyboard): (r: (Keyboard, seq<KeyEvent>))
    ensures r.0.settings == kb.settings
  {
    var keys := Ascending(kb.depressed);
    (kb.(depressed := {}, injected := [], taps := [], latched := {}),
     UpsWhere(keys, false) + UpsWhere(keys, true))
  }

  // ---- one caller step ----

  datatype Op = PressOp(key: PhysicalKey, now: Moment) | ReleaseOp(key: PhysicalKey, now: Moment) | ReleaseAllOp

  /** A step of the machine; a press refused for rollover changes nothing. */
  ghost function Step(kb: Keyboard, op: Op): (r: (Keyboard, seq<KeyEvent>))
    ensures r.0.settings == kb.settings
  {
    match op
    case PressOp(key, now) =>
      (match Press(kb, key, now)
       case Done(next, events) => (next, events)
       case Rollover(_) => (kb, []))
    case ReleaseOp(key, now) => Release(kb, key, now)
    case ReleaseAllOp => ReleaseAll(kb)
  }
}
