/** Where the keyboard's promises end: the settings that can strand a key, the held-key bound
    and the run that reaches it, and the tap tracks that outlive their key. */
module KeyboardLimits {
  import opened Options
  import opened Keys
  import opened Slots
  import opened SortedKeys
  import opened Keyboard
  import opened Sinks
  import opened KeyboardRuns
  import opened KeyboardTaps

  // ---- injection, exactly ----

  /** The preferred keys of the wanted kinds, in order. */
  ghost function PreferredOf(kinds: seq<ModifierKind>, wanted: set<ModifierKind>): seq<PhysicalKey> {
    if kinds == [] then []
    else (if kinds[0] in wanted then [Preferred(kinds[0])] else []) + PreferredOf(kinds[1..], wanted)
  }

  /** Where no wanted kind has its preferred key down, injection puts down all of them and no other,
      even when the held-key array is full. */
  lemma {:induction false} InjectExact(kinds: seq<ModifierKind>, wanted: set<ModifierKind>, held: set<PhysicalKey>)
    requires Distinct(kinds)
    requires forall i :: 0 <= i < |kinds| && kinds[i] in wanted ==> Preferred(kinds[i]) !in held
    ensures Inject(kinds, wanted, held).1 == PreferredOf(kinds, wanted)
  {
    if kinds != [] {
      var p := Preferred(kinds[0]);
      if kinds[0] in wanted {
        forall i | 0 <= i < |kinds[1..]| && kinds[1..][i] in wanted
          ensures Preferred(kinds[1..][i]) !in Grow(held, p)
        {
          assert KindOf(Preferred(kinds[i + 1])) != KindOf(p);
        }
        InjectExact(kinds[1..], wanted, Grow(held, p));
      } else {
        InjectExact(kinds[1..], wanted, held);
      }
    }
  }

  /** With room, the held set grows by one key for each. */
  lemma {:induction false} InjectSize(kinds: seq<ModifierKind>, wanted: set<ModifierKind>, held: set<PhysicalKey>)
    requires |held| + |kinds| <= CAPACITY
    ensures |Inject(kinds, wanted, held).0| == |held| + |Inject(kinds, wanted, held).1|
  {
    if kinds != [] {
      var p := Preferred(kinds[0]);
      if kinds[0] in wanted && p !in held {
        InjectSize(kinds[1..], wanted, held + {p});
      } else {
        InjectSize(kinds[1..], wanted, held);
      }
    }
  }

  /** What a press of a normal key emits while the lock is the Caps Lock mirror. */
  lemma PressNormalEmits(kb: Keyboard, key: PhysicalKey)
    requires Mirrored(kb)
    ensures PressNormal(kb, key).1
         == Downs(PreferredOf(KINDS, kb.latched - HeldKinds(kb.depressed))) + [Down(key)]
  {
    var wanted := Engaged(kb) - HeldKinds(kb.depressed);
    assert wanted == kb.latched - HeldKinds(kb.depressed);
    forall i | 0 <= i < |KINDS| && KINDS[i] in wanted ensures Preferred(KINDS[i]) !in kb.depressed {
      assert KindOf(Preferred(KINDS[i])) == Some(KINDS[i]);
    }
    InjectExact(KINDS, wanted, kb.depressed);
    hide Inject, HeldKinds, Engaged;
  }

  lemma {:induction false} PreferredOfNone(kinds: seq<ModifierKind>)
    ensures PreferredOf(kinds, {}) == []
  {
    if kinds != [] { PreferredOfNone(kinds[1..]); }
  }

  // ---- latch parity ----

  /** A press that goes through and consumes the latch. */
  ghost predicate Consumes(kb: Keyboard, key: PhysicalKey) {
    IsNormal(key) && key !in kb.depressed && |kb.depressed| < kb.settings.maxHeldKeys
  }

  /** Letting go, after the run, of a held key of this kind counts as a tap. */
  ghost predicate QualifyingTap(s: Settings, ops: seq<Op>, key: PhysicalKey, now: Moment, kind: ModifierKind) {
    key in HeldAfter(s, ops) && KindOf(key) == Some(kind) && s.latchEnabled && Tapped(s, ops, key, now)
  }

  /** The machine's own test for it. */
  ghost predicate Toggles(kb: Keyboard, key: PhysicalKey, now: Moment, kind: ModifierKind) {
    key in kb.depressed && KindOf(key) == Some(kind) && kb.settings.latchEnabled && IsTap(kb, key, now)
  }

  lemma TogglesIsTap(s: Settings, ops: seq<Op>, key: PhysicalKey, now: Moment, kind: ModifierKind)
    ensures Toggles(Run(s, ops).0, key, now, kind) <==> QualifyingTap(s, ops, key, now, kind)
  {
    TapIsTapped(s, ops, key, now);
    TapsAreOpen(s, ops);
    hide Run, IsTap, Tapped;
  }

  /** Qualifying taps of `kind` since the last consuming press or release-all. */
  ghost function TapCount(s: Settings, ops: seq<Op>, kind: ModifierKind): nat
    decreases |ops|
  {
    if ops == [] then 0
    else
      var init := ops[..|ops| - 1];
      var kb := Run(s, init).0;
      match ops[|ops| - 1]
      case PressOp(key, _) => if Consumes(kb, key) then 0 else TapCount(s, init, kind)
      case ReleaseOp(key, now) =>
        TapCount(s, init, kind) + (if QualifyingTap(s, init, key, now, kind) then 1 else 0)
      case ReleaseAllOp => 0
  }

  /** The lock is the Caps Lock mirror and nothing else. */
  ghost predicate Mirrored(kb: Keyboard) {
    kb.locked == if kb.capsLock then {Shift} else {}
  }

  lemma StepMirrored(kb: Keyboard, op: Op)
    requires Mirrored(kb)
    ensures Mirrored(Step(kb, op).0)
  {
    match op
    case PressOp(key, now) => PressMirrored(kb, key, now);
    case ReleaseOp(key, now) =>
      if key in kb.depressed && IsNormal(key) {
        ReleaseNormalMirrored(kb, key);
      }
    case ReleaseAllOp =>
  }

  lemma PressMirrored(kb: Keyboard, key: PhysicalKey, now: Moment)
    ensures Step(kb, PressOp(key, now)).0.locked == kb.locked && Step(kb, PressOp(key, now)).0.capsLock == kb.capsLock
  {
    hide Inject, OtherHeld;
  }

  lemma ReleaseNormalMirrored(kb: Keyboard, key: PhysicalKey)
    ensures var next := ReleaseNormal(kb, key).0;
            next.locked == kb.locked && next.capsLock == kb.capsLock && next.latched == kb.latched
  {
    hide LetGo, Find;
  }

  lemma StepLatch(kb: Keyboard, op: Op, kind: ModifierKind)
    requires Mirrored(kb)
    ensures var next := Step(kb, op).0;
            match op
            case PressOp(key, _) => next.latched == if Consumes(kb, key) then {} else kb.latched
            case ReleaseOp(key, now) =>
              (kind in next.latched) == ((kind in kb.latched) != Toggles(kb, key, now, kind))
            case ReleaseAllOp => next.latched == {}
  {
    match op
    case PressOp(key, now) => PressLatch(kb, key, now);
    case ReleaseOp(key, now) =>
      if key in kb.depressed && IsNormal(key) {
        ReleaseNormalMirrored(kb, key);
        hide ReleaseNormal;
      } else {
        hide ReleaseNormal, IsTap, Without;
      }
    case ReleaseAllOp =>
  }

  lemma PressLatch(kb: Keyboard, key: PhysicalKey, now: Moment)
    ensures Step(kb, PressOp(key, now)).0.latched == if Consumes(kb, key) then {} else kb.latched
  {
    hide Inject, OtherHeld;
  }

  /** Latching is a parity, over any run and whatever the settings: a kind is latched exactly when it was
      tapped an odd number of times since the latch was last consumed; the lock is the Caps Lock mirror. */
  lemma {:induction false} LatchParity(s: Settings, ops: seq<Op>, kind: ModifierKind)
    ensures kind in Run(s, ops).0.latched <==> TapCount(s, ops, kind) % 2 == 1
    ensures Mirrored(Run(s, ops).0)
    decreases |ops|
  {
    if ops != [] {
      var init, op := ops[..|ops| - 1], ops[|ops| - 1];
      hide Step, IsTap, Consumes, QualifyingTap, Toggles, Mirrored;
      LatchParity(s, init, kind);
      TapCountStep(s, ops, kind);
      hide TapCount;
      StepLatch(Run(s, init).0, op, kind);
      StepMirrored(Run(s, init).0, op);
      if op.ReleaseOp? {
        TogglesIsTap(s, init, op.key, op.now, kind);
      }
    }
  }

  /** The parity of the taps changes with each qualifying one, and starts again where the latch is spent. */
  lemma TapCountStep(s: Settings, ops: seq<Op>, kind: ModifierKind)
    requires ops != []
    ensures var init := ops[..|ops| - 1];
            var kb, was := Run(s, init).0, TapCount(s, init, kind) % 2 == 1;
            (TapCount(s, ops, kind) % 2 == 1)
            == match ops[|ops| - 1]
               case PressOp(key, _) => !Consumes(kb, key) && was
               case ReleaseOp(key, now) => was != QualifyingTap(s, init, key, now, kind)
               case ReleaseAllOp => false
  {
    hide Step, Run, Consumes, QualifyingTap;
  }

  ghost predicate OddTaps(s: Settings, ops: seq<Op>, kind: ModifierKind) {
    TapCount(s, ops, kind) % 2 == 1
  }

  /** A consuming press puts down the preferred keys of the oddly tapped kinds that are not
      physically held, in kind order, then the key itself; Caps Lock never adds one. */
  lemma PressInjectsOddTaps(s: Settings, ops: seq<Op>, key: PhysicalKey, now: Moment)
    requires Consumes(Run(s, ops).0, key)
    ensures var kb := Run(s, ops).0;
            var odd := set kind: ModifierKind | OddTaps(s, ops, kind) && kind !in HeldKinds(kb.depressed);
            Press(kb, key, now).Done?
            && Press(kb, key, now).events == Downs(PreferredOf(KINDS, odd)) + [Down(key)]
  {
    var kb := Run(s, ops).0;
    forall kind: ModifierKind ensures kind in kb.latched <==> OddTaps(s, ops, kind) {
      LatchParity(s, ops, kind);
    }
    var odd := set kind: ModifierKind | OddTaps(s, ops, kind) && kind !in HeldKinds(kb.depressed);
    assert odd == kb.latched - HeldKinds(kb.depressed);
    LatchParity(s, ops, Shift);
    PressNormalEmits(kb, key);
    hide PressNormal, TapCount, Run;
  }

  // ---- the run that fills the array ----

  ghost function Plain(n: nat): (r: set<PhysicalKey>)
    requires n <= 56
    ensures forall k :: k in r <==> FIRST_PLAIN <= k < FIRST_PLAIN + n
  {
    if n == 0 then {} else Plain(n - 1) + {FIRST_PLAIN + n - 1}
  }

  lemma {:induction false} PlainSize(n: nat)
    requires n <= 56
    ensures |Plain(n)| == n && HeldKinds(Plain(n)) == {}
  {
    if n > 0 {
      PlainSize(n - 1);
      hide Plain;
      PlainAdds(n - 1);
    }
  }

  lemma PlainAdds(n: nat)
    requires n < 56 && |Plain(n)| == n && HeldKinds(Plain(n)) == {}
    ensures |Plain(n + 1)| == n + 1 && HeldKinds(Plain(n + 1)) == {}
  {
    var key: PhysicalKey := FIRST_PLAIN + n;
    assert Plain(n + 1) == Plain(n) + {key} && key !in Plain(n) && !IsModifier(key);
  }

  /** `n` plain keys held and some kinds latched, nothing else. */
  ghost function Parked(s: Settings, n: nat, latched: set<ModifierKind>): (kb: Keyboard)
    requires n <= 56
    ensures kb.depressed == Plain(n)
  {
    Idle(s).(depressed := Plain(n), latched := latched)
  }

  ghost function Holds(n: nat): seq<Op>
    requires n <= 56
  {
    if n == 0 then [] else Holds(n - 1) + [PressOp(FIRST_PLAIN + n - 1, 0)]
  }

  /** A tap of each kind in turn. */
  ghost function TapsOf(kinds: seq<ModifierKind>): seq<Op> {
    if kinds == [] then []
    else
      var p := Preferred(kinds[|kinds| - 1]);
      TapsOf(kinds[..|kinds| - 1]) + [PressOp(p, 0)] + [ReleaseOp(p, 0)]
  }

  lemma RunSnoc(s: Settings, ops: seq<Op>, op: Op)
    ensures Run(s, ops + [op]).0 == Step(Run(s, ops).0, op).0
    ensures Run(s, ops + [op]).1 == Run(s, ops).1 + Step(Run(s, ops).0, op).1
  {
    assert (ops + [op])[..|ops|] == ops;
  }

  lemma HoldStep(s: Settings, n: nat)
    requires n < CAPACITY && n < s.maxHeldKeys
    ensures Step(Parked(s, n, {}), PressOp(FIRST_PLAIN + n, 0)).0 == Parked(s, n + 1, {})
  {
    ParkedConsumes(s, n, {});
    hide Step, PressNormal, Consumes, Parked;
    StepNormal(Parked(s, n, {}), FIRST_PLAIN + n, 0);
    HoldPress(s, n);
  }

  lemma HoldPress(s: Settings, n: nat)
    requires n < CAPACITY
    ensures PressNormal(Parked(s, n, {}), FIRST_PLAIN + n).0 == Parked(s, n + 1, {})
  {
    var kb := Parked(s, n, {});
    var key: PhysicalKey := FIRST_PLAIN + n;
    PlainSize(n);
    InjectNothing(KINDS, Plain(n));
    assert Engaged(kb) - HeldKinds(kb.depressed) == {};
    assert Plain(n + 1) == Plain(n) + {key} == Grow(Plain(n), key);
    assert Interleaved(kb.taps) == [];
    hide PressNormal, Inject, HeldKinds, Engaged, Plain, Grow, Interleaved;
    PressNormalParts(kb, key, {});
  }

  ghost predicate StreamMatches(s: Settings, ops: seq<Op>) {
    Replay(Holding({}), Run(s, ops).1) == Holding(Run(s, ops).0.depressed)
  }

  lemma MatchesSnoc(s: Settings, ops: seq<Op>, op: Op)
    requires StreamMatches(s, ops)
    requires var kb := Run(s, ops).0;
             Replay(Holding(kb.depressed), Step(kb, op).1) == Holding(Step(kb, op).0.depressed)
    ensures StreamMatches(s, ops + [op]) && Run(s, ops + [op]).0 == Step(Run(s, ops).0, op).0
  {
    RunSnoc(s, ops, op);
    ReplayConcat(Holding({}), Run(s, ops).1, Step(Run(s, ops).0, op).1);
    hide Run, Step;
  }

  lemma HoldBalanced(s: Settings, n: nat)
    requires n < CAPACITY && n < s.maxHeldKeys
    ensures Step(Parked(s, n, {}), PressOp(FIRST_PLAIN + n, 0)).1 == [Down(FIRST_PLAIN + n)]
  {
    var kb := Parked(s, n, {});
    ParkedConsumes(s, n, {});
    StepNormal(kb, FIRST_PLAIN + n, 0);
    PlainSize(n);
    InjectNothing(KINDS, Plain(n));
    assert Engaged(kb) - HeldKinds(kb.depressed) == {};
    hide Step, PressNormal, Inject, HeldKinds, Engaged, Plain, Consumes;
    PressNormalParts(kb, FIRST_PLAIN + n, {});
    assert Downs([]) + [Down(FIRST_PLAIN + n)] == [Down(FIRST_PLAIN + n)];
  }

  /** After `n` plain presses exactly those keys are held, by the machine and by the sink. */
  ghost predicate Held(s: Settings, n: nat)
    requires n <= 56
  {
    Run(s, Holds(n)).0 == Parked(s, n, {}) && StreamMatches(s, Holds(n))
  }

  lemma HoldsNone(s: Settings)
    ensures Held(s, 0)
  {
    assert Plain(0) == {} && Holds(0) == [];
    hide Plain, Holds;
  }

  lemma HoldsSnoc(s: Settings, n: nat)
    requires n < CAPACITY && n < s.maxHeldKeys && Held(s, n)
    ensures Held(s, n + 1)
  {
    var op := PressOp(FIRST_PLAIN + n, 0);
    assert Holds(n + 1) == Holds(n) + [op];
    hide Run, Step, Holds, StreamMatches, Plain, Parked, Replay;
    HoldReplay(n);
    HoldBalanced(s, n);
    HoldStep(s, n);
    MatchesSnoc(s, Holds(n), op);
  }

  lemma HoldReplay(n: nat)
    requires n < CAPACITY
    ensures Replay(Holding(Plain(n)), [Down(FIRST_PLAIN + n)]) == Holding(Plain(n + 1))
  {
    var key: PhysicalKey := FIRST_PLAIN + n;
    assert Plain(n + 1) == Plain(n) + {key} && key !in Plain(n);
    hide Plain;
    ReplayFirst(Holding(Plain(n)), Down(key), []);
  }

  lemma {:induction false} HoldsHeld(s: Settings, n: nat)
    requires n <= CAPACITY && n <= s.maxHeldKeys
    ensures Held(s, n)
  {
    hide Held;
    if n == 0 {
      HoldsNone(s);
    } else {
      HoldsHeld(s, n - 1);
      HoldsSnoc(s, n - 1);
    }
  }

  lemma HoldsRun(s: Settings, n: nat)
    requires n <= CAPACITY && n <= s.maxHeldKeys
    ensures Run(s, Holds(n)).0 == Parked(s, n, {}) && StreamMatches(s, Holds(n))
  {
    HoldsHeld(s, n);
    hide Run, Holds, Parked, StreamMatches;
  }

  ghost function Tapping(s: Settings, n: nat, latched: set<ModifierKind>, p: PhysicalKey): Keyboard
    requires n <= 56
  {
    Parked(s, n, latched).(depressed := Plain(n) + {p}, taps := [(p, TapTrack(0, false))])
  }

  lemma TapStarts(s: Settings, n: nat, latched: set<ModifierKind>, p: PhysicalKey)
    requires n < CAPACITY && IsModifier(p)
    ensures PressModifier(Parked(s, n, latched), p, 0) == Tapping(s, n, latched, p)
  {
    PlainSize(n);
  }

  lemma TapDown(s: Settings, n: nat, latched: set<ModifierKind>, p: PhysicalKey)
    requires n < CAPACITY && n < s.maxHeldKeys && IsModifier(p)
    ensures Step(Parked(s, n, latched), PressOp(p, 0)).0 == Tapping(s, n, latched, p)
  {
    PlainSize(n);
    TapStarts(s, n, latched, p);
    StepModifier(Parked(s, n, latched), p, 0);
    hide Step, PressModifier;
  }

  lemma StepModifier(kb: Keyboard, key: PhysicalKey, now: Moment)
    requires IsModifier(key) && key !in kb.depressed && |kb.depressed| < kb.settings.maxHeldKeys
    ensures Step(kb, PressOp(key, now)) == (PressModifier(kb, key, now), [Down(key)])
  {
  }

  lemma StepNormal(kb: Keyboard, key: PhysicalKey, now: Moment)
    requires Consumes(kb, key)
    ensures Step(kb, PressOp(key, now)) == PressNormal(kb, key)
  {
    hide PressNormal;
  }

  lemma KindSetSnoc(kinds: seq<ModifierKind>, kind: ModifierKind)
    requires Distinct(kinds + [kind])
    ensures KindSet(kinds + [kind]) == KindSet(kinds) + {kind} && kind !in kinds
    ensures Distinct(kinds)
  {
    forall i, j | 0 <= i < j < |kinds| ensures kinds[i] != kinds[j] {
      assert (kinds + [kind])[i] == kinds[i] && (kinds + [kind])[j] == kinds[j];
    }
    forall i | 0 <= i < |kinds| ensures kinds[i] != kind {
      assert (kinds + [kind])[i] == kinds[i] && (kinds + [kind])[|kinds|] == kind;
    }
  }

  lemma TapUp(s: Settings, n: nat, latched: set<ModifierKind>, p: PhysicalKey)
    requires n <= 56 && IsModifier(p) && CanLatch(s) && KindOf(p).value !in latched
    ensures Step(Tapping(s, n, latched, p), ReleaseOp(p, 0)).0 == Parked(s, n, latched + {KindOf(p).value})
  {
    var down := Tapping(s, n, latched, p);
    assert Lookup(down.taps, p) == Some(TapTrack(0, false));
    assert Without(down.taps, p) == [];
    assert down.depressed - {p} == Plain(n);
  }

  lemma TapParked(s: Settings, n: nat, latched: set<ModifierKind>, kind: ModifierKind)
    requires n < CAPACITY && n < s.maxHeldKeys && CanLatch(s) && kind !in latched
    ensures var p := Preferred(kind);
            Parked(s, n, latched + {kind})
            == Step(Step(Parked(s, n, latched), PressOp(p, 0)).0, ReleaseOp(p, 0)).0
  {
    TapDown(s, n, latched, Preferred(kind));
    TapUp(s, n, latched, Preferred(kind));
    hide Step;
  }

  lemma {:induction false} TapsRun(s: Settings, ops: seq<Op>, n: nat, kinds: seq<ModifierKind>)
    requires n < CAPACITY && n < s.maxHeldKeys && CanLatch(s) && Distinct(kinds)
    requires Run(s, ops).0 == Parked(s, n, {})
    ensures Run(s, ops + TapsOf(kinds)).0 == Parked(s, n, KindSet(kinds))
  {
    if kinds == [] {
      assert ops + [] == ops;
    } else {
      var front, kind := kinds[..|kinds| - 1], kinds[|kinds| - 1];
      assert kinds == front + [kind];
      KindSetSnoc(front, kind);
      TapsRun(s, ops, n, front);
      TapsSnoc(ops, kinds);
      hide Run, Step, Parked, Distinct, KindSet, TapsOf;
      TapsRunStep(s, ops + TapsOf(front), n, KindSet(front), kind);
    }
  }

  lemma {:induction false} TapsSnoc(ops: seq<Op>, kinds: seq<ModifierKind>)
    requires kinds != []
    ensures var p := Preferred(kinds[|kinds| - 1]);
            ops + TapsOf(kinds) == (ops + TapsOf(kinds[..|kinds| - 1])) + [PressOp(p, 0)] + [ReleaseOp(p, 0)]
  {
    var p, front := Preferred(kinds[|kinds| - 1]), TapsOf(kinds[..|kinds| - 1]);
    assert TapsOf(kinds) == front + [PressOp(p, 0)] + [ReleaseOp(p, 0)];
    hide TapsOf, Preferred;
    AppendTwice(ops, front, [PressOp(p, 0)], [ReleaseOp(p, 0)]);
  }

  lemma AppendTwice<T>(a: seq<T>, b: seq<T>, c: seq<T>, d: seq<T>)
    ensures a + (b + c + d) == (a + b) + c + d
  {
  }

  lemma TapsRunStep(s: Settings, ops: seq<Op>, n: nat, latched: set<ModifierKind>, kind: ModifierKind)
    requires n < CAPACITY && n < s.maxHeldKeys && CanLatch(s) && kind !in latched
    requires Run(s, ops).0 == Parked(s, n, latched)
    ensures var p := Preferred(kind);
            Run(s, ops + [PressOp(p, 0)] + [ReleaseOp(p, 0)]).0 == Parked(s, n, latched + {kind})
  {
    hide Step, Run;
    var p := Preferred(kind);
    RunSnoc(s, ops, PressOp(p, 0));
    RunSnoc(s, ops + [PressOp(p, 0)], ReleaseOp(p, 0));
    TapParked(s, n, latched, kind);
  }

  /** Hold `n` keys, tap every kind if latching is possible, press one more key. */
  ghost function Crowd(s: Settings, n: nat): seq<Op>
    requires n < 56
  {
    Crowding(s, n) + [PressOp(FIRST_PLAIN + n, 0)]
  }

  lemma CrowdNormal(s: Settings, n: nat, latched: set<ModifierKind>)
    requires n + Extra(s) <= CAPACITY && latched == if CanLatch(s) then KindSet(KINDS) else {}
    ensures var key: PhysicalKey := FIRST_PLAIN + n;
            var (kb, es) := PressNormal(Parked(s, n, latched), key);
            && es != [] && es[|es| - 1] == Down(key)
            && (n + Extra(s) < CAPACITY ==> |kb.depressed| == n + Extra(s) + 1)
            && (n + Extra(s) == CAPACITY ==> key !in kb.depressed && |kb.depressed| == CAPACITY)
  {
    var kb := Parked(s, n, latched);
    CrowdHeld(s, n, latched);
    PlainSize(n);
    assert Engaged(kb) - HeldKinds(kb.depressed) == latched;
    hide PressNormal, Inject, HeldKinds, Engaged, KindSet, Grow;
    PressNormalParts(kb, FIRST_PLAIN + n, latched);
    GrowSize(Inject(KINDS, latched, Plain(n)).0, FIRST_PLAIN + n);
  }

  lemma CrowdHeld(s: Settings, n: nat, latched: set<ModifierKind>)
    requires n + Extra(s) <= CAPACITY && latched == if CanLatch(s) then KindSet(KINDS) else {}
    ensures |Inject(KINDS, latched, Plain(n)).0| == n + Extra(s)
    ensures FIRST_PLAIN + n !in Inject(KINDS, latched, Plain(n)).0
  {
    if CanLatch(s) {
      CrowdInject(n, latched, KINDS);
    } else {
      PlainSize(n);
      InjectNothing(KINDS, Plain(n));
    }
  }

  lemma PressNormalParts(kb: Keyboard, key: PhysicalKey, wanted: set<ModifierKind>)
    requires wanted == Engaged(kb) - HeldKinds(kb.depressed)
    ensures var (held, mods) := Inject(KINDS, wanted, kb.depressed);
            PressNormal(kb, key).0
            == kb.(depressed := Grow(held, key), latched := {}, taps := Interleaved(kb.taps),
                   injected := if mods == [] then kb.injected else Append(kb.injected, (key, mods)))
    ensures PressNormal(kb, key).1 == Downs(Inject(KINDS, wanted, kb.depressed).1) + [Down(key)]
  {
    hide Inject, HeldKinds, Engaged;
  }

  lemma GrowSize(held: set<PhysicalKey>, key: PhysicalKey)
    requires key !in held
    ensures |held| < CAPACITY ==> |Grow(held, key)| == |held| + 1
    ensures |held| >= CAPACITY ==> Grow(held, key) == held
  {
  }

  /** What the last press of that run does. */
  lemma CrowdPress(s: Settings, n: nat, latched: set<ModifierKind>)
    requires n < s.maxHeldKeys && n + Extra(s) <= CAPACITY
    requires latched == if CanLatch(s) then KindSet(KINDS) else {}
    ensures var key: PhysicalKey := FIRST_PLAIN + n;
            var (kb, es) := Step(Parked(s, n, latched), PressOp(key, 0));
            && es != [] && es[|es| - 1] == Down(key)
            && (n + Extra(s) < CAPACITY ==> |kb.depressed| == n + Extra(s) + 1)
            && (n + Extra(s) == CAPACITY ==> key !in kb.depressed && |kb.depressed| == CAPACITY)
  {
    hide Consumes, Step, PressNormal, KindSet, Parked, CanLatch, Plain;
    ParkedConsumes(s, n, latched);
    CrowdNormal(s, n, latched);
    StepNormal(Parked(s, n, latched), FIRST_PLAIN + n, 0);
  }

  lemma ParkedConsumes(s: Settings, n: nat, latched: set<ModifierKind>)
    requires n < s.maxHeldKeys && n <= CAPACITY
    ensures Consumes(Parked(s, n, latched), FIRST_PLAIN + n)
  {
    PlainSize(n);
  }

  /** How many keys that run ends with, and what happens to the last one. */
  lemma CrowdRun(s: Settings, n: nat)
    requires n < s.maxHeldKeys && n + Extra(s) <= CAPACITY
    ensures var key: PhysicalKey := FIRST_PLAIN + n;
            var (kb, es) := Run(s, Crowd(s, n));
            && es != [] && es[|es| - 1] == Down(key)
            && (n + Extra(s) < CAPACITY ==> |kb.depressed| == n + Extra(s) + 1)
            && (n + Extra(s) == CAPACITY ==> key !in kb.depressed && |kb.depressed| == CAPACITY)
  {
    hide Step, Run, Parked;
    var latched := if CanLatch(s) then KindSet(KINDS) else {};
    CrowdingParks(s, n);
    CrowdPress(s, n, latched);
    RunSnoc(s, Crowding(s, n), PressOp(FIRST_PLAIN + n, 0));
  }

  lemma CrowdInject(n: nat, wanted: set<ModifierKind>, kinds: seq<ModifierKind>)
    requires n + |kinds| <= CAPACITY && wanted == KindSet(kinds) && Distinct(kinds)
    ensures |Inject(kinds, wanted, Plain(n)).0| == n + |kinds|
    ensures FIRST_PLAIN + n !in Inject(kinds, wanted, Plain(n)).0
  {
    PlainSize(n);
    InjectExact(kinds, wanted, Plain(n));
    InjectSize(kinds, wanted, Plain(n));
    InjectFacts(kinds, wanted, Plain(n));
    PreferredOfAll(kinds, wanted);
  }

  lemma {:induction false} PreferredOfAll(kinds: seq<ModifierKind>, wanted: set<ModifierKind>)
    requires forall k :: k in kinds ==> k in wanted
    ensures |PreferredOf(kinds, wanted)| == |kinds|
  {
    if kinds != [] { PreferredOfAll(kinds[1..], wanted); }
  }

  // ---- the true bound on held keys ----

  /** The rollover cap plus the injected keys, as far as the array has room. */
  function HeldBound(s: Settings): nat {
    if Fits(s) then s.maxHeldKeys + Extra(s) else CAPACITY
  }

  lemma {:induction false} InjectCapped(kinds: seq<ModifierKind>, wanted: set<ModifierKind>, held: set<PhysicalKey>)
    requires |held| <= CAPACITY
    ensures held <= Inject(kinds, wanted, held).0 && |Inject(kinds, wanted, held).0| <= CAPACITY
  {
    if kinds != [] {
      var p := Preferred(kinds[0]);
      if kinds[0] in wanted && p !in held {
        InjectCapped(kinds[1..], wanted, Grow(held, p));
      } else {
        InjectCapped(kinds[1..], wanted, held);
      }
    }
  }

  lemma StepCapped(kb: Keyboard, op: Op)
    requires |kb.depressed| <= CAPACITY
    ensures |Step(kb, op).0.depressed| <= CAPACITY
  {
    match op
    case PressOp(key, now) => PressCapped(kb, key, now);
    case ReleaseOp(key, now) =>
      ReleaseShrinks(kb, key, now);
      hide Release;
    case ReleaseAllOp =>
  }

  lemma PressCapped(kb: Keyboard, key: PhysicalKey, now: Moment)
    requires |kb.depressed| <= CAPACITY
    ensures |Step(kb, PressOp(key, now)).0.depressed| <= CAPACITY
  {
    if Consumes(kb, key) {
      var wanted := Engaged(kb) - HeldKinds(kb.depressed);
      hide Inject, Engaged, HeldKinds, Step, PressNormal, Interleaved, Append;
      StepNormal(kb, key, now);
      InjectCapped(KINDS, wanted, kb.depressed);
      PressNormalParts(kb, key, wanted);
    } else {
      hide PressNormal, OtherHeld, Append;
    }
  }

  lemma ReleaseShrinks(kb: Keyboard, key: PhysicalKey, now: Moment)
    ensures Release(kb, key, now).0.depressed <= kb.depressed
    ensures |Release(kb, key, now).0.depressed| <= |kb.depressed|
  {
    if key in kb.depressed && IsNormal(key) && Lookup(kb.injected, key).Some? {
      LetGoFacts(Lookup(kb.injected, key).value, kb.depressed - {key});
    }
    hide LetGo, IsTap, Find;
    SubsetSize(Release(kb, key, now).0.depressed, kb.depressed);
  }

  lemma {:induction false} RunCapped(s: Settings, ops: seq<Op>)
    ensures |Run(s, ops).0.depressed| <= CAPACITY
    decreases |ops|
  {
    if ops != [] {
      RunCapped(s, ops[..|ops| - 1]);
      hide Step;
      StepCapped(Run(s, ops[..|ops| - 1]).0, ops[|ops| - 1]);
    }
  }

  /** No run of any settings holds more keys. */
  lemma HeldBoundHolds(s: Settings, ops: seq<Op>)
    ensures |Run(s, ops).0.depressed| <= HeldBound(s)
  {
    if Fits(s) {
      NoStuckKeys(s, ops);
    } else {
      RunCapped(s, ops);
    }
  }

  /** And some run of any settings holds as many: injected keys come on top of the rollover cap. */
  lemma HeldBoundAttained(s: Settings) returns (ops: seq<Op>)
    ensures |Run(s, ops).0.depressed| == HeldBound(s)
  {
    if s.maxHeldKeys == 0 {
      ops := [];
    } else {
      var n := if Fits(s) then s.maxHeldKeys - 1 else CAPACITY - Extra(s);
      ops := Crowd(s, n);
      CrowdRun(s, n);
    }
  }

  /** The rollover cap is the most keys ever held exactly when nothing can be injected, or the array
      is no larger than the cap. */
  lemma CapIsBoundIff(s: Settings)
    ensures (forall ops :: |Run(s, ops).0.depressed| <= s.maxHeldKeys) <==> !CanLatch(s) || s.maxHeldKeys >= CAPACITY
  {
    var ops := HeldBoundAttained(s);
    forall other ensures |Run(s, other).0.depressed| <= HeldBound(s) {
      HeldBoundHolds(s, other);
    }
    hide Run;
  }

  lemma {:induction false} TapsMatch(s: Settings, n: nat, kinds: seq<ModifierKind>)
    requires n < CAPACITY && n < s.maxHeldKeys && CanLatch(s) && Distinct(kinds)
    ensures StreamMatches(s, Holds(n) + TapsOf(kinds))
    decreases |kinds|
  {
    hide Run, Step, Holds, StreamMatches, Parked;
    HoldsRun(s, n);
    if kinds == [] {
      assert Holds(n) + TapsOf(kinds) == Holds(n);
    } else {
      var front, kind := kinds[..|kinds| - 1], kinds[|kinds| - 1];
      assert kinds == front + [kind];
      KindSetSnoc(front, kind);
      TapsSnoc(Holds(n), kinds);
      hide Distinct, KindSet, TapsOf;
      TapsMatch(s, n, front);
      TapsRun(s, Holds(n), n, front);
      TapMatches(s, Holds(n) + TapsOf(front), n, KindSet(front), kind);
    }
  }

  lemma TapMatches(s: Settings, ops: seq<Op>, n: nat, latched: set<ModifierKind>, kind: ModifierKind)
    requires n < CAPACITY && n < s.maxHeldKeys && CanLatch(s) && kind !in latched
    requires StreamMatches(s, ops) && Run(s, ops).0 == Parked(s, n, latched)
    ensures var p := Preferred(kind); StreamMatches(s, ops + [PressOp(p, 0)] + [ReleaseOp(p, 0)])
  {
    var p := Preferred(kind);
    var down := Tapping(s, n, latched, p);
    PlainSize(n);
    TapDown(s, n, latched, p);
    StepModifier(Parked(s, n, latched), p, 0);
    ReplayFirst(Holding(Plain(n)), Down(p), []);
    ReleaseBalanced(down, p, 0);
    assert Step(down, ReleaseOp(p, 0)) == Release(down, p, 0);
    RunSnoc(s, ops, PressOp(p, 0));
    hide Run, Step, StreamMatches, Release, Plain, PressModifier;
    MatchesSnoc(s, ops, PressOp(p, 0));
    MatchesSnoc(s, ops + [PressOp(p, 0)], ReleaseOp(p, 0));
  }

  /** What that run injects at its last press. */
  lemma CrowdInjected(s: Settings, n: nat, latched: set<ModifierKind>)
    requires n + Extra(s) <= CAPACITY && latched == if CanLatch(s) then KindSet(KINDS) else {}
    ensures var (held, mods) := Inject(KINDS, latched, Plain(n));
            Replay(Holding(Plain(n)), Downs(mods)) == Holding(held) && FIRST_PLAIN + n !in held
  {
    CrowdHeld(s, n, latched);
    if CanLatch(s) {
      PlainSize(n);
      InjectFacts(KINDS, latched, Plain(n));
    } else {
      InjectNothing(KINDS, Plain(n));
    }
  }

  /** What the sink holds after the last press: the machine's keys, and that key. */
  lemma CrowdSink(s: Settings, n: nat, latched: set<ModifierKind>)
    requires n < s.maxHeldKeys && n + Extra(s) <= CAPACITY
    requires latched == if CanLatch(s) then KindSet(KINDS) else {}
    ensures var key: PhysicalKey := FIRST_PLAIN + n;
            var (kb, es) := Step(Parked(s, n, latched), PressOp(key, 0));
            Replay(Holding(Plain(n)), es) == Holding(kb.depressed + {key})
  {
    var kb := Parked(s, n, latched);
    var key: PhysicalKey := FIRST_PLAIN + n;
    PlainSize(n);
    assert Engaged(kb) - HeldKinds(kb.depressed) == latched;
    hide Step, PressNormal, Inject, HeldKinds, Engaged, Plain, Consumes, KindSet, Parked, Extra, CanLatch;
    CrowdInjected(s, n, latched);
    ParkedConsumes(s, n, latched);
    StepNormal(kb, key, 0);
    PressNormalParts(kb, key, latched);
    var (held, mods) := Inject(KINDS, latched, Plain(n));
    PressedLast(Plain(n), held, Downs(mods), key);
  }

  lemma PressedLast(before: set<PhysicalKey>, held: set<PhysicalKey>, es: seq<KeyEvent>, key: PhysicalKey)
    requires Replay(Holding(before), es) == Holding(held) && key !in held
    ensures Replay(Holding(before), es + [Down(key)]) == Holding(Grow(held, key) + {key})
  {
    ReplayConcat(Holding(before), es, [Down(key)]);
    ReplayFirst(Holding(held), Down(key), []);
    assert Grow(held, key) + {key} == held + {key};
  }

  /** The run up to its last press. */
  ghost function Crowding(s: Settings, n: nat): seq<Op>
    requires n < 56
  {
    Holds(n) + (if CanLatch(s) then TapsOf(KINDS) else [])
  }

  lemma CrowdingParks(s: Settings, n: nat)
    requires n < s.maxHeldKeys && n + Extra(s) <= CAPACITY && (CanLatch(s) ==> n < CAPACITY)
    ensures Run(s, Crowding(s, n)).0 == Parked(s, n, if CanLatch(s) then KindSet(KINDS) else {})
    ensures StreamMatches(s, Crowding(s, n))
  {
    hide Run, StreamMatches, Parked, Holds, TapsOf, KindSet;
    HoldsRun(s, n);
    if CanLatch(s) {
      assert Crowding(s, n) == Holds(n) + TapsOf(KINDS);
      hide Crowding;
      TapsRun(s, Holds(n), n, KINDS);
      TapsMatch(s, n, KINDS);
    } else {
      assert Crowding(s, n) == Holds(n);
      hide Crowding;
    }
  }

  /** Settings without room have a run after which the sink is left holding a key that the machine no
      longer knows: a normal key, pressed last. */
  lemma LostKey(s: Settings) returns (ops: seq<Op>, key: PhysicalKey)
    requires !Fits(s)
    ensures key !in Run(s, ops).0.depressed && IsNormal(key)
    ensures Replay(Holding({}), Run(s, ops).1) == Holding(Run(s, ops).0.depressed + {key})
  {
    var n := CAPACITY - Extra(s);
    ops, key := Crowd(s, n), FIRST_PLAIN + n;
    CrowdRun(s, n);
    var before := Crowding(s, n);
    var latched := if CanLatch(s) then KindSet(KINDS) else {};
    assert ops == before + [PressOp(key, 0)];
    CrowdingParks(s, n);
    assert Parked(s, n, latched).depressed == Plain(n);
    hide Step, Run, Holds, TapsOf, KindSet, Parked, Crowding, Crowd;
    CrowdSink(s, n, latched);
    RunSnoc(s, before, PressOp(key, 0));
    ReplayConcat(Holding({}), Run(s, before).1, Step(Parked(s, n, latched), PressOp(key, 0)).1);
  }

  /** The sink and the machine agree on every run exactly when the settings fit the array. */
  lemma NeverStuckIffFits(s: Settings)
    ensures (forall ops :: StreamMatches(s, ops)) <==> Fits(s)
  {
    if Fits(s) {
      forall ops ensures StreamMatches(s, ops) { NoStuckKeys(s, ops); }
    } else {
      var ops, key := LostKey(s);
      hide Run;
      assert !StreamMatches(s, ops);
    }
  }

  // ---- tap tracks ----

  /** One track per tracked key, and every tracked key held. */
  ghost predicate TracksHeld(kb: Keyboard) {
    && (forall i :: 0 <= i < |kb.taps| ==> kb.taps[i].0 in kb.depressed && IsModifier(kb.taps[i].0))
    && (forall i, j :: 0 <= i < j < |kb.taps| ==> kb.taps[i].0 != kb.taps[j].0)
  }

  ghost predicate Tracked(kb: Keyboard, key: PhysicalKey) {
    exists i :: 0 <= i < |kb.taps| && kb.taps[i].0 == key
  }

  /** The step lets go of an injected key that the user meanwhile pressed for real. */
  ghost predicate StrandsTrack(kb: Keyboard, op: Op) {
    && op.ReleaseOp? && op.key in kb.depressed && IsNormal(op.key)
    && Lookup(kb.injected, op.key).Some?
    && exists m :: m in Lookup(kb.injected, op.key).value && Tracked(kb, m)
  }

  lemma TracksAfterRelease(kb: Keyboard, key: PhysicalKey, now: Moment)
    requires TracksHeld(kb) && IsModifier(key)
    ensures TracksHeld(ReleaseModifier(kb, key, now))
  {
    hide IsTap;
    TracksWithout(kb, key);
  }

  lemma TracksWithout(kb: Keyboard, key: PhysicalKey)
    requires TracksHeld(kb)
    ensures TracksHeld(kb.(depressed := kb.depressed - {key}, taps := Without(kb.taps, key)))
  {
    var rest := Without(kb.taps, key);
    if Find(kb.taps, key).Some? {
      var i := Find(kb.taps, key).value;
      assert forall j :: 0 <= j < |rest| ==> rest[j] == if j < i then kb.taps[j] else kb.taps[j + 1];
    }
  }

  lemma TracksAfterReleaseNormal(kb: Keyboard, key: PhysicalKey, now: Moment)
    requires TracksHeld(kb) && IsNormal(key) && key in kb.depressed
    ensures TracksHeld(ReleaseNormal(kb, key).0) <==> !StrandsTrack(kb, ReleaseOp(key, now))
  {
    match Lookup(kb.injected, key) {
      case None =>
      case Some(mods) =>
        LetGoFacts(mods, kb.depressed - {key});
        var next := ReleaseNormal(kb, key).0;
        assert next.taps == kb.taps;
        assert forall k :: k in mods <==> k in Elements(mods);
        assert forall i :: 0 <= i < |kb.taps| ==> Tracked(kb, kb.taps[i].0);
    }
  }

  lemma {:induction false} InjectKeepsHeld(kinds: seq<ModifierKind>, wanted: set<ModifierKind>, held: set<PhysicalKey>)
    ensures held <= Inject(kinds, wanted, held).0
  {
    if kinds != [] {
      var p := Preferred(kinds[0]);
      InjectKeepsHeld(kinds[1..], wanted, if kinds[0] in wanted && p !in held then Grow(held, p) else held);
    }
  }

  /** The step presses a modifier for which the held-key array has no room, though the rollover cap would. */
  ghost predicate DropsModifier(kb: Keyboard, op: Op) {
    && op.PressOp? && IsModifier(op.key) && op.key !in kb.depressed
    && CAPACITY <= |kb.depressed| < kb.settings.maxHeldKeys
  }

  ghost function TrackedKeys(taps: seq<(PhysicalKey, TapTrack)>): set<PhysicalKey> {
    set i | 0 <= i < |taps| :: taps[i].0
  }

  /** Tracks are for different keys, so the tap table never fills up. */
  lemma {:induction false} TrackedCount(taps: seq<(PhysicalKey, TapTrack)>)
    requires forall i, j :: 0 <= i < j < |taps| ==> taps[i].0 != taps[j].0
    ensures |TrackedKeys(taps)| == |taps|
  {
    if taps != [] {
      var front, last := taps[..|taps| - 1], taps[|taps| - 1].0;
      TrackedCount(front);
      assert TrackedKeys(taps) == TrackedKeys(front) + {last};
      assert last !in TrackedKeys(front);
    }
  }

  lemma TracksFew(kb: Keyboard)
    requires TracksHeld(kb)
    ensures |kb.taps| <= 9
  {
    TrackedCount(kb.taps);
    ModifiersFew(TrackedKeys(kb.taps));
  }

  lemma TracksAfterPressModifier(kb: Keyboard, key: PhysicalKey, now: Moment)
    requires TracksHeld(kb) && IsModifier(key) && key !in kb.depressed
    ensures TracksHeld(PressModifier(kb, key, now)) <==> |kb.depressed| < CAPACITY
  {
    TracksFew(kb);
    var next := PressModifier(kb, key, now);
    var n := |kb.taps|;
    assert next.taps[n].0 == key && forall i :: 0 <= i < n ==> next.taps[i] == kb.taps[i];
    hide OtherHeld;
  }

  lemma TracksAfterPress(kb: Keyboard, key: PhysicalKey, now: Moment)
    requires TracksHeld(kb) && Press(kb, key, now).Done? && !IsModifier(key)
    ensures TracksHeld(Press(kb, key, now).next)
  {
    if key !in kb.depressed && IsNormal(key) {
      InjectKeepsHeld(KINDS, Engaged(kb) - HeldKinds(kb.depressed), kb.depressed);
    }
    hide Inject;
  }

  /** "Every tap track belongs to a held modifier" survives a step exactly when the step neither lets go
      of an injected key that has a track of its own, nor presses a modifier the full array drops. */
  lemma TracksHeldIff(kb: Keyboard, op: Op)
    requires TracksHeld(kb)
    ensures TracksHeld(Step(kb, op).0) <==> !StrandsTrack(kb, op) && !DropsModifier(kb, op)
  {
    match op
    case PressOp(key, now) =>
      if key !in kb.depressed && |kb.depressed| < kb.settings.maxHeldKeys {
        if IsModifier(key) {
          TracksAfterPressModifier(kb, key, now);
          StepModifier(kb, key, now);
        } else {
          TracksAfterPress(kb, key, now);
        }
      }
      hide TracksHeld, PressModifier, PressNormal;
    case ReleaseOp(key, now) =>
      if key in kb.depressed {
        if IsModifier(key) {
          TracksAfterRelease(kb, key, now);
        } else if IsNormal(key) {
          TracksAfterReleaseNormal(kb, key, now);
        }
      }
    case ReleaseAllOp =>
  }

  /** Tap Shift, press A, release Shift, press Shift, release A. */
  const STRANDING: seq<Op> := [PressOp(LEFT_SHIFT, 0), ReleaseOp(LEFT_SHIFT, 0), PressOp(KEY_A, 0),
                               ReleaseOp(LEFT_SHIFT, 0), PressOp(LEFT_SHIFT, 0), ReleaseOp(KEY_A, 0)]

  /** So the rule fails on a run: a track is left for a Shift that is no longer down. */
  lemma StrandedTrack(s: Settings)
    requires CanLatch(s) && s.maxHeldKeys >= 2
    ensures !TracksHeld(Run(s, STRANDING).0)
  {
    hide Step, TracksHeld, Run;
    StrandedRun(s);
    var k3 := Run(s, STRANDING[..3]).0;
    StrandedPress(s);
    StrandedRelease(k3);
    var k5 := Run(s, STRANDING[..5]).0;
    assert Tracked(k5, LEFT_SHIFT);
    assert LEFT_SHIFT in Lookup(k5.injected, KEY_A).value;
    TracksHeldIff(k5, STRANDING[5]);
  }

  /** The run in three parts: a tap, a press, and the rest. */
  lemma StrandedRun(s: Settings)
    requires CanLatch(s) && s.maxHeldKeys >= 2
    ensures Run(s, STRANDING[..3]).0 == Step(Parked(s, 0, {Shift}), PressOp(KEY_A, 0)).0
    ensures Run(s, STRANDING[..5]).0 == Step(Step(Run(s, STRANDING[..3]).0, ReleaseOp(LEFT_SHIFT, 0)).0, PressOp(LEFT_SHIFT, 0)).0
    ensures Run(s, STRANDING).0 == Step(Run(s, STRANDING[..5]).0, STRANDING[5]).0
  {
    StrandedTap(s);
    hide Step, Run, Parked;
    RunPrefix(s, 2);
    RunPrefix(s, 3);
    RunPrefix(s, 4);
    RunPrefix(s, 5);
    assert STRANDING[..6] == STRANDING;
  }

  lemma StrandedTap(s: Settings)
    requires CanLatch(s)
    ensures Run(s, STRANDING[..2]).0 == Parked(s, 0, {Shift})
  {
    assert Plain(0) == {};
    assert Run(s, []).0 == Idle(s) == Parked(s, 0, {});
    hide Step, Run, Parked;
    TapParked(s, 0, {}, Shift);
    assert {} + {Shift} == {Shift};
    RunPrefix(s, 0);
    RunPrefix(s, 1);
    assert STRANDING[..0] == [];
  }

  lemma RunPrefix(s: Settings, i: nat)
    requires i < |STRANDING|
    ensures Run(s, STRANDING[..i + 1]).0 == Step(Run(s, STRANDING[..i]).0, STRANDING[i]).0
  {
    assert STRANDING[..i + 1] == STRANDING[..i] + [STRANDING[i]];
    hide Step, Run;
    RunSnoc(s, STRANDING[..i], STRANDING[i]);
  }

  lemma StrandedPress(s: Settings)
    requires CanLatch(s) && s.maxHeldKeys >= 2
    ensures var k3 := Step(Parked(s, 0, {Shift}), PressOp(KEY_A, 0)).0;
            k3.depressed == {LEFT_SHIFT, KEY_A} && k3.injected == [(KEY_A, [LEFT_SHIFT])] && k3.taps == []
            && k3.settings == s
  {
    assert Plain(0) == {};
    var kb := Parked(s, 0, {Shift});
    assert Engaged(kb) - HeldKinds(kb.depressed) == {Shift};
    InjectShift(kb.depressed);
    StepNormal(kb, KEY_A, 0);
    hide Inject, HeldKinds, Step;
  }

  lemma InjectShift(held: set<PhysicalKey>)
    requires held == {}
    ensures Inject(KINDS, {Shift}, held) == ({LEFT_SHIFT}, [LEFT_SHIFT])
  {
    InjectOnlyShift(KINDS[1..], {LEFT_SHIFT});
    assert Grow(held, LEFT_SHIFT) == {LEFT_SHIFT};
    assert KINDS[0] == Shift && Preferred(Shift) == LEFT_SHIFT;
    assert Inject(KINDS, {Shift}, held) == ({LEFT_SHIFT}, [LEFT_SHIFT] + []);
    assert [LEFT_SHIFT] + [] == [LEFT_SHIFT];
  }

  lemma {:induction false} InjectOnlyShift(kinds: seq<ModifierKind>, held: set<PhysicalKey>)
    requires Shift !in kinds
    ensures Inject(kinds, {Shift}, held) == (held, [])
  {
    if kinds != [] { InjectOnlyShift(kinds[1..], held); }
  }

  lemma StrandedRelease(k3: Keyboard)
    requires k3.depressed == {LEFT_SHIFT, KEY_A} && k3.injected == [(KEY_A, [LEFT_SHIFT])] && k3.taps == []
    requires k3.settings.maxHeldKeys >= 2
    ensures var k5 := Step(Step(k3, ReleaseOp(LEFT_SHIFT, 0)).0, PressOp(LEFT_SHIFT, 0)).0;
            k5.depressed == {LEFT_SHIFT, KEY_A} && k5.injected == k3.injected
            && |k5.taps| == 1 && k5.taps[0].0 == LEFT_SHIFT && TracksHeld(k5)
  {
    var k4 := Step(k3, ReleaseOp(LEFT_SHIFT, 0)).0;
    assert k4.depressed == {KEY_A};
    assert k4.taps == [];
  }

  // ---- tap tracks over runs ----

  /** No key down was pressed with the help of injected modifiers while another is being tapped. */
  ghost predicate TracksApart(kb: Keyboard) {
    TracksHeld(kb) && (kb.injected == [] || kb.taps == [])
  }

  lemma StepApart(kb: Keyboard, op: Op)
    requires Inv(kb) && TracksApart(kb) && kb.settings.maxHeldKeys <= CAPACITY
    requires !CanLatch(kb.settings) || kb.settings.maxHeldKeys < 2
    ensures TracksApart(Step(kb, op).0)
  {
    TracksHeldIff(kb, op);
    StepKeeps(kb, op);
    hide TracksHeld, Inv;
    if CanLatch(kb.settings) {
      StepApartOne(kb, op);
    } else {
      assert Step(kb, op).0.injected == [] by {
        assert LocksOk(Step(kb, op).0) by { InvLocks(Step(kb, op).0); }
      }
    }
  }

  lemma InvLocks(kb: Keyboard)
    requires Inv(kb)
    ensures LocksOk(kb)
  {
  }

  /** With a cap of one, a press goes through only while nothing is held, recorded or tracked. */
  lemma StepApartOne(kb: Keyboard, op: Op)
    requires Inv(kb) && TracksApart(kb) && kb.settings.maxHeldKeys == 1
    ensures Step(kb, op).0.injected == [] || Step(kb, op).0.taps == []
  {
    match op
    case PressOp(key, now) =>
      if key !in kb.depressed && |kb.depressed| < 1 {
        assert kb.depressed == {};
        NothingRecorded(kb);
        hide Inject, OtherHeld;
      }
    case ReleaseOp(key, now) => hide LetGo, IsTap;
    case ReleaseAllOp =>
  }

  lemma NothingRecorded(kb: Keyboard)
    requires Inv(kb) && TracksHeld(kb) && kb.depressed == {}
    ensures kb.injected == [] && kb.taps == []
  {
    RecordCount(kb.injected, kb.depressed);
    TrackedCount(kb.taps);
    SubsetSize(TrackedKeys(kb.taps), kb.depressed);
  }

  lemma {:induction false} RunApart(s: Settings, ops: seq<Op>)
    requires (!CanLatch(s) || s.maxHeldKeys < 2) && s.maxHeldKeys <= CAPACITY
    ensures TracksApart(Run(s, ops).0)
    decreases |ops|
  {
    if ops != [] {
      var init := ops[..|ops| - 1];
      RunApart(s, init);
      RunKeeps(s, init);
      hide Step, Inv, TracksApart;
      StepApart(Run(s, init).0, ops[|ops| - 1]);
    }
  }

  /** Fill the array with plain keys, then press a modifier. */
  lemma DroppedModifier(s: Settings)
    requires s.maxHeldKeys > CAPACITY
    ensures !TracksHeld(Run(s, Holds(CAPACITY) + [PressOp(LEFT_SHIFT, 0)]).0)
  {
    HoldsRun(s, CAPACITY);
    PlainSize(CAPACITY);
    var kb := Run(s, Holds(CAPACITY)).0;
    RunSnoc(s, Holds(CAPACITY), PressOp(LEFT_SHIFT, 0));
    hide Run, Step, Holds;
    TracksHeldIff(kb, PressOp(LEFT_SHIFT, 0));
  }

  /** Over whole runs, the rule about tap tracks holds exactly when nothing can be injected next to a held
      key, and the rollover cap keeps the array from filling up. */
  lemma TracksHeldOnRunsIff(s: Settings)
    ensures (forall ops :: TracksHeld(Run(s, ops).0))
       <==> (!CanLatch(s) || s.maxHeldKeys < 2) && s.maxHeldKeys <= CAPACITY
  {
    hide Run;
    if s.maxHeldKeys > CAPACITY {
      DroppedModifier(s);
    } else if CanLatch(s) && s.maxHeldKeys >= 2 {
      StrandedTrack(s);
    } else {
      forall ops ensures TracksHeld(Run(s, ops).0) {
        RunApart(s, ops);
      }
    }
  }
}
