/** The order of what the state machine emits, the locks over whole runs, and which modifiers are in
    force: stated without the functions that compute them. */
module KeyboardLaws {
  import opened Options
  import opened Keys
  import opened Slots
  import opened SortedKeys
  import opened Keyboard
  import opened Sinks
  import opened KeyboardRuns
  import opened KeyboardTaps
  import opened KeyboardLimits

  // ---- release-all ----

  /** Which of two held keys is let go first: a normal or lock key before a modifier, and within each of the two
      the one later in the table. */
  predicate First(a: PhysicalKey, b: PhysicalKey) {
    if IsModifier(a) == IsModifier(b) then a > b else IsModifier(b)
  }

  /** Releases in that order. */
  ghost predicate Ordered(es: seq<KeyEvent>) {
    && (forall i :: 0 <= i < |es| ==> es[i].Up?)
    && forall i, j :: 0 <= i < j < |es| ==> First(es[i].key, es[j].key)
  }

  /** They are for those of the keys that are modifiers, or are not. */
  ghost predicate ForSome(es: seq<KeyEvent>, keys: seq<PhysicalKey>, modifiers: bool) {
    && (forall i :: 0 <= i < |es| ==> es[i].Up? && es[i].key in keys && IsModifier(es[i].key) == modifiers)
    && forall k :: k in keys && IsModifier(k) == modifiers ==> Up(k) in es
  }

  /** Release-all lets every held key go once, in that order, and leaves nothing latched, recorded or tracked;
      the locks stay. */
  lemma ReleaseAllOrder(kb: Keyboard)
    ensures Ordered(ReleaseAll(kb).1) && forall k :: Up(k) in ReleaseAll(kb).1 <==> k in kb.depressed
    ensures ReleaseAll(kb).0 == Idle(kb.settings).(locked := kb.locked, capsLock := kb.capsLock, numLock := kb.numLock)
  {
    var keys := Ascending(kb.depressed);
    OnePass(keys, false);
    OnePass(keys, true);
    hide UpsWhere, Ascending, Ordered, IsModifier;
    var a, b := UpsWhere(keys, false), UpsWhere(keys, true);
    TwoPasses(a, b, keys);
    forall k ensures Up(k) in a + b <==> k in kb.depressed {
      assert k in keys <==> k in kb.depressed;
    }
  }

  lemma TwoPasses(a: seq<KeyEvent>, b: seq<KeyEvent>, keys: seq<PhysicalKey>)
    requires ForSome(a, keys, false) && ForSome(b, keys, true) && Ordered(a) && Ordered(b)
    ensures Ordered(a + b) && forall k :: Up(k) in a + b <==> k in keys
  {
    hide IsModifier;
    forall k ensures Up(k) in a + b <==> k in keys {
      assert Up(k) in a + b <==> Up(k) in a || Up(k) in b;
    }
    forall i, j | 0 <= i < j < |a + b| ensures First((a + b)[i].key, (a + b)[j].key) {
      if i < |a| <= j {
        assert (a + b)[i] == a[i] && (a + b)[j] == b[j - |a|];
      } else if j < |a| {
        assert (a + b)[i] == a[i] && (a + b)[j] == a[j];
      } else {
        assert (a + b)[i] == b[i - |a|] && (a + b)[j] == b[j - |a|];
      }
    }
  }

  lemma {:induction false} OnePass(keys: seq<PhysicalKey>, modifiers: bool)
    requires Sorted(keys)
    ensures ForSome(UpsWhere(keys, modifiers), keys, modifiers) && Ordered(UpsWhere(keys, modifiers))
    decreases |keys|
  {
    if keys != [] {
      var front, last := keys[..|keys| - 1], keys[|keys| - 1];
      SortedFront(keys);
      OnePass(front, modifiers);
      assert keys == front + [last];
      assert forall k :: k in front ==> k < last;
      hide Sorted;
      LastFirst(front, last, modifiers, UpsWhere(front, modifiers));
      hide ForSome, Ordered, IsModifier;
      var rest := UpsWhere(front, modifiers);
      assert [] + rest == rest;
    }
  }

  lemma LastFirst(front: seq<PhysicalKey>, last: PhysicalKey, modifiers: bool, rest: seq<KeyEvent>)
    requires ForSome(rest, front, modifiers) && Ordered(rest) && forall k :: k in front ==> k < last
    ensures if IsModifier(last) == modifiers
            then ForSome([Up(last)] + rest, front + [last], modifiers) && Ordered([Up(last)] + rest)
            else ForSome(rest, front + [last], modifiers)
  {
    hide IsModifier;
    assert forall k :: k in front + [last] <==> k in front || k == last;
    var es := [Up(last)] + rest;
    assert forall e :: e in es <==> e == Up(last) || e in rest;
    forall i, j | IsModifier(last) == modifiers && 0 <= i < j < |es| ensures First(es[i].key, es[j].key) {
      assert es[j] == rest[j - 1];
      if i > 0 {
        assert es[i] == rest[i - 1];
      }
    }
  }

  // ---- one stroke of a normal key ----

  function Ups(keys: seq<PhysicalKey>): seq<KeyEvent> {
    seq(|keys|, i requires 0 <= i < |keys| => Up(keys[i]))
  }

  ghost predicate Different(keys: seq<PhysicalKey>) {
    forall i, j :: 0 <= i < j < |keys| ==> keys[i] != keys[j]
  }

  lemma {:induction false} PreferredDifferent(kinds: seq<ModifierKind>, wanted: set<ModifierKind>)
    requires Distinct(kinds)
    ensures Different(PreferredOf(kinds, wanted))
    ensures forall p :: p in PreferredOf(kinds, wanted) ==> exists k :: k in kinds && p == Preferred(k)
  {
    if kinds != [] {
      PreferredDifferent(kinds[1..], wanted);
      var rest := PreferredOf(kinds[1..], wanted);
      if kinds[0] in wanted {
        forall p | p in rest ensures p != Preferred(kinds[0]) {
          var k :| k in kinds[1..] && p == Preferred(k);
          assert KindOf(p) == Some(k);
        }
        assert forall i :: 0 <= i < |rest| ==> rest[i] in rest;
        assert PreferredOf(kinds, wanted) == [Preferred(kinds[0])] + rest;
      } else {
        assert PreferredOf(kinds, wanted) == [] + rest == rest;
      }
    }
  }

  lemma {:induction false} LetGoAll(mods: seq<PhysicalKey>, held: set<PhysicalKey>)
    requires Different(mods) && forall m :: m in mods ==> m in held
    ensures LetGo(mods, held) == (held - Elements(mods), Ups(mods))
  {
    if mods != [] {
      forall m | m in mods[1..] ensures m in held - {mods[0]} {
        var i :| 0 <= i < |mods[1..]| && mods[1..][i] == m;
        assert mods[i + 1] == m;
      }
      forall i, j | 0 <= i < j < |mods[1..]| ensures mods[1..][i] != mods[1..][j] {
        assert mods[1..][i] == mods[i + 1] && mods[1..][j] == mods[j + 1];
      }
      LetGoAll(mods[1..], held - {mods[0]});
      assert held - {mods[0]} - Elements(mods[1..]) == held - ({mods[0]} + Elements(mods[1..]));
      assert Ups(mods) == [Up(mods[0])] + Ups(mods[1..]);
      assert Elements(mods) == {mods[0]} + Elements(mods[1..]);
    } else {
      assert held - Elements(mods) == held && Ups(mods) == [];
    }
  }

  /** A normal key pressed and let go: the latched kinds that are not held go down in kind order, then the key;
      the key comes up first, so that they cover it, and then they do, in the same order; and nothing has
      changed but that the latch is spent and the strokes under way are spoiled. */
  lemma StrokeMirrors(kb: Keyboard, key: PhysicalKey, now: Moment, later: Moment)
    requires Inv(kb) && Consumes(kb, key)
    ensures var ps := PreferredOf(KINDS, kb.latched - HeldKinds(kb.depressed));
            var (down, downs) := Step(kb, PressOp(key, now));
            var (up, ups) := Step(down, ReleaseOp(key, later));
            && downs == Downs(ps) + [Down(key)] && ups == [Up(key)] + Ups(ps)
            && up == kb.(latched := {}, taps := Interleaved(kb.taps))
  {
    var ps := PreferredOf(KINDS, kb.latched - HeldKinds(kb.depressed));
    StepNormal(kb, key, now);
    StrokeDown(kb, key);
    PreferredDifferent(KINDS, kb.latched - HeldKinds(kb.depressed));
    var down := PressNormal(kb, key).0;
    hide PreferredOf, PressNormal, Step, Inv, HeldKinds, Consumes;
    StrokeUp(kb, down, key, ps);
    StepReleaseNormal(down, key, later);
  }

  lemma StepReleaseNormal(kb: Keyboard, key: PhysicalKey, later: Moment)
    requires IsNormal(key) && key in kb.depressed
    ensures Step(kb, ReleaseOp(key, later)) == ReleaseNormal(kb, key)
  {
    hide ReleaseNormal;
  }

  lemma StrokeDown(kb: Keyboard, key: PhysicalKey)
    requires Inv(kb) && Consumes(kb, key)
    ensures var ps := PreferredOf(KINDS, kb.latched - HeldKinds(kb.depressed));
            var (down, downs) := PressNormal(kb, key);
            && downs == Downs(ps) + [Down(key)]
            && down == kb.(depressed := kb.depressed + Elements(ps) + {key}, latched := {}, taps := Interleaved(kb.taps),
                           injected := if ps == [] then kb.injected else kb.injected + [(key, ps)])
            && key !in ps && (forall p :: p in ps ==> p !in kb.depressed)
            && forall i :: 0 <= i < |kb.injected| ==> kb.injected[i].0 != key
  {
    var wanted := Engaged(kb) - HeldKinds(kb.depressed);
    assert wanted == kb.latched - HeldKinds(kb.depressed);
    var ps := PreferredOf(KINDS, wanted);
    forall i | 0 <= i < |KINDS| && KINDS[i] in wanted ensures Preferred(KINDS[i]) !in kb.depressed {
      assert KindOf(Preferred(KINDS[i])) == Some(KINDS[i]);
    }
    InjectExact(KINDS, wanted, kb.depressed);
    InjectBound(kb, wanted);
    RecordCount(kb.injected, kb.depressed);
    NotHeld(KINDS, wanted, kb.depressed);
    var h := Inject(KINDS, wanted, kb.depressed).0;
    assert h == kb.depressed + Elements(ps);
    hide Inject, HeldKinds, Engaged, PreferredOf;
    assert forall p :: p in ps ==> IsModifier(p);
  }

  lemma {:induction false} NotHeld(kinds: seq<ModifierKind>, wanted: set<ModifierKind>, held: set<PhysicalKey>)
    requires forall i :: 0 <= i < |kinds| && kinds[i] in wanted ==> Preferred(kinds[i]) !in held
    ensures forall p :: p in PreferredOf(kinds, wanted) ==> p !in held
  {
    if kinds != [] {
      NotHeld(kinds[1..], wanted, held);
    }
  }

  lemma StrokeUp(kb: Keyboard, down: Keyboard, key: PhysicalKey, ps: seq<PhysicalKey>)
    requires key !in kb.depressed && key !in ps && Different(ps) && forall p :: p in ps ==> p !in kb.depressed
    requires forall i :: 0 <= i < |kb.injected| ==> kb.injected[i].0 != key
    requires down == kb.(depressed := kb.depressed + Elements(ps) + {key}, latched := {}, taps := Interleaved(kb.taps),
                         injected := if ps == [] then kb.injected else kb.injected + [(key, ps)])
    ensures ReleaseNormal(down, key) == (kb.(latched := {}, taps := Interleaved(kb.taps)), [Up(key)] + Ups(ps))
  {
    var held := down.depressed - {key};
    assert held == kb.depressed + Elements(ps);
    if ps == [] {
      assert Find(down.injected, key) == None;
      assert held == kb.depressed && [Up(key)] + Ups(ps) == [Up(key)];
    } else {
      var n := |kb.injected|;
      assert down.injected[n] == (key, ps);
      assert Find(down.injected, key) == Some(n);
      assert Without(down.injected, key) == kb.injected;
      LetGoAll(ps, held);
      assert held - Elements(ps) == kb.depressed;
    }
  }

  // ---- refusals ----

  /** A press is refused exactly when its key is up and the rollover cap is used up, and reports the cap; a key
      that is down already is pressed in vain. */
  lemma RefusedIff(kb: Keyboard, key: PhysicalKey, now: Moment)
    ensures Press(kb, key, now).Rollover? <==> key !in kb.depressed && |kb.depressed| >= kb.settings.maxHeldKeys
    ensures Press(kb, key, now).Rollover? ==> Press(kb, key, now).limit == kb.settings.maxHeldKeys
    ensures key in kb.depressed ==> Press(kb, key, now) == Done(kb, [])
    ensures key !in kb.depressed ==> Release(kb, key, now) == (kb, [])
  {
    hide Inject, OtherHeld;
  }

  // ---- locks ----

  /** How often the key was let go while held. */
  ghost function Strokes(s: Settings, ops: seq<Op>, key: PhysicalKey): nat
    decreases |ops|
  {
    if ops == [] then 0
    else
      var init, op := ops[..|ops| - 1], ops[|ops| - 1];
      Strokes(s, init, key) + (if op.ReleaseOp? && op.key == key && key in HeldAfter(s, init) then 1 else 0)
  }

  /** Each lock is on exactly after an odd number of strokes of its key; release-all leaves it. */
  lemma {:induction false} LockParity(s: Settings, ops: seq<Op>)
    ensures Run(s, ops).0.capsLock <==> Strokes(s, ops, CAPS_LOCK) % 2 == 1
    ensures Run(s, ops).0.numLock <==> Strokes(s, ops, NUM_LOCK) % 2 == 1
    decreases |ops|
  {
    if ops != [] {
      var init, op := ops[..|ops| - 1], ops[|ops| - 1];
      LockParity(s, init);
      LockStep(Run(s, init).0, op);
      StrokesStep(s, ops, CAPS_LOCK);
      StrokesStep(s, ops, NUM_LOCK);
      hide Step, Strokes;
    }
  }

  lemma StrokesStep(s: Settings, ops: seq<Op>, key: PhysicalKey)
    requires ops != []
    ensures var init, op := ops[..|ops| - 1], ops[|ops| - 1];
            (Strokes(s, ops, key) % 2 == 1)
            == ((Strokes(s, init, key) % 2 == 1) != (op.ReleaseOp? && op.key == key && key in Run(s, init).0.depressed))
  {
    hide Run;
  }

  lemma LockStep(kb: Keyboard, op: Op)
    ensures var next := Step(kb, op).0;
            && next.capsLock == (kb.capsLock != (op.ReleaseOp? && op.key == CAPS_LOCK && CAPS_LOCK in kb.depressed))
            && next.numLock == (kb.numLock != (op.ReleaseOp? && op.key == NUM_LOCK && NUM_LOCK in kb.depressed))
  {
    if op.ReleaseOp? && op.key in kb.depressed && IsNormal(op.key) {
      ReleaseNormalLocks(kb, op.key);
      hide ReleaseNormal;
    }
    hide Inject, OtherHeld, IsTap, Without, LetGo;
  }

  lemma ReleaseNormalLocks(kb: Keyboard, key: PhysicalKey)
    ensures ReleaseNormal(kb, key).0.capsLock == kb.capsLock && ReleaseNormal(kb, key).0.numLock == kb.numLock
  {
    hide LetGo, Find;
  }

  /** What is in force after any run: the kinds that have a key down, those tapped oddly often since the latch was
      spent, and Shift under Caps Lock. */
  lemma InForce(s: Settings, ops: seq<Op>, kind: ModifierKind)
    ensures kind in Effective(Run(s, ops).0)
       <==> || (exists k :: k in HeldAfter(s, ops) && KindOf(k) == Some(kind))
            || OddTaps(s, ops, kind)
            || (kind == Shift && Strokes(s, ops, CAPS_LOCK) % 2 == 1)
  {
    LatchParity(s, ops, kind);
    LockParity(s, ops);
    var kb := Run(s, ops).0;
    assert kind in kb.latched <==> OddTaps(s, ops, kind);
    assert kind in kb.locked <==> kind == Shift && kb.capsLock;
    KindHeld(kb.depressed, kind);
    hide Run, TapCount, Strokes, HeldKinds, OddTaps;
  }

  lemma KindHeld(held: set<PhysicalKey>, kind: ModifierKind)
    ensures kind in HeldKinds(held) <==> exists k :: k in held && KindOf(k) == Some(kind)
  {
    if k :| k in held && KindOf(k) == Some(kind) {
      assert IsModifier(k) && KindOf(k).value == kind;
    }
  }
}
