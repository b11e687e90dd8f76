/** Whole runs of the keyboard state machine: no key is ever stuck, exactly when the settings
    leave room in the held-key array; the held-key bound; the latch as a parity of taps. */
module KeyboardRuns {
  import opened Options
  import opened Keys
  import opened Slots
  import opened SortedKeys
  import opened Keyboard
  import opened Sinks

  predicate CanLatch(s: Settings) { s.latchEnabled && s.tapTimeout > 0 && s.maxHeldKeys > 0 }

  /** Keys a press may put down beside the pressed one: one per kind, if latching is possible at all. */
  function Extra(s: Settings): nat { if CanLatch(s) then |KINDS| else 0 }

  /** The held-key array has room for the rollover cap and the injected keys. */
  predicate Fits(s: Settings) { s.maxHeldKeys + Extra(s) <= CAPACITY }

  type Records = seq<(PhysicalKey, seq<PhysicalKey>)>

  /** Every record belongs to a different normal key that is down, and lists preferred modifier keys only. */
  ghost predicate RecordsOk(s: Records, held: set<PhysicalKey>) {
    && (forall i :: 0 <= i < |s| ==> s[i].0 in held && IsNormal(s[i].0))
    && (forall i, m :: 0 <= i < |s| && m in s[i].1 ==> IsModifier(m) && IsPreferred(m))
    && (forall i, j :: 0 <= i < j < |s| ==> s[i].0 != s[j].0)
  }

  /** `locked` is the Caps Lock mirror and nothing else; nothing is latched where latching is off. */
  ghost predicate LocksOk(kb: Keyboard) {
    && kb.locked == (if kb.capsLock then {Shift} else {})
    && (CanLatch(kb.settings) || (kb.latched == {} && kb.injected == []))
  }

  ghost predicate Inv(kb: Keyboard) {
    && Fits(kb.settings)
    && |kb.depressed| <= kb.settings.maxHeldKeys + Extra(kb.settings)
    && RecordsOk(kb.injected, kb.depressed)
    && LocksOk(kb)
  }

  // ---- what injection does ----

  lemma {:induction false} InjectFacts(kinds: seq<ModifierKind>, wanted: set<ModifierKind>, held: set<PhysicalKey>)
    requires |held| + |kinds| <= CAPACITY
    ensures var (h, ps) := Inject(kinds, wanted, held);
            && held <= h && |h| <= |held| + |kinds|
            && Replay(Holding(held), Downs(ps)) == Holding(h)
            && (forall k :: k in h && k !in held ==> IsModifier(k))
            && (forall k :: k in h <==> k in held || k in ps)
            && (forall p :: p in ps ==> IsModifier(p) && IsPreferred(p))
  {
    if kinds != [] {
      var p := Preferred(kinds[0]);
      if kinds[0] in wanted && p !in held {
        InjectFacts(kinds[1..], wanted, held + {p});
        var (h, ps) := Inject(kinds[1..], wanted, held + {p});
        assert Downs([p] + ps) == [Down(p)] + Downs(ps);
        ReplayFirst(Holding(held), Down(p), Downs(ps));
      } else {
        InjectFacts(kinds[1..], wanted, held);
      }
    }
  }

  lemma {:induction false} InjectNothing(kinds: seq<ModifierKind>, held: set<PhysicalKey>)
    ensures Inject(kinds, {}, held) == (held, [])
  {
    if kinds != [] { InjectNothing(kinds[1..], held); }
  }

  lemma {:induction false} RecordCount(s: Records, held: set<PhysicalKey>)
    requires RecordsOk(s, held)
    ensures |s| <= |held|
  {
    if s != [] {
      var rest := s[1..];
      assert forall i :: 0 <= i < |rest| ==> rest[i] == s[i + 1];
      RecordCount(rest, held - {s[0].0});
    }
  }

  lemma RecordAdded(s: Records, held: set<PhysicalKey>, key: PhysicalKey, mods: seq<PhysicalKey>, more: set<PhysicalKey>)
    requires RecordsOk(s, held) && |held| < CAPACITY && held <= more
    requires IsNormal(key) && key !in held && key in more && forall m :: m in mods ==> IsModifier(m) && IsPreferred(m)
    ensures RecordsOk(Append(s, (key, mods)), more) && RecordsOk(s, more)
  {
    RecordCount(s, held);
    hide KindOf, Preferred, IsModifier, IsNormal, IsPreferred;
    var t := Append(s, (key, mods));
    assert t == s + [(key, mods)];
    assert forall i :: 0 <= i < |t| ==> t[i] == if i < |s| then s[i] else (key, mods);
  }

  lemma RecordRemoved(s: Records, held: set<PhysicalKey>, key: PhysicalKey, less: set<PhysicalKey>)
    requires RecordsOk(s, held)
    requires forall k :: k in held && IsNormal(k) && k != key ==> k in less
    ensures RecordsOk(Without(s, key), less)
  {
    hide KindOf, Preferred, IsModifier, IsNormal, IsPreferred;
    var rest := Without(s, key);
    if Find(s, key).Some? {
      var i := Find(s, key).value;
      assert forall j :: 0 <= j < |rest| ==> rest[j] == if j < i then s[j] else s[j + 1];
    }
  }

  lemma PressKeeps(kb: Keyboard, key: PhysicalKey, now: Moment)
    requires Inv(kb) && Press(kb, key, now).Done?
    ensures Inv(Press(kb, key, now).next)
    ensures Replay(Holding(kb.depressed), Press(kb, key, now).events) == Holding(Press(kb, key, now).next.depressed)
  {
    if key in kb.depressed {
    } else if IsNormal(key) {
      PressNormalKeeps(kb, key);
    } else {
      ReplayFirst(Holding(kb.depressed), Down(key), []);
    }
  }

  lemma PressNormalKeeps(kb: Keyboard, key: PhysicalKey)
    requires Inv(kb) && IsNormal(key) && key !in kb.depressed && |kb.depressed| < kb.settings.maxHeldKeys
    ensures Inv(PressNormal(kb, key).0)
    ensures Replay(Holding(kb.depressed), PressNormal(kb, key).1) == Holding(PressNormal(kb, key).0.depressed)
  {
    var wanted := Engaged(kb) - HeldKinds(kb.depressed);
    var (held, mods) := Inject(KINDS, wanted, kb.depressed);
    InjectBound(kb, wanted);
    ReplayConcat(Holding(kb.depressed), Downs(mods), [Down(key)]);
    ReplayFirst(Holding(held), Down(key), []);
    RecordAdded(kb.injected, kb.depressed, key, mods, held + {key});
  }

  lemma InjectBound(kb: Keyboard, wanted: set<ModifierKind>)
    requires Inv(kb) && |kb.depressed| < kb.settings.maxHeldKeys
    requires wanted == Engaged(kb) - HeldKinds(kb.depressed)
    ensures var (h, ps) := Inject(KINDS, wanted, kb.depressed);
            && kb.depressed <= h && |h| <= |kb.depressed| + Extra(kb.settings)
            && Replay(Holding(kb.depressed), Downs(ps)) == Holding(h)
            && (forall k :: k in h && k !in kb.depressed ==> IsModifier(k))
            && (forall k :: k in h <==> k in kb.depressed || k in ps)
            && (forall p :: p in ps ==> IsModifier(p) && IsPreferred(p))
            && (!CanLatch(kb.settings) ==> ps == [])
  {
    if CanLatch(kb.settings) {
      InjectFacts(KINDS, wanted, kb.depressed);
    } else {
      assert wanted == {};
      InjectNothing(KINDS, kb.depressed);
    }
  }

  // ---- what release does ----

  lemma {:induction false} LetGoFacts(mods: seq<PhysicalKey>, held: set<PhysicalKey>)
    ensures var (h, es) := LetGo(mods, held);
            && h == held - Elements(mods)
            && |h| <= |held|
            && Replay(Holding(held), es) == Holding(h)
  {
    if mods != [] {
      LetGoFacts(mods[1..], held - {mods[0]});
      assert Elements(mods) == {mods[0]} + Elements(mods[1..]);
      var (h, es) := LetGo(mods[1..], held - {mods[0]});
      if mods[0] in held {
        ReplayFirst(Holding(held), Up(mods[0]), es);
      } else {
        assert held - {mods[0]} == held;
      }
    }
  }

  /** What a release emits is balanced, in any state. */
  lemma ReleaseBalanced(kb: Keyboard, key: PhysicalKey, now: Moment)
    ensures Replay(Holding(kb.depressed), Release(kb, key, now).1) == Holding(Release(kb, key, now).0.depressed)
  {
    if key in kb.depressed {
      ReplayFirst(Holding(kb.depressed), Up(key), []);
      if IsNormal(key) && Lookup(kb.injected, key).Some? {
        var mods := Lookup(kb.injected, key).value;
        LetGoFacts(mods, kb.depressed - {key});
        ReplayFirst(Holding(kb.depressed), Up(key), LetGo(mods, kb.depressed - {key}).1);
      }
    }
  }

  lemma ReleaseKeeps(kb: Keyboard, key: PhysicalKey, now: Moment)
    requires Inv(kb)
    ensures Inv(Release(kb, key, now).0)
    ensures Replay(Holding(kb.depressed), Release(kb, key, now).1) == Holding(Release(kb, key, now).0.depressed)
  {
    if key in kb.depressed {
      ReplayFirst(Holding(kb.depressed), Up(key), []);
      if IsModifier(key) {
        ReleaseModifierKeeps(kb, key, now);
      } else if IsLock(key) {
        ReleaseLockKeeps(kb, key);
      } else {
        ReleaseNormalKeeps(kb, key);
      }
    }
  }

  /** Records survive the release of a key that has none. */
  lemma RecordsWithout(s: Records, held: set<PhysicalKey>, key: PhysicalKey)
    requires RecordsOk(s, held) && !IsNormal(key)
    ensures RecordsOk(s, held - {key})
  {
  }

  lemma ReleaseModifierKeeps(kb: Keyboard, key: PhysicalKey, now: Moment)
    requires Inv(kb) && IsModifier(key) && key in kb.depressed
    ensures Inv(ReleaseModifier(kb, key, now))
    ensures ReleaseModifier(kb, key, now).depressed == kb.depressed - {key}
  {
    hide Find;
    hide RecordsOk;
    assert |kb.depressed - {key}| < |kb.depressed|;
    RecordsWithout(kb.injected, kb.depressed, key);
  }

  lemma ReleaseLockKeeps(kb: Keyboard, key: PhysicalKey)
    requires Inv(kb) && IsLock(key) && key in kb.depressed
    ensures Inv(ReleaseLock(kb, key))
    ensures ReleaseLock(kb, key).depressed == kb.depressed - {key}
  {
    hide Find;
    hide RecordsOk;
    assert |kb.depressed - {key}| < |kb.depressed|;
    RecordsWithout(kb.injected, kb.depressed, key);
  }

  lemma ReleaseNormalKeeps(kb: Keyboard, key: PhysicalKey)
    requires Inv(kb) && IsNormal(key) && key in kb.depressed
    ensures Inv(ReleaseNormal(kb, key).0)
    ensures Replay(Holding(kb.depressed), ReleaseNormal(kb, key).1) == Holding(ReleaseNormal(kb, key).0.depressed)
  {
    var held := kb.depressed - {key};
    assert |held| < |kb.depressed|;
    match Lookup(kb.injected, key) {
      case None =>
        ReplayFirst(Holding(kb.depressed), Up(key), []);
        RecordRemoved(kb.injected, kb.depressed, key, held);
      case Some(mods) =>
        LetGoFacts(mods, held);
        var (h, es) := LetGo(mods, held);
        ReplayFirst(Holding(kb.depressed), Up(key), es);
        RecordRemoved(kb.injected, kb.depressed, key, h);
    }
  }

  /** One pass of release-all takes the keys it selects off the sink, whatever else is held. */
  lemma {:induction false} UpsWhereReplay(keys: seq<PhysicalKey>, modifiers: bool, held: set<PhysicalKey>)
    requires Sorted(keys)
    requires forall k :: k in keys && IsModifier(k) == modifiers ==> k in held
    ensures Replay(Holding(held), UpsWhere(keys, modifiers))
         == Holding(set k | k in held && !(k in keys && IsModifier(k) == modifiers))
  {
    if keys != [] {
      var k, front := keys[|keys| - 1], keys[..|keys| - 1];
      SortedFront(keys);
      assert k !in front;
      var es := UpsWhere(front, modifiers);
      var on := IsModifier(k) == modifiers;
      LeftOver(keys, modifiers, held);
      assert UpsWhere(keys, modifiers) == if on then [Up(k)] + es else es;
      hide UpsWhere, Sorted;
      UpsWhereReplay(front, modifiers, if on then held - {k} else held);
      if on {
        ReplayFirst(Holding(held), Up(k), es);
        hide Replay;
      }
    }
  }

  /** Whether its last key is taken first or not at all, a listing leaves the same keys. */
  lemma LeftOver(keys: seq<PhysicalKey>, modifiers: bool, held: set<PhysicalKey>)
    requires keys != []
    ensures var k, front := keys[|keys| - 1], keys[..|keys| - 1];
            var rest := if IsModifier(k) == modifiers then held - {k} else held;
            (set x | x in rest && !(x in front && IsModifier(x) == modifiers))
            == (set x | x in held && !(x in keys && IsModifier(x) == modifiers))
  {
    assert keys == keys[..|keys| - 1] + [keys[|keys| - 1]];
    hide IsModifier;
  }

  lemma ReleaseAllKeeps(kb: Keyboard)
    requires Inv(kb)
    ensures Inv(ReleaseAll(kb).0) && ReleaseAll(kb).0.depressed == {}
    ensures Replay(Holding(kb.depressed), ReleaseAll(kb).1) == Holding({})
  {
    var keys := Ascending(kb.depressed);
    assert forall k :: k in keys <==> k in Elements(keys);
    ReleaseAllReplay(keys, kb.depressed);
  }

  lemma ReleaseAllReplay(keys: seq<PhysicalKey>, held: set<PhysicalKey>)
    requires Sorted(keys) && forall k :: k in keys <==> k in held
    ensures Replay(Holding(held), UpsWhere(keys, false) + UpsWhere(keys, true)) == Holding({})
  {
    UpsWhereReplay(keys, false, held);
    var mods := set k | k in held && !(k in keys && IsModifier(k) == false);
    ReplayConcat(Holding(held), UpsWhere(keys, false), UpsWhere(keys, true));
    UpsWhereReplay(keys, true, mods);
    assert (set k | k in mods && !(k in keys && IsModifier(k) == true)) == {};
  }

  // ---- runs ----

  lemma StepKeeps(kb: Keyboard, op: Op)
    requires Inv(kb)
    ensures Inv(Step(kb, op).0)
    ensures Replay(Holding(kb.depressed), Step(kb, op).1) == Holding(Step(kb, op).0.depressed)
  {
    match op
    case PressOp(key, now) => if Press(kb, key, now).Done? { PressKeeps(kb, key, now); }
    case ReleaseOp(key, now) => ReleaseKeeps(kb, key, now);
    case ReleaseAllOp => ReleaseAllKeeps(kb);
  }

  /** The machine and the whole event stream after a run from a fresh machine. */
  ghost function Run(s: Settings, ops: seq<Op>): (Keyboard, seq<KeyEvent>)
    decreases |ops|
  {
    if ops == [] then (Idle(s), [])
    else
      var (kb, es) := Run(s, ops[..|ops| - 1]);
      var (next, more) := Step(kb, ops[|ops| - 1]);
      (next, es + more)
  }

  /** The keys the caller has pressed and not released since. */
  ghost function Pending(ops: seq<Op>): set<PhysicalKey>
    decreases |ops|
  {
    if ops == [] then {} else NowPending(Pending(ops[..|ops| - 1]), ops[|ops| - 1])
  }

  ghost function NowPending(pending: set<PhysicalKey>, op: Op): set<PhysicalKey> {
    match op
    case PressOp(key, _) => pending + {key}
    case ReleaseOp(key, _) => pending - {key}
    case ReleaseAllOp => {}
  }

  ghost predicate InjectedIn(s: Records, k: PhysicalKey) {
    exists i :: 0 <= i < |s| && k in s[i].1
  }

  /** Every held key is one the caller still owes a release for, or was injected for a held key. */
  ghost predicate Owned(kb: Keyboard, pending: set<PhysicalKey>) {
    forall k :: k in kb.depressed && k !in pending ==> InjectedIn(kb.injected, k)
  }

  lemma PressNormalOwned(kb: Keyboard, key: PhysicalKey, pending: set<PhysicalKey>)
    requires Inv(kb) && Owned(kb, pending)
    requires IsNormal(key) && key !in kb.depressed && |kb.depressed| < kb.settings.maxHeldKeys
    ensures Owned(PressNormal(kb, key).0, pending + {key})
  {
    var wanted := Engaged(kb) - HeldKinds(kb.depressed);
    var (held, mods) := Inject(KINDS, wanted, kb.depressed);
    InjectBound(kb, wanted);
    RecordCount(kb.injected, kb.depressed);
    var next := PressNormal(kb, key).0;
    assert mods != [] ==> next.injected == kb.injected + [(key, mods)];
    assert mods != [] ==> next.injected[|kb.injected|] == (key, mods);
    forall k | k in next.depressed && k !in pending + {key} ensures InjectedIn(next.injected, k) {
      if k in kb.depressed {
        var i :| 0 <= i < |kb.injected| && k in kb.injected[i].1;
        assert next.injected[i] == kb.injected[i];
      } else {
        assert k in mods;
      }
    }
  }

  lemma ReleaseNormalOwned(kb: Keyboard, key: PhysicalKey, pending: set<PhysicalKey>)
    requires Inv(kb) && Owned(kb, pending) && IsNormal(key) && key in kb.depressed
    ensures Owned(ReleaseNormal(kb, key).0, pending - {key})
  {
    var next := ReleaseNormal(kb, key).0;
    match Lookup(kb.injected, key) {
      case None =>
      case Some(mods) =>
        LetGoFacts(mods, kb.depressed - {key});
        var at := Find(kb.injected, key).value;
        forall k | k in next.depressed && k !in pending - {key} ensures InjectedIn(next.injected, k) {
          var i :| 0 <= i < |kb.injected| && k in kb.injected[i].1;
          assert i != at;
          assert next.injected[if i < at then i else i - 1] == kb.injected[i];
        }
    }
  }

  lemma StepOwned(kb: Keyboard, op: Op, pending: set<PhysicalKey>)
    requires Inv(kb) && Owned(kb, pending)
    ensures Owned(Step(kb, op).0, NowPending(pending, op))
  {
    match op
    case PressOp(key, now) =>
      if key !in kb.depressed && |kb.depressed| < kb.settings.maxHeldKeys && IsNormal(key) {
        PressNormalOwned(kb, key, pending);
      }
    case ReleaseOp(key, now) =>
      if key in kb.depressed && IsNormal(key) {
        ReleaseNormalOwned(kb, key, pending);
      }
    case ReleaseAllOp =>
  }

  lemma {:induction false} RunKeeps(s: Settings, ops: seq<Op>)
    requires Fits(s)
    ensures var (kb, es) := Run(s, ops);
            && kb.settings == s && Inv(kb) && Owned(kb, Pending(ops))
            && Replay(Holding({}), es) == Holding(kb.depressed)
    decreases |ops|
  {
    if ops != [] {
      var init, op := ops[..|ops| - 1], ops[|ops| - 1];
      RunKeeps(s, init);
      var (kb, es) := Run(s, init);
      StepKeeps(kb, op);
      StepOwned(kb, op, Pending(init));
      ReplayConcat(Holding({}), es, Step(kb, op).1);
    }
  }

  /** No stuck keys, for every run: the stream the sink sees is balanced and leaves it holding
      exactly the machine's held keys; and once the caller has released every key it pressed,
      nothing is down, no injected modifier included. */
  lemma NoStuckKeys(s: Settings, ops: seq<Op>)
    requires Fits(s)
    ensures Replay(Holding({}), Run(s, ops).1) == Holding(Run(s, ops).0.depressed)
    ensures Pending(ops) == {} ==> Run(s, ops).0.depressed == {}
    ensures |Run(s, ops).0.depressed| <= s.maxHeldKeys + Extra(s) <= CAPACITY
  {
    RunKeeps(s, ops);
    if Pending(ops) == {} {
      SettledIsEmpty(Run(s, ops).0);
    }
  }

  /** A key with an injection record was pressed by the caller and not released since. */
  lemma OwnersPending(kb: Keyboard, pending: set<PhysicalKey>)
    requires Inv(kb) && Owned(kb, pending)
    ensures forall i :: 0 <= i < |kb.injected| ==> kb.injected[i].0 in pending
  {
    forall i | 0 <= i < |kb.injected| ensures kb.injected[i].0 in pending {
      assert !InjectedIn(kb.injected, kb.injected[i].0);
    }
  }

  lemma SettledIsEmpty(kb: Keyboard)
    requires Inv(kb) && Owned(kb, {})
    ensures kb.depressed == {}
  {
    OwnersPending(kb, {});
  }
}
