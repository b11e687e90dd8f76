/** The keyboard state machine as the program runs it: fields and fixed arrays updated in place,
    proved to do exactly what the functions of `Keyboard` say. */
module KeyboardMachine {
  import opened Options
  import opened Keys
  import opened Slots
  import opened SortedKeys
  import opened Keyboard
  import Spec = Keyboard

  datatype PressResult = Events(events: seq<KeyEvent>) | RolloverError(limit: nat)

  class KeyboardState {
    const settings: Settings
    const depressed: KeySet
    var latched: set<ModifierKind>
    var locked: set<ModifierKind>
    var capsLock: bool
    var numLock: bool
    var activeLayer: Layer
    const injectedMods: SlotTable<seq<PhysicalKey>>
    const tapTrack: SlotTable<TapTrack>

    /** The objects that make up this state. */
    ghost function Repr(): set<object> {
      {this, depressed, depressed.slots, injectedMods, injectedMods.slots, tapTrack, tapTrack.slots}
    }

    ghost predicate Parts()
      reads this, Repr()
    {
      && depressed.slots as object !in {injectedMods.slots as object, tapTrack.slots}
      && injectedMods.slots as object != tapTrack.slots
      && injectedMods as object != tapTrack
      && depressed.Valid() && injectedMods.Valid() && tapTrack.Valid()
    }

    /** The active layer always reflects the modifiers in effect. */
    ghost predicate Valid()
      reads this, Repr()
    {
      Parts() && activeLayer == LayerOf(Effective(View()))
    }

    ghost function View(): Keyboard
      requires Parts()
      reads this, Repr()
    {
      Keyboard(settings, depressed.View(), latched, locked, capsLock, numLock, injectedMods.View(), tapTrack.View())
    }

    constructor (s: Settings)
      ensures Valid() && View() == Idle(s) && fresh(Repr())
    {
      settings := s;
      depressed := new KeySet();
      latched, locked := {}, {};
      capsLock, numLock := false, false;
      activeLayer := BaseLayer;
      injectedMods := new SlotTable();
      tapTrack := new SlotTable();
    }

    // ---- queries ----

    method HeldModifiers() returns (mods: set<ModifierKind>)
      requires Parts()
      ensures mods == HeldKinds(depressed.View())
    {
      var keys := new PhysicalKey[CAPACITY](_ => 0);
      var n := depressed.CopyInto(keys);
      mods := KindsIn(keys, n);
    }

    static method KindsIn(keys: array<PhysicalKey>, n: nat) returns (mods: set<ModifierKind>)
      requires keys.Length == CAPACITY && n <= CAPACITY
      ensures mods == HeldKinds(Elements(keys[..n]))
    {
      mods := {};
      EmptyListing();
      ghost var listing := keys[..n];
      var i := 0;
      while i < CAPACITY
        invariant 0 <= i <= CAPACITY
        invariant mods == HeldKinds(Elements(listing[..if i < n then i else n]))
      {
        if i < n {
          KindsStep(listing, i);
          if KindOf(keys[i]).Some? {
            mods := mods + {KindOf(keys[i]).value};
          }
        }
        i := i + 1;
      }
      assert listing[..n] == listing;
    }

    method EffectiveModifiers() returns (mods: set<ModifierKind>)
      requires Parts()
      ensures mods == Effective(View())
    {
      mods := HeldModifiers();
      mods := mods + latched;
      mods := mods + locked;
    }

    method UpdateLayer()
      requires Parts()
      modifies this`activeLayer
      ensures Valid() && View() == old(View())
    {
      var mods := EffectiveModifiers();
      activeLayer := LayerOf(mods);
    }

    /** Whether a key of another kind is held: pressing a modifier then is a chord. */
    method OthersHeld(kind: ModifierKind) returns (held: bool)
      requires Parts()
      ensures held <==> OtherHeld(depressed.View(), kind)
    {
      var keys := new PhysicalKey[CAPACITY](_ => 0);
      var n := depressed.CopyInto(keys);
      held := OthersIn(keys, n, kind);
    }

    static method OthersIn(keys: array<PhysicalKey>, n: nat, kind: ModifierKind) returns (held: bool)
      requires keys.Length == CAPACITY && n <= CAPACITY
      ensures held <==> OtherHeld(Elements(keys[..n]), kind)
    {
      held := false;
      ghost var listing := keys[..n];
      var i := 0;
      while i < CAPACITY
        invariant 0 <= i <= CAPACITY
        invariant held <==> exists j :: 0 <= j < n && j < i && IsOther(listing[j], kind)
      {
        if i < n {
          assert listing[i] == keys[i];
          if KindOf(keys[i]).Some? && KindOf(keys[i]).value != kind {
            held := true;
          }
        }
        i := i + 1;
      }
      assert forall j :: 0 <= j < n ==> listing[j] in Elements(listing);
    }

    // ---- press ----

    method Press(key: PhysicalKey, now: Moment) returns (r: PressResult)
      requires Valid()
      modifies Repr()
      ensures Valid()
      ensures match Spec.Press(old(View()), key, now)
              case Done(next, events) => r == Events(events) && View() == next
              case Rollover(limit) => r == RolloverError(limit) && View() == old(View())
    {
      var down := depressed.Contains(key);
      if down {
        return Events([]);
      }
      hide Spec.PressNormal, Spec.PressModifier, Effective, LayerOf;
      depressed.Size();
      if depressed.len >= settings.maxHeldKeys {
        return RolloverError(settings.maxHeldKeys);
      }
      if KindOf(key).Some? {
        PressModifierKey(key, now);
        r := Events([Down(key)]);
      } else if IsLock(key) {
        PressLockKey(key);
        r := Events([Down(key)]);
      } else {
        var events := PressNormalKey(key);
        r := Events(events);
      }
      UpdateLayer();
    }

    method PressModifierKey(key: PhysicalKey, now: Moment)
      requires Parts() && IsModifier(key)
      modifies Repr()
      ensures Parts() && View() == PressModifier(old(View()), key, now)
    {
      hide OtherHeld, Append;
      var chord := OthersHeld(KindOf(key).value);
      depressed.Insert(key);
      tapTrack.Push(key, TapTrack(now, chord));
    }

    method PressLockKey(key: PhysicalKey)
      requires Parts()
      modifies Repr()
      ensures Parts() && View() == old(View()).(depressed := Grow(old(View()).depressed, key))
    {
      depressed.Insert(key);
    }

    method PressNormalKey(key: PhysicalKey) returns (events: seq<KeyEvent>)
      requires Parts()
      modifies Repr()
      ensures Parts() && (View(), events) == PressNormal(old(View()), key)
    {
      var heldMods := HeldModifiers();
      hide Inject, HeldKinds, Engaged, Grow, Interleaved, Append;
      var injected := InjectKeys(heldMods);
      PutDown(key, injected);
      events := Downs(injected) + [Down(key)];
    }

    /** Note what was injected for the key, hold it, spend the latch. */
    method PutDown(key: PhysicalKey, injected: seq<PhysicalKey>)
      requires Parts()
      modifies Repr()
      ensures Parts()
      ensures var was := old(View());
              View() == was.(depressed := Grow(was.depressed, key), latched := {}, taps := Interleaved(was.taps),
                             injected := if injected == [] then was.injected else Append(was.injected, (key, injected)))
    {
      if |injected| > 0 {
        injectedMods.Push(key, injected);
      }
      depressed.Insert(key);
      latched := {};
      MarkInterleaved();
    }

    /** Put down the keys of the latched and locked kinds that are not held; the Caps Lock mirror is no source. */
    method InjectKeys(heldMods: set<ModifierKind>) returns (injected: seq<PhysicalKey>)
      requires Parts()
      modifies depressed, depressed.slots
      ensures Parts()
      ensures View() == old(View()).(depressed := depressed.View())
      ensures (depressed.View(), injected) == Inject(KINDS, Engaged(old(View())) - heldMods, old(depressed.View()))
    {
      injected := [];
      ghost var wanted := Engaged(View()) - heldMods;
      ghost var goal := Inject(KINDS, wanted, depressed.View());
      InjectStart(KINDS, wanted, depressed.View());
      hide InjectRest, Inject, Preferred, Grow;
      for i := 0 to |KINDS|
        modifies depressed, depressed.slots
        invariant Parts() && View() == old(View()).(depressed := depressed.View())
        invariant InjectRest(goal, KINDS, i, wanted, depressed.View(), injected)
      {
        ghost var held := depressed.View();
        var put := InjectKind(KINDS[i], heldMods);
        InjectStep(goal, KINDS, i, wanted, held, injected, put, depressed.View());
        injected := injected + put;
      }
      InjectEnd(goal, KINDS, wanted, depressed.View(), injected);
    }

    method InjectKind(kind: ModifierKind, heldMods: set<ModifierKind>) returns (put: seq<PhysicalKey>)
      requires Parts()
      modifies depressed, depressed.slots
      ensures Parts() && View() == old(View()).(depressed := depressed.View())
      ensures if kind in Engaged(old(View())) - heldMods && Preferred(kind) !in old(depressed.View())
              then put == [Preferred(kind)] && depressed.View() == Grow(old(depressed.View()), Preferred(kind))
              else put == [] && depressed.View() == old(depressed.View())
    {
      put := [];
      var latchedOrLocked := kind in latched || (kind != Shift && kind in locked);
      if latchedOrLocked && kind !in heldMods {
        var phys := Preferred(kind);
        var down := depressed.Contains(phys);
        if !down {
          depressed.Insert(phys);
          put := [phys];
        }
      }
    }

    /** Every tap track now saw another key. */
    method MarkInterleaved()
      requires Parts()
      modifies tapTrack.slots
      ensures Parts() && View() == old(View()).(taps := Interleaved(old(View()).taps))
    {
      ghost var before := tapTrack.View();
      ghost var s := tapTrack.slots[..];
      var slots := tapTrack.slots;
      var i := 0;
      while i < CAPACITY
        modifies tapTrack.slots
        invariant 0 <= i <= CAPACITY
        invariant forall j :: i <= j < CAPACITY ==> slots[j] == s[j]
        invariant forall j :: 0 <= j < i ==> slots[j].Some? == s[j].Some?
        invariant forall j :: 0 <= j < i && s[j].Some? ==>
                    slots[j].value == (s[j].value.0, s[j].value.1.(interleaved := true))
      {
        if slots[i].Some? {
          slots[i] := Some((slots[i].value.0, slots[i].value.1.(interleaved := true)));
        }
        i := i + 1;
      }
      assert tapTrack.View() == Interleaved(before);
    }

    // ---- release ----

    method Release(key: PhysicalKey, now: Moment) returns (events: seq<KeyEvent>)
      requires Valid()
      modifies Repr()
      ensures Valid() && (View(), events) == Spec.Release(old(View()), key, now)
    {
      var down := depressed.Contains(key);
      if !down {
        return [];
      }
      if KindOf(key).Some? {
        ReleaseModifierKey(key, now);
        events := [Up(key)];
      } else if IsLock(key) {
        ReleaseLockKey(key);
        events := [Up(key)];
      } else {
        events := ReleaseNormalKey(key);
      }
      UpdateLayer();
    }

    method ReleaseModifierKey(key: PhysicalKey, now: Moment)
      requires Parts() && IsModifier(key)
      modifies Repr()
      ensures Parts() && View() == ReleaseModifier(old(View()), key, now)
    {
      var track := tapTrack.Remove(key);
      var was := depressed.Remove(key);
      var isTap := track.Some? && !track.value.interleaved && Since(now, track.value.downAt) < settings.tapTimeout;
      if isTap && settings.latchEnabled {
        var kind := KindOf(key).value;
        var active := kind in latched || (kind != Shift && kind in locked);
        if active {
          latched := latched - {kind};
          if kind != Shift {
            locked := locked - {kind};
          }
        } else {
          latched := latched + {kind};
        }
      }
    }

    method ReleaseLockKey(key: PhysicalKey)
      requires Parts()
      modifies this, depressed, depressed.slots
      ensures Parts() && View() == ReleaseLock(old(View()), key)
    {
      var was := depressed.Remove(key);
      if key == CAPS_LOCK {
        capsLock := !capsLock;
        if capsLock {
          locked := locked + {Shift};
        } else {
          locked := locked - {Shift};
        }
      } else if key == NUM_LOCK {
        numLock := !numLock;
      }
    }

    method ReleaseNormalKey(key: PhysicalKey) returns (events: seq<KeyEvent>)
      requires Parts()
      modifies Repr()
      ensures Parts() && (View(), events) == ReleaseNormal(old(View()), key)
    {
      events := [Up(key)];
      var was := depressed.Remove(key);
      var injected := injectedMods.Remove(key);
      if injected.Some? {
        var ups := LetGoKeys(injected.value);
        events := events + ups;
      }
    }

    method LetGoKeys(mods: seq<PhysicalKey>) returns (events: seq<KeyEvent>)
      requires Parts()
      modifies depressed, depressed.slots
      ensures Parts() && View() == old(View()).(depressed := depressed.View())
      ensures (depressed.View(), events) == LetGo(mods, old(depressed.View()))
    {
      events := [];
      ghost var goal := LetGo(mods, depressed.View());
      assert mods[0..] == mods && [] + goal.1 == goal.1;
      for i := 0 to |mods|
        modifies depressed, depressed.slots
        invariant Parts() && View() == old(View()).(depressed := depressed.View())
        invariant var (h, es) := LetGo(mods[i..], depressed.View()); goal == (h, events + es)
      {
        LetGoStep(mods, i, depressed.View(), events);
        hide LetGo;
        var was := depressed.Remove(mods[i]);
        if was {
          events := events + [Up(mods[i])];
        }
      }
      assert events + [] == events;
    }

    static lemma LetGoStep(mods: seq<PhysicalKey>, i: nat, held: set<PhysicalKey>, events: seq<KeyEvent>)
      requires i < |mods|
      ensures var (h, es) := LetGo(mods[i..], held);
              var (h', es') := LetGo(mods[i + 1..], held - {mods[i]});
              h == h' && events + es == (if mods[i] in held then events + [Up(mods[i])] else events) + es'
    {
      assert mods[i..][1..] == mods[i + 1..];
      var rest := LetGo(mods[i + 1..], held - {mods[i]});
      assert events + ([Up(mods[i])] + rest.1) == events + [Up(mods[i])] + rest.1;
      hide LetGo;
    }

    // ---- release all ----

    method ReleaseAll() returns (events: seq<KeyEvent>)
      requires Valid()
      modifies Repr()
      ensures Valid() && (View(), events) == Spec.ReleaseAll(old(View()))
    {
      var keys := new PhysicalKey[CAPACITY](_ => 0);
      var n := depressed.CopyInto(keys);
      var others := UpsOf(keys, n, false);
      var mods := UpsOf(keys, n, true);
      events := others + mods;
      ForgetHeld();
      UpdateLayer();
    }

    method ForgetHeld()
      requires Parts()
      modifies Repr()
      ensures Parts()
      ensures View() == old(View()).(depressed := {}, injected := [], taps := [], latched := {})
    {
      depressed.Clear();
      injectedMods.Clear();
      tapTrack.Clear();
      latched := {};
    }

    /** One backward pass over the copied keys. */
    static method UpsOf(keys: array<PhysicalKey>, n: nat, modifiers: bool) returns (events: seq<KeyEvent>)
      requires keys.Length == CAPACITY && n <= CAPACITY
      ensures events == UpsWhere(keys[..n], modifiers)
    {
      events := [];
      ghost var listing := keys[..n];
      ghost var goal := UpsWhere(listing, modifiers);
      UpsStart(listing, modifiers);
      hide UpsRest, UpsWhere;
      var i := 0;
      while i < CAPACITY
        invariant 0 <= i <= CAPACITY
        invariant UpsRest(goal, listing, if CAPACITY - i < n then CAPACITY - i else n, modifiers, events)
      {
        var idx := CAPACITY - 1 - i;
        if idx < n {
          UpsStep(goal, listing, idx, modifiers, events);
          if KindOf(keys[idx]).Some? == modifiers {
            events := events + [Up(keys[idx])];
          }
        }
        i := i + 1;
      }
      UpsEnd(goal, listing, modifiers, events);
    }
  }

  /** What a backward pass still has to add once it is down to the first `top` keys. */
  ghost predicate UpsRest(goal: seq<KeyEvent>, keys: seq<PhysicalKey>, top: nat, modifiers: bool, done: seq<KeyEvent>) {
    top <= |keys| && goal == done + UpsWhere(keys[..top], modifiers)
  }

  lemma UpsStart(keys: seq<PhysicalKey>, modifiers: bool)
    ensures UpsRest(UpsWhere(keys, modifiers), keys, |keys|, modifiers, [])
  {
    assert keys[..|keys|] == keys;
    assert [] + UpsWhere(keys, modifiers) == UpsWhere(keys, modifiers);
  }

  lemma UpsStep(goal: seq<KeyEvent>, keys: seq<PhysicalKey>, idx: nat, modifiers: bool, done: seq<KeyEvent>)
    requires idx < |keys| && UpsRest(goal, keys, idx + 1, modifiers, done)
    ensures UpsRest(goal, keys, idx, modifiers, if IsModifier(keys[idx]) == modifiers then done + [Up(keys[idx])] else done)
  {
    UpsWhereStep(keys, idx, modifiers);
    hide UpsWhere;
    var rest := UpsWhere(keys[..idx], modifiers);
    assert done + ([Up(keys[idx])] + rest) == done + [Up(keys[idx])] + rest;
    assert [] + rest == rest;
  }

  lemma UpsEnd(goal: seq<KeyEvent>, keys: seq<PhysicalKey>, modifiers: bool, done: seq<KeyEvent>)
    requires UpsRest(goal, keys, 0, modifiers, done)
    ensures goal == done
  {
    assert done + [] == done;
  }

  lemma HeldKindsAdd(keys: set<PhysicalKey>, k: PhysicalKey)
    ensures HeldKinds(keys + {k}) == HeldKinds(keys) + (if IsModifier(k) then {KindOf(k).value} else {})
  {
  }

  /** What is left of an injection once its first `i` kinds are done. */
  ghost predicate InjectRest(goal: (set<PhysicalKey>, seq<PhysicalKey>), kinds: seq<ModifierKind>, i: nat,
                             wanted: set<ModifierKind>, held: set<PhysicalKey>, done: seq<PhysicalKey>)
  {
    i <= |kinds| && var (h, ps) := Inject(kinds[i..], wanted, held); goal == (h, done + ps)
  }

  lemma InjectStart(kinds: seq<ModifierKind>, wanted: set<ModifierKind>, held: set<PhysicalKey>)
    ensures InjectRest(Inject(kinds, wanted, held), kinds, 0, wanted, held, [])
  {
    assert kinds[0..] == kinds;
    assert [] + Inject(kinds, wanted, held).1 == Inject(kinds, wanted, held).1;
  }

  lemma InjectStep(goal: (set<PhysicalKey>, seq<PhysicalKey>), kinds: seq<ModifierKind>, i: nat,
                   wanted: set<ModifierKind>, held: set<PhysicalKey>, done: seq<PhysicalKey>,
                   put: seq<PhysicalKey>, held': set<PhysicalKey>)
    requires i < |kinds| && InjectRest(goal, kinds, i, wanted, held, done)
    requires if kinds[i] in wanted && Preferred(kinds[i]) !in held
             then put == [Preferred(kinds[i])] && held' == Grow(held, Preferred(kinds[i]))
             else put == [] && held' == held
    ensures InjectRest(goal, kinds, i + 1, wanted, held', done + put)
  {
    assert kinds[i..][1..] == kinds[i + 1..];
    var rest := Inject(kinds[i + 1..], wanted, held').1;
    assert done + (put + rest) == done + put + rest;
    assert put == [] ==> put + rest == rest;
  }

  lemma InjectEnd(goal: (set<PhysicalKey>, seq<PhysicalKey>), kinds: seq<ModifierKind>,
                  wanted: set<ModifierKind>, held: set<PhysicalKey>, done: seq<PhysicalKey>)
    requires InjectRest(goal, kinds, |kinds|, wanted, held, done)
    ensures goal == (held, done)
  {
    assert done + [] == done;
  }

  lemma UpsWhereStep(keys: seq<PhysicalKey>, idx: nat, modifiers: bool)
    requires idx < |keys|
    ensures UpsWhere(keys[..idx + 1], modifiers)
         == (if IsModifier(keys[idx]) == modifiers then [Up(keys[idx])] else []) + UpsWhere(keys[..idx], modifiers)
  {
    assert keys[..idx + 1][..idx] == keys[..idx];
  }

  lemma KindsStep(keys: seq<PhysicalKey>, i: nat)
    requires i < |keys|
    ensures HeldKinds(Elements(keys[..i + 1]))
         == HeldKinds(Elements(keys[..i])) + (if IsModifier(keys[i]) then {KindOf(keys[i]).value} else {})
  {
    assert keys[..i + 1] == keys[..i] + [keys[i]];
    ElementsAppend(keys[..i], keys[i]);
    HeldKindsAdd(Elements(keys[..i]), keys[i]);
  }
}
