/** Text mode: each character becomes a chord of key actions. Read back with the same layout, the
    events spell the text, and the engine is at rest again afterwards. */
module Typing {
  import opened Options
  import opened Keys
  import opened Slots
  import opened SortedKeys
  import opened Keyboard
  import opened Sinks
  import opened KeyboardRuns
  import opened Layouts
  import opened Repeats
  import opened Drivers
  import opened DriverRuns

  datatype TextError = Unmappable(c: char) | Backend(limit: nat)

  datatype Typed = Typed(next: Driver, events: seq<KeyEvent>, error: Option<TextError>)

  type Step = (Action, PhysicalKey)

  type Resolver = char -> Option<(PhysicalKey, set<ModifierKind>)>

  /** Run the actions in order, stopping at the first refusal. */
  ghost function RunActions(d: Driver, steps: seq<Step>, now: Moment): Typed
    decreases |steps|
  {
    if steps == [] then Typed(d, [], None)
    else
      match Handle(d, steps[0].0, steps[0].1, now)
      case Refused(next, limit) => Typed(next, [], Some(Backend(limit)))
      case Sent(next, events) =>
        var t := RunActions(next, steps[1..], now);
        t.(events := events + t.events)
  }

  /** The kinds of a set, lowest bit first. */
  function InOrder(kinds: seq<ModifierKind>, mods: set<ModifierKind>): (r: seq<ModifierKind>)
    ensures forall k :: k in r <==> k in kinds && k in mods
  {
    if kinds == [] then []
    else if kinds[0] in mods then [kinds[0]] + InOrder(kinds[1..], mods)
    else InOrder(kinds[1..], mods)
  }

  /** Modifiers down in order, tap the key, modifiers up in reverse order. */
  function Chord(kinds: seq<ModifierKind>, key: PhysicalKey): seq<Step> {
    if kinds == [] then [(TapAction, key)]
    else
      var p := Preferred(kinds[0]);
      [(DownAction, p)] + Chord(kinds[1..], key) + [(UpAction, p)]
  }

  ghost function TypeChar(d: Driver, c: char, resolve: Resolver, now: Moment): Typed {
    match resolve(c)
    case None => Typed(d, [], Some(Unmappable(c)))
    case Some((key, extra)) => RunActions(d, Chord(InOrder(KINDS, extra), key), now)
  }

  /** Type the characters in order, stopping at the first error. */
  ghost function TypeText(d: Driver, text: string, resolve: Resolver, now: Moment): Typed
    decreases |text|
  {
    if text == [] then Typed(d, [], None)
    else
      var t := TypeChar(d, text[0], resolve, now);
      if t.error.Some? then t
      else
        var rest := TypeText(t.next, text[1..], resolve, now);
        rest.(events := t.events + rest.events)
  }

  // ---- reading events back ----

  /** What a consumer with this layout reads: a press gives the key's symbol under the held modifiers. */
  ghost function Read(layout: Layout, held: set<PhysicalKey>, events: seq<KeyEvent>): string
    decreases |events|
  {
    if events == [] then []
    else
      match events[0]
      case Down(k) => SymbolText(layout, k, HeldKinds(held)) + Read(layout, held + {k}, events[1..])
      case Repeat(k) => SymbolText(layout, k, HeldKinds(held)) + Read(layout, held, events[1..])
      case Up(k) => Read(layout, held - {k}, events[1..])
  }

  function SymbolText(layout: Layout, k: PhysicalKey, mods: set<ModifierKind>): string {
    if k in layout.keys && SymbolFor(layout.keys[k], mods).Char? then [SymbolFor(layout.keys[k], mods).c] else []
  }

  /** Characters sit on normal keys only. */
  ghost predicate CharsOnNormalKeys(layout: Layout) {
    forall k, mods: set<ModifierKind> :: k in layout.keys && !IsNormal(k) ==> SymbolText(layout, k, mods) == []
  }

  lemma {:induction false} ReadConcat(layout: Layout, held: set<PhysicalKey>, a: seq<KeyEvent>, b: seq<KeyEvent>)
    requires Replay(Holding(held), a).Holding?
    ensures Read(layout, held, a + b) == Read(layout, held, a) + Read(layout, Replay(Holding(held), a).keys, b)
    decreases |a|
  {
    if a == [] {
      assert a + b == b;
    } else {
      assert (a + b)[1..] == a[1..] + b;
      var s := Feed(Holding(held), a[0]);
      BrokenStays(a[1..]);
      ReadConcat(layout, s.keys, a[1..], b);
    }
  }

  lemma {:induction false} BrokenStays(es: seq<KeyEvent>)
    ensures Replay(Broken, es) == Broken
    decreases |es|
  {
    if es != [] { BrokenStays(es[1..]); }
  }

  /** Events about modifiers, and releases of any key, spell nothing. */
  ghost predicate Silent(e: KeyEvent) {
    e.Up? || !IsNormal(e.key)
  }

  lemma {:induction false} ReadSilent(layout: Layout, held: set<PhysicalKey>, es: seq<KeyEvent>)
    requires CharsOnNormalKeys(layout) && forall e :: e in es ==> Silent(e)
    ensures Read(layout, held, es) == []
    decreases |es|
  {
    if es != [] {
      assert Silent(es[0]);
      var next := match es[0] case Down(k) => held + {k} case Repeat(k) => held case Up(k) => held - {k};
      ReadSilent(layout, next, es[1..]);
      assert es[0].key !in layout.keys ==> SymbolText(layout, es[0].key, HeldKinds(held)) == [];
    }
  }

  // ---- one tap while modifiers are held ----

  /** Only modifiers are down, nothing is locked, nothing was injected. So the held-key array has room for a
      chord, the latched kinds and the key, whatever the rollover cap. */
  ghost predicate Chorded(kb: Keyboard) {
    && kb.locked == {} && kb.injected == []
    && forall k :: k in kb.depressed ==> IsModifier(k)
  }

  ghost predicate AllInterleaved(kb: Keyboard) {
    forall i :: 0 <= i < |kb.taps| ==> kb.taps[i].1.interleaved
  }

  lemma {:induction false} LetGoEvents(mods: seq<PhysicalKey>, held: set<PhysicalKey>)
    ensures forall e :: e in LetGo(mods, held).1 ==> Silent(e)
  {
    if mods != [] { LetGoEvents(mods[1..], held - {mods[0]}); }
  }

  lemma DownsSilent(ps: seq<PhysicalKey>)
    requires forall p :: p in ps ==> IsModifier(p)
    ensures forall e :: e in Downs(ps) ==> Silent(e)
  {
  }

  /** The keys an injection puts down give the held set exactly the wanted kinds. */
  lemma {:induction false} InjectKinds(kinds: seq<ModifierKind>, wanted: set<ModifierKind>, held: set<PhysicalKey>)
    requires |held| + |kinds| <= CAPACITY
    ensures HeldKinds(Inject(kinds, wanted, held).0)
         <= HeldKinds(held) + wanted
    ensures forall k :: k in kinds && k in wanted ==> k in HeldKinds(Inject(kinds, wanted, held).0)
  {
    InjectFacts(kinds, wanted, held);
    if kinds != [] {
      var p := Preferred(kinds[0]);
      if kinds[0] in wanted && p !in held {
        InjectFacts(kinds[1..], wanted, held + {p});
        InjectKinds(kinds[1..], wanted, held + {p});
        HeldAdd(held, p);
        var h := Inject(kinds, wanted, held).0;
        assert p in h;
        assert KindOf(p).value in HeldKinds(h);
      } else {
        InjectKinds(kinds[1..], wanted, held);
        var h := Inject(kinds, wanted, held).0;
        assert kinds[0] in wanted ==> p in h && KindOf(p).value in HeldKinds(h);
      }
    }
  }

  lemma HeldAdd(held: set<PhysicalKey>, p: PhysicalKey)
    ensures HeldKinds(held + {p}) == HeldKinds(held) + (if IsModifier(p) then {KindOf(p).value} else {})
  {
  }

  lemma HeldMono(a: set<PhysicalKey>, b: set<PhysicalKey>)
    requires a <= b
    ensures HeldKinds(a) <= HeldKinds(b)
  {
  }

  lemma EveryKind(k: ModifierKind)
    ensures k in KINDS
  {
    assert KINDS[0] == Shift && KINDS[1] == Ctrl && KINDS[2] == Alt;
    assert KINDS[3] == AltGr && KINDS[4] == Meta && KINDS[5] == Fn;
  }

  lemma InjectKindsExact(kb: Keyboard)
    requires Chorded(kb) && |kb.depressed| < kb.settings.maxHeldKeys
    ensures var h := Inject(KINDS, Engaged(kb) - HeldKinds(kb.depressed), kb.depressed).0;
            HeldKinds(h) == HeldKinds(kb.depressed) + kb.latched
  {
    var wanted := Engaged(kb) - HeldKinds(kb.depressed);
    var h := Inject(KINDS, wanted, kb.depressed).0;
    ModifiersFew(kb.depressed);
    InjectFacts(KINDS, wanted, kb.depressed);
    assert wanted == kb.latched - HeldKinds(kb.depressed);
    InjectKinds(KINDS, wanted, kb.depressed);
    HeldMono(kb.depressed, h);
    forall k: ModifierKind ensures k in KINDS { EveryKind(k); }
  }

  /** Pressing and releasing a normal key while only modifiers are down: the held set comes back,
      the latch is spent, every modifier saw the key, and the events spell its symbol. */
  lemma TapSpells(kb: Keyboard, key: PhysicalKey, now: Moment, layout: Layout, out: string)
    requires Chorded(kb) && IsNormal(key) && |kb.depressed| < kb.settings.maxHeldKeys
    requires CharsOnNormalKeys(layout) && out == SymbolText(layout, key, HeldKinds(kb.depressed) + kb.latched)
    ensures var (down, downs) := PressNormal(kb, key);
            var (up, ups) := Release(down, key, now);
            && Press(kb, key, now) == Done(down, downs)
            && up == kb.(latched := {}, taps := Interleaved(kb.taps))
            && Replay(Holding(kb.depressed), downs + ups) == Holding(kb.depressed)
            && Read(layout, kb.depressed, downs + ups) == out
  {
    var wanted := Engaged(kb) - HeldKinds(kb.depressed);
    var (h, ps) := Inject(KINDS, wanted, kb.depressed);
    ModifiersFew(kb.depressed);
    InjectFacts(KINDS, wanted, kb.depressed);
    InjectKindsExact(kb);
    var (down, downs) := PressNormal(kb, key);
    TapDownUp(kb, key, h, ps, now);
    ReplayConcat(Holding(kb.depressed), Downs(ps), [Down(key)]);
    ReplayFirst(Holding(h), Down(key), []);
    var (up, ups) := Release(down, key, now);
    ReleaseBalanced(down, key, now);
    ReplayConcat(Holding(kb.depressed), downs, ups);
    DownsSilent(ps);
    ReadDowns(layout, kb.depressed, h, ps, key, out);
    hide Press, PressNormal, Release, Inject, Replay, HeldKinds;
    ReadConcat(layout, kb.depressed, downs, ups);
    ReadSilent(layout, down.depressed, ups);
  }

  lemma ReadDowns(layout: Layout, held: set<PhysicalKey>, h: set<PhysicalKey>, ps: seq<PhysicalKey>, key: PhysicalKey, out: string)
    requires CharsOnNormalKeys(layout) && IsNormal(key) && out == SymbolText(layout, key, HeldKinds(h))
    requires Replay(Holding(held), Downs(ps)) == Holding(h) && forall p :: p in ps ==> IsModifier(p)
    ensures Read(layout, held, Downs(ps) + [Down(key)]) == out
  {
    DownsSilent(ps);
    ReadSilent(layout, held, Downs(ps));
    ReadConcat(layout, held, Downs(ps), [Down(key)]);
    assert Read(layout, h, [Down(key)]) == out + Read(layout, h + {key}, []);
    assert out + [] == out;
  }

  lemma TapDownUp(kb: Keyboard, key: PhysicalKey, h: set<PhysicalKey>, ps: seq<PhysicalKey>, now: Moment)
    requires Chorded(kb) && IsNormal(key) && |kb.depressed| < kb.settings.maxHeldKeys
    requires (h, ps) == Inject(KINDS, Engaged(kb) - HeldKinds(kb.depressed), kb.depressed)
    ensures var (down, downs) := PressNormal(kb, key);
            var (up, ups) := Release(down, key, now);
            && downs == Downs(ps) + [Down(key)] && down.depressed == h + {key} && key !in h
            && up == kb.(latched := {}, taps := Interleaved(kb.taps))
            && forall e :: e in ups ==> Silent(e)
  {
    ModifiersFew(kb.depressed);
    InjectFacts(KINDS, Engaged(kb) - HeldKinds(kb.depressed), kb.depressed);
    InjectNew(KINDS, Engaged(kb) - HeldKinds(kb.depressed), kb.depressed);
    var down := PressNormal(kb, key).0;
    assert down.depressed == h + {key} && key !in h;
    assert down.depressed - {key} == h;
    if ps == [] {
      assert Find(down.injected, key) == None;
      assert h == kb.depressed;
    } else {
      assert down.injected == [(key, ps)];
      assert Lookup(down.injected, key) == Some(ps) && Without(down.injected, key) == [];
      LetGoFacts(ps, h);
      LetGoEvents(ps, h);
      assert h - Elements(ps) == kb.depressed;
    }
  }

  lemma {:induction false} InjectNew(kinds: seq<ModifierKind>, wanted: set<ModifierKind>, held: set<PhysicalKey>)
    ensures forall p :: p in Inject(kinds, wanted, held).1 ==> p !in held
  {
    if kinds != [] {
      var p := Preferred(kinds[0]);
      if kinds[0] in wanted && p !in held && |held| < CAPACITY {
        InjectNew(kinds[1..], wanted, held + {p});
      } else {
        InjectNew(kinds[1..], wanted, held);
      }
    }
  }

  // ---- chords ----

  lemma {:induction false} RunActionsConcat(d: Driver, a: seq<Step>, b: seq<Step>, now: Moment)
    ensures var t := RunActions(d, a, now);
            RunActions(d, a + b, now)
            == if t.error.Some? then t
               else var u := RunActions(t.next, b, now); u.(events := t.events + u.events)
    decreases |a|
  {
    hide Handle;
    if a == [] {
      assert a + b == b;
      var u := RunActions(d, b, now);
      assert [] + u.events == u.events;
    } else {
      assert (a + b)[1..] == a[1..] + b;
      var o := Handle(d, a[0].0, a[0].1, now);
      if o.Sent? {
        RunActionsConcat(o.next, a[1..], b, now);
        var t := RunActions(o.next, a[1..], now);
        var u := RunActions(t.next, b, now);
        assert o.events + (t.events + u.events) == o.events + t.events + u.events;
      }
    }
  }

  lemma RunOne(d: Driver, step: Step, now: Moment)
    ensures RunActions(d, [step], now)
         == match Handle(d, step.0, step.1, now)
            case Refused(next, limit) => Typed(next, [], Some(Backend(limit)))
            case Sent(next, events) => Typed(next, events, None)
  {
    hide Handle;
    var o := Handle(d, step.0, step.1, now);
    if o.Sent? {
      assert RunActions(o.next, [], now) == Typed(o.next, [], None);
      assert o.events + [] == o.events;
    }
  }

  /** Between two keys of a chord: only modifiers down, and the repeat table tracks only held keys. */
  ghost predicate Between(d: Driver) {
    Chorded(d.kb) && TracksDown(d.repeats, d.kb.depressed)
  }

  lemma TrackedDown(tracks: Tracks, rs: RepeatSettings, key: PhysicalKey, now: Moment, rep: bool, held: set<PhysicalKey>)
    requires TracksDown(tracks, held)
    ensures TracksDown(Track(rs, tracks, key, now, rep), held + {key})
  {
    WithoutFacts(tracks, key, held);
    var rest := Without(tracks, key);
    hide Without;
    var added := (key, RepeatState(FirstAt(rs, now), false));
    var t := rest + [added];
    assert forall i :: 0 <= i < |t| ==> t[i] == if i < |rest| then rest[i] else added;
  }

  lemma ModifierDown(d: Driver, p: PhysicalKey, now: Moment)
    requires Between(d) && IsModifier(p) && p !in d.kb.depressed && |d.kb.depressed| < d.kb.settings.maxHeldKeys
    ensures var o := Handle(d, DownAction, p, now);
            && o.Sent? && o.events == [Down(p)] && Between(o.next) && o.next.(kb := d.kb, repeats := d.repeats) == d
            && o.next.kb == d.kb.(depressed := d.kb.depressed + {p}, taps := o.next.kb.taps)
  {
    ModifiersFew(d.kb.depressed);
    TrackedDown(d.repeats, d.rs, p, now, IsRepeatable(d.layout, p), d.kb.depressed);
    hide Track, IsRepeatable, TracksDown, OtherHeld;
  }

  lemma ModifierUp(d: Driver, p: PhysicalKey, now: Moment)
    requires Between(d) && IsModifier(p) && p in d.kb.depressed && AllInterleaved(d.kb)
    ensures var o := Handle(d, UpAction, p, now);
            && o.Sent? && o.events == [Up(p)] && Between(o.next) && o.next.(kb := d.kb, repeats := d.repeats) == d
            && o.next.kb == d.kb.(depressed := d.kb.depressed - {p}, taps := o.next.kb.taps)
            && AllInterleaved(o.next.kb)
  {
    WithoutFacts(d.repeats, p, d.kb.depressed);
    InterleavedWithout(d.kb, p);
    assert !IsTap(d.kb, p, now);
    hide Without, TracksDown, AllInterleaved, IsTap;
  }

  lemma InterleavedWithout(kb: Keyboard, p: PhysicalKey)
    requires AllInterleaved(kb)
    ensures AllInterleaved(kb.(taps := Without(kb.taps, p)))
  {
  }

  lemma TapBetween(d: Driver, key: PhysicalKey, now: Moment, layout: Layout, out: string)
    requires Between(d) && IsNormal(key) && |d.kb.depressed| < d.kb.settings.maxHeldKeys
    requires CharsOnNormalKeys(layout) && out == SymbolText(layout, key, HeldKinds(d.kb.depressed) + d.kb.latched)
    ensures var o := Handle(d, TapAction, key, now);
            && o.Sent? && Between(o.next) && AllInterleaved(o.next.kb)
            && o.next.(kb := d.kb, repeats := d.repeats) == d
            && o.next.kb == d.kb.(latched := {}, taps := o.next.kb.taps)
            && Replay(Holding(d.kb.depressed), o.events) == Holding(d.kb.depressed)
            && Read(layout, d.kb.depressed, o.events) == out
  {
    TapSpells(d.kb, key, After(now, TAP_GRACE), layout, out);
    WithoutFacts(d.repeats, key, d.kb.depressed);
    PressIgnoresTime(d.kb, key, now, After(now, TAP_GRACE));
    hide Press, PressNormal, Release, Without, TracksDown, Replay, Read;
    TracksShrink(Without(d.repeats, key), d.kb.depressed - {key}, d.kb.depressed);
  }

  lemma PressIgnoresTime(kb: Keyboard, key: PhysicalKey, a: Moment, b: Moment)
    requires !IsModifier(key)
    ensures Press(kb, key, a) == Press(kb, key, b)
  {
    hide PressNormal;
  }

  lemma TracksShrink(tracks: Tracks, a: set<PhysicalKey>, b: set<PhysicalKey>)
    requires TracksDown(tracks, a) && a <= b
    ensures TracksDown(tracks, b)
  {
  }

  /** The actions spelled `out`, put every key back and spent the latch; nothing else changed. */
  ghost predicate Spelled(d: Driver, t: Typed, layout: Layout, out: string) {
    && t.error == None && Between(t.next) && AllInterleaved(t.next.kb)
    && t.next.(kb := d.kb, repeats := d.repeats) == d
    && t.next.kb == d.kb.(latched := {}, taps := t.next.kb.taps)
    && Replay(Holding(d.kb.depressed), t.events) == Holding(d.kb.depressed)
    && Read(layout, d.kb.depressed, t.events) == out
  }

  /** A chord that fits the rollover cap spells its character and puts everything back; the latch is spent. */
  lemma {:induction false} ChordSpells(d: Driver, kinds: seq<ModifierKind>, key: PhysicalKey, now: Moment, layout: Layout, out: string)
    requires Between(d) && IsNormal(key) && |d.kb.depressed| + |kinds| < d.kb.settings.maxHeldKeys
    requires Distinct(kinds) && forall k :: k in kinds ==> Preferred(k) !in d.kb.depressed
    requires CharsOnNormalKeys(layout)
    requires out == SymbolText(layout, key, HeldKinds(d.kb.depressed) + KindSet(kinds) + d.kb.latched)
    ensures Spelled(d, RunActions(d, Chord(kinds, key), now), layout, out)
    decreases |kinds|
  {
    hide Handle, Chorded, TracksDown, Read, Replay, AllInterleaved, HeldKinds, SymbolFor;
    if kinds == [] {
      assert HeldKinds(d.kb.depressed) + KindSet(kinds) + d.kb.latched == HeldKinds(d.kb.depressed) + d.kb.latched;
      TapBetween(d, key, now, layout, out);
      RunOne(d, (TapAction, key), now);
    } else {
      var p := Preferred(kinds[0]);
      ModifierDown(d, p, now);
      var o := Handle(d, DownAction, p, now);
      ChordInner(d, o.next, kinds, layout, key, out);
      ChordSpells(o.next, kinds[1..], key, now, layout, out);
      ChordOuter(d, kinds, key, now, layout, out);
    }
  }

  /** What the inner chord needs, once the first modifier is down. */
  lemma ChordInner(d: Driver, e: Driver, kinds: seq<ModifierKind>, layout: Layout, key: PhysicalKey, out: string)
    requires kinds != [] && Distinct(kinds) && forall k :: k in kinds ==> Preferred(k) !in d.kb.depressed
    requires e.kb.depressed == d.kb.depressed + {Preferred(kinds[0])} && e.kb.latched == d.kb.latched
    requires out == SymbolText(layout, key, HeldKinds(d.kb.depressed) + KindSet(kinds) + d.kb.latched)
    ensures Distinct(kinds[1..]) && forall k :: k in kinds[1..] ==> Preferred(k) !in e.kb.depressed
    ensures out == SymbolText(layout, key, HeldKinds(e.kb.depressed) + KindSet(kinds[1..]) + e.kb.latched)
    ensures |e.kb.depressed| == |d.kb.depressed| + 1
  {
    var p := Preferred(kinds[0]);
    HeldAdd(d.kb.depressed, p);
    assert kinds == [kinds[0]] + kinds[1..];
    assert KindSet(kinds) == {kinds[0]} + KindSet(kinds[1..]);
    assert HeldKinds(e.kb.depressed) + KindSet(kinds[1..]) + e.kb.latched
        == HeldKinds(d.kb.depressed) + KindSet(kinds) + d.kb.latched;
    forall k | k in kinds[1..] ensures Preferred(k) !in e.kb.depressed {
      assert KindOf(Preferred(k)) != KindOf(p);
    }
  }

  /** Wrapping a chord that spells in one more modifier. */
  lemma ChordOuter(d: Driver, kinds: seq<ModifierKind>, key: PhysicalKey, now: Moment, layout: Layout, out: string)
    requires Between(d) && kinds != [] && |d.kb.depressed| < d.kb.settings.maxHeldKeys && CharsOnNormalKeys(layout)
    requires Preferred(kinds[0]) !in d.kb.depressed
    requires var e := Handle(d, DownAction, Preferred(kinds[0]), now).next;
             Spelled(e, RunActions(e, Chord(kinds[1..], key), now), layout, out)
    ensures Spelled(d, RunActions(d, Chord(kinds, key), now), layout, out)
  {
    var p := Preferred(kinds[0]);
    var held := d.kb.depressed;
    ModifierDown(d, p, now);
    var o := Handle(d, DownAction, p, now);
    var inner := RunActions(o.next, Chord(kinds[1..], key), now);
    ModifierUp(inner.next, p, now);
    var up := Handle(inner.next, UpAction, p, now);
    assert held + {p} - {p} == held;
    hide Between, AllInterleaved, Handle;
    RunOne(d, (DownAction, p), now);
    RunOne(inner.next, (UpAction, p), now);
    RunActionsConcat(d, [(DownAction, p)], Chord(kinds[1..], key), now);
    RunActionsConcat(d, [(DownAction, p)] + Chord(kinds[1..], key), [(UpAction, p)], now);
    var es := [Down(p)] + inner.events + [Up(p)];
    assert RunActions(d, Chord(kinds, key), now) == Typed(up.next, es, None);
    ChordEvents(layout, held, p, inner.events, out);
  }

  lemma ChordEvents(layout: Layout, held: set<PhysicalKey>, p: PhysicalKey, inner: seq<KeyEvent>, out: string)
    requires CharsOnNormalKeys(layout) && IsModifier(p) && p !in held
    requires Replay(Holding(held + {p}), inner) == Holding(held + {p}) && Read(layout, held + {p}, inner) == out
    ensures Replay(Holding(held), [Down(p)] + inner + [Up(p)]) == Holding(held)
    ensures Read(layout, held, [Down(p)] + inner + [Up(p)]) == out
  {
    var es := [Down(p)] + (inner + [Up(p)]);
    assert [Down(p)] + inner + [Up(p)] == es;
    ReplayFirst(Holding(held), Down(p), inner + [Up(p)]);
    ReplayConcat(Holding(held + {p}), inner, [Up(p)]);
    ReplayFirst(Holding(held + {p}), Up(p), []);
    assert held + {p} - {p} == held;
    ReadConcat(layout, held + {p}, inner, [Up(p)]);
    assert es[1..] == inner + [Up(p)];
    assert Read(layout, held + {p}, [Up(p)]) == [];
    assert out + [] == out;
    assert p !in layout.keys ==> SymbolText(layout, p, HeldKinds(held)) == [];
    assert [] + Read(layout, held + {p}, es[1..]) == out;
  }

  // ---- text ----

  /** At rest: nothing down, nothing locked, nothing tracked; `latch` may be waiting. */
  ghost predicate AtRest(d: Driver, latch: set<ModifierKind>) {
    Between(d) && d.kb.depressed == {} && d.kb.latched == latch
  }

  lemma {:induction false} InOrderFacts(kinds: seq<ModifierKind>, mods: set<ModifierKind>)
    requires Distinct(kinds)
    ensures Distinct(InOrder(kinds, mods)) && |InOrder(kinds, mods)| <= |mods|
  {
    if kinds != [] {
      var k := kinds[0];
      assert forall i :: 0 <= i < |kinds[1..]| ==> kinds[1..][i] == kinds[i + 1];
      assert k !in kinds[1..];
      if k in mods {
        InOrderFacts(kinds[1..], mods - {k});
        InOrderSkip(kinds[1..], mods, k);
        var rest := InOrder(kinds[1..], mods);
        assert forall i :: 0 <= i < |rest| ==> rest[i] in rest;
      } else {
        InOrderFacts(kinds[1..], mods);
      }
    }
  }

  lemma {:induction false} InOrderSkip(kinds: seq<ModifierKind>, mods: set<ModifierKind>, k: ModifierKind)
    requires k !in kinds
    ensures InOrder(kinds, mods - {k}) == InOrder(kinds, mods)
  {
    if kinds != [] { InOrderSkip(kinds[1..], mods, k); }
  }

  /** What the resolved chord of `c` gives while `latch` is waiting. */
  function Given(layout: Layout, resolve: Resolver, c: char, latch: set<ModifierKind>): string
    requires resolve(c).Some?
  {
    SymbolText(layout, resolve(c).value.0, latch + resolve(c).value.1)
  }

  /** A character found with `found` modifiers in force, typed at rest with `latch` waiting: what its key
      gives under the latch is spelled, the latch is spent, and the engine is at rest again. */
  lemma TypeCharReads(d: Driver, c: char, layout: Layout, order: seq<PhysicalKey>, resolve: Resolver, now: Moment,
                      found: set<ModifierKind>, latch: set<ModifierKind>)
    requires AtRest(d, latch) && d.kb.settings.maxHeldKeys >= 3 && CharsOnNormalKeys(layout)
    requires resolve(c) == FindChar(layout, order, c, found) && resolve(c).Some?
    ensures var t := TypeChar(d, c, resolve, now);
            && t.error == None && AtRest(t.next, {}) && t.next.kb.settings == d.kb.settings
            && Replay(Holding({}), t.events) == Holding({})
            && Read(layout, {}, t.events) == Given(layout, resolve, c, latch)
  {
    var (key, extra) := resolve(c).value;
    var kinds := InOrder(KINDS, extra);
    ResolvedKey(layout, key, found + extra, c);
    ComboChord(extra, latch);
    hide CharsOnNormalKeys, Chorded, TracksDown, Read, Replay, AllInterleaved, HeldKinds, FindChar, InOrder, SymbolText;
    ChordSpells(d, kinds, key, now, layout, Given(layout, resolve, c, latch));
  }

  /** A character the layout has under the waiting latch is spelled exactly. */
  lemma TypeCharSpells(d: Driver, c: char, layout: Layout, order: seq<PhysicalKey>, resolve: Resolver, now: Moment, latch: set<ModifierKind>)
    requires AtRest(d, latch) && d.kb.settings.maxHeldKeys >= 3 && CharsOnNormalKeys(layout)
    requires resolve(c) == FindChar(layout, order, c, latch) && resolve(c).Some?
    ensures var t := TypeChar(d, c, resolve, now);
            && t.error == None && AtRest(t.next, {}) && t.next.kb.settings == d.kb.settings
            && Replay(Holding({}), t.events) == Holding({})
            && Read(layout, {}, t.events) == [c]
  {
    TypeCharReads(d, c, layout, order, resolve, now, latch, latch);
    hide TypeChar, Read, Replay, AtRest, CharsOnNormalKeys;
  }

  lemma ResolvedKey(layout: Layout, key: PhysicalKey, mods: set<ModifierKind>, c: char)
    requires CharsOnNormalKeys(layout) && Gives(layout, key, mods, c)
    ensures IsNormal(key)
  {
    assert SymbolText(layout, key, mods) == [c];
    hide SymbolText, SymbolFor;
  }

  /** A combination the layout search tries is a chord of at most two modifiers. */
  lemma ComboChord(extra: set<ModifierKind>, latch: set<ModifierKind>)
    requires extra in COMBOS
    ensures var kinds := InOrder(KINDS, extra);
            |kinds| <= 2 && Distinct(kinds) && HeldKinds({}) + KindSet(kinds) + latch == latch + extra
  {
    InOrderFacts(KINDS, extra);
    ComboSize(extra);
    InOrderAll(extra);
    hide InOrder, KindSet;
    assert HeldKinds({}) == {};
    assert HeldKinds({}) + KindSet(InOrder(KINDS, extra)) + latch == latch + extra;
  }

  lemma ComboSize(extra: set<ModifierKind>)
    requires extra in COMBOS
    ensures |extra| <= 2
  {
  }

  lemma InOrderAll(mods: set<ModifierKind>)
    ensures KindSet(InOrder(KINDS, mods)) == mods
  {
    forall k: ModifierKind ensures k in KINDS { EveryKind(k); }
  }

  lemma TypeCharUnmappable(d: Driver, c: char, resolve: Resolver, now: Moment)
    requires resolve(c) == None
    ensures TypeChar(d, c, resolve, now) == Typed(d, [], Some(Unmappable(c)))
  {
  }

  /** The characters up to the first one the layout cannot give. */
  function MappablePrefix(text: string, resolve: Resolver): (n: nat)
    ensures n <= |text|
    ensures forall i :: 0 <= i < n ==> resolve(text[i]).Some?
    ensures n < |text| ==> resolve(text[n]) == None
  {
    if text == [] || resolve(text[0]) == None then 0 else 1 + MappablePrefix(text[1..], resolve)
  }

  /** What the whole text gives: the latch applies to its first character and is spent there. */
  function Reading(layout: Layout, text: string, resolve: Resolver, latch: set<ModifierKind>): string
    requires forall i :: 0 <= i < |text| ==> resolve(text[i]).Some?
  {
    if text == [] then [] else Given(layout, resolve, text[0], latch) + Reading(layout, text[1..], resolve, {})
  }

  /** Typing a text, its characters all found with the modifiers in force at the start: what is read back,
      up to the first character the layout lacks, which is then the reported error; and the engine is
      at rest again. */
  lemma {:induction false} TypeTextReads(d: Driver, text: string, layout: Layout, order: seq<PhysicalKey>, resolve: Resolver,
                                         now: Moment, found: set<ModifierKind>, latch: set<ModifierKind>)
    requires AtRest(d, latch) && d.kb.settings.maxHeldKeys >= 3 && CharsOnNormalKeys(layout)
    requires forall c :: resolve(c) == FindChar(layout, order, c, found)
    ensures var t := TypeText(d, text, resolve, now);
            var n := MappablePrefix(text, resolve);
            && t.error == (if n == |text| then None else Some(Unmappable(text[n])))
            && Read(layout, {}, t.events) == Reading(layout, text[..n], resolve, latch)
            && AtRest(t.next, if n == 0 then latch else {}) && Replay(Holding({}), t.events) == Holding({})
    decreases |text|
  {
    hide AtRest, CharsOnNormalKeys, TypeChar, FindChar, Given;
    if text == [] {
    } else {
      if resolve(text[0]).Some? {
        TypeCharReads(d, text[0], layout, order, resolve, now, found, latch);
        var t := TypeChar(d, text[0], resolve, now);
        TypeTextReads(t.next, text[1..], layout, order, resolve, now, found, {});
        var rest := TypeText(t.next, text[1..], resolve, now);
        ReplayConcat(Holding({}), t.events, rest.events);
        ReadConcat(layout, {}, t.events, rest.events);
        var n := MappablePrefix(text[1..], resolve);
        assert text[..n + 1] == [text[0]] + text[1..][..n];
        assert text[..n + 1][1..] == text[1..][..n];
      } else {
        TypeCharUnmappable(d, text[0], resolve, now);
        assert text[..0] == [];
      }
    }
  }

  /** Each character gives at most one, so the text reads back exactly when each gives itself. */
  lemma {:induction false} ReadingIff(layout: Layout, text: string, resolve: Resolver, latch: set<ModifierKind>)
    requires forall i :: 0 <= i < |text| ==> resolve(text[i]).Some?
    ensures |Reading(layout, text, resolve, latch)| <= |text|
    ensures Reading(layout, text, resolve, latch) == text
       <==> forall i :: 0 <= i < |text| ==> Given(layout, resolve, text[i], if i == 0 then latch else {}) == [text[i]]
  {
    if text != [] {
      ReadingIff(layout, text[1..], resolve, {});
      var g, rest := Given(layout, resolve, text[0], latch), Reading(layout, text[1..], resolve, {});
      assert |g| <= 1;
      hide Given;
      assert text == [text[0]] + text[1..];
      if g + rest == text {
        assert |g| == 1 && |rest| == |text| - 1;
        assert g[0] == (g + rest)[0] && rest == (g + rest)[1..];
        assert g == [text[0]] && rest == text[1..];
        forall i | 0 <= i < |text|
          ensures Given(layout, resolve, text[i], if i == 0 then latch else {}) == [text[i]]
        {
          if i > 0 {
            assert text[1..][i - 1] == text[i];
          }
        }
      }
      if forall i :: 0 <= i < |text| ==> Given(layout, resolve, text[i], if i == 0 then latch else {}) == [text[i]] {
        forall i | 0 <= i < |text[1..]|
          ensures Given(layout, resolve, text[1..][i], if i == 0 then {} else {}) == [text[1..][i]]
        {
          assert text[1..][i] == text[i + 1];
        }
      }
    }
  }

  lemma GivenIffGives(layout: Layout, resolve: Resolver, c: char, latch: set<ModifierKind>)
    requires resolve(c).Some?
    ensures Given(layout, resolve, c, latch) == [c] <==> Gives(layout, resolve(c).value.0, latch + resolve(c).value.1, c)
  {
  }

  /** Text typed while a latch is waiting, with the latch counted in the search for every character: it is
      spelled exactly when the key found for each later character gives it without the latch, too. */
  lemma LatchedTextSpellsIff(d: Driver, text: string, layout: Layout, order: seq<PhysicalKey>, resolve: Resolver,
                             now: Moment, latch: set<ModifierKind>)
    requires AtRest(d, latch) && d.kb.settings.maxHeldKeys >= 3 && CharsOnNormalKeys(layout)
    requires forall c :: resolve(c) == FindChar(layout, order, c, latch)
    ensures var t := TypeText(d, text, resolve, now);
            var n := MappablePrefix(text, resolve);
            && t.error == (if n == |text| then None else Some(Unmappable(text[n])))
            && AtRest(t.next, if n == 0 then latch else {}) && Replay(Holding({}), t.events) == Holding({})
            && (Read(layout, {}, t.events) == text[..n]
                <==> forall i :: 1 <= i < n ==> Gives(layout, resolve(text[i]).value.0, resolve(text[i]).value.1, text[i]))
  {
    hide TypeText, Read, Replay, AtRest, CharsOnNormalKeys, FindChar, Gives, Reading, MappablePrefix;
    TypeTextReads(d, text, layout, order, resolve, now, latch, latch);
    var n := MappablePrefix(text, resolve);
    var typed := text[..n];
    assert forall i :: 0 <= i < n ==> typed[i] == text[i];
    LatchedReading(layout, typed, resolve, latch);
    assert forall i :: 1 <= i < n ==> (Gives(layout, resolve(typed[i]).value.0, resolve(typed[i]).value.1, typed[i])
                                       <==> Gives(layout, resolve(text[i]).value.0, resolve(text[i]).value.1, text[i]));
  }

  lemma LatchedReading(layout: Layout, text: string, resolve: Resolver, latch: set<ModifierKind>)
    requires forall c :: resolve(c).Some? ==> Gives(layout, resolve(c).value.0, latch + resolve(c).value.1, c)
    requires forall i :: 0 <= i < |text| ==> resolve(text[i]).Some?
    ensures Reading(layout, text, resolve, latch) == text
       <==> forall i :: 1 <= i < |text| ==> Gives(layout, resolve(text[i]).value.0, resolve(text[i]).value.1, text[i])
  {
    ReadingIff(layout, text, resolve, latch);
    forall i | 0 <= i < |text|
      ensures var under := if i == 0 then latch else {};
              Given(layout, resolve, text[i], under) == [text[i]]
              <==> i == 0 || Gives(layout, resolve(text[i]).value.0, resolve(text[i]).value.1, text[i])
    {
      GivenIffGives(layout, resolve, text[i], if i == 0 then latch else {});
      assert {} + resolve(text[i]).value.1 == resolve(text[i]).value.1;
    }
    hide Given, Gives, Reading;
  }

  /** Typing keeps the meaning: from an idle engine, read back with the same layout, the events are the
      text, or what comes before the first character the layout lacks, which is then the reported
      error; and the engine is idle again. */
  lemma TypeTextSpells(d: Driver, text: string, layout: Layout, order: seq<PhysicalKey>, resolve: Resolver, now: Moment)
    requires AtRest(d, {}) && d.kb.settings.maxHeldKeys >= 3 && CharsOnNormalKeys(layout)
    requires forall c :: resolve(c) == FindChar(layout, order, c, {})
    ensures var t := TypeText(d, text, resolve, now);
            var n := MappablePrefix(text, resolve);
            && t.error == (if n == |text| then None else Some(Unmappable(text[n])))
            && Read(layout, {}, t.events) == text[..n]
            && AtRest(t.next, {}) && Replay(Holding({}), t.events) == Holding({})
  {
    LatchedTextSpellsIff(d, text, layout, order, resolve, now, {});
    var n := MappablePrefix(text, resolve);
    forall i | 1 <= i < n
      ensures Gives(layout, resolve(text[i]).value.0, resolve(text[i]).value.1, text[i])
    {
      assert {} + resolve(text[i]).value.1 == resolve(text[i]).value.1;
    }
    hide TypeText, Read, Replay, AtRest, CharsOnNormalKeys, FindChar, Gives;
  }

  /** One key with a letter and its capital. */
  const LETTER: Layout := Layout(map[KEY_A := KeyDefinition(Char('a'), Char('A'), None, None, None, true)])

  lemma LetterFound()
    ensures FindChar(LETTER, [KEY_A], 'A', {Shift}) == Some((KEY_A, {}))
  {
    hide CharsOnNormalKeys;
    assert Gives(LETTER, KEY_A, {Shift} + {}, 'A');
  }

  lemma LetterGiven(resolve: Resolver)
    requires resolve('A') == Some((KEY_A, {}))
    ensures Given(LETTER, resolve, 'A', {Shift}) == "A" && Given(LETTER, resolve, 'A', {}) == "a"
  {
  }

  lemma LetterReading(resolve: Resolver)
    requires resolve('A') == Some((KEY_A, {}))
    ensures MappablePrefix("AA", resolve) == 2 && Reading(LETTER, "AA", resolve, {Shift}) == "Aa"
  {
    LetterGiven(resolve);
    hide Given, LETTER;
    assert "AA"[1..] == "A" && "A"[1..] == [];
    assert MappablePrefix("A", resolve) == 1;
    assert Reading(LETTER, "A", resolve, {}) == "a" + Reading(LETTER, [], resolve, {});
  }

  /** So a latched Shift misspells: both letters of `AA` are found on the plain key, and the second
      comes out small. */
  lemma LatchMisspells(d: Driver, resolve: Resolver, now: Moment)
    requires AtRest(d, {Shift}) && d.kb.settings.maxHeldKeys >= 3
    requires forall c :: resolve(c) == FindChar(LETTER, [KEY_A], c, {Shift})
    ensures var t := TypeText(d, "AA", resolve, now);
            t.error == None && Read(LETTER, {}, t.events) == "Aa"
  {
    assert CharsOnNormalKeys(LETTER);
    hide TypeText, Read, Replay, AtRest, CharsOnNormalKeys, FindChar, Given, Reading, MappablePrefix, LETTER;
    LetterFound();
    LetterReading(resolve);
    TypeTextReads(d, "AA", LETTER, [KEY_A], resolve, now, {Shift}, {Shift});
    assert "AA"[..2] == "AA";
  }

  // ---- chords that do not fit ----

  /** A chord too big for the rollover cap: it is refused, and every modifier it did press stays down. */
  lemma {:induction false} ChordRefused(d: Driver, kinds: seq<ModifierKind>, key: PhysicalKey, now: Moment)
    requires Between(d) && IsNormal(key)
    requires |d.kb.depressed| <= d.kb.settings.maxHeldKeys <= |d.kb.depressed| + |kinds|
    requires Distinct(kinds) && forall k :: k in kinds ==> Preferred(k) !in d.kb.depressed
    ensures var t := RunActions(d, Chord(kinds, key), now);
            t.error == Some(Backend(d.kb.settings.maxHeldKeys)) && |t.next.kb.depressed| == d.kb.settings.maxHeldKeys
    decreases |kinds|
  {
    if kinds == [] {
      RunOne(d, (TapAction, key), now);
    } else {
      var p := Preferred(kinds[0]);
      RunOne(d, (DownAction, p), now);
      RunActionsConcat(d, [(DownAction, p)], Chord(kinds[1..], key), now);
      RunActionsConcat(d, [(DownAction, p)] + Chord(kinds[1..], key), [(UpAction, p)], now);
      if |d.kb.depressed| < d.kb.settings.maxHeldKeys {
        ModifierDown(d, p, now);
        var e := Handle(d, DownAction, p, now).next;
        hide Handle, Chorded, TracksDown;
        forall k | k in kinds[1..] ensures Preferred(k) !in e.kb.depressed {
          assert KindOf(Preferred(k)) != KindOf(p);
        }
        ChordRefused(e, kinds[1..], key, now);
      }
    }
  }

  /** Typing a chord from rest leaves nothing held exactly when it fits the rollover cap (or nothing can
      be pressed at all): a refused chord is not undone. */
  lemma TypingReleasesIffFits(d: Driver, kinds: seq<ModifierKind>, key: PhysicalKey, now: Moment, latch: set<ModifierKind>)
    requires AtRest(d, latch) && Distinct(kinds) && IsNormal(key)
    ensures RunActions(d, Chord(kinds, key), now).next.kb.depressed == {}
       <==> |kinds| < d.kb.settings.maxHeldKeys || d.kb.settings.maxHeldKeys == 0
  {
    if |kinds| < d.kb.settings.maxHeldKeys {
      var mute := Layout(map[]);
      assert CharsOnNormalKeys(mute);
      ChordSpells(d, kinds, key, now, mute, SymbolText(mute, key, HeldKinds({}) + KindSet(kinds) + latch));
    } else {
      ChordRefused(d, kinds, key, now);
    }
  }
}
