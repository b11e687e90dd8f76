/** The five levels of a key, and what typing sends for a character that stands on one of them: told from
    the layout's table alone. */
module Levels {
  import opened Options
  import opened Keys
  import opened Slots
  import opened Keyboard
  import opened Sinks
  import opened KeyboardRuns
  import opened Layouts
  import opened Repeats
  import opened Drivers
  import opened DriverRuns
  import opened Typing

  datatype Level = PrimaryLevel | ShiftedLevel | AltGrLevel | ShiftAltGrLevel | FnLevel

  /** What a key has on a level, if anything. */
  function On(def: KeyDefinition, level: Level): Option<Symbol> {
    match level
    case PrimaryLevel => Some(def.primary)
    case ShiftedLevel => Some(def.shifted)
    case AltGrLevel => def.altgr
    case ShiftAltGrLevel => def.shiftAltgr
    case FnLevel => def.fnLayer
  }

  /** The levels looked at under some modifiers, in order: an absent AltGr level falls back to the primary one, an
      absent AltGr with Shift to AltGr and then to Shift, an absent Fn level to what the other modifiers give. */
  function Ladder(mods: set<ModifierKind>): seq<Level> {
    var plain := if AltGr in mods then if Shift in mods then [ShiftAltGrLevel, AltGrLevel, ShiftedLevel] else [AltGrLevel, PrimaryLevel]
                 else if Shift in mods then [ShiftedLevel] else [PrimaryLevel];
    if Fn in mods then [FnLevel] + plain else plain
  }

  /** `symbol` is on the first rung of the ladder that the key has at all. */
  predicate IsFirstOn(def: KeyDefinition, ladder: seq<Level>, symbol: Symbol) {
    exists i :: 0 <= i < |ladder| && On(def, ladder[i]) == Some(symbol) && forall j :: 0 <= j < i ==> On(def, ladder[j]) == None
  }

  /** The symbol of a key under any modifiers. */
  lemma SymbolIsFirstOnLadder(def: KeyDefinition, mods: set<ModifierKind>, symbol: Symbol)
    ensures SymbolFor(def, mods) == symbol <==> IsFirstOn(def, Ladder(mods), symbol)
  {
    var ladder := Ladder(mods);
    assert On(def, ladder[|ladder| - 1]).Some?;
    if On(def, ladder[0]).Some? {
      assert On(def, ladder[0]) == Some(SymbolFor(def, mods));
    } else if On(def, ladder[1]).Some? {
      assert On(def, ladder[1]) == Some(SymbolFor(def, mods));
    } else if On(def, ladder[2]).Some? {
      assert On(def, ladder[2]) == Some(SymbolFor(def, mods));
    } else {
      assert On(def, ladder[3]) == Some(SymbolFor(def, mods));
    }
  }

  /** The active layer names the first rung. */
  lemma LayerIsFirstRung(mods: set<ModifierKind>)
    ensures match LayerOf(mods)
            case FnLayer => Ladder(mods)[0] == FnLevel
            case AltGrLayer => Ladder(mods)[0] == AltGrLevel || Ladder(mods)[0] == ShiftAltGrLevel
            case ShiftLayer => Ladder(mods) == [ShiftedLevel]
            case BaseLayer => Ladder(mods) == [PrimaryLevel]
  {
  }

  // ---- searching ----

  /** No key of `order` gives `c` under `mods`, by the table. */
  ghost predicate NoneGives(layout: Layout, order: seq<PhysicalKey>, mods: set<ModifierKind>, c: char) {
    forall k :: k in order && k in layout.keys ==> !IsFirstOn(layout.keys[k], Ladder(mods), Char(c))
  }

  lemma NoneGivesMeans(layout: Layout, order: seq<PhysicalKey>, mods: set<ModifierKind>, c: char)
    ensures FirstGiving(layout, order, mods, c) == None <==> NoneGives(layout, order, mods, c)
  {
    forall k | k in layout.keys ensures Gives(layout, k, mods, c) <==> IsFirstOn(layout.keys[k], Ladder(mods), Char(c)) {
      SymbolIsFirstOnLadder(layout.keys[k], mods, Char(c));
    }
    hide IsFirstOn, SymbolFor;
  }

  /** The modifiers to add, most preferred first. */
  const PREFERENCE: seq<set<ModifierKind>> := [{}, {Shift}, {AltGr}, {Shift, AltGr}]

  /** The search takes the first combination, in that order, under which any key gives the character, and reports
      nothing only if none does. */
  lemma FindsPreferred(layout: Layout, order: seq<PhysicalKey>, c: char, active: set<ModifierKind>)
    ensures match FindChar(layout, order, c, active)
            case None => forall i :: 0 <= i < 4 ==> NoneGives(layout, order, active + PREFERENCE[i], c)
            case Some((key, extra)) =>
              && key in order && key in layout.keys && IsFirstOn(layout.keys[key], Ladder(active + extra), Char(c))
              && exists i :: 0 <= i < 4 && PREFERENCE[i] == extra
                             && forall j :: 0 <= j < i ==> NoneGives(layout, order, active + PREFERENCE[j], c)
  {
    assert active + {} == active;
    NoneGivesMeans(layout, order, active, c);
    var r := FindChar(layout, order, c, active);
    if r.Some? {
      SymbolIsFirstOnLadder(layout.keys[r.value.0], active + r.value.1, Char(c));
    }
    if FirstGiving(layout, order, active, c).Some? {
      assert PREFERENCE[0] == r.value.1;
    } else {
      ComboPreferred(layout, order, c, active, 0);
    }
    hide FirstCombo, IsFirstOn, SymbolFor, NoneGives, Ladder;
  }

  lemma {:induction false} ComboPreferred(layout: Layout, order: seq<PhysicalKey>, c: char, active: set<ModifierKind>, n: nat)
    requires n <= 4 && FirstGiving(layout, order, active, c) == None
    requires forall j :: 0 <= j < n ==> NoneGives(layout, order, active + PREFERENCE[j], c)
    ensures match FirstCombo(layout, order, c, active, COMBOS[n..])
            case None => forall i :: 0 <= i < 4 ==> NoneGives(layout, order, active + PREFERENCE[i], c)
            case Some((key, extra)) =>
              exists i :: 0 <= i < 4 && PREFERENCE[i] == extra
                          && forall j :: 0 <= j < i ==> NoneGives(layout, order, active + PREFERENCE[j], c)
    decreases 4 - n
  {
    if n < 4 {
      var combo := COMBOS[n];
      assert COMBOS[n..][0] == combo && COMBOS[n..][1..] == COMBOS[n + 1..];
      assert combo == PREFERENCE[n];
      NoneGivesMeans(layout, order, active + combo, c);
      var found := FirstGiving(layout, order, active + combo, c);
      if combo <= active {
        assert active + combo == active;
      }
      hide NoneGives;
      if found == None {
        ComboPreferred(layout, order, c, active, n + 1);
      }
    } else {
      assert COMBOS[4..] == [];
    }
  }

  /** The character stands on this level of this key. */
  predicate StandsOn(layout: Layout, c: char, key: PhysicalKey, level: Level) {
    key in layout.keys && On(layout.keys[key], level) == Some(Char(c))
  }

  /** Nowhere else in the layout. */
  ghost predicate OnlyOn(layout: Layout, c: char, key: PhysicalKey, level: Level) {
    StandsOn(layout, c, key, level) && forall k, l :: StandsOn(layout, c, k, l) ==> k == key && l == level
  }

  function LevelMods(level: Level): set<ModifierKind> {
    match level
    case PrimaryLevel => {}
    case ShiftedLevel => {Shift}
    case AltGrLevel => {AltGr}
    case ShiftAltGrLevel => {Shift, AltGr}
    case FnLevel => {Fn}
  }

  /** With no modifiers in force, a character that stands in one place is found there, with the modifiers of its
      level; one that stands on a Fn level alone is not found at all. */
  lemma FindsItsLevel(layout: Layout, order: seq<PhysicalKey>, c: char, key: PhysicalKey, level: Level)
    requires OnlyOn(layout, c, key, level) && forall k :: k in layout.keys ==> k in order
    ensures FindChar(layout, order, c, {}) == if level == FnLevel then None else Some((key, LevelMods(level)))
  {
    FindsPreferred(layout, order, c, {});
    forall i | 0 <= i < 4
      ensures {} + PREFERENCE[i] == PREFERENCE[i]
      ensures !NoneGives(layout, order, PREFERENCE[i], c) ==> level != FnLevel && Own(level) <= i
    {
      if !NoneGives(layout, order, PREFERENCE[i], c) {
        GivesOnly(layout, order, c, key, level, PREFERENCE[i]);
        RungOf(level, i);
      }
    }
    var r := FindChar(layout, order, c, {});
    hide FindChar, PREFERENCE, NoneGives, Ladder;
    if r.Some? {
      GivesSomewhere(layout, order, c, r.value.0, r.value.1);
      StoodOn(layout, c, r.value.0, Ladder({} + r.value.1));
    }
    if level != FnLevel {
      OwnRung(layout.keys[key], level, c);
      GivesSomewhere(layout, order, c, key, LevelMods(level));
    }
    hide IsFirstOn;
  }

  lemma GivesSomewhere(layout: Layout, order: seq<PhysicalKey>, c: char, key: PhysicalKey, mods: set<ModifierKind>)
    requires key in order && key in layout.keys && IsFirstOn(layout.keys[key], Ladder({} + mods), Char(c))
    ensures {} + mods == mods && !NoneGives(layout, order, mods, c)
  {
    assert {} + mods == mods;
  }

  lemma GivesOnly(layout: Layout, order: seq<PhysicalKey>, c: char, key: PhysicalKey, level: Level, mods: set<ModifierKind>)
    requires OnlyOn(layout, c, key, level) && !NoneGives(layout, order, mods, c)
    ensures level in Ladder(mods)
  {
    hide Ladder;
    var k :| k in order && k in layout.keys && IsFirstOn(layout.keys[k], Ladder(mods), Char(c));
    StoodOn(layout, c, k, Ladder(mods));
  }

  lemma RungOf(level: Level, i: nat)
    requires i < 4 && level in Ladder(PREFERENCE[i])
    ensures level != FnLevel && Own(level) <= i
  {
  }

  /** Where a level's modifiers come in the order of preference. */
  function Own(level: Level): (i: nat)
    ensures i < 4
    ensures level != FnLevel ==> PREFERENCE[i] == LevelMods(level)
  {
    match level
    case ShiftedLevel => 1
    case AltGrLevel => 2
    case ShiftAltGrLevel => 3
    case _ => 0
  }

  lemma StoodOn(layout: Layout, c: char, k: PhysicalKey, ladder: seq<Level>)
    requires k in layout.keys && IsFirstOn(layout.keys[k], ladder, Char(c))
    ensures exists l :: l in ladder && StandsOn(layout, c, k, l)
  {
    var i :| 0 <= i < |ladder| && On(layout.keys[k], ladder[i]) == Some(Char(c));
    assert StandsOn(layout, c, k, ladder[i]);
  }

  lemma OwnRung(def: KeyDefinition, level: Level, c: char)
    requires level != FnLevel && On(def, level) == Some(Char(c))
    ensures IsFirstOn(def, Ladder({} + LevelMods(level)), Char(c))
  {
    assert {} + LevelMods(level) == LevelMods(level);
    assert Ladder(LevelMods(level))[0] == level;
  }

  // ---- typing ----

  /** The modifiers down in order, the key down and up, the modifiers up in reverse. */
  function Around(kinds: seq<ModifierKind>, key: PhysicalKey): seq<KeyEvent> {
    if kinds == [] then [Down(key), Up(key)]
    else [Down(Preferred(kinds[0]))] + Around(kinds[1..], key) + [Up(Preferred(kinds[0]))]
  }

  lemma TapSends(d: Driver, key: PhysicalKey, now: Moment)
    requires Between(d) && IsNormal(key) && |d.kb.depressed| < d.kb.settings.maxHeldKeys && d.kb.latched == {}
    ensures Handle(d, TapAction, key, now).Sent? && Handle(d, TapAction, key, now).events == [Down(key), Up(key)]
  {
    var kb := d.kb;
    assert Engaged(kb) - HeldKinds(kb.depressed) == {};
    InjectNothing(KINDS, kb.depressed);
    ModifiersFew(kb.depressed);
    var (down, downs) := PressNormal(kb, key);
    assert Downs([]) + [Down(key)] == [Down(key)];
    assert downs == [Down(key)] && down.injected == [] && key in down.depressed;
    hide Inject, HeldKinds, Engaged, PressNormal;
    assert Lookup(down.injected, key) == None;
    assert [Down(key)] + [Up(key)] == [Down(key), Up(key)];
  }

  /** A chord typed with nothing latched sends exactly its own keys. */
  lemma {:induction false} ChordSends(d: Driver, kinds: seq<ModifierKind>, key: PhysicalKey, now: Moment)
    requires Between(d) && IsNormal(key) && |d.kb.depressed| + |kinds| < d.kb.settings.maxHeldKeys && d.kb.latched == {}
    requires Distinct(kinds) && forall k :: k in kinds ==> Preferred(k) !in d.kb.depressed
    ensures RunActions(d, Chord(kinds, key), now).error == None
    ensures RunActions(d, Chord(kinds, key), now).events == Around(kinds, key)
    decreases |kinds|
  {
    hide Handle, Chorded, TracksDown, Read, Replay, AllInterleaved, HeldKinds, SymbolFor;
    if kinds == [] {
      TapSends(d, key, now);
      RunOne(d, (TapAction, key), now);
    } else {
      var p := Preferred(kinds[0]);
      ModifierDown(d, p, now);
      var e := Handle(d, DownAction, p, now).next;
      var mute := Layout(map[]);
      var out := SymbolText(mute, key, HeldKinds(d.kb.depressed) + KindSet(kinds) + d.kb.latched);
      ChordInner(d, e, kinds, mute, key, out);
      ChordSends(e, kinds[1..], key, now);
      assert CharsOnNormalKeys(mute);
      ChordSpells(e, kinds[1..], key, now, mute, out);
      var inner := RunActions(e, Chord(kinds[1..], key), now);
      ModifierUp(inner.next, p, now);
      hide Between, Chord;
      ChordJoins(d, kinds, key, now);
    }
  }

  /** The events of a chord, from those of its first key and of the rest. */
  lemma ChordJoins(d: Driver, kinds: seq<ModifierKind>, key: PhysicalKey, now: Moment)
    requires kinds != []
    requires var p := Preferred(kinds[0]);
             var first := Handle(d, DownAction, p, now);
             var inner := RunActions(first.next, Chord(kinds[1..], key), now);
             && first.Sent? && inner.error == None
             && Handle(inner.next, UpAction, p, now).Sent? && first.events == [Down(p)]
             && Handle(inner.next, UpAction, p, now).events == [Up(p)] && inner.events == Around(kinds[1..], key)
    ensures RunActions(d, Chord(kinds, key), now).error == None
    ensures RunActions(d, Chord(kinds, key), now).events == Around(kinds, key)
  {
    hide Handle;
    var p := Preferred(kinds[0]);
    var e := Handle(d, DownAction, p, now).next;
    var inner := RunActions(e, Chord(kinds[1..], key), now);
    RunOne(d, (DownAction, p), now);
    RunOne(inner.next, (UpAction, p), now);
    RunActionsConcat(d, [(DownAction, p)], Chord(kinds[1..], key), now);
    RunActionsConcat(d, [(DownAction, p)] + Chord(kinds[1..], key), [(UpAction, p)], now);
  }

  /** What typing a character on a level sends. */
  function Sends(level: Level, key: PhysicalKey): seq<KeyEvent> {
    match level
    case PrimaryLevel => [Down(key), Up(key)]
    case ShiftedLevel => [Down(LEFT_SHIFT), Down(key), Up(key), Up(LEFT_SHIFT)]
    case AltGrLevel => [Down(RIGHT_ALT), Down(key), Up(key), Up(RIGHT_ALT)]
    case ShiftAltGrLevel => [Down(LEFT_SHIFT), Down(RIGHT_ALT), Down(key), Up(key), Up(RIGHT_ALT), Up(LEFT_SHIFT)]
    case FnLevel => []
  }

  lemma AroundLevel(level: Level, key: PhysicalKey)
    requires level != FnLevel
    ensures var kinds := InOrder(KINDS, LevelMods(level));
            Around(kinds, key) == Sends(level, key) && |kinds| <= 2 && Distinct(kinds)
  {
    LevelInOrder(level);
    hide InOrder, KINDS;
    match level
    case PrimaryLevel =>
    case ShiftedLevel => AroundOne(Shift, key);
    case AltGrLevel => AroundOne(AltGr, key);
    case ShiftAltGrLevel => AroundTwo(key);
  }

  lemma AroundTwo(key: PhysicalKey)
    ensures Around([Shift, AltGr], key) == Sends(ShiftAltGrLevel, key)
  {
    AroundOne(AltGr, key);
    assert [Shift, AltGr][1..] == [AltGr];
  }

  lemma AroundOne(kind: ModifierKind, key: PhysicalKey)
    ensures Around([kind], key) == [Down(Preferred(kind)), Down(key), Up(key), Up(Preferred(kind))]
  {
    assert [kind][1..] == [];
    assert Around([], key) == [Down(key), Up(key)];
  }

  lemma LevelInOrder(level: Level)
    requires level != FnLevel
    ensures InOrder(KINDS, LevelMods(level))
         == match level
            case PrimaryLevel => []
            case ShiftedLevel => [Shift]
            case AltGrLevel => [AltGr]
            case _ => [Shift, AltGr]
  {
    var m := LevelMods(level);
    var tail := [Ctrl, Alt, AltGr, Meta, Fn];
    assert KINDS == [Shift] + tail && KINDS[1..] == tail;
    TailInOrder(m);
    hide KINDS;
    assert [Shift] + [AltGr] == [Shift, AltGr] && [Shift] + [] == [Shift];
  }

  lemma TailInOrder(m: set<ModifierKind>)
    requires Ctrl !in m && Alt !in m && Meta !in m && Fn !in m
    ensures InOrder([Ctrl, Alt, AltGr, Meta, Fn], m) == if AltGr in m then [AltGr] else []
  {
    InOrderSkips(Ctrl, [Alt, AltGr, Meta, Fn], m);
    InOrderSkips(Alt, [AltGr, Meta, Fn], m);
    InOrderSkips(Meta, [Fn], m);
    InOrderSkips(Fn, [], m);
    assert [Ctrl] + [Alt, AltGr, Meta, Fn] == [Ctrl, Alt, AltGr, Meta, Fn] && [Alt] + [AltGr, Meta, Fn] == [Alt, AltGr, Meta, Fn];
    assert [Meta] + [Fn] == [Meta, Fn] && [Fn] + [] == [Fn] && [AltGr, Meta, Fn][1..] == [Meta, Fn];
    assert [AltGr] + [] == [AltGr];
  }

  lemma InOrderSkips(kind: ModifierKind, rest: seq<ModifierKind>, m: set<ModifierKind>)
    requires kind !in m
    ensures InOrder([kind] + rest, m) == InOrder(rest, m)
  {
    assert ([kind] + rest)[1..] == rest;
  }

  /** Typing from idle a character that stands in one place of the layout sends exactly the modifiers of its level
      down, its key down and up, and the modifiers up again; on a Fn level alone it is reported as unmappable,
      and nothing is sent. */
  lemma TypingSends(d: Driver, layout: Layout, order: seq<PhysicalKey>, c: char, resolve: Resolver, now: Moment,
                    key: PhysicalKey, level: Level)
    requires AtRest(d, {}) && d.kb.settings.maxHeldKeys >= 3
    requires OnlyOn(layout, c, key, level) && IsNormal(key) && forall k :: k in layout.keys ==> k in order
    requires resolve(c) == FindChar(layout, order, c, {})
    ensures TypeChar(d, c, resolve, now).error == if level == FnLevel then Some(Unmappable(c)) else None
    ensures TypeChar(d, c, resolve, now).events == Sends(level, key)
  {
    FindsItsLevel(layout, order, c, key, level);
    hide FindChar, OnlyOn;
    if level != FnLevel {
      AroundLevel(level, key);
      hide InOrder, Chord, Around, Sends, Chorded, TracksDown;
      ChordSends(d, InOrder(KINDS, LevelMods(level)), key, now);
    }
  }
}
