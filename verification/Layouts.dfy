/** Keyboard layouts: the symbol a key gives under a set of modifiers, and the search for a key
    that gives a character. */
module Layouts {
  import opened Options
  import opened Keys

  datatype Symbol = NoSymbol | Char(c: char) | Name(name: string) | Dead(accent: string) | Compose

  datatype KeyDefinition = KeyDefinition(
    primary: Symbol,
    shifted: Symbol,
    altgr: Option<Symbol>,
    shiftAltgr: Option<Symbol>,
    fnLayer: Option<Symbol>,
    repeatable: bool)

  datatype Layout = Layout(keys: map<PhysicalKey, KeyDefinition>)

  function Or<T>(o: Option<T>, fallback: T): T {
    match o
    case Some(v) => v
    case None => fallback
  }

  function SymbolFor(def: KeyDefinition, mods: set<ModifierKind>): Symbol {
    if Fn in mods && def.fnLayer.Some? then def.fnLayer.value
    else if AltGr in mods && Shift in mods then Or(def.shiftAltgr, Or(def.altgr, def.shifted))
    else if AltGr in mods then Or(def.altgr, def.primary)
    else if Shift in mods then def.shifted
    else def.primary
  }

  /** Holding the key repeats it: as the layout says, else any key but modifiers and locks. */
  predicate IsRepeatable(layout: Layout, key: PhysicalKey) {
    if key in layout.keys then layout.keys[key].repeatable else !IsModifier(key) && !IsLock(key)
  }

  /** `key` gives the character `c` under `mods`. */
  predicate Gives(layout: Layout, key: PhysicalKey, mods: set<ModifierKind>, c: char) {
    key in layout.keys && SymbolFor(layout.keys[key], mods) == Char(c)
  }

  /** The first key, in the table's own iteration order, that gives `c` under `mods`. */
  function FirstGiving(layout: Layout, order: seq<PhysicalKey>, mods: set<ModifierKind>, c: char)
    : (r: Option<PhysicalKey>)
    ensures r.Some? ==> r.value in order && Gives(layout, r.value, mods, c)
    ensures r == None ==> forall k :: k in order ==> !Gives(layout, k, mods, c)
  {
    if order == [] then None
    else if Gives(layout, order[0], mods, c) then Some(order[0])
    else FirstGiving(layout, order[1..], mods, c)
  }

  /** The modifier combinations tried, in order of preference. */
  const COMBOS: seq<set<ModifierKind>> := [{}, {Shift}, {AltGr}, {Shift, AltGr}]

  function FirstCombo(layout: Layout, order: seq<PhysicalKey>, c: char, active: set<ModifierKind>,
                      combos: seq<set<ModifierKind>>)
    : (r: Option<(PhysicalKey, set<ModifierKind>)>)
    ensures r.Some? ==> r.value.1 in combos && Gives(layout, r.value.0, active + r.value.1, c)
    ensures r.Some? ==> r.value.0 in order
    ensures r == None ==> forall k, combo :: k in order && combo in combos && !(combo <= active) ==>
                            !Gives(layout, k, active + combo, c)
  {
    if combos == [] then None
    else
      var found := FirstGiving(layout, order, active + combos[0], c);
      if found.Some? && !(combos[0] <= active) then Some((found.value, combos[0]))
      else FirstCombo(layout, order, c, active, combos[1..])
  }

  /** The key that types `c` while `active` modifiers apply, and the modifiers to add for it. */
  function FindChar(layout: Layout, order: seq<PhysicalKey>, c: char, active: set<ModifierKind>)
    : (r: Option<(PhysicalKey, set<ModifierKind>)>)
    ensures r.Some? ==> r.value.0 in order && Gives(layout, r.value.0, active + r.value.1, c)
    ensures r.Some? ==> r.value.1 in COMBOS
    ensures r == None ==> forall k, combo :: k in order && combo in COMBOS ==> !Gives(layout, k, active + combo, c)
  {
    var plain := FirstGiving(layout, order, active, c);
    assert active + {} == active;
    if plain.Some? then Some((plain.value, {}))
    else
      assert forall combo: set<ModifierKind> :: combo <= active ==> active + combo == active;
      FirstCombo(layout, order, c, active, COMBOS)
  }
}
