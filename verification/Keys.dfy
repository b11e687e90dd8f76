/** Physical keys, modifier kinds, key events and the millisecond clock of the keyboard engine. */
module Keys {
  import opened Options

  /** A physical key is its position in the declaration order of the key table, which is
      also the order the held-key set sorts by. */
  type PhysicalKey = k: nat | k < 148

  const LEFT_CTRL: PhysicalKey := 28
  const KEY_A: PhysicalKey := 29
  const LEFT_SHIFT: PhysicalKey := 41
  const RIGHT_SHIFT: PhysicalKey := 53
  const LEFT_ALT: PhysicalKey := 54
  const CAPS_LOCK: PhysicalKey := 56
  const RIGHT_CTRL: PhysicalKey := 82
  const RIGHT_ALT: PhysicalKey := 83
  const LEFT_META: PhysicalKey := 84
  const RIGHT_META: PhysicalKey := 85
  const MENU: PhysicalKey := 86
  const NUM_LOCK: PhysicalKey := 90
  const SCROLL_LOCK: PhysicalKey := 91
  /** Insert: the first of the 56 last keys of the table, none of which is a modifier or a lock key. */
  const FIRST_PLAIN: PhysicalKey := 92

  datatype ModifierKind = Shift | Ctrl | Alt | AltGr | Meta | Fn

  /** Every kind, lowest bit first: the order injection and typing go through them. */
  const KINDS: seq<ModifierKind> := [Shift, Ctrl, Alt, AltGr, Meta, Fn]

  ghost predicate Distinct(kinds: seq<ModifierKind>) {
    forall i, j :: 0 <= i < j < |kinds| ==> kinds[i] != kinds[j]
  }

  ghost function KindSet(kinds: seq<ModifierKind>): set<ModifierKind> {
    set k | k in kinds
  }

  function Preferred(kind: ModifierKind): (k: PhysicalKey)
    ensures KindOf(k) == Some(kind)
  {
    match kind
    case Shift => LEFT_SHIFT
    case Ctrl => LEFT_CTRL
    case Alt => LEFT_ALT
    case AltGr => RIGHT_ALT
    case Meta => LEFT_META
    case Fn => MENU
  }

  function KindOf(k: PhysicalKey): Option<ModifierKind> {
    if k == LEFT_SHIFT || k == RIGHT_SHIFT then Some(Shift)
    else if k == LEFT_CTRL || k == RIGHT_CTRL then Some(Ctrl)
    else if k == LEFT_ALT then Some(Alt)
    else if k == RIGHT_ALT then Some(AltGr)
    else if k == LEFT_META || k == RIGHT_META then Some(Meta)
    else if k == MENU then Some(Fn)
    else None
  }

  predicate IsModifier(k: PhysicalKey) { KindOf(k).Some? }

  /** The key that injection and typing use for its kind. */
  predicate IsPreferred(k: PhysicalKey) { IsModifier(k) && Preferred(KindOf(k).value) == k }

  predicate IsLock(k: PhysicalKey) { k == CAPS_LOCK || k == NUM_LOCK || k == SCROLL_LOCK }

  /** Neither a modifier nor a lock key: the keys that consume a latch. */
  predicate IsNormal(k: PhysicalKey) { !IsModifier(k) && !IsLock(k) }

  /** Modifier keys are few. */
  lemma ModifiersFew(keys: set<PhysicalKey>)
    requires forall k :: k in keys ==> IsModifier(k)
    ensures |keys| <= 9
  {
    var all: set<PhysicalKey> := {LEFT_SHIFT, RIGHT_SHIFT, LEFT_CTRL, RIGHT_CTRL, LEFT_ALT, RIGHT_ALT, LEFT_META, RIGHT_META, MENU};
    assert keys <= all;
    SubsetSize(keys, all);
  }

  lemma {:induction false} SubsetSize<T>(a: set<T>, b: set<T>)
    requires a <= b
    ensures |a| <= |b|
  {
    if a != {} {
      var x :| x in a;
      SubsetSize(a - {x}, b - {x});
    }
  }

  /** The modifier kinds that have a key in `keys`. */
  ghost function HeldKinds(keys: set<PhysicalKey>): set<ModifierKind> {
    set k | k in keys && IsModifier(k) :: KindOf(k).value
  }

  /** What a sink can be told: press, autorepeat of a held key, release. */
  datatype KeyEvent = Down(key: PhysicalKey) | Repeat(key: PhysicalKey) | Up(key: PhysicalKey)

  // ---- time ----

  const TICK_LIMIT: nat := 0x1_0000_0000_0000_0000

  /** Milliseconds since an arbitrary epoch, 64 bits wide. */
  type Moment = m: nat | m < TICK_LIMIT

  /** A time span in nanoseconds. */
  type Duration = nat

  const NANOS_PER_MILLI: nat := 1_000_000

  /** `t + d`: the span is cut to whole milliseconds and to 64 bits, the sum saturates. */
  function After(t: Moment, d: Duration): (r: Moment)
    ensures d < TICK_LIMIT * NANOS_PER_MILLI && t + d / NANOS_PER_MILLI < TICK_LIMIT ==>
              r == t + d / NANOS_PER_MILLI
    ensures d < TICK_LIMIT * NANOS_PER_MILLI && t + d / NANOS_PER_MILLI >= TICK_LIMIT ==> r == TICK_LIMIT - 1
    ensures r < TICK_LIMIT - 1 ==> r >= t
  {
    var sum := t + (d / NANOS_PER_MILLI) % TICK_LIMIT;
    if sum < TICK_LIMIT then sum else TICK_LIMIT - 1
  }

  /** `later - earlier`, zero when the moments come in the other order. */
  function Since(later: Moment, earlier: Moment): Duration {
    if later >= earlier then (later - earlier) * NANOS_PER_MILLI else 0
  }
}
