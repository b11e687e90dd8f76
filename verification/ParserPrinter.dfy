/** A printer for terminal output and the proof that the parser undoes it, for any list of
    characters, controls, escape, CSI and OSC sequences and other strings. */
module ParserPrinter {
  import opened Utf8
  import opened Parser
  import opened ParserRuns

  type Digit = d: nat | d < 10

  /** Something a program sends to the terminal. */
  datatype Item =
    | CharItem(c: Scalar)
    | ControlItem(code: ControlCode)
    | CsiItem(marker: Byte, params: seq<seq<Digit>>, intermediates: seq<Byte>, final: Byte)
    | OscItem(payload: seq<Byte>, bell: bool)
    | EscItem(sequence: EscSequence)
    | LineItem(n: Byte)
    | CharsetItem(slot: Byte, final: Byte)
    | StringItem(kind: Byte, payload: seq<Byte>)

  ghost predicate AllIntermediate(s: seq<Byte>) {
    forall i :: 0 <= i < |s| ==> 0x20 <= s[i] <= 0x2F
  }

  /** A byte that ends or cancels an OSC string when no escape stands before it. */
  predicate EndsString(b: Byte) { b == 0x07 || b == 0x18 || b == 0x1A }

  /** Bytes an OSC string takes in without ending: an escape shields the byte after it, whatever it is
      but the backslash that makes the pair a terminator. */
  ghost predicate StaysOpen(s: seq<Byte>)
    decreases |s|
  {
    s == [] || if s[0] == 0x1B then |s| >= 2 && s[1] != 0x5C && StaysOpen(s[2..])
               else !EndsString(s[0]) && StaysOpen(s[1..])
  }

  /** The bytes of a string that are stored: an escape is dropped, and the byte after it with it. */
  function Survivors(s: seq<Byte>): (r: seq<Byte>)
    ensures 0x1B !in r && |r| <= |s|
    decreases |s|
  {
    if s == [] then []
    else if s[0] == 0x1B then if |s| == 1 then [] else Survivors(s[2..])
    else [s[0]] + Survivors(s[1..])
  }

  /** The items a program can print: each part in its own byte range. */
  ghost predicate Printable(i: Item) {
    match i
    case CharItem(c) => 0x20 <= c <= 0x7E || c >= 0x80
    case ControlItem(code) => ControlByte(code) != 0
    case CsiItem(marker, params, inters, final) =>
      && (marker == 0 || 0x3C <= marker <= 0x3F)
      && !(|params| == 1 && params[0] == [])
      && AllIntermediate(inters)
      && 0x40 <= final <= 0x7E
    case OscItem(payload, _) => StaysOpen(payload)
    case EscItem(sequence) => EscByte(sequence) != 0
    case LineItem(n) => 0x30 <= n <= 0x7E
    case CharsetItem(slot, final) => (0x28 <= slot <= 0x2B || 0x2D <= slot <= 0x2F) && 0x30 <= final <= 0x7E
    case StringItem(kind, payload) => (kind == 0x50 || kind == 0x58 || kind == 0x5E || kind == 0x5F) && Unended(payload)
  }

  function ControlByte(code: ControlCode): Byte {
    match code
    case Bell => 0x07
    case Backspace => 0x08
    case Tab => 0x09
    case LineFeed => 0x0A
    case VerticalTab => 0x0B
    case FormFeed => 0x0C
    case CarriageReturn => 0x0D
    case Index => 0x84
    case NextLine => 0x85
    case TabSet => 0x88
    case ReverseIndex => 0x8D
  }

  function EscByte(sequence: EscSequence): Byte {
    match sequence
    case SaveCursor => 0x37
    case RestoreCursor => 0x38
    case EscIndex => 0x44
    case EscNextLine => 0x45
    case EscReverseIndex => 0x4D
    case EscTabSet => 0x48
    case KeypadApplication => 0x3D
    case KeypadNumeric => 0x3E
    case FullReset => 0x63
    case Decid => 0x5A
    case LineAttributes(_) => 0
  }

  /** No byte that ends a device control or other string. */
  ghost predicate Unended(s: seq<Byte>) {
    forall i :: 0 <= i < |s| ==> s[i] != 0x18 && s[i] != 0x1A && s[i] != 0x1B && s[i] != 0x9C
  }

  function DigitByte(d: Digit): Byte { 0x30 + d as int }

  function DigitBytes(ds: seq<Digit>): seq<Byte> {
    seq(|ds|, i requires 0 <= i < |ds| => DigitByte(ds[i]))
  }

  /** Parameters joined by semicolons. */
  function ParamBytes(ps: seq<seq<Digit>>): seq<Byte> {
    if ps == [] then []
    else if |ps| == 1 then DigitBytes(ps[0])
    else DigitBytes(ps[0]) + ([0x3B] + ParamBytes(ps[1..]))
  }

  function Bytes(i: Item): seq<Byte> {
    match i
    case CharItem(c) => Encode(c)
    case ControlItem(code) => [ControlByte(code)]
    case CsiItem(marker, params, inters, final) =>
      [0x1B] + ([0x5B] + ((if marker == 0 then [] else [marker]) + (ParamBytes(params) + (inters + [final]))))
    case OscItem(payload, bell) => [0x1B] + ([0x5D] + (payload + (if bell then [0x07] else [0x1B] + [0x5C])))
    case EscItem(sequence) => [0x1B] + [EscByte(sequence)]
    case LineItem(n) => [0x1B] + ([0x23] + [n])
    case CharsetItem(slot, final) => [0x1B] + ([slot] + [final])
    case StringItem(kind, payload) => [0x1B] + ([kind] + (payload + ([0x1B] + [0x5C])))
  }

  function FirstN<T>(s: seq<T>, n: nat): seq<T> { if |s| <= n then s else s[..n] }

  /** The decimal value of a digit string behind `acc`. */
  function Value(acc: nat, ds: seq<Digit>): nat
    decreases |ds|
  {
    if ds == [] then acc else Value(acc * 10 + ds[0], ds[1..])
  }

  function Values(ps: seq<seq<Digit>>): seq<U16> {
    seq(|ps|, i requires 0 <= i < |ps| => Saturated(Value(0, ps[i])))
  }

  /** What the item means: parameters saturate at 65535, and at most sixteen of them, two
      intermediates and 4096 stored payload bytes are reported; device control strings, and the strings
      that ESC X, ESC ^ and ESC _ begin, mean nothing. */
  ghost function Meaning(i: Item): seq<Action>
    requires Printable(i)
  {
    match i
    case CharItem(c) => [Print(c)]
    case ControlItem(code) => [Control(code)]
    case CsiItem(marker, params, inters, final) =>
      [Csi(marker, FirstN(Values(params), MAX_PARAMS), FirstN(inters, MAX_INTERMEDIATES), final)]
    case OscItem(payload, _) => [Osc(FirstN(Survivors(payload), MAX_OSC_LEN))]
    case EscItem(sequence) => [Esc(sequence)]
    case LineItem(n) => [Esc(LineAttributes(n))]
    case CharsetItem(_, final) => [CharsetSelect(final)]
    case StringItem(_, _) => []
  }

  /** In ground, nothing pending, nothing left over. */
  ghost predicate Clean(m: Machine) {
    m.state == Ground && m.utf8 == [] && NoResidue(m) && !m.oscPendingEsc
  }

  // ---- characters ----

  lemma {:induction false} Utf8Run(m: Machine, s: seq<Byte>, k: nat)
    requires WellFormed(s) && 1 <= k < |s| && m.state == Ground && m.utf8 == s[..k] && m.expected == |s|
    ensures Feed(m, s[k..]) == Stepped(m.(utf8 := []), [Print(Decode(s))])
    decreases |s| - k
  {
    assert s[k..] == [s[k]] + s[k + 1..];
    assert s[..k] + [s[k]] == s[..k + 1];
    if k + 1 == |s| {
      assert s[..k + 1] == s;
      FeedOne(m, s[k]);
    } else {
      var next := m.(utf8 := s[..k + 1]);
      assert Advance(m, s[k]) == Stepped(next, []);
      FeedSilent(m, s[k], s[k + 1..], next);
      Utf8Run(next, s, k + 1);
    }
  }

  lemma CharRun(m: Machine, c: Scalar)
    requires Clean(m) && Printable(CharItem(c))
    ensures Feed(m, Encode(c)).out == [Print(c)] && Clean(Feed(m, Encode(c)).next)
  {
    DecodeEncode(c);
    var s := Encode(c);
    assert |s| == 1 ==> s == [c] && c < 0x80;
    hide Encode, Decode;
    if |s| == 1 {
      FeedOne(m, s[0]);
    } else {
      var next := m.(utf8 := s[..1], expected := |s|);
      assert s == [s[0]] + s[1..] && s[..1] == [s[0]];
      FeedSilent(m, s[0], s[1..], next);
      Utf8Run(next, s, 1);
    }
  }

  // ---- CSI ----

  lemma DigitStep(m: Machine, d: Digit, acc: nat)
    requires m.state == CsiParam && m.current == Saturated(acc) && (m.overflow ==> m.current == 65535)
    ensures var next := AddDigit(m, d);
            && Advance(m, DigitByte(d)) == Stepped(next, [])
            && next == m.(current := Saturated(acc * 10 + d), overflow := next.overflow)
            && (next.overflow ==> next.current == 65535)
  {
  }

  /** Digits of any number read as their decimal value, held at 65535. */
  lemma {:induction false} DigitsRun(m: Machine, ds: seq<Digit>, acc: nat)
    requires m.state == CsiParam && m.current == Saturated(acc) && (m.overflow ==> m.current == 65535)
    ensures var r := Feed(m, DigitBytes(ds));
            r.out == [] && r.next == m.(current := Saturated(Value(acc, ds)), overflow := r.next.overflow)
    decreases |ds|
  {
    if ds != [] {
      DigitStep(m, ds[0], acc);
      assert DigitBytes(ds) == [DigitByte(ds[0])] + DigitBytes(ds[1..]);
      FeedSilent(m, DigitByte(ds[0]), DigitBytes(ds[1..]), AddDigit(m, ds[0]));
      hide Advance;
      DigitsRun(AddDigit(m, ds[0]), ds[1..], acc * 10 + ds[0]);
    }
  }

  /** A list of parameters, the last of which is still open. */
  lemma {:induction false} ParamsRun(m: Machine, ps: seq<seq<Digit>>)
    requires m.state == CsiParam && m.current == 0 && !m.overflow && ps != [] && |m.params| <= MAX_PARAMS
    ensures var r := Feed(m, ParamBytes(ps));
            r.out == [] && r.next.state == CsiParam
            && PushParam(r.next) == m.(params := FirstN(m.params + Values(ps), MAX_PARAMS))
    decreases |ps|
  {
    DigitsRun(m, ps[0], 0);
    var after := Feed(m, DigitBytes(ps[0])).next;
    var v := Saturated(Value(0, ps[0]));
    hide Advance, Value, Saturated;
    PushFirst(m, after, v);
    if |ps| == 1 {
      assert Values(ps) == [v];
    } else {
      var next := PushParam(after);
      assert Values(ps) == [v] + Values(ps[1..]);
      SemicolonStep(after);
      FeedSilent(after, 0x3B, ParamBytes(ps[1..]), next);
      FeedConcat(m, DigitBytes(ps[0]), [0x3B] + ParamBytes(ps[1..]));
      ParamsRun(next, ps[1..]);
      FirstNTwice(m.params, [v], Values(ps[1..]));
      assert [] + Feed(after, [0x3B] + ParamBytes(ps[1..])).out == [];
    }
  }

  lemma SemicolonStep(m: Machine)
    requires m.state == CsiParam
    ensures Advance(m, 0x3B) == Stepped(PushParam(m), [])
  {
  }

  lemma PushFirst(m: Machine, after: Machine, v: U16)
    requires after == m.(current := v, overflow := after.overflow) && m.current == 0 && !m.overflow && |m.params| <= MAX_PARAMS
    ensures PushParam(after) == m.(params := FirstN(m.params + [v], MAX_PARAMS))
  {
    if |m.params| == MAX_PARAMS {
      assert (m.params + [v])[..MAX_PARAMS] == m.params;
    }
  }

  lemma FirstNTwice(a: seq<U16>, b: seq<U16>, c: seq<U16>)
    ensures FirstN(FirstN(a + b, MAX_PARAMS) + c, MAX_PARAMS) == FirstN(a + (b + c), MAX_PARAMS)
  {
    assert a + (b + c) == (a + b) + c;
    if |a + b| > MAX_PARAMS {
      assert ((a + b)[..MAX_PARAMS] + c)[..MAX_PARAMS] == (a + (b + c))[..MAX_PARAMS];
    }
  }

  lemma {:induction false} IntermediatesRun(m: Machine, inters: seq<Byte>, final: Byte)
    requires m.state == CsiIntermediate && |m.intermediates| <= MAX_INTERMEDIATES
    requires AllIntermediate(inters) && 0x40 <= final <= 0x7E
    ensures Feed(m, inters + [final])
         == EmitCsi(m.(intermediates := FirstN(m.intermediates + inters, MAX_INTERMEDIATES)), final)
    decreases |inters|
  {
    if inters == [] {
      FeedOne(m, final);
      assert inters + [final] == [final] && m.intermediates + inters == m.intermediates;
    } else {
      var next := m.(intermediates := Collected(m.intermediates, inters[0]));
      assert inters + [final] == [inters[0]] + (inters[1..] + [final]);
      FeedSilent(m, inters[0], inters[1..] + [final], next);
      IntermediatesRun(next, inters[1..], final);
      hide Feed, Advance;
      CollectedFirst(m.intermediates, inters);
    }
  }

  lemma CollectedFirst(a: seq<Byte>, b: seq<Byte>)
    requires b != [] && |a| <= MAX_INTERMEDIATES
    ensures FirstN(Collected(a, b[0]) + b[1..], MAX_INTERMEDIATES) == FirstN(a + b, MAX_INTERMEDIATES)
  {
    assert a + b == a + [b[0]] + b[1..];
    if |a| == MAX_INTERMEDIATES {
      assert FirstN(a + b[1..], MAX_INTERMEDIATES) == a;
      assert FirstN(a + b, MAX_INTERMEDIATES) == a;
    }
  }

  /** The end of a CSI sequence, from a machine whose open parameter `q` has closed. */
  lemma TailRun(m: Machine, q: Machine, inters: seq<Byte>, final: Byte)
    requires AllIntermediate(inters) && 0x40 <= final <= 0x7E && q.intermediates == []
    requires (m.state == CsiParam && q == PushParam(m)) || (m.state == CsiEntry && q == m)
    ensures Feed(m, inters + [final])
         == EmitCsi(q.(intermediates := FirstN(inters, MAX_INTERMEDIATES)), final)
  {
    if inters == [] {
      assert inters + [final] == [final];
      FeedOne(m, final);
    } else {
      var next := q.(intermediates := [inters[0]], state := CsiIntermediate);
      assert inters + [final] == [inters[0]] + (inters[1..] + [final]);
      FeedSilent(m, inters[0], inters[1..] + [final], next);
      IntermediatesRun(next, inters[1..], final);
      assert [inters[0]] + inters[1..] == inters;
    }
  }

  lemma EntryIsParam(m: Machine, bytes: seq<Byte>)
    requires m.state == CsiEntry && bytes != [] && 0x30 <= bytes[0] <= 0x3B
    ensures Feed(m, bytes) == Feed(m.(state := CsiParam), bytes)
  {
  }

  lemma ParamBytesFirst(ps: seq<seq<Digit>>)
    requires ps != [] && !(|ps| == 1 && ps[0] == [])
    ensures ParamBytes(ps) != [] && 0x30 <= ParamBytes(ps)[0] <= 0x3B
  {
  }

  /** Everything after the marker. */
  lemma CsiBodyRun(m: Machine, ps: seq<seq<Digit>>, inters: seq<Byte>, final: Byte)
    requires m.state == CsiEntry && m.params == [] && m.current == 0 && !m.overflow && m.intermediates == []
    requires !(|ps| == 1 && ps[0] == []) && AllIntermediate(inters) && 0x40 <= final <= 0x7E
    ensures var r := Feed(m, ParamBytes(ps) + (inters + [final]));
            && r.out == [Csi(m.marker, FirstN(Values(ps), MAX_PARAMS), FirstN(inters, MAX_INTERMEDIATES), final)]
            && r.next == ResetSequence(m)
  {
    if ps == [] {
      TailRun(m, m, inters, final);
      assert ParamBytes(ps) + (inters + [final]) == inters + [final];
      assert Values(ps) == [];
    } else {
      ParamBytesFirst(ps);
      EntryIsParam(m, ParamBytes(ps) + (inters + [final]));
      var p := m.(state := CsiParam);
      ParamsRun(p, ps);
      var open := Feed(p, ParamBytes(ps)).next;
      TailRun(open, PushParam(open), inters, final);
      FeedConcat(p, ParamBytes(ps), inters + [final]);
      hide Advance, Feed, ParamBytes, Values;
      assert p.params + Values(ps) == Values(ps);
      assert [] + Feed(open, inters + [final]).out == Feed(open, inters + [final]).out;
    }
  }

  lemma CsiRun(m: Machine, i: Item)
    requires Clean(m) && Printable(i) && i.CsiItem?
    ensures Feed(m, Bytes(i)).out == Meaning(i) && Clean(Feed(m, Bytes(i)).next)
  {
    var body := ParamBytes(i.params) + (i.intermediates + [i.final]);
    var head := if i.marker == 0 then [] else [i.marker];
    var e, c := m.(state := Escape), m.(state := CsiEntry);
    FeedSilent(m, 0x1B, [0x5B] + (head + body), e);
    FeedSilent(e, 0x5B, head + body, c);
    if i.marker == 0 {
      assert head + body == body;
    } else {
      FeedSilent(c, i.marker, body, c.(marker := i.marker));
    }
    CsiBodyRun(c.(marker := i.marker), i.params, i.intermediates, i.final);
    hide Advance, Feed, ParamBytes, Values;
  }

  // ---- OSC ----

  lemma ShieldedPair(m: Machine, s: seq<Byte>)
    requires m.state == OscString && !m.oscPendingEsc && |s| >= 2 && s[0] == 0x1B && s[1] != 0x5C
    ensures Feed(m, s) == Feed(m, s[2..])
  {
    var e := m.(oscPendingEsc := true, state := Escape);
    assert s == [s[0]] + ([s[1]] + s[2..]);
    FeedSilent(m, s[0], [s[1]] + s[2..], e);
    FeedSilent(e, s[1], s[2..], m);
  }

  /** The string with more bytes taken in: stored up to the limit and dropped after it. */
  function Stored(m: Machine, payload: seq<Byte>): Machine {
    var all := m.osc + Survivors(payload);
    m.(osc := FirstN(all, MAX_OSC_LEN), oscTruncated := m.oscTruncated || |all| > MAX_OSC_LEN)
  }

  lemma {:induction false} OscRun(m: Machine, payload: seq<Byte>)
    requires m.state == OscString && |m.osc| <= MAX_OSC_LEN && (m.oscTruncated ==> |m.osc| == MAX_OSC_LEN)
    requires !m.oscPendingEsc && StaysOpen(payload)
    ensures Feed(m, payload) == Quiet(Stored(m, payload))
    decreases |payload|
  {
    if payload == [] {
      assert m.osc + [] == m.osc;
    } else if payload[0] == 0x1B {
      ShieldedPair(m, payload);
      OscRun(m, payload[2..]);
    } else {
      var next := OscStep(m, payload[0]).next;
      assert payload == [payload[0]] + payload[1..];
      FeedSilent(m, payload[0], payload[1..], next);
      StoreOne(m, payload);
      OscRun(next, payload[1..]);
      hide Feed, Advance, Stored, OscStep;
    }
  }

  lemma StoreOne(m: Machine, payload: seq<Byte>)
    requires m.state == OscString && |m.osc| <= MAX_OSC_LEN && (m.oscTruncated ==> |m.osc| == MAX_OSC_LEN)
    requires payload != [] && payload[0] != 0x1B && !EndsString(payload[0])
    ensures var next := OscStep(m, payload[0]).next;
            && Stored(next, payload[1..]) == Stored(m, payload)
            && |next.osc| <= MAX_OSC_LEN && (next.oscTruncated ==> |next.osc| == MAX_OSC_LEN)
            && next == m.(osc := next.osc, oscTruncated := next.oscTruncated)
  {
    var rest := Survivors(payload[1..]);
    if |m.osc| < MAX_OSC_LEN {
      assert m.osc + [payload[0]] + rest == m.osc + Survivors(payload);
    } else {
      assert FirstN(m.osc + rest, MAX_OSC_LEN) == m.osc;
      assert FirstN(m.osc + Survivors(payload), MAX_OSC_LEN) == m.osc;
    }
  }

  /** How much of a byte string an OSC string takes in before it ends. */
  ghost function OpenLength(s: seq<Byte>): (n: nat)
    ensures n <= |s| && StaysOpen(s[..n])
    ensures n < |s| ==> EndsString(s[n]) || (s[n] == 0x1B && (n + 1 == |s| || s[n + 1] == 0x5C))
    decreases |s|
  {
    if s == [] || EndsString(s[0]) then 0
    else if s[0] != 0x1B then
      var n := OpenLength(s[1..]);
      assert s[..1 + n][1..] == s[1..][..n];
      1 + n
    else if |s| == 1 || s[1] == 0x5C then 0
    else
      var n := OpenLength(s[2..]);
      assert s[..2 + n][2..] == s[2..][..n];
      2 + n
  }

  /** The string is over. */
  function Closed(m: Machine): Machine { m.(osc := [], state := Ground) }

  lemma OscEnd(m: Machine, bell: bool)
    requires m.state == OscString && !m.oscPendingEsc
    ensures Feed(m, if bell then [0x07] else [0x1B] + [0x5C]) == Stepped(Closed(m), [Osc(m.osc)])
  {
    if bell {
      FeedOne(m, 0x07);
    } else {
      var e := m.(oscPendingEsc := true, state := Escape);
      FeedSilent(m, 0x1B, [0x5C], e);
      FeedOne(e, 0x5C);
    }
  }

  /** `out` comes before what `s` gives. */
  function After(out: seq<Action>, s: Stepped): Stepped { s.(out := out + s.out) }

  /** The bytes from the one that ends the open string on. */
  function Ending(open: Machine, rest: seq<Byte>): Stepped
    requires rest != []
  {
    if rest[0] == 0x07 then After([Osc(open.osc)], Feed(Closed(open), rest[1..]))
    else if rest[0] != 0x1B then Feed(Closed(open), rest[1..])
    else if |rest| == 1 then Quiet(open.(oscPendingEsc := true, state := Escape))
    else After([Osc(open.osc)], Feed(Closed(open), rest[2..]))
  }

  lemma EndingRun(open: Machine, rest: seq<Byte>)
    requires open.state == OscString && !open.oscPendingEsc && rest != []
    requires EndsString(rest[0]) || (rest[0] == 0x1B && (|rest| == 1 || rest[1] == 0x5C))
    ensures Feed(open, rest) == Ending(open, rest)
  {
    assert rest == [rest[0]] + rest[1..];
    if rest[0] == 0x07 {
      OscEnd(open, true);
      FeedConcat(open, [0x07], rest[1..]);
      hide Feed, Advance;
    } else if rest[0] != 0x1B {
      FeedSilent(open, rest[0], rest[1..], Closed(open));
    } else if |rest| == 1 {
      FeedOne(open, 0x1B);
    } else {
      OscEnd(open, false);
      assert rest == ([0x1B] + [0x5C]) + rest[2..];
      FeedConcat(open, [0x1B] + [0x5C], rest[2..]);
      hide Feed, Advance;
    }
  }

  /** What becomes of any bytes behind the start of an OSC string: the first BEL or pair of escape and
      backslash that is not shielded reports what was stored so far, the first CAN or SUB drops it, and
      the rest is read from ground; before any of them the string is open and silent. */
  lemma OscAnyBytes(m: Machine, s: seq<Byte>)
    requires m.state == OscString && m.osc == [] && !m.oscTruncated && !m.oscPendingEsc
    ensures var n := OpenLength(s);
            var open := Stored(m, s[..n]);
            && open.osc == FirstN(Survivors(s[..n]), MAX_OSC_LEN)
            && Feed(m, s) == if n == |s| then Quiet(open) else Ending(open, s[n..])
  {
    var n := OpenLength(s);
    var open, rest := Stored(m, s[..n]), s[n..];
    assert m.osc + Survivors(s[..n]) == Survivors(s[..n]);
    OscRun(m, s[..n]);
    hide Survivors, OpenLength, StaysOpen, Feed, Advance, Ending;
    assert s == s[..n] + rest;
    FeedConcat(m, s[..n], rest);
    assert [] + Feed(open, rest).out == Feed(open, rest).out;
    if n < |s| {
      EndingRun(open, rest);
    } else {
      FeedNothing(open);
    }
  }

  lemma FeedNothing(m: Machine)
    ensures Feed(m, []) == Quiet(m)
  {
  }

  lemma OscItemRun(m: Machine, i: Item)
    requires Clean(m) && Printable(i) && i.OscItem?
    ensures Feed(m, Bytes(i)).out == Meaning(i) && Clean(Feed(m, Bytes(i)).next)
  {
    var end := if i.bell then [0x07] else [0x1B] + [0x5C];
    var e := m.(state := Escape);
    var o := BeginOsc(e);
    FeedSilent(m, 0x1B, [0x5D] + (i.payload + end), e);
    FeedSilent(e, 0x5D, i.payload + end, o);
    OscRun(o, i.payload);
    var full := Stored(o, i.payload);
    FeedConcat(o, i.payload, end);
    assert o.osc + Survivors(i.payload) == Survivors(i.payload);
    OscEnd(full, i.bell);
    hide Advance, Feed, StaysOpen, Survivors;
    assert [] + Feed(full, end).out == Feed(full, end).out;
  }

  /** A payload comes back as it was sent, up to the limit, exactly when no escape stands within it. */
  lemma PayloadVerbatimIff(payload: seq<Byte>)
    requires StaysOpen(payload)
    ensures FirstN(Survivors(payload), MAX_OSC_LEN) == FirstN(payload, MAX_OSC_LEN)
       <==> 0x1B !in FirstN(payload, MAX_OSC_LEN)
  {
    var n := if |payload| <= MAX_OSC_LEN then |payload| else MAX_OSC_LEN;
    if 0x1B !in payload[..n] {
      SurvivorsPrefix(payload, n);
    } else {
      assert 0x1B in FirstN(payload, MAX_OSC_LEN);
      assert 0x1B !in FirstN(Survivors(payload), MAX_OSC_LEN);
    }
  }

  lemma {:induction false} SurvivorsPrefix(s: seq<Byte>, n: nat)
    requires n <= |s| && 0x1B !in s[..n]
    ensures n <= |Survivors(s)| && Survivors(s)[..n] == s[..n]
    ensures n == |s| ==> Survivors(s) == s
    decreases |s|
  {
    if n > 0 {
      assert s[..n][0] == s[0] && s[..n][1..] == s[1..][..n - 1];
      SurvivorsPrefix(s[1..], n - 1);
      assert s == [s[0]] + s[1..];
    }
  }

  // ---- the rest ----

  lemma ShortRun(m: Machine, i: Item)
    requires Clean(m) && Printable(i) && (i.ControlItem? || i.EscItem? || i.LineItem? || i.CharsetItem?)
    ensures Feed(m, Bytes(i)).out == Meaning(i) && Clean(Feed(m, Bytes(i)).next)
  {
    var e := m.(state := Escape);
    match i
    case ControlItem(code) => FeedOne(m, ControlByte(code));
    case EscItem(sequence) =>
      FeedSilent(m, 0x1B, [EscByte(sequence)], e);
      EscReads(e, sequence);
      FeedOne(e, EscByte(sequence));
    case LineItem(n) =>
      FeedSilent(m, 0x1B, [0x23] + [n], e);
      FeedSilent(e, 0x23, [n], m.(state := Line));
      FeedOne(m.(state := Line), n);
    case CharsetItem(slot, final) =>
      FeedSilent(m, 0x1B, [slot] + [final], e);
      FeedSilent(e, slot, [final], m.(state := Charset));
      FeedOne(m.(state := Charset), final);
  }

  lemma EscReads(e: Machine, sequence: EscSequence)
    requires e.state == Escape && !e.oscPendingEsc && EscByte(sequence) != 0
    ensures Advance(e, EscByte(sequence)) == Stepped(e.(state := Ground), [Esc(sequence)])
  {
  }

  // ---- strings that mean nothing ----

  ghost predicate InString(m: Machine) {
    m.state == DcsEntry || m.state == DcsPassthrough || m.state == SosPmApc
  }

  /** Their payload is counted, and nothing else about the machine changes but the part of the string. */
  lemma {:induction false} StringSilent(m: Machine, payload: seq<Byte>)
    requires InString(m) && Unended(payload)
    ensures var r := Feed(m, payload);
            && r.out == [] && InString(r.next)
            && r.next == m.(state := r.next.state, passthrough := r.next.passthrough)
    decreases |payload|
  {
    if payload != [] {
      var next := Advance(m, payload[0]).next;
      assert payload == [payload[0]] + payload[1..];
      FeedSilent(m, payload[0], payload[1..], next);
      StringSilent(next, payload[1..]);
    }
  }

  lemma StringItemRun(m: Machine, i: Item)
    requires Clean(m) && Printable(i) && i.StringItem?
    ensures Feed(m, Bytes(i)).out == Meaning(i) && Clean(Feed(m, Bytes(i)).next)
  {
    var e := m.(state := Escape);
    var end := [0x1B] + [0x5C];
    var q := Advance(e, i.kind).next;
    FeedSilent(m, 0x1B, [i.kind] + (i.payload + end), e);
    FeedSilent(e, i.kind, i.payload + end, q);
    hide Advance, Feed, Unended;
    StringSilent(q, i.payload);
    FeedConcat(q, i.payload, end);
    StringEnd(Feed(q, i.payload).next);
  }

  lemma StringEnd(m: Machine)
    requires InString(m) && !m.oscPendingEsc
    ensures Feed(m, [0x1B] + [0x5C]) == Quiet(m.(state := Ground))
  {
    var e := m.(state := Escape);
    FeedSilent(m, 0x1B, [0x5C], e);
    FeedOne(e, 0x5C);
  }

  lemma ItemRun(m: Machine, i: Item)
    requires Clean(m) && Printable(i)
    ensures Feed(m, Bytes(i)).out == Meaning(i) && Clean(Feed(m, Bytes(i)).next)
  {
    match i
    case CharItem(c) => CharRun(m, c);
    case CsiItem(_, _, _, _) => CsiRun(m, i);
    case OscItem(_, _) => OscItemRun(m, i);
    case StringItem(_, _) => StringItemRun(m, i);
    case _ => ShortRun(m, i);
    hide Feed, Clean, Printable, Encode;
  }

  function BytesAll(items: seq<Item>): seq<Byte> {
    if items == [] then [] else Bytes(items[0]) + BytesAll(items[1..])
  }

  ghost function MeaningAll(items: seq<Item>): seq<Action>
    requires forall i :: i in items ==> Printable(i)
  {
    if items == [] then [] else Meaning(items[0]) + MeaningAll(items[1..])
  }

  /** Parsing undoes printing: from a clean ground, the bytes of any list of printable items parse
      to exactly their meanings, in order, and end in a clean ground. */
  lemma {:induction false} ParserUndoesPrinter(m: Machine, items: seq<Item>)
    requires Clean(m) && forall i :: i in items ==> Printable(i)
    ensures Feed(m, BytesAll(items)).out == MeaningAll(items) && Clean(Feed(m, BytesAll(items)).next)
    decreases |items|
  {
    if items != [] {
      ItemRun(m, items[0]);
      var next := Feed(m, Bytes(items[0])).next;
      ParserUndoesPrinter(next, items[1..]);
      FeedConcat(m, Bytes(items[0]), BytesAll(items[1..]));
      hide Feed, Clean, Printable, Bytes, Meaning;
    }
  }
}
