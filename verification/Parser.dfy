/** The terminal's byte parser as a function of values: a 12-state machine for control sequences
    (section 5.4 of ECMA-48) with UTF-8 decoding in its ground state. */
module Parser {
  import opened Options
  import opened Utf8

  type U16 = n: nat | n <= 65535

  const MAX_PARAMS: nat := 16
  const MAX_INTERMEDIATES: nat := 2
  const MAX_OSC_LEN: nat := 4096
  const USIZE_MAX: nat := 0xFFFF_FFFF_FFFF_FFFF

  datatype ControlCode =
    | Bell | Backspace | Tab | LineFeed | VerticalTab | FormFeed | CarriageReturn
    | Index | NextLine | TabSet | ReverseIndex

  datatype EscSequence =
    | SaveCursor | RestoreCursor | EscIndex | EscNextLine | EscReverseIndex | EscTabSet
    | KeypadApplication | KeypadNumeric | FullReset | Decid | LineAttributes(n: Byte)

  datatype Action =
    | Print(c: Scalar)
    | Control(code: ControlCode)
    | Csi(marker: Byte, params: seq<U16>, intermediates: seq<Byte>, final: Byte)
    | Osc(payload: seq<Byte>)
    | Esc(sequence: EscSequence)
    | CharsetSelect(final: Byte)

  datatype State =
    | Ground | Escape | EscapeIntermediate | Charset | Line
    | CsiEntry | CsiParam | CsiIntermediate
    | OscString | DcsEntry | DcsPassthrough | SosPmApc

  /** The parser between two bytes; tables hold their live entries only. */
  datatype Machine = Machine(
    state: State,
    utf8: seq<Byte>,
    expected: nat,
    marker: Byte,
    params: seq<U16>,
    current: U16,
    overflow: bool,
    intermediates: seq<Byte>,
    osc: seq<Byte>,
    oscTruncated: bool,
    oscPendingEsc: bool,
    passthrough: nat)

  datatype Stepped = Stepped(next: Machine, out: seq<Action>)

  function Fresh(): Machine {
    Machine(Ground, [], 0, 0, [], 0, false, [], [], false, false, 0)
  }

  function Quiet(m: Machine): Stepped { Stepped(m, []) }

  /** Back to ground with one action. */
  function Emit(m: Machine, a: Action): Stepped { Stepped(m.(state := Ground), [a]) }

  // ---- ground and UTF-8 ----

  function ControlOut(b: Byte): seq<Action> {
    if b == 0x07 then [Control(Bell)]
    else if b == 0x08 then [Control(Backspace)]
    else if b == 0x09 then [Control(Tab)]
    else if b == 0x0A then [Control(LineFeed)]
    else if b == 0x0B then [Control(VerticalTab)]
    else if b == 0x0C then [Control(FormFeed)]
    else if b == 0x0D then [Control(CarriageReturn)]
    else []
  }

  function BeginOsc(m: Machine): Machine {
    m.(osc := [], oscTruncated := false, state := OscString)
  }

  /** A C1 byte outside a UTF-8 sequence. */
  function C1(m: Machine, b: Byte): Stepped {
    if b == 0x84 then Stepped(m, [Control(Index)])
    else if b == 0x85 then Stepped(m, [Control(NextLine)])
    else if b == 0x88 then Stepped(m, [Control(TabSet)])
    else if b == 0x8D then Stepped(m, [Control(ReverseIndex)])
    else if b == 0x9B then Quiet(m.(state := CsiEntry))
    else if b == 0x9D then Quiet(BeginOsc(m))
    else if b == 0x90 then Quiet(m.(state := DcsEntry))
    else if b == 0x98 || b == 0x9E || b == 0x9F then Quiet(m.(passthrough := 0, state := SosPmApc))
    else if b == 0x9C then Quiet(m)
    else Stepped(m, [Print(REPLACEMENT)])
  }

  /** A byte in ground with no UTF-8 sequence pending. */
  function GroundByte(m: Machine, b: Byte): Stepped {
    if b == 0x1B then Quiet(m.(state := Escape))
    else if b == 0x18 || b == 0x1A || b == 0x7F then Quiet(m)
    else if b < 0x20 then Stepped(m, ControlOut(b))
    else if b < 0x7F then Stepped(m, [Print(b)])
    else if 0x80 <= b <= 0x9F then C1(m, b)
    else if LeadLength(b) == 0 then Stepped(m, [Print(REPLACEMENT)])
    else Quiet(m.(utf8 := [b], expected := LeadLength(b)))
  }

  function GroundStep(m: Machine, b: Byte): Stepped {
    if m.utf8 == [] then GroundByte(m, b)
    else if IsContinuation(b) then
      var s := m.utf8 + [b];
      if |s| == m.expected then
        Stepped(m.(utf8 := []), [Print(if WellFormed(s) then Decode(s) else REPLACEMENT)])
      else Quiet(m.(utf8 := s))
    else
      var r := GroundByte(m.(utf8 := []), b);
      r.(out := [Print(REPLACEMENT)] + r.out)
  }

  // ---- escape ----

  function EndOsc(m: Machine): Stepped {
    Stepped(m.(osc := [], state := Ground, oscPendingEsc := false), [Osc(m.osc)])
  }

  function EscapeStep(m: Machine, b: Byte): Stepped {
    if m.oscPendingEsc then
      if b == 0x5C then EndOsc(m.(oscPendingEsc := false))
      else Quiet(m.(oscPendingEsc := false, state := OscString))
    else if b == 0x1B then Quiet(m)
    else if b == 0x5B then Quiet(m.(state := CsiEntry))
    else if b == 0x5D then Quiet(BeginOsc(m))
    else if b == 0x50 then Quiet(m.(passthrough := 0, state := DcsEntry))
    else if b == 0x58 || b == 0x5E || b == 0x5F then Quiet(m.(passthrough := 0, state := SosPmApc))
    else if 0x28 <= b <= 0x2B || 0x2D <= b <= 0x2F then Quiet(m.(state := Charset))
    else if b == 0x23 then Quiet(m.(state := Line))
    else if EscOut(b).Some? then Emit(m, Esc(EscOut(b).value))
    else if 0x20 <= b <= 0x2F then Quiet(m.(intermediates := [b], state := EscapeIntermediate))
    else Quiet(m.(state := Ground))
  }

  function EscOut(b: Byte): Option<EscSequence> {
    if b == 0x37 then Some(SaveCursor)
    else if b == 0x38 then Some(RestoreCursor)
    else if b == 0x44 then Some(EscIndex)
    else if b == 0x45 then Some(EscNextLine)
    else if b == 0x4D then Some(EscReverseIndex)
    else if b == 0x48 then Some(EscTabSet)
    else if b == 0x3D then Some(KeypadApplication)
    else if b == 0x3E then Some(KeypadNumeric)
    else if b == 0x63 then Some(FullReset)
    else if b == 0x5A then Some(Decid)
    else None
  }

  function Collected(inters: seq<Byte>, b: Byte): seq<Byte> {
    if |inters| < MAX_INTERMEDIATES then inters + [b] else inters
  }

  function EscapeIntermediateStep(m: Machine, b: Byte): Stepped {
    if 0x20 <= b <= 0x2F then Quiet(m.(intermediates := Collected(m.intermediates, b)))
    else if b == 0x18 || b == 0x1A || 0x30 <= b <= 0x7E then Quiet(m.(state := Ground))
    else GroundStep(m.(state := Ground), b)
  }

  function CharsetStep(m: Machine, b: Byte): Stepped {
    if 0x30 <= b <= 0x7E then Emit(m, CharsetSelect(b)) else GroundStep(m.(state := Ground), b)
  }

  function LineStep(m: Machine, b: Byte): Stepped {
    if 0x30 <= b <= 0x7E then Emit(m, Esc(LineAttributes(b))) else GroundStep(m.(state := Ground), b)
  }

  // ---- CSI ----

  function ResetSequence(m: Machine): Machine {
    m.(state := Ground, marker := 0, params := [], current := 0, overflow := false, intermediates := [])
  }

  function PushParam(m: Machine): Machine {
    m.(params := if |m.params| < MAX_PARAMS then m.params + [m.current] else m.params, current := 0, overflow := false)
  }

  function EmitCsi(m: Machine, final: Byte): Stepped {
    Stepped(ResetSequence(m), [Csi(m.marker, m.params, m.intermediates, final)])
  }

  function Saturated(n: nat): U16 { if n <= 65535 then n else 65535 }

  function AddDigit(m: Machine, digit: nat): Machine {
    if m.overflow then m
    else
      var next := Saturated(Saturated(m.current * 10) + digit);
      m.(current := next, overflow := next == 65535 && m.current > 6553)
  }

  function CsiParamStep(m: Machine, b: Byte): Stepped {
    if b == 0x18 || b == 0x1A then Quiet(m.(state := Ground))
    else if 0x30 <= b <= 0x39 then Quiet(AddDigit(m, b - 0x30))
    else if b == 0x3A || b == 0x3B then Quiet(PushParam(m))
    else if 0x20 <= b <= 0x2F then Quiet(PushParam(m).(intermediates := [b], state := CsiIntermediate))
    else if 0x40 <= b <= 0x7E then EmitCsi(PushParam(m), b)
    else GroundStep(ResetSequence(m), b)
  }

  function CsiEntryStep(m: Machine, b: Byte): Stepped {
    if 0x3C <= b <= 0x3F then Quiet(m.(marker := b))
    else if 0x30 <= b <= 0x3B then CsiParamStep(m.(state := CsiParam), b)
    else if 0x20 <= b <= 0x2F then Quiet(m.(intermediates := [b], state := CsiIntermediate))
    else if 0x40 <= b <= 0x7E then EmitCsi(m, b)
    else Quiet(m.(state := Ground))
  }

  function CsiIntermediateStep(m: Machine, b: Byte): Stepped {
    if 0x20 <= b <= 0x2F then Quiet(m.(intermediates := Collected(m.intermediates, b)))
    else if 0x30 <= b <= 0x3F then
      CsiParamStep(m.(marker := 0, params := [], current := 0, state := CsiParam), b)
    else if 0x40 <= b <= 0x7E then EmitCsi(m, b)
    else Quiet(m.(state := Ground))
  }

  // ---- strings ----

  function OscStep(m: Machine, b: Byte): Stepped {
    if b == 0x07 then EndOsc(m)
    else if b == 0x1B then Quiet(m.(oscPendingEsc := true, state := Escape))
    else if b == 0x18 || b == 0x1A then Quiet(m.(state := Ground, osc := []))
    else if m.oscTruncated then Quiet(m)
    else if |m.osc| < MAX_OSC_LEN then Quiet(m.(osc := m.osc + [b]))
    else Quiet(m.(oscTruncated := true))
  }

  function Counted(n: nat): nat { if n < USIZE_MAX then n + 1 else n }

  function DcsEntryStep(m: Machine, b: Byte): Stepped {
    if b == 0x18 || b == 0x1A then Quiet(m.(state := Ground))
    else if 0x20 <= b <= 0x3F then Quiet(m.(passthrough := Counted(m.passthrough)))
    else if b == 0x1B then Quiet(m.(state := Escape))
    else Quiet(m.(state := DcsPassthrough))
  }

  /** Device control, and the other strings: payload is counted and dropped. */
  function PassStep(m: Machine, b: Byte): Stepped {
    if b == 0x18 || b == 0x1A || b == 0x9C then Quiet(m.(state := Ground))
    else if b == 0x1B then Quiet(m.(state := Escape))
    else Quiet(m.(passthrough := Counted(m.passthrough)))
  }

  function Advance(m: Machine, b: Byte): Stepped {
    match m.state
    case Ground => GroundStep(m, b)
    case Escape => EscapeStep(m, b)
    case EscapeIntermediate => EscapeIntermediateStep(m, b)
    case Charset => CharsetStep(m, b)
    case Line => LineStep(m, b)
    case CsiEntry => CsiEntryStep(m, b)
    case CsiParam => CsiParamStep(m, b)
    case CsiIntermediate => CsiIntermediateStep(m, b)
    case OscString => OscStep(m, b)
    case DcsEntry => DcsEntryStep(m, b)
    case DcsPassthrough => PassStep(m, b)
    case SosPmApc => PassStep(m, b)
  }

  /** Feed bytes one after the other. */
  function Feed(m: Machine, bytes: seq<Byte>): Stepped
    decreases |bytes|
  {
    if bytes == [] then Quiet(m)
    else
      var first := Advance(m, bytes[0]);
      var rest := Feed(first.next, bytes[1..]);
      Stepped(rest.next, first.out + rest.out)
  }
}
