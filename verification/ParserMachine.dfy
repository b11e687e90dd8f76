/** The parser as the program runs it: fixed arrays and a reused buffer updated byte by byte,
    proved to follow the functions of `Parser`. */
module ParserMachine {
  import opened Utf8
  import opened Parser
  import Spec = Parser

  class TerminalParser {
    var state: State
    const utf8: array<Byte>
    var utf8Len: nat
    var utf8Expected: nat
    var marker: Byte
    const params: array<U16>
    var paramCount: nat
    var current: U16
    var overflow: bool
    const intermediates: array<Byte>
    var interCount: nat
    var osc: seq<Byte>
    var oscTruncated: bool
    var oscPendingEsc: bool
    var passthroughLen: nat

    ghost function Repr(): set<object> { {this, utf8, params, intermediates} }

    ghost predicate Valid()
      reads Repr()
    {
      && utf8.Length == 4 && params.Length == MAX_PARAMS && intermediates.Length == MAX_INTERMEDIATES
      && utf8 != intermediates
      && utf8Len < 4 && paramCount <= MAX_PARAMS && interCount <= MAX_INTERMEDIATES
      && (utf8Len > 0 ==> state == Ground && utf8Len < utf8Expected <= 4)
    }

    ghost function View(): Machine
      requires Valid()
      reads Repr()
    {
      Machine(state, utf8[..utf8Len], utf8Expected, marker, params[..paramCount], current, overflow,
              intermediates[..interCount], osc, oscTruncated, oscPendingEsc, passthroughLen)
    }

    constructor ()
      ensures Valid() && View() == Fresh() && fresh(Repr())
    {
      state := Ground;
      utf8 := new Byte[4](_ => 0);
      utf8Len, utf8Expected, marker := 0, 0, 0;
      params := new U16[MAX_PARAMS](_ => 0);
      paramCount, current, overflow := 0, 0, false;
      intermediates := new Byte[MAX_INTERMEDIATES](_ => 0);
      interCount := 0;
      osc, oscTruncated, oscPendingEsc, passthroughLen := [], false, false, 0;
    }

    /** Feed a batch of bytes; the actions produced, in order. */
    method FeedBytes(bytes: seq<Byte>) returns (out: seq<Action>)
      requires Valid()
      modifies Repr()
      ensures Valid() && Stepped(View(), out) == Feed(old(View()), bytes)
    {
      out := [];
      ghost var goal := Feed(View(), bytes);
      assert bytes[0..] == bytes && [] + goal.out == goal.out;
      hide Advance;
      for i := 0 to |bytes|
        invariant Valid()
        invariant var rest := Feed(View(), bytes[i..]); goal == Stepped(rest.next, out + rest.out)
      {
        ghost var m := View();
        var more := AdvanceByte(bytes[i]);
        assert bytes[i..][1..] == bytes[i + 1..];
        ghost var rest := Feed(View(), bytes[i + 1..]);
        assert out + (more + rest.out) == out + more + rest.out;
        out := out + more;
      }
      assert bytes[|bytes|..] == [];
      assert out + [] == out;
    }

    /** Process one byte. */
    method AdvanceByte(b: Byte) returns (out: seq<Action>)
      requires Valid()
      modifies Repr()
      ensures Valid() && Stepped(View(), out) == Advance(old(View()), b)
    {
      hide GroundStep, EscapeStep, EscapeIntermediateStep, CharsetStep, LineStep, CsiEntryStep, CsiParamStep,
           CsiIntermediateStep, OscStep, DcsEntryStep, PassStep;
      match state
      case Ground => out := GroundIn(b);
      case Escape => out := EscapeIn(b);
      case EscapeIntermediate => out := EscapeIntermediateIn(b);
      case Charset => out := CharsetIn(b);
      case Line => out := LineIn(b);
      case CsiEntry => out := CsiEntryIn(b);
      case CsiParam => out := CsiParamIn(b);
      case CsiIntermediate => out := CsiIntermediateIn(b);
      case OscString => out := OscIn(b);
      case DcsEntry => out := DcsEntryIn(b);
      case DcsPassthrough => out := PassIn(b);
      case SosPmApc => out := PassIn(b);
    }

    // ---- ground ----

    method GroundIn(b: Byte) returns (out: seq<Action>)
      requires Valid() && state == Ground
      modifies Repr()
      ensures Valid() && Stepped(View(), out) == GroundStep(old(View()), b)
    {
      if utf8Len > 0 {
        out := ContinueUtf8(b);
      } else {
        out := GroundByteIn(b);
      }
    }

    /** A byte while a sequence is pending: it continues it, or ends it and is read afresh. */
    method ContinueUtf8(b: Byte) returns (out: seq<Action>)
      requires Valid() && utf8Len > 0
      modifies Repr()
      ensures Valid() && Stepped(View(), out) == GroundStep(old(View()), b)
    {
      hide GroundByte, Decode, WellFormed;
      if IsContinuation(b) {
        ghost var before := utf8[..utf8Len];
        utf8[utf8Len] := b;
        assert utf8[..utf8Len + 1] == before + [b];
        if utf8Len + 1 == utf8Expected {
          var s := utf8[..utf8Len + 1];
          utf8Len := 0;
          out := [Print(if WellFormed(s) then Decode(s) else REPLACEMENT)];
        } else {
          utf8Len := utf8Len + 1;
          out := [];
        }
      } else {
        utf8Len := 0;
        assert utf8[..0] == [];
        var rest := GroundByteIn(b);
        out := [Print(REPLACEMENT)] + rest;
      }
    }

    method GroundByteIn(b: Byte) returns (out: seq<Action>)
      requires Valid() && utf8Len == 0 && state == Ground
      modifies Repr()
      ensures Valid() && Stepped(View(), out) == GroundByte(old(View()), b)
    {
      out := [];
      if b == 0x1B {
        state := Escape;
      } else if b == 0x18 || b == 0x1A || b == 0x7F {
      } else if b < 0x20 {
        out := ControlOut(b);
      } else if b < 0x7F {
        out := [Print(b)];
      } else if b <= 0x9F {
        out := C1In(b);
      } else if LeadLength(b) == 0 {
        out := [Print(REPLACEMENT)];
      } else {
        utf8[0] := b;
        utf8Len := 1;
        utf8Expected := LeadLength(b);
        assert utf8[..1] == [b];
      }
    }

    method C1In(b: Byte) returns (out: seq<Action>)
      requires Valid() && utf8Len == 0 && state == Ground
      modifies this
      ensures Valid() && Stepped(View(), out) == C1(old(View()), b)
    {
      out := [];
      if b == 0x84 {
        out := [Control(Index)];
      } else if b == 0x85 {
        out := [Control(NextLine)];
      } else if b == 0x88 {
        out := [Control(TabSet)];
      } else if b == 0x8D {
        out := [Control(ReverseIndex)];
      } else if b == 0x9B {
        state := CsiEntry;
      } else if b == 0x9D {
        StartOsc();
      } else if b == 0x90 {
        state := DcsEntry;
      } else if b == 0x98 || b == 0x9E || b == 0x9F {
        passthroughLen := 0;
        state := SosPmApc;
      } else if b == 0x9C {
      } else {
        out := [Print(REPLACEMENT)];
      }
    }

    // ---- escape ----

    method EscapeIn(b: Byte) returns (out: seq<Action>)
      requires Valid() && state == Escape
      modifies Repr()
      ensures Valid() && Stepped(View(), out) == EscapeStep(old(View()), b)
    {
      out := [];
      if oscPendingEsc {
        oscPendingEsc := false;
        if b == 0x5C {
          out := FinishOsc();
        } else {
          state := OscString;
        }
        return;
      }
      if b == 0x1B {
      } else if b == 0x5B {
        state := CsiEntry;
      } else if b == 0x5D {
        StartOsc();
      } else if b == 0x50 {
        passthroughLen := 0;
        state := DcsEntry;
      } else if b == 0x58 || b == 0x5E || b == 0x5F {
        passthroughLen := 0;
        state := SosPmApc;
      } else if 0x28 <= b <= 0x2B || 0x2D <= b <= 0x2F {
        state := Charset;
      } else if b == 0x23 {
        state := Line;
      } else if EscOut(b).Some? {
        state := Ground;
        out := [Esc(EscOut(b).value)];
      } else if 0x20 <= b <= 0x2F {
        OnlyIntermediate(b);
        state := EscapeIntermediate;
      } else {
        state := Ground;
      }
    }

    method OnlyIntermediate(b: Byte)
      requires Valid() && utf8Len == 0
      modifies this`interCount, intermediates
      ensures Valid() && View() == old(View()).(intermediates := [b])
    {
      intermediates[0] := b;
      interCount := 1;
      assert intermediates[..1] == [b];
    }

    method Collect(b: Byte)
      requires Valid() && utf8Len == 0
      modifies this`interCount, intermediates
      ensures Valid() && View() == old(View()).(intermediates := Collected(old(View()).intermediates, b))
    {
      if interCount < 2 {
        ghost var before := intermediates[..interCount];
        intermediates[interCount] := b;
        interCount := interCount + 1;
        assert intermediates[..interCount] == before + [b];
      }
    }

    method EscapeIntermediateIn(b: Byte) returns (out: seq<Action>)
      requires Valid() && state == EscapeIntermediate
      modifies Repr()
      ensures Valid() && Stepped(View(), out) == EscapeIntermediateStep(old(View()), b)
    {
      hide GroundStep;
      out := [];
      if 0x20 <= b <= 0x2F {
        Collect(b);
      } else if b == 0x18 || b == 0x1A || 0x30 <= b <= 0x7E {
        state := Ground;
      } else {
        state := Ground;
        out := GroundIn(b);
      }
    }

    method CharsetIn(b: Byte) returns (out: seq<Action>)
      requires Valid() && state == Charset
      modifies Repr()
      ensures Valid() && Stepped(View(), out) == CharsetStep(old(View()), b)
    {
      hide GroundStep;
      state := Ground;
      if 0x30 <= b <= 0x7E {
        out := [CharsetSelect(b)];
      } else {
        out := GroundIn(b);
      }
    }

    method LineIn(b: Byte) returns (out: seq<Action>)
      requires Valid() && state == Line
      modifies Repr()
      ensures Valid() && Stepped(View(), out) == LineStep(old(View()), b)
    {
      hide GroundStep;
      state := Ground;
      if 0x30 <= b <= 0x7E {
        out := [Esc(LineAttributes(b))];
      } else {
        out := GroundIn(b);
      }
    }

    // ---- CSI ----

    method CsiEntryIn(b: Byte) returns (out: seq<Action>)
      requires Valid() && state == CsiEntry
      modifies Repr()
      ensures Valid() && Stepped(View(), out) == CsiEntryStep(old(View()), b)
    {
      hide CsiParamStep;
      out := [];
      if 0x3C <= b <= 0x3F {
        marker := b;
      } else if 0x30 <= b <= 0x3B {
        state := CsiParam;
        out := CsiParamIn(b);
      } else if 0x20 <= b <= 0x2F {
        OnlyIntermediate(b);
        state := CsiIntermediate;
      } else if 0x40 <= b <= 0x7E {
        out := FinishCsi(b);
      } else {
        state := Ground;
      }
    }

    method CsiParamIn(b: Byte) returns (out: seq<Action>)
      requires Valid() && state == CsiParam
      modifies Repr()
      ensures Valid() && Stepped(View(), out) == CsiParamStep(old(View()), b)
    {
      hide GroundStep, PushParam, AddDigit;
      out := [];
      if b == 0x18 || b == 0x1A {
        state := Ground;
      } else if 0x30 <= b <= 0x39 {
        TakeDigit(b - 0x30);
      } else if b == 0x3A || b == 0x3B {
        CloseParam();
      } else if 0x20 <= b <= 0x2F {
        CloseParam();
        OnlyIntermediate(b);
        state := CsiIntermediate;
      } else if 0x40 <= b <= 0x7E {
        CloseParam();
        out := FinishCsi(b);
      } else {
        Reset();
        out := GroundIn(b);
      }
    }

    method TakeDigit(digit: nat)
      requires Valid() && digit < 10
      modifies this`current, this`overflow
      ensures Valid() && View() == AddDigit(old(View()), digit)
    {
      if !overflow {
        var next := Saturated(Saturated(current * 10) + digit);
        if next == 65535 && current > 65535 / 10 {
          overflow := true;
        }
        current := next;
      }
    }

    method CsiIntermediateIn(b: Byte) returns (out: seq<Action>)
      requires Valid() && state == CsiIntermediate
      modifies Repr()
      ensures Valid() && Stepped(View(), out) == CsiIntermediateStep(old(View()), b)
    {
      hide CsiParamStep;
      out := [];
      if 0x20 <= b <= 0x2F {
        Collect(b);
      } else if 0x30 <= b <= 0x3F {
        marker := 0;
        paramCount := 0;
        current := 0;
        state := CsiParam;
        assert params[..0] == [];
        out := CsiParamIn(b);
      } else if 0x40 <= b <= 0x7E {
        out := FinishCsi(b);
      } else {
        state := Ground;
      }
    }

    method CloseParam()
      requires Valid()
      modifies this`paramCount, this`current, this`overflow, params
      ensures Valid() && View() == PushParam(old(View()))
    {
      if paramCount < MAX_PARAMS {
        ghost var before := params[..paramCount];
        params[paramCount] := current;
        paramCount := paramCount + 1;
        assert params[..paramCount] == before + [current];
      }
      current := 0;
      overflow := false;
    }

    method FinishCsi(final: Byte) returns (out: seq<Action>)
      requires Valid() && utf8Len == 0
      modifies this
      ensures Valid() && Stepped(View(), out) == EmitCsi(old(View()), final)
    {
      out := [Csi(marker, params[..paramCount], intermediates[..interCount], final)];
      Reset();
    }

    method Reset()
      requires Valid() && utf8Len == 0
      modifies this
      ensures Valid() && View() == ResetSequence(old(View()))
      ensures utf8Len == 0 && state == Ground
    {
      state := Ground;
      marker, paramCount, current, overflow, interCount := 0, 0, 0, false, 0;
      assert params[..0] == [] && intermediates[..0] == [];
    }

    // ---- strings ----

    method StartOsc()
      requires Valid() && utf8Len == 0
      modifies this
      ensures Valid() && View() == BeginOsc(old(View()))
    {
      osc := [];
      oscTruncated := false;
      state := OscString;
    }

    method FinishOsc() returns (out: seq<Action>)
      requires Valid() && utf8Len == 0
      modifies this
      ensures Valid() && Stepped(View(), out) == EndOsc(old(View()))
    {
      out := [Osc(osc)];
      osc := [];
      state := Ground;
      oscPendingEsc := false;
    }

    method OscIn(b: Byte) returns (out: seq<Action>)
      requires Valid() && state == OscString
      modifies this
      ensures Valid() && Stepped(View(), out) == OscStep(old(View()), b)
    {
      out := [];
      if b == 0x07 {
        out := FinishOsc();
      } else if b == 0x1B {
        oscPendingEsc := true;
        state := Escape;
      } else if b == 0x18 || b == 0x1A {
        state := Ground;
        osc := [];
      } else if !oscTruncated {
        if |osc| < MAX_OSC_LEN {
          osc := osc + [b];
        } else {
          oscTruncated := true;
        }
      }
    }

    method DcsEntryIn(b: Byte) returns (out: seq<Action>)
      requires Valid() && state == DcsEntry
      modifies this
      ensures Valid() && Stepped(View(), out) == DcsEntryStep(old(View()), b)
    {
      out := [];
      if b == 0x18 || b == 0x1A {
        state := Ground;
      } else if 0x20 <= b <= 0x3F {
        passthroughLen := Counted(passthroughLen);
      } else if b == 0x1B {
        state := Escape;
      } else {
        state := DcsPassthrough;
      }
    }

    method PassIn(b: Byte) returns (out: seq<Action>)
      requires Valid() && (state == DcsPassthrough || state == SosPmApc)
      modifies this
      ensures Valid() && Stepped(View(), out) == PassStep(old(View()), b)
    {
      out := [];
      if b == 0x18 || b == 0x1A || b == 0x9C {
        state := Ground;
      } else if b == 0x1B {
        state := Escape;
      } else {
        passthroughLen := Counted(passthroughLen);
      }
    }
  }
}
