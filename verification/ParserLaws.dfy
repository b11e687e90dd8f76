/** How the parser recovers: broken UTF-8, bytes that mean nothing, the one-byte forms of the introducers,
    strings without an end, and what interrupts a sequence. Everything is said of `Feed` alone. */
module ParserLaws {
  import opened Utf8
  import opened Parser
  import opened ParserRuns
  import opened ParserPrinter

  // ---- broken UTF-8 ----

  /** Fewer bytes than the first one announces, all the others in 80..BF. */
  ghost predicate Begins(p: seq<Byte>, n: nat) {
    && p != [] && |p| <= n
    && ((n == 2 && 0xC2 <= p[0] <= 0xDF) || (n == 3 && 0xE0 <= p[0] <= 0xEF) || (n == 4 && 0xF0 <= p[0] <= 0xF4))
    && forall i :: 1 <= i < |p| ==> 0x80 <= p[i] <= 0xBF
  }

  lemma EncodingBegins(c: Scalar, k: nat)
    requires 1 <= k < |Encode(c)|
    ensures Begins(Encode(c)[..k], |Encode(c)|)
  {
    var s := Encode(c);
    assert forall i :: 1 <= i < k ==> s[..k][i] == s[i];
  }

  /** A begun character waits. */
  lemma {:induction false} BeginningWaits(m: Machine, p: seq<Byte>, n: nat)
    requires m.state == Ground && m.utf8 == [] && Begins(p, n) && |p| < n
    ensures Feed(m, p) == Quiet(m.(utf8 := p, expected := n))
    decreases |p|
  {
    var before, last := p[..|p| - 1], p[|p| - 1];
    assert p == before + [last];
    if |p| == 1 {
      assert p == [last];
      FeedOne(m, last);
      FirstWaits(m, last, n);
    } else {
      assert forall i :: 1 <= i < |before| ==> before[i] == p[i];
      BeginningWaits(m, before, n);
      hide Feed, Advance;
      FeedConcat(m, before, [last]);
      FeedOne(m.(utf8 := before, expected := n), last);
      NextWaits(m.(utf8 := before, expected := n), last);
    }
  }

  lemma FirstWaits(m: Machine, b: Byte, n: nat)
    requires m.state == Ground && m.utf8 == [] && Begins([b], n) && n > 1
    ensures Advance(m, b) == Quiet(m.(utf8 := [b], expected := n))
  {
    hide C1, ControlOut;
  }

  lemma NextWaits(m: Machine, b: Byte)
    requires m.state == Ground && m.utf8 != [] && 0x80 <= b <= 0xBF && |m.utf8| + 1 < m.expected
    ensures Advance(m, b) == Quiet(m.(utf8 := m.utf8 + [b]))
  {
    hide GroundByte;
  }

  lemma CutsOff(m: Machine, b: Byte)
    requires m.state == Ground && m.utf8 != [] && !(0x80 <= b <= 0xBF)
    ensures var r := GroundByte(m.(utf8 := []), b);
            Advance(m, b) == Stepped(r.next, [Print(REPLACEMENT)] + r.out) && Advance(m.(utf8 := []), b) == r
  {
    hide GroundByte;
  }

  /** Resynchronization: a character cut short gives one replacement, and then everything is read as if it
      had not begun; the byte that cuts it is not lost. */
  lemma BrokenOff(m: Machine, p: seq<Byte>, n: nat, s: seq<Byte>)
    requires m.state == Ground && m.utf8 == [] && !m.oscPendingEsc && Begins(p, n) && |p| < n
    requires s != [] && !(0x80 <= s[0] <= 0xBF)
    ensures Feed(m, p + s).out == [Print(REPLACEMENT)] + Feed(m, s).out
    ensures Alike(Feed(m, s).next, Feed(m, p + s).next)
  {
    var w, cut := m.(expected := n), m.(utf8 := p, expected := n);
    assert p != [] && Alike(m, w);
    hide Feed, Advance, Begins, Alike;
    BeginningWaits(m, p, n);
    FeedConcat(m, p, s);
    CutReads(cut, s);
    assert cut.(utf8 := []) == w;
    FeedAlike(m, w, s);
    var r := Feed(w, s);
    assert [] + ([Print(REPLACEMENT)] + r.out) == [Print(REPLACEMENT)] + r.out;
  }

  lemma CutReads(m: Machine, s: seq<Byte>)
    requires m.state == Ground && m.utf8 != [] && s != [] && !(0x80 <= s[0] <= 0xBF)
    ensures Feed(m, s) == After([Print(REPLACEMENT)], Feed(m.(utf8 := []), s))
  {
    hide Feed, Advance, GroundByte;
    var w := m.(utf8 := []);
    var r := GroundByte(w, s[0]);
    assert s == [s[0]] + s[1..];
    CutsOff(m, s[0]);
    FeedCons(m, s[0], s[1..]);
    FeedCons(w, s[0], s[1..]);
    var rest := Feed(r.next, s[1..]);
    assert [Print(REPLACEMENT)] + r.out + rest.out == [Print(REPLACEMENT)] + (r.out + rest.out);
  }

  /** So for any proper part of any character. */
  lemma CharacterCutShort(m: Machine, c: Scalar, k: nat, s: seq<Byte>)
    requires Clean(m) && 1 <= k < |Encode(c)| && s != [] && !(0x80 <= s[0] <= 0xBF)
    ensures Feed(m, Encode(c)[..k] + s).out == [Print(REPLACEMENT)] + Feed(m, s).out
    ensures Alike(Feed(m, s).next, Feed(m, Encode(c)[..k] + s).next)
  {
    EncodingBegins(c, k);
    hide Encode, Begins;
    BrokenOff(m, Encode(c)[..k], |Encode(c)|, s);
  }

  /** As many bytes as announced that encode no character, being overlong, a surrogate or too large, give one
      replacement for all of them. */
  lemma IllFormedOnce(m: Machine, s: seq<Byte>)
    requires Clean(m) && Begins(s, |s|) && forall c: Scalar :: Encode(c) != s
    ensures Feed(m, s).out == [Print(REPLACEMENT)] && Clean(Feed(m, s).next)
  {
    NoEncoding(s);
    var p, last := s[..|s| - 1], s[|s| - 1];
    assert s == p + [last];
    BeginningWaits(m, p, |s|);
    FeedConcat(m, p, [last]);
    FeedOne(m.(utf8 := p, expected := |s|), last);
    hide Feed, Decode, Encode, GroundByte, WellFormed;
  }

  lemma NoEncoding(s: seq<Byte>)
    requires forall c: Scalar :: Encode(c) != s
    ensures !WellFormed(s)
  {
    if WellFormed(s) {
      EncodeDecode(s);
    }
  }

  /** The one-byte controls the parser knows. */
  const KNOWN_C1: set<Byte> := {0x84, 0x85, 0x88, 0x8D, 0x90, 0x98, 0x9B, 0x9C, 0x9D, 0x9E, 0x9F}

  /** A byte that can begin nothing gives one replacement and is gone: an unknown control from 80 to 9F, a
      continuation byte with nothing before it, and C0, C1 and F5 to FF. */
  lemma LoneByte(m: Machine, b: Byte, s: seq<Byte>)
    requires Clean(m) && b !in KNOWN_C1 && (0x80 <= b <= 0xC1 || b >= 0xF5)
    ensures Feed(m, [b] + s) == After([Print(REPLACEMENT)], Feed(m, s))
  {
    assert Advance(m, b) == Stepped(m, [Print(REPLACEMENT)]);
    FeedCons(m, b, s);
    hide Feed, Advance;
  }

  /** Controls without a meaning, and DEL, are read past. */
  lemma MeaninglessByte(m: Machine, b: Byte, s: seq<Byte>)
    requires Clean(m) && (b < 0x07 || 0x0E <= b <= 0x1A || 0x1C <= b <= 0x1F || b == 0x7F || b == 0x9C)
    ensures Feed(m, [b] + s) == Feed(m, s)
  {
    FeedSilent(m, b, s, m);
  }

  // ---- one-byte introducers ----

  /** The one-byte form of an introducer reads on as the two-byte one does. */
  lemma OneByteForms(m: Machine, c1: Byte, key: Byte, s: seq<Byte>)
    requires Clean(m)
    requires (c1, key) in {(0x9B, 0x5B), (0x9D, 0x5D), (0x90, 0x50), (0x98, 0x58), (0x9E, 0x5E), (0x9F, 0x5F)}
    ensures Feed(m, [c1] + s).out == Feed(m, [0x1B] + ([key] + s)).out
    ensures Alike(Feed(m, [c1] + s).next, Feed(m, [0x1B] + ([key] + s)).next)
  {
    var e := m.(state := Escape);
    var a, b := Advance(m, c1).next, Advance(e, key).next;
    FeedSilent(m, c1, s, a);
    FeedSilent(m, 0x1B, [key] + s, e);
    FeedSilent(e, key, s, b);
    assert Alike(a, b);
    hide Feed, Advance;
    FeedAlike(a, b, s);
  }

  // ---- strings ----

  /** Nothing but parameter and intermediate bytes. */
  ghost predicate HeaderOnly(payload: seq<Byte>) {
    forall i :: 0 <= i < |payload| ==> 0x20 <= payload[i] <= 0x3F
  }

  /** A device control string is over at the one-byte terminator exactly when something but parameters and
      intermediates came before it; otherwise the terminator is taken for its first byte and the text behind
      it is swallowed. */
  lemma DcsEndsIff(m: Machine, payload: seq<Byte>)
    requires Clean(m) && Unended(payload)
    ensures var r := Feed(m, [0x1B] + ([0x50] + (payload + [0x9C])));
            && r.out == []
            && (r.next.state == Ground <==> !HeaderOnly(payload))
            && (r.next.state != Ground ==> r.next.state == DcsPassthrough)
  {
    var e := m.(state := Escape);
    var q := m.(state := DcsEntry, passthrough := 0);
    FeedSilent(m, 0x1B, [0x50] + (payload + [0x9C]), e);
    FeedSilent(e, 0x50, payload + [0x9C], q);
    hide Feed, Advance, HeaderOnly, Unended;
    StringSilent(q, payload);
    EntryLeft(q, payload);
    FeedConcat(q, payload, [0x9C]);
    TerminatorStep(Feed(q, payload).next);
  }

  lemma TerminatorStep(m: Machine)
    requires m.state == DcsEntry || m.state == DcsPassthrough
    ensures var r := Feed(m, [0x9C]);
            r.out == [] && r.next.state == if m.state == DcsEntry then DcsPassthrough else Ground
  {
    FeedOne(m, 0x9C);
    hide Feed;
  }

  lemma {:induction false} EntryLeft(m: Machine, payload: seq<Byte>)
    requires (m.state == DcsEntry || m.state == DcsPassthrough) && Unended(payload)
    ensures Feed(m, payload).next.state
         == if m.state == DcsEntry && HeaderOnly(payload) then DcsEntry else DcsPassthrough
    decreases |payload|
  {
    if payload != [] {
      var next := Advance(m, payload[0]).next;
      assert payload == [payload[0]] + payload[1..];
      FeedSilent(m, payload[0], payload[1..], next);
      EntryLeft(next, payload[1..]);
      hide Feed, Advance;
      assert forall i :: 1 <= i < |payload| ==> payload[i] == payload[1..][i - 1];
      assert forall i :: 0 <= i < |payload[1..]| ==> payload[1..][i] == payload[i + 1];
    }
  }

  /** The other strings are over at the one-byte terminator, whatever came before it. */
  lemma StringEnds(m: Machine, kind: Byte, payload: seq<Byte>, s: seq<Byte>)
    requires Clean(m) && (kind == 0x58 || kind == 0x5E || kind == 0x5F) && Unended(payload)
    ensures Feed(m, [0x1B] + ([kind] + (payload + ([0x9C] + s)))).out == Feed(m, s).out
  {
    var e := m.(state := Escape);
    var q := m.(state := SosPmApc, passthrough := 0);
    FeedSilent(m, 0x1B, [kind] + (payload + ([0x9C] + s)), e);
    FeedSilent(e, kind, payload + ([0x9C] + s), q);
    StringSilent(q, payload);
    StaysPassing(q, payload);
    var full := Feed(q, payload).next;
    FeedConcat(q, payload, [0x9C] + s);
    FeedSilent(full, 0x9C, s, full.(state := Ground));
    hide Feed, Advance;
    FeedAlike(m, full.(state := Ground), s);
    assert [] + Feed(full.(state := Ground), s).out == Feed(m, s).out;
  }

  lemma {:induction false} StaysPassing(m: Machine, payload: seq<Byte>)
    requires m.state == SosPmApc && Unended(payload)
    ensures Feed(m, payload).next.state == SosPmApc
    decreases |payload|
  {
    if payload != [] {
      var next := Advance(m, payload[0]).next;
      assert payload == [payload[0]] + payload[1..];
      FeedSilent(m, payload[0], payload[1..], next);
      StaysPassing(next, payload[1..]);
    }
  }

  // ---- escape sequences without a meaning ----

  lemma {:induction false} IntermediatesWait(m: Machine, inters: seq<Byte>)
    requires m.state == EscapeIntermediate && |m.intermediates| <= MAX_INTERMEDIATES && AllIntermediate(inters)
    ensures Feed(m, inters) == Quiet(m.(intermediates := FirstN(m.intermediates + inters, MAX_INTERMEDIATES)))
    decreases |inters|
  {
    if inters == [] {
      assert m.intermediates + [] == m.intermediates;
    } else {
      var next := m.(intermediates := Collected(m.intermediates, inters[0]));
      assert inters == [inters[0]] + inters[1..];
      FeedSilent(m, inters[0], inters[1..], next);
      IntermediatesWait(next, inters[1..]);
      hide Feed, Advance;
      CollectedFirst(m.intermediates, inters);
    }
  }

  /** An escape sequence with intermediates ends at its final byte and does nothing, but for the intermediates it
      leaves behind. */
  lemma EscapeSequenceSilent(m: Machine, first: Byte, inters: seq<Byte>, final: Byte)
    requires Clean(m) && AllIntermediate(inters) && 0x30 <= final <= 0x7E
    requires 0x20 <= first <= 0x22 || 0x24 <= first <= 0x27 || first == 0x2C
    ensures Feed(m, [0x1B] + ([first] + (inters + [final])))
         == Quiet(m.(intermediates := FirstN([first] + inters, MAX_INTERMEDIATES)))
  {
    var e := m.(state := Escape);
    var q := m.(state := EscapeIntermediate, intermediates := [first]);
    FeedSilent(m, 0x1B, [first] + (inters + [final]), e);
    FeedSilent(e, first, inters + [final], q);
    IntermediatesWait(q, inters);
    var full := q.(intermediates := FirstN([first] + inters, MAX_INTERMEDIATES));
    FeedConcat(q, inters, [final]);
    FeedOne(full, final);
    hide Feed;
  }

  // ---- interruptions ----

  /** CAN and SUB are silent and end whatever is under way, but for the byte an escape shields in an OSC
      string. */
  lemma CancelEnds(m: Machine, b: Byte)
    requires (b == 0x18 || b == 0x1A) && m.utf8 == [] && (m.oscPendingEsc ==> m.state == Escape)
    ensures Advance(m, b).out == []
    ensures Advance(m, b).next.state == (if m.oscPendingEsc then OscString else Ground)
  {
  }

  /** An escape starts a new sequence wherever it comes, except where the escape of an OSC string shields it,
      and right behind the introducer or an intermediate of a CSI sequence: there it ends the sequence and is
      lost with it. */
  lemma EscapeStartsIff(m: Machine)
    requires m.utf8 == [] && (m.oscPendingEsc ==> m.state == Escape)
    ensures Advance(m, 0x1B).out == []
    ensures Advance(m, 0x1B).next.state == Escape
       <==> !m.oscPendingEsc && m.state != CsiEntry && m.state != CsiIntermediate
    ensures m.state == CsiEntry || m.state == CsiIntermediate ==> Advance(m, 0x1B).next.state == Ground
  {
  }

  /** So a sequence interrupted there by another one leaves the other's letters on the screen. */
  lemma InterruptedEntryPrints()
    ensures Feed(Fresh(), [0x1B, 0x5B, 0x1B, 0x5B, 0x6D]).out == [Print(0x5B), Print(0x6D)]
  {
    var m := Fresh();
    var e, c := m.(state := Escape), m.(state := CsiEntry);
    assert [0x1B, 0x5B, 0x1B, 0x5B, 0x6D] == [0x1B] + ([0x5B] + ([0x1B] + ([0x5B] + [0x6D])));
    FeedSilent(m, 0x1B, [0x5B] + ([0x1B] + ([0x5B] + [0x6D])), e);
    FeedSilent(e, 0x5B, [0x1B] + ([0x5B] + [0x6D]), c);
    FeedSilent(c, 0x1B, [0x5B] + [0x6D], m);
    FeedCons(m, 0x5B, [0x6D]);
    FeedOne(m, 0x6D);
    assert Advance(m, 0x5B) == Stepped(m, [Print(0x5B)]) && Advance(m, 0x6D) == Stepped(m, [Print(0x6D)]);
    hide Feed, Advance;
    assert [Print(0x5B)] + [Print(0x6D)] == [Print(0x5B), Print(0x6D)];
  }

  /** A byte that has no place in the parameters of a CSI sequence, or behind a charset or line introducer, ends the
      sequence and is read from ground as if that had never begun; so is one behind the intermediates of an escape
      sequence, but for CAN and SUB. */
  lemma MisfitRereads(m: Machine, b: Byte, s: seq<Byte>)
    requires match m.state
             case CsiParam => b < 0x18 || b == 0x19 || 0x1B <= b <= 0x1F || 0x3C <= b <= 0x3F || b > 0x7E
             case Charset => b < 0x30 || b > 0x7E
             case Line => b < 0x30 || b > 0x7E
             case EscapeIntermediate => b < 0x18 || b == 0x19 || 0x1B <= b <= 0x1F || b > 0x7E
             case _ => false
    ensures Feed(m, [b] + s) == Feed(if m.state == CsiParam then ResetSequence(m) else m.(state := Ground), [b] + s)
  {
    hide GroundStep;
    FeedCons(m, b, s);
    FeedCons(if m.state == CsiParam then ResetSequence(m) else m.(state := Ground), b, s);
    hide Feed;
  }

  // ---- parameters ----

  /** Of several markers the last one counts. */
  lemma LastMarkerCounts(m: Machine, first: Byte, last: Byte, s: seq<Byte>)
    requires m.state == CsiEntry && 0x3C <= first <= 0x3F && 0x3C <= last <= 0x3F
    ensures Feed(m, [first] + ([last] + s)) == Feed(m, [last] + s)
  {
    FeedSilent(m, first, [last] + s, m.(marker := first));
    FeedSilent(m.(marker := first), last, s, m.(marker := last));
    FeedSilent(m, last, s, m.(marker := last));
  }

  /** A colon separates parameters as a semicolon does. */
  lemma ColonIsSemicolon(m: Machine, s: seq<Byte>)
    requires m.state == CsiParam || m.state == CsiEntry
    ensures Feed(m, [0x3A] + s) == Feed(m, [0x3B] + s)
  {
    FeedCons(m, 0x3A, s);
    FeedCons(m, 0x3B, s);
    hide Feed;
  }

  /** A digit behind an intermediate starts the parameters again: what was read before it is dropped, the
      marker too, and the intermediates stay. */
  lemma DigitRestarts(m: Machine, ps: seq<seq<Digit>>, final: Byte)
    requires m.state == CsiIntermediate && !m.overflow && ps != [] && ps[0] != [] && 0x40 <= final <= 0x7E
    ensures var r := Feed(m, ParamBytes(ps) + [final]);
            && r.out == [Csi(0, FirstN(Values(ps), MAX_PARAMS), m.intermediates, final)]
            && r.next == ResetSequence(m)
  {
    var p := m.(marker := 0, params := [], current := 0, state := CsiParam);
    var bytes := ParamBytes(ps) + [final];
    ParamBytesDigit(ps);
    RestartReads(m, bytes);
    ParamsRun(p, ps);
    hide Feed, Advance, ParamBytes, Values;
    var open := Feed(p, ParamBytes(ps)).next;
    FeedConcat(p, ParamBytes(ps), [final]);
    FinalStep(open, final);
    assert p.params + Values(ps) == Values(ps);
    assert [] + Feed(open, [final]).out == Feed(open, [final]).out;
  }

  lemma FinalStep(m: Machine, final: Byte)
    requires m.state == CsiParam && 0x40 <= final <= 0x7E
    ensures Feed(m, [final]) == EmitCsi(PushParam(m), final)
  {
    FeedOne(m, final);
  }

  lemma ParamBytesDigit(ps: seq<seq<Digit>>)
    requires ps != [] && ps[0] != []
    ensures ParamBytes(ps) != [] && 0x30 <= ParamBytes(ps)[0] <= 0x39
  {
  }

  lemma RestartReads(m: Machine, bytes: seq<Byte>)
    requires m.state == CsiIntermediate && bytes != [] && 0x30 <= bytes[0] <= 0x39
    ensures Feed(m, bytes) == Feed(m.(marker := 0, params := [], current := 0, state := CsiParam), bytes)
  {
  }
}
