/** Whole byte streams through the parser: bounds, no amplification, what a cancelled sequence
    leaves behind, and that parsing undoes printing. */
module ParserRuns {
  import opened Utf8
  import opened Parser

  // ---- bounds ----

  ghost predicate Bounded(m: Machine) {
    && |m.params| <= MAX_PARAMS && |m.intermediates| <= MAX_INTERMEDIATES && |m.osc| <= MAX_OSC_LEN
    && (m.utf8 != [] ==> m.state == Ground && |m.utf8| < m.expected == LeadLength(m.utf8[0]) <= 4)
    && (m.utf8 != [] ==> forall i :: 1 <= i < |m.utf8| ==> IsContinuation(m.utf8[i]))
    && (m.oscPendingEsc ==> m.state == Escape)
    && (m.overflow ==> m.current == 0 || m.current == 65535)
  }

  /** A pending UTF-8 sequence has taken bytes and owes at most one action for them. */
  function Owed(m: Machine): nat { if m.utf8 == [] then 0 else 1 }

  lemma GroundBounded(m: Machine, b: Byte)
    requires Bounded(m) && m.state == Ground
    ensures Bounded(GroundStep(m, b).next)
    ensures |GroundStep(m, b).out| + Owed(GroundStep(m, b).next) <= 1 + Owed(m)
  {
    hide Decode, WellFormed;
  }

  lemma ParamBounded(m: Machine, b: Byte)
    requires Bounded(m) && m.utf8 == [] && !m.oscPendingEsc && m.state == CsiParam
    ensures Bounded(CsiParamStep(m, b).next)
    ensures |CsiParamStep(m, b).out| + Owed(CsiParamStep(m, b).next) <= 1
  {
    if !(b == 0x18 || b == 0x1A || 0x20 <= b <= 0x3B || 0x40 <= b <= 0x7E) {
      GroundBounded(ResetSequence(m), b);
    }
    hide GroundStep, Decode, WellFormed;
  }

  lemma AdvanceBounded(m: Machine, b: Byte)
    requires Bounded(m)
    ensures Bounded(Advance(m, b).next)
    ensures |Advance(m, b).out| + Owed(Advance(m, b).next) <= 1 + Owed(m)
  {
    hide GroundStep, CsiParamStep, Decode, WellFormed;
    match m.state
    case Ground => GroundBounded(m, b);
    case EscapeIntermediate => GroundBounded(m.(state := Ground), b);
    case Charset => GroundBounded(m.(state := Ground), b);
    case Line => GroundBounded(m.(state := Ground), b);
    case CsiEntry => ParamBounded(m.(state := CsiParam), b);
    case CsiParam => ParamBounded(m, b);
    case CsiIntermediate => RestartBounded(m, b);
    case Escape => EscapeBounded(m, b);
    case _ => hide EscapeStep;
  }

  lemma EscapeBounded(m: Machine, b: Byte)
    requires Bounded(m) && m.state == Escape
    ensures Bounded(EscapeStep(m, b).next) && |EscapeStep(m, b).out| <= 1 && EscapeStep(m, b).next.utf8 == m.utf8
  {
  }

  lemma RestartBounded(m: Machine, b: Byte)
    requires Bounded(m) && m.state == CsiIntermediate
    ensures Bounded(CsiIntermediateStep(m, b).next)
    ensures |CsiIntermediateStep(m, b).out| + Owed(CsiIntermediateStep(m, b).next) <= 1
  {
  }

  /** For every byte string: all tables stay within their limits, and no more actions come out than
      bytes went in. */
  lemma {:induction false} FeedBounded(m: Machine, bytes: seq<Byte>)
    requires Bounded(m)
    ensures Bounded(Feed(m, bytes).next)
    ensures |Feed(m, bytes).out| + Owed(Feed(m, bytes).next) <= |bytes| + Owed(m)
    decreases |bytes|
  {
    if bytes != [] {
      AdvanceBounded(m, bytes[0]);
      hide Bounded, Advance;
      FeedBounded(Advance(m, bytes[0]).next, bytes[1..]);
    }
  }

  lemma NeverAmplifies(bytes: seq<Byte>)
    ensures Bounded(Feed(Fresh(), bytes).next) && |Feed(Fresh(), bytes).out| <= |bytes|
  {
    FeedBounded(Fresh(), bytes);
  }

  lemma {:induction false} FeedConcat(m: Machine, a: seq<Byte>, b: seq<Byte>)
    ensures var first := Feed(m, a);
            var rest := Feed(first.next, b);
            Feed(m, a + b) == Stepped(rest.next, first.out + rest.out)
    decreases |a|
  {
    hide Advance;
    if a == [] {
      assert a + b == b;
      assert [] + Feed(m, b).out == Feed(m, b).out;
    } else {
      assert (a + b)[1..] == a[1..] + b;
      var s := Advance(m, a[0]);
      FeedConcat(s.next, a[1..], b);
      var first := Feed(s.next, a[1..]);
      var rest := Feed(first.next, b);
      assert s.out + (first.out + rest.out) == s.out + first.out + rest.out;
    }
  }

  lemma FeedOne(m: Machine, b: Byte)
    ensures Feed(m, [b]) == Advance(m, b)
  {
    hide Advance;
    var s := Advance(m, b);
    assert Feed(s.next, []) == Stepped(s.next, []);
    assert s.out + [] == s.out;
  }

  // ---- what a cancelled sequence leaves behind ----

  /** No marker, parameter or intermediate is left from an earlier sequence. */
  ghost predicate NoResidue(m: Machine) {
    m.marker == 0 && m.params == [] && m.current == 0 && !m.overflow && m.intermediates == []
  }

  /** The byte drops the sequence under way without going through the reset. */
  ghost predicate Cancels(m: Machine, b: Byte) {
    match m.state
    case CsiEntry => b < 0x20 || b > 0x7E
    case CsiParam => b == 0x18 || b == 0x1A
    case CsiIntermediate => b < 0x20 || b > 0x7E
    case EscapeIntermediate => b < 0x20 || b > 0x2F
    case _ => false
  }

  /** Nothing of a sequence is remembered. */
  function Forget(m: Machine): Machine {
    m.(marker := 0, params := [], current := 0, overflow := false, intermediates := [])
  }

  // ---- a parser that forgets what it cancels ----

  /** As `Advance`, but a cancelled sequence is forgotten. */
  ghost function ForgettingStep(m: Machine, b: Byte): Stepped {
    Advance(if Cancels(m, b) then Forget(m) else m, b)
  }

  ghost function ForgettingFeed(m: Machine, bytes: seq<Byte>): Stepped
    decreases |bytes|
  {
    if bytes == [] then Quiet(m)
    else
      var first := ForgettingStep(m, bytes[0]);
      var rest := ForgettingFeed(first.next, bytes[1..]);
      Stepped(rest.next, first.out + rest.out)
  }

  /** What is remembered was written by the sequence under way: none outside one, nothing but a marker
      at the entry of a CSI sequence, nothing but intermediates in an escape sequence. */
  ghost predicate OwnOnly(m: Machine) {
    match m.state
    case CsiEntry => NoResidue(m.(marker := 0))
    case CsiParam => true
    case CsiIntermediate => true
    case EscapeIntermediate => NoResidue(m.(intermediates := []))
    case _ => NoResidue(m)
  }

  lemma GroundKeepsResidue(m: Machine, b: Byte)
    requires m.state == Ground
    ensures var n := GroundStep(m, b).next;
            && n == m.(state := n.state, utf8 := n.utf8, expected := n.expected, osc := n.osc, oscTruncated := n.oscTruncated,
                       passthrough := n.passthrough)
            && n.state != CsiParam && n.state != CsiIntermediate && n.state != EscapeIntermediate
  {
    hide Decode, WellFormed;
  }

  /** The forgetting parser remembers a sequence's own bytes only, and starts each from nothing. */
  lemma ForgettingOwnsOnly(m: Machine, b: Byte)
    requires OwnOnly(m)
    ensures var n := ForgettingStep(m, b).next;
            OwnOnly(n) && (n.state == CsiEntry && m.state != CsiEntry ==> NoResidue(n))
  {
    match m.state
    case EscapeIntermediate => EscapeIntermediateOwns(m, b);
    case CsiParam =>
      GroundKeepsResidue(ResetSequence(m), b);
      hide GroundStep;
    case CsiEntry => hide GroundStep, CsiParamStep;
      EntryOwns(m, b);
    case CsiIntermediate =>
      GroundKeepsResidue(ResetSequence(m), b);
      hide GroundStep;
    case _ => OutsideOwns(m, b);
  }

  /** Outside sequences nothing is remembered, and only an escape sequence starts by noting something. */
  lemma OutsideOwns(m: Machine, b: Byte)
    requires NoResidue(m) && !(m.state in {CsiEntry, CsiParam, CsiIntermediate, EscapeIntermediate})
    ensures OwnOnly(Advance(m, b).next) && (Advance(m, b).next.state == CsiEntry ==> NoResidue(Advance(m, b).next))
  {
    match m.state
    case Ground =>
      GroundKeepsResidue(m, b);
      hide GroundStep;
    case Charset =>
      GroundKeepsResidue(m.(state := Ground), b);
      hide GroundStep;
    case Line =>
      GroundKeepsResidue(m.(state := Ground), b);
      hide GroundStep;
    case _ => hide GroundStep;
  }

  lemma EscapeIntermediateOwns(m: Machine, b: Byte)
    requires OwnOnly(m) && m.state == EscapeIntermediate
    ensures var n := ForgettingStep(m, b).next;
            OwnOnly(n) && (n.state == CsiEntry ==> NoResidue(n))
  {
    GroundKeepsResidue(Forget(m).(state := Ground), b);
    hide GroundStep;
  }

  lemma EntryOwns(m: Machine, b: Byte)
    requires OwnOnly(m) && m.state == CsiEntry
    ensures OwnOnly(ForgettingStep(m, b).next)
  {
    hide GroundStep;
    assert 0x30 <= b <= 0x3B ==> CsiParamStep(m.(state := CsiParam), b).next.state == CsiParam;
    hide CsiParamStep;
  }

  /** A byte that cancels does not look at what it drops. */
  lemma CancelBlind(m: Machine, b: Byte)
    requires Cancels(m, b)
    ensures Advance(Forget(m), b) == Stepped(Forget(Advance(m, b).next), Advance(m, b).out)
    ensures !(Advance(m, b).next.state in {CsiParam, CsiIntermediate, EscapeIntermediate})
    ensures NoResidue(m) <==> NoResidue(Advance(m, b).next)
    ensures m.oscPendingEsc == Advance(m, b).next.oscPendingEsc
  {
    if m.state == EscapeIntermediate && b != 0x18 && b != 0x1A && !(0x30 <= b <= 0x7E) {
      GroundKeepsResidue(m.(state := Ground), b);
      GroundBlind(m.(state := Ground), b);
      hide GroundStep;
    }
  }

  lemma GroundBlind(m: Machine, b: Byte)
    requires m.state == Ground
    ensures GroundStep(Forget(m), b) == Stepped(Forget(GroundStep(m, b).next), GroundStep(m, b).out)
  {
    hide Decode, WellFormed;
  }

  /** No byte of the run cancels a sequence that has collected anything. */
  ghost predicate Lossless(m: Machine, bytes: seq<Byte>)
    decreases |bytes|
  {
    bytes == [] || ((Cancels(m, bytes[0]) ==> NoResidue(m)) && Lossless(Advance(m, bytes[0]).next, bytes[1..]))
  }

  /** From the start, on every such stream, the parser does what the forgetting one does: each CSI
      action carries the marker, parameters and intermediates of its own sequence and of no other. */
  lemma {:induction false} LosslessIsForgetting(m: Machine, bytes: seq<Byte>)
    requires OwnOnly(m) && Lossless(m, bytes)
    ensures Feed(m, bytes) == ForgettingFeed(m, bytes) && OwnOnly(Feed(m, bytes).next)
    decreases |bytes|
  {
    if bytes != [] {
      ForgettingOwnsOnly(m, bytes[0]);
      assert NoResidue(m) ==> Forget(m) == m;
      hide Advance, OwnOnly, NoResidue, Cancels;
      LosslessIsForgetting(Advance(m, bytes[0]).next, bytes[1..]);
    }
  }

  // ---- a sequence is read from its own bytes ----

  ghost predicate InOsc(m: Machine) { m.state == OscString || m.oscPendingEsc }

  /** Equal in everything the state still looks at. */
  ghost predicate Alike(m: Machine, n: Machine) {
    && n == m.(expected := n.expected, osc := n.osc, oscTruncated := n.oscTruncated, passthrough := n.passthrough)
    && (m.utf8 != [] ==> n.expected == m.expected)
    && (InOsc(m) ==> n.osc == m.osc && n.oscTruncated == m.oscTruncated)
    && (m.oscPendingEsc ==> m.state == Escape)
  }

  lemma GroundAlike(m: Machine, n: Machine, b: Byte)
    requires Alike(m, n) && m.state == Ground
    ensures GroundStep(m, b).out == GroundStep(n, b).out && Alike(GroundStep(m, b).next, GroundStep(n, b).next)
  {
    hide Decode, WellFormed;
  }

  lemma CsiAlike(m: Machine, n: Machine, b: Byte)
    requires Alike(m, n) && m.state == CsiParam
    ensures CsiParamStep(m, b).out == CsiParamStep(n, b).out && Alike(CsiParamStep(m, b).next, CsiParamStep(n, b).next)
  {
    GroundAlike(ResetSequence(m), ResetSequence(n), b);
    hide GroundStep;
  }

  lemma AdvanceAlike(m: Machine, n: Machine, b: Byte)
    requires Alike(m, n)
    ensures Advance(m, b).out == Advance(n, b).out && Alike(Advance(m, b).next, Advance(n, b).next)
  {
    match m.state
    case Ground =>
      GroundAlike(m, n, b);
      hide GroundStep;
    case EscapeIntermediate =>
      GroundAlike(m.(state := Ground), n.(state := Ground), b);
      hide GroundStep;
    case Charset =>
      GroundAlike(m.(state := Ground), n.(state := Ground), b);
      hide GroundStep;
    case Line =>
      GroundAlike(m.(state := Ground), n.(state := Ground), b);
      hide GroundStep;
    case CsiEntry =>
      CsiAlike(m.(state := CsiParam), n.(state := CsiParam), b);
      hide CsiParamStep, GroundStep;
    case CsiParam =>
      CsiAlike(m, n, b);
      hide CsiParamStep, GroundStep;
    case CsiIntermediate =>
      CsiAlike(m.(marker := 0, params := [], current := 0, state := CsiParam),
               n.(marker := 0, params := [], current := 0, state := CsiParam), b);
      hide CsiParamStep, GroundStep;
    case Escape =>
      EscapeAlike(m, n, b);
      hide EscapeStep;
    case _ =>
      StringAlike(m, n, b);
      hide OscStep, DcsEntryStep, PassStep;
  }

  lemma EscapeAlike(m: Machine, n: Machine, b: Byte)
    requires Alike(m, n) && m.state == Escape
    ensures EscapeStep(m, b).out == EscapeStep(n, b).out && Alike(EscapeStep(m, b).next, EscapeStep(n, b).next)
  {
    if m.oscPendingEsc || b == 0x5D {
      EscapeOscAlike(m, n, b);
    } else {
      EscapePlain(m, b);
      EscapePlain(n, b);
    }
    hide EscapeStep, EscOut;
  }

  lemma EscapeOscAlike(m: Machine, n: Machine, b: Byte)
    requires Alike(m, n) && m.state == Escape && (m.oscPendingEsc || b == 0x5D)
    ensures EscapeStep(m, b).out == EscapeStep(n, b).out && Alike(EscapeStep(m, b).next, EscapeStep(n, b).next)
  {
    hide EscOut;
  }

  /** Where a byte after an escape leads, and what it does, looks at nothing. */
  ghost function EscapeTo(b: Byte): (State, seq<Action>, bool) {
    var s := EscapeStep(Fresh().(state := Escape), b);
    (s.next.state, s.out, s.next.intermediates != [])
  }

  lemma EscapePlain(m: Machine, b: Byte)
    requires m.state == Escape && !m.oscPendingEsc && b != 0x5D
    ensures var (state, out, noted) := EscapeTo(b);
            var s := EscapeStep(m, b);
            && s.out == out && state != OscString
            && s.next == m.(state := state, intermediates := if noted then [b] else m.intermediates, passthrough := s.next.passthrough)
  {
    hide EscOut;
  }

  lemma StringAlike(m: Machine, n: Machine, b: Byte)
    requires Alike(m, n)
    ensures m.state == OscString ==> OscStep(m, b).out == OscStep(n, b).out && Alike(OscStep(m, b).next, OscStep(n, b).next)
    ensures m.state == DcsEntry ==> DcsEntryStep(m, b).out == DcsEntryStep(n, b).out
                                    && Alike(DcsEntryStep(m, b).next, DcsEntryStep(n, b).next)
    ensures m.state == DcsPassthrough || m.state == SosPmApc ==>
              PassStep(m, b).out == PassStep(n, b).out && Alike(PassStep(m, b).next, PassStep(n, b).next)
  {
    if m.state == OscString {
      hide DcsEntryStep, PassStep;
    } else {
      hide OscStep;
    }
  }

  lemma {:induction false} FeedAlike(m: Machine, n: Machine, bytes: seq<Byte>)
    requires Alike(m, n)
    ensures Feed(m, bytes).out == Feed(n, bytes).out && Alike(Feed(m, bytes).next, Feed(n, bytes).next)
    decreases |bytes|
  {
    if bytes != [] {
      AdvanceAlike(m, n, bytes[0]);
      hide Advance, Alike;
      FeedAlike(Advance(m, bytes[0]).next, Advance(n, bytes[0]).next, bytes[1..]);
    }
  }

  lemma {:induction false} LosslessConcat(m: Machine, a: seq<Byte>, b: seq<Byte>)
    requires Lossless(m, a + b)
    ensures Lossless(m, a) && Lossless(Feed(m, a).next, b)
    decreases |a|
  {
    hide Advance, Cancels, NoResidue;
    if a == [] {
      assert a + b == b;
    } else {
      assert (a + b)[1..] == a[1..] + b;
      LosslessConcat(Advance(m, a[0]).next, a[1..], b);
    }
  }

  /** A CSI sequence means the same wherever it stands: if nothing collected was cancelled so far, then
      from the byte that opens it on, everything comes out as from a parser that has seen nothing else. */
  lemma OwnBytesOnly(pre: seq<Byte>, b: Byte, rest: seq<Byte>)
    requires Lossless(Fresh(), pre + [b])
    requires Feed(Fresh(), pre).next.state != CsiEntry && Feed(Fresh(), pre + [b]).next.state == CsiEntry
    ensures Feed(Feed(Fresh(), pre + [b]).next, rest).out == Feed(Fresh().(state := CsiEntry), rest).out
  {
    LosslessConcat(Fresh(), pre, [b]);
    LosslessIsForgetting(Fresh(), pre);
    var m := Feed(Fresh(), pre).next;
    FeedConcat(Fresh(), pre, [b]);
    FeedOne(m, b);
    ForgettingOwnsOnly(m, b);
    assert NoResidue(m) ==> Forget(m) == m;
    var n := Feed(Fresh(), pre + [b]).next;
    assert n == Advance(m, b).next == ForgettingStep(m, b).next;
    FeedBounded(Fresh(), pre + [b]);
    hide Advance, Feed;
    FeedAlike(n, Fresh().(state := CsiEntry), rest);
  }

  // ---- exactly when forgetting would matter ----

  /** A byte leaves something behind that later input can bring to light exactly when it cancels a
      sequence that has collected anything. */
  lemma CancelShowsIff(m: Machine, b: Byte)
    requires Bounded(m)
    ensures (forall rest: seq<Byte> :: Feed(Advance(m, b).next, rest).out == Feed(ForgettingStep(m, b).next, rest).out)
       <==> !Cancels(m, b) || NoResidue(m)
  {
    if Cancels(m, b) {
      CancelBlind(m, b);
      var n := Advance(m, b).next;
      assert ForgettingStep(m, b).next == Forget(n);
      if NoResidue(m) {
        assert Forget(n) == n;
      } else {
        hide Advance, Feed;
        AdvanceBounded(m, b);
        Revealed(n);
      }
    }
  }

  /** Back to ground from wherever a cancelling byte leads, then a sequence that shows the residue. */
  function Revealing(m: Machine): seq<Byte> {
    [0x18] + ([0x1B] + ([0x5B] + (if m.marker == 0 && m.params == [] && m.intermediates == [] then [0x35] + [0x6D] else [0x6D])))
  }

  lemma Revealed(m: Machine)
    requires Bounded(m) && !NoResidue(m) && !m.oscPendingEsc
    requires !(m.state in {CsiParam, CsiIntermediate, EscapeIntermediate, Charset, Line})
    ensures Feed(m, Revealing(m)).out != Feed(Forget(m), Revealing(m)).out
  {
    var tail := if m.marker == 0 && m.params == [] && m.intermediates == [] then [0x35] + [0x6D] else [0x6D];
    CanGrounds(m, [0x1B] + ([0x5B] + tail));
    CanGrounds(Forget(m), [0x1B] + ([0x5B] + tail));
    var s := Advance(m, 0x18);
    hide Advance, Feed, Bounded;
    EntersCsi(s.next, tail);
    EntersCsi(Forget(s.next), tail);
    var a, f := Feed(s.next.(state := CsiEntry), tail).out, Feed(Forget(s.next).(state := CsiEntry), tail).out;
    Shows(s.next.(state := CsiEntry), tail);
    assert s.out + a != s.out + f by {
      assert (s.out + a)[|s.out|..] == a && (s.out + f)[|s.out|..] == f;
    }
  }

  lemma CanGrounds(m: Machine, rest: seq<Byte>)
    requires Bounded(m) && !m.oscPendingEsc
    requires !(m.state in {CsiParam, CsiIntermediate, EscapeIntermediate, Charset, Line})
    ensures var s := Advance(m, 0x18);
            && s.next == m.(state := Ground, utf8 := [], osc := s.next.osc)
            && Advance(Forget(m), 0x18) == Stepped(Forget(s.next), s.out)
            && Feed(m, [0x18] + rest).out == s.out + Feed(s.next, rest).out
  {
    CanStep(m);
    hide Advance;
    FeedCons(m, 0x18, rest);
    hide Feed;
  }

  lemma CanStep(m: Machine)
    requires Bounded(m) && !m.oscPendingEsc
    requires !(m.state in {CsiParam, CsiIntermediate, EscapeIntermediate, Charset, Line})
    ensures var s := Advance(m, 0x18);
            && s.next == m.(state := Ground, utf8 := [], osc := s.next.osc)
            && Advance(Forget(m), 0x18) == Stepped(Forget(s.next), s.out)
  {
    match m.state
    case Ground => hide Decode, WellFormed;
    case _ => hide GroundStep;
  }

  lemma EntersCsi(m: Machine, tail: seq<Byte>)
    requires m.state == Ground && m.utf8 == [] && !m.oscPendingEsc
    ensures Feed(m, [0x1B] + ([0x5B] + tail)) == Feed(m.(state := CsiEntry), tail)
  {
    FeedSilent(m, 0x1B, [0x5B] + tail, m.(state := Escape));
    FeedSilent(m.(state := Escape), 0x5B, tail, m.(state := CsiEntry));
    hide Advance, Feed;
  }

  lemma Shows(m: Machine, tail: seq<Byte>)
    requires m.state == CsiEntry && !NoResidue(m) && (m.overflow ==> m.current == 0 || m.current == 65535)
    requires tail == if m.marker == 0 && m.params == [] && m.intermediates == [] then [0x35] + [0x6D] else [0x6D]
    ensures Feed(m, tail).out != Feed(Forget(m), tail).out
  {
    if m.marker == 0 && m.params == [] && m.intermediates == [] {
      var a, f := AddDigit(m.(state := CsiParam), 5), AddDigit(Forget(m).(state := CsiParam), 5);
      FeedSilent(m, 0x35, [0x6D], a);
      FeedSilent(Forget(m), 0x35, [0x6D], f);
      FeedOne(a, 0x6D);
      FeedOne(f, 0x6D);
      hide Feed;
      assert Advance(a, 0x6D).out[0].params == [a.current] && Advance(f, 0x6D).out[0].params == [5];
      assert a.current != 5;
    } else {
      FeedOne(m, 0x6D);
      FeedOne(Forget(m), 0x6D);
    }
  }

  lemma FeedCons(m: Machine, b: Byte, rest: seq<Byte>)
    ensures var s := Advance(m, b);
            Feed(m, [b] + rest) == Stepped(Feed(s.next, rest).next, s.out + Feed(s.next, rest).out)
  {
    hide Advance;
    assert ([b] + rest)[1..] == rest;
  }

  /** A byte that only moves the machine on. */
  lemma FeedSilent(m: Machine, b: Byte, rest: seq<Byte>, next: Machine)
    requires Advance(m, b) == Stepped(next, [])
    ensures Feed(m, [b] + rest) == Feed(next, rest)
  {
    FeedCons(m, b, rest);
    hide Advance;
    assert [] + Feed(next, rest).out == Feed(next, rest).out;
  }

  /** The same through an escape sequence: `ESC SP CSI m`, with CSI as one byte, carries a space that
      `CSI m` alone does not. */
  lemma CancelledIntermediateLeaks()
    ensures Feed(Fresh(), [0x1B] + ([0x20] + ([0x9B] + [0x6D]))).out == [Csi(0, [], [0x20], 0x6D)]
    ensures Feed(Fresh(), [0x9B] + [0x6D]).out == [Csi(0, [], [], 0x6D)]
  {
    var m0 := Fresh();
    var m1 := m0.(state := EscapeIntermediate, intermediates := [0x20]);
    FeedSilent(m0, 0x1B, [0x20] + ([0x9B] + [0x6D]), m0.(state := Escape));
    FeedSilent(m0.(state := Escape), 0x20, [0x9B] + [0x6D], m1);
    FeedSilent(m1, 0x9B, [0x6D], m1.(state := CsiEntry));
    FeedSilent(m0, 0x9B, [0x6D], m0.(state := CsiEntry));
    FeedOne(m1.(state := CsiEntry), 0x6D);
    FeedOne(m0.(state := CsiEntry), 0x6D);
    hide Feed;
  }

  /** So a cancelled sequence is not forgotten: `ESC [ ? CAN ESC [ 5 h` sets a private mode, where
      `ESC [ 5 h` sets an ANSI one. */
  lemma CancelledMarkerLeaks()
    ensures Feed(Fresh(), [0x1B] + ([0x5B] + ([0x3F] + ([0x18] + SET_MODE)))).out == [Csi(0x3F, [5], [], 0x68)]
    ensures Feed(Fresh(), SET_MODE).out == [Csi(0, [5], [], 0x68)]
  {
    var m0 := Fresh();
    SetMode(m0);
    SetMode(m0.(marker := 0x3F));
    FeedSilent(m0, 0x1B, [0x5B] + ([0x3F] + ([0x18] + SET_MODE)), m0.(state := Escape));
    FeedSilent(m0.(state := Escape), 0x5B, [0x3F] + ([0x18] + SET_MODE), m0.(state := CsiEntry));
    FeedSilent(m0.(state := CsiEntry), 0x3F, [0x18] + SET_MODE, m0.(state := CsiEntry, marker := 0x3F));
    FeedSilent(m0.(state := CsiEntry, marker := 0x3F), 0x18, SET_MODE, m0.(marker := 0x3F));
    hide Advance, Feed;
  }

  /** `ESC [ 5 h` */
  const SET_MODE: seq<Byte> := [0x1B] + ([0x5B] + ([0x35] + [0x68]))

  lemma SetMode(m: Machine)
    requires m.state == Ground && m.utf8 == [] && m.params == [] && m.current == 0 && !m.overflow
    requires m.intermediates == [] && !m.oscPendingEsc
    ensures Feed(m, SET_MODE).out == [Csi(m.marker, [5], [], 0x68)]
  {
    var m3 := m.(state := CsiParam, current := 5);
    FeedSilent(m, 0x1B, [0x5B] + ([0x35] + [0x68]), m.(state := Escape));
    FeedSilent(m.(state := Escape), 0x5B, [0x35] + [0x68], m.(state := CsiEntry));
    FeedSilent(m.(state := CsiEntry), 0x35, [0x68], m3);
    FeedOne(m3, 0x68);
    assert Advance(m3, 0x68).out == [Csi(m.marker, [5], [], 0x68)] by {
      assert [] + [5] == [5];
    }
    hide Advance, Feed;
  }
}
