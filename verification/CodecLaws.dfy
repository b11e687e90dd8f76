/** What the decoder accepts, exactly: the frames of encodable messages and an unfinished rest, and
    nothing else; and which fault stops it where. */
module CodecLaws {
  import opened Options
  import opened Utf8
  import opened Codec

  // ---- frames ----

  /** Two bytes as a number, the low one first. */
  function LowFirst(low: nat, high: nat): nat { low + 256 * high }

  /** The bytes of a frame header: "FK01" and the payload length, low byte first. */
  predicate Headed(s: seq<Byte>, len: nat) {
    |s| >= 6 && s[..4] == [0x46, 0x4B, 0x30, 0x31] && LowFirst(s[4], s[5]) == len
  }

  /** No header yet, or a header and too little behind it. */
  ghost predicate Unfinished(s: seq<Byte>) {
    |s| < 6 || exists len: nat :: Headed(s, len) && len <= 4096 && |s| < 6 + len
  }

  /** A frame at the front that breaks the connection, and how. */
  predicate Refused(s: seq<Byte>, e: CodecError) {
    && |s| >= 6
    && if s[..4] != [0x46, 0x4B, 0x30, 0x31] then e == Malformed
       else
         var len := LowFirst(s[4], s[5]);
         if len > 4096 then e == TooLarge(len)
         else 6 + len <= |s| && DecodePayload(s[6..6 + len]) == Failure(e)
  }

  lemma FrontIs(s: seq<Byte>)
    ensures FrameLength(s) == Success(None) <==> Unfinished(s)
    ensures FrameLength(s).Failure? <==> |s| >= 6 && (s[..4] != [0x46, 0x4B, 0x30, 0x31] || LowFirst(s[4], s[5]) > 4096)
    ensures FrameLength(s).Failure? ==> Refused(s, FrameLength(s).error)
    ensures forall n: nat :: FrameLength(s) == Success(Some(n)) <==> Headed(s, n) && n <= 4096 && 6 + n <= |s|
  {
    if |s| >= 6 {
      assert Headed(s, LowFirst(s[4], s[5])) <==> s[..4] == MAGIC;
    }
    hide DecodePayload;
  }

  /** A frame that decodes is the frame of its message. */
  lemma FrontIsFrame(s: seq<Byte>, n: nat)
    requires Headed(s, n) && n <= 4096 && 6 + n <= |s| && DecodePayload(s[6..6 + n]).Success?
    ensures var m := DecodePayload(s[6..6 + n]).value;
            Encodable(m) && FrameOf(m) == s[..6 + n]
  {
    var payload := s[6..6 + n];
    hide DecodePayload, EncodePayload, ValidText;
    Canonical(payload);
    RoundTrip(DecodePayload(payload).value);
    HeaderIs(s, n);
  }

  lemma LowFirstBytes(a: Byte, b: Byte)
    ensures var n := LowFirst(a, b); n < 0x1_0000 && n % 0x1_0000 == n && LE16(n) == [a, b]
  {
    LE16Inverse(0, a, b);
  }

  lemma NonceBytes(a: Byte, b: Byte, c: Byte, d: Byte)
    ensures var n := LowFirst(a, LowFirst(b, LowFirst(c, d))); n < 0x1_0000_0000 && LE32(n) == [a, b, c, d]
  {
    LE32Inverse(0, a, b, c, d);
    assert LowFirst(a, LowFirst(b, LowFirst(c, d))) == FromLE32(a, b, c, d);
    hide LE32;
  }

  lemma HeaderIs(s: seq<Byte>, n: nat)
    requires Headed(s, n) && 6 + n <= |s|
    ensures MAGIC + LE16(n % 0x1_0000) + s[6..6 + n] == s[..6 + n]
  {
    LowFirstBytes(s[4], s[5]);
    hide LE16, LowFirst;
    assert MAGIC + [s[4], s[5]] == s[..6];
    assert s[..6] + s[6..6 + n] == s[..6 + n];
  }

  // ---- streams ----

  lemma {:induction false} CleanStream(s: seq<Byte>)
    requires Parse(s).Clean?
    ensures (forall m :: m in Parse(s).messages ==> Encodable(m))
    ensures s == EncodeAll(Parse(s).messages) + Parse(s).rest && Unfinished(Parse(s).rest)
    decreases |s|
  {
    hide DecodePayload, FrameLength, FrameOf, Encodable;
    FrontIs(s);
    if !Unfinished(s) {
      var n := FrameLength(s).value.value;
      FrontIsFrame(s, n);
      var m := DecodePayload(s[6..6 + n]).value;
      CleanStream(s[6 + n..]);
      ParseFirst(s, n, m);
      Joins(s, 6 + n, m, Parse(s[6 + n..]).messages, Parse(s[6 + n..]).rest);
    }
  }

  lemma Joins(s: seq<Byte>, k: nat, m: Message, ms: seq<Message>, rest: seq<Byte>)
    requires k <= |s| && FrameOf(m) == s[..k] && s[k..] == EncodeAll(ms) + rest
    ensures s == EncodeAll([m] + ms) + rest
  {
    assert s == s[..k] + s[k..];
    assert ([m] + ms)[1..] == ms;
    hide FrameOf;
    assert FrameOf(m) + (EncodeAll(ms) + rest) == FrameOf(m) + EncodeAll(ms) + rest;
  }

  lemma {:induction false} FramesAhead(ms: seq<Message>, rest: seq<Byte>)
    requires forall m :: m in ms ==> Encodable(m)
    ensures Parse(EncodeAll(ms) + rest) == Before(ms, Parse(rest))
  {
    hide EncodeFrame, Parse, Encodable;
    var p := Parse(rest);
    if ms == [] {
      assert [] + rest == rest && [] + p.messages == p.messages;
    } else {
      FramesAhead(ms[1..], rest);
      FrameReads(ms[0], EncodeAll(ms[1..]) + rest);
      assert FrameOf(ms[0]) + EncodeAll(ms[1..]) + rest == FrameOf(ms[0]) + (EncodeAll(ms[1..]) + rest);
      assert [ms[0]] + (ms[1..] + p.messages) == ms + p.messages;
    }
  }

  /** Reading without a fault means exactly this: the stream is the frames of those messages, one after the
      other, each beginning with the magic bytes, and a rest that is no whole frame yet. */
  lemma ReadsCleanIff(s: seq<Byte>, ms: seq<Message>, rest: seq<Byte>)
    ensures Parse(s) == Clean(ms, rest)
       <==> (forall m :: m in ms ==> Encodable(m)) && s == EncodeAll(ms) + rest && Unfinished(rest)
  {
    if Parse(s) == Clean(ms, rest) {
      CleanStream(s);
    }
    if (forall m :: m in ms ==> Encodable(m)) && s == EncodeAll(ms) + rest && Unfinished(rest) {
      FramesAhead(ms, rest);
      FrontIs(rest);
      assert ms + [] == ms;
      hide FrameLength, Encodable, EncodeAll, DecodePayload, Unfinished;
      assert Parse(rest) == Clean([], rest);
    }
  }

  lemma {:induction false} FaultyStream(s: seq<Byte>) returns (bad: seq<Byte>)
    requires Parse(s).Faulty?
    ensures (forall m :: m in Parse(s).messages ==> Encodable(m))
    ensures s == EncodeAll(Parse(s).messages) + bad && Refused(bad, Parse(s).error)
    decreases |s|
  {
    hide DecodePayload, FrameLength, FrameOf, Encodable;
    FrontIs(s);
    bad := s;
    if FrameLength(s).Success? {
      var n := FrameLength(s).value.value;
      if DecodePayload(s[6..6 + n]).Success? {
        FrontIsFrame(s, n);
        var m := DecodePayload(s[6..6 + n]).value;
        bad := FaultyStream(s[6 + n..]);
        ParseFirst(s, n, m);
        Joins(s, 6 + n, m, Parse(s[6 + n..]).messages, bad);
      }
    }
  }

  /** And stopping at a fault, exactly this: behind the frames of those messages stands one that is refused,
      for another magic, for a length beyond 4096, or for its payload. */
  lemma ReadsFaultyIff(s: seq<Byte>, ms: seq<Message>, e: CodecError)
    ensures Parse(s) == Faulty(ms, e)
       <==> exists bad :: (forall m :: m in ms ==> Encodable(m)) && s == EncodeAll(ms) + bad && Refused(bad, e)
  {
    if Parse(s) == Faulty(ms, e) {
      var bad := FaultyStream(s);
    }
    forall bad | (forall m :: m in ms ==> Encodable(m)) && s == EncodeAll(ms) + bad && Refused(bad, e)
      ensures Parse(s) == Faulty(ms, e)
    {
      FramesAhead(ms, bad);
      RefusedStops(bad, e);
      assert ms + [] == ms;
      hide Parse, Encodable, EncodeAll, Refused;
    }
  }

  lemma RefusedStops(s: seq<Byte>, e: CodecError)
    requires Refused(s, e)
    ensures Parse(s) == Faulty([], e)
  {
    FrontIs(s);
    var len := LowFirst(s[4], s[5]);
    assert s[..4] == [0x46, 0x4B, 0x30, 0x31] ==> Headed(s, len);
    hide DecodePayload, FrameLength;
  }

  // ---- payloads ----

  /** A payload decodes exactly when it is what encoding some message gives. */
  lemma DecodesIff(payload: seq<Byte>)
    ensures DecodePayload(payload).Success? <==> exists m :: EncodePayload(m) == Success(payload)
  {
    if DecodePayload(payload).Success? {
      Canonical(payload);
    }
    forall m | EncodePayload(m) == Success(payload) ensures DecodePayload(payload).Success? {
      RoundTrip(m);
    }
    hide DecodePayload, EncodePayload;
  }

  /** Where a payload announces the length of its string. */
  function LengthAt(payload: seq<Byte>): nat { if payload != [] && payload[0] == 0x81 then 3 else 2 }

  /** It fails for a string too long exactly when it announces one of more than 256 bytes: in a greeting, or in
      an error report with a known code. Every other failure is a malformed frame. */
  lemma WhyRefused(payload: seq<Byte>)
    ensures DecodePayload(payload).Failure? ==>
              var at := LengthAt(payload);
              var announces := && |payload| >= at + 2 && LowFirst(payload[at], payload[at + 1]) > 256
                               && (payload[0] == 0x01
                                   || (payload[0] == 0x81 && exists r :: Code(r) == LowFirst(payload[1], payload[2])));
              DecodePayload(payload).error
              == if announces then StringTooLong(LowFirst(payload[at], payload[at + 1])) else Malformed
  {
    if payload != [] && payload[0] == 0x81 && |payload| >= 3 {
      var known := FromCode(LowFirst(payload[1], payload[2]));
      assert known.Some? <==> exists r :: Code(r) == LowFirst(payload[1], payload[2]) by {
        if known.Some? {
          assert Code(known.value) == LowFirst(payload[1], payload[2]);
        }
      }
      hide FromCode;
    }
    hide ValidText, Code;
  }

  /** The numbers on the wire, written out: opcode first, numbers low byte first, a string behind its length. */
  lemma WireForms(a: Byte, b: Byte, c: Byte, d: Byte, version: Byte, name: Text, reason: ErrorCode)
    ensures EncodePayload(OpenSession) == Success([0x02]) && EncodePayload(ReleaseAll) == Success([0x12])
    ensures EncodePayload(Done) == Success([0x80])
    ensures EncodePayload(KeyDown(LowFirst(a, b))) == Success([0x10, a, b])
    ensures EncodePayload(KeyUp(LowFirst(a, b))) == Success([0x11, a, b])
    ensures EncodePayload(KeyRepeat(LowFirst(a, b))) == Success([0x13, a, b])
    ensures EncodePayload(Ping(LowFirst(a, LowFirst(b, LowFirst(c, d))))) == Success([0x20, a, b, c, d])
    ensures EncodePayload(Pong(LowFirst(a, LowFirst(b, LowFirst(c, d))))) == Success([0x21, a, b, c, d])
    ensures |name| == LowFirst(a, b) <= 256 ==> EncodePayload(Hello(version, name)) == Success([0x01, version, a, b] + name)
    ensures |name| == LowFirst(a, b) <= 256 && Code(reason) == LowFirst(c, d) ==>
              EncodePayload(Codec.Error(reason, name)) == Success([0x81, c, d, a, b] + name)
  {
    LowFirstBytes(a, b);
    LowFirstBytes(c, d);
    NonceBytes(a, b, c, d);
    hide LE16, LE32, LowFirst, ValidText;
    OpcodeThen(a, b, c, d);
    assert [0x01, version] + ([a, b] + name) == [0x01, version, a, b] + name;
    assert [0x81] + [c, d] + ([a, b] + name) == [0x81, c, d, a, b] + name;
  }

  /** The numbers of the error reports. */
  lemma ErrorNumbers(n: Codec.U16)
    ensures FromCode(n) == match n
                           case 1 => Some(VersionMismatch)
                           case 2 => Some(Unauthorized)
                           case 3 => Some(DeviceError)
                           case 4 => Some(UnknownKey)
                           case 5 => Some(InvalidKeyState)
                           case 6 => Some(RateLimited)
                           case 7 => Some(MalformedFrame)
                           case 8 => Some(AlreadyCreated)
                           case 9 => Some(ShuttingDown)
                           case 10 => Some(Handshake)
                           case 255 => Some(Internal)
                           case _ => None
  {
  }

  lemma OpcodeThen(a: Byte, b: Byte, c: Byte, d: Byte)
    ensures forall op: Byte :: [op] + [a, b] == [op, a, b] && [op] + [a, b, c, d] == [op, a, b, c, d]
  {
  }
}
