/** The wire protocol between keyboard and broker: length-prefixed binary frames, and the streaming
    decoder over a buffer. */
module Codec {
  import opened Options
  import opened Utf8

  datatype Result<+T> = Success(value: T) | Failure(error: CodecError)

  datatype CodecError = Malformed | TooLarge(len: nat) | StringTooLong(len: nat)

  type U16 = n: nat | n < 0x1_0000
  type U32 = n: nat | n < 0x1_0000_0000

  datatype ErrorCode =
    | VersionMismatch | Unauthorized | DeviceError | UnknownKey | InvalidKeyState | RateLimited
    | MalformedFrame | AlreadyCreated | ShuttingDown | Handshake | Internal

  datatype Message =
    | Hello(version: Byte, clientName: Text)
    | OpenSession
    | KeyDown(code: U16)
    | KeyUp(code: U16)
    | KeyRepeat(code: U16)
    | ReleaseAll
    | Ping(nonce: U32)
    | Pong(nonce: U32)
    | Done
    | Error(reason: ErrorCode, text: Text)

  /** "FK01" */
  const MAGIC: seq<Byte> := [0x46, 0x4B, 0x30, 0x31]
  const HEADER_LEN: nat := 6
  const MAX_FRAME_LEN: nat := 4096
  const MAX_STRING_LEN: nat := 256

  // ---- numbers and tables ----

  function LE16(n: U16): seq<Byte> { [n % 0x100, n / 0x100] }

  function FromLE16(a: Byte, b: Byte): U16 { a + 0x100 * b }

  function LE32(n: U32): (r: seq<Byte>)
    ensures |r| == 4
  {
    var q1: nat := n / 0x100;
    var q2: nat := q1 / 0x100;
    [n % 0x100, q1 % 0x100, q2 % 0x100, q2 / 0x100]
  }

  function FromLE32(a: Byte, b: Byte, c: Byte, d: Byte): U32 {
    WithLow(a, WithLow(b, WithLow(c, d)))
  }

  /** One more low byte. */
  function WithLow(low: Byte, high: nat): nat { low + 0x100 * high }

  function Code(e: ErrorCode): U16 {
    match e
    case VersionMismatch => 1
    case Unauthorized => 2
    case DeviceError => 3
    case UnknownKey => 4
    case InvalidKeyState => 5
    case RateLimited => 6
    case MalformedFrame => 7
    case AlreadyCreated => 8
    case ShuttingDown => 9
    case Handshake => 10
    case Internal => 255
  }

  function FromCode(n: U16): (r: Option<ErrorCode>)
    ensures forall e :: r == Some(e) <==> Code(e) == n
  {
    if n == 1 then Some(VersionMismatch)
    else if n == 2 then Some(Unauthorized)
    else if n == 3 then Some(DeviceError)
    else if n == 4 then Some(UnknownKey)
    else if n == 5 then Some(InvalidKeyState)
    else if n == 6 then Some(RateLimited)
    else if n == 7 then Some(MalformedFrame)
    else if n == 8 then Some(AlreadyCreated)
    else if n == 9 then Some(ShuttingDown)
    else if n == 10 then Some(Handshake)
    else if n == 255 then Some(Internal)
    else None
  }

  function Opcode(m: Message): Byte {
    match m
    case Hello(_, _) => 0x01
    case OpenSession => 0x02
    case KeyDown(_) => 0x10
    case KeyUp(_) => 0x11
    case ReleaseAll => 0x12
    case KeyRepeat(_) => 0x13
    case Ping(_) => 0x20
    case Pong(_) => 0x21
    case Done => 0x80
    case Error(_, _) => 0x81
  }

  // ---- encoding ----

  function EncodeText(s: Text): Result<seq<Byte>> {
    if |s| > MAX_STRING_LEN then Failure(StringTooLong(|s|)) else Success(LE16(|s|) + s)
  }

  function EncodePayload(m: Message): Result<seq<Byte>> {
    match m
    case Hello(version, name) =>
      (match EncodeText(name)
       case Success(bytes) => Success([Opcode(m), version] + bytes)
       case Failure(e) => Failure(e))
    case KeyDown(code) => Success([Opcode(m)] + LE16(code))
    case KeyUp(code) => Success([Opcode(m)] + LE16(code))
    case KeyRepeat(code) => Success([Opcode(m)] + LE16(code))
    case Ping(nonce) => Success([Opcode(m)] + LE32(nonce))
    case Pong(nonce) => Success([Opcode(m)] + LE32(nonce))
    case Error(reason, text) =>
      (match EncodeText(text)
       case Success(bytes) => Success([Opcode(m)] + LE16(Code(reason)) + bytes)
       case Failure(e) => Failure(e))
    case _ => Success([Opcode(m)])
  }

  /** A complete frame; the length field keeps 16 bits. */
  function EncodeFrame(m: Message): Result<seq<Byte>> {
    match EncodePayload(m)
    case Failure(e) => Failure(e)
    case Success(payload) => Success(MAGIC + LE16(|payload| % 0x1_0000) + payload)
  }

  // ---- decoding ----

  /** A string at `pos` and the position after it. */
  function TakeText(payload: seq<Byte>, pos: nat): (r: Result<(Text, nat)>)
    requires pos <= |payload|
    ensures r.Success? ==> r.value.1 <= |payload|
  {
    if |payload| - pos < 2 then Failure(Malformed)
    else
      var len := FromLE16(payload[pos], payload[pos + 1]);
      var start := pos + 2;
      if len > MAX_STRING_LEN then Failure(StringTooLong(len))
      else if start + len > |payload| then Failure(Malformed)
      else if !ValidText(payload[start..start + len]) then Failure(Malformed)
      else Success((payload[start..start + len], start + len))
  }

  function Bare(payload: seq<Byte>, m: Message): Result<Message> {
    if |payload| == 1 then Success(m) else Failure(Malformed)
  }

  function DecodePayload(payload: seq<Byte>): Result<Message> {
    if payload == [] then Failure(Malformed)
    else
      var op := payload[0];
      if op == 0x01 then DecodeHello(payload)
      else if op == 0x02 then Bare(payload, OpenSession)
      else if op == 0x10 || op == 0x11 || op == 0x13 then DecodeKey(payload)
      else if op == 0x12 then Bare(payload, ReleaseAll)
      else if op == 0x20 || op == 0x21 then DecodePing(payload)
      else if op == 0x80 then Bare(payload, Done)
      else if op == 0x81 then DecodeError(payload)
      else Failure(Malformed)
  }

  function DecodeHello(payload: seq<Byte>): Result<Message> {
    if |payload| < 2 then Failure(Malformed)
    else
      match TakeText(payload, 2)
      case Failure(e) => Failure(e)
      case Success((name, pos)) => if pos != |payload| then Failure(Malformed) else Success(Hello(payload[1], name))
  }

  function DecodeKey(payload: seq<Byte>): Result<Message> {
    if |payload| != 3 then Failure(Malformed)
    else
      var code := FromLE16(payload[1], payload[2]);
      Success(if payload[0] == 0x10 then KeyDown(code) else if payload[0] == 0x11 then KeyUp(code) else KeyRepeat(code))
  }

  function DecodePing(payload: seq<Byte>): Result<Message> {
    if |payload| != 5 then Failure(Malformed)
    else
      var nonce := FromLE32(payload[1], payload[2], payload[3], payload[4]);
      Success(if payload[0] == 0x20 then Ping(nonce) else Pong(nonce))
  }

  function DecodeError(payload: seq<Byte>): Result<Message> {
    if |payload| < 3 then Failure(Malformed)
    else
      match FromCode(FromLE16(payload[1], payload[2]))
      case None => Failure(Malformed)
      case Some(reason) =>
        match TakeText(payload, 3)
        case Failure(e) => Failure(e)
        case Success((text, pos)) => if pos != |payload| then Failure(Malformed) else Success(Error(reason, text))
  }

  // ---- the payload code is two-way inverse ----

  /** Numbers in little-endian order come back from their bytes, and the bytes from the number. */
  lemma LE16Inverse(n: U16, a: Byte, b: Byte)
    ensures FromLE16(LE16(n)[0], LE16(n)[1]) == n
    ensures LE16(FromLE16(a, b)) == [a, b]
  {
  }

  lemma LE32Inverse(n: U32, a: Byte, b: Byte, c: Byte, d: Byte)
    ensures |LE32(n)| == 4 && FromLE32(LE32(n)[0], LE32(n)[1], LE32(n)[2], LE32(n)[3]) == n
    ensures LE32(FromLE32(a, b, c, d)) == [a, b, c, d]
  {
    LowInverse(c, d);
    LowInverse(b, WithLow(c, d));
    LowInverse(a, WithLow(b, WithLow(c, d)));
  }

  lemma LowInverse(low: Byte, high: nat)
    ensures WithLow(low, high) % 0x100 == low && WithLow(low, high) / 0x100 == high
  {
  }

  /** Taking a text off the front of what encoding it appended. */
  lemma TakeEncoded(prefix: seq<Byte>, s: Text)
    requires |s| <= MAX_STRING_LEN
    ensures TakeText(prefix + (LE16(|s|) + s), |prefix|) == Success((s, |prefix| + 2 + |s|))
  {
    var payload := prefix + (LE16(|s|) + s);
    LE16Inverse(|s|, 0, 0);
    assert payload[|prefix|] == LE16(|s|)[0] && payload[|prefix| + 1] == LE16(|s|)[1];
    assert payload[|prefix| + 2..|prefix| + 2 + |s|] == s;
  }

  /** What was taken is what encoding it gives back. */
  lemma EncodeTaken(payload: seq<Byte>, pos: nat)
    requires pos <= |payload| && TakeText(payload, pos).Success?
    ensures var (s, end) := TakeText(payload, pos).value;
            EncodeText(s) == Success(payload[pos..end]) && pos + 2 + |s| == end
  {
    var (s, end) := TakeText(payload, pos).value;
    LE16Inverse(0, payload[pos], payload[pos + 1]);
    assert payload[pos..end] == [payload[pos], payload[pos + 1]] + s;
  }

  function TextOf(m: Message): Text {
    match m
    case Hello(_, name) => name
    case Error(_, text) => text
    case _ => []
  }

  /** A message can be encoded exactly when its string is short enough, and then decodes to itself. */
  lemma RoundTrip(m: Message)
    ensures EncodePayload(m).Success? <==> |TextOf(m)| <= MAX_STRING_LEN
    ensures EncodePayload(m).Failure? ==> EncodePayload(m).error == StringTooLong(|TextOf(m)|)
    ensures EncodePayload(m).Success? ==> DecodePayload(EncodePayload(m).value) == Success(m)
    ensures EncodePayload(m).Success? ==> |EncodePayload(m).value| <= MAX_STRING_LEN + 5
  {
    match m
    case Hello(version, name) =>
      if |name| <= MAX_STRING_LEN { TakeEncoded([0x01, version], name); }
    case Error(reason, text) =>
      if |text| <= MAX_STRING_LEN {
        TakeEncoded([0x81] + LE16(Code(reason)), text);
        LE16Inverse(Code(reason), 0, 0);
      }
    case KeyDown(code) => LE16Inverse(code, 0, 0);
    case KeyUp(code) => LE16Inverse(code, 0, 0);
    case KeyRepeat(code) => LE16Inverse(code, 0, 0);
    case Ping(nonce) => LE32Inverse(nonce, 0, 0, 0, 0);
    case Pong(nonce) => LE32Inverse(nonce, 0, 0, 0, 0);
    case _ =>
  }

  /** Wire forms are canonical: a payload that decodes is the only encoding of its message. */
  lemma Canonical(payload: seq<Byte>)
    requires DecodePayload(payload).Success?
    ensures EncodePayload(DecodePayload(payload).value) == Success(payload)
  {
    var op := payload[0];
    if op == 0x01 {
      CanonicalHello(payload);
    } else if op == 0x81 {
      CanonicalError(payload);
    } else if op == 0x20 || op == 0x21 {
      CanonicalPing(payload);
    } else if op == 0x10 || op == 0x11 || op == 0x13 {
      CanonicalKey(payload);
    } else {
      assert payload == [op];
    }
    hide DecodeHello, DecodeError, DecodePing, DecodeKey, EncodePayload;
  }

  lemma CanonicalPing(payload: seq<Byte>)
    requires payload != [] && (payload[0] == 0x20 || payload[0] == 0x21) && DecodePing(payload).Success?
    ensures EncodePayload(DecodePing(payload).value) == Success(payload)
  {
    var m := DecodePing(payload).value;
    var nonce := FromLE32(payload[1], payload[2], payload[3], payload[4]);
    assert m == if payload[0] == 0x20 then Ping(nonce) else Pong(nonce);
    assert EncodePayload(m) == Success([payload[0]] + LE32(nonce));
    LE32Inverse(0, payload[1], payload[2], payload[3], payload[4]);
    assert |payload| == 5;
    hide *;
    FiveBytes(payload);
  }

  lemma CanonicalKey(payload: seq<Byte>)
    requires payload != [] && (payload[0] == 0x10 || payload[0] == 0x11 || payload[0] == 0x13) && DecodeKey(payload).Success?
    ensures EncodePayload(DecodeKey(payload).value) == Success(payload)
  {
    var m := DecodeKey(payload).value;
    var code := FromLE16(payload[1], payload[2]);
    assert EncodePayload(m) == Success([payload[0]] + LE16(code));
    LE16Inverse(0, payload[1], payload[2]);
    assert |payload| == 3;
    hide *;
    ThreeBytes(payload);
  }

  lemma ThreeBytes(s: seq<Byte>)
    requires |s| == 3
    ensures s == [s[0]] + [s[1], s[2]]
  {
  }

  lemma FiveBytes(s: seq<Byte>)
    requires |s| == 5
    ensures s == [s[0]] + [s[1], s[2], s[3], s[4]]
  {
  }

  lemma CanonicalHello(payload: seq<Byte>)
    requires payload != [] && payload[0] == 0x01 && DecodeHello(payload).Success?
    ensures EncodePayload(DecodeHello(payload).value) == Success(payload)
  {
    EncodeTaken(payload, 2);
    var (name, end) := TakeText(payload, 2).value;
    assert end == |payload| && TextOf(DecodeHello(payload).value) == name;
    assert EncodePayload(DecodeHello(payload).value) == Success([0x01, payload[1]] + payload[2..end]);
    hide *;
    TwoThenRest(payload);
  }

  lemma TwoThenRest(s: seq<Byte>)
    requires |s| >= 2
    ensures [s[0], s[1]] + s[2..|s|] == s
  {
  }

  lemma CanonicalError(payload: seq<Byte>)
    requires payload != [] && payload[0] == 0x81 && DecodeError(payload).Success?
    ensures EncodePayload(DecodeError(payload).value) == Success(payload)
  {
    EncodeTaken(payload, 3);
    LE16Inverse(0, payload[1], payload[2]);
    var (text, end) := TakeText(payload, 3).value;
    hide TakeText, EncodeText, LE16, FromLE16;
    assert payload[3..end] == payload[3..];
    assert [0x81] + [payload[1], payload[2]] + payload[3..] == payload;
  }

  // ---- framing ----

  /** The payload length of the frame at the front, if it is all there. */
  function FrameLength(buf: seq<Byte>): (r: Result<Option<nat>>)
    ensures r.Success? && r.value.Some? ==> HEADER_LEN + r.value.value <= |buf| && r.value.value <= MAX_FRAME_LEN
    ensures r == Success(None) ==> |buf| < HEADER_LEN + MAX_FRAME_LEN
  {
    if |buf| < HEADER_LEN then Success(None)
    else if buf[..4] != MAGIC then Failure(Malformed)
    else
      var len := FromLE16(buf[4], buf[5]);
      if len > MAX_FRAME_LEN then Failure(TooLarge(len))
      else if |buf| < HEADER_LEN + len then Success(None)
      else Success(Some(len))
  }

  /** A byte stream read in one go: all its messages and an unfinished rest, or the messages before
      the first fault. */
  datatype Parsed = Clean(messages: seq<Message>, rest: seq<Byte>) | Faulty(messages: seq<Message>, error: CodecError)

  function Before(ms: seq<Message>, p: Parsed): Parsed {
    p.(messages := ms + p.messages)
  }

  function Parse(s: seq<Byte>): Parsed
    decreases |s|
  {
    match FrameLength(s)
    case Failure(e) => Faulty([], e)
    case Success(None) => Clean([], s)
    case Success(Some(n)) =>
      match DecodePayload(s[HEADER_LEN..HEADER_LEN + n])
      case Failure(e) => Faulty([], e)
      case Success(m) => Before([m], Parse(s[HEADER_LEN + n..]))
  }

  /** More bytes at the end never change how a complete or faulty frame at the front is read. */
  lemma FrameLengthStable(a: seq<Byte>, b: seq<Byte>)
    requires FrameLength(a) != Success(None)
    ensures FrameLength(a + b) == FrameLength(a)
  {
    assert (a + b)[..4] == a[..4];
  }

  /** Reading on, with more bytes behind what is left. */
  function Continued(p: Parsed, b: seq<Byte>): Parsed {
    match p
    case Clean(ms, rest) => Before(ms, Parse(rest + b))
    case Faulty(ms, e) => Faulty(ms, e)
  }

  /** Reading a stream in two parts is reading it at once. */
  lemma {:induction false} ParseAppend(a: seq<Byte>, b: seq<Byte>)
    ensures Parse(a + b) == Continued(Parse(a), b)
    decreases |a|
  {
    match FrameLength(a)
    case Success(None) =>
      var p := Parse(a + b);
      assert [] + p.messages == p.messages;
    case Failure(_) =>
      FrameLengthStable(a, b);
      hide FrameLength, DecodePayload;
    case Success(Some(n)) =>
      FrameLengthStable(a, b);
      var end := HEADER_LEN + n;
      assert (a + b)[HEADER_LEN..end] == a[HEADER_LEN..end] && (a + b)[end..] == a[end..] + b;
      ParseAppend(a[end..], b);
      hide DecodePayload, FrameLength;
      var d := DecodePayload(a[HEADER_LEN..end]);
      if d.Success? {
        assert Parse(a) == Before([d.value], Parse(a[end..])) && Parse(a + b) == Before([d.value], Parse(a[end..] + b));
        BeforeContinued([d.value], Parse(a[end..]), b);
      }
  }

  /** Frames in front change nothing about how the rest is read on. */
  lemma BeforeContinued(ms: seq<Message>, p: Parsed, b: seq<Byte>)
    ensures Before(ms, Continued(p, b)) == Continued(Before(ms, p), b)
  {
    if p.Clean? {
      var later := Parse(p.rest + b);
      assert ms + (p.messages + later.messages) == ms + p.messages + later.messages;
    }
    hide Parse;
  }

  /** What is left over holds no complete frame, so it is shorter than the largest one. */
  lemma {:induction false} RestIsPartial(s: seq<Byte>)
    requires Parse(s).Clean?
    ensures FrameLength(Parse(s).rest) == Success(None) && |Parse(s).rest| < HEADER_LEN + MAX_FRAME_LEN
    decreases |s|
  {
    var f := FrameLength(s);
    if f.value.Some? {
      RestIsPartial(s[HEADER_LEN + f.value.value..]);
    }
  }

  // ---- the streaming decoder over many pushes ----

  /** The decoder's answer to one push, and the bytes it keeps; a fault drops them all. */
  function Reply(buf: seq<Byte>, bytes: seq<Byte>): (Result<seq<Message>>, seq<Byte>) {
    match Parse(buf + bytes)
    case Clean(ms, rest) => (Success(ms), rest)
    case Faulty(_, e) => (Failure(e), [])
  }

  /** The answers to a sequence of pushes, faults and what follows them included. */
  function Replies(buf: seq<Byte>, chunks: seq<seq<Byte>>): (r: (seq<Result<seq<Message>>>, seq<Byte>))
    ensures |r.0| == |chunks|
    decreases |chunks|
  {
    if chunks == [] then ([], buf)
    else
      var (before, kept) := Replies(buf, chunks[..|chunks| - 1]);
      var (reply, rest) := Reply(kept, chunks[|chunks| - 1]);
      (before + [reply], rest)
  }

  /** A connection as its users keep it, dropped at the first fault. `messages` is what was delivered. */
  datatype Connection = Alive(messages: seq<Message>, buf: seq<Byte>) | Dead(messages: seq<Message>, error: CodecError)

  /** One push: all its messages are delivered, or none when a fault is met. */
  function Push(c: Connection, bytes: seq<Byte>): Connection {
    if c.Dead? then c
    else
      var (reply, rest) := Reply(c.buf, bytes);
      match reply
      case Success(ms) => Alive(c.messages + ms, rest)
      case Failure(e) => Dead(c.messages, e)
  }

  function PushAll(chunks: seq<seq<Byte>>): Connection
    decreases |chunks|
  {
    if chunks == [] then Alive([], []) else Push(PushAll(chunks[..|chunks| - 1]), chunks[|chunks| - 1])
  }

  function Joined(chunks: seq<seq<Byte>>): seq<Byte>
    decreases |chunks|
  {
    if chunks == [] then [] else Joined(chunks[..|chunks| - 1]) + chunks[|chunks| - 1]
  }

  /** Chunking independence: however a stream is cut, the connection stays alive exactly when the
      whole stream is free of faults; then messages and buffer are those of the whole stream, and
      otherwise it dies of the same fault having delivered a prefix of the messages before it. */
  lemma {:induction false} ChunkingIndependent(chunks: seq<seq<Byte>>)
    ensures match Parse(Joined(chunks))
            case Clean(ms, rest) => PushAll(chunks) == Alive(ms, rest)
            case Faulty(ms, e) => PushAll(chunks).Dead? && PushAll(chunks).error == e && PushAll(chunks).messages <= ms
    decreases |chunks|
  {
    if chunks != [] {
      var init, last := chunks[..|chunks| - 1], chunks[|chunks| - 1];
      ChunkingIndependent(init);
      ParseAppend(Joined(init), last);
    }
  }

  /** The messages of the answers up to the first fault. */
  function Delivered(replies: seq<Result<seq<Message>>>): seq<Message> {
    if replies == [] || replies[0].Failure? then [] else replies[0].value + Delivered(replies[1..])
  }

  predicate AllClean(replies: seq<Result<seq<Message>>>) {
    forall i :: 0 <= i < |replies| ==> replies[i].Success?
  }

  lemma {:induction false} DeliveredSnoc(replies: seq<Result<seq<Message>>>, last: Result<seq<Message>>)
    ensures Delivered(replies + [last])
         == Delivered(replies) + (if AllClean(replies) && last.Success? then last.value else [])
  {
    if replies == [] {
      assert [] + [last] == [last];
      assert Delivered([last]) == if last.Success? then last.value + Delivered([]) else [];
    } else {
      var rest := replies[1..];
      assert (replies + [last])[1..] == rest + [last] && (replies + [last])[0] == replies[0];
      DeliveredSnoc(rest, last);
      assert AllClean(replies) <==> replies[0].Success? && AllClean(rest) by {
        assert forall i :: 0 <= i < |rest| ==> rest[i] == replies[i + 1];
      }
    }
  }

  /** A decoder's answers make the connection: alive while none is a fault, else dead of the first. */
  lemma {:induction false} RepliesMakeConnection(chunks: seq<seq<Byte>>)
    ensures var (replies, buf) := Replies([], chunks);
            && PushAll(chunks).messages == Delivered(replies)
            && (PushAll(chunks).Alive? <==> AllClean(replies))
            && (PushAll(chunks).Alive? ==> PushAll(chunks).buf == buf)
    decreases |chunks|
  {
    if chunks != [] {
      var init, last := chunks[..|chunks| - 1], chunks[|chunks| - 1];
      RepliesMakeConnection(init);
      var (before, kept) := Replies([], init);
      hide Reply;
      DeliveredSnoc(before, Reply(kept, last).0);
      AllCleanSnoc(before, Reply(kept, last).0);
    }
  }

  lemma AllCleanSnoc(replies: seq<Result<seq<Message>>>, last: Result<seq<Message>>)
    ensures AllClean(replies + [last]) <==> AllClean(replies) && last.Success?
  {
    if AllClean(replies + [last]) {
      forall i | 0 <= i < |replies| ensures replies[i].Success? {
        assert (replies + [last])[i] == replies[i];
      }
      assert (replies + [last])[|replies|] == last;
    }
  }

  /** After a fault the decoder starts over: what follows is answered as by a new one. */
  lemma {:induction false} FaultStartsOver(chunks: seq<seq<Byte>>, bad: seq<Byte>, later: seq<seq<Byte>>)
    requires Reply(Replies([], chunks).1, bad).0.Failure?
    ensures Replies([], chunks + [bad] + later).0 == Replies([], chunks + [bad]).0 + Replies([], later).0
    ensures Replies([], chunks + [bad] + later).1 == Replies([], later).1
    decreases |later|
  {
    var all := chunks + [bad] + later;
    hide Parse;
    if later == [] {
      assert all == chunks + [bad];
      assert (chunks + [bad])[..|chunks|] == chunks;
    } else {
      var init := later[..|later| - 1];
      assert all[..|all| - 1] == chunks + [bad] + init && all[|all| - 1] == later[|later| - 1];
      FaultStartsOver(chunks, bad, init);
      hide Reply;
    }
  }

  /** However fed, the decoder never holds a whole frame, let alone more than the largest. */
  lemma BufferBounded(chunks: seq<seq<Byte>>)
    requires PushAll(chunks).Alive?
    ensures |PushAll(chunks).buf| < HEADER_LEN + MAX_FRAME_LEN
  {
    ChunkingIndependent(chunks);
    RestIsPartial(Joined(chunks));
  }

  // ---- encoder to decoder, end to end ----

  predicate Encodable(m: Message) { |TextOf(m)| <= MAX_STRING_LEN }

  function FrameOf(m: Message): seq<Byte> {
    match EncodeFrame(m)
    case Success(frame) => frame
    case Failure(_) => []
  }

  function EncodeAll(ms: seq<Message>): seq<Byte> {
    if ms == [] then [] else FrameOf(ms[0]) + EncodeAll(ms[1..])
  }

  lemma FrameHeader(payload: seq<Byte>, rest: seq<Byte>)
    requires |payload| <= MAX_FRAME_LEN
    ensures var s := MAGIC + LE16(|payload|) + payload + rest;
            && FrameLength(s) == Success(Some(|payload|))
            && s[HEADER_LEN..HEADER_LEN + |payload|] == payload && s[HEADER_LEN + |payload|..] == rest
  {
    var n := |payload|;
    var s := MAGIC + LE16(n) + payload + rest;
    LE16Inverse(n, 0, 0);
    assert s[..4] == MAGIC;
    assert s[4] == LE16(n)[0] && s[5] == LE16(n)[1];
  }

  lemma ParseFirst(s: seq<Byte>, n: nat, m: Message)
    requires FrameLength(s) == Success(Some(n)) && DecodePayload(s[HEADER_LEN..HEADER_LEN + n]) == Success(m)
    ensures Parse(s) == Before([m], Parse(s[HEADER_LEN + n..]))
  {
    hide FrameLength, DecodePayload;
  }

  /** The first frame of a stream is the one that was encoded there, and it is small. */
  lemma FrameReads(m: Message, rest: seq<Byte>)
    requires Encodable(m)
    ensures EncodeFrame(m).Success? && |EncodeFrame(m).value| <= HEADER_LEN + MAX_STRING_LEN + 5
    ensures Parse(EncodeFrame(m).value + rest) == Before([m], Parse(rest))
  {
    hide ValidText, WellFormed, LE16, FrameLength, DecodePayload, EncodePayload;
    RoundTrip(m);
    var payload := EncodePayload(m).value;
    FrameHeader(payload, rest);
    ParseFirst(MAGIC + LE16(|payload|) + payload + rest, |payload|, m);
  }

  lemma {:induction false} EncodedParses(ms: seq<Message>)
    requires forall m :: m in ms ==> Encodable(m)
    ensures Parse(EncodeAll(ms)) == Clean(ms, [])
  {
    if ms != [] {
      FrameReads(ms[0], EncodeAll(ms[1..]));
      EncodedParses(ms[1..]);
      hide EncodeFrame;
      assert [ms[0]] + ms[1..] == ms;
    }
  }

  /** Any messages with short enough strings, encoded one after the other and delivered in any
      pieces, arrive exactly and leave nothing behind. */
  lemma StreamRoundTrip(ms: seq<Message>, chunks: seq<seq<Byte>>)
    requires (forall m :: m in ms ==> Encodable(m)) && Joined(chunks) == EncodeAll(ms)
    ensures PushAll(chunks) == Alive(ms, [])
  {
    EncodedParses(ms);
    ChunkingIndependent(chunks);
  }

  lemma DrainStep(s: seq<Byte>, n: nat, m: Message, done: seq<Message>)
    requires FrameLength(s) == Success(Some(n)) && DecodePayload(s[HEADER_LEN..HEADER_LEN + n]) == Success(m)
    ensures Before(done, Parse(s)) == Before(done + [m], Parse(s[HEADER_LEN + n..]))
  {
    ParseFirst(s, n, m);
    var later := Parse(s[HEADER_LEN + n..]).messages;
    assert done + ([m] + later) == done + [m] + later;
  }

  /** The decoder as it runs. */
  class Decoder {
    var buf: seq<Byte>

    constructor ()
      ensures buf == []
    {
      buf := [];
    }

    /** Feed more bytes: all complete messages, or a fatal error that drops what is buffered. */
    method Feed(bytes: seq<Byte>) returns (r: Result<seq<Message>>)
      modifies this
      ensures (r, buf) == Reply(old(buf), bytes)
      ensures |buf| < HEADER_LEN + MAX_FRAME_LEN
    {
      buf := buf + bytes;
      r := Drain();
      if r.Failure? {
        buf := [];
      }
    }

    /** Feed one chunk after the other. */
    method FeedAll(chunks: seq<seq<Byte>>) returns (replies: seq<Result<seq<Message>>>)
      modifies this
      ensures (replies, buf) == Replies(old(buf), chunks)
    {
      hide Reply;
      replies := [];
      for i := 0 to |chunks|
        invariant (replies, buf) == Replies(old(buf), chunks[..i])
      {
        assert chunks[..i + 1][..i] == chunks[..i];
        var r := Feed(chunks[i]);
        replies := replies + [r];
      }
      assert chunks[..|chunks|] == chunks;
    }

    method Drain() returns (r: Result<seq<Message>>)
      modifies this
      ensures match Parse(old(buf))
              case Clean(ms, rest) => r == Success(ms) && buf == rest
              case Faulty(_, e) => r == Failure(e)
      ensures r.Success? ==> |buf| < HEADER_LEN + MAX_FRAME_LEN
    {
      hide DecodePayload, FrameLength;
      ghost var goal := Parse(buf);
      var messages := [];
      assert [] + goal.messages == goal.messages;
      var next := FrameLength(buf);
      while next.Success? && next.value.Some?
        invariant next == FrameLength(buf)
        invariant goal == Before(messages, Parse(buf))
        decreases |buf|
      {
        var end := HEADER_LEN + next.value.value;
        var payload := buf[HEADER_LEN..end];
        ghost var whole := buf;
        buf := buf[end..];
        var m := DecodePayload(payload);
        if m.Failure? {
          return Failure(m.error);
        }
        DrainStep(whole, next.value.value, m.value, messages);
        messages := messages + [m.value];
        next := FrameLength(buf);
      }
      assert messages + [] == messages;
      var full := |buf| > HEADER_LEN + MAX_FRAME_LEN;
      r := if next.Failure? then Failure(next.error) else if full then Failure(Malformed) else Success(messages);
    }

    method Buffered() returns (n: nat)
      ensures n == |buf|
    {
      n := |buf|;
    }
  }
}
