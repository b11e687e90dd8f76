/** Bytes, Unicode scalar values and UTF-8 (section 3 and the table of section 4 of RFC 3629). */
module Utf8 {

  type Byte = b: int | 0 <= b < 256

  /** A Unicode scalar value: a code point that is no surrogate. */
  type Scalar = c: int | 0 <= c < 0x11_0000 && !(0xD800 <= c < 0xE000)

  const REPLACEMENT: Scalar := 0xFFFD

  /** Length announced by a lead byte; 0 for a byte that starts no sequence. */
  function LeadLength(b: Byte): nat {
    if b < 0x80 then 1
    else if 0xC2 <= b <= 0xDF then 2
    else if 0xE0 <= b <= 0xEF then 3
    else if 0xF0 <= b <= 0xF4 then 4
    else 0
  }

  predicate IsContinuation(b: Byte) { 0x80 <= b <= 0xBF }

  /** Exactly one encoded character: right length, continuations, neither overlong nor a surrogate nor too large. */
  predicate WellFormed(s: seq<Byte>) {
    && s != [] && LeadLength(s[0]) == |s|
    && (forall i :: 1 <= i < |s| ==> IsContinuation(s[i]))
    && (s[0] == 0xE0 ==> s[1] >= 0xA0)
    && (s[0] == 0xED ==> s[1] <= 0x9F)
    && (s[0] == 0xF0 ==> s[1] >= 0x90)
    && (s[0] == 0xF4 ==> s[1] <= 0x8F)
  }

  /** One more continuation byte shifts the value six bits. */
  function Shifted(high: int, b: Byte): int {
    high * 0x40 + (b as int - 0x80)
  }

  function DecodedValue(s: seq<Byte>): int
    requires WellFormed(s)
  {
    var lead: int := s[0];
    if |s| == 1 then lead
    else if |s| == 2 then Shifted(lead - 0xC0, s[1])
    else if |s| == 3 then Shifted(Shifted(lead - 0xE0, s[1]), s[2])
    else Shifted(Shifted(Shifted(lead - 0xF0, s[1]), s[2]), s[3])
  }

  function Decode(s: seq<Byte>): Scalar
    requires WellFormed(s)
  {
    DecodedValue(s)
  }

  function Encode(c: Scalar): seq<Byte> {
    var q1 := c / 0x40;
    var q2 := q1 / 0x40;
    var q3 := q2 / 0x40;
    if c < 0x80 then [c]
    else if c < 0x800 then [0xC0 + q1, 0x80 + c % 0x40]
    else if c < 0x1_0000 then [0xE0 + q2, 0x80 + q1 % 0x40, 0x80 + c % 0x40]
    else [0xF0 + q3, 0x80 + q2 % 0x40, 0x80 + q1 % 0x40, 0x80 + c % 0x40]
  }

  /** Every scalar value is encoded as one well-formed character that decodes to it. */
  lemma DecodeEncode(c: Scalar)
    ensures WellFormed(Encode(c)) && Decode(Encode(c)) == c
  {
  }

  lemma ShiftedParts(high: int, b: Byte)
    requires IsContinuation(b)
    ensures Shifted(high, b) / 0x40 == high && Shifted(high, b) % 0x40 == b - 0x80
  {
  }

  /** Every well-formed character is the encoding of what it decodes to. */
  lemma EncodeDecode(s: seq<Byte>)
    requires WellFormed(s)
    ensures Encode(Decode(s)) == s
  {
    var lead: int := s[0];
    if |s| == 2 {
      ShiftedParts(lead - 0xC0, s[1]);
    } else if |s| == 3 {
      ShiftedParts(lead - 0xE0, s[1]);
      ShiftedParts(Shifted(lead - 0xE0, s[1]), s[2]);
    } else if |s| == 4 {
      ShiftedParts(lead - 0xF0, s[1]);
      ShiftedParts(Shifted(lead - 0xF0, s[1]), s[2]);
      ShiftedParts(Shifted(Shifted(lead - 0xF0, s[1]), s[2]), s[3]);
    }
  }

  /** Byte strings in dictionary order. */
  predicate Less(s: seq<Byte>, t: seq<Byte>)
    decreases |s|
  {
    if s == [] || t == [] then t != []
    else if s[0] != t[0] then s[0] < t[0]
    else Less(s[1..], t[1..])
  }

  lemma LessAt(s: seq<Byte>, t: seq<Byte>, i: nat)
    requires i < |s| && i < |t| && s[..i] == t[..i] && s[i] < t[i]
    ensures Less(s, t)
    decreases i
  {
    if i > 0 {
      assert s[..i][0] == t[..i][0];
      assert s[1..][..i - 1] == s[..i][1..] && t[1..][..i - 1] == t[..i][1..];
      LessAt(s[1..], t[1..], i - 1);
    }
  }

  /** Encodings come in the order of the code points; with well-formed sequences and code points corresponding one to
      one, only one encoding does that. */
  lemma EncodeOrdered(c: Scalar, d: Scalar)
    requires c < d
    ensures Less(Encode(c), Encode(d))
  {
    var s, t := Encode(c), Encode(d);
    if |s| != |t| {
      assert s[0] < t[0];
      LessAt(s, t, 0);
    } else {
      var i := FirstLess(c, d);
      LessAt(s, t, i);
    }
  }

  /** Where two encodings of the same length first differ. */
  lemma FirstLess(c: Scalar, d: Scalar) returns (i: nat)
    requires c < d && |Encode(c)| == |Encode(d)|
    ensures i < |Encode(c)| && Encode(c)[..i] == Encode(d)[..i] && Encode(c)[i] < Encode(d)[i]
  {
    var s, t := Encode(c), Encode(d);
    i := if s[0] != t[0] then 0 else if s[1] != t[1] then 1 else if s[2] != t[2] then 2 else 3;
  }

  /** A whole text: characters one after the other. */
  predicate ValidText(s: seq<Byte>)
    decreases |s|
  {
    s == [] ||
    var n := LeadLength(s[0]);
    0 < n <= |s| && WellFormed(s[..n]) && ValidText(s[n..])
  }

  type Text = s: seq<Byte> | ValidText(s) witness []
}
