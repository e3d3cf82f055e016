/** Java's "modified UTF-8", the text format of java.io.DataOutput.writeUTF and
    java.io.DataInput.readUTF (section 4.4.7 of the Java Virtual Machine
    Specification). A Java string is a sequence of 16-bit code units; each unit
    becomes one, two or three bytes, and U+0000 takes the two-byte form, so an
    encoded string never holds a zero byte. writeUTF prefixes the encoding with
    its length as a 2-byte big-endian number and refuses encodings longer than
    65535 bytes. */
module ModifiedUtf8 {

  /** An unsigned octet as it reaches the underlying sink. */
  type byte = x: int | 0 <= x < 0x100

  /** A Java `char`: one UTF-16 code unit. */
  type char16 = x: int | 0 <= x < 0x1_0000

  /** The largest encoded length the 2-byte prefix of writeUTF can carry. */
  const MAX_UTF_LENGTH: nat := 0xFFFF

  datatype Option<T> = None | Some(value: T)

  /** Bytes that follow a lead byte have the bit pattern 10xxxxxx. */
  predicate IsContinuation(b: byte) {
    b / 0x40 == 2
  }

  /** The bytes one code unit takes. The prefix bits (0xC0, 0xE0, 0x80) are
      added rather than or-ed in; the two agree because the added value never
      reaches the prefix bits. */
  function EncodeUnit(c: char16): (b: seq<byte>)
    ensures 1 <= |b| <= 3
    ensures |b| == 1 <==> 1 <= c <= 0x7F
    ensures |b| == 3 <==> c > 0x7FF
    ensures forall i | 0 <= i < |b| :: b[i] != 0
    ensures forall i | 1 <= i < |b| :: IsContinuation(b[i])
  {
    if 1 <= c <= 0x7F then [c]
    else if c > 0x7FF then [0xE0 + c / 0x1000, 0x80 + c / 0x40 % 0x40, 0x80 + c % 0x40]
    else [0xC0 + c / 0x40, 0x80 + c % 0x40]
  }

  /** The modified UTF-8 body of a string (without the length prefix). */
  function EncodeUnits(s: seq<char16>): (r: seq<byte>)
    ensures |s| <= |r| <= 3 * |s|
    ensures forall i | 0 <= i < |r| :: r[i] != 0
  {
    if s == [] then [] else EncodeUnit(s[0]) + EncodeUnits(s[1..])
  }

  /** What writeUTF puts on the stream for `s`: the encoded length as two
      big-endian bytes, then the encoding; None where writeUTF throws
      UTFDataFormatException because the encoding is longer than 65535 bytes. */
  function UtfFrame(s: seq<char16>): (r: Option<seq<byte>>)
    ensures r.Some? <==> |EncodeUnits(s)| <= MAX_UTF_LENGTH
    ensures |s| <= MAX_UTF_LENGTH / 3 ==> r.Some?
    ensures |s| > MAX_UTF_LENGTH ==> r.None?
    ensures r.Some? ==> |r.value| >= 2 && r.value[2..] == EncodeUnits(s)
                        && r.value[0] as int * 0x100 + r.value[1] == |EncodeUnits(s)|
  {
    var body := EncodeUnits(s);
    if |body| > MAX_UTF_LENGTH then None
    else Some([|body| / 0x100, |body| % 0x100] + body)
  }

  /** The number of bytes `s` encodes to, counted the way writeUTF does before
      it writes anything: one pass over the code units. */
  method UtfLength(s: seq<char16>) returns (n: nat)
    ensures n == |EncodeUnits(s)|
  {
    n := 0;
    var i := 0;
    while i < |s|
      invariant 0 <= i <= |s|
      invariant n == |EncodeUnits(s[..i])|
    {
      var c := s[i];
      if 1 <= c <= 0x7F {
        n := n + 1;
      } else if c > 0x7FF {
        n := n + 3;
      } else {
        n := n + 2;
      }
      EncodeUnitsAppend(s[..i], c);
      assert s[..i + 1] == s[..i] + [c];
      i := i + 1;
    }
    assert s[..|s|] == s;
  }

  /** The encoding pass of writeUTF: each code unit's bytes in turn. */
  method EncodeBody(s: seq<char16>) returns (body: seq<byte>)
    ensures body == EncodeUnits(s)
  {
    body := [];
    var i := 0;
    while i < |s|
      invariant 0 <= i <= |s|
      invariant body == EncodeUnits(s[..i])
    {
      var c := s[i];
      if 1 <= c <= 0x7F {
        body := body + [c];
      } else if c > 0x7FF {
        body := body + [0xE0 + c / 0x1000, 0x80 + c / 0x40 % 0x40, 0x80 + c % 0x40];
      } else {
        body := body + [0xC0 + c / 0x40, 0x80 + c % 0x40];
      }
      EncodeUnitsAppend(s[..i], c);
      assert s[..i + 1] == s[..i] + [c];
      i := i + 1;
    }
    assert s[..|s|] == s;
  }

  /** Encoding is compositional: one more unit appends exactly its own bytes. */
  lemma {:induction false} EncodeUnitsAppend(s: seq<char16>, c: char16)
    ensures EncodeUnits(s + [c]) == EncodeUnits(s) + EncodeUnit(c)
  {
    if s != [] {
      assert (s + [c])[1..] == s[1..] + [c];
      EncodeUnitsAppend(s[1..], c);
    } else {
      assert EncodeUnits([c]) == EncodeUnit(c) + EncodeUnits([]);
    }
  }

  // ---------------------------------------------------------------------------
  // The reading side, as java.io.DataInputStream.readUTF decodes: one lead
  // byte decides how many bytes the unit takes; a lead byte 10xxxxxx or
  // 1111xxxx, a bad continuation byte or a unit cut off at the end is an error.

  function Prepend(c: char16, r: Option<seq<char16>>): (p: Option<seq<char16>>) {
    match r
    case None => None
    case Some(t) => Some([c] + t)
  }

  /** Decodes a whole modified UTF-8 body into code units. */
  function DecodeUnits(b: seq<byte>): (r: Option<seq<char16>>)
    decreases |b|
  {
    if b == [] then Some([])
    else if b[0] < 0x80 then
      Prepend(b[0], DecodeUnits(b[1..]))
    else if b[0] / 0x20 == 6 then
      if |b| < 2 || !IsContinuation(b[1]) then None
      else Prepend(b[0] as int % 0x20 * 0x40 + b[1] % 0x40, DecodeUnits(b[2..]))
    else if b[0] / 0x10 == 0xE then
      if |b| < 3 || !IsContinuation(b[1]) || !IsContinuation(b[2]) then None
      else Prepend(b[0] as int % 0x10 * 0x1000 + b[1] as int % 0x40 * 0x40 + b[2] % 0x40, DecodeUnits(b[3..]))
    else None
  }

  /** Reads one writeUTF frame off the front of `b`: the 2-byte length, then
      that many bytes of body; returns the string and what follows it. */
  function ReadUtf(b: seq<byte>): (r: Option<(seq<char16>, seq<byte>)>) {
    if |b| < 2 then None
    else
      var n := b[0] as int * 0x100 + b[1];
      if |b| - 2 < n then None
      else match DecodeUnits(b[2..2 + n])
        case None => None
        case Some(s) => Some((s, b[2 + n..]))
  }

  /** Decoding the bytes of one unit in front of any rest yields that unit in
      front of whatever the rest decodes to. */
  lemma DecodeEncodeUnit(c: char16, rest: seq<byte>)
    ensures DecodeUnits(EncodeUnit(c) + rest) == Prepend(c, DecodeUnits(rest))
  {
    var b := EncodeUnit(c) + rest;
    if 1 <= c <= 0x7F {
      assert b[1..] == rest;
    } else if c > 0x7FF {
      assert b[3..] == rest;
      assert b[0] as int % 0x10 * 0x1000 + b[1] as int % 0x40 * 0x40 + b[2] % 0x40 == c;
    } else {
      assert b[2..] == rest;
      assert b[0] as int % 0x20 * 0x40 + b[1] % 0x40 == c;
    }
  }

  /** readUTF's decoding inverts writeUTF's encoding. */
  lemma {:induction false} DecodeEncode(s: seq<char16>)
    ensures DecodeUnits(EncodeUnits(s)) == Some(s)
  {
    if s != [] {
      DecodeEncode(s[1..]);
      DecodeEncodeUnit(s[0], EncodeUnits(s[1..]));
      assert [s[0]] + s[1..] == s;
    }
  }

  /** Distinct strings never share an encoding. */
  lemma EncodeUnitsInjective(s: seq<char16>, t: seq<char16>)
    requires EncodeUnits(s) == EncodeUnits(t)
    ensures s == t
  {
    DecodeEncode(s);
    DecodeEncode(t);
  }

  /** A writeUTF frame read back by readUTF gives the string and leaves the
      bytes after the frame untouched. */
  lemma ReadUtfOfFrame(s: seq<char16>, rest: seq<byte>)
    requires UtfFrame(s).Some?
    ensures ReadUtf(UtfFrame(s).value + rest) == Some((s, rest))
  {
    var body := EncodeUnits(s);
    var b := UtfFrame(s).value + rest;
    assert b[2..2 + |body|] == body;
    assert b[2 + |body|..] == rest;
    DecodeEncode(s);
  }

  /** Code units 1..0x7F (ASCII without NUL, which covers Java class names
      of the java.lang package) encode to themselves. */
  lemma {:induction false} AsciiEncodesAsItself(s: seq<char16>)
    requires forall i | 0 <= i < |s| :: 1 <= s[i] <= 0x7F
    ensures EncodeUnits(s) == s
  {
    if s != [] {
      AsciiEncodesAsItself(s[1..]);
      assert [s[0]] + s[1..] == s;
    }
  }
}
