/** The compact class-descriptor encoding of ThrowableObjectOutputStream.

    The stream is a Java ObjectOutputStream that writes a one-byte stream
    header instead of the usual magic number and version, and replaces each
    class descriptor by a one-byte tag chosen in a fixed priority order:
      - a class named java.lang.Exception: tag 2 and nothing else;
      - a class named java.lang.StackTraceElement: tag 3 and nothing else;
      - a primitive or array class: tag 0, then the generic descriptor;
      - any other class: tag 1, then its name as writeUTF writes it.
    The generic descriptor that ObjectOutputStream would write is taken as an
    uninterpreted byte sequence. */
module ThrowableObjectStream {
  import opened ModifiedUtf8

  const TYPE_FAT_DESCRIPTOR: byte := 0
  const TYPE_THIN_DESCRIPTOR: byte := 1
  const TYPE_EXCEPTION: byte := 2
  const TYPE_STACKTRACEELEMENT: byte := 3

  /** java.io.ObjectStreamConstants.STREAM_VERSION, a Java `short`. */
  const STREAM_VERSION: int := 5

  /** A Java string literal as its UTF-16 code units. */
  function JavaString(s: string): (r: seq<char16>)
    requires forall i | 0 <= i < |s| :: s[i] as int < 0x1_0000
    ensures |r| == |s| && forall i | 0 <= i < |s| :: r[i] == s[i] as int
  {
    seq(|s|, i requires 0 <= i < |s| => s[i] as int)
  }

  /** Exception.class.getName() */
  const EXCEPTION_CLASSNAME: seq<char16> := JavaString("java.lang.Exception")
  /** StackTraceElement.class.getName() */
  const STACKTRACEELEMENT_CLASSNAME: seq<char16> := JavaString("java.lang.StackTraceElement")

  /** What the descriptor hook looks at in an ObjectStreamClass: the class
      name, and whether the described class is primitive or an array class. */
  datatype ClassDesc = ClassDesc(name: seq<char16>, isPrimitive: bool, isArray: bool)

  /** java.io.OutputStream.write(int) and DataOutput.writeByte(int) both emit
      the low eight bits of their argument. */
  function LowByte(v: int): (b: byte)
    ensures 0 <= v < 0x100 ==> b == v
    ensures (v - b) % 0x100 == 0
  {
    v % 0x100
  }

  /** The tag the descriptor hook writes first; the name checks come before
      the primitive/array check. */
  function TagOf(d: ClassDesc): (tag: byte) {
    if d.name == EXCEPTION_CLASSNAME then TYPE_EXCEPTION
    else if d.name == STACKTRACEELEMENT_CLASSNAME then TYPE_STACKTRACEELEMENT
    else if d.isPrimitive || d.isArray then TYPE_FAT_DESCRIPTOR
    else TYPE_THIN_DESCRIPTOR
  }

  /** The effect of one descriptor write on the stream: either it completed
      having appended `bytes`, or writeUTF threw UTFDataFormatException after
      `bytes` (the tag) had already been appended. */
  datatype DescriptorWrite = Completed(bytes: seq<byte>) | Threw(bytes: seq<byte>)

  /** The bytes writeClassDescriptor appends for `d`, where `fat` is what
      ObjectOutputStream's own writeClassDescriptor would append for it. */
  function DescriptorBytes(d: ClassDesc, fat: seq<byte>): (w: DescriptorWrite) {
    var tag := TagOf(d);
    if tag == TYPE_FAT_DESCRIPTOR then Completed([tag] + fat)
    else if tag == TYPE_THIN_DESCRIPTOR then
      match UtfFrame(d.name)
      case Some(frame) => Completed([tag] + frame)
      case None => Threw([tag])
    else Completed([tag])
  }

  // ---------------------------------------------------------------------------
  // Properties of the tag choice and of the bytes it leads.

  /** Every descriptor write starts with exactly one tag byte, one of the four
      tag values, and the four tag values are pairwise distinct. */
  lemma LeadingTag(d: ClassDesc, fat: seq<byte>)
    ensures DescriptorBytes(d, fat).bytes != []
    ensures DescriptorBytes(d, fat).bytes[0] == TagOf(d)
    ensures TagOf(d) in {TYPE_FAT_DESCRIPTOR, TYPE_THIN_DESCRIPTOR, TYPE_EXCEPTION, TYPE_STACKTRACEELEMENT}
    ensures |{TYPE_FAT_DESCRIPTOR, TYPE_THIN_DESCRIPTOR, TYPE_EXCEPTION, TYPE_STACKTRACEELEMENT}| == 4
  {
  }

  /** The two shorthand names win whatever the primitive/array flags and the
      generic descriptor are, and are written as the tag alone. */
  lemma Shorthands(d: ClassDesc, fat: seq<byte>)
    ensures d.name == EXCEPTION_CLASSNAME ==> DescriptorBytes(d, fat) == Completed([TYPE_EXCEPTION])
    ensures d.name == STACKTRACEELEMENT_CLASSNAME ==> DescriptorBytes(d, fat) == Completed([TYPE_STACKTRACEELEMENT])
  {
  }

  /** A primitive or array class under any other name gets tag 0 followed by
      the generic descriptor unchanged, and never tag 1. */
  lemma FatDescriptor(d: ClassDesc, fat: seq<byte>)
    requires d.name != EXCEPTION_CLASSNAME && d.name != STACKTRACEELEMENT_CLASSNAME
    requires d.isPrimitive || d.isArray
    ensures DescriptorBytes(d, fat) == Completed([TYPE_FAT_DESCRIPTOR] + fat)
    ensures TagOf(d) != TYPE_THIN_DESCRIPTOR
  {
  }

  /** Any other class gets tag 1, the 2-byte big-endian encoded length L and
      the L bytes of its modified UTF-8 name and nothing else; when L exceeds
      65535 the write throws with the tag already on the stream. */
  lemma ThinDescriptor(d: ClassDesc, fat: seq<byte>)
    requires d.name != EXCEPTION_CLASSNAME && d.name != STACKTRACEELEMENT_CLASSNAME
    requires !d.isPrimitive && !d.isArray
    ensures var n := |EncodeUnits(d.name)|;
      if n <= MAX_UTF_LENGTH
      then DescriptorBytes(d, fat) == Completed([TYPE_THIN_DESCRIPTOR, n / 0x100, n % 0x100] + EncodeUnits(d.name))
      else DescriptorBytes(d, fat) == Threw([TYPE_THIN_DESCRIPTOR])
  {
    var n := |EncodeUnits(d.name)|;
    if n <= MAX_UTF_LENGTH {
      assert [TYPE_THIN_DESCRIPTOR] + ([n / 0x100, n % 0x100] + EncodeUnits(d.name))
          == [TYPE_THIN_DESCRIPTOR, n / 0x100, n % 0x100] + EncodeUnits(d.name);
    }
  }

  /** For a class with a plain ASCII name the thin descriptor is the tag, the
      name's length in two bytes, and the name's characters as bytes. */
  lemma AsciiThinDescriptor(d: ClassDesc, fat: seq<byte>)
    requires d.name != EXCEPTION_CLASSNAME && d.name != STACKTRACEELEMENT_CLASSNAME
    requires !d.isPrimitive && !d.isArray
    requires forall i | 0 <= i < |d.name| :: 1 <= d.name[i] <= 0x7F
    requires |d.name| <= MAX_UTF_LENGTH
    ensures DescriptorBytes(d, fat)
         == Completed([TYPE_THIN_DESCRIPTOR, |d.name| / 0x100, |d.name| % 0x100] + d.name)
  {
    AsciiEncodesAsItself(d.name);
    ThinDescriptor(d, fat);
  }

  /** The two shorthand names are distinct, so the order of the two name
      checks never matters; both are plain ASCII of 19 and 27 code units. */
  lemma ShorthandNames()
    ensures EXCEPTION_CLASSNAME != STACKTRACEELEMENT_CLASSNAME
    ensures |EXCEPTION_CLASSNAME| == 19 && |STACKTRACEELEMENT_CLASSNAME| == 27
    ensures forall i | 0 <= i < |EXCEPTION_CLASSNAME| :: 1 <= EXCEPTION_CLASSNAME[i] <= 0x7F
    ensures forall i | 0 <= i < |STACKTRACEELEMENT_CLASSNAME| :: 1 <= STACKTRACEELEMENT_CLASSNAME[i] <= 0x7F
  {
  }

  /** Names are compared exactly: a subclass of Exception and
      java.lang.Throwable are not shorthand classes. */
  lemma OnlyExactNamesAreShorthand(fat: seq<byte>)
    ensures TagOf(ClassDesc(JavaString("java.io.IOException"), false, false)) == TYPE_THIN_DESCRIPTOR
    ensures TagOf(ClassDesc(JavaString("java.lang.RuntimeException"), false, false)) == TYPE_THIN_DESCRIPTOR
    ensures TagOf(ClassDesc(JavaString("java.lang.Throwable"), false, false)) == TYPE_THIN_DESCRIPTOR
  {
    var io := JavaString("java.io.IOException");
    var rt := JavaString("java.lang.RuntimeException");
    var th := JavaString("java.lang.Throwable");
    assert io[5] != EXCEPTION_CLASSNAME[5] && io[5] != STACKTRACEELEMENT_CLASSNAME[5];
    assert |rt| != |EXCEPTION_CLASSNAME| && rt[10] != STACKTRACEELEMENT_CLASSNAME[10];
    assert th[10] != EXCEPTION_CLASSNAME[10] && |th| != |STACKTRACEELEMENT_CLASSNAME|;
  }

  /** Names longer than 65535 code units always make the thin write throw;
      names of at most 21845 code units never do. */
  lemma ThinNameLimit(d: ClassDesc, fat: seq<byte>)
    requires !d.isPrimitive && !d.isArray
    ensures |d.name| > MAX_UTF_LENGTH ==> DescriptorBytes(d, fat) == Threw([TYPE_THIN_DESCRIPTOR])
    ensures |d.name| <= MAX_UTF_LENGTH / 3 ==> DescriptorBytes(d, fat).Completed?
  {
  }

  // ---------------------------------------------------------------------------
  // A reader that branches on the tag, as the paired input stream must: the
  // tag alone decides what follows it.

  /** What a reader learns from one descriptor and the bytes left after it.
      For the fat form the generic descriptor follows, and the generic reader
      takes over at `rest`. */
  datatype DescriptorRead =
    | ExceptionDescriptor(rest: seq<byte>)
    | StackTraceElementDescriptor(rest: seq<byte>)
    | FatDescriptorFollows(rest: seq<byte>)
    | ThinDescriptorName(name: seq<char16>, rest: seq<byte>)

  function ReadDescriptor(b: seq<byte>): (r: Option<DescriptorRead>) {
    if b == [] then None
    else if b[0] == TYPE_EXCEPTION then Some(ExceptionDescriptor(b[1..]))
    else if b[0] == TYPE_STACKTRACEELEMENT then Some(StackTraceElementDescriptor(b[1..]))
    else if b[0] == TYPE_FAT_DESCRIPTOR then Some(FatDescriptorFollows(b[1..]))
    else if b[0] == TYPE_THIN_DESCRIPTOR then
      match ReadUtf(b[1..])
      case None => None
      case Some((name, rest)) => Some(ThinDescriptorName(name, rest))
    else None
  }

  /** Reading back a completed descriptor write, followed by anything, gives
      the shorthand class, the generic descriptor followed by the rest, or the
      exact class name, and leaves the following bytes for the next reader. */
  lemma ReadDescriptorInvertsWrite(d: ClassDesc, fat: seq<byte>, rest: seq<byte>)
    requires DescriptorBytes(d, fat).Completed?
    ensures var r := ReadDescriptor(DescriptorBytes(d, fat).bytes + rest);
      r.Some? &&
      (d.name == EXCEPTION_CLASSNAME ==> r.value == ExceptionDescriptor(rest)) &&
      (d.name == STACKTRACEELEMENT_CLASSNAME ==> r.value == StackTraceElementDescriptor(rest)) &&
      (TagOf(d) == TYPE_FAT_DESCRIPTOR ==> r.value == FatDescriptorFollows(fat + rest)) &&
      (TagOf(d) == TYPE_THIN_DESCRIPTOR ==> r.value == ThinDescriptorName(d.name, rest))
  {
    var w := DescriptorBytes(d, fat).bytes;
    var tag := TagOf(d);
    assert (w + rest)[0] == tag;
    if tag == TYPE_FAT_DESCRIPTOR {
      assert (w + rest)[1..] == fat + rest;
    } else if tag == TYPE_THIN_DESCRIPTOR {
      var frame := UtfFrame(d.name).value;
      assert (w + rest)[1..] == frame + rest;
      ReadUtfOfFrame(d.name, rest);
    } else {
      assert (w + rest)[1..] == rest;
    }
  }

  /** Two classes whose descriptor writes complete with the same bytes have
      the same tag, and thin descriptors carry distinct names apart. */
  lemma ThinNamesDistinguishable(d1: ClassDesc, d2: ClassDesc, fat: seq<byte>)
    requires TagOf(d1) == TYPE_THIN_DESCRIPTOR && TagOf(d2) == TYPE_THIN_DESCRIPTOR
    requires DescriptorBytes(d1, fat).Completed? && DescriptorBytes(d2, fat).Completed?
    requires d1.name != d2.name
    ensures DescriptorBytes(d1, fat) != DescriptorBytes(d2, fat)
  {
    ReadDescriptorInvertsWrite(d1, fat, []);
    ReadDescriptorInvertsWrite(d2, fat, []);
  }

  // ---------------------------------------------------------------------------
  // The stream itself.

  /** How a write method left: normally, or by throwing. */
  datatype Outcome = Normal | Raised(cause: WriteFailure)
  datatype WriteFailure = UTFDataFormatException

  class ThrowableObjectOutputStream {
    /** Every byte written so far to the stream. */
    var buf: seq<byte>

    /** The stream begins with the one-byte header. */
    ghost predicate StartsWithHeader()
      reads this
    {
      |buf| >= 1 && buf[0] == LowByte(STREAM_VERSION)
    }

    /** Opening the stream over an empty sink: ObjectOutputStream's
        constructor calls writeStreamHeader before anything else. */
    constructor ()
      ensures buf == [LowByte(STREAM_VERSION)]
      ensures StartsWithHeader()
    {
      buf := [];
      new;
      WriteStreamHeader();
    }

    /** write(int) / writeByte(int): append the low eight bits of `v`. */
    method Write(v: int)
      modifies this
      ensures buf == old(buf) + [LowByte(v)]
    {
      buf := buf + [LowByte(v)];
    }

    /** The header is the single byte STREAM_VERSION (5); no magic number. */
    method WriteStreamHeader()
      modifies this
      ensures buf == old(buf) + [STREAM_VERSION]
    {
      Write(STREAM_VERSION);
    }

    /** ObjectOutputStream's own descriptor writer, whose bytes are given. */
    method WriteGenericDescriptor(fat: seq<byte>)
      modifies this
      ensures buf == old(buf) + fat
    {
      buf := buf + fat;
    }

    /** writeUTF: count the encoded length first; throw before writing
        anything when it exceeds 65535; else write the length in two bytes
        and then each code unit's bytes. */
    method WriteUtf(s: seq<char16>) returns (outcome: Outcome)
      modifies this
      ensures UtfFrame(s).Some? ==> outcome == Normal && buf == old(buf) + UtfFrame(s).value
      ensures UtfFrame(s).None? ==> outcome == Raised(UTFDataFormatException) && buf == old(buf)
    {
      var utflen := UtfLength(s);
      if utflen > MAX_UTF_LENGTH {
        return Raised(UTFDataFormatException);
      }
      var body := EncodeBody(s);
      buf := buf + ([utflen / 0x100, utflen % 0x100] + body);
      outcome := Normal;
    }

    /** The descriptor hook: the tag first, then the payload the tag calls
        for. `fat` is what ObjectOutputStream's own writeClassDescriptor
        would write for `d`. Only ever appends, so a stream that began with
        its header still does. */
    method WriteClassDescriptor(d: ClassDesc, fat: seq<byte>) returns (outcome: Outcome)
      modifies this
      ensures buf == old(buf) + DescriptorBytes(d, fat).bytes
      ensures outcome == Normal <==> DescriptorBytes(d, fat).Completed?
      ensures outcome != Normal ==> outcome == Raised(UTFDataFormatException)
      ensures old(StartsWithHeader()) ==> StartsWithHeader()
    {
      outcome := Normal;
      if d.name == EXCEPTION_CLASSNAME {
        Write(TYPE_EXCEPTION);
      } else if d.name == STACKTRACEELEMENT_CLASSNAME {
        Write(TYPE_STACKTRACEELEMENT);
      } else {
        if d.isPrimitive || d.isArray {
          Write(TYPE_FAT_DESCRIPTOR);
          WriteGenericDescriptor(fat);
        } else {
          Write(TYPE_THIN_DESCRIPTOR);
          ghost var withTag := buf;
          outcome := WriteUtf(d.name);
          if UtfFrame(d.name).Some? {
            assert buf == withTag + UtfFrame(d.name).value;
          }
        }
      }
    }
  }

  // ---------------------------------------------------------------------------
  // canSerialize over an abstract round trip.

  /** The outcome of serialize(t): the value read back, or something thrown
      (an IOException, a ClassNotFoundException or any other Throwable). */
  datatype RoundTrip<T> = Returned(value: T) | Failed

  /** canSerialize: run the round trip and report whether it returned; a
      throw is caught and becomes false, so canSerialize itself never throws
      (its result is a plain bool, not an outcome). */
  method CanSerialize<T>(t: T, serialize: T -> RoundTrip<T>) returns (r: bool)
    ensures r <==> serialize(t).Returned?
  {
    var roundTrip := serialize(t);
    match roundTrip {
      case Returned(_) =>
        r := true;
      case Failed =>
        r := false;
    }
  }
}
