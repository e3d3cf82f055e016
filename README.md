# Compact class descriptors of ThrowableObjectOutputStream

`ThrowableObjectOutputStream` is a `java.io.ObjectOutputStream` used to ship
exceptions. It changes two hooks of Java serialization:

- `writeStreamHeader` writes one byte, `STREAM_VERSION` (5), instead of the
  usual magic number and version.
- `writeClassDescriptor` writes a one-byte tag instead of the generic class
  descriptor. The tag is chosen in a fixed priority order:
  - a class named exactly `java.lang.Exception` gets tag 2 and nothing else;
  - a class named exactly `java.lang.StackTraceElement` gets tag 3 and nothing else;
  - a primitive or array class gets tag 0, then the generic descriptor;
  - any other class gets tag 1, then its name as `writeUTF` writes it.

  `writeUTF` writes a 2-byte big-endian length L, then L bytes of modified
  UTF-8, as section 4.4.7 of the Java Virtual Machine Specification defines it.
  It throws `UTFDataFormatException` when L exceeds 65535.

`canSerialize(t)` runs the round trip `serialize(t)` and reports whether it
returned. It catches every `Throwable`.

The project has two modules:

- `ModifiedUtf8` (`modified_utf8.dfy`) covers `writeUTF`. It has the per-unit
  encoding, the length pass and the encoding pass (two loops), and the 65535
  limit. It also has the matching `readUTF` decoder, used to prove that a
  name can be recovered.
- `ThrowableObjectStream` (`throwable_stream.dfy`) holds the rest:
  - the tag constants and the two shorthand class names;
  - the specification function `DescriptorBytes`, which gives the bytes one
    descriptor write appends;
  - a reader that branches on the tag;
  - the stream class, whose `buf` field is every byte written so far;
  - `CanSerialize`.

Class names are sequences of 16-bit code units (Java `char`), not Dafny
strings. This is because a Java string may hold lone surrogates. Bytes are
unsigned 0..255, and `write(int)` and `writeByte(int)` keep the low eight bits.

## Model

| member | source | states |
|---|---|---|
| `ThrowableObjectStream.ThrowableObjectOutputStream.constructor` | src/main/java/org/elasticsearch/common/io/ThrowableObjectOutputStream.java:39-46 | opening the stream over an empty sink leaves exactly the one header byte in it |
| `ThrowableObjectStream.ThrowableObjectOutputStream.WriteStreamHeader` | src/main/java/org/elasticsearch/common/io/ThrowableObjectOutputStream.java:43-46 | appends exactly one byte, the value 5; nothing is written before it and no magic number is written |
| `ThrowableObjectStream.LowByte` | src/main/java/org/elasticsearch/common/io/ThrowableObjectOutputStream.java:45 | the byte `write`/`writeByte` emit agrees with the int modulo 256, and is the int itself when that fits in a byte |
| `ThrowableObjectStream.ShorthandNames` | src/main/java/org/elasticsearch/common/io/ThrowableObjectOutputStream.java:32-36 | the two shorthand names differ, so the order of the two name checks never matters; both are ASCII, of 19 and 27 code units |
| `ThrowableObjectStream.ThrowableObjectOutputStream.Write` | src/main/java/org/elasticsearch/common/io/ThrowableObjectOutputStream.java:45 | `write(int)` and `writeByte(int)` append exactly one byte, the low eight bits of the argument, and keep every earlier byte; the same method serves the tag writes at lines 51, 53, 57 and 60 |
| `ThrowableObjectStream.ThrowableObjectOutputStream.WriteClassDescriptor` | src/main/java/org/elasticsearch/common/io/ThrowableObjectOutputStream.java:48-64 | appends exactly the bytes of `DescriptorBytes` and nothing else; returns normally iff the write completed, and otherwise raises `UTFDataFormatException` with the tag byte already appended; a stream that started with its header still does |
| `ThrowableObjectStream.ThrowableObjectOutputStream.WriteGenericDescriptor` | src/main/java/org/elasticsearch/common/io/ThrowableObjectOutputStream.java:58 | the generic descriptor bytes are appended unchanged |
| `ThrowableObjectStream.ThrowableObjectOutputStream.WriteUtf` | src/main/java/org/elasticsearch/common/io/ThrowableObjectOutputStream.java:61 | appends the length-prefixed modified UTF-8 frame of the name; if the encoding exceeds 65535 bytes it raises and appends nothing |
| `ThrowableObjectStream.LeadingTag` | src/main/java/org/elasticsearch/common/io/ThrowableObjectOutputStream.java:49-63 | every descriptor write, completed or not, starts with exactly one tag byte; that byte is one of the four tag values, and the four values are pairwise distinct |
| `ThrowableObjectStream.Shorthands` | src/main/java/org/elasticsearch/common/io/ThrowableObjectOutputStream.java:50-53 | the exact names `java.lang.Exception` and `java.lang.StackTraceElement` give `[2]` and `[3]` with no payload, whatever the primitive/array flags and the generic descriptor are (the name checks come first) |
| `ThrowableObjectStream.OnlyExactNamesAreShorthand` | src/main/java/org/elasticsearch/common/io/ThrowableObjectOutputStream.java:32-36 | subclass names such as `java.io.IOException` and `java.lang.RuntimeException`, and `java.lang.Throwable`, do not match a shorthand and take the thin form |
| `ThrowableObjectStream.FatDescriptor` | src/main/java/org/elasticsearch/common/io/ThrowableObjectOutputStream.java:54-58 | any other primitive or array class gives `0` followed by the generic descriptor bytes unchanged, and never tag 1 |
| `ThrowableObjectStream.ThinDescriptor` | src/main/java/org/elasticsearch/common/io/ThrowableObjectOutputStream.java:59-61 | any other class gives `1`, the big-endian 2-byte length L, then the L bytes of the modified UTF-8 name and nothing else; if L > 65535 only `[1]` is on the stream when the write throws |
| `ThrowableObjectStream.AsciiThinDescriptor` | src/main/java/org/elasticsearch/common/io/ThrowableObjectOutputStream.java:59-61 | for an ASCII class name the thin descriptor is `1`, the name's length in two bytes, and the name's characters as bytes |
| `ThrowableObjectStream.ThinNameLimit` | src/main/java/org/elasticsearch/common/io/ThrowableObjectOutputStream.java:59-61 | a thin name longer than 65535 code units always throws; one of at most 21845 code units never does |
| `ThrowableObjectStream.ReadDescriptorInvertsWrite` | src/main/java/org/elasticsearch/common/io/ThrowableObjectOutputStream.java:49-63 | a reader that branches on the tag byte alone gets back the shorthand class, the generic descriptor followed by the rest, or the exact class name, and the bytes after the descriptor are left untouched |
| `ThrowableObjectStream.ThinNamesDistinguishable` | src/main/java/org/elasticsearch/common/io/ThrowableObjectOutputStream.java:59-61 | two thin descriptors for different class names are different bytes |
| `ThrowableObjectStream.CanSerialize` | src/main/java/org/elasticsearch/common/io/ThrowableObjectOutputStream.java:83-90 | returns true iff `serialize(t)` returned rather than threw; it returns a plain boolean, so it never throws itself |
| `ModifiedUtf8.EncodeUnit` | src/main/java/org/elasticsearch/common/io/ThrowableObjectOutputStream.java:61 | a code unit takes one byte exactly when it is in 1..0x7F, three bytes exactly when it is above 0x7FF, and two bytes otherwise (U+0000 included); no byte is zero, and every byte after the first is a continuation byte `10xxxxxx` |
| `ModifiedUtf8.EncodeUnits` | src/main/java/org/elasticsearch/common/io/ThrowableObjectOutputStream.java:61 | a name of n code units encodes to between n and 3n bytes, with no zero byte |
| `ModifiedUtf8.UtfFrame` | src/main/java/org/elasticsearch/common/io/ThrowableObjectOutputStream.java:61 | there is a frame exactly when the encoding is at most 65535 bytes long; the frame is the big-endian length of the encoding followed by the encoding; up to 21845 code units always fit, and more than 65535 never do |
| `ModifiedUtf8.UtfLength` | src/main/java/org/elasticsearch/common/io/ThrowableObjectOutputStream.java:61 | the length pass returns exactly the number of bytes the encoding takes |
| `ModifiedUtf8.EncodeBody` | src/main/java/org/elasticsearch/common/io/ThrowableObjectOutputStream.java:61 | the per-unit encoding loop produces exactly the modified UTF-8 encoding of the whole name |
| `ModifiedUtf8.EncodeUnitsAppend` | src/main/java/org/elasticsearch/common/io/ThrowableObjectOutputStream.java:61 | encoding one more code unit appends exactly that unit's bytes |
| `ModifiedUtf8.DecodeEncodeUnit` | src/main/java/org/elasticsearch/common/io/ThrowableObjectOutputStream.java:61 | decoding one unit's bytes in front of any rest gives that unit in front of the rest's decoding |
| `ModifiedUtf8.DecodeEncode` | src/main/java/org/elasticsearch/common/io/ThrowableObjectOutputStream.java:61 | `readUTF`'s decoding recovers every name from its encoding |
| `ModifiedUtf8.EncodeUnitsInjective` | src/main/java/org/elasticsearch/common/io/ThrowableObjectOutputStream.java:61 | different names never share an encoding |
| `ModifiedUtf8.ReadUtfOfFrame` | src/main/java/org/elasticsearch/common/io/ThrowableObjectOutputStream.java:61 | reading a `writeUTF` frame followed by anything gives back the name and exactly the bytes after the frame |
| `ModifiedUtf8.AsciiEncodesAsItself` | src/main/java/org/elasticsearch/common/io/ThrowableObjectOutputStream.java:61 | names made of code units 1..0x7F encode to themselves |

The reader (`ReadDescriptor`, `ReadUtf`, `DecodeUnits`) is an independent
definition of what the paired input stream has to do. It is the inverse that
the write side is proved against. `ThrowableObjectInputStream` is not part of
this model. The decoder follows `java.io.DataInputStream.readUTF`: the lead
byte decides the length of each unit, and a bad lead or continuation byte or
a truncated unit is an error.

Two consequences of the code:

- The exception shorthand matches the exact name `java.lang.Exception`. It
  does not match `java.lang.Throwable` or any subclass. Those take the thin
  form.
- The fat form appends whatever the generic descriptor writer produces. The
  model does not assume that this is non-empty.

## Left out

- `serialize` (lines 69-77): the write through `writeObject`, the
  try-with-resources close, and the read back through
  `ThrowableObjectInputStream`. These are library code and a reader that is
  not part of this model. `CanSerialize` therefore takes `serialize` as a
  function parameter whose outcome is either a returned value or a throw.
- `ThrowableObjectStream.CanSerialize`: it does not distinguish the kinds of
  `Throwable` caught, JVM errors included. Every throw is the single outcome
  `Failed`.
- What `ObjectOutputStream.writeClassDescriptor` writes (line 58). The bytes
  are a parameter of `WriteClassDescriptor`. The object-graph walk, the
  handle table, block-data mode and the per-stream descriptor cache are also
  left out.
- Reflection (`desc.forClass()`, `isPrimitive()`, `isArray()`, lines 55-56).
  The descriptor carries the two answers as plain booleans.
- Failures of the underlying `OutputStream`, and `flush`/`close`. The only
  failure modelled is `UTFDataFormatException` from `writeUTF`.
- `ThrowableObjectStream.ThrowableObjectOutputStream.constructor`: it models
  a stream opened over an empty sink. Bytes that the sink already held before
  the stream was opened are not modelled.
