/**
 * The two `java.io` stream operations the wire frame is built from:
 * `DataOutputStream.writeUTF` and `DataInputStream.readUTF`.  Both use the
 * JVM's "modified UTF-8": the string is taken as UTF-16 code units, each
 * unit is written on one, two or three bytes (the unit 0 on two), and the
 * whole is preceded by its byte length as an unsigned big-endian 16-bit number.
 */
module DataStream {
  import opened Base

  /** A UTF-16 code unit, the JVM's `char`. */
  type CodeUnit = x: int | 0 <= x < 0x1_0000

  /** The largest byte length `writeUTF` accepts. */
  const MaxUtfLength := 65535

  // ---------------------------------------------------------------- UTF-16

  predicate IsHighSurrogate(u: CodeUnit) { 0xD800 <= u < 0xDC00 }
  predicate IsLowSurrogate(u: CodeUnit) { 0xDC00 <= u < 0xE000 }

  /** The code units a JVM string holds for one Unicode scalar value. */
  function UnitsOf(c: char): (r: seq<CodeUnit>)
    ensures 1 <= |r| <= 2
  {
    var v := c as int;
    if v < 0x1_0000 then [v]
    else [0xD800 + (v - 0x1_0000) / 0x400, 0xDC00 + (v - 0x1_0000) % 0x400]
  }

  /** The UTF-16 form of a string, as the JVM stores it. */
  function Utf16(s: string): seq<CodeUnit> {
    if s == [] then [] else UnitsOf(s[0]) + Utf16(s[1..])
  }

  /**
   * The string a sequence of code units stands for, pairing surrogates;
   * None when a surrogate is unpaired (such a JVM string has no counterpart
   * among the strings of this model).
   */
  function FromUtf16(u: seq<CodeUnit>): Option<string>
    decreases |u|
  {
    if u == [] then Some([])
    else if IsHighSurrogate(u[0]) && |u| >= 2 && IsLowSurrogate(u[1]) then
      match FromUtf16(u[2..])
      case None => None
      case Some(t) => Some([(0x1_0000 + (u[0] as int - 0xD800) * 0x400 + (u[1] as int - 0xDC00)) as char] + t)
    else if IsHighSurrogate(u[0]) || IsLowSurrogate(u[0]) then None
    else
      match FromUtf16(u[1..])
      case None => None
      case Some(t) => Some([u[0] as char] + t)
  }

  lemma UnitsOfRoundTrip(c: char, rest: seq<CodeUnit>, t: string)
    requires FromUtf16(rest) == Some(t)
    ensures FromUtf16(UnitsOf(c) + rest) == Some([c] + t)
  {
    var u := UnitsOf(c) + rest;
    var v := c as int;
    if v < 0x1_0000 {
      assert u[1..] == rest;
    } else {
      var d := v - 0x1_0000;
      assert d == (d / 0x400) * 0x400 + d % 0x400;
      assert u[2..] == rest;
      assert (0x1_0000 + (u[0] as int - 0xD800) * 0x400 + (u[1] as int - 0xDC00)) == v;
    }
  }

  /** Every string survives the trip through its UTF-16 form. */
  lemma {:induction false} Utf16RoundTrip(s: string)
    ensures FromUtf16(Utf16(s)) == Some(s)
  {
    if s != [] {
      Utf16RoundTrip(s[1..]);
      UnitsOfRoundTrip(s[0], Utf16(s[1..]), s[1..]);
      assert [s[0]] + s[1..] == s;
    }
  }

  // ------------------------------------------------------- modified UTF-8

  /** The bytes `writeUTF` emits for one code unit. */
  function EncodeUnit(u: CodeUnit): (r: seq<byte>)
    ensures 1 <= |r| <= 3
  {
    if 0x0001 <= u <= 0x007F then [u]
    else if u <= 0x07FF then [0xC0 + u / 64, 0x80 + u % 64]
    else [0xE0 + u / 4096, 0x80 + (u / 64) % 64, 0x80 + u % 64]
  }

  function EncodeUnits(u: seq<CodeUnit>): seq<byte> {
    if u == [] then [] else EncodeUnit(u[0]) + EncodeUnits(u[1..])
  }

  /**
   * The decoding loop of `readUTF` over the bytes that the length prefix
   * announced: a byte below 0x80 is one unit; 110xxxxx and 1110xxxx open a
   * two- and a three-byte group whose other bytes must be 10xxxxxx; any other
   * leading byte, a bad continuation byte or a group cut short by the end is
   * malformed (UTFDataFormatException).  Overlong groups are accepted, as the
   * JVM accepts them.
   */
  function DecodeUnits(b: seq<byte>): (r: Option<seq<CodeUnit>>)
    decreases |b|
  {
    if b == [] then Some([])
    else
      var c := b[0];
      if c < 0x80 then
        match DecodeUnits(b[1..])
        case None => None
        case Some(t) => Some([c] + t)
      else if c / 16 == 12 || c / 16 == 13 then
        if |b| < 2 || b[1] / 64 != 2 then None
        else
          match DecodeUnits(b[2..])
          case None => None
          case Some(t) => Some([(c % 32) * 64 + b[1] % 64] + t)
      else if c / 16 == 14 then
        if |b| < 3 || b[1] / 64 != 2 || b[2] / 64 != 2 then None
        else
          match DecodeUnits(b[3..])
          case None => None
          case Some(t) => Some([(c % 16) * 4096 + (b[1] % 64) * 64 + b[2] % 64] + t)
      else None
  }

  lemma EncodeUnitRoundTrip(u: CodeUnit, rest: seq<byte>, t: seq<CodeUnit>)
    requires DecodeUnits(rest) == Some(t)
    ensures DecodeUnits(EncodeUnit(u) + rest) == Some([u] + t)
  {
    var b := EncodeUnit(u) + rest;
    if 0x0001 <= u <= 0x007F {
      assert b[1..] == rest;
    } else if u <= 0x07FF {
      assert b[2..] == rest;
      assert u == (u / 64) * 64 + u % 64;
    } else {
      assert b[3..] == rest;
      var hi, mid, lo := u / 4096, (u / 64) % 64, u % 64;
      assert u / 64 == hi * 64 + mid;
      assert u == (u / 64) * 64 + lo;
      assert u == hi * 4096 + mid * 64 + lo;
    }
  }

  /** Decoding undoes encoding, unit by unit. */
  lemma {:induction false} EncodeUnitsRoundTrip(u: seq<CodeUnit>)
    ensures DecodeUnits(EncodeUnits(u)) == Some(u)
  {
    if u != [] {
      EncodeUnitsRoundTrip(u[1..]);
      EncodeUnitRoundTrip(u[0], EncodeUnits(u[1..]), u[1..]);
      assert [u[0]] + u[1..] == u;
    }
  }

  /** A non-zero ASCII code unit is written as itself on one byte. */
  lemma {:induction false} AsciiEncodesAsItself(s: string)
    requires forall i :: 0 <= i < |s| ==> 0 < s[i] as int < 0x80
    ensures EncodeUnits(Utf16(s)) == seq(|s|, i requires 0 <= i < |s| => s[i] as int)
  {
    if s != [] {
      AsciiEncodesAsItself(s[1..]);
    }
  }

  // ------------------------------------------------------ writeUTF / readUTF

  /**
   * `writeUTF(s)`: the byte length of the encoded string on two bytes, high
   * byte first, then the encoded string; None stands for the
   * UTFDataFormatException thrown, before anything is written, when the
   * encoded string is longer than 65535 bytes.
   */
  function WriteUtf(s: string): (r: Option<seq<byte>>)
    ensures r.None? <==> |EncodeUnits(Utf16(s))| > MaxUtfLength
    ensures r.Some? ==>
              && |r.value| == 2 + |EncodeUnits(Utf16(s))|
              && r.value[0] as int * 256 + r.value[1] as int == |EncodeUnits(Utf16(s))|
              && r.value[2..] == EncodeUnits(Utf16(s))
  {
    var body := EncodeUnits(Utf16(s));
    if |body| > MaxUtfLength then None
    else Some([|body| / 256, |body| % 256] + body)
  }

  /** The exceptions `readUTF` throws. */
  datatype StreamError =
    | EOFException            // the stream ends before the announced length
    | UTFDataFormatException  // the announced bytes are not modified UTF-8

  /** How `readUTF` ends. */
  datatype ReadResult =
    | Read(units: seq<CodeUnit>, rest: seq<byte>)  // the string, and the bytes after it
    | Threw(error: StreamError)

  /**
   * `readUTF` on a stream holding `b`: read the unsigned 16-bit length, read
   * exactly that many bytes, decode them.
   */
  function ReadUtf(b: seq<byte>): (r: ReadResult)
    ensures |b| < 2 ==> r == Threw(EOFException)
    ensures |b| >= 2 && |b| - 2 < b[0] as int * 256 + b[1] as int ==> r == Threw(EOFException)
    ensures r.Read? ==> |r.rest| <= |b| - 2 && r.rest == b[|b| - |r.rest|..]
    ensures |b| >= 2 && |b| - 2 >= b[0] as int * 256 + b[1] as int ==>
              (r == Threw(UTFDataFormatException) <==>
                 DecodeUnits(b[2..2 + b[0] as int * 256 + b[1] as int]).None?)
    ensures r.Read? ==>
              && r.rest == b[2 + b[0] as int * 256 + b[1] as int..]
              && DecodeUnits(b[2..2 + b[0] as int * 256 + b[1] as int]) == Some(r.units)
  {
    if |b| < 2 then Threw(EOFException)
    else
      var n := b[0] as int * 256 + b[1] as int;
      if |b| - 2 < n then Threw(EOFException)
      else
        match DecodeUnits(b[2..2 + n])
        case None => Threw(UTFDataFormatException)
        case Some(u) => Read(u, b[2 + n..])
  }

  /**
   * What `writeUTF` wrote, followed by anything, is read back by `readUTF` as
   * the same string, and the stream is left exactly at the bytes that follow.
   */
  lemma WriteReadUtf(s: string, rest: seq<byte>)
    requires WriteUtf(s).Some?
    ensures ReadUtf(WriteUtf(s).value + rest) == Read(Utf16(s), rest)
    ensures FromUtf16(Utf16(s)) == Some(s)
  {
    var body := EncodeUnits(Utf16(s));
    var b := WriteUtf(s).value + rest;
    var n := |body|;
    assert n == (n / 256) * 256 + n % 256;
    assert b[2..2 + n] == body;
    assert b[2 + n..] == rest;
    EncodeUnitsRoundTrip(Utf16(s));
    Utf16RoundTrip(s);
  }
}
