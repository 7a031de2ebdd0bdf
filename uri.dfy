/**
 * `encodeURIComponent` as the mail fallback uses it: every character outside the
 * set `A-Z a-z 0-9 - _ . ! ~ * ' ( )` that the encoder keeps becomes the
 * percent-encoded (upper-case hex) bytes of its UTF-8 form, in the `%XY` form of
 * RFC 3986 section 2.1. The kept set is ECMAScript's, not RFC 3986's unreserved
 * set of section 2.3, which leaves out `! * ' ( )`.
 * PercentDecode reads such text back and is the partner of the encoder.
 */
module Uri {
  import opened Wrappers

  /** The characters `encodeURIComponent` leaves as they are. */
  predicate KeptByEncoder(c: char) {
    ('A' <= c <= 'Z') || ('a' <= c <= 'z') || ('0' <= c <= '9')
    || c == '-' || c == '_' || c == '.' || c == '!' || c == '~' || c == '*' || c == '\'' || c == '(' || c == ')'
  }

  /** A byte value. */
  type Byte = b: nat | b < 256

  /** The UTF-8 bytes of the Unicode scalar value `c`. */
  function Utf8(c: char): (bytes: seq<Byte>)
    ensures 1 <= |bytes| <= 4
  {
    var cp := c as int;
    if cp < 0x80 then [cp]
    else if cp < 0x800 then [0xC0 + cp / 64, 0x80 + cp % 64]
    else if cp < 0x10000 then [0xE0 + cp / 4096, 0x80 + cp / 64 % 64, 0x80 + cp % 64]
    else [0xF0 + cp / 262144, 0x80 + cp / 4096 % 64, 0x80 + cp / 64 % 64, 0x80 + cp % 64]
  }

  /** The upper-case hexadecimal digit for `n`. */
  function HexDigit(n: nat): (d: char)
    requires n < 16
    ensures HexValue(d) == Some(n)
  {
    if n < 10 then ('0' as int + n) as char else ('A' as int + n - 10) as char
  }

  /** The value of a hexadecimal digit of either case. */
  function HexValue(d: char): (r: Option<nat>)
    ensures r.Some? ==> r.value < 16
  {
    if '0' <= d <= '9' then Some(d as int - '0' as int)
    else if 'A' <= d <= 'F' then Some(d as int - 'A' as int + 10)
    else if 'a' <= d <= 'f' then Some(d as int - 'a' as int + 10)
    else None
  }

  /** The digit for the high four bits of `b`. */
  function HighDigit(b: Byte): char {
    HexDigit(b / 16)
  }

  /** The digit for the low four bits of `b`. */
  function LowDigit(b: Byte): char {
    HexDigit(b % 16)
  }

  /** `%XY` for the byte `b`. */
  function Escape(b: Byte): (r: string)
    ensures |r| == 3 && r[0] == '%'
  {
    ['%', HighDigit(b), LowDigit(b)]
  }

  /** The two digits of an escape are characters the encoder keeps. */
  lemma EscapeDigits(b: Byte)
    ensures KeptByEncoder(Escape(b)[1]) && KeptByEncoder(Escape(b)[2])
  {
  }

  /** The escapes of a run of bytes, one after the other. */
  function EscapeAll(bytes: seq<Byte>): (r: string)
    ensures |r| == 3 * |bytes|
  {
    if bytes == [] then [] else Escape(bytes[0]) + EscapeAll(bytes[1..])
  }

  /** Escapes are made of `%` and characters the encoder keeps. */
  lemma {:induction false} EscapeAllSafe(bytes: seq<Byte>)
    ensures forall i :: 0 <= i < |EscapeAll(bytes)| ==> EscapeAll(bytes)[i] == '%' || KeptByEncoder(EscapeAll(bytes)[i])
  {
    if bytes != [] {
      EscapeAllSafe(bytes[1..]);
      EscapeDigits(bytes[0]);
      var head, tail := Escape(bytes[0]), EscapeAll(bytes[1..]);
      assert EscapeAll(bytes) == head + tail;
      forall i | 0 <= i < |EscapeAll(bytes)|
        ensures EscapeAll(bytes)[i] == '%' || KeptByEncoder(EscapeAll(bytes)[i])
      {
        if i >= 3 {
          assert EscapeAll(bytes)[i] == tail[i - 3];
        }
      }
    }
  }

  /** The encoding of one character. */
  function EncodeChar(c: char): (r: string)
    ensures KeptByEncoder(c) ==> r == [c]
    ensures !KeptByEncoder(c) ==> |r| >= 3 && r[0] == '%'
    ensures forall i :: 0 <= i < |r| ==> r[i] == '%' || KeptByEncoder(r[i])
  {
    if KeptByEncoder(c) then [c] else EscapeAllSafe(Utf8(c)); EscapeAll(Utf8(c))
  }

  /**
   * `encodeURIComponent(s)`. The result is made of characters the encoder keeps and
   * `%` only, so none of the delimiters `?`, `&`, `=` that structure a `mailto:`
   * URI can appear in it; text made only of such characters is left unchanged.
   */
  function EncodeURIComponent(s: string): (r: string)
    ensures forall i :: 0 <= i < |r| ==> r[i] == '%' || KeptByEncoder(r[i])
    ensures (forall i :: 0 <= i < |s| ==> KeptByEncoder(s[i])) ==> r == s
    ensures |r| >= |s|
  {
    if s == [] then [] else EncodeChar(s[0]) + EncodeURIComponent(s[1..])
  }

  /** The byte spelled `%XY` at position `k` of `s`, if there is one. */
  function EscapedByte(s: string, k: nat): (r: Option<Byte>)
    ensures r.Some? ==> k + 3 <= |s|
  {
    if k + 3 <= |s| && s[k] == '%' then
      match (HexValue(s[k + 1]), HexValue(s[k + 2]))
      case (Some(hi), Some(lo)) => Some(hi * 16 + lo)
      case _ => None
    else None
  }

  /** The payload bits of a UTF-8 continuation byte escaped at position `k` of `s`. */
  function ContinuationBits(s: string, k: nat): (r: Option<nat>)
    ensures r.Some? ==> r.value < 64 && k + 3 <= |s|
  {
    match EscapedByte(s, k)
    case Some(b) => if 0x80 <= b < 0xC0 then Some(b - 0x80) else None
    case None => None
  }

  /**
   * The character for code point `cp` when it is a Unicode scalar value of at
   * least `least` (so no overlong form is accepted), with `width` characters read.
   */
  function ScalarValue(cp: nat, least: nat, width: nat): (r: Option<(char, nat)>)
    ensures r.Some? ==> r.value.1 == width
  {
    if least <= cp && (cp < 0xD800 || 0xE000 <= cp < 0x110000) then Some((cp as char, width)) else None
  }

  /**
   * The first character of percent-encoded text and the number of characters
   * it takes: an unescaped character stands for itself, and one to four escaped
   * bytes stand for the character they encode in UTF-8.
   */
  function DecodeChar(s: string): (r: Option<(char, nat)>)
    ensures r.Some? ==> 1 <= r.value.1 <= |s|
  {
    if |s| == 0 then None
    else if s[0] != '%' then Some((s[0], 1))
    else match EscapedByte(s, 0)
      case None => None
      case Some(b0) =>
        if b0 < 0x80 then Some((b0 as char, 3))
        else if 0xC0 <= b0 < 0xE0 then DecodeTwoBytes(s, b0 - 0xC0)
        else if 0xE0 <= b0 < 0xF0 then DecodeThreeBytes(s, b0 - 0xE0)
        else if 0xF0 <= b0 < 0xF8 then DecodeFourBytes(s, b0 - 0xF0)
        else None
  }

  /** A lead byte carrying the bits `lead`, then one continuation byte. */
  function DecodeTwoBytes(s: string, lead: nat): (r: Option<(char, nat)>)
    ensures r.Some? ==> r.value.1 == 6 <= |s|
  {
    match ContinuationBits(s, 3)
    case Some(x1) => ScalarValue(lead * 64 + x1, 0x80, 6)
    case None => None
  }

  /** A lead byte carrying the bits `lead`, then two continuation bytes. */
  function DecodeThreeBytes(s: string, lead: nat): (r: Option<(char, nat)>)
    ensures r.Some? ==> r.value.1 == 9 <= |s|
  {
    match (ContinuationBits(s, 3), ContinuationBits(s, 6))
    case (Some(x1), Some(x2)) => ScalarValue(lead * 4096 + x1 * 64 + x2, 0x800, 9)
    case _ => None
  }

  /** A lead byte carrying the bits `lead`, then three continuation bytes. */
  function DecodeFourBytes(s: string, lead: nat): (r: Option<(char, nat)>)
    ensures r.Some? ==> r.value.1 == 12 <= |s|
  {
    match (ContinuationBits(s, 3), ContinuationBits(s, 6), ContinuationBits(s, 9))
    case (Some(x1), Some(x2), Some(x3)) => ScalarValue(lead * 262144 + x1 * 4096 + x2 * 64 + x3, 0x10000, 12)
    case _ => None
  }

  /** Percent-decoding of a whole string; None when some escape is malformed. */
  function PercentDecode(s: string): Option<string>
    decreases |s|
  {
    if s == [] then Some([])
    else match DecodeChar(s)
      case None => None
      case Some((c, n)) =>
        match PercentDecode(s[n..])
        case Some(t) => Some([c] + t)
        case None => None
  }

  /** The three characters `EscapeAll` writes for the byte at index `k`. */
  lemma {:induction false} EscapeAllIndex(bytes: seq<Byte>, k: nat)
    requires k < |bytes|
    ensures var r := EscapeAll(bytes);
      r[3 * k] == '%' && r[3 * k + 1] == HighDigit(bytes[k]) && r[3 * k + 2] == LowDigit(bytes[k])
  {
    var head, tail := Escape(bytes[0]), EscapeAll(bytes[1..]);
    var r := EscapeAll(bytes);
    assert r == head + tail;
    if k > 0 {
      EscapeAllIndex(bytes[1..], k - 1);
      var j := 3 * (k - 1);
      assert r[3 * k] == tail[j] && r[3 * k + 1] == tail[j + 1] && r[3 * k + 2] == tail[j + 2];
      assert bytes[1..][k - 1] == bytes[k];
    }
  }

  /** `%XY` spelled out at position `k` is read back as the byte with the digits `hi` and `lo`. */
  lemma EscapedByteAt(s: string, k: nat, hi: nat, lo: nat)
    requires hi < 16 && lo < 16
    requires k + 3 <= |s| && s[k] == '%' && s[k + 1] == HexDigit(hi) && s[k + 2] == HexDigit(lo)
    ensures EscapedByte(s, k) == Some(hi * 16 + lo)
  {
  }

  /** The escape of `b` spelled out at position `i` of `r` is read back as `b`, whatever follows `r`. */
  lemma EscapeReadBack(r: string, rest: string, i: nat, b: Byte)
    requires i + 3 <= |r| && r[i] == '%' && r[i + 1] == HighDigit(b) && r[i + 2] == LowDigit(b)
    ensures EscapedByte(r + rest, i) == Some(b)
  {
    var s := r + rest;
    var hi, lo := b / 16, b % 16;
    assert s[i] == '%' && s[i + 1] == HexDigit(hi) && s[i + 2] == HexDigit(lo);
    EscapedByteAt(s, i, hi, lo);
  }

  /** The bytes `EscapeAll` writes are read back one by one, whatever follows them. */
  lemma EscapeAllAt(bytes: seq<Byte>, rest: string, k: nat)
    requires k < |bytes|
    ensures EscapedByte(EscapeAll(bytes) + rest, 3 * k) == Some(bytes[k])
  {
    EscapeAllIndex(bytes, k);
    EscapeReadBack(EscapeAll(bytes), rest, 3 * k, bytes[k]);
  }

  /** A two-byte sequence decodes to its code point. */
  lemma DecodeTwo(s: string, cp: int)
    requires 0x80 <= cp < 0x800
    requires EscapedByte(s, 0) == Some(0xC0 + cp / 64) && EscapedByte(s, 3) == Some(0x80 + cp % 64)
    ensures DecodeChar(s) == Some((cp as char, 6))
  {
    TwoByteValue(cp);
    assert ContinuationBits(s, 3) == Some(cp % 64);
    assert DecodeTwoBytes(s, cp / 64) == Some((cp as char, 6));
  }

  /** A three-byte sequence decodes to its code point. */
  lemma DecodeThree(s: string, cp: int)
    requires 0x800 <= cp < 0x10000 && (cp < 0xD800 || 0xE000 <= cp)
    requires EscapedByte(s, 0) == Some(0xE0 + cp / 4096)
    requires EscapedByte(s, 3) == Some(0x80 + cp / 64 % 64) && EscapedByte(s, 6) == Some(0x80 + cp % 64)
    ensures DecodeChar(s) == Some((cp as char, 9))
  {
    ThreeByteValue(cp);
    assert ContinuationBits(s, 3) == Some(cp / 64 % 64);
    assert ContinuationBits(s, 6) == Some(cp % 64);
    assert DecodeThreeBytes(s, cp / 4096) == Some((cp as char, 9));
  }

  /** A four-byte sequence decodes to its code point. */
  lemma DecodeFour(s: string, cp: int)
    requires 0x10000 <= cp < 0x110000
    requires EscapedByte(s, 0) == Some(0xF0 + cp / 262144)
    requires EscapedByte(s, 3) == Some(0x80 + cp / 4096 % 64)
    requires EscapedByte(s, 6) == Some(0x80 + cp / 64 % 64) && EscapedByte(s, 9) == Some(0x80 + cp % 64)
    ensures DecodeChar(s) == Some((cp as char, 12))
  {
    FourByteValue(cp);
    assert ContinuationBits(s, 3) == Some(cp / 4096 % 64);
    assert ContinuationBits(s, 6) == Some(cp / 64 % 64);
    assert ContinuationBits(s, 9) == Some(cp % 64);
    assert DecodeFourBytes(s, cp / 262144) == Some((cp as char, 12));
  }

  /** The two UTF-8 payload fields of `cp` put back together give `cp`. */
  lemma TwoByteValue(cp: int)
    requires 0x80 <= cp < 0x800
    ensures 2 <= cp / 64 < 32
    ensures (cp / 64) * 64 + cp % 64 == cp
  {
  }

  /** The three UTF-8 payload fields of `cp` put back together give `cp`. */
  lemma ThreeByteValue(cp: int)
    requires 0x800 <= cp < 0x10000
    ensures cp / 4096 < 16
    ensures (cp / 4096) * 4096 + (cp / 64 % 64) * 64 + cp % 64 == cp
  {
    var q := cp / 64;
    assert cp == q * 64 + cp % 64;
    assert q == (q / 64) * 64 + q % 64;
    assert q / 64 == cp / 4096;
  }

  /** The four UTF-8 payload fields of `cp` put back together give `cp`. */
  lemma FourByteValue(cp: int)
    requires 0x10000 <= cp < 0x110000
    ensures cp / 262144 < 8
    ensures (cp / 262144) * 262144 + (cp / 4096 % 64) * 4096 + (cp / 64 % 64) * 64 + cp % 64 == cp
  {
    var q := cp / 64;
    assert cp == q * 64 + cp % 64;
    assert q == (q / 64) * 64 + q % 64;
    assert q / 64 == cp / 4096;
    var r := cp / 4096;
    assert r == (r / 64) * 64 + r % 64;
    assert r / 64 == cp / 262144;
  }

  /** Every character is decoded from its own encoding, whatever follows it. */
  lemma DecodeEncodedChar(c: char, rest: string)
    ensures DecodeChar(EncodeChar(c) + rest) == Some((c, |EncodeChar(c)|))
  {
    if !KeptByEncoder(c) {
      var cp := c as int;
      if cp < 0x80 {
        DecodeEncodedOne(c, rest);
      } else if cp < 0x800 {
        DecodeEncodedTwo(c, rest);
      } else if cp < 0x10000 {
        DecodeEncodedThree(c, rest);
      } else {
        DecodeEncodedFour(c, rest);
      }
    }
  }

  lemma DecodeEncodedOne(c: char, rest: string)
    requires c as int < 0x80
    ensures |EscapeAll(Utf8(c))| == 3
    ensures DecodeChar(EscapeAll(Utf8(c)) + rest) == Some((c, 3))
  {
    var bytes := Utf8(c);
    assert bytes == [c as int];
    EscapeAllAt(bytes, rest, 0);
  }

  lemma DecodeEncodedTwo(c: char, rest: string)
    requires 0x80 <= c as int < 0x800
    ensures |EscapeAll(Utf8(c))| == 6
    ensures DecodeChar(EscapeAll(Utf8(c)) + rest) == Some((c, 6))
  {
    var cp := c as int;
    var bytes := Utf8(c);
    assert bytes == [0xC0 + cp / 64, 0x80 + cp % 64];
    EscapeAllAt(bytes, rest, 0);
    EscapeAllAt(bytes, rest, 1);
    DecodeTwo(EscapeAll(bytes) + rest, cp);
  }

  lemma DecodeEncodedThree(c: char, rest: string)
    requires 0x800 <= c as int < 0x10000
    ensures |EscapeAll(Utf8(c))| == 9
    ensures DecodeChar(EscapeAll(Utf8(c)) + rest) == Some((c, 9))
  {
    var cp := c as int;
    var bytes := Utf8(c);
    assert bytes == [0xE0 + cp / 4096, 0x80 + cp / 64 % 64, 0x80 + cp % 64];
    EscapeAllAt(bytes, rest, 0);
    EscapeAllAt(bytes, rest, 1);
    EscapeAllAt(bytes, rest, 2);
    DecodeThree(EscapeAll(bytes) + rest, cp);
  }

  lemma DecodeEncodedFour(c: char, rest: string)
    requires 0x10000 <= c as int
    ensures |EscapeAll(Utf8(c))| == 12
    ensures DecodeChar(EscapeAll(Utf8(c)) + rest) == Some((c, 12))
  {
    var cp := c as int;
    var bytes := Utf8(c);
    assert bytes == [0xF0 + cp / 262144, 0x80 + cp / 4096 % 64, 0x80 + cp / 64 % 64, 0x80 + cp % 64];
    EscapeAllAt(bytes, rest, 0);
    EscapeAllAt(bytes, rest, 1);
    EscapeAllAt(bytes, rest, 2);
    EscapeAllAt(bytes, rest, 3);
    DecodeFour(EscapeAll(bytes) + rest, cp);
  }

  /** Decoding undoes `encodeURIComponent`: the round trip gives back the original text. */
  lemma {:induction false} DecodeEncode(s: string)
    ensures PercentDecode(EncodeURIComponent(s)) == Some(s)
  {
    if s != [] {
      var head, tail := EncodeChar(s[0]), EncodeURIComponent(s[1..]);
      DecodeEncodedChar(s[0], tail);
      DecodeEncode(s[1..]);
      assert (head + tail)[|head|..] == tail;
      assert [s[0]] + s[1..] == s;
    }
  }
}
