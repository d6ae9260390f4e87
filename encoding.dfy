/**
 * Text as bytes: the UTF-8 encoding of a text, `encodeURIComponent` (each
 * character outside the unreserved set written as `%XX` escapes of its
 * UTF-8 bytes), reading an escaped text back into bytes, and the two
 * single-byte character sets through which UTF-8 text is misread as
 * several characters per emoji (Windows-1252 and Mac OS Roman).
 */
module Encoding {
  import opened Wrappers
  import opened Strings

  newtype Byte = x: int | 0 <= x < 256

  // ---------------------------------------------------------------- UTF-8

  /** The UTF-8 bytes of one character (RFC 3629, section 3). */
  function Utf8Char(c: char): (bs: seq<Byte>)
    ensures 1 <= |bs| <= 4
    ensures |bs| == 1 <==> c as int < 0x80
    ensures |bs| == 1 ==> bs[0] as int == c as int
    ensures forall i :: 1 <= i < |bs| ==> 0x80 <= bs[i] < 0xC0
  {
    var n := c as int;
    if n < 0x80 then [n as Byte]
    else if n < 0x800 then [(0xC0 + n / 64) as Byte, (0x80 + n % 64) as Byte]
    else if n < 0x10000 then [(0xE0 + n / 4096) as Byte, (0x80 + (n / 64) % 64) as Byte, (0x80 + n % 64) as Byte]
    else [(0xF0 + n / 262144) as Byte, (0x80 + (n / 4096) % 64) as Byte, (0x80 + (n / 64) % 64) as Byte, (0x80 + n % 64) as Byte]
  }

  /** The UTF-8 bytes of a text. */
  function Utf8(s: string): (bs: seq<Byte>)
    ensures |bs| >= |s|
  {
    if |s| == 0 then [] else Utf8Char(s[0]) + Utf8(s[1..])
  }

  /** The first byte of a character's encoding tells how many bytes follow (RFC 3629, section 3). */
  lemma Utf8LeadByte(c: char)
    ensures var bs := Utf8Char(c);
            (|bs| == 1 <==> bs[0] < 0x80) &&
            (|bs| == 2 <==> 0xC0 <= bs[0] < 0xE0) &&
            (|bs| == 3 <==> 0xE0 <= bs[0] < 0xF0) &&
            (|bs| == 4 <==> 0xF0 <= bs[0] < 0xF8)
  {
  }

  // ---------------------------------------------------------------- percent-encoding

  /** The characters `encodeURIComponent` leaves as they are. */
  predicate IsUnreserved(c: char) {
    'A' <= c <= 'Z' || 'a' <= c <= 'z' || '0' <= c <= '9' ||
    c == '-' || c == '_' || c == '.' || c == '!' || c == '~' || c == '*' || c == '\'' || c == '(' || c == ')'
  }

  /** An upper-case hexadecimal digit. */
  function HexChar(d: nat): (c: char)
    requires d < 16
    ensures IsHexDigit(c) && HexDigitValue(c) == d
  {
    if d < 10 then DigitChar(d) else ('A' as int + d - 10) as char
  }

  /** `%XX` escapes of bytes, upper-case hexadecimal. */
  function Escapes(bs: seq<Byte>): (r: string)
    ensures |r| == 3 * |bs|
  {
    if |bs| == 0 then ""
    else ['%', HexChar(bs[0] as int / 16), HexChar(bs[0] as int % 16)] + Escapes(bs[1..])
  }

  /** The characters an escaped text is made of. */
  predicate IsUriSafe(c: char) {
    IsUnreserved(c) || c == '%'
  }

  /** `encodeURIComponent(s)` */
  function EncodeUriComponent(s: string): (r: string)
    ensures forall i :: 0 <= i < |r| ==> IsUriSafe(r[i])
    ensures (forall i :: 0 <= i < |s| ==> IsUnreserved(s[i])) ==> r == s
  {
    if |s| == 0 then ""
    else
      var head := if IsUnreserved(s[0]) then [s[0]] else Escapes(Utf8Char(s[0]));
      EscapesSafe(Utf8Char(s[0]));
      head + EncodeUriComponent(s[1..])
  }

  lemma {:induction false} EscapesSafe(bs: seq<Byte>)
    ensures forall i :: 0 <= i < |Escapes(bs)| ==> IsUriSafe(Escapes(bs)[i])
    decreases |bs|
  {
    if |bs| > 0 {
      EscapesSafe(bs[1..]);
      var head := ['%', HexChar(bs[0] as int / 16), HexChar(bs[0] as int % 16)];
      assert Escapes(bs) == head + Escapes(bs[1..]);
    }
  }

  /**
   * Reading an escaped text back into bytes (`decodeURIComponent` before its
   * UTF-8 decoding): `%XX` gives the byte XX, an ASCII character its own
   * code; anything else is malformed.
   */
  function PercentBytes(t: string): (r: Option<seq<Byte>>)
    decreases |t|
  {
    if |t| == 0 then Some([])
    else if t[0] == '%' then
      if |t| >= 3 && IsHexDigit(t[1]) && IsHexDigit(t[2]) then
        match PercentBytes(t[3..])
        case None => None
        case Some(rest) => Some([(16 * HexDigitValue(t[1]) + HexDigitValue(t[2])) as Byte] + rest)
      else None
    else if t[0] as int < 0x80 then
      match PercentBytes(t[1..])
      case None => None
      case Some(rest) => Some([t[0] as int as Byte] + rest)
    else None
  }

  /** Reading escapes back gives their bytes, followed by whatever the rest gives. */
  lemma {:induction false} PercentBytesOfEscapes(bs: seq<Byte>, rest: string)
    ensures PercentBytes(rest).None? ==> PercentBytes(Escapes(bs) + rest).None?
    ensures PercentBytes(rest).Some? ==> PercentBytes(Escapes(bs) + rest) == Some(bs + PercentBytes(rest).value)
    decreases |bs|
  {
    if |bs| > 0 {
      PercentBytesOfEscapes(bs[1..], rest);
      EscapesStep(bs, rest);
    } else {
      assert Escapes(bs) + rest == rest;
      if PercentBytes(rest).Some? {
        assert bs + PercentBytes(rest).value == PercentBytes(rest).value;
      }
    }
  }

  /** The step of `PercentBytesOfEscapes`: from the bytes after the first to all of them. */
  lemma EscapesStep(bs: seq<Byte>, rest: string)
    requires |bs| > 0
    requires PercentBytes(rest).None? ==> PercentBytes(Escapes(bs[1..]) + rest).None?
    requires PercentBytes(rest).Some? ==> PercentBytes(Escapes(bs[1..]) + rest) == Some(bs[1..] + PercentBytes(rest).value)
    ensures PercentBytes(rest).None? ==> PercentBytes(Escapes(bs) + rest).None?
    ensures PercentBytes(rest).Some? ==> PercentBytes(Escapes(bs) + rest) == Some(bs + PercentBytes(rest).value)
  {
    var tail := Escapes(bs[1..]) + rest;
    EscapesCons(bs, rest);
    PercentBytesOfEscape(bs[0], tail);
    if PercentBytes(rest).Some? {
      ConsAppend(bs, PercentBytes(rest).value);
    }
  }

  lemma EscapesCons(bs: seq<Byte>, rest: string)
    requires |bs| > 0
    ensures Escapes(bs) + rest == ['%', HexChar(bs[0] as int / 16), HexChar(bs[0] as int % 16)] + (Escapes(bs[1..]) + rest)
  {
    var h := ['%', HexChar(bs[0] as int / 16), HexChar(bs[0] as int % 16)];
    var e := Escapes(bs[1..]);
    assert Escapes(bs) == h + e;
    AppendAssoc(h, e, rest);
  }

  lemma AppendAssoc(a: string, b: string, c: string)
    ensures (a + b) + c == a + (b + c)
  {
  }

  lemma ConsAppend(bs: seq<Byte>, r: seq<Byte>)
    requires |bs| > 0
    ensures [bs[0]] + (bs[1..] + r) == bs + r
  {
    assert bs == [bs[0]] + bs[1..];
  }

  /** Reading one escape back gives its byte, followed by whatever the rest gives. */
  lemma PercentBytesOfEscape(b: Byte, tail: string)
    ensures PercentBytes(tail).None? ==> PercentBytes(['%', HexChar(b as int / 16), HexChar(b as int % 16)] + tail).None?
    ensures PercentBytes(tail).Some? ==>
              PercentBytes(['%', HexChar(b as int / 16), HexChar(b as int % 16)] + tail) == Some([b] + PercentBytes(tail).value)
  {
    var t := ['%', HexChar(b as int / 16), HexChar(b as int % 16)] + tail;
    assert t[0] == '%' && t[1] == HexChar(b as int / 16) && t[2] == HexChar(b as int % 16);
    assert t[3..] == tail;
    assert (16 * HexDigitValue(t[1]) + HexDigitValue(t[2])) as Byte == b;
  }

  /**
   * The escaped text reads back as the text's UTF-8 bytes: nothing of the
   * text is lost by `encodeURIComponent`.
   */
  lemma {:induction false} EncodeThenReadBytes(s: string)
    ensures PercentBytes(EncodeUriComponent(s)) == Some(Utf8(s))
    decreases |s|
  {
    if |s| > 0 {
      var rest := EncodeUriComponent(s[1..]);
      EncodeThenReadBytes(s[1..]);
      if IsUnreserved(s[0]) {
        assert EncodeUriComponent(s) == [s[0]] + rest;
        assert ([s[0]] + rest)[1..] == rest;
      } else {
        assert EncodeUriComponent(s) == Escapes(Utf8Char(s[0])) + rest;
        PercentBytesOfEscapes(Utf8Char(s[0]), rest);
      }
    }
  }

  // ---------------------------------------------------------------- single-byte character sets

  /** Windows-1252's characters for the bytes 0x80 to 0x9F; from 0xA0 on it agrees with Latin-1. */
  const Cp1252Controls: seq<char> := [
      '\U{20AC}', '\U{0081}', '\U{201A}', '\U{0192}', '\U{201E}', '\U{2026}', '\U{2020}', '\U{2021}',
      '\U{02C6}', '\U{2030}', '\U{0160}', '\U{2039}', '\U{0152}', '\U{008D}', '\U{017D}', '\U{008F}',
      '\U{0090}', '\U{2018}', '\U{2019}', '\U{201C}', '\U{201D}', '\U{2022}', '\U{2013}', '\U{2014}',
      '\U{02DC}', '\U{2122}', '\U{0161}', '\U{203A}', '\U{0153}', '\U{009D}', '\U{017E}', '\U{0178}'
    ]

  /** A byte read as a Windows-1252 character. */
  function Cp1252Char(b: Byte): char {
    if 0x80 <= b < 0xA0 then Cp1252Controls[b as int - 0x80] else b as int as char
  }

  /** Bytes read one character per byte through Windows-1252. */
  function Cp1252Text(bs: seq<Byte>): (r: string)
    ensures |r| == |bs|
    ensures forall i :: 0 <= i < |bs| ==> r[i] == Cp1252Char(bs[i])
  {
    seq(|bs|, i requires 0 <= i < |bs| => Cp1252Char(bs[i]))
  }

  /**
   * Mac OS Roman's characters for the bytes 0x80 to 0xFF, sixteen to a row;
   * below 0x80 it is ASCII.
   */
  const MacRomanHigh: seq<seq<char>> := [
      ['\U{00C4}', '\U{00C5}', '\U{00C7}', '\U{00C9}', '\U{00D1}', '\U{00D6}', '\U{00DC}', '\U{00E1}', '\U{00E0}', '\U{00E2}', '\U{00E4}', '\U{00E3}', '\U{00E5}', '\U{00E7}', '\U{00E9}', '\U{00E8}'],
      ['\U{00EA}', '\U{00EB}', '\U{00ED}', '\U{00EC}', '\U{00EE}', '\U{00EF}', '\U{00F1}', '\U{00F3}', '\U{00F2}', '\U{00F4}', '\U{00F6}', '\U{00F5}', '\U{00FA}', '\U{00F9}', '\U{00FB}', '\U{00FC}'],
      ['\U{2020}', '\U{00B0}', '\U{00A2}', '\U{00A3}', '\U{00A7}', '\U{2022}', '\U{00B6}', '\U{00DF}', '\U{00AE}', '\U{00A9}', '\U{2122}', '\U{00B4}', '\U{00A8}', '\U{2260}', '\U{00C6}', '\U{00D8}'],
      ['\U{221E}', '\U{00B1}', '\U{2264}', '\U{2265}', '\U{00A5}', '\U{00B5}', '\U{2202}', '\U{2211}', '\U{220F}', '\U{03C0}', '\U{222B}', '\U{00AA}', '\U{00BA}', '\U{03A9}', '\U{00E6}', '\U{00F8}'],
      ['\U{00BF}', '\U{00A1}', '\U{00AC}', '\U{221A}', '\U{0192}', '\U{2248}', '\U{2206}', '\U{00AB}', '\U{00BB}', '\U{2026}', '\U{00A0}', '\U{00C0}', '\U{00C3}', '\U{00D5}', '\U{0152}', '\U{0153}'],
      ['\U{2013}', '\U{2014}', '\U{201C}', '\U{201D}', '\U{2018}', '\U{2019}', '\U{00F7}', '\U{25CA}', '\U{00FF}', '\U{0178}', '\U{2044}', '\U{20AC}', '\U{2039}', '\U{203A}', '\U{FB01}', '\U{FB02}'],
      ['\U{2021}', '\U{00B7}', '\U{201A}', '\U{201E}', '\U{2030}', '\U{00C2}', '\U{00CA}', '\U{00C1}', '\U{00CB}', '\U{00C8}', '\U{00CD}', '\U{00CE}', '\U{00CF}', '\U{00CC}', '\U{00D3}', '\U{00D4}'],
      ['\U{F8FF}', '\U{00D2}', '\U{00DA}', '\U{00DB}', '\U{00D9}', '\U{0131}', '\U{02C6}', '\U{02DC}', '\U{00AF}', '\U{02D8}', '\U{02D9}', '\U{02DA}', '\U{00B8}', '\U{02DD}', '\U{02DB}', '\U{02C7}']
    ]

  /** A byte read as a Mac OS Roman character. */
  function MacRomanChar(b: Byte): char {
    if b < 0x80 then b as int as char else MacRomanHigh[(b as int - 0x80) / 16][(b as int - 0x80) % 16]
  }

  /** Bytes read one character per byte through Mac OS Roman. */
  function MacRomanText(bs: seq<Byte>): (r: string)
    ensures |r| == |bs|
    ensures forall i :: 0 <= i < |bs| ==> r[i] == MacRomanChar(bs[i])
  {
    seq(|bs|, i requires 0 <= i < |bs| => MacRomanChar(bs[i]))
  }

  /**
   * Misreading UTF-8 through a single-byte character set turns every
   * character beyond ASCII into several characters, so a text holding one
   * is never read back as itself.
   */
  lemma MisreadChangesText(c: char)
    requires c as int >= 0x80
    ensures Cp1252Text(Utf8([c])) != [c] && MacRomanText(Utf8([c])) != [c]
  {
    assert Utf8([c]) == Utf8Char(c) + Utf8([]);
  }
}
