/** JavaScript text as the protocol package handles it: UTF-8 and the hexadecimal form of stream ids. */
module Text {
  import opened Evm
  import opened HexStrings

  type CodePoint = c: int | 0 <= c < 0x11_0000

  /** A JavaScript string, read as code points. A lone surrogate counts as one code point. (A sequence with a high
      and a low surrogate side by side is nobody's reading; what is proved holds of those as well.) */
  type Str = seq<CodePoint>

  const REPLACEMENT: CodePoint := 0xFFFD

  predicate IsSurrogate(c: CodePoint) {
    0xD800 <= c <= 0xDFFF
  }

  /** The string has a UTF-8 form of its own. */
  ghost predicate WellFormed(s: Str) {
    forall i :: 0 <= i < |s| ==> !IsSurrogate(s[i])
  }

  // ----- UTF-8 (section 3 of RFC 3629)

  function Tail(c: int): Byte {
    0x80 + c % 64
  }

  function EncodePoint(c: CodePoint): Bytes {
    if c < 0x80 then [c]
    else if c < 0x800 then [0xC0 + c / 64, Tail(c)]
    else if c < 0x1_0000 then [0xE0 + c / 0x1000, Tail(c / 64), Tail(c)]
    else [0xF0 + c / 0x4_0000, Tail(c / 0x1000), Tail(c / 64), Tail(c)]
  }

  /** What an encoder writes: a lone surrogate becomes the replacement character. */
  function Scalar(c: CodePoint): CodePoint {
    if IsSurrogate(c) then REPLACEMENT else c
  }

  function Utf8(s: Str): Bytes {
    if s == [] then [] else EncodePoint(Scalar(s[0])) + Utf8(s[1..])
  }

  predicate IsTail(b: Byte) {
    0x80 <= b <= 0xBF
  }

  /** The six payload bits of a continuation byte. */
  function Bits(b: Byte): int {
    b as int - 0x80
  }

  /** The first code point and the number of bytes it takes; `None` if the bytes are not valid UTF-8. */
  function DecodePoint(b: Bytes): Option<(CodePoint, nat)>
    ensures DecodePoint(b).Some? ==> 0 < DecodePoint(b).value.1 <= |b|
  {
    if b == [] then None
    else if b[0] < 0x80 then Some((b[0], 1))
    else if 0xC2 <= b[0] <= 0xDF && |b| >= 2 && IsTail(b[1]) then
      Some(((b[0] as int - 0xC0) * 64 + Bits(b[1]), 2))
    else if 0xE0 <= b[0] <= 0xEF && |b| >= 3 && IsTail(b[1]) && IsTail(b[2]) then
      var c := (b[0] as int - 0xE0) * 0x1000 + Bits(b[1]) * 64 + Bits(b[2]);
      if c < 0x800 || IsSurrogate(c) then None else Some((c, 3))
    else if 0xF0 <= b[0] <= 0xF4 && |b| >= 4 && IsTail(b[1]) && IsTail(b[2]) && IsTail(b[3]) then
      var c := (b[0] as int - 0xF0) * 0x4_0000 + Bits(b[1]) * 0x1000 + Bits(b[2]) * 64 + Bits(b[3]);
      if c < 0x1_0000 || c >= 0x11_0000 then None else Some((c, 4))
    else None
  }

  function FromUtf8(b: Bytes): Option<Str>
    decreases |b|
  {
    if b == [] then Some([]) else
    match DecodePoint(b)
    case None => None
    case Some((c, n)) =>
      match FromUtf8(b[n..])
      case None => None
      case Some(rest) => Some([c] + rest)
  }

  lemma SixBits(c: nat)
    ensures c == c / 64 * 64 + c % 64
    ensures c / 0x1000 == c / 64 / 64 && c / 0x4_0000 == c / 64 / 64 / 64
    ensures IsTail(Tail(c)) && Bits(Tail(c)) == c % 64
  {
  }

  lemma DecodeEncoded(c: CodePoint, rest: Bytes)
    requires !IsSurrogate(c)
    ensures DecodePoint(EncodePoint(c) + rest) == Some((c, |EncodePoint(c)|))
  {
    SixBits(c);
    SixBits(c / 64);
    SixBits(c / 64 / 64);
    var b := EncodePoint(c) + rest;
    if 0x80 <= c < 0x800 {
      assert b[0] == 0xC0 + c / 64 && b[1] == Tail(c);
    } else if 0x800 <= c < 0x1_0000 {
      assert b[0] == 0xE0 + c / 0x1000 && b[1] == Tail(c / 64) && b[2] == Tail(c);
    } else if c >= 0x1_0000 {
      assert b[0] == 0xF0 + c / 0x4_0000 && b[1] == Tail(c / 0x1000) && b[2] == Tail(c / 64) && b[3] == Tail(c);
    }
  }

  function Scalars(s: Str): Str {
    if s == [] then [] else [Scalar(s[0])] + Scalars(s[1..])
  }

  lemma {:induction false} Utf8RoundTrip(s: Str)
    ensures FromUtf8(Utf8(s)) == Some(Scalars(s))
  {
    if s != [] {
      var first := EncodePoint(Scalar(s[0]));
      DecodeEncoded(Scalar(s[0]), Utf8(s[1..]));
      assert (first + Utf8(s[1..]))[|first|..] == Utf8(s[1..]);
      Utf8RoundTrip(s[1..]);
    }
  }

  lemma {:induction false} ScalarsSame(s: Str)
    ensures Scalars(s) == s <==> WellFormed(s)
  {
    if s != [] {
      ScalarsSame(s[1..]);
      if Scalars(s) == s {
        assert Scalars(s)[1..] == s[1..] && Scalars(s)[0] == s[0];
        assert forall i :: 0 < i < |s| ==> s[i] == s[1..][i - 1];
      }
      if WellFormed(s) {
        assert WellFormed(s[1..]);
      }
    }
  }

  /** Plain ASCII text is its own encoding. */
  lemma {:induction false} AsciiUtf8(s: Bytes)
    requires forall i :: 0 <= i < |s| ==> s[i] < 0x80
    ensures Utf8(s) == s
  {
    if s != [] {
      AsciiUtf8(s[1..]);
      assert s == [s[0]] + s[1..];
    }
  }

  // ----- hex.ts

  function HexBytes(b: Bytes): Bytes {
    if b == [] then [] else Digits(b[0], 2) + HexBytes(b[1..])
  }

  /** `Buffer.from(s, 'hex')` stops at the first pair that is not hexadecimal. */
  function UnhexBytes(s: Str): Bytes {
    if |s| < 2 || !IsHexDigit(s[0]) || !IsHexDigit(s[1]) then []
    else [DigitValue(s[0]) * 16 + DigitValue(s[1])] + UnhexBytes(s[2..])
  }

  function StrToHex(s: Str): Str {
    [ZERO, X] + HexBytes(Utf8(s))
  }

  function HexToStr(h: Str): Option<Str> {
    FromUtf8(UnhexBytes(if |h| < 2 then [] else h[2..]))
  }

  lemma {:induction false} UnhexHex(b: Bytes)
    ensures UnhexBytes(HexBytes(b)) == b
  {
    if b != [] {
      UnhexHex(b[1..]);
      assert Digits(b[0], 2) == [Digit(b[0] / 16), Digit(b[0] % 16)] by {
        assert Digits(b[0] / 16, 1) == Digits(b[0] / 16 / 16, 0) + [Digit(b[0] / 16 % 16)];
      }
      assert HexBytes(b)[2..] == HexBytes(b[1..]);
    }
  }

  /** A string survives the trip through its hexadecimal form exactly if it holds no lone surrogate. */
  lemma HexRoundTrip(s: Str)
    ensures HexToStr(StrToHex(s)) == Some(Scalars(s))
    ensures HexToStr(StrToHex(s)) == Some(s) <==> WellFormed(s)
  {
    assert StrToHex(s)[2..] == HexBytes(Utf8(s));
    UnhexHex(Utf8(s));
    Utf8RoundTrip(s);
    ScalarsSame(s);
  }
}
