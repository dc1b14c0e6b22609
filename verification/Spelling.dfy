/** The texts spelled out: which character stands where in a hexadecimal number, which bytes make up a code point. */
module Spelling {
  import opened Arithmetic
  import opened Evm
  import opened HexStrings
  import opened Packing
  import opened Serializer
  import opened Text

  const SYMBOLS := "0123456789abcdef"

  lemma DigitIsSymbol(d: nat)
    requires d < 16
    ensures Digit(d) == SYMBOLS[d] as int
  {
    assert SYMBOLS[..10] == "0123456789" && SYMBOLS[10..] == "abcdef";
    var codes: seq<int> := [0x30, 0x31, 0x32, 0x33, 0x34, 0x35, 0x36, 0x37, 0x38, 0x39, 0x61, 0x62, 0x63, 0x64, 0x65,
                            0x66];
    assert codes[d] == SYMBOLS[d] as int;
    assert codes[d] == Digit(d);
  }

  function Pow16(k: nat): nat {
    if k == 0 then 1 else 16 * Pow16(k - 1)
  }

  lemma {:induction false} Pow16Positive(k: nat)
    ensures Pow16(k) >= 1
  {
    if k > 0 {
      Pow16Positive(k - 1);
    }
  }

  lemma {:induction false} DivSixteen(v: nat, k: nat)
    ensures Pow16(k) > 0 && v / 16 / Pow16(k) == v / Pow16(k + 1)
  {
    Pow16Positive(k);
    var m, p := v / 16, Pow16(k);
    DivMod(m, p);
    DivNonNegative(m, p);
    assert v == (m / p) * (16 * p) + (m % p * 16 + v % 16) by {
      assert (m / p) * (16 * p) == (m / p) * p * 16;
    }
    assert m % p * 16 + v % 16 < 16 * p by {
      assert m % p + 1 <= p;
    }
    DivUnique(v, 16 * p, m / p, m % p * 16 + v % 16);
  }

  /** The digit at position `i` of `k` is the one of weight 16 to the power of `k - 1 - i`, in lower case. */
  lemma {:induction false} DigitsSpelled(v: nat, k: nat, i: nat)
    requires i < k
    ensures Pow16(k - 1 - i) > 0 && Digits(v, k)[i] == SYMBOLS[v / Pow16(k - 1 - i) % 16] as int
  {
    Pow16Positive(k - 1 - i);
    if i < k - 1 {
      DigitsSpelled(v / 16, k - 1, i);
      DivSixteen(v, k - 2 - i);
    } else {
      assert Pow16(0) == 1 && v / 1 == v;
      DigitIsSymbol(v % 16);
    }
  }

  /** The length in bytes is the least that holds the number. */
  lemma {:induction false} LeastLength(v: nat)
    ensures v < Pow256(Log256(v) + 1)
    ensures Log256(v) > 0 ==> v >= Pow256(Log256(v))
  {
    if v >= 0x100 {
      LeastLength(v / 0x100);
    } else {
      assert Pow256(1) == 0x100 * Pow256(0);
    }
  }

  /** The text of a number: a minus sign if it is negative, `0x`, and two lower-case digits for each byte of the
      magnitude, most significant first. */
  lemma HexSpelled(v: int, i: nat)
    requires i < 2 * (Log256(Abs(v)) + 1)
    ensures var sign, bytes := if v < 0 then 1 else 0, Log256(Abs(v)) + 1;
            && |Hex(v)| == sign + 2 + 2 * bytes
            && (v < 0 ==> Hex(v)[0] == '-' as int)
            && Hex(v)[sign] == '0' as int && Hex(v)[sign + 1] == 'x' as int
            && Pow16(2 * bytes - 1 - i) > 0
            && Hex(v)[sign + 2 + i] == SYMBOLS[Abs(v) / Pow16(2 * bytes - 1 - i) % 16] as int
            && Abs(v) < Pow256(bytes) && (bytes > 1 ==> Abs(v) >= Pow256(bytes - 1))
  {
    DigitsSpelled(Abs(v), 2 * (Log256(Abs(v)) + 1), i);
    LeastLength(Abs(v));
  }

  /** The text of a byte string: `0x`, and for each byte its high and its low digit in lower case. */
  lemma {:induction false} BytesSpelled(b: Bytes, i: nat)
    requires i < |b|
    ensures |HexBytes(b)| == 2 * |b|
    ensures HexBytes(b)[2 * i] == SYMBOLS[b[i] / 16] as int && HexBytes(b)[2 * i + 1] == SYMBOLS[b[i] % 16] as int
  {
    assert Digits(b[0], 2) == [Digit(b[0] / 16), Digit(b[0] % 16)] by {
      assert Digits(b[0] / 16, 1) == Digits(b[0] / 16 / 16, 0) + [Digit(b[0] / 16 % 16)];
    }
    DigitIsSymbol(b[0] / 16);
    DigitIsSymbol(b[0] % 16);
    if |b| > 1 {
      BytesSpelled(b[1..], if i > 0 then i - 1 else 0);
    }
  }

  lemma StrToHexSpelled(s: Str, i: nat)
    requires i < |Utf8(s)|
    ensures var h, b := StrToHex(s), Utf8(s);
            && |h| == 2 + 2 * |b| && h[0] == '0' as int && h[1] == 'x' as int
            && h[2 + 2 * i] == SYMBOLS[b[i] / 16] as int && h[3 + 2 * i] == SYMBOLS[b[i] % 16] as int
  {
    BytesSpelled(Utf8(s), i);
    var h, digits := StrToHex(s), HexBytes(Utf8(s));
    assert h[2 + 2 * i] == digits[2 * i] && h[3 + 2 * i] == digits[2 * i + 1];
  }

  // ----- numbers read from other texts than `toHexString` writes

  /** Digits count the same in either case. */
  lemma DigitsEitherCase(d: nat)
    requires d < 16
    ensures DigitValue(SYMBOLS[d] as int) == d && DigitValue("0123456789ABCDEF"[d] as int) == d
  {
    DigitIsSymbol(d);
    var codes: seq<int> := [0x30, 0x31, 0x32, 0x33, 0x34, 0x35, 0x36, 0x37, 0x38, 0x39, 0x41, 0x42, 0x43, 0x44, 0x45,
                            0x46];
    assert codes[d] == "0123456789ABCDEF"[d] as int;
  }

  function DecimalText(v: nat): seq<int> {
    (if v < 10 then [] else DecimalText(v / 10)) + [SYMBOLS[v % 10] as int]
  }

  lemma {:induction false} DecimalRead(v: nat)
    ensures AllDecimal(DecimalText(v)) && DecimalText(v) != [] && DecimalValue(DecimalText(v)) == v
  {
    DigitIsSymbol(v % 10);
    var first := if v < 10 then [] else DecimalText(v / 10);
    if v >= 10 {
      DecimalRead(v / 10);
    }
    DecimalStep(first, SYMBOLS[v % 10] as int);
  }

  lemma DecimalStep(first: seq<int>, last: int)
    requires AllDecimal(first) && 0x30 <= last <= 0x39
    ensures AllDecimal(first + [last]) && DecimalValue(first + [last]) == DecimalValue(first) * 10 + (last - 0x30)
  {
    assert (first + [last])[..|first|] == first;
  }

  /** Decimal text parses to the number it spells, with or without a minus sign. */
  lemma DecimalParses(v: nat)
    ensures Parse(DecimalText(v)) == Some(v) && Parse(['-' as int] + DecimalText(v)) == Some(-(v as int))
  {
    DecimalRead(v);
    var text := DecimalText(v);
    assert ['-' as int] + text != [] && (['-' as int] + text)[1..] == text;
    assert text[0] != '-' as int && (|text| > 1 ==> text[1] != 'x' as int);
    assert ParseMagnitude(text) == Some(v);
  }

  predicate Within(b: Byte, lo: int, hi: int) {
    lo <= b <= hi
  }

  /** How far a byte is past the first one of its kind. */
  function Past(b: Byte, first: int): int {
    b as int - first
  }

  /** The bytes of a code point, as in the table of section 3 of RFC 3629: a first byte that tells the length, then
      continuation bytes of six bits each. */
  lemma Utf8Spelled(c: CodePoint)
    ensures var b := EncodePoint(c);
            if c < 0x80 then b == [c]
            else if c < 0x800 then
              && |b| == 2 && Within(b[0], 0xC2, 0xDF) && Within(b[1], 0x80, 0xBF)
              && c == Past(b[0], 0xC0) * 0x40 + Past(b[1], 0x80)
            else if c < 0x1_0000 then
              && |b| == 3 && Within(b[0], 0xE0, 0xEF) && Within(b[1], 0x80, 0xBF) && Within(b[2], 0x80, 0xBF)
              && c == Past(b[0], 0xE0) * 0x1000 + Past(b[1], 0x80) * 0x40 + Past(b[2], 0x80)
            else
              && |b| == 4 && Within(b[0], 0xF0, 0xF4) && Within(b[1], 0x80, 0xBF)
              && Within(b[2], 0x80, 0xBF) && Within(b[3], 0x80, 0xBF)
              && c == Past(b[0], 0xF0) * 0x4_0000 + Past(b[1], 0x80) * 0x1000 + Past(b[2], 0x80) * 0x40
                   + Past(b[3], 0x80)
  {
    SixBits(c);
    SixBits(c / 64);
    SixBits(c / 64 / 64);
  }

  /** A string's bytes are those of its code points one behind the other, a lone surrogate counting as the
      replacement character, EF BF BD. */
  lemma {:induction false} Utf8Append(s: Str, c: CodePoint)
    ensures Utf8(s + [c]) == Utf8(s) + if 0xD800 <= c <= 0xDFFF then [0xEF, 0xBF, 0xBD] else EncodePoint(c)
  {
    if s == [] {
      assert s + [c] == [c] && [c][1..] == [];
    } else {
      assert (s + [c])[1..] == s[1..] + [c];
      Utf8Append(s[1..], c);
    }
  }

  // ----- the wire form of a report

  /** On the wire stream and storage ids are hexadecimal text of their bytes, all amounts hexadecimal text of the
      number, and everything else is as it was. */
  lemma WireSpelled(r: SystemReport<int>)
    ensures var w := Serialize(r);
            && w.id == r.id && w.height == r.height && w.treasury == Hex(r.treasury)
            && |w.streams| == |r.streams| && |w.consumers| == |r.consumers| && |w.nodes| == |r.nodes|
            && |w.delegates| == |r.delegates|
            && (forall i :: 0 <= i < |r.streams| ==>
                  w.streams[i] == Stream(StrToHex(r.streams[i].id), Hex(r.streams[i].capture), r.streams[i].bytes))
            && (forall i :: 0 <= i < |r.consumers| ==>
                  w.consumers[i] == Consumer(r.consumers[i].id, Hex(r.consumers[i].capture), r.consumers[i].bytes))
            && (forall i :: 0 <= i < |r.nodes| ==> w.nodes[i] == (r.nodes[i].0, Hex(r.nodes[i].1)))
            && (forall i :: 0 <= i < |r.delegates| ==>
                  && w.delegates[i].0 == r.delegates[i].0 && |w.delegates[i].1| == |r.delegates[i].1|
                  && forall j :: 0 <= j < |r.delegates[i].1| ==>
                       w.delegates[i].1[j] == (r.delegates[i].1[j].0, Hex(r.delegates[i].1[j].1)))
  {
    forall v: int ensures BigNumberHex(v) == Hex(v) {
      SameText(v);
    }
  }

  lemma WireEventsSpelled(r: SystemReport<int>)
    ensures Serialize(r).events.Some? <==> r.events.Some?
    ensures r.events.Some? ==>
              var e, w := r.events.value, Serialize(r).events.value;
              && w.queries == e.queries && |w.storage| == |e.storage|
              && forall i :: 0 <= i < |e.storage| ==>
                   w.storage[i] == StorageEvent(StrToHex(e.storage[i].id), e.storage[i].hash, e.storage[i].size)
  {
  }
}
