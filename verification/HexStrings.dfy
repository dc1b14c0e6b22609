/** StringsUpgradeable: hexadecimal text of numbers, and the same text as the JavaScript BigNumber makes it. */
module HexStrings {
  import opened Evm

  const ZERO: Byte := 0x30   // '0'
  const X: Byte := 0x78      // 'x'
  const MINUS: Byte := 0x2D  // '-'

  const LENGTH_INSUFFICIENT := "Strings: hex length insufficient"

  function Digit(d: nat): Byte
    requires d < 16
  {
    if d < 10 then 0x30 + d else 0x57 + d
  }

  /** The last `k` hexadecimal digits of `v`, most significant first. */
  function Digits(v: nat, k: nat): (s: Bytes)
    ensures |s| == k
  {
    if k == 0 then [] else Digits(v / 16, k - 1) + [Digit(v % 16)]
  }

  /** `v >> 4 * k` */
  function Shift(v: nat, k: nat): nat {
    if k == 0 then v else Shift(v / 16, k - 1)
  }

  /** The number of bytes that follow the first one. */
  function Log256(v: nat): nat {
    if v < 0x100 then 0 else 1 + Log256(v / 0x100)
  }

  function Fixed(v: nat, length: nat): Outcome<Bytes> {
    if Shift(v, 2 * length) == 0 then Ok([ZERO, X] + Digits(v, 2 * length)) else Revert(LENGTH_INSUFFICIENT)
  }

  function Unsigned(v: nat): Outcome<Bytes> {
    Fixed(v, Log256(v) + 1)
  }

  function Abs(v: int): nat {
    if v < 0 then -v else v
  }

  /** The text of a number: what `toHexString` returns, as `UnsignedNeverReverts` shows. */
  function Hex(v: int): Bytes {
    (if v < 0 then [MINUS] else []) + [ZERO, X] + Digits(Abs(v), 2 * (Log256(Abs(v)) + 1))
  }

  // ----- parsing

  function DigitValue(c: int): int {
    if 0x30 <= c <= 0x39 then c - 0x30
    else if 0x61 <= c <= 0x66 then c - 0x57
    else if 0x41 <= c <= 0x46 then c - 0x37
    else -1
  }

  predicate IsHexDigit(c: int) {
    DigitValue(c) >= 0
  }

  predicate AllHex(s: seq<int>) {
    forall i :: 0 <= i < |s| ==> IsHexDigit(s[i])
  }

  function Value(s: seq<int>): nat
    requires AllHex(s)
  {
    if s == [] then 0 else Value(s[..|s| - 1]) * 16 + DigitValue(s[|s| - 1])
  }

  datatype Option<+T> = None | Some(value: T)

  predicate AllDecimal(s: seq<int>) {
    forall i :: 0 <= i < |s| ==> 0x30 <= s[i] <= 0x39
  }

  function DecimalValue(s: seq<int>): nat
    requires AllDecimal(s)
  {
    if s == [] then 0 else DecimalValue(s[..|s| - 1]) * 10 + (s[|s| - 1] - 0x30)
  }

  function ParseMagnitude(s: seq<int>): Option<nat> {
    if |s| > 2 && s[0] == ZERO && s[1] == X && AllHex(s[2..]) then Some(Value(s[2..]))
    else if s != [] && AllDecimal(s) then Some(DecimalValue(s))
    else None
  }

  /** `BigNumber.from` on text, hexadecimal with its prefix or decimal without one. */
  function Parse(s: seq<int>): Option<int> {
    if s != [] && s[0] == MINUS then
      match ParseMagnitude(s[1..])
      case None => None
      case Some(v) => var magnitude: int := v; Some(-magnitude)
    else
      match ParseMagnitude(s)
      case None => None
      case Some(v) => Some(v)
  }

  lemma {:induction false} DigitsValue(v: nat, k: nat)
    requires Shift(v, k) == 0
    ensures AllHex(Digits(v, k)) && Value(Digits(v, k)) == v
  {
    if k > 0 {
      DigitsValue(v / 16, k - 1);
      assert Digits(v, k)[..k - 1] == Digits(v / 16, k - 1);
    }
  }

  lemma ShiftTwice(v: nat, k: nat)
    ensures Shift(v, k + 2) == Shift(v / 0x100, k)
  {
    assert v / 16 / 16 == v / 0x100;
    assert Shift(v, k + 2) == Shift(v / 16, k + 1) == Shift(v / 16 / 16, k);
  }

  /** `log256 + 1` bytes are enough for every number, and the fewest that are. */
  lemma {:induction false} LengthMinimal(v: nat, length: nat)
    ensures Shift(v, 2 * length) == 0 <==> length > Log256(v) || v == 0
  {
    if length == 0 {
    } else {
      ShiftTwice(v, 2 * length - 2);
      LengthMinimal(v / 0x100, length - 1);
    }
  }

  /** The length check of `toHexString(uint256)` never trips. */
  lemma UnsignedNeverReverts(v: nat)
    ensures Unsigned(v) == Ok(Hex(v))
  {
    LengthMinimal(v, Log256(v) + 1);
    assert [] + [ZERO, X] + Digits(v, 2 * (Log256(v) + 1)) == [ZERO, X] + Digits(v, 2 * (Log256(v) + 1));
  }

  /** A fixed length is refused exactly if it is shorter than the minimal one. */
  lemma FixedReverts(v: nat, length: nat)
    ensures Fixed(v, length) == Revert(LENGTH_INSUFFICIENT) <==> v != 0 && length <= Log256(v)
  {
    LengthMinimal(v, length);
  }

  lemma MagnitudeParses(v: nat)
    ensures ParseMagnitude(Hex(v)) == Some(v)
  {
    var digits := Digits(v, 2 * (Log256(v) + 1));
    LengthMinimal(v, Log256(v) + 1);
    DigitsValue(v, 2 * (Log256(v) + 1));
    assert Hex(v) == [ZERO, X] + digits;
    assert Hex(v)[2..] == digits;
  }

  /** The text parses back to the signed number it was made from. */
  lemma HexParses(v: int)
    ensures Parse(Hex(v)) == Some(v)
  {
    MagnitudeParses(Abs(v));
    assert Hex(Abs(v)) == [ZERO, X] + Digits(Abs(v), 2 * (Log256(Abs(v)) + 1));
    if v < 0 {
      assert Hex(v) == [MINUS] + Hex(Abs(v));
      assert Hex(v)[1..] == Hex(Abs(v));
    } else {
      assert Hex(v)[0] == ZERO;
    }
  }

  // ----- the JavaScript side

  /** BN.toString(16): no leading zeros, but one digit at least. */
  function MinimalDigits(v: nat): (s: Bytes)
    ensures s != []
  {
    if v < 16 then [Digit(v)] else MinimalDigits(v / 16) + [Digit(v % 16)]
  }

  /** BigNumber.toHexString: sign, prefix, and a leading zero where the length would be odd. */
  function BigNumberHex(v: int): Bytes {
    (if v < 0 then [MINUS] else []) + [ZERO, X] + Padded(MinimalDigits(Abs(v)))
  }

  /** The two digits of the last byte. */
  function LastByte(v: nat): Bytes {
    [Digit(v / 16 % 16), Digit(v % 16)]
  }

  lemma DigitsByByte(v: nat, k: nat)
    ensures Digits(v, k + 2) == Digits(v / 0x100, k) + LastByte(v)
  {
    assert v / 16 / 16 == v / 0x100;
    assert Digits(v, k + 2) == Digits(v / 16, k + 1) + [Digit(v % 16)];
  }

  lemma MinimalByByte(v: nat)
    requires v >= 0x100
    ensures MinimalDigits(v) == MinimalDigits(v / 0x100) + LastByte(v)
  {
    assert v / 16 / 16 == v / 0x100;
    assert MinimalDigits(v) == MinimalDigits(v / 16) + [Digit(v % 16)];
    assert MinimalDigits(v / 16) == MinimalDigits(v / 16 / 16) + [Digit(v / 16 % 16)];
  }

  function Padded(digits: Bytes): Bytes {
    (if |digits| % 2 == 1 then [ZERO] else []) + digits
  }

  lemma {:induction false} MinimalPadded(v: nat)
    ensures Padded(MinimalDigits(v)) == Digits(v, 2 * (Log256(v) + 1))
  {
    DigitsByByte(v, 2 * Log256(v));
    if v >= 0x100 {
      MinimalPadded(v / 0x100);
      MinimalByByte(v);
      assert Padded(MinimalDigits(v)) == Padded(MinimalDigits(v / 0x100)) + LastByte(v);
    } else if v >= 16 {
      assert MinimalDigits(v) == [Digit(v / 16)] + [Digit(v % 16)];
    }
  }

  /** Solidity and JavaScript write every number the same way. */
  lemma SameText(v: int)
    ensures BigNumberHex(v) == Hex(v)
  {
    MinimalPadded(Abs(v));
  }

  // ----- the contract's loop

  lemma {:induction false} DigitsFromTop(v: nat, k: nat)
    ensures Digits(v, k + 1) == [Digit(Shift(v, k) % 16)] + Digits(v, k)
    ensures Shift(v, k + 1) == Shift(v, k) / 16
  {
    if k > 0 {
      DigitsFromTop(v / 16, k - 1);
    }
  }

  /** `toHexString(uint256,uint256)`: fill the buffer from its end. */
  method ToHexStringFixed(v: Uint256, length: nat) returns (r: Outcome<Bytes>)
    ensures r == Fixed(v, length)
  {
    var buffer := new Byte[2 * length + 2](_ => 0);
    buffer[0], buffer[1] := ZERO, X;
    var value: nat := v;
    var i := 2 * length + 1;
    while i > 1
      invariant 1 <= i <= 2 * length + 1
      invariant value == Shift(v, 2 * length + 1 - i)
      invariant buffer[..2] == [ZERO, X]
      invariant buffer[i + 1..] == Digits(v, 2 * length + 1 - i)
    {
      DigitsFromTop(v, 2 * length + 1 - i);
      buffer[i] := Digit(value % 16);
      value := value / 16;
      i := i - 1;
      assert buffer[i + 1..] == [buffer[i + 1]] + buffer[i + 2..];
    }
    if value != 0 {
      return Revert(LENGTH_INSUFFICIENT);
    }
    assert buffer[..] == buffer[..2] + buffer[2..];
    return Ok(buffer[..]);
  }

  /** The overload for unsigned numbers. */
  method ToHexString(v: Uint256) returns (s: Bytes)
    ensures s == Hex(v)
  {
    UnsignedNeverReverts(v);
    var r := ToHexStringFixed(v, Log256(v) + 1);
    s := r.value;
  }

  /** The overload for signed numbers. */
  method ToHexStringSigned(v: Int256) returns (s: Bytes)
    ensures s == Hex(v)
  {
    var magnitude := ToHexString(Abs(v));
    assert Hex(Abs(v)) == [ZERO, X] + Digits(Abs(v), 2 * (Log256(Abs(v)) + 1));
    assert Hex(v) == (if v < 0 then [MINUS] else []) + Hex(Abs(v));
    s := (if v < 0 then [MINUS] else []) + magnitude;
  }
}
