/** src/lib/print.c:7-51: rendering a 32-bit number in base 2, 10 or 16. */
module Numbers {
  import opened Bits
  import opened Strings

  type Int32 = x: int | -0x8000_0000 <= x < 0x8000_0000

  const INT_MIN: int := -0x8000_0000
  const MAXIMUM_BINARY_LENGTH: nat := 64
  const HEX_DIGITS: string := "0123456789ABCDEF"

  predicate Base(base: nat) {
    base == 2 || base == 10 || base == 16
  }

  /** The value of an `int` read as `unsigned`. */
  function Unsigned(x: Int32): (u: nat)
    ensures u < 0x1_0000_0000 && u == x % 0x1_0000_0000
  {
    if x >= 0 then x else x + 0x1_0000_0000
  }

  function Digit(d: nat): char
    requires d < 16
  {
    HEX_DIGITS[d]
  }

  /** A number in positional notation, without leading zeros. */
  function Digits(n: nat, base: nat): (s: string)
    requires Base(base)
    ensures s != ""
    decreases n
  {
    if n < base then [Digit(n)] else Digits(n / base, base) + [Digit(n % base)]
  }

  function Sign(number: Int32, isUnsigned: bool): string {
    if number < 0 && !isUnsigned then "-" else ""
  }

  function Prefix(base: nat): string {
    if base == 2 then "b" else if base == 16 then "0x" else ""
  }

  function Magnitude(number: Int32, isUnsigned: bool): nat {
    var n: int := number;
    if isUnsigned then Unsigned(number) else if n < 0 then -n else n
  }

  function Render(number: Int32, base: nat, isUnsigned: bool): string
    requires Base(base)
  {
    Sign(number, isUnsigned) + Prefix(base) + Digits(Magnitude(number, isUnsigned), base)
  }

  // ----- Reading a rendering back, independently of how it is written -----

  function DigitValue(c: char): nat {
    if '0' <= c <= '9' then c as int - '0' as int
    else if 'A' <= c <= 'F' then c as int - 'A' as int + 10
    else 0
  }

  function ParseDigits(s: string, base: nat): nat {
    if s == "" then 0 else ParseDigits(s[..|s| - 1], base) * base + DigitValue(s[|s| - 1])
  }

  predicate IsDigit(c: char, base: nat) {
    ('0' <= c <= '9' || 'A' <= c <= 'F') && DigitValue(c) < base
  }

  datatype Parsed = Number(value: int) | NotANumber

  function ParsePlain(s: string, base: nat): Parsed {
    if s != "" && forall i :: 0 <= i < |s| ==> IsDigit(s[i], base) then Number(ParseDigits(s, base)) else NotANumber
  }

  /** "b" announces binary digits and "0x" hexadecimal ones. */
  function ParseMagnitude(s: string, base: nat): Parsed {
    if base == 2 then (if s != "" && s[0] == 'b' then ParsePlain(s[1..], base) else NotANumber)
    else if base == 16 then
      (if |s| >= 2 && s[0] == '0' && s[1] == 'x' then ParsePlain(s[2..], base) else NotANumber)
    else ParsePlain(s, base)
  }

  function Parse(s: string, base: nat): Parsed {
    if s != "" && s[0] == '-' then
      match ParseMagnitude(s[1..], base)
      case Number(n) => Number(-n)
      case NotANumber => NotANumber
    else ParseMagnitude(s, base)
  }

  lemma DigitRoundTrip(d: nat)
    requires d < 16
    ensures DigitValue(Digit(d)) == d
    ensures forall base: nat :: IsDigit(Digit(d), base) <==> d < base
    ensures Digit(d) == '0' <==> d == 0
    ensures Digit(d) != '-' && Digit(d) != NUL
  {
  }

  lemma {:induction false} DigitsRoundTrip(n: nat, base: nat)
    requires Base(base)
    ensures ParseDigits(Digits(n, base), base) == n
    ensures forall i :: 0 <= i < |Digits(n, base)| ==> IsDigit(Digits(n, base)[i], base)
    decreases n
  {
    hide IsDigit;
    if n < base {
      DigitRoundTrip(n);
      assert Digits(n, base)[..0] == "";
    } else {
      var front := Digits(n / base, base);
      DigitsRoundTrip(n / base, base);
      DigitRoundTrip(n % base);
      assert (front + [Digit(n % base)])[..|front|] == front;
      assert base * (n / base) + n % base == n;
    }
  }

  /** No leading zero, no sign and no terminator among the digits. */
  lemma {:induction false} DigitsShape(n: nat, base: nat)
    requires Base(base)
    ensures Digits(n, base)[0] == '0' <==> n == 0
    ensures Digits(n, base)[0] != '-'
    ensures Text(Digits(n, base))
    decreases n
  {
    if n < base {
      DigitRoundTrip(n);
    } else {
      DigitsShape(n / base, base);
      DigitRoundTrip(n % base);
    }
  }

  lemma ParsePlainOfDigits(n: nat, base: nat)
    requires Base(base)
    ensures ParsePlain(Digits(n, base), base) == Number(n)
  {
    hide Digits, ParseDigits, IsDigit;
    DigitsRoundTrip(n, base);
  }

  lemma ParseMagnitudeOfDigits(n: nat, base: nat)
    requires Base(base)
    ensures ParseMagnitude(Prefix(base) + Digits(n, base), base) == Number(n)
    ensures (Prefix(base) + Digits(n, base))[0] != '-'
  {
    hide Digits, ParsePlain;
    ParsePlainOfDigits(n, base);
    DigitsShape(n, base);
    assert (Prefix(base) + Digits(n, base))[|Prefix(base)|..] == Digits(n, base);
  }

  /** Parsing what was rendered gives the number back, modulo 2^32 in unsigned mode. */
  lemma ParseOfRender(number: Int32, base: nat, isUnsigned: bool)
    requires Base(base)
    ensures Parse(Render(number, base, isUnsigned), base) == Number(if isUnsigned then Unsigned(number) else number)
  {
    hide Digits, ParseMagnitude, Prefix;
    var n := Magnitude(number, isUnsigned);
    ParseMagnitudeOfDigits(n, base);
    var unsignedPart := Prefix(base) + Digits(n, base);
    var s := Render(number, base, isUnsigned);
    if Sign(number, isUnsigned) == "-" {
      assert s[1..] == unsignedPart;
    } else {
      assert s == unsignedPart;
    }
  }

  /** Distinct numbers have distinct renderings. */
  lemma RenderIsInjective(a: Int32, b: Int32, base: nat, isUnsigned: bool)
    requires Base(base)
    requires Render(a, base, isUnsigned) == Render(b, base, isUnsigned)
    ensures a == b
  {
    hide Render, Parse;
    ParseOfRender(a, base, isUnsigned);
    ParseOfRender(b, base, isUnsigned);
  }

  lemma RenderIsText(number: Int32, base: nat, isUnsigned: bool)
    requires Base(base)
    ensures Text(Render(number, base, isUnsigned))
  {
    DigitsShape(Magnitude(number, isUnsigned), base);
  }

  // ----- The fixed-width digit buffer -----

  /** The last `k` digits of `v`, leading zeros included. */
  function Padded(v: nat, base: nat, k: nat): (s: string)
    requires Base(base)
    ensures |s| == k
    decreases k
  {
    if k == 0 then "" else Padded(v / base, base, k - 1) + [Digit(v % base)]
  }

  function Zeros(k: nat): (s: string)
    ensures |s| == k && forall i :: 0 <= i < k ==> s[i] == '0'
  {
    seq(k, _ => '0')
  }

  lemma {:induction false} PaddedZero(base: nat, k: nat)
    requires Base(base)
    ensures Padded(0, base, k) == Zeros(k)
  {
    if k > 0 {
      PaddedZero(base, k - 1);
    }
  }

  lemma ShorterQuotient(v: nat, base: nat, k: nat)
    requires Base(base) && base <= v < Pow2(k)
    ensures k > 1 && v / base < Pow2(k - 1)
  {
    assert v < 2 * Pow2(k - 1);
    assert v / base <= v / 2;
  }

  /** Padding puts zeros before the digits when they fit. */
  lemma {:induction false} PaddedIsZerosAndDigits(v: nat, base: nat, k: nat)
    requires Base(base) && 0 < k && v < Pow2(k)
    ensures |Digits(v, base)| <= k
    ensures Padded(v, base, k) == Zeros(k - |Digits(v, base)|) + Digits(v, base)
    decreases k
  {
    hide Pow2;
    if v < base {
      assert v / base == 0 && v % base == v;
      PaddedZero(base, k - 1);
    } else {
      ShorterQuotient(v, base, k);
      PaddedIsZerosAndDigits(v / base, base, k - 1);
      assert Padded(v, base, k) == Padded(v / base, base, k - 1) + [Digit(v % base)];
    }
  }

  // ----- The code -----

  /**
   Negating INT_MIN overflows in C, so a signed number must not be it. Returns the position after
   sign and prefix, and the number that is left to render.
   */
  method AddNumberPrefix(str: array<char>, at: nat, number: Int32, base: nat, isUnsigned: bool)
    returns (next: nat, left: Int32)
    requires isUnsigned || number != INT_MIN
    requires at + |Sign(number, isUnsigned)| + |Prefix(base)| < str.Length
    modifies str
    ensures next == at + |Sign(number, isUnsigned)| + |Prefix(base)|
    ensures Unsigned(left) == Magnitude(number, isUnsigned)
    ensures Extended(old(str[..]), str[..], at, Sign(number, isUnsigned) + Prefix(base))
  {
    hide Extended, CString, Terminated, Sign, Magnitude, Unsigned;
    next, left := AddSign(str, at, number, isUnsigned);
    ghost var signed := str[..];
    if base == 2 {
      LiteralIsCString("b");
      next := Append(str, next, "b" + [NUL], 0, "b");
    } else if base == 16 {
      LiteralIsCString("0x");
      next := Append(str, next, "0x" + [NUL], 0, "0x");
    } else {
      NothingWritten(str[..], next);
    }
    ExtendedTwice(old(str[..]), signed, str[..], at, Sign(number, isUnsigned), Prefix(base));
  }

  /** Lines 11-16. */
  method AddSign(str: array<char>, at: nat, number: Int32, isUnsigned: bool)
    returns (next: nat, left: Int32)
    requires isUnsigned || number != INT_MIN
    requires at + |Sign(number, isUnsigned)| < str.Length
    modifies str
    ensures next == at + |Sign(number, isUnsigned)|
    ensures Unsigned(left) == Magnitude(number, isUnsigned)
    ensures Extended(old(str[..]), str[..], at, Sign(number, isUnsigned))
  {
    next, left := at, number;
    if left < 0 && !isUnsigned {
      left := left * -1;
      str[next] := '-';
      next := next + 1;
    }
  }

  /** The loop of line 41: all 64 digits, least significant last. */
  method FillDigits(numberBuffer: array<char>, number: Int32, base: nat)
    requires Base(base) && numberBuffer.Length == MAXIMUM_BINARY_LENGTH + 1
    modifies numberBuffer
    ensures numberBuffer[..MAXIMUM_BINARY_LENGTH] == Padded(Unsigned(number), base, MAXIMUM_BINARY_LENGTH)
    ensures numberBuffer[MAXIMUM_BINARY_LENGTH] == old(numberBuffer[MAXIMUM_BINARY_LENGTH])
  {
    hide Padded, Digit;
    var value: Int32 := number;
    var i: int := MAXIMUM_BINARY_LENGTH - 1;
    PaddedNone(Unsigned(value), base);
    while i >= 0
      invariant -1 <= i < MAXIMUM_BINARY_LENGTH
      invariant Padded(Unsigned(number), base, MAXIMUM_BINARY_LENGTH)
             == Padded(Unsigned(value), base, i + 1) + numberBuffer[i + 1..MAXIMUM_BINARY_LENGTH]
      invariant numberBuffer[MAXIMUM_BINARY_LENGTH] == old(numberBuffer[MAXIMUM_BINARY_LENGTH])
    {
      ghost var done := numberBuffer[i + 1..MAXIMUM_BINARY_LENGTH];
      HalvedFits(value, base);
      PaddedStep(Unsigned(value), base, i + 1);
      numberBuffer[i] := HEX_DIGITS[Unsigned(value) % base];
      assert numberBuffer[i..MAXIMUM_BINARY_LENGTH] == [numberBuffer[i]] + done;
      value := Unsigned(value) / base;
      i := i - 1;
    }
  }

  lemma PaddedNone(v: nat, base: nat)
    requires Base(base)
    ensures Padded(v, base, 0) == ""
  {
  }

  lemma PaddedStep(v: nat, base: nat, k: nat)
    requires Base(base) && k > 0
    ensures v % base < 16
    ensures Padded(v, base, k) == Padded(v / base, base, k - 1) + [HEX_DIGITS[v % base]]
  {
  }

  lemma HalvedFits(value: Int32, base: nat)
    requires Base(base)
    ensures 0 <= Unsigned(value) / base < 0x8000_0000
    ensures Unsigned(value) % base < 16
  {
  }

  method SprintInteger(str: array<char>, at: nat, number: Int32, base: nat, isUnsigned: bool)
    requires Base(base)
    requires isUnsigned || number != INT_MIN
    requires at + |Render(number, base, isUnsigned)| < str.Length
    modifies str
    ensures Appended(old(str[..]), str[..], at, Render(number, base, isUnsigned))
  {
    hide Digits, CString, Extended, Padded;
    ghost var start := str[..];
    var numberBuffer := new char[MAXIMUM_BINARY_LENGTH + 1];
    numberBuffer[MAXIMUM_BINARY_LENGTH] := NUL;

    var next, value := AddNumberPrefix(str, at, number, base, isUnsigned);
    ghost var prefixed := str[..];
    FillDigits(numberBuffer, value, base);
    CopyDigits(str, next, number, numberBuffer, Unsigned(value), base);
    ExtendedTwice(start, prefixed, str[..], at, Sign(number, isUnsigned) + Prefix(base), Digits(Unsigned(value), base));
  }

  /** The last step: a lone zero, or the digits past the leading zeros of the buffer. */
  method CopyDigits(str: array<char>, next: nat, number: Int32, numberBuffer: array<char>,
                    ghost n: nat, ghost base: nat)
    requires Base(base) && n < 0x1_0000_0000 && (number == 0 <==> n == 0)
    requires numberBuffer != str && numberBuffer.Length == MAXIMUM_BINARY_LENGTH + 1
    requires numberBuffer[..MAXIMUM_BINARY_LENGTH] == Padded(n, base, MAXIMUM_BINARY_LENGTH)
    requires numberBuffer[MAXIMUM_BINARY_LENGTH] == NUL
    requires next + |Digits(n, base)| < str.Length
    modifies str
    ensures Appended(old(str[..]), str[..], next, Digits(n, base))
  {
    hide Digits, CString, Extended, Padded;
    if number == 0 {
      ZeroDigits(base);
      LiteralIsCString("0");
      Copy(str, next, "0" + [NUL], 0, "0");
    } else {
      var first := GetStart(numberBuffer, n, base);
      Copy(str, next, numberBuffer[..], first, Digits(n, base));
    }
  }

  lemma ZeroDigits(base: nat)
    requires Base(base)
    ensures Digits(0, base) == "0"
  {
  }

  /** Skipping the zeros of a filled buffer leaves the digits of a positive number. */
  method GetStart(numberBuffer: array<char>, ghost n: nat, ghost base: nat) returns (start: nat)
    requires Base(base) && 0 < n < 0x1_0000_0000
    requires numberBuffer.Length == MAXIMUM_BINARY_LENGTH + 1
    requires numberBuffer[..MAXIMUM_BINARY_LENGTH] == Padded(n, base, MAXIMUM_BINARY_LENGTH)
    requires numberBuffer[MAXIMUM_BINARY_LENGTH] == NUL
    ensures Terminated(numberBuffer[..], start)
    ensures CString(numberBuffer[..], start) == Digits(n, base)
  {
    hide Digits, CString, Padded;
    ghost var skip := 64 - |Digits(n, base)|;
    SixtyFourDigits(n, base);
    DigitsShape(n, base);
    assert numberBuffer[..][64] == NUL;
    assert Terminated(numberBuffer[..], 0) by { assert numberBuffer[..][0..][64] == NUL; }
    start := GetNumberStart(numberBuffer, 0);
    assert forall k :: 0 <= k < skip ==> numberBuffer[k] == numberBuffer[..64][k] == Zeros(skip)[k];
    assert numberBuffer[skip] == numberBuffer[..64][skip] == Digits(n, base)[0];
    assert numberBuffer[..][skip..64] == Digits(n, base);
    CStringUpTo(numberBuffer[..], skip, 64 - skip);
  }

  lemma SixtyFourDigits(n: nat, base: nat)
    requires Base(base) && n < 0x1_0000_0000
    ensures |Digits(n, base)| <= 64
    ensures Padded(n, base, 64) == Zeros(64 - |Digits(n, base)|) + Digits(n, base)
  {
    hide Digits, Padded;
    assert Pow2(8) == 0x100;
    assert Pow2(16) == 0x1_0000;
    assert Pow2(24) == 0x100_0000;
    assert Pow2(32) == 0x1_0000_0000;
    PowersGrow(32, 64);
    PaddedIsZerosAndDigits(n, base, 64);
  }

  lemma {:induction false} PowersGrow(a: nat, b: nat)
    requires a <= b
    ensures Pow2(a) <= Pow2(b)
  {
    if a < b { PowersGrow(a, b - 1); }
  }
}
