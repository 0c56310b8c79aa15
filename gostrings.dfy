/** Go byte strings and the few operations of Go's `strings` and `fmt`
    packages that the dashboard uses.

    A Go `string` is a sequence of bytes: `len(s)` counts bytes and `s[i:j]`
    slices bytes. The model therefore works on sequences of byte values. */
module GoStrings {
  import opened Wrappers

  type Byte = b: int | 0 <= b < 256
  type Bytes = seq<Byte>

  const Space: Byte := 32
  const Minus: Byte := 45
  const Zero: Byte := 48

  /** The bytes of a literal; every literal this model uses is ASCII. */
  function Ascii(s: string): Bytes
  {
    seq(|s|, i requires 0 <= i < |s| => (s[i] as int) % 256)
  }

  /** Lower-casing of one byte: ASCII `A`..`Z` become `a`..`z`. */
  function LowerByte(b: Byte): Byte
  {
    if 65 <= b <= 90 then b + 32 else b
  }

  /** `strings.ToLower` on the ASCII letters of `s`. */
  function ToLower(s: Bytes): (r: Bytes)
    ensures |r| == |s|
  {
    seq(|s|, i requires 0 <= i < |s| => LowerByte(s[i]))
  }

  /** `strings.HasPrefix`. */
  predicate HasPrefix(s: Bytes, prefix: Bytes)
  {
    |prefix| <= |s| && s[..|prefix|] == prefix
  }

  /** `strings.HasSuffix`. */
  predicate HasSuffix(s: Bytes, suffix: Bytes)
  {
    |suffix| <= |s| && s[|s| - |suffix|..] == suffix
  }

  /** `strings.Repeat(" ", n)` for a count Go accepts (a negative count panics). */
  function Spaces(n: nat): (r: Bytes)
    ensures |r| == n
  {
    seq(n, _ => Space)
  }

  /** `s` with every trailing space removed. */
  function TrimTrailingSpaces(s: Bytes): (r: Bytes)
    ensures |r| <= |s| && r == s[..|r|]
    ensures r == [] || r[|r| - 1] != Space
    ensures forall i :: |r| <= i < |s| ==> s[i] == Space
  {
    if |s| > 0 && s[|s| - 1] == Space then TrimTrailingSpaces(s[..|s| - 1]) else s
  }

  predicate IsDigit(b: Byte)
  {
    Zero <= b < Zero + 10
  }

  /** The decimal digits of `n`, most significant first. */
  function DigitsOf(n: nat): (r: Bytes)
    ensures |r| >= 1
    decreases n
  {
    if n < 10 then [Zero + n] else DigitsOf(n / 10) + [Zero + n % 10]
  }

  /** `fmt.Sprintf("%d", n)`: an optional minus sign followed by the digits of |n|. */
  function Decimal(n: int): (r: Bytes)
    ensures |r| >= 1
  {
    if n < 0 then [Minus] + DigitsOf(-n) else DigitsOf(n)
  }

  /** The digits of a number are decimal digits with no leading zero. */
  lemma {:induction false} DigitsOfChars(n: nat)
    ensures forall i :: 0 <= i < |DigitsOf(n)| ==> IsDigit(DigitsOf(n)[i])
    ensures DigitsOf(n)[0] == Zero ==> n == 0
    decreases n
  {
    if n >= 10 {
      DigitsOfChars(n / 10);
    }
  }

  /** `%d` writes a minus sign exactly for negative numbers, and digits
      everywhere else. */
  lemma DecimalChars(n: int)
    ensures Decimal(n)[0] == Minus <==> n < 0
    ensures forall i :: 0 <= i < |Decimal(n)| ==> IsDigit(Decimal(n)[i]) || (i == 0 && Decimal(n)[i] == Minus)
  {
    DigitsOfChars(if n < 0 then -n else n);
  }

  /** The value of a string of decimal digits. */
  function ParseDigits(s: Bytes): int
  {
    if s == [] then 0 else 10 * ParseDigits(s[..|s| - 1]) + (s[|s| - 1] - Zero)
  }

  /** The value of an optionally signed decimal numeral: the inverse of `Decimal`. */
  function ParseDecimal(s: Bytes): int
  {
    if |s| > 0 && s[0] == Minus then -ParseDigits(s[1..]) else ParseDigits(s)
  }

  lemma {:induction false} ParseDigitsOf(n: nat)
    ensures ParseDigits(DigitsOf(n)) == n
    decreases n
  {
    if n >= 10 {
      var d := DigitsOf(n);
      assert d[..|d| - 1] == DigitsOf(n / 10);
      ParseDigitsOf(n / 10);
    }
  }

  /** Formatting with `%d` loses nothing: the numeral reads back as `n`. */
  lemma DecimalRoundTrip(n: int)
    ensures ParseDecimal(Decimal(n)) == n
  {
    if n < 0 {
      assert Decimal(n)[1..] == DigitsOf(-n);
      ParseDigitsOf(-n);
    } else {
      DigitsOfChars(n);
      ParseDigitsOf(n);
    }
  }

  lemma DecimalInjective(a: int, b: int)
    requires Decimal(a) == Decimal(b)
    ensures a == b
  {
    DecimalRoundTrip(a);
    DecimalRoundTrip(b);
  }

  /** Go's conversion `string(b)` of a byte value `b`: the UTF-8 encoding of
      the code point `b` (one byte below 0x80, two bytes from 0x80 on). */
  function ByteToString(b: Byte): (r: Bytes)
    ensures |r| == 1 <==> b < 0x80
    ensures |r| == 1 || |r| == 2
    ensures b >= 0x80 ==> r[0] == 0xC2 || r[0] == 0xC3
  {
    if b < 0x80 then [b] else [0xC0 + b / 64, 0x80 + b % 64]
  }

  /** The code point of a string holding exactly one UTF-8 encoded rune of one
      or two bytes; `None` for anything else. */
  function DecodeShortRune(r: Bytes): Option<int>
  {
    if |r| == 1 && r[0] < 0x80 then Some(r[0] as int)
    else if |r| == 2 && 0xC2 <= r[0] < 0xE0 && 0x80 <= r[1] < 0xC0
    then Some((r[0] as int - 0xC0) * 64 + (r[1] as int - 0x80))
    else None
  }

  lemma ByteToStringRoundTrip(b: Byte)
    ensures DecodeShortRune(ByteToString(b)) == Some(b)
  {
  }
}
