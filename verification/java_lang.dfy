/**
 Java values the applet integration passes around: UTF-16 strings, `null`,
 32-bit `int`s and exceptions, with the string conversions the Java
 language applies when they are concatenated into a `String`.
 */
module JavaLang {

  /** One UTF-16 code unit, the range of a Java `char`. */
  type CodeUnit = c: nat | c < 0x1_0000

  /** A Java `String`: a sequence of UTF-16 code units. */
  type Str = seq<CodeUnit>

  /** A Java reference that may be `null`. */
  datatype Option<+T> = None | Some(value: T)

  /** A call that either returns a value or throws. */
  datatype Result<+R> = Success(value: R) | Failure(error: JavaException)

  /** A thrown exception, reduced to what `Throwable.toString` prints. */
  datatype JavaException = JavaException(className: Str, message: Option<Str>)

  /** A Java `int`. */
  type Int32 = x: int | -0x8000_0000 <= x < 0x8000_0000

  const LF: CodeUnit := 10
  const SPACE: CodeUnit := 32
  const QUOTE: CodeUnit := 39
  const DQUOTE: CodeUnit := 34
  const BACKSLASH: CodeUnit := 92
  const COMMA: CodeUnit := 44
  const MINUS: CodeUnit := 45
  const RPAREN: CodeUnit := 41

  /**
   The Java `String` of a string literal: one code unit per character. Every
   literal of the applet integration is ASCII; a character outside the Basic
   Multilingual Plane would become U+FFFD here.
   */
  function Utf16(s: string): (r: Str)
    ensures |r| == |s|
  {
    seq(|s|, i requires 0 <= i < |s| => if s[i] as int < 0x1_0000 then s[i] as int else 0xFFFD)
  }

  /** The units of a concatenated literal are the units of its parts. */
  lemma Utf16Append(a: string, b: string)
    ensures Utf16(a + b) == Utf16(a) + Utf16(b)
  {
  }

  /** String conversion of a reference in `"" + x`: `null` prints as "null". */
  function Show(s: Option<Str>): (r: Str)
    ensures s.Some? ==> r == s.value
  {
    match s
    case None => Utf16("null")
    case Some(v) => v
  }

  /** `String.valueOf(boolean)`. */
  function BoolText(b: bool): Str
  {
    if b then Utf16("true") else Utf16("false")
  }

  /** `Throwable.toString`: the class name, then ": " and the message if there is one. */
  function ExceptionText(e: JavaException): (r: Str)
    ensures |r| >= |e.className|
  {
    match e.message
    case None => e.className
    case Some(m) => e.className + Utf16(": ") + m
  }

  /** The ASCII digit for 0 <= d < 10. */
  function DecimalDigit(d: nat): (r: CodeUnit)
    requires d < 10
    ensures 48 <= r <= 57 && r - 48 == d
  {
    48 + d
  }

  /** The decimal digits of a natural number, without leading zeros. */
  function Digits(n: nat): (r: Str)
    ensures |r| >= 1
    ensures forall i :: 0 <= i < |r| ==> 48 <= r[i] <= 57
    ensures n > 0 ==> r[0] != 48
    decreases n
  {
    if n < 10 then [DecimalDigit(n)] else Digits(n / 10) + [DecimalDigit(n % 10)]
  }

  /** `Integer.toString(int)`: a minus sign for negative values, then the digits of the magnitude. */
  function IntText(n: Int32): (r: Str)
    ensures |r| >= 1
    ensures n < 0 <==> r[0] == MINUS
  {
    if n < 0 then [MINUS] + Digits(-(n as int)) else Digits(n)
  }

  /** The value of a non-empty run of decimal digits (reference reader). */
  function DigitsValue(s: Str): (r: Option<nat>)
    decreases |s|
  {
    if |s| == 0 then None
    else if !(48 <= s[|s| - 1] <= 57) then None
    else if |s| == 1 then Some(s[0] - 48)
    else
      match DigitsValue(s[..|s| - 1])
      case None => None
      case Some(v) => Some(v * 10 + (s[|s| - 1] - 48))
  }

  /** Reads a decimal integer literal with an optional leading minus sign. */
  function ParseInt(s: Str): Option<int>
  {
    if |s| > 0 && s[0] == MINUS then
      match DigitsValue(s[1..])
      case None => None
      case Some(v) => Some(0 - v as int)
    else
      match DigitsValue(s)
      case None => None
      case Some(v) => Some(v as int)
  }

  lemma {:induction false} DigitsRoundTrip(n: nat)
    ensures DigitsValue(Digits(n)) == Some(n)
    decreases n
  {
    if n >= 10 {
      var d := Digits(n / 10);
      var s := d + [DecimalDigit(n % 10)];
      assert s[..|s| - 1] == d;
      DigitsRoundTrip(n / 10);
    }
  }

  /** `Integer.toString` is read back as the same number: the textual form loses nothing. */
  lemma IntTextRoundTrip(n: Int32)
    ensures ParseInt(IntText(n)) == Some(n as int)
  {
    var s := IntText(n);
    if n < 0 {
      var m: nat := -(n as int);
      assert s == [MINUS] + Digits(m);
      assert s[1..] == Digits(m);
      DigitsRoundTrip(m);
      assert ParseInt(s) == Some(0 - m);
    } else {
      assert s == Digits(n);
      assert s[0] != MINUS;
      DigitsRoundTrip(n);
      assert ParseInt(s) == Some(n as int);
    }
  }
}
