/**
 The JavaScript string escaper of the applet base class (`escapeJavaScript`
 and its helper `hex`, taken over from Apache Commons Lang), together with a
 reader of ECMAScript single-quoted string literals that serves as its
 inverse: whatever the escaper produces, placed between quotes, reads back as
 the original string.
 */
module JsEscape {
  import opened JavaLang

  // ---------------------------------------------------------------------------
  // `hex(ch)`: Integer.toHexString followed by toUpperCase(Locale.ENGLISH)
  // ---------------------------------------------------------------------------

  /** A lower-case hexadecimal digit as `Integer.toHexString` writes it. */
  function LowerHexDigit(d: nat): (r: CodeUnit)
    requires d < 16
  {
    if d < 10 then 48 + d else 87 + d
  }

  /** An upper-case hexadecimal digit, '0'..'9' then 'A'..'F'. */
  function HexDigit(d: nat): (r: CodeUnit)
    requires d < 16
    ensures 48 <= r <= 57 || 65 <= r <= 70
  {
    if d < 10 then 48 + d else 55 + d
  }

  predicate IsUpperHexDigit(c: CodeUnit)
  {
    48 <= c <= 57 || 65 <= c <= 70
  }

  predicate IsLowerHexDigit(c: CodeUnit)
  {
    48 <= c <= 57 || 97 <= c <= 102
  }

  /** `Integer.toHexString(n)` for a non-negative `n`: lower-case digits, no leading zeros. */
  function ToHexString(n: nat): (r: Str)
    ensures 1 <= |r|
    ensures forall i :: 0 <= i < |r| ==> IsLowerHexDigit(r[i])
    ensures n < 0x10 ==> |r| == 1
    ensures n < 0x100 ==> |r| <= 2
    ensures n < 0x1000 ==> |r| <= 3
    ensures n < 0x1_0000 ==> |r| <= 4
    ensures n >= 0x10 ==> |r| >= 2
    ensures n >= 0x100 ==> |r| >= 3
    ensures n >= 0x1000 ==> |r| >= 4
    decreases n
  {
    if n < 16 then [LowerHexDigit(n)] else ToHexString(n / 16) + [LowerHexDigit(n % 16)]
  }

  /** `Character.toUpperCase` restricted to ASCII, the only letters a hex string holds. */
  function UpperAscii(c: CodeUnit): CodeUnit
  {
    if 97 <= c <= 122 then c - 32 else c
  }

  /** `String.toUpperCase(Locale.ENGLISH)` on an ASCII string. */
  function ToUpper(s: Str): (r: Str)
    ensures |r| == |s|
    ensures forall i :: 0 <= i < |s| ==> r[i] == UpperAscii(s[i])
    decreases |s|
  {
    if |s| == 0 then [] else [UpperAscii(s[0])] + ToUpper(s[1..])
  }

  /** `hex(ch)`: the upper-case hexadecimal form of a code unit, without leading zeros. */
  function Hex(ch: CodeUnit): (r: Str)
    ensures 1 <= |r| <= 4
    ensures forall i :: 0 <= i < |r| ==> IsUpperHexDigit(r[i])
  {
    ToUpper(ToHexString(ch))
  }

  /** The four upper-case hexadecimal digits of a code unit, most significant first. */
  function Hex4(n: CodeUnit): (r: Str)
    ensures |r| == 4
    ensures forall i :: 0 <= i < 4 ==> IsUpperHexDigit(r[i])
  {
    var q1 := n / 16;
    var q2 := q1 / 16;
    [HexDigit(q2 / 16), HexDigit(q2 % 16), HexDigit(q1 % 16), HexDigit(n % 16)]
  }

  /** The upper-case digits `hex` produces, written directly. */
  function UpperHex(n: nat): Str
    decreases n
  {
    if n < 16 then [HexDigit(n)] else UpperHex(n / 16) + [HexDigit(n % 16)]
  }

  lemma {:induction false} HexIsUpperHex(n: nat)
    ensures ToUpper(ToHexString(n)) == UpperHex(n)
    decreases n
  {
    if n >= 16 {
      HexIsUpperHex(n / 16);
      var a := ToHexString(n / 16);
      var b := [LowerHexDigit(n % 16)];
      assert ToUpper(a + b) == ToUpper(a) + ToUpper(b);
    }
  }

  /**
   The three padding branches of `escapeJavaScript` ("", "0", "00", and "000"
   for control characters) always complete `hex(ch)` to exactly four digits.
   */
  lemma HexPadding(ch: CodeUnit)
    ensures ch > 0xfff ==> Hex(ch) == Hex4(ch)
    ensures 0xff < ch <= 0xfff ==> [ZERO] + Hex(ch) == Hex4(ch)
    ensures 0xf < ch <= 0xff ==> [ZERO, ZERO] + Hex(ch) == Hex4(ch)
    ensures ch <= 0xf ==> [ZERO, ZERO, ZERO] + Hex(ch) == Hex4(ch)
  {
    HexIsUpperHex(ch);
    var q1 := ch / 16;
    var q2 := q1 / 16;
    if ch > 0xfff {
      assert UpperHex(q2) == [HexDigit(q2 / 16), HexDigit(q2 % 16)];
      assert UpperHex(q1) == UpperHex(q2) + [HexDigit(q1 % 16)];
    } else if ch > 0xff {
      assert q2 / 16 == 0;
      assert UpperHex(q1) == [HexDigit(q2), HexDigit(q1 % 16)];
    } else if ch > 0xf {
      assert q2 == 0;
      assert UpperHex(ch) == [HexDigit(q1), HexDigit(ch % 16)];
    } else {
      assert q1 == 0;
    }
  }

  // ---------------------------------------------------------------------------
  // `escapeJavaScript`
  // ---------------------------------------------------------------------------

  const BACKSPACE: CodeUnit := 8
  const TAB: CodeUnit := 9
  const FORM_FEED: CodeUnit := 12
  const CR: CodeUnit := 13
  const U: CodeUnit := 117
  const ZERO: CodeUnit := 48

  /** The escape letter of the five control characters with a two-character form. */
  function NamedEscape(ch: CodeUnit): Option<CodeUnit>
  {
    if ch == BACKSPACE then Some(98)      // b
    else if ch == LF then Some(110)       // n
    else if ch == TAB then Some(116)      // t
    else if ch == FORM_FEED then Some(102) // f
    else if ch == CR then Some(114)       // r
    else None
  }

  /** What one loop iteration of `escapeJavaScript` appends for the unit `ch`. */
  function EscapeUnit(ch: CodeUnit): (r: Str)
    ensures 1 <= |r| <= 6
    ensures forall i :: 0 <= i < |r| ==> 32 <= r[i] <= 0x7F
  {
    if ch > 0xfff then [BACKSLASH, U] + Hex(ch)
    else if ch > 0xff then [BACKSLASH, U, ZERO] + Hex(ch)
    else if ch > 0x7f then [BACKSLASH, U, ZERO, ZERO] + Hex(ch)
    else if ch < 32 then
      if ch == BACKSPACE then [BACKSLASH, 98]
      else if ch == LF then [BACKSLASH, 110]
      else if ch == TAB then [BACKSLASH, 116]
      else if ch == FORM_FEED then [BACKSLASH, 102]
      else if ch == CR then [BACKSLASH, 114]
      else if ch > 0xf then [BACKSLASH, U, ZERO, ZERO] + Hex(ch)
      else [BACKSLASH, U, ZERO, ZERO, ZERO] + Hex(ch)
    else if ch == QUOTE then [BACKSLASH, QUOTE]
    else if ch == DQUOTE then [BACKSLASH, DQUOTE]
    else if ch == BACKSLASH then [BACKSLASH, BACKSLASH]
    else [ch]
  }

  /** The escaped form of a string: the concatenation of the images of its units. */
  function Escape(s: Str): (r: Str)
    ensures |r| >= |s|
    ensures forall i :: 0 <= i < |r| ==> 32 <= r[i] <= 0x7F
    decreases |s|
  {
    if |s| == 0 then [] else EscapeUnit(s[0]) + Escape(s[1..])
  }

  /** The per-unit image, case by case, as the escaper's documentation describes it. */
  lemma EscapeUnitCases(ch: CodeUnit)
    ensures ch > 0x7F ==> EscapeUnit(ch) == [BACKSLASH, U] + Hex4(ch)
    ensures NamedEscape(ch).Some? ==> EscapeUnit(ch) == [BACKSLASH, NamedEscape(ch).value]
    ensures ch < 32 && NamedEscape(ch).None? ==>
              EscapeUnit(ch) == [BACKSLASH, U] + Hex4(ch) && Hex4(ch)[..2] == [ZERO, ZERO]
    ensures ch == QUOTE || ch == DQUOTE || ch == BACKSLASH ==> EscapeUnit(ch) == [BACKSLASH, ch]
    ensures 32 <= ch <= 0x7F && ch != QUOTE && ch != DQUOTE && ch != BACKSLASH ==>
              EscapeUnit(ch) == [ch]
  {
    HexPadding(ch);
    if ch > 0xff && ch <= 0xfff {
      assert [BACKSLASH, U, ZERO] + Hex(ch) == [BACKSLASH, U] + ([ZERO] + Hex(ch));
    } else if ch > 0x7f && ch <= 0xff {
      assert [BACKSLASH, U, ZERO, ZERO] + Hex(ch) == [BACKSLASH, U] + ([ZERO, ZERO] + Hex(ch));
    } else if ch < 32 && NamedEscape(ch).None? {
      if ch > 0xf {
        assert [BACKSLASH, U, ZERO, ZERO] + Hex(ch) == [BACKSLASH, U] + ([ZERO, ZERO] + Hex(ch));
      } else {
        assert [BACKSLASH, U, ZERO, ZERO, ZERO] + Hex(ch) == [BACKSLASH, U] + ([ZERO, ZERO, ZERO] + Hex(ch));
      }
    }
  }

  lemma {:induction false} EscapeAppend(a: Str, b: Str)
    ensures Escape(a + b) == Escape(a) + Escape(b)
    decreases |a|
  {
    if |a| == 0 {
      assert a + b == b;
    } else {
      assert (a + b)[0] == a[0];
      assert (a + b)[1..] == a[1..] + b;
      EscapeAppend(a[1..], b);
    }
  }

  /**
   `str.length() * 2`, the initial capacity of the escaper's buffer, in
   32-bit `int` arithmetic: the product wraps around modulo 2^32 and is read
   as a signed value.
   */
  function BufferCapacity(length: nat): (r: int)
    ensures -0x8000_0000 <= r < 0x8000_0000
  {
    var product := (2 * length) % 0x1_0000_0000;
    if product < 0x8000_0000 then product else product - 0x1_0000_0000
  }

  /** For any length a Java `String` can have, the capacity is negative exactly from 2^30 units on. */
  lemma BufferCapacityNegative(length: nat)
    requires length < 0x8000_0000
    ensures BufferCapacity(length) < 0 <==> length >= 0x4000_0000
    ensures BufferCapacity(length) >= 0 ==> BufferCapacity(length) == 2 * length
  {
  }

  /** What `new StringBuffer(n)` throws for a negative `n`. */
  const NegativeArraySize: JavaException := JavaException(Utf16("java.lang.NegativeArraySizeException"), None)

  /** `Integer.MAX_VALUE`: no `StringBuffer` holds more units than this. */
  const MaxLength: nat := 0x7FFF_FFFF

  /** What a `StringBuffer` append throws when the text would grow past `MaxLength` units. */
  const OutOfMemory: JavaException := JavaException(Utf16("java.lang.OutOfMemoryError"), None)

  /**
   The text `escapeJavaScript` cannot produce: the buffer's capacity wraps
   negative, or the escaped text would be longer than any buffer can hold.
   */
  predicate EscapeFails(s: Str)
  {
    BufferCapacity(|s|) < 0 || |Escape(s)| > MaxLength
  }

  /** What `escapeJavaScript` throws for a text it cannot escape: the constructor fails before any append. */
  function EscapeError(s: Str): (r: JavaException)
    ensures r == NegativeArraySize <==> BufferCapacity(|s|) < 0
  {
    if BufferCapacity(|s|) < 0 then NegativeArraySize else OutOfMemory
  }

  /** Escaping a prefix never gives more text than escaping the whole. */
  lemma EscapePrefixLength(s: Str, k: nat)
    requires k <= |s|
    ensures |Escape(s[..k])| <= |Escape(s)|
  {
    assert s == s[..k] + s[k..];
    EscapeAppend(s[..k], s[k..]);
  }

  /** One more unit of input appends that unit's image. */
  lemma EscapeStep(s: Str, i: nat)
    requires i < |s|
    ensures Escape(s[..i + 1]) == Escape(s[..i]) + EscapeUnit(s[i])
  {
    assert s[..i + 1] == s[..i] + [s[i]];
    EscapeAppend(s[..i], [s[i]]);
    assert [s[i]][1..] == [];
  }

  /**
   The loop of `escapeJavaScript`: appends each unit's image left to right,
   and throws at the append that would take the buffer past `MaxLength`.
   */
  method AppendImages(s: Str) returns (r: Result<Str>)
    ensures r.Failure? <==> |Escape(s)| > MaxLength
    ensures r.Failure? ==> r.error == OutOfMemory
    ensures r.Success? ==> r.value == Escape(s)
  {
    var writer: Str := [];
    var i := 0;
    while i < |s|
      invariant 0 <= i <= |s|
      invariant writer == Escape(s[..i])
      invariant |writer| <= MaxLength
    {
      var next := writer + EscapeUnit(s[i]);
      EscapeStep(s, i);
      if |next| > MaxLength {
        EscapePrefixLength(s, i + 1);
        return Failure(OutOfMemory);
      }
      writer := next;
      i := i + 1;
    }
    assert s[..|s|] == s;
    return Success(writer);
  }

  /**
   `escapeJavaScript(str)`: `null` for `null`; a `NegativeArraySizeException`
   when the buffer's capacity wraps negative; an `OutOfMemoryError` from the
   append that would take the buffer past `Integer.MAX_VALUE` units;
   otherwise the escaped string.
   */
  method EscapeJavaScript(str: Option<Str>) returns (r: Result<Option<Str>>)
    ensures str.None? ==> r == Success(None)
    ensures r.Failure? <==> str.Some? && EscapeFails(str.value)
    ensures r.Failure? ==> str.Some? && r.error == EscapeError(str.value)
    ensures str.Some? && r.Success? ==> r.value == Some(Escape(str.value)) && |Escape(str.value)| <= MaxLength
  {
    if str.None? {
      return Success(None);
    }
    if BufferCapacity(|str.value|) < 0 {
      return Failure(NegativeArraySize);
    }
    var images := AppendImages(str.value);
    if images.Failure? {
      return Failure(images.error);
    }
    return Success(Some(images.value));
  }

  // ---------------------------------------------------------------------------
  // Reference reader: the body of an ECMAScript single-quoted string literal
  // ---------------------------------------------------------------------------

  /** The unit a single-character escape `\x` denotes in an ECMAScript string literal. */
  function SingleEscape(x: CodeUnit): Option<CodeUnit>
  {
    if x == 98 then Some(BACKSPACE)        // \b
    else if x == 110 then Some(LF)         // \n
    else if x == 116 then Some(TAB)        // \t
    else if x == 102 then Some(FORM_FEED)  // \f
    else if x == 114 then Some(CR)         // \r
    else if x == QUOTE || x == DQUOTE || x == BACKSLASH then Some(x)
    else None
  }

  /** The value of a hexadecimal digit of either case. */
  function HexDigitValue(c: CodeUnit): (r: Option<nat>)
    ensures r.Some? ==> r.value < 16
  {
    if 48 <= c <= 57 then Some(c - 48)
    else if 65 <= c <= 70 then Some(c - 55)
    else if 97 <= c <= 102 then Some(c - 87)
    else None
  }

  /** The code unit denoted by the four digits of a `\uXXXX` escape. */
  function Hex4Value(s: Str): (r: Option<CodeUnit>)
    requires |s| == 4
  {
    match (HexDigitValue(s[0]), HexDigitValue(s[1]), HexDigitValue(s[2]), HexDigitValue(s[3]))
    case (Some(a), Some(b), Some(c), Some(d)) => Some(((a * 16 + b) * 16 + c) * 16 + d)
    case _ => None
  }

  /** Units that may not appear unescaped inside an ECMAScript string literal. */
  predicate IsLineTerminator(c: CodeUnit)
  {
    c == LF || c == CR || c == 0x2028 || c == 0x2029
  }

  function Prepend(u: CodeUnit, rest: Option<(Str, Str)>): Option<(Str, Str)>
  {
    match rest
    case None => None
    case Some((v, tail)) => Some(([u] + v, tail))
  }

  /**
   Reads the body of a single-quoted literal up to its closing quote: the
   string it denotes, and what follows the quote. `None` when the literal is
   unterminated or malformed.
   */
  function Lex(s: Str): Option<(Str, Str)>
    decreases |s|
  {
    if |s| == 0 then None
    else if s[0] == QUOTE then Some(([], s[1..]))
    else if IsLineTerminator(s[0]) then None
    else if s[0] != BACKSLASH then Prepend(s[0], Lex(s[1..]))
    else if |s| < 2 then None
    else if s[1] == 117 then      // \uXXXX
      if |s| < 6 then None
      else
        match Hex4Value(s[2..6])
        case None => None
        case Some(u) => Prepend(u, Lex(s[6..]))
    else
      match SingleEscape(s[1])
      case None => None
      case Some(u) => Prepend(u, Lex(s[2..]))
  }

  lemma Hex4RoundTrip(n: CodeUnit)
    ensures Hex4Value(Hex4(n)) == Some(n)
  {
    var q1 := n / 16;
    var q2 := q1 / 16;
    assert HexDigitValue(HexDigit(q2 / 16)) == Some(q2 / 16);
    assert HexDigitValue(HexDigit(q2 % 16)) == Some(q2 % 16);
    assert HexDigitValue(HexDigit(q1 % 16)) == Some(q1 % 16);
    assert HexDigitValue(HexDigit(n % 16)) == Some(n % 16);
    assert ((q2 / 16 * 16 + q2 % 16) * 16 + q1 % 16) * 16 + n % 16 == n;
  }

  /** Reading one unit's image consumes exactly that image and yields the unit. */
  lemma LexEscapeUnit(ch: CodeUnit, t: Str)
    ensures Lex(EscapeUnit(ch) + t) == Prepend(ch, Lex(t))
  {
    EscapeUnitCases(ch);
    var e := EscapeUnit(ch);
    var s := e + t;
    if ch > 0x7F || (ch < 32 && NamedEscape(ch).None?) {
      assert s[0] == BACKSLASH && s[1] == 117;
      assert s[2..6] == Hex4(ch);
      assert s[6..] == t;
      Hex4RoundTrip(ch);
    } else if |e| == 2 {
      assert s[0] == BACKSLASH && s[1] == e[1];
      assert s[2..] == t;
    } else {
      assert s[0] == ch && s[1..] == t;
    }
  }

  /**
   Escaping is safe inside a single-quoted literal: the reader stops exactly at
   the quote that follows the escaped text and recovers the original string.
   */
  lemma {:induction false} LexEscaped(v: Str, rest: Str)
    ensures Lex(Escape(v) + [QUOTE] + rest) == Some((v, rest))
    decreases |v|
  {
    if |v| == 0 {
      assert Escape(v) + [QUOTE] + rest == [QUOTE] + rest;
      assert ([QUOTE] + rest)[1..] == rest;
    } else {
      var tail := Escape(v[1..]) + [QUOTE] + rest;
      assert Escape(v) + [QUOTE] + rest == EscapeUnit(v[0]) + tail;
      LexEscapeUnit(v[0], tail);
      LexEscaped(v[1..], rest);
      assert [v[0]] + v[1..] == v;
    }
  }

  /** Different strings never escape to the same text. */
  lemma EscapeInjective(a: Str, b: Str)
    requires Escape(a) == Escape(b)
    ensures a == b
  {
    LexEscaped(a, []);
    LexEscaped(b, []);
  }

  // ---------------------------------------------------------------------------
  // Worked examples
  // ---------------------------------------------------------------------------

  /** Units the escaper copies unchanged: 32..0x7F other than the quotes and backslash. */
  predicate IsVerbatim(ch: CodeUnit)
  {
    32 <= ch <= 0x7F && ch != QUOTE && ch != DQUOTE && ch != BACKSLASH
  }

  /** A string of verbatim units is its own escaped form. */
  lemma {:induction false} EscapeVerbatim(s: Str)
    requires forall i :: 0 <= i < |s| ==> IsVerbatim(s[i])
    ensures Escape(s) == s
    decreases |s|
  {
    if |s| > 0 {
      EscapeUnitCases(s[0]);
      EscapeVerbatim(s[1..]);
      assert [s[0]] + s[1..] == s;
    }
  }

  /** Escaping a string with one embedded quote, as in the documented example. */
  lemma EscapeAroundQuote(a: Str, q: CodeUnit, t: Str)
    requires forall i :: 0 <= i < |a| ==> IsVerbatim(a[i])
    requires q == QUOTE || q == DQUOTE
    ensures Escape(a + ([q] + t)) == a + ([BACKSLASH, q] + Escape(t))
  {
    EscapeVerbatim(a);
    EscapeAppend(a, [q] + t);
    EscapeAppend([q], t);
    assert Escape([q]) == [BACKSLASH, q];
  }

  const DocInput: Str := Utf16("He didn't say, \"Stop!\"")
  const DocOutput: Str := Utf16("He didn\\'t say, \\\"Stop!\\\"")

  lemma DocumentedPieces(a: Str, c: Str, e: Str)
    requires a == Utf16("He didn") && c == Utf16("t say, ") && e == Utf16("Stop!")
    ensures DocInput == a + ([QUOTE] + (c + ([DQUOTE] + (e + [DQUOTE]))))
    ensures DocOutput == a + ([BACKSLASH, QUOTE] + (c + ([BACKSLASH, DQUOTE] + (e + [BACKSLASH, DQUOTE]))))
  {
    assert "He didn't say, \"Stop!\"" == "He didn" + ("'" + ("t say, " + ("\"" + ("Stop!" + "\""))));
    assert "He didn\\'t say, \\\"Stop!\\\""
        == "He didn" + ("\\'" + ("t say, " + ("\\\"" + ("Stop!" + "\\\""))));
  }

  /** The shape of the documented example: three verbatim runs separated by quotes. */
  lemma EscapeDocumentedShape(a: Str, c: Str, e: Str)
    requires forall i :: 0 <= i < |a| ==> IsVerbatim(a[i])
    requires forall i :: 0 <= i < |c| ==> IsVerbatim(c[i])
    requires forall i :: 0 <= i < |e| ==> IsVerbatim(e[i])
    ensures Escape(a + ([QUOTE] + (c + ([DQUOTE] + (e + [DQUOTE])))))
         == a + ([BACKSLASH, QUOTE] + (c + ([BACKSLASH, DQUOTE] + (e + [BACKSLASH, DQUOTE]))))
  {
    EscapeAroundQuote(e, DQUOTE, []);
    assert [DQUOTE] + [] == [DQUOTE];
    assert Escape([]) == [];
    assert [BACKSLASH, DQUOTE] + [] == [BACKSLASH, DQUOTE];
    EscapeAroundQuote(c, DQUOTE, e + [DQUOTE]);
    EscapeAroundQuote(a, QUOTE, c + ([DQUOTE] + (e + [DQUOTE])));
  }

  /** The example of the escaper's documentation. */
  lemma DocumentedExample()
    ensures Escape(DocInput) == DocOutput
  {
    var a: Str := [72, 101, 32, 100, 105, 100, 110];
    var c: Str := [116, 32, 115, 97, 121, 44, 32];
    var e: Str := [83, 116, 111, 112, 33];
    DocumentedPieces(a, c, e);
    EscapeDocumentedShape(a, c, e);
  }

  /** A tab becomes a backslash and `t`. */
  lemma TabExample()
    ensures Escape([TAB]) == Utf16("\\t")
  {
  }

  /** A unit above 0x7F becomes a six-character `\u` escape with four digits. */
  lemma NonAsciiExample()
    ensures Escape([0xE9]) == Utf16("\\u00E9")
  {
    assert Escape([0xE9]) == EscapeUnit(0xE9);
  }

  /** An unnamed control character becomes a six-character `\u` escape too. */
  lemma ControlExample()
    ensures Escape([1]) == Utf16("\\u0001")
  {
    assert Escape([1]) == EscapeUnit(1);
  }
}
