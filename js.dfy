/**
 * The fragment of JavaScript's value semantics that the server and the admin
 * client rely on: truthiness, `||`, property access, `Number(x)`,
 * `parseInt(s)` and `parseInt(s, 10)`, `String(n)`, `trim`, `split(' ')`,
 * `includes`, `length` and the JSON round trip a request body goes through.
 * Numbers are integers; NaN is a value of its own.
 */
module Js {
  import opened Wrappers

  /** A JavaScript value.  Only integral numbers are modelled; NaN is separate. */
  datatype Value =
    | Undefined
    | Null
    | Bool(b: bool)
    | Num(n: int)
    | NaN
    | Str(s: string)
    | Arr(items: seq<Value>)
    | Obj(fields: map<string, Value>)

  /** The own properties of a plain object. */
  type Fields = map<string, Value>

  /** Property access `o[key]`: `undefined` when the key is missing. */
  function Get(o: Fields, key: string): Value {
    if key in o then o[key] else Undefined
  }

  /** Property access on an arbitrary value: `undefined` unless it is an object holding `key`. */
  function Prop(v: Value, key: string): Value {
    if v.Obj? then Get(v.fields, key) else Undefined
  }

  /** JavaScript truthiness. */
  predicate Truthy(v: Value) {
    match v
    case Undefined => false
    case Null => false
    case NaN => false
    case Bool(b) => b
    case Num(n) => n != 0
    case Str(s) => s != ""
    case Arr(_) => true
    case Obj(_) => true
  }

  /** `a || b` */
  function Or(a: Value, b: Value): Value {
    if Truthy(a) then a else b
  }

  /** The type name zod reports in "Expected X, received Y". */
  function TypeName(v: Value): string {
    match v
    case Undefined => "undefined"
    case Null => "null"
    case Bool(_) => "boolean"
    case Num(_) => "number"
    case NaN => "nan"
    case Str(_) => "string"
    case Arr(_) => "array"
    case Obj(_) => "object"
  }

  // ---------------------------------------------------------------------
  // Whitespace and trimming (the WhiteSpace and LineTerminator code points
  // of the ECMAScript grammar, used by trim, Number and parseInt alike)
  // ---------------------------------------------------------------------

  predicate IsWhitespace(c: char) {
    var n := c as int;
    n == 0x09 || n == 0x0A || n == 0x0B || n == 0x0C || n == 0x0D || n == 0x20
    || n == 0xA0 || n == 0x1680 || (0x2000 <= n <= 0x200A) || n == 0x2028 || n == 0x2029
    || n == 0x202F || n == 0x205F || n == 0x3000 || n == 0xFEFF
  }

  predicate AllWhitespace(s: string) {
    forall i :: 0 <= i < |s| ==> IsWhitespace(s[i])
  }

  /** The number of whitespace characters `s` starts with. */
  function LeadingWhitespace(s: string): (k: nat)
    ensures k <= |s| && AllWhitespace(s[..k])
    ensures k < |s| ==> !IsWhitespace(s[k])
  {
    if s != [] && IsWhitespace(s[0]) then
      var k := 1 + LeadingWhitespace(s[1..]);
      assert s[..k] == [s[0]] + s[1..][..k - 1];
      k
    else 0
  }

  /** The number of whitespace characters `s` ends with. */
  function TrailingWhitespace(s: string): (k: nat)
    ensures k <= |s| && AllWhitespace(s[|s| - k..])
    ensures k < |s| ==> !IsWhitespace(s[|s| - k - 1])
  {
    if s != [] && IsWhitespace(s[|s| - 1]) then
      var p := s[..|s| - 1];
      var j := TrailingWhitespace(p);
      assert s[|s| - (j + 1)..] == p[|p| - j..] + [s[|s| - 1]];
      AllWhitespaceConcat(p[|p| - j..], [s[|s| - 1]]);
      assert j + 1 < |s| ==> s[|s| - (j + 1) - 1] == p[|p| - j - 1];
      j + 1
    else 0
  }

  lemma AllWhitespaceConcat(a: string, b: string)
    requires AllWhitespace(a) && AllWhitespace(b)
    ensures AllWhitespace(a + b)
  {
    forall i | 0 <= i < |a + b| ensures IsWhitespace((a + b)[i]) {
      if i >= |a| {
        assert (a + b)[i] == b[i - |a|];
      }
    }
  }

  /** `s.trimStart()` */
  function TrimStart(s: string): string {
    s[LeadingWhitespace(s)..]
  }

  /** `s.trim()` */
  function Trim(s: string): (r: string)
    ensures r == [] || (!IsWhitespace(r[0]) && !IsWhitespace(r[|r| - 1]))
    ensures exists i, j :: (0 <= i <= j <= |s| && r == s[i..j]
                            && AllWhitespace(s[..i]) && AllWhitespace(s[j..]))
  {
    var t := TrimStart(s);
    var i := LeadingWhitespace(s);
    var k := TrailingWhitespace(t);
    var r := t[..|t| - k];
    assert r == s[i..|s| - k];
    assert s[|s| - k..] == t[|t| - k..];
    r
  }

  /** `s.trim()` is empty exactly when `s` is blank. */
  lemma TrimEmpty(s: string)
    ensures Trim(s) == [] <==> AllWhitespace(s)
  {
    var r := Trim(s);
    var i, j :| 0 <= i <= j <= |s| && r == s[i..j] && AllWhitespace(s[..i]) && AllWhitespace(s[j..]);
    if r == [] {
      forall k | 0 <= k < |s| ensures IsWhitespace(s[k]) {
        if k < i {
          assert s[k] == s[..i][k];
        } else {
          assert s[k] == s[j..][k - j];
        }
      }
    }
  }

  /** The number of UTF-16 code units of `c`: two for a character above U+FFFF. */
  function CodeUnits(c: char): (n: nat)
    ensures n == 1 || n == 2
  {
    if c as int > 0xFFFF then 2 else 1
  }

  /** `s.length`, which JavaScript counts in UTF-16 code units. */
  function Utf16Length(s: string): (n: nat)
    ensures |s| <= n <= 2 * |s|
    ensures n == 0 <==> s == []
    ensures n == |s| <==> forall i :: 0 <= i < |s| ==> CodeUnits(s[i]) == 1
  {
    if s == [] then 0
    else
      var n := CodeUnits(s[0]) + Utf16Length(s[1..]);
      assert forall i :: 1 <= i < |s| ==> s[i] == s[1..][i - 1];
      n
  }

  /** Three emoji are three characters but six code units. */
  lemma EmojiLength()
    ensures |"\U{1F600}\U{1F600}\U{1F600}"| == 3 && Utf16Length("\U{1F600}\U{1F600}\U{1F600}") == 6
  {
    var s := "\U{1F600}\U{1F600}\U{1F600}";
    assert s[1..] == "\U{1F600}\U{1F600}" && s[1..][1..] == "\U{1F600}" && s[1..][1..][1..] == "";
  }

  // ---------------------------------------------------------------------
  // Decimal digits, parseInt and String(n)
  // ---------------------------------------------------------------------

  predicate IsDigit(c: char) {
    '0' <= c <= '9'
  }

  predicate AllDigits(s: string) {
    forall i :: 0 <= i < |s| ==> IsDigit(s[i])
  }

  function DigitValue(c: char): (d: nat)
    requires IsDigit(c)
    ensures d < 10
  {
    (c as int) - ('0' as int)
  }

  function DigitChar(d: nat): (c: char)
    requires d < 10
    ensures IsDigit(c) && DigitValue(c) == d
  {
    (('0' as int) + d) as char
  }

  /** The length of the longest prefix of `s` made of decimal digits. */
  function DigitPrefix(s: string): (k: nat)
    ensures k <= |s| && AllDigits(s[..k])
    ensures k < |s| ==> !IsDigit(s[k])
  {
    if s != [] && IsDigit(s[0]) then
      var k := 1 + DigitPrefix(s[1..]);
      assert s[..k] == [s[0]] + s[1..][..k - 1];
      k
    else 0
  }

  /** The value of a string of decimal digits (most significant first). */
  function DigitsValue(s: string): nat
    requires AllDigits(s)
  {
    if s == [] then 0
    else 10 * DigitsValue(s[..|s| - 1]) + DigitValue(s[|s| - 1])
  }

  /** `v` with its sign: `-v` when `negative`. */
  function Signed(negative: bool, v: nat): int {
    if negative then -(v as int) else v
  }

  /** What follows an optional leading sign. */
  function Unsigned(t: string): string {
    if t != [] && (t[0] == '-' || t[0] == '+') then t[1..] else t
  }

  predicate IsNegative(t: string) {
    t != [] && t[0] == '-'
  }

  /**
   * `parseInt(s, 10)`: skip leading whitespace, read an optional sign and the
   * longest run of decimal digits; NaN (None) when there is no digit.
   */
  function ParseIntDecimal(s: string): (r: Option<int>)
    ensures r.None? <==> DigitPrefix(Unsigned(TrimStart(s))) == 0
  {
    var t := TrimStart(s);
    var u := Unsigned(t);
    var k := DigitPrefix(u);
    if k == 0 then None
    else
      Some(Signed(IsNegative(t), DigitsValue(u[..k])))
  }

  // ---------------------------------------------------------------------
  // Digits of any radix from 2 to 36 (letters in either case)
  // ---------------------------------------------------------------------

  /** The value of `c` as a digit of base `radix`, if it is one. */
  function RadixDigit(c: char, radix: nat): (r: Option<nat>)
    ensures r.Some? ==> r.value < radix
    ensures radix == 10 ==> (r.Some? <==> IsDigit(c)) && (r.Some? ==> r.value == DigitValue(c))
  {
    var d :=
      if '0' <= c <= '9' then (c as int) - ('0' as int)
      else if 'a' <= c <= 'z' then (c as int) - ('a' as int) + 10
      else if 'A' <= c <= 'Z' then (c as int) - ('A' as int) + 10
      else 36;
    if d < radix then Some(d) else None
  }

  predicate AllRadixDigits(s: string, radix: nat) {
    forall i :: 0 <= i < |s| ==> RadixDigit(s[i], radix).Some?
  }

  /** The length of the longest prefix of `s` made of digits of base `radix`. */
  function RadixPrefix(s: string, radix: nat): (k: nat)
    ensures k <= |s| && AllRadixDigits(s[..k], radix)
    ensures k < |s| ==> RadixDigit(s[k], radix).None?
  {
    if s != [] && RadixDigit(s[0], radix).Some? then
      var k := 1 + RadixPrefix(s[1..], radix);
      assert s[..k] == [s[0]] + s[1..][..k - 1];
      k
    else 0
  }

  /** The value of a string of digits of base `radix` (most significant first). */
  function RadixValue(s: string, radix: nat): nat
    requires AllRadixDigits(s, radix)
  {
    if s == [] then 0
    else radix * RadixValue(s[..|s| - 1], radix) + RadixDigit(s[|s| - 1], radix).value
  }

  /** `s` begins with `0` and the given letter in either case (`0x`, `0o`, `0b`). */
  predicate HasPrefix0(s: string, lower: char, upper: char) {
    |s| >= 2 && s[0] == '0' && (s[1] == lower || s[1] == upper)
  }

  /**
   * `parseInt(s)` with no radix, as every route handler calls it on its `id`:
   * after the whitespace and an optional sign, a `0x` or `0X` selects base 16
   * and is skipped; otherwise the digits are decimal, as for `parseInt(s, 10)`.
   */
  function ParseInt(s: string): (r: Option<int>)
    ensures !HasPrefix0(Unsigned(TrimStart(s)), 'x', 'X') ==> r == ParseIntDecimal(s)
    ensures HasPrefix0(Unsigned(TrimStart(s)), 'x', 'X') ==>
              var h := Unsigned(TrimStart(s))[2..];
              && (r.None? <==> RadixPrefix(h, 16) == 0)
              && (r.Some? ==> r.value == Signed(IsNegative(TrimStart(s)), RadixValue(h[..RadixPrefix(h, 16)], 16)))
  {
    var t := TrimStart(s);
    var u := Unsigned(t);
    if HasPrefix0(u, 'x', 'X') then
      var h := u[2..];
      var k := RadixPrefix(h, 16);
      if k == 0 then None else Some(Signed(IsNegative(t), RadixValue(h[..k], 16)))
    else ParseIntDecimal(s)
  }

  /** Without a radix a hexadecimal id is read in base 16; a bare `0x` has no digit and is NaN. */
  lemma ParseIntReadsHex()
    ensures ParseInt("0x1A") == Some(26) && ParseInt("0x").None?
  {
    assert ParseInt("0x1A") == Some(26) by {
      assert LeadingWhitespace("0x1A") == 0;
      assert Unsigned("0x1A") == "0x1A" && "0x1A"[2..] == "1A";
      assert RadixPrefix("1A", 16) == 2 by {
        assert "1A"[1..] == "A" && "A"[1..] == "";
      }
      assert "1A"[..2] == "1A";
      assert RadixValue("1A", 16) == 26 by {
        assert "1A"[..1] == "1" && "1"[..0] == "";
      }
    }
    assert ParseInt("0x").None? by {
      assert LeadingWhitespace("0x") == 0;
      assert Unsigned("0x") == "0x" && "0x"[2..] == "";
    }
  }

  /** With radix 10 the same texts stop at the `x`: "0x1A" and "0x" are both 0. */
  lemma ParseIntDecimalStopsAtX()
    ensures ParseIntDecimal("0x1A") == Some(0) && ParseIntDecimal("0x") == Some(0)
  {
    assert ParseIntDecimal("0x1A") == Some(0) by {
      assert LeadingWhitespace("0x1A") == 0;
      assert Unsigned("0x1A") == "0x1A";
      assert DigitPrefix("0x1A") == 1 by {
        assert "0x1A"[1..] == "x1A";
      }
      assert "0x1A"[..1] == "0" && "0"[..0] == "";
    }
    assert ParseIntDecimal("0x") == Some(0) by {
      assert LeadingWhitespace("0x") == 0;
      assert Unsigned("0x") == "0x";
      assert DigitPrefix("0x") == 1 by {
        assert "0x"[1..] == "x";
      }
      assert "0x"[..1] == "0" && "0"[..0] == "";
    }
  }

  /** A sign may precede the `0x`: "-0x10" is -16. */
  lemma ParseIntSignedHex()
    ensures ParseInt("-0x10") == Some(-16)
  {
    assert LeadingWhitespace("-0x10") == 0;
    assert Unsigned("-0x10") == "0x10" && "0x10"[2..] == "10";
    assert RadixPrefix("10", 16) == 2 by {
      assert "10"[1..] == "0" && "0"[1..] == "";
    }
    assert "10"[..2] == "10";
    assert RadixValue("10", 16) == 16 by {
      assert "10"[..1] == "1" && "1"[..0] == "";
    }
  }

  /** `String(n)` for a natural number: its shortest decimal spelling. */
  function NatToString(n: nat): (s: string)
    ensures |s| >= 1 && AllDigits(s)
    ensures |s| > 1 ==> s[0] != '0'
  {
    if n < 10 then [DigitChar(n)]
    else NatToString(n / 10) + [DigitChar(n % 10)]
  }

  /** `String(n)` for an integer. */
  function IntToString(n: int): string {
    if n < 0 then "-" + NatToString(-n) else NatToString(n)
  }

  lemma {:induction false} DigitsValueOfNatToString(n: nat)
    ensures DigitsValue(NatToString(n)) == n
  {
    if n >= 10 {
      var s := NatToString(n);
      assert s[..|s| - 1] == NatToString(n / 10);
      DigitsValueOfNatToString(n / 10);
    }
  }

  lemma {:induction false} LeadingWhitespaceOfConcat(ws: string, body: string)
    requires AllWhitespace(ws) && (body == [] || !IsWhitespace(body[0]))
    ensures LeadingWhitespace(ws + body) == |ws|
  {
    if ws != [] {
      assert (ws + body)[1..] == ws[1..] + body;
      LeadingWhitespaceOfConcat(ws[1..], body);
    } else {
      assert ws + body == body;
    }
  }

  lemma {:induction false} DigitPrefixOfConcat(digits: string, rest: string)
    requires AllDigits(digits) && (rest == [] || !IsDigit(rest[0]))
    ensures DigitPrefix(digits + rest) == |digits|
  {
    if digits != [] {
      assert (digits + rest)[1..] == digits[1..] + rest;
      DigitPrefixOfConcat(digits[1..], rest);
    } else {
      assert digits + rest == rest;
    }
  }

  lemma TrimStartOfConcat(ws: string, body: string)
    requires AllWhitespace(ws) && (body == [] || !IsWhitespace(body[0]))
    ensures TrimStart(ws + body) == body
  {
    LeadingWhitespaceOfConcat(ws, body);
  }

  lemma UnsignedOfSigned(negative: bool, digits: string, rest: string)
    requires digits != [] && AllDigits(digits)
    ensures var body := (if negative then "-" else "") + digits + rest;
            Unsigned(body) == digits + rest && IsNegative(body) == negative
  {
    var body := (if negative then "-" else "") + digits + rest;
    assert body[0] == if negative then '-' else digits[0];
    if negative {
      assert body[1..] == digits + rest;
    }
  }

  /** parseInt reads the optionally signed digit run after the leading whitespace and ignores the rest. */
  lemma ParseIntDecimalOfDigits(ws: string, negative: bool, digits: string, rest: string)
    requires AllWhitespace(ws) && digits != [] && AllDigits(digits)
    requires rest == [] || !IsDigit(rest[0])
    ensures var s := ws + (if negative then "-" else "") + digits + rest;
            ParseIntDecimal(s) == Some(Signed(negative, DigitsValue(digits)))
  {
    var body := (if negative then "-" else "") + digits + rest;
    assert ws + (if negative then "-" else "") + digits + rest == ws + body;
    assert body[0] == if negative then '-' else digits[0];
    TrimStartOfConcat(ws, body);
    UnsignedOfSigned(negative, digits, rest);
    DigitPrefixOfConcat(digits, rest);
    assert (digits + rest)[..|digits|] == digits;
  }

  /** `parseInt(String(n), 10) == n` */
  lemma ParseIntDecimalOfIntToString(n: int)
    ensures ParseIntDecimal(IntToString(n)) == Some(n)
  {
    var m := if n < 0 then -n else n;
    DigitsValueOfNatToString(m);
    ParseIntDecimalOfDigits("", n < 0, NatToString(m), "");
    assert IntToString(n) == "" + (if n < 0 then "-" else "") + NatToString(m) + "";
  }

  /** `parseInt(String(n)) == n`: an id written into a URL path is read back intact. */
  lemma ParseIntOfIntToString(n: int)
    ensures ParseInt(IntToString(n)) == Some(n)
  {
    ParseIntDecimalOfIntToString(n);
    TrimIntToString(n);
    var s := IntToString(n);
    assert LeadingWhitespace(s) == 0;
    assert Unsigned(s) == NatToString(if n < 0 then -n else n);
  }

  // ---------------------------------------------------------------------
  // Number(x)
  // ---------------------------------------------------------------------

  /** `10` to the power `e`. */
  function Pow10(e: nat): (r: nat)
    ensures r >= 1
  {
    if e == 0 then 1 else 10 * Pow10(e - 1)
  }

  /**
   * `m * 10^e` when that is an integer: a negative exponent must divide
   * `m` exactly, and None stands for a fraction.
   */
  function Scaled(m: nat, e: int): (r: Option<nat>)
    ensures e >= 0 ==> r == Some(m * Pow10(e))
    ensures e < 0 ==> (r.Some? <==> m % Pow10(-e) == 0) && (r.Some? ==> r.value * Pow10(-e) == m)
  {
    if e >= 0 then Some(m * Pow10(e))
    else if m % Pow10(-e) == 0 then Some(m / Pow10(-e))
    else None
  }

  /** The `ExponentPart` that ends a decimal literal: nothing (0), or `e`/`E`, a sign and digits. */
  function Exponent(rest: string): Option<int> {
    if rest == [] then Some(0)
    else if rest[0] == 'e' || rest[0] == 'E' then
      var v := rest[1..];
      var w := Unsigned(v);
      if w != [] && AllDigits(w) then Some(Signed(IsNegative(v), DigitsValue(w))) else None
    else None
  }

  /**
   * The value of a `StrDecimalLiteral` (sign, integer digits, an optional
   * `.` and fraction digits, an optional exponent) when it is an integer.
   * A fraction, `Infinity` and anything that is not such a literal are NaN.
   */
  function DecimalLiteral(t: string): (r: Value)
    ensures r.Num? || r.NaN?
  {
    var u := Unsigned(t);
    var i := DigitPrefix(u);
    var afterInt := u[i..];
    var fraction := if afterInt != [] && afterInt[0] == '.' then afterInt[1..] else afterInt;
    var f := DigitPrefix(fraction);
    if i + f == 0 then NaN
    else
      match Exponent(fraction[f..])
      case None => NaN
      case Some(e) =>
        var mantissa := u[..i] + fraction[..f];
        AllDigitsConcat(u[..i], fraction[..f]);
        match Scaled(DigitsValue(mantissa), e - f)
        case None => NaN
        case Some(v) => Num(Signed(IsNegative(t), v))
  }

  lemma AllDigitsConcat(a: string, b: string)
    requires AllDigits(a) && AllDigits(b)
    ensures AllDigits(a + b)
  {
    forall i | 0 <= i < |a + b| ensures IsDigit((a + b)[i]) {
      if i >= |a| {
        assert (a + b)[i] == b[i - |a|];
      }
    }
  }

  /** The `NonDecimalIntegerLiteral` prefixes with their bases: `0x` 16, `0o` 8, `0b` 2; 0 for none. */
  function LiteralRadix(t: string): (radix: nat)
    ensures radix == 0 || radix == 2 || radix == 8 || radix == 16
  {
    if HasPrefix0(t, 'x', 'X') then 16
    else if HasPrefix0(t, 'o', 'O') then 8
    else if HasPrefix0(t, 'b', 'B') then 2
    else 0
  }

  /**
   * `Number(s)` on a string: surrounding whitespace is ignored, the empty
   * string is 0, an unsigned `0x`/`0o`/`0b` literal is read in its base, and
   * otherwise the text must be a decimal literal.  Only integral values are
   * represented; see `DecimalLiteral`.
   */
  function StringToNumber(s: string): (r: Value)
    ensures r.Num? || r.NaN?
    ensures var t := Trim(s);
            LiteralRadix(t) != 0 ==>
              r == (if |t| > 2 && AllRadixDigits(t[2..], LiteralRadix(t)) then Num(RadixValue(t[2..], LiteralRadix(t))) else NaN)
  {
    var t := Trim(s);
    if t == [] then Num(0)
    else if LiteralRadix(t) != 0 then
      var digits := t[2..];
      if digits != [] && AllRadixDigits(digits, LiteralRadix(t)) then Num(RadixValue(digits, LiteralRadix(t))) else NaN
    else DecimalLiteral(t)
  }

  /** `Number(v)` */
  function ToNumber(v: Value): (r: Value)
    ensures r.Num? || r.NaN?
    ensures v.Num? ==> r == v
    ensures v.Str? ==> r == StringToNumber(v.s)
  {
    match v
    case Undefined => NaN
    case Null => Num(0)
    case Bool(b) => Num(if b then 1 else 0)
    case Num(n) => v
    case NaN => NaN
    case Str(s) => StringToNumber(s)
    case Arr(items) =>
      // an array goes through its string form: "" for [], its element's own string for [x]
      if items == [] then Num(0)
      else if |items| == 1 then
        match items[0]
        case Undefined => Num(0)
        case Null => Num(0)
        case Num(n) => Num(n)
        case Str(s) => StringToNumber(s)
        case Arr(_) => ToNumber(items[0])
        case _ => NaN
      else NaN
    case Obj(_) => NaN
  }

  /** Decimal spellings with a fraction part or an exponent that have an integral value. */
  lemma NumberReadsDecimalSpellings()
    ensures StringToNumber("2.0") == Num(2) && StringToNumber("1e1") == Num(10)
  {
    NumberReadsTwoPointZero();
    NumberReadsOneEOne();
  }

  lemma NumberReadsTwoPointZero()
    ensures StringToNumber("2.0") == Num(2)
  {
    TrimOfTrimmed("2.0");
    assert LiteralRadix("2.0") == 0;
    TwoPointZero();
  }

  lemma NumberReadsOneEOne()
    ensures StringToNumber("1e1") == Num(10)
  {
    TrimOfTrimmed("1e1");
    assert LiteralRadix("1e1") == 0;
    OneEOne();
  }

  lemma TwoPointZero()
    ensures DecimalLiteral("2.0") == Num(2)
  {
    var u := "2.0";
    assert Unsigned(u) == u;
    assert DigitPrefix(u) == 1 by { assert u[1..] == ".0"; }
    var fraction := u[1..][1..];
    assert fraction == ['0'];
    assert DigitPrefix(fraction) == 1 by { assert fraction[1..] == []; }
    assert fraction[1..] == [] && Exponent(fraction[1..]) == Some(0);
    assert u[..1] + fraction[..1] == "20";
    assert DigitsValue("20") == 20 by { assert "20"[..1] == "2" && "2"[..0] == ""; }
    assert Pow10(1) == 10;
    assert Scaled(20, -1) == Some(2);
  }

  lemma OneEOne()
    ensures DecimalLiteral("1e1") == Num(10)
  {
    var u := "1e1";
    assert Unsigned(u) == u;
    assert DigitPrefix(u) == 1 by { assert u[1..] == "e1"; }
    var rest := u[1..];
    assert rest == ['e', '1'] && DigitPrefix(rest) == 0 && rest[0..] == rest;
    assert Exponent(rest) == Some(1) by {
      var v := rest[1..];
      assert v == ['1'] && !IsNegative(v) && Unsigned(v) == v && AllDigits(v);
      assert DigitsValue(v) == 1 by { assert v[..0] == []; }
    }
    assert u[..1] + rest[..0] == "1";
    assert DigitsValue("1") == 1 by { assert "1"[..0] == ""; }
    assert Pow10(1) == 10;
    assert Scaled(1, 1) == Some(10);
  }

  /** A hexadecimal literal is read in base 16. */
  lemma NumberReadsHexSpelling()
    ensures StringToNumber("0x2") == Num(2)
  {
    TrimOfTrimmed("0x2");
    var digits := "0x2"[2..];
    assert LiteralRadix("0x2") == 16 && digits == ['2'];
    assert AllRadixDigits(digits, 16) && RadixValue(digits, 16) == 2 by { assert digits[..0] == []; }
  }

  /** A binary literal is read in base 2. */
  lemma NumberReadsBinarySpelling()
    ensures StringToNumber("0b10") == Num(2)
  {
    TrimOfTrimmed("0b10");
    var digits := "0b10"[2..];
    assert LiteralRadix("0b10") == 2 && digits == ['1', '0'];
    assert AllRadixDigits(digits, 2) && RadixValue(digits, 2) == 2 by { assert digits[..1] == ['1'] && digits[..1][..0] == []; }
  }

  /** A prefixed literal takes no sign and needs a digit. */
  lemma NumberRefusesSignedOrEmptyHex()
    ensures StringToNumber("-0x2").NaN? && StringToNumber("0x").NaN?
  {
    NumberRefusesSignedHex();
    NumberRefusesEmptyHex();
  }

  lemma NumberRefusesSignedHex()
    ensures StringToNumber("-0x2").NaN?
  {
    TrimOfTrimmed("-0x2");
    assert LiteralRadix("-0x2") == 0;
    SignedHexNotDecimal();
  }

  lemma SignedHexNotDecimal()
    ensures DecimalLiteral("-0x2").NaN?
  {
    assert Unsigned("-0x2") == "0x2";
    assert DigitPrefix("0x2") == 1 by { assert "0x2"[1..] == "x2"; }
    assert "0x2"[1..] == "x2" && DigitPrefix("x2") == 0 && "x2"[0..] == "x2";
    assert Exponent("x2").None?;
  }

  lemma NumberRefusesEmptyHex()
    ensures StringToNumber("0x").NaN?
  {
    TrimOfTrimmed("0x");
    assert "0x"[2..] == "";
  }

  /** An array goes through its string form, so `Number([[5]])` is 5. */
  lemma ToNumberOfNestedArray()
    ensures ToNumber(Arr([Arr([Num(5)])])) == Num(5)
  {
  }

  /** A string with no whitespace at either end is its own trim. */
  lemma TrimOfTrimmed(s: string)
    requires s != [] && !IsWhitespace(s[0]) && !IsWhitespace(s[|s| - 1])
    ensures Trim(s) == s
  {
    assert LeadingWhitespace(s) == 0;
    assert TrailingWhitespace(s) == 0;
  }

  lemma ToNumberIdempotent(v: Value)
    ensures ToNumber(ToNumber(v)) == ToNumber(v)
  {
  }

  /** `String(n)` has no surrounding whitespace. */
  lemma TrimIntToString(n: int)
    ensures Trim(IntToString(n)) == IntToString(n)
  {
    TrimOfTrimmed(IntToString(n));
  }

  /** An optionally signed run of decimal digits is a decimal literal with its own value. */
  lemma DecimalLiteralOfDigits(negative: bool, digits: string)
    requires digits != [] && AllDigits(digits)
    ensures DecimalLiteral((if negative then "-" else "") + digits) == Num(Signed(negative, DigitsValue(digits)))
  {
    var t := (if negative then "-" else "") + digits;
    UnsignedOfSigned(negative, digits, "");
    assert (if negative then "-" else "") + digits + "" == t;
    DigitPrefixOfConcat(digits, "");
    assert digits + "" == digits;
    var u := Unsigned(t);
    assert DigitPrefix(u) == |u| && u[|u|..] == [] && u[..|u|] == u;
    var empty: string := [];
    assert DigitPrefix(empty) == 0 && empty[0..] == empty && Exponent(empty) == Some(0);
    assert u[..|u|] + empty[..0] == u;
    assert Scaled(DigitsValue(u), 0) == Some(DigitsValue(u));
  }

  /** `Number(String(n)) == n` */
  lemma StringToNumberOfIntToString(n: int)
    ensures StringToNumber(IntToString(n)) == Num(n)
  {
    var m := if n < 0 then -n else n;
    DigitsValueOfNatToString(m);
    TrimIntToString(n);
    assert IntToString(n) == (if n < 0 then "-" else "") + NatToString(m);
    assert LiteralRadix(IntToString(n)) == 0;
    DecimalLiteralOfDigits(n < 0, NatToString(m));
  }

  // ---------------------------------------------------------------------
  // split(' '), includes
  // ---------------------------------------------------------------------

  /** The index of the first occurrence of `c` in `s`. */
  function IndexOf(s: string, c: char): (r: Option<nat>)
    ensures r.None? <==> c !in s
    ensures r.Some? ==> r.value < |s| && s[r.value] == c && c !in s[..r.value]
  {
    if s == [] then None
    else if s[0] == c then Some(0)
    else
      match IndexOf(s[1..], c)
      case None => None
      case Some(i) =>
        assert s[..i + 1] == [s[0]] + s[1..][..i];
        Some(i + 1)
  }

  /** `s.split(sep)` for a one-character separator. */
  function Split(s: string, sep: char): (r: seq<string>)
    ensures |r| >= 1
    ensures forall i :: 0 <= i < |r| ==> sep !in r[i]
    decreases |s|
  {
    match IndexOf(s, sep)
    case None => [s]
    case Some(i) => [s[..i]] + Split(s[i + 1..], sep)
  }

  /** `fields.join(sep)` */
  function Join(fields: seq<string>, sep: char): string
    requires |fields| >= 1
  {
    if |fields| == 1 then fields[0] else fields[0] + [sep] + Join(fields[1..], sep)
  }

  /** Joining the fields of a split gives back the string. */
  lemma {:induction false} JoinSplit(s: string, sep: char)
    ensures Join(Split(s, sep), sep) == s
    decreases |s|
  {
    match IndexOf(s, sep)
    case None =>
    case Some(i) =>
      var rest := s[i + 1..];
      var fields := Split(rest, sep);
      assert Split(s, sep) == [s[..i]] + fields;
      assert ([s[..i]] + fields)[1..] == fields;
      JoinSplit(rest, sep);
      assert s == s[..i] + [sep] + rest;
  }

  /** Splitting a join of separator-free fields gives back the fields. */
  lemma {:induction false} SplitJoin(fields: seq<string>, sep: char)
    requires |fields| >= 1 && forall i :: 0 <= i < |fields| ==> sep !in fields[i]
    ensures Split(Join(fields, sep), sep) == fields
  {
    if |fields| > 1 {
      var tail := fields[1..];
      assert forall i :: 0 <= i < |tail| ==> tail[i] == fields[i + 1];
      SplitJoin(tail, sep);
      SplitAtSeparator(fields[0], sep, Join(tail, sep));
      assert fields == [fields[0]] + tail;
    }
  }

  /** Splitting at the first separator: the separator-free prefix is the first field. */
  lemma SplitAtSeparator(a: string, sep: char, b: string)
    requires sep !in a
    ensures Split(a + [sep] + b, sep) == [a] + Split(b, sep)
  {
    var s := a + [sep] + b;
    IndexOfSeparator(a, sep, b);
    assert s[..|a|] == a;
    assert s[|a| + 1..] == b;
  }

  /** The first separator after a separator-free prefix is the one right after it. */
  lemma {:induction false} IndexOfSeparator(a: string, sep: char, b: string)
    requires sep !in a
    ensures IndexOf(a + [sep] + b, sep) == Some(|a|)
    decreases |a|
  {
    var s := a + [sep] + b;
    if a != [] {
      assert s[1..] == a[1..] + [sep] + b;
      IndexOfSeparator(a[1..], sep, b);
    }
  }

  /** `s.includes(sub)` */
  predicate Contains(s: string, sub: string)
    ensures sub == [] ==> Contains(s, sub)
    ensures Contains(s, sub) ==> |sub| <= |s|
  {
    assert sub == [] ==> OccursAt(s, sub, 0);
    exists i :: 0 <= i <= |s| - |sub| && OccursAt(s, sub, i)
  }

  predicate OccursAt(s: string, sub: string, i: int) {
    0 <= i <= |s| - |sub| && s[i..i + |sub|] == sub
  }

  // ---------------------------------------------------------------------
  // JSON.parse(JSON.stringify(v)): what a request body looks like on arrival
  // ---------------------------------------------------------------------

  /** A value that JSON can carry: no `undefined`, no NaN, anywhere inside. */
  predicate IsJson(v: Value) {
    match v
    case Undefined => false
    case NaN => false
    case Arr(items) => forall i :: 0 <= i < |items| ==> IsJson(items[i])
    case Obj(fields) => forall k :: k in fields ==> IsJson(fields[k])
    case _ => true
  }

  /**
   * The JSON round trip of a value inside an array or object: NaN and
   * `undefined` array elements become null, object properties holding
   * `undefined` disappear.
   */
  function Wire(v: Value): (r: Value)
    ensures IsJson(r)
  {
    match v
    case Undefined => Null
    case NaN => Null
    case Arr(items) => Arr(seq(|items|, i requires 0 <= i < |items| => Wire(items[i])))
    case Obj(fields) => Obj(map k | k in fields && !fields[k].Undefined? :: Wire(fields[k]))
    case _ => v
  }

  /** The JSON round trip of an object's properties. */
  function WireFields(fields: Fields): (r: Fields)
    ensures r.Keys == set k | k in fields && !fields[k].Undefined?
    ensures forall k :: k in r ==> IsJson(r[k]) && r[k] == Wire(fields[k])
  {
    Wire(Obj(fields)).fields
  }

  /** A value that is already JSON comes through the round trip unchanged. */
  lemma {:induction false} WireOfJson(v: Value)
    requires IsJson(v)
    ensures Wire(v) == v
  {
    match v
    case Arr(items) =>
      forall i | 0 <= i < |items| ensures Wire(items[i]) == items[i] {
        WireOfJson(items[i]);
      }
    case Obj(fields) =>
      forall k | k in fields ensures Wire(fields[k]) == fields[k] {
        WireOfJson(fields[k]);
      }
    case _ =>
  }
}
