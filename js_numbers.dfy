/** JavaScript's `parseInt(v, 10)` and `parseFloat(v)` on request body
    values. Both read the longest numeric prefix of `String(v)` after leading
    white space; when there is none the result is `NaN`, which the SQL text
    Sequelize builds cannot carry, so the statement fails. */
module JsNumbers {
  import opened Common

  /** The white space and line terminators `parseInt` and `parseFloat` skip. */
  predicate IsSpace(c: char) {
    c == ' ' || c == '\t' || c == '\n' || c == '\r' || c == '\U{000B}' || c == '\U{000C}' ||
    c == '\U{00A0}' || c == '\U{1680}' || ('\U{2000}' <= c <= '\U{200A}') || c == '\U{2028}' ||
    c == '\U{2029}' || c == '\U{202F}' || c == '\U{205F}' || c == '\U{3000}' || c == '\U{FEFF}'
  }

  predicate IsDigit(c: char) {
    '0' <= c <= '9'
  }

  function DigitValue(c: char): (d: nat)
    requires IsDigit(c)
    ensures d < 10
  {
    c as int - '0' as int
  }

  function DigitChar(d: nat): (c: char)
    requires d < 10
    ensures IsDigit(c) && DigitValue(c) == d
  {
    ('0' as int + d) as char
  }

  /** The string without its leading white space. */
  function TrimStart(s: string): (r: string)
    ensures |r| <= |s| && r == s[|s| - |r|..]
    ensures forall i :: 0 <= i < |s| - |r| ==> IsSpace(s[i])
    ensures r != [] ==> !IsSpace(r[0])
  {
    if s != [] && IsSpace(s[0]) then TrimStart(s[1..]) else s
  }

  /** The string after an optional sign. */
  function Unsigned(s: string): (r: string)
    ensures r == s || (s != [] && (s[0] == '-' || s[0] == '+') && r == s[1..])
  {
    if s != [] && (s[0] == '-' || s[0] == '+') then s[1..] else s
  }

  /** The string starts with a minus sign. */
  predicate MinusSign(s: string) {
    s != [] && s[0] == '-'
  }

  /** The length of the run of digits the string starts with. */
  function DigitRun(s: string): (n: nat)
    ensures n <= |s|
    ensures forall i :: 0 <= i < n ==> IsDigit(s[i])
    ensures n < |s| ==> !IsDigit(s[n])
  {
    if s != [] && IsDigit(s[0]) then 1 + DigitRun(s[1..]) else 0
  }

  predicate AllDigits(s: string) {
    forall i :: 0 <= i < |s| ==> IsDigit(s[i])
  }

  /** The value of a string of decimal digits. */
  function DigitsValue(s: string): nat
    requires AllDigits(s)
  {
    if s == [] then 0 else 10 * DigitsValue(s[..|s| - 1]) + DigitValue(s[|s| - 1])
  }

  /** The decimal digits of a natural number, without leading zeros. */
  function Decimal(n: nat): (s: string)
    ensures s != [] && AllDigits(s)
  {
    if n < 10 then [DigitChar(n)] else Decimal(n / 10) + [DigitChar(n % 10)]
  }

  /** `String(n)` for an integer of the size a request carries. */
  function NumberString(n: int): string {
    if n < 0 then "-" + Decimal(-n) else Decimal(n)
  }

  /** `parseInt(s, 10)`: after white space and a sign, the run of digits, or
      nothing (`NaN`) when no digit follows. */
  function ParseIntPrefix(s: string): (r: Option<int>)
    ensures r.Some? <==> Unsigned(TrimStart(s)) != [] && IsDigit(Unsigned(TrimStart(s))[0])
  {
    var t := TrimStart(s);
    var u := Unsigned(t);
    var k := DigitRun(u);
    if k == 0 then None
    else if MinusSign(t) then Some(-(DigitsValue(u[..k]) as int))
    else Some(DigitsValue(u[..k]))
  }

  /** `parseFloat(s)` gives a finite number: after white space and a sign
      comes a digit, or a point followed by a digit. (`Infinity` is not
      finite.) */
  predicate FloatPrefix(s: string) {
    var u := Unsigned(TrimStart(s));
    u != [] && (IsDigit(u[0]) || (u[0] == '.' && |u| > 1 && IsDigit(u[1])))
  }

  /** Reading the digits of a number gives the number back. */
  lemma {:induction false} DecimalValue(n: nat)
    ensures DigitsValue(Decimal(n)) == n
  {
    if n >= 10 {
      var s := Decimal(n);
      assert s[..|s| - 1] == Decimal(n / 10);
      DecimalValue(n / 10);
    }
  }

  /** A run of digits followed by anything that is not a digit parses as
      the value of the digits. */
  lemma DigitsThenTail(digits: string, tail: string)
    requires digits != [] && AllDigits(digits)
    requires tail == [] || !IsDigit(tail[0])
    ensures ParseIntPrefix(digits + tail) == Some(DigitsValue(digits))
  {
    var s := digits + tail;
    assert s[0] == digits[0];
    assert TrimStart(s) == s by {
      assert !IsSpace(s[0]);
    }
    assert Unsigned(s) == s && !MinusSign(s);
    DigitRunOf(digits, tail);
    assert s[..|digits|] == digits;
  }

  lemma {:induction false} DigitRunOf(digits: string, tail: string)
    requires AllDigits(digits)
    requires tail == [] || !IsDigit(tail[0])
    ensures DigitRun(digits + tail) == |digits|
  {
    if digits != [] {
      assert (digits + tail)[1..] == digits[1..] + tail;
      DigitRunOf(digits[1..], tail);
    }
  }

  /** A minus sign before a run of digits negates its value. */
  lemma NegatedDigits(digits: string)
    requires digits != [] && AllDigits(digits)
    ensures ParseIntPrefix("-" + digits) == Some(-(DigitsValue(digits) as int))
  {
    var s := "-" + digits;
    assert TrimStart(s) == s by {
      assert s[0] == '-';
    }
    assert Unsigned(s) == digits by {
      assert s[1..] == digits;
    }
    WholeRun(digits);
  }

  /** A string of digits alone parses as its value. */
  lemma UnsignedDigits(digits: string)
    requires digits != [] && AllDigits(digits)
    ensures ParseIntPrefix(digits) == Some(DigitsValue(digits))
  {
    var d := digits[0];
    assert IsDigit(d) && !IsSpace(d) && d != '-' && d != '+';
    assert TrimStart(digits) == digits;
    assert Unsigned(digits) == digits && !MinusSign(digits);
    WholeRun(digits);
  }

  /** A string of digits is one run. */
  lemma WholeRun(digits: string)
    requires AllDigits(digits)
    ensures DigitRun(digits) == |digits| && digits[..DigitRun(digits)] == digits
  {
    DigitRunOf(digits, []);
    assert digits + [] == digits;
  }

  /** `parseInt(String(n), 10) == n`. */
  lemma ParseIntOfNumber(n: int)
    ensures ParseIntPrefix(NumberString(n)) == Some(n)
  {
    if n < 0 {
      DecimalValue(-n);
      NegatedDigits(Decimal(-n));
    } else {
      DecimalValue(n);
      UnsignedDigits(Decimal(n));
    }
  }

  /** `parseInt(v, 10)` of a body value, through `String(v)`: a number is
      itself, since `String(n)` reads back as `n` (`ParseIntOfNumber`); an
      array is read through its first element (the elements are joined with
      commas, and a comma ends the digits); `undefined`, `null`,
      booleans and objects print as words or `[object Object]`, which start
      with no digit. `JsonText` is only produced by the model, never read
      from a body, and parses as nothing. */
  function ParseInt(v: Val): (r: Option<int>)
    ensures v.Num? ==> r == Some(v.n)
    ensures v.Str? ==> r == ParseIntPrefix(v.s)
    ensures v.Undefined? || v.Null? || v.Bool? || v.Obj? ==> r.None?
    ensures v.Arr? && (v.items == [] || v.items[0].Undefined? || v.items[0].Null?) ==> r.None?
    ensures v.Arr? && v.items != [] && !v.items[0].Undefined? && !v.items[0].Null? ==> r == ParseInt(v.items[0])
  {
    match v
    case Num(n) => Some(n)
    case Str(s) => ParseIntPrefix(s)
    case Arr(items) =>
      if items == [] || items[0].Undefined? || items[0].Null? then None else ParseInt(items[0])
    case _ => None
  }

  /** `parseFloat(v)` of a body value is a finite number, read through
      `String(v)` as `ParseInt` is. */
  predicate ParsesAsFloat(v: Val)
    ensures v.Num? ==> ParsesAsFloat(v)
    ensures v.Undefined? || v.Null? || v.Bool? || v.Obj? ==> !ParsesAsFloat(v)
  {
    match v
    case Num(_) => true
    case Str(s) => FloatPrefix(s)
    case Arr(items) => items != [] && !items[0].Undefined? && !items[0].Null? && ParsesAsFloat(items[0])
    case _ => false
  }

  /** Whatever `parseInt` reads as a number, `parseFloat` does too. */
  lemma {:induction false} IntegerParsesAsFloat(v: Val)
    ensures ParseInt(v).Some? ==> ParsesAsFloat(v)
  {
    match v
    case Arr(items) =>
      if items != [] && !items[0].Undefined? && !items[0].Null? {
        IntegerParsesAsFloat(items[0]);
      }
    case _ =>
  }

  /** The converse fails for a leading point: ".5" is a float but no integer. */
  lemma LeadingPoint()
    ensures ParsesAsFloat(Str(".5")) && ParseInt(Str(".5")).None?
  {
    var s := ".5";
    assert !IsSpace(s[0]);
    assert TrimStart(s) == s;
    assert Unsigned(s) == s;
  }
}
