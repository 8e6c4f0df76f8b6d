/** Scalars as they cross the boundaries of the system: JSON numbers and
    strings in payloads, JavaScript primitives, Python ints and strs, and
    SQLite INTEGER and TEXT storage values.  The module gives each runtime's
    operation on them its own definition: JavaScript strict equality,
    Python `str()`, SQLite's INTEGER column affinity, and SQLite's BINARY
    collation on text. */
module Values {

  datatype Value = Int(n: int) | Str(s: string)

  /** JavaScript `===` on a number and a string: no conversion, so values of
      different types are never equal. */
  predicate StrictEquals(a: Value, b: Value)
    ensures StrictEquals(a, b) <==> a == b
    ensures a.Int? != b.Int? ==> !StrictEquals(a, b)
  {
    match (a, b)
    case (Int(x), Int(y)) => x == y
    case (Str(x), Str(y)) => x == y
    case _ => false
  }

  predicate IsDigit(c: char) {
    '0' <= c <= '9'
  }

  predicate IsDigits(s: string) {
    |s| > 0 && forall i :: 0 <= i < |s| ==> IsDigit(s[i])
  }

  function DigitChar(d: int): (c: char)
    requires 0 <= d < 10
    ensures IsDigit(c) && c as int - '0' as int == d
  {
    ('0' as int + d) as char
  }

  /** Decimal digits of a natural number, most significant first, without
      leading zeros. */
  function Digits(n: nat): (r: string)
    ensures IsDigits(r)
    ensures r[0] == '0' ==> n == 0
    decreases n
  {
    if n < 10 then [DigitChar(n)] else Digits(n / 10) + [DigitChar(n % 10)]
  }

  /** The number a string of decimal digits denotes. */
  function DigitsValue(s: string): nat
    requires forall i :: 0 <= i < |s| ==> IsDigit(s[i])
    decreases |s|
  {
    if s == [] then 0
    else
      var last := s[|s| - 1];
      assert IsDigit(last);
      DigitsValue(s[..|s| - 1]) * 10 + (last as int - '0' as int)
  }

  lemma {:induction false} DigitsRoundTrip(n: nat)
    ensures DigitsValue(Digits(n)) == n
    decreases n
  {
    if n >= 10 {
      var s := Digits(n);
      assert s[..|s| - 1] == Digits(n / 10);
      DigitsRoundTrip(n / 10);
    }
  }

  /** Python's `str()` of an int, which is also JavaScript's `String()` of an
      integer in the range where numbers print without an exponent. */
  function IntText(n: int): string {
    if n < 0 then "-" + Digits(-n) else Digits(n)
  }

  /** Text that SQLite reads as an integer literal: an optional sign followed
      by one or more decimal digits. */
  predicate IsIntegerText(s: string) {
    if |s| > 0 && (s[0] == '-' || s[0] == '+') then IsDigits(s[1..]) else IsDigits(s)
  }

  function IntegerTextValue(s: string): int
    requires IsIntegerText(s)
  {
    if s[0] == '-' then 0 - DigitsValue(s[1..]) as int
    else if s[0] == '+' then DigitsValue(s[1..])
    else DigitsValue(s)
  }

  /** Parsing the text of an int gives the int back. */
  lemma IntTextRoundTrip(n: int)
    ensures IsIntegerText(IntText(n))
    ensures IntegerTextValue(IntText(n)) == n
  {
    var s := IntText(n);
    if n < 0 {
      assert s[1..] == Digits(-n);
      DigitsRoundTrip(-n);
    } else {
      DigitsRoundTrip(n);
    }
  }

  /** Two ints print alike exactly when they are equal. */
  lemma IntTextInjective(a: int, b: int)
    ensures IntText(a) == IntText(b) <==> a == b
  {
    if IntText(a) == IntText(b) {
      IntTextRoundTrip(a);
      IntTextRoundTrip(b);
    }
  }

  /** What a column of INTEGER affinity makes of a value stored into it or
      compared with it, for the values modelled here: a number stays that
      number, text that reads as an integer literal becomes that integer,
      and other text stays text. SQLite also converts text that reads as a
      real literal ("2.0" to 2, "2.5" to a REAL); that conversion is not
      modelled, so such text stays text here. */
  function IntegerAffinity(v: Value): (r: Value)
    ensures v.Int? ==> r == v
    ensures r.Str? ==> r == v && !IsIntegerText(r.s)
    ensures v.Str? && IsIntegerText(v.s) ==> r == Int(IntegerTextValue(v.s))
  {
    match v
    case Int(_) => v
    case Str(s) => if IsIntegerText(s) then Int(IntegerTextValue(s)) else v
  }

  /** The text of an int, stored into or compared with an INTEGER column, is
      that int again. */
  lemma AffinityOfIntText(n: int)
    ensures IntegerAffinity(Str(IntText(n))) == Int(n)
  {
    IntTextRoundTrip(n);
  }

  /** Python's `str()`, and the `{}` of an f-string, on a value. */
  function PyStr(v: Value): string {
    match v
    case Int(n) => IntText(n)
    case Str(s) => s
  }

  /** SQLite's BINARY collation on text: lexicographic order by code point
      (the order `memcmp` gives on the UTF-8 bytes), a proper prefix first. */
  predicate TextLe(a: string, b: string)
    decreases |a|
  {
    if a == [] then true
    else if b == [] then false
    else if a[0] != b[0] then a[0] < b[0]
    else TextLe(a[1..], b[1..])
  }

  lemma {:induction false} TextLeTotal(a: string, b: string)
    ensures TextLe(a, b) || TextLe(b, a)
    decreases |a|
  {
    if a != [] && b != [] && a[0] == b[0] {
      TextLeTotal(a[1..], b[1..]);
    }
  }

  lemma {:induction false} TextLeTransitive(a: string, b: string, c: string)
    requires TextLe(a, b) && TextLe(b, c)
    ensures TextLe(a, c)
    decreases |a|
  {
    if a != [] && b != [] && c != [] && a[0] == b[0] && b[0] == c[0] {
      TextLeTransitive(a[1..], b[1..], c[1..]);
    }
  }
}
