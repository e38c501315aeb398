/**
  The JavaScript values the helpers receive, and the numeric conversion that
  unary `+` applies to them.

  Numbers are mathematical reals; the IEEE-754 value NaN is its own
  constructor, and the conversion yields `None` where JavaScript yields NaN.
 */
module JsValues {
  import opened Wrappers

  datatype JsVal =
    | Undefined
    | Null
    | Bool(b: bool)
    | Num(n: real)
    | NaN
    | Str(s: string)
    | Obj(fields: map<string, JsVal>)
  {
    /** `null` or `undefined`: the values a property read cannot start from. */
    predicate IsNullish() {
      Undefined? || Null?
    }
  }

  /** The object literal `{}`. */
  const EmptyObject: JsVal := Obj(map[])

  /**
    A default parameter `p = d`: the default replaces the argument only when
    the argument is `undefined` (an explicit `null` is kept).
   */
  function OrDefault(arg: JsVal, default: JsVal): (r: JsVal)
    ensures arg != Undefined ==> r == arg
    ensures arg == Undefined ==> r == default
  {
    if arg.Undefined? then default else arg
  }

  /**
    Unary `+` (ToNumber): `None` stands for NaN. `undefined` and objects give
    NaN, `null` and `false` give 0, `true` gives 1, a number is itself, and a
    string is read as a decimal literal.
   */
  function ToNumber(v: JsVal): (r: Option<real>)
    ensures v.Num? ==> r == Some(v.n)
    ensures v.Undefined? || v.NaN? || v.Obj? ==> r == None
  {
    match v
    case Undefined => None
    case Null => Some(0.0)
    case Bool(b) => Some(if b then 1.0 else 0.0)
    case Num(n) => Some(n)
    case NaN => None
    case Str(s) => StringToNumber(s)
    case Obj(_) => None
  }

  // ---------------------------------------------------------------------
  // Strings: the decimal subset of the StringNumericLiteral grammar.
  // The empty string is 0; otherwise an optional sign, then digits with at
  // most one '.', and at least one digit on either side of it.
  // ---------------------------------------------------------------------

  predicate IsDigit(c: char) {
    '0' <= c <= '9'
  }

  predicate AllDigits(s: string) {
    forall i :: 0 <= i < |s| ==> IsDigit(s[i])
  }

  function DigitValue(c: char): (d: nat)
    requires IsDigit(c)
    ensures d < 10
  {
    (c as int) - ('0' as int)
  }

  function Pow10(k: nat): (p: nat)
    ensures p >= 1
  {
    if k == 0 then 1 else 10 * Pow10(k - 1)
  }

  /** The natural number a string of decimal digits denotes (most significant first). */
  function DigitsValue(s: string): nat
    requires AllDigits(s)
  {
    if |s| == 0 then 0 else DigitsValue(s[..|s| - 1]) * 10 + DigitValue(s[|s| - 1])
  }

  /** The position of the first `c` in `s`, or `|s|` when there is none. */
  function IndexOf(s: string, c: char): (i: nat)
    ensures i <= |s|
    ensures i < |s| ==> s[i] == c
    ensures forall j :: 0 <= j < i ==> s[j] != c
  {
    if |s| == 0 then 0
    else if s[0] == c then 0
    else 1 + IndexOf(s[1..], c)
  }

  /** An unsigned decimal literal `digits [ '.' digits ]`, at least one digit in all. */
  function UnsignedDecimal(s: string): (r: Option<real>)
    ensures r.Some? ==> r.value >= 0.0
    ensures |s| >= 1 && !IsDigit(s[0]) && s[0] != '.' ==> r == None
  {
    var dot := IndexOf(s, '.');
    if dot == |s| then
      if |s| == 0 || !AllDigits(s) then None else Some(DigitsValue(s) as real)
    else
      var whole, frac := s[..dot], s[dot + 1..];
      assert dot > 0 ==> whole[0] == s[0];
      if !AllDigits(whole) || !AllDigits(frac) || (|whole| == 0 && |frac| == 0) then None
      else Some(DigitsValue(whole) as real + (DigitsValue(frac) as real) / (Pow10(|frac|) as real))
  }

  /**
    `+s` for a string `s`: the empty string is 0, a string that starts with
    neither a digit, a sign nor '.' is NaN, and the sign decides the sign of
    the number read.
   */
  function StringToNumber(s: string): (r: Option<real>)
    ensures |s| == 0 ==> r == Some(0.0)
    ensures |s| >= 1 && !IsDigit(s[0]) && s[0] !in {'-', '+', '.'} ==> r == None
    ensures r.Some? && |s| >= 1 && s[0] == '-' ==> r.value <= 0.0
    ensures r.Some? && (|s| == 0 || s[0] != '-') ==> r.value >= 0.0
  {
    if |s| == 0 then Some(0.0)
    else if s[0] == '-' then
      match UnsignedDecimal(s[1..])
      case Some(x) => Some(-x)
      case None => None
    else if s[0] == '+' then UnsignedDecimal(s[1..])
    else UnsignedDecimal(s)
  }

  // ---------------------------------------------------------------------
  // The partner of StringToNumber: the plain decimal text of an integer
  // reads back as that integer.
  // ---------------------------------------------------------------------

  function DigitChar(d: nat): (c: char)
    requires d < 10
    ensures IsDigit(c) && DigitValue(c) == d
  {
    (('0' as int) + d) as char
  }

  /** The shortest decimal text of `n`. */
  function NatToDigits(n: nat): (s: string)
    ensures |s| >= 1 && AllDigits(s)
  {
    if n < 10 then [DigitChar(n)] else NatToDigits(n / 10) + [DigitChar(n % 10)]
  }

  /** The plain decimal text of an integer `n`, with a leading '-' when negative. */
  function IntToString(n: int): string
  {
    if n < 0 then "-" + NatToDigits(-n) else NatToDigits(n)
  }

  lemma {:induction false} DigitsValueOfNatToDigits(n: nat)
    ensures DigitsValue(NatToDigits(n)) == n
  {
    var s := NatToDigits(n);
    if n >= 10 {
      assert s[..|s| - 1] == NatToDigits(n / 10);
      DigitsValueOfNatToDigits(n / 10);
    }
  }

  lemma {:induction false} IndexOfDotInDigits(s: string)
    requires AllDigits(s)
    ensures IndexOf(s, '.') == |s|
  {
    if |s| > 0 {
      assert IsDigit(s[0]);
      IndexOfDotInDigits(s[1..]);
    }
  }

  /** A digit string read as an unsigned literal is the number its digits denote. */
  lemma UnsignedDecimalOfDigits(s: string)
    requires |s| >= 1 && AllDigits(s)
    ensures UnsignedDecimal(s) == Some(DigitsValue(s) as real)
  {
    IndexOfDotInDigits(s);
  }

  /** Reading back the decimal text of any integer gives that integer. */
  lemma StringToNumberOfIntToString(n: int)
    ensures StringToNumber(IntToString(n)) == Some(n as real)
  {
    if n < 0 {
      var digits := NatToDigits(-n);
      var s := "-" + digits;
      assert s[1..] == digits;
      UnsignedDecimalOfDigits(digits);
      DigitsValueOfNatToDigits(-n);
    } else {
      var digits := NatToDigits(n);
      assert IsDigit(digits[0]);
      UnsignedDecimalOfDigits(digits);
      DigitsValueOfNatToDigits(n);
    }
  }

  /** `+"3.5"` is 3.5. */
  lemma StringToNumberOfDecimalExample()
    ensures StringToNumber("3.5") == Some(3.5)
  {
    var s := "3.5";
    assert IndexOf(s, '.') == 1;
    assert s[..1] == "3" && s[2..] == "5";
    assert DigitsValue("3") == 3 by { assert "3"[..0] == ""; }
    assert DigitsValue("5") == 5 by { assert "5"[..0] == ""; }
  }

  /** Strings with no numeric reading, and the empty string, which reads as 0. */
  lemma StringToNumberEdgeCases()
    ensures StringToNumber("") == Some(0.0)
    ensures StringToNumber("abc") == None
    ensures StringToNumber(".") == None
    ensures StringToNumber("-") == None
    ensures StringToNumber("1.2.3") == None
  {
    assert !IsDigit("abc"[0]);
    assert IndexOf(".", '.') == 0;
    assert "-"[1..] == "";
    var t := "1.2.3";
    assert IndexOf(t, '.') == 1;
    assert t[2..][1] == '.';
  }
}
