/**
 * JavaScript values as the route handlers and the pages see them: truthiness,
 * `Number(x)`, `x !== y` on numbers, `String(n)`, and Mongoose's cast of a value
 * into a `Number` schema path. Prices are integers in this model; a string counts
 * as numeric only when it is an optional sign followed by the decimal digits 0-9.
 */
module JsValue {
  import opened Common

  /** A raw value sent for a price: absent, a JSON string, or a JSON number. */
  datatype Raw = Undefined | Str(s: string) | Num(n: int)

  /** The result of `Number(x)`. */
  datatype Number = NaN | Val(v: int)

  /** JavaScript truthiness: `undefined`, `""` and `0` are falsy. */
  predicate Truthy(x: Raw) {
    match x
    case Undefined => false
    case Str(s) => s != ""
    case Num(n) => n != 0
  }

  predicate IsDigit(c: char) {
    '0' <= c <= '9'
  }

  predicate AllDigits(s: string) {
    forall i :: 0 <= i < |s| ==> IsDigit(s[i])
  }

  /** The value of a string of decimal digits. */
  function DigitsValue(s: string): nat
    requires AllDigits(s)
  {
    if s == [] then 0 else DigitsValue(s[..|s| - 1]) * 10 + (s[|s| - 1] as int - '0' as int)
  }

  /** The integer a non-empty string denotes: an optional `+` or `-`, then one or more digits. */
  function ParseInteger(s: string): (r: Option<int>)
    ensures s == [] ==> r.None?
    ensures s != [] && AllDigits(s) ==> r == Some(DigitsValue(s))
    ensures |s| >= 2 && (s[0] == '-' || s[0] == '+') && AllDigits(s[1..]) ==>
              r == Some(if s[0] == '-' then -(DigitsValue(s[1..]) as int) else DigitsValue(s[1..]))
    ensures r.Some? <==> (s != [] && AllDigits(s)) || (|s| >= 2 && (s[0] == '-' || s[0] == '+') && AllDigits(s[1..]))
  {
    if s != [] && AllDigits(s) then Some(DigitsValue(s))
    else if |s| >= 2 && (s[0] == '-' || s[0] == '+') && AllDigits(s[1..]) then
      var magnitude: int := DigitsValue(s[1..]);
      Some(if s[0] == '-' then -magnitude else magnitude)
    else None
  }

  /** `Number(x)`: `Number("") == 0`, `Number(undefined)` is NaN, other text is NaN unless it is an integer. */
  function ToNumber(x: Raw): (r: Number)
    ensures x.Num? ==> r == Val(x.n)
    ensures x.Undefined? ==> r.NaN?
    ensures x == Str("") ==> r == Val(0)
    ensures x.Str? && x.s != "" ==> (r.NaN? <==> ParseInteger(x.s).None?)
    ensures x.Str? && ParseInteger(x.s).Some? ==> r == Val(ParseInteger(x.s).value)
  {
    match x
    case Undefined => NaN
    case Num(n) => Val(n)
    case Str(s) =>
      if s == "" then Val(0)
      else match ParseInteger(s)
        case None => NaN
        case Some(n) => Val(n)
  }

  /** A sign is read, and leading zeros do not count: `Number("-5") == -5`, `Number("+007") == 7`. */
  lemma SignedText()
    ensures ToNumber(Str("-5")) == Val(-5)
    ensures ToNumber(Str("+007")) == Val(7)
    ensures ToNumber(Str("5-")).NaN? && ToNumber(Str("-")).NaN?
  {
    assert !IsDigit("-5"[0]) && "-5"[1..] == "5";
    assert AllDigits("5") && DigitsValue("5") == 5;
    assert !IsDigit("+007"[0]) && "+007"[1..] == "007";
    assert AllDigits("007");
    assert DigitsValue("007") == DigitsValue("00") * 10 + 7;
    assert DigitsValue("00") == DigitsValue("0") * 10;
    assert !IsDigit("5-"[1]) && !IsDigit("-"[0]);
  }

  /** `a !== b` on two numbers: NaN differs from every number, itself included. */
  predicate StrictlyDiffer(a: Number, b: Number) {
    a.NaN? || b.NaN? || a.v != b.v
  }

  function DigitChar(d: nat): (c: char)
    requires d < 10
    ensures IsDigit(c) && c as int - '0' as int == d
  {
    ('0' as int + d) as char
  }

  /** `String(n)` for a non-negative integer. */
  function Decimal(n: nat): (s: string)
    ensures s != [] && AllDigits(s)
  {
    if n < 10 then [DigitChar(n)] else Decimal(n / 10) + [DigitChar(n % 10)]
  }

  /** Reading back the decimal text of a number gives the number. */
  lemma {:induction false} DecimalRoundTrip(n: nat)
    ensures DigitsValue(Decimal(n)) == n
  {
    if n >= 10 {
      DecimalRoundTrip(n / 10);
      var s := Decimal(n);
      assert s[..|s| - 1] == Decimal(n / 10);
    }
  }

  /** `String(n)` for any integer. */
  function IntegerText(n: int): string {
    if n < 0 then "-" + Decimal(-n) else Decimal(n)
  }

  /** `Number(String(n)) === n`: a price sent as its decimal text is the same number. */
  lemma NumberOfText(n: int)
    ensures ToNumber(Str(IntegerText(n))) == Val(n)
    ensures !StrictlyDiffer(ToNumber(Str(IntegerText(n))), ToNumber(Num(n)))
  {
    if n < 0 {
      DecimalRoundTrip(-n);
      var s := IntegerText(n);
      assert s[1..] == Decimal(-n);
      assert !IsDigit(s[0]);
    } else {
      DecimalRoundTrip(n);
    }
  }

  /** Outcome of Mongoose's cast of a value into a `Number` path. */
  datatype NumberCast = Unset | Null | Cast(v: int) | CastError

  /** Mongoose's number cast: an absent value leaves the path alone, `""` becomes null. */
  function CastNumber(x: Raw): (r: NumberCast)
    ensures r.Unset? <==> x.Undefined?
    ensures r.Cast? ==> ToNumber(x) == Val(r.v)
    ensures Truthy(x) && !r.CastError? ==> r.Cast? && ToNumber(x) == Val(r.v)
    ensures x.Num? ==> r == Cast(x.n)
    ensures x == Str("") ==> r == Null
    ensures r.CastError? <==> x.Str? && x.s != "" && ToNumber(x).NaN?
  {
    match x
    case Undefined => Unset
    case Num(n) => Cast(n)
    case Str(s) =>
      if s == "" then Null
      else match ParseInteger(s)
        case None => CastError
        case Some(n) => Cast(n)
  }
}
