/** The few JavaScript runtime notions the handlers depend on: thrown
    errors, truthiness tests and the conversion `Number(text)`. */
module JsValues {
  import opened Wrappers

  /** One entry of a validation error (`ZodError.errors`). */
  datatype Issue = Issue(path: seq<string>, message: string)

  /** A thrown JavaScript error: its `name`, its `message` and, for a
      validation error, the list of issues it carries in `errors`. */
  datatype Exception = Exception(name: string, message: string, errors: seq<Issue>)

  /** `new Error(message)` / `Error(message)`. */
  function PlainError(message: string): Exception
  {
    Exception("Error", message, [])
  }

  /** The error a schema `parse` throws when validation fails. */
  function ZodError(issues: seq<Issue>): Exception
  {
    Exception("ZodError", "", issues)
  }

  /** A JavaScript number as far as this model needs one. */
  datatype JsNumber = Num(value: int) | NaN

  /** `if (x)` applied to an optional number: `undefined` and `0` are falsy. */
  predicate TruthyNumber(x: Option<int>)
  {
    x.Some? && x.value != 0
  }

  /** `if (x)` applied to an optional string: `undefined` and `""` are falsy. */
  predicate TruthyText(x: Option<string>)
  {
    x.Some? && x.value != ""
  }

  predicate IsDigit(c: char)
  {
    '0' <= c <= '9'
  }

  predicate AllDigits(s: string)
  {
    forall i :: 0 <= i < |s| ==> IsDigit(s[i])
  }

  /** The value of a string of decimal digits, most significant first. */
  function DigitsValue(s: string): nat
    requires AllDigits(s)
    decreases |s|
  {
    if s == [] then 0 else DigitsValue(s[..|s| - 1]) * 10 + (s[|s| - 1] as int - '0' as int)
  }

  /** `Number(s)` for the integer texts a path parameter carries: an optional
      minus sign followed by at least one decimal digit. Every other text is
      mapped to NaN. */
  function ToNumber(s: string): (r: JsNumber)
    ensures r.Num? <==> (s != [] && AllDigits(s)) || (|s| > 1 && s[0] == '-' && AllDigits(s[1..]))
    // the number is the digits' value, negated after a minus sign
    ensures r.Num? ==> r.value == if s[0] == '-' then -(DigitsValue(s[1..]) as int) else DigitsValue(s)
  {
    if s != [] && AllDigits(s) then Num(DigitsValue(s))
    else if |s| > 1 && s[0] == '-' && AllDigits(s[1..]) then Num(-(DigitsValue(s[1..]) as int))
    else NaN
  }

  /** The canonical decimal text of a natural number (no leading zeros). */
  function DecimalText(n: nat): (s: string)
    ensures s != [] && AllDigits(s)
    ensures |s| > 1 ==> s[0] != '0'
  {
    if n < 10 then [('0' as int + n) as char]
    else DecimalText(n / 10) + [('0' as int + n % 10) as char]
  }

  lemma {:induction false} DigitsValueOfDecimalText(n: nat)
    ensures DigitsValue(DecimalText(n)) == n
  {
    if n >= 10 {
      DigitsValueOfDecimalText(n / 10);
      var s := DecimalText(n);
      assert s[..|s| - 1] == DecimalText(n / 10);
    }
  }

  /** `Number` reads back every decimal text exactly. */
  lemma NumberOfDecimalText(n: nat)
    ensures ToNumber(DecimalText(n)) == Num(n)
  {
    DigitsValueOfDecimalText(n);
  }

  /** ... and every negated one. */
  lemma NumberOfNegativeText(n: nat)
    ensures ToNumber("-" + DecimalText(n)) == Num(-(n as int))
  {
    DigitsValueOfDecimalText(n);
    var s := "-" + DecimalText(n);
    assert s[1..] == DecimalText(n);
    assert !IsDigit(s[0]);
  }

  /** A leading zero does not change the value of a digit string. */
  lemma {:induction false} DigitsValueLeadingZero(s: string)
    requires AllDigits(s)
    ensures AllDigits("0" + s) && DigitsValue("0" + s) == DigitsValue(s)
    decreases |s|
  {
    var z := "0" + s;
    if s != [] {
      DigitsValueLeadingZero(s[..|s| - 1]);
      assert z[..|z| - 1] == "0" + s[..|s| - 1];
    }
  }

  /** `k` zero digits. */
  function Zeros(k: nat): (z: string)
    ensures |z| == k && forall i :: 0 <= i < k ==> z[i] == '0'
  {
    if k == 0 then "" else "0" + Zeros(k - 1)
  }

  /** `Number` ignores leading zeros, after a minus sign too: `Number("007")`
      is 7 and `Number("-05")` is -5. */
  lemma {:induction false} NumberOfPaddedText(k: nat, n: nat)
    ensures ToNumber(Zeros(k) + DecimalText(n)) == Num(n)
    ensures ToNumber("-" + Zeros(k) + DecimalText(n)) == Num(-(n as int))
  {
    PaddedValue(k, n);
    var d := Zeros(k) + DecimalText(n);
    assert ("-" + Zeros(k) + DecimalText(n))[1..] == d;
    assert !IsDigit(("-" + Zeros(k) + DecimalText(n))[0]);
  }

  lemma {:induction false} PaddedValue(k: nat, n: nat)
    ensures AllDigits(Zeros(k) + DecimalText(n)) && DigitsValue(Zeros(k) + DecimalText(n)) == n
  {
    if k == 0 {
      assert Zeros(k) + DecimalText(n) == DecimalText(n);
      DigitsValueOfDecimalText(n);
    } else {
      PaddedValue(k - 1, n);
      assert Zeros(k) + DecimalText(n) == "0" + (Zeros(k - 1) + DecimalText(n));
      DigitsValueLeadingZero(Zeros(k - 1) + DecimalText(n));
    }
  }

  /** `String(n)` for an integer. */
  function IntText(n: int): string
  {
    if n >= 0 then DecimalText(n) else "-" + DecimalText(-n)
  }

  /** `Number(String(n)) == n`: the text of an integer identifies it. */
  lemma NumberOfIntText(n: int)
    ensures ToNumber(IntText(n)) == Num(n)
  {
    if n >= 0 { NumberOfDecimalText(n); } else { NumberOfNegativeText(-n); }
  }
}
