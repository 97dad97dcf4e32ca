/** Python values as they appear in the application's row dictionaries,
    and the two conversions between integers and decimal text that the
    application relies on: `str(n)` (inside f-strings) and `int(text)`. */
module Values {

  datatype Option<+T> = None | Some(value: T)

  /** A value, or the name of the exception raised instead. */
  datatype Result<+T> = Ok(value: T) | Fail(error: string)

  /** A value stored under a key of a row dictionary: a string, an integer,
      or Python's `None` (a NULL column). */
  datatype Value = Str(s: string) | Int(i: int) | Null

  /** A row dictionary as returned by the store, or built by the GUI. */
  type Record = map<string, Value>

  /** `d.get(key, default)` */
  function Get(m: Record, key: string, default: Value): Value
  {
    if key in m then m[key] else default
  }

  predicate IsDecimalDigit(c: char)
  {
    '0' <= c <= '9'
  }

  /** A non-empty run of the ASCII decimal digits 0-9. */
  predicate IsDecimalString(s: string)
  {
    |s| > 0 && forall i :: 0 <= i < |s| ==> IsDecimalDigit(s[i])
  }

  function DigitChar(d: nat): (c: char)
    requires d < 10
    ensures IsDecimalDigit(c) && c as int - '0' as int == d
  {
    ('0' as int + d) as char
  }

  /** `str(n)` for a non-negative integer: its shortest decimal form. */
  function NatToString(n: nat): (s: string)
    decreases n
  {
    if n < 10 then [DigitChar(n)] else NatToString(n / 10) + [DigitChar(n % 10)]
  }

  /** `str(i)` for any integer. */
  function IntToString(i: int): string
  {
    if i < 0 then "-" + NatToString(-i) else NatToString(i)
  }

  /** `str(v)`, as an f-string renders a value. */
  function Show(v: Value): string
  {
    match v
    case Str(s) => s
    case Int(i) => IntToString(i)
    case Null => "None"
  }

  lemma ShowZero()
    ensures Show(Int(0)) == "0"
  {
  }

  /** The number a run of decimal digits denotes; `int(s)` on such a run
      (leading zeros are allowed and ignored). */
  function DigitsValue(s: string): (n: nat)
    requires forall i :: 0 <= i < |s| ==> IsDecimalDigit(s[i])
    decreases |s|
  {
    if s == [] then 0
    else
      assert IsDecimalDigit(s[|s| - 1]);
      DigitsValue(s[..|s| - 1]) * 10 + (s[|s| - 1] as int - '0' as int)
  }

  /** Printing a natural number and reading it back gives the number back,
      and the printed form is a run of decimal digits without a leading
      zero (other than "0" itself). */
  lemma {:induction false} NatToStringRoundTrip(n: nat)
    ensures IsDecimalString(NatToString(n))
    ensures DigitsValue(NatToString(n)) == n
    ensures NatToString(n)[0] == '0' ==> n == 0
    decreases n
  {
    if n >= 10 {
      NatToStringRoundTrip(n / 10);
      var s := NatToString(n);
      assert s[..|s| - 1] == NatToString(n / 10);
    }
  }
}
