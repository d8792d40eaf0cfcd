/** The JavaScript value semantics the job-search route depends on: truthiness
    of a request field, `String(v)` and `parseInt(v, 10)`. */
module Js {
  import opened Common
  import opened Text

  /** A JSON request-body field as the route handler sees it; `Undefined`
      is a field the body does not carry. Numbers are integers. */
  datatype JsValue = Undefined | Null | Bool(b: bool) | Num(n: int) | Str(s: string)

  /** JavaScript truthiness (`!v` is false). */
  predicate Truthy(v: JsValue) {
    match v
    case Undefined => false
    case Null => false
    case Bool(b) => b
    case Num(n) => n != 0
    case Str(s) => s != ""
  }

  predicate IsDigit(c: char) {
    '0' <= c <= '9'
  }

  predicate AllDigits(s: string) {
    forall i :: 0 <= i < |s| ==> IsDigit(s[i])
  }

  function DigitChar(d: nat): (c: char)
    requires d < 10
    ensures IsDigit(c)
  {
    ('0' as int + d) as char
  }

  function DigitValue(c: char): nat
    requires IsDigit(c)
  {
    c as int - '0' as int
  }

  /** The decimal digits of `n`, without leading zeros. */
  function NatToString(n: nat): (s: string)
    ensures s != [] && AllDigits(s)
  {
    if n < 10 then [DigitChar(n)] else NatToString(n / 10) + [DigitChar(n % 10)]
  }

  /** `String(n)` for an integer (plain decimal notation). */
  function NumberToString(n: int): string {
    if n < 0 then "-" + NatToString(-n) else NatToString(n)
  }

  /** `String(v)`. */
  function ToString(v: JsValue): string {
    match v
    case Undefined => "undefined"
    case Null => "null"
    case Bool(b) => if b then "true" else "false"
    case Num(n) => NumberToString(n)
    case Str(s) => s
  }

  /** The value of a run of decimal digits, most significant first. */
  function DigitsValue(ds: string): nat
    requires AllDigits(ds)
  {
    if ds == [] then 0 else 10 * DigitsValue(ds[..|ds| - 1]) + DigitValue(ds[|ds| - 1])
  }

  /** The longest prefix of `s` made of decimal digits. */
  function DigitPrefix(s: string): (ds: string)
    ensures |ds| <= |s| && ds == s[..|ds|]
    ensures AllDigits(ds)
    ensures |ds| < |s| ==> !IsDigit(s[|ds|])
  {
    if s != [] && IsDigit(s[0]) then
      var ds := [s[0]] + DigitPrefix(s[1..]);
      assert s[..|ds|] == [s[0]] + s[1..][..|ds| - 1];
      ds
    else []
  }

  /** `parseInt(s, 10)` on a string: skip leading whitespace, read an
      optional sign, then the longest run of digits; `None` stands for NaN. */
  function ParseIntString(s: string): Option<int> {
    var t := s[LeadingSpace(s)..];
    var body := if t != [] && (t[0] == '-' || t[0] == '+') then t[1..] else t;
    var ds := DigitPrefix(body);
    if ds == [] then None
    else
      var magnitude: int := DigitsValue(ds);
      if t[0] == '-' then Some(-magnitude) else Some(magnitude)
  }

  /** `parseInt(v, 10)`: the value is converted with `String` first. */
  function ParseInt(v: JsValue): Option<int> {
    ParseIntString(ToString(v))
  }

  lemma {:induction false} DigitsValueOfNat(n: nat)
    ensures DigitsValue(NatToString(n)) == n
  {
    if n >= 10 {
      var s := NatToString(n);
      assert s[..|s| - 1] == NatToString(n / 10);
      DigitsValueOfNat(n / 10);
    }
  }

  lemma DigitPrefixOfDigits(s: string)
    requires AllDigits(s)
    ensures DigitPrefix(s) == s
  {
  }

  /** `parseInt` reads back what `String` writes: for every integer `n`,
      `parseInt(String(n), 10) === n`. */
  lemma {:induction false} ParseIntRoundTrip(n: int)
    ensures ParseIntString(NumberToString(n)) == Some(n)
  {
    var s := NumberToString(n);
    var digits := NatToString(if n < 0 then -n else n);
    assert !IsSpace(s[0]);
    assert LeadingSpace(s) == 0;
    assert s[0..] == s;
    DigitPrefixOfDigits(digits);
    DigitsValueOfNat(if n < 0 then -n else n);
    if n < 0 {
      assert s[1..] == digits;
    } else {
      assert s[0] != '-' && s[0] != '+';
    }
  }

  /** `parseInt` of a number gives the number back; of `null`, `true` or
      `false` it gives NaN. */
  lemma ParseIntOfValue(v: JsValue)
    ensures v.Num? ==> ParseInt(v) == Some(v.n)
    ensures v.Null? || v.Bool? ==> ParseInt(v) == None
  {
    if v.Num? {
      ParseIntRoundTrip(v.n);
    } else if v.Null? {
      assert ToString(v) == "null";
      assert !IsSpace('n');
      assert LeadingSpace("null") == 0;
      assert !IsDigit("null"[0]);
    } else if v.Bool? {
      var s := ToString(v);
      assert !IsSpace(s[0]) && !IsDigit(s[0]) && s[0] != '-' && s[0] != '+';
      assert LeadingSpace(s) == 0;
    }
  }
}
