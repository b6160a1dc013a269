/** JavaScript values as the listing browser meets them: fields of fetched
    listings, elements of the stored favourites array, and what `String(...)`
    and the truthiness tests of js/main.js make of them. */
module JsValues {

  /** A JavaScript value. Numbers are integers here (JSON data in this
      application carries integer ids); `Obj` is any plain object. */
  datatype Value =
    | Undefined
    | Null
    | Bool(b: bool)
    | Num(n: int)
    | NaN
    | Str(s: string)
    | Arr(items: seq<Value>)
    | Obj

  /** What `JSON.parse` makes of a piece of text: it throws, or yields a value. */
  datatype Parsed = Malformed | Json(value: Value)

  /** JavaScript truthiness: `undefined`, `null`, `false`, `0`, `NaN` and `""` are falsy. */
  predicate Truthy(v: Value) {
    match v
    case Undefined => false
    case Null => false
    case Bool(b) => b
    case Num(n) => n != 0
    case NaN => false
    case Str(s) => s != ""
    case Arr(_) => true
    case Obj => true
  }

  predicate IsDigit(c: char) {
    '0' <= c <= '9'
  }

  function DigitChar(d: nat): (c: char)
    requires d < 10
    ensures IsDigit(c)
  {
    "0123456789"[d]
  }

  function DigitValue(c: char): nat {
    if IsDigit(c) then c as int - '0' as int else 0
  }

  /** Decimal digits of `n`, most significant first, without leading zeros. */
  function NatToString(n: nat): (r: string)
    ensures |r| >= 1
    ensures forall i :: 0 <= i < |r| ==> IsDigit(r[i])
    ensures r[0] == '0' ==> n == 0
  {
    if n < 10 then [DigitChar(n)] else NatToString(n / 10) + [DigitChar(n % 10)]
  }

  /** `String(n)` for an integer `n`. */
  function IntToString(n: int): string {
    if n < 0 then "-" + NatToString(-n) else NatToString(n)
  }

  /** The number a string of decimal digits denotes. */
  function DigitsValue(s: string): nat {
    if s == [] then 0 else DigitsValue(s[..|s| - 1]) * 10 + DigitValue(s[|s| - 1])
  }

  /** Reads back what `IntToString` writes. */
  function ParseInt(s: string): int {
    if |s| > 0 && s[0] == '-' then 0 - DigitsValue(s[1..]) else DigitsValue(s)
  }

  lemma {:induction false} NatToStringRoundTrip(n: nat)
    ensures DigitsValue(NatToString(n)) == n
  {
    if n >= 10 {
      var r := NatToString(n);
      assert r[..|r| - 1] == NatToString(n / 10);
      NatToStringRoundTrip(n / 10);
    }
  }

  /** The decimal form of an integer reads back as that integer. */
  lemma IntToStringRoundTrip(n: int)
    ensures ParseInt(IntToString(n)) == n
  {
    if n < 0 {
      var t := NatToString(-n);
      var s := "-" + t;
      assert s[0] == '-' && s[1..] == t;
      NatToStringRoundTrip(-n);
      assert ParseInt(s) == 0 - DigitsValue(t);
    } else {
      var t := NatToString(n);
      assert IsDigit(t[0]);
      NatToStringRoundTrip(n);
      assert ParseInt(t) == DigitsValue(t);
    }
  }

  /** `String(v)`. An array is joined with "," and its `null`/`undefined`
      elements become empty strings, as `Array.prototype.toString` does. */
  function ToString(v: Value): (r: string)
    ensures v.Num? ==> ParseInt(r) == v.n
    ensures v.Str? ==> r == v.s
    ensures v == Arr([]) ==> r == ""
  {
    match v
    case Undefined => "undefined"
    case Null => "null"
    case Bool(b) => if b then "true" else "false"
    case Num(n) => IntToStringRoundTrip(n); IntToString(n)
    case NaN => "NaN"
    case Str(s) => s
    case Obj => "[object Object]"
    case Arr(items) =>
      Join(seq(|items|, i requires 0 <= i < |items| =>
        if items[i].Undefined? || items[i].Null? then "" else ToString(items[i])), ",")
  }

  function Join(parts: seq<string>, sep: string): string {
    if parts == [] then ""
    else if |parts| == 1 then parts[0]
    else parts[0] + sep + Join(parts[1..], sep)
  }

  /** `safeText(value, fallback)`: the fallback for `null`/`undefined`, else `String(value)`. */
  function SafeText(v: Value, fallback: string): (r: string)
    ensures v.Undefined? || v.Null? ==> r == fallback
    ensures v.Str? ==> r == v.s
  {
    if v.Undefined? || v.Null? then fallback else ToString(v)
  }
}
