/**
 * Plain values shared by the whole model: optional values and results, the
 * JSON values exchanged with the exchange-rate provider, Python-style
 * rendering of those values, decimal rendering of status codes and the
 * lowercasing used on user names.
 */
module Values {

  datatype Option<+T> = None | Some(value: T)

  /** A Python call that returns normally (Success) or raises (Failure). */
  datatype Result<+T, +E> = Success(value: T) | Failure(error: E)

  /**
   * A decoded JSON value. Numbers keep their source text: amounts and
   * rates are floats in the service and are only ever echoed, never
   * computed with.
   */
  datatype Json =
    | Null
    | Bool(b: bool)
    | Num(literal: string)
    | Str(s: string)
    | Arr(items: seq<Json>)
    | Obj(fields: Dict)

  /** A Python dict, as its items in insertion order. */
  type Dict = seq<(string, Json)>

  /** True when `sub` occurs somewhere inside `s`. */
  ghost predicate Contains(s: string, sub: string)
  {
    exists before: string, after: string :: s == before + sub + after
  }

  /** The dict's value under `key`, as `key in d` and `d[key]` see it. */
  function Lookup(d: Dict, key: string): (r: Option<Json>)
    ensures r.None? <==> forall i :: 0 <= i < |d| ==> d[i].0 != key
    ensures r.Some? ==> exists i :: 0 <= i < |d| && d[i] == (key, r.value)
  {
    if |d| == 0 then None
    else if d[0].0 == key then Some(d[0].1)
    else
      var r := Lookup(d[1..], key);
      assert r.Some? ==> exists i :: 1 <= i < |d| && d[i] == (key, r.value) by {
        if r.Some? {
          var j :| 0 <= j < |d[1..]| && d[1..][j] == (key, r.value);
          assert d[j + 1] == (key, r.value);
        }
      }
      assert r.None? ==> forall i :: 1 <= i < |d| ==> d[i].0 != key by {
        if r.None? {
          forall i | 1 <= i < |d| ensures d[i].0 != key {
            assert d[1..][i - 1] == d[i];
          }
        }
      }
      r
  }

  /** Python's `repr` of a string (quotes chosen as for text without quotes). */
  function QuoteRepr(s: string): string
  {
    "'" + s + "'"
  }

  /** Python's `str` of a JSON value once decoded into dicts, lists and scalars. */
  function Repr(j: Json): string
    decreases j, 1
  {
    match j
    case Null => "None"
    case Bool(b) => if b then "True" else "False"
    case Num(literal) => literal
    case Str(s) => QuoteRepr(s)
    case Arr(items) => "[" + ReprItems(j, items) + "]"
    case Obj(fields) => "{" + ReprFields(j, fields) + "}"
  }

  function ReprItems(ghost parent: Json, items: seq<Json>): string
    requires forall k :: 0 <= k < |items| ==> items[k] < parent
    decreases parent, 0, |items|
  {
    if |items| == 0 then ""
    else if |items| == 1 then Repr(items[0])
    else Repr(items[0]) + ", " + ReprItems(parent, items[1..])
  }

  function ReprFields(ghost parent: Json, fields: Dict): string
    requires forall k :: 0 <= k < |fields| ==> fields[k].1 < parent
    decreases parent, 0, |fields|
  {
    if |fields| == 0 then ""
    else
      var entry := QuoteRepr(fields[0].0) + ": " + Repr(fields[0].1);
      if |fields| == 1 then entry else entry + ", " + ReprFields(parent, fields[1..])
  }

  /** The decimal digit for 0 <= d < 10. */
  function Digit(d: int): char
    requires 0 <= d < 10
  {
    "0123456789"[d]
  }

  predicate IsDigit(c: char)
  {
    '0' <= c <= '9'
  }

  /** Python's `str` of an int (as an f-string renders a status code). */
  function Decimal(n: int): (r: string)
    ensures |r| > 0
    ensures n >= 0 ==> forall k :: 0 <= k < |r| ==> IsDigit(r[k])
    ensures n < 0 ==> r[0] == '-' && forall k :: 1 <= k < |r| ==> IsDigit(r[k])
    ensures n >= 0 ==> |r| == 1 <==> n < 10
    decreases if n < 0 then 1 - n else n
  {
    if n < 0 then "-" + Decimal(-n)
    else if n < 10 then [Digit(n)]
    else Decimal(n / 10) + [Digit(n % 10)]
  }

  /** The value of a string of decimal digits. */
  function DigitsValue(s: string): int
    requires forall k :: 0 <= k < |s| ==> IsDigit(s[k])
  {
    if |s| == 0 then 0 else DigitsValue(s[..|s| - 1]) * 10 + (s[|s| - 1] as int - '0' as int)
  }

  /** Reading a rendered status code back gives the code: the rendering loses nothing. */
  lemma {:induction false} DecimalRoundTrip(n: nat)
    ensures DigitsValue(Decimal(n)) == n
    decreases n
  {
    if n >= 10 {
      DecimalRoundTrip(n / 10);
      var r := Decimal(n);
      assert r[..|r| - 1] == Decimal(n / 10);
    }
  }

  /**
   * `str.lower` on the letters a user name is written in: Latin and Russian
   * Cyrillic capitals become lower case, every other character is kept.
   */
  function LowerChar(c: char): char
  {
    if 'A' <= c <= 'Z' then (c as int + 32) as char
    else if 'А' <= c <= 'Я' then (c as int + 32) as char
    else if 'Ѐ' <= c <= 'Џ' then (c as int + 80) as char
    else c
  }

  predicate IsUpper(c: char)
  {
    'A' <= c <= 'Z' || 'Ѐ' <= c <= 'Я'
  }

  function Lower(s: string): (r: string)
    ensures |r| == |s|
    ensures forall k :: 0 <= k < |s| ==> !IsUpper(r[k])
    ensures forall k :: 0 <= k < |s| && !IsUpper(s[k]) ==> r[k] == s[k]
    ensures forall k :: 0 <= k < |s| && 'A' <= s[k] <= 'Z' ==> r[k] == (s[k] as int + 32) as char
    ensures forall k :: 0 <= k < |s| && 'А' <= s[k] <= 'Я' ==> r[k] == (s[k] as int + 32) as char
    ensures forall k :: 0 <= k < |s| && 'Ѐ' <= s[k] <= 'Џ' ==> r[k] == (s[k] as int + 80) as char
  {
    seq(|s|, k requires 0 <= k < |s| => LowerChar(s[k]))
  }

  /** Lowercasing twice is lowercasing once. */
  lemma LowerIdempotent(s: string)
    ensures Lower(Lower(s)) == Lower(s)
  {
  }
}
