/** The JavaScript values the application passes around: parsed JSON bodies,
    truthiness as `||` and `&&` see it, and the string conversion that
    `new Error(message)` and `URLSearchParams` apply to their arguments. */
module Js {
  import opened Wrappers

  /** A value produced by `JSON.parse` (or by axios, which parses response
      bodies). Numbers are integers in this model. */
  datatype Json =
    | JNull
    | JBool(b: bool)
    | JNum(n: int)
    | JStr(s: string)
    | JArr(elems: seq<Json>)
    | JObj(fields: map<string, Json>)

  /** JavaScript truthiness: `null`, `false`, `0` and `""` are falsy; every
      array and every object, even an empty one, is truthy. */
  predicate Truthy(j: Json) {
    match j
    case JNull => false
    case JBool(b) => b
    case JNum(n) => n != 0
    case JStr(s) => s != ""
    case JArr(_) => true
    case JObj(_) => true
  }

  /** The optional property read `j?.key`. Only objects carry named properties,
      so on every other value the read is `undefined` (`None`). */
  function Prop(j: Json, key: string): Option<Json> {
    if j.JObj? && key in j.fields then Some(j.fields[key]) else None
  }

  /** `s.length`: the number of UTF-16 code units of `s`. A character outside
      the Basic Multilingual Plane is stored as a surrogate pair and counts
      twice. */
  function Utf16Length(s: string): (n: nat)
    ensures |s| <= n <= 2 * |s|
    ensures n == |s| <==> forall i :: 0 <= i < |s| ==> s[i] as int < 0x10000
  {
    if s == [] then 0
    else
      var rest := Utf16Length(s[1..]);
      assert (forall i :: 0 <= i < |s| ==> s[i] as int < 0x10000) <==>
             s[0] as int < 0x10000 && forall i :: 0 <= i < |s[1..]| ==> s[1..][i] as int < 0x10000 by {
        if forall i :: 0 <= i < |s[1..]| ==> s[1..][i] as int < 0x10000 {
          forall i | 1 <= i < |s| ensures s[i] as int < 0x10000 {
            assert s[i] == s[1..][i - 1];
          }
        }
      }
      (if s[0] as int < 0x10000 then 1 else 2) + rest
  }

  /** The length of a concatenation is the sum of the lengths. */
  lemma {:induction false} Utf16LengthConcat(a: string, b: string)
    ensures Utf16Length(a + b) == Utf16Length(a) + Utf16Length(b)
  {
    if a != [] {
      assert (a + b)[1..] == a[1..] + b;
      Utf16LengthConcat(a[1..], b);
    } else {
      assert a + b == b;
    }
  }

  /** The ASCII decimal digit for `d`. */
  function DigitChar(d: nat): (c: char)
    requires d < 10
    ensures '0' <= c <= '9' && c as int - '0' as int == d
  {
    (('0' as int) + d) as char
  }

  predicate IsDigits(s: string) {
    forall i :: 0 <= i < |s| ==> '0' <= s[i] <= '9'
  }

  /** `String(n)` for a non-negative integer: its shortest decimal spelling. */
  function NatToString(n: nat): (s: string)
    ensures |s| >= 1 && IsDigits(s)
    ensures |s| > 1 ==> s[0] != '0'
    decreases n
  {
    if n < 10 then [DigitChar(n)] else NatToString(n / 10) + [DigitChar(n % 10)]
  }

  /** `String(i)` for any integer. */
  function IntToString(i: int): (s: string)
    ensures |s| >= 1 && (s[0] == '-' <==> i < 0)
    ensures i >= 0 ==> IsDigits(s) && DecimalValue(s) == i
    ensures i < 0 ==> IsDigits(s[1..]) && DecimalValue(s[1..]) == -i
  {
    if i < 0 then
      DecimalRoundTrip(-i);
      var s := "-" + NatToString(-i);
      assert s[1..] == NatToString(-i);
      s
    else
      DecimalRoundTrip(i);
      NatToString(i)
  }

  /** The number a string of decimal digits spells, read left to right, as the
      server reads `skip` and `limit` back from the query string. */
  function DecimalValue(s: string): nat
    requires IsDigits(s)
  {
    if s == [] then 0
    else DecimalValue(s[..|s| - 1]) * 10 + (s[|s| - 1] as int - '0' as int)
  }

  /** Reading back the decimal spelling of a number gives the number. */
  lemma {:induction false} DecimalRoundTrip(n: nat)
    ensures DecimalValue(NatToString(n)) == n
  {
    if n >= 10 {
      var s := NatToString(n);
      assert s[..|s| - 1] == NatToString(n / 10);
      DecimalRoundTrip(n / 10);
    }
  }

  /** `String(j)`: the conversion `new Error(j)` applies to its message.
      Arrays join their elements with commas (a `null` element contributes
      nothing), objects print as `[object Object]`. */
  function StringOf(j: Json): (s: string)
    ensures j.JNull? ==> s == "null"
    ensures j.JBool? ==> s == (if j.b then "true" else "false")
    ensures j.JNum? ==> s == IntToString(j.n)
    ensures j.JStr? ==> s == j.s
    ensures j.JObj? ==> s == "[object Object]"
    ensures j.JArr? && |j.elems| == 0 ==> s == ""
    ensures j.JArr? && |j.elems| == 1 ==> s == (if j.elems[0].JNull? then "" else StringOf(j.elems[0]))
    ensures j.JArr? && |j.elems| >= 2 ==> ',' in s
    decreases j, if j.JArr? then |j.elems| + 1 else 0
  {
    match j
    case JNull => "null"
    case JBool(b) => if b then "true" else "false"
    case JNum(n) => IntToString(n)
    case JStr(s) => s
    case JArr(elems) => JoinFrom(j, 0)
    case JObj(_) => "[object Object]"
  }

  /** `Array.prototype.join(",")` of the elements of `arr` from index `i` on. */
  function JoinFrom(arr: Json, i: nat): (s: string)
    requires arr.JArr? && i <= |arr.elems|
    ensures i == |arr.elems| ==> s == ""
    ensures i + 1 < |arr.elems| ==> ',' in s
    decreases arr, |arr.elems| - i
  {
    if i == |arr.elems| then ""
    else
      var e := arr.elems[i];
      var piece := if e.JNull? then "" else StringOf(e);
      if i + 1 == |arr.elems| then piece else piece + "," + JoinFrom(arr, i + 1)
  }

  /** What one element contributes to a join: nothing for `null`. */
  function Piece(e: Json): string {
    if e.JNull? then "" else StringOf(e)
  }

  lemma JoinStep(arr: Json, i: nat)
    requires arr.JArr? && i < |arr.elems|
    ensures i + 1 == |arr.elems| ==> JoinFrom(arr, i) == Piece(arr.elems[i])
    ensures i + 1 < |arr.elems| ==> JoinFrom(arr, i) == Piece(arr.elems[i]) + "," + JoinFrom(arr, i + 1)
  {
  }

  /** Joining from `i` on does not look at the elements before `i`. */
  lemma {:induction false} JoinShift(es: seq<Json>, i: nat)
    requires 1 <= i <= |es|
    ensures JoinFrom(JArr(es), i) == JoinFrom(JArr(es[1..]), i - 1)
    decreases |es| - i
  {
    var a, b := JArr(es), JArr(es[1..]);
    if i < |es| {
      assert b.elems[i - 1] == a.elems[i];
      JoinStep(a, i);
      JoinStep(b, i - 1);
      if i + 1 < |es| {
        JoinShift(es, i + 1);
      }
    }
  }

  /** `String(array)` of two or more elements is the first element's string,
      a comma, and `String(...)` of the rest: the elements' strings joined by
      commas. */
  lemma StringOfArray(es: seq<Json>)
    requires |es| >= 2
    ensures StringOf(JArr(es)) == Piece(es[0]) + "," + StringOf(JArr(es[1..]))
  {
    JoinShift(es, 1);
  }
}
