/** JavaScript values and the few built-in string operations the backend relies on:
    truthiness and `||`, `String.prototype.trim`, the UTF-16 `length`,
    `includes`, `toLowerCase`, `parseInt` and template-string interpolation. */
module Js {

  datatype Option<T> = None | Some(value: T)

  /** The outcome of a call that may throw: `Err` carries the thrown error's message. */
  datatype Result<T> = Ok(value: T) | Err(message: string)

  /** A JavaScript value as it appears in request bodies, documents and payloads.
      Numbers are integers; an object is a map from its keys to its values. */
  datatype Json =
    | JUndefined
    | JNull
    | JBool(b: bool)
    | JNum(n: int)
    | JStr(s: string)
    | JDate(t: int)
    | JArr(items: seq<Json>)
    | JObj(fields: map<string, Json>)

  /** An error object as a middleware sees it: whether it is a `multer.MulterError`,
      and its `code` and `message` properties (`undefined` when absent). */
  datatype JsError = JsError(multer: bool, code: Json, message: Json)

  /** JavaScript truthiness. */
  predicate Truthy(v: Json) {
    match v
    case JUndefined => false
    case JNull => false
    case JBool(b) => b
    case JNum(n) => n != 0
    case JStr(s) => s != ""
    case _ => true
  }

  /** `a || b` */
  function Or(a: Json, b: Json): (r: Json)
    ensures Truthy(a) ==> r == a
    ensures !Truthy(a) ==> r == b
  {
    if Truthy(a) then a else b
  }

  /** Property access `obj.key`: a missing key reads as `undefined`. */
  function Get(obj: map<string, Json>, key: string): Json {
    if key in obj then obj[key] else JUndefined
  }

  // ---------------------------------------------------------------------------
  // Whitespace and trim

  /** The characters `trim` and `parseInt` skip: ECMAScript WhiteSpace and LineTerminator. */
  predicate IsWhitespace(c: char) {
    c == '\t' || c == '\n' || c == '\U{B}' || c == '\U{C}' || c == '\r' || c == ' '
    || c == '\U{A0}' || c == '\U{1680}' || ('\U{2000}' <= c <= '\U{200A}')
    || c == '\U{2028}' || c == '\U{2029}' || c == '\U{202F}' || c == '\U{205F}'
    || c == '\U{3000}' || c == '\U{FEFF}'
  }

  /** `p` occurs in `s` starting at position `i`. */
  predicate OccursAt(s: string, p: string, i: int) {
    0 <= i <= |s| - |p| && s[i..i + |p|] == p
  }

  /** A string that trims to the empty string. */
  predicate IsBlank(s: string) {
    forall i :: 0 <= i < |s| ==> IsWhitespace(s[i])
  }

  /** The number of leading whitespace characters. */
  function LeadingWs(s: string): (k: nat)
    ensures k <= |s|
    ensures forall i :: 0 <= i < k ==> IsWhitespace(s[i])
    ensures k < |s| ==> !IsWhitespace(s[k])
  {
    if |s| > 0 && IsWhitespace(s[0]) then 1 + LeadingWs(s[1..]) else 0
  }

  /** The number of trailing whitespace characters. */
  function TrailingWs(s: string): (k: nat)
    ensures k <= |s|
    ensures forall i :: |s| - k <= i < |s| ==> IsWhitespace(s[i])
    ensures k < |s| ==> !IsWhitespace(s[|s| - 1 - k])
  {
    if |s| > 0 && IsWhitespace(s[|s| - 1]) then 1 + TrailingWs(s[..|s| - 1]) else 0
  }

  /** `s.trim()`: the slice of `s` left after dropping leading and trailing whitespace. */
  function Trim(s: string): (r: string)
    ensures |r| <= |s|
    ensures r == "" <==> IsBlank(s)
    ensures r != "" ==> !IsWhitespace(r[0]) && !IsWhitespace(r[|r| - 1])
    ensures exists i :: OccursAt(s, r, i)
  {
    var a := LeadingWs(s);
    var t := s[a..];
    var b := TrailingWs(t);
    var r := t[..|t| - b];
    assert OccursAt(s, r, a);
    assert s[a + |r|..] == t[|t| - b..];
    r
  }

  /** Trimming drops only whitespace, and only at the two ends: the input is the result
      with a blank run before it and a blank run after it. */
  lemma TrimDropsOnlyPadding(s: string)
    ensures exists i :: OccursAt(s, Trim(s), i) && IsBlank(s[..i]) && IsBlank(s[i + |Trim(s)|..])
  {
    var a := LeadingWs(s);
    var t := s[a..];
    var b := TrailingWs(t);
    var r := t[..|t| - b];
    assert r == Trim(s);
    assert OccursAt(s, r, a);
    assert s[a + |r|..] == t[|t| - b..];
  }

  /** `v.trim()` on a value of any type: a string is trimmed, anything else throws
      the `TypeError` Node reports for a variable named `name`. */
  function TrimValue(name: string, v: Json): (r: Result<string>)
    ensures r.Ok? <==> v.JStr?
    ensures r.Ok? ==> r.value == Trim(v.s)
  {
    match v
    case JStr(s) => Ok(Trim(s))
    case JUndefined => Err("Cannot read properties of undefined (reading 'trim')")
    case JNull => Err("Cannot read properties of null (reading 'trim')")
    case _ => Err(name + ".trim is not a function")
  }

  lemma {:induction false} TrimIdempotent(s: string)
    ensures Trim(Trim(s)) == Trim(s)
  {
    var r := Trim(s);
    if r != "" {
      assert LeadingWs(r) == 0;
      assert TrailingWs(r) == 0;
    }
  }

  /** Trimming keeps every non-whitespace character that lies between the first and the last one. */
  lemma {:induction false} TrimOfUnpadded(s: string)
    requires s != "" && !IsWhitespace(s[0]) && !IsWhitespace(s[|s| - 1])
    ensures Trim(s) == s
  {
    assert LeadingWs(s) == 0;
    assert s[0..] == s;
    assert TrailingWs(s) == 0;
  }

  // ---------------------------------------------------------------------------
  // Length, substrings, case

  /** `s.length`: the number of UTF-16 code units (characters above U+FFFF take two). */
  function Utf16Length(s: string): (n: nat)
    ensures |s| <= n <= 2 * |s|
  {
    if s == [] then 0 else (if s[0] as int > 0xFFFF then 2 else 1) + Utf16Length(s[1..])
  }

  /** A string of characters of the Basic Multilingual Plane has one code unit each. */
  lemma {:induction false} Utf16LengthOfBmp(s: string)
    requires forall i :: 0 <= i < |s| ==> s[i] as int <= 0xFFFF
    ensures Utf16Length(s) == |s|
  {
    if s != [] {
      assert forall i :: 0 <= i < |s[1..]| ==> s[1..][i] == s[i + 1];
      Utf16LengthOfBmp(s[1..]);
    }
  }

  predicate StartsWith(s: string, p: string) {
    |p| <= |s| && s[..|p|] == p
  }

  /** `s.includes(p)`, or a regular expression made of the literal `p` matching unanchored. */
  function Contains(s: string, p: string): (b: bool)
    ensures b <==> exists i :: OccursAt(s, p, i)
  {
    if StartsWith(s, p) then
      assert OccursAt(s, p, 0);
      true
    else if |s| == 0 then
      false
    else
      var rest := Contains(s[1..], p);
      assert forall j :: OccursAt(s[1..], p, j) <==> OccursAt(s, p, j + 1) by {
        forall j ensures OccursAt(s[1..], p, j) <==> OccursAt(s, p, j + 1) {
          if 0 <= j <= |s| - 1 - |p| { assert s[1..][j..j + |p|] == s[j + 1..j + 1 + |p|]; }
        }
      }
      assert !OccursAt(s, p, 0);
      assert (exists i :: OccursAt(s, p, i)) ==> rest by {
        if exists i :: OccursAt(s, p, i) {
          var i :| OccursAt(s, p, i);
          assert OccursAt(s[1..], p, i - 1);
        }
      }
      rest
  }

  function LowerChar(c: char): char {
    if 'A' <= c <= 'Z' then (c as int + 32) as char else c
  }

  /** `s.toLowerCase()` restricted to the ASCII letters. */
  function AsciiLower(s: string): (r: string)
    ensures |r| == |s|
    ensures forall i :: 0 <= i < |s| ==> r[i] == LowerChar(s[i])
  {
    seq(|s|, i requires 0 <= i < |s| => LowerChar(s[i]))
  }

  // ---------------------------------------------------------------------------
  // Numbers and strings

  predicate IsDigit(c: char) { '0' <= c <= '9' }

  predicate AllDigits(d: string) { forall i :: 0 <= i < |d| ==> IsDigit(d[i]) }

  function DigitChar(n: nat): (c: char)
    requires n < 10
    ensures IsDigit(c)
  {
    ('0' as int + n) as char
  }

  /** The value of a string of decimal digits, most significant first. */
  function DigitsValue(d: string): nat
    requires AllDigits(d)
  {
    if d == [] then 0 else DigitsValue(d[..|d| - 1]) * 10 + (d[|d| - 1] as int - '0' as int)
  }

  /** The decimal spelling of `n`, as `String(n)` gives it. */
  function NatToString(n: nat): (r: string)
    ensures |r| >= 1 && AllDigits(r)
  {
    if n < 10 then [DigitChar(n)] else NatToString(n / 10) + [DigitChar(n % 10)]
  }

  function IntToString(i: int): string {
    if i < 0 then "-" + NatToString(-i) else NatToString(i)
  }

  lemma {:induction false} NatToStringValue(n: nat)
    ensures DigitsValue(NatToString(n)) == n
  {
    if n >= 10 {
      var r := NatToString(n);
      assert r[..|r| - 1] == NatToString(n / 10);
      NatToStringValue(n / 10);
    }
  }

  /** The length of the longest prefix of decimal digits. */
  function DigitPrefix(s: string): (k: nat)
    ensures k <= |s| && AllDigits(s[..k])
    ensures k < |s| ==> !IsDigit(s[k])
  {
    if |s| > 0 && IsDigit(s[0]) then
      var k := 1 + DigitPrefix(s[1..]);
      assert forall i :: 1 <= i < k ==> s[..k][i] == s[1..][..k - 1][i - 1];
      k
    else 0
  }

  predicate IsHexDigit(c: char) { IsDigit(c) || 'a' <= c <= 'f' || 'A' <= c <= 'F' }

  function HexDigitValue(c: char): nat
    requires IsHexDigit(c)
  {
    if IsDigit(c) then c as int - '0' as int
    else if 'a' <= c <= 'f' then c as int - 'a' as int + 10
    else c as int - 'A' as int + 10
  }

  function HexPrefix(s: string): (k: nat)
    ensures k <= |s|
    ensures forall i :: 0 <= i < k ==> IsHexDigit(s[i])
  {
    if |s| > 0 && IsHexDigit(s[0]) then 1 + HexPrefix(s[1..]) else 0
  }

  function HexValue(d: string): nat
    requires forall i :: 0 <= i < |d| ==> IsHexDigit(d[i])
  {
    if d == [] then 0 else HexValue(d[..|d| - 1]) * 16 + HexDigitValue(d[|d| - 1])
  }

  /** The text after leading whitespace and an optional sign, and the sign. */
  function SplitSign(s: string): (bool, string) {
    var t := s[LeadingWs(s)..];
    if |t| > 0 && (t[0] == '-' || t[0] == '+') then (t[0] == '-', t[1..]) else (false, t)
  }

  /** `parseInt(s, 10)`: `None` stands for NaN. */
  function ParseInt(s: string): (r: Option<int>)
    ensures r.None? <==> DigitPrefix(SplitSign(s).1) == 0
  {
    var (neg, u) := SplitSign(s);
    var k := DigitPrefix(u);
    if k == 0 then None
    else
      var v: int := DigitsValue(u[..k]);
      Some(if neg then -v else v)
  }

  /** `parseInt(s)` without a radix: a `0x`/`0X` prefix after the sign selects base 16. */
  function ParseIntNoRadix(s: string): (r: Option<int>)
    ensures !StartsWith(SplitSign(s).1, "0x") && !StartsWith(SplitSign(s).1, "0X") ==> r == ParseInt(s)
  {
    var (neg, u) := SplitSign(s);
    if StartsWith(u, "0x") || StartsWith(u, "0X") then
      var h := u[2..];
      var k := HexPrefix(h);
      if k == 0 then None
      else
        var v: int := HexValue(h[..k]);
        Some(if neg then -v else v)
    else ParseInt(s)
  }

  /** `parseInt` reads back what `String` writes for an integer. */
  lemma {:induction false} ParseIntRoundTrip(i: int)
    ensures ParseInt(IntToString(i)) == Some(i)
  {
    var n: nat := if i < 0 then -i else i;
    SplitSignOfIntString(i);
    NatToStringValue(n);
    ParseIntOfDigits(IntToString(i), i < 0, NatToString(n));
  }

  /** The same without a radix: a decimal spelling never starts with `0x`. */
  lemma {:induction false} ParseIntNoRadixRoundTrip(i: int)
    ensures ParseIntNoRadix(IntToString(i)) == Some(i)
  {
    var d := NatToString(if i < 0 then -i else i);
    SplitSignOfIntString(i);
    assert !StartsWith(d, "0x") && !StartsWith(d, "0X") by {
      if |d| >= 2 { assert IsDigit(d[1]); }
    }
    ParseIntRoundTrip(i);
  }

  /** `parseInt` of a signed run of digits with nothing after it. */
  lemma ParseIntOfDigits(s: string, neg: bool, d: string)
    requires SplitSign(s) == (neg, d) && |d| >= 1 && AllDigits(d)
    ensures var v: int := DigitsValue(d); ParseInt(s) == Some(if neg then -v else v)
  {
    DigitPrefixAll(d);
    assert d[..|d|] == d;
  }

  /** `parseInt(s, 10)` skips leading whitespace and stops at the first character that
      is not a digit: whatever follows the number is ignored. */
  lemma {:induction false} ParseIntOfNumericPrefix(w: string, i: int, t: string)
    requires IsBlank(w) && (t == "" || !IsDigit(t[0]))
    ensures ParseInt(w + IntToString(i) + t) == Some(i)
  {
    var n: nat := if i < 0 then -i else i;
    SplitSignAfterBlank(w, i, t);
    NatToStringValue(n);
    ParseIntOfDigitsThen(w + IntToString(i) + t, i < 0, NatToString(n), t);
  }

  lemma SplitSignAfterBlank(w: string, i: int, t: string)
    requires IsBlank(w)
    ensures SplitSign(w + IntToString(i) + t) == (i < 0, NatToString(if i < 0 then -i else i) + t)
  {
    var x := IntToString(i) + t;
    assert w + IntToString(i) + t == w + x;
    SplitSignOfIntStringThen(i, t);
    SplitSignSkipsBlank(w, x);
  }

  lemma SplitSignOfIntStringThen(i: int, t: string)
    ensures var x := IntToString(i) + t;
            x != "" && !IsWhitespace(x[0])
            && SplitSign(x) == (i < 0, NatToString(if i < 0 then -i else i) + t)
  {
    var x := IntToString(i) + t;
    var d := NatToString(if i < 0 then -i else i);
    if i < 0 {
      assert x == "-" + (d + t);
      assert x[1..] == d + t;
    } else {
      assert x == d + t;
      assert IsDigit(x[0]);
    }
    assert LeadingWs(x) == 0;
    assert x[0..] == x;
  }

  lemma SplitSignSkipsBlank(w: string, x: string)
    requires IsBlank(w) && x != "" && !IsWhitespace(x[0])
    ensures SplitSign(w + x) == SplitSign(x)
  {
    LeadingWsAfterBlank(w, x);
    assert (w + x)[|w|..] == x;
    assert LeadingWs(x) == 0;
    assert x[0..] == x;
  }

  /** `parseInt` of a signed run of digits followed by anything that does not start with a digit. */
  lemma ParseIntOfDigitsThen(s: string, neg: bool, d: string, t: string)
    requires SplitSign(s) == (neg, d + t) && |d| >= 1 && AllDigits(d) && (t == "" || !IsDigit(t[0]))
    ensures var v: int := DigitsValue(d); ParseInt(s) == Some(if neg then -v else v)
  {
    DigitPrefixOfDigitsThen(d, t);
    assert (d + t)[..|d|] == d;
  }

  lemma {:induction false} LeadingWsAfterBlank(w: string, x: string)
    requires IsBlank(w) && x != "" && !IsWhitespace(x[0])
    ensures LeadingWs(w + x) == |w|
  {
    if w != "" {
      assert (w + x)[1..] == w[1..] + x;
      LeadingWsAfterBlank(w[1..], x);
    }
  }

  lemma {:induction false} DigitPrefixOfDigitsThen(d: string, t: string)
    requires AllDigits(d) && (t == "" || !IsDigit(t[0]))
    ensures DigitPrefix(d + t) == |d|
  {
    if d != [] {
      assert (d + t)[1..] == d[1..] + t;
      DigitPrefixOfDigitsThen(d[1..], t);
    } else {
      assert d + t == t;
    }
  }

  lemma SplitSignOfIntString(i: int)
    ensures SplitSign(IntToString(i)) == (i < 0, NatToString(if i < 0 then -i else i))
  {
    var s := IntToString(i);
    var d := NatToString(if i < 0 then -i else i);
    assert !IsWhitespace(s[0]);
    assert LeadingWs(s) == 0;
    assert s[0..] == s;
    if i < 0 { assert s[1..] == d; } else { assert IsDigit(s[0]); }
  }

  lemma {:induction false} DigitPrefixAll(d: string)
    requires AllDigits(d)
    ensures DigitPrefix(d) == |d|
  {
    if |d| > 0 {
      DigitPrefixAll(d[1..]);
    }
  }

  /** Template-string interpolation `${v}`. Dates, arrays and objects interpolate to a
      fixed placeholder: their text is not part of this model. */
  function Interpolate(v: Json): string {
    match v
    case JUndefined => "undefined"
    case JNull => "null"
    case JBool(b) => if b then "true" else "false"
    case JNum(n) => IntToString(n)
    case JStr(s) => s
    case JDate(_) => "[date]"
    case JArr(_) => "[array]"
    case JObj(_) => "[object Object]"
  }
}
