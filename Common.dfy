/**
 * Shared vocabulary of the demand-planning model: optional values, the
 * JavaScript rounding functions the routes use, the string helpers
 * (trim, lower-case, substring test) and the number parsers
 * `parseInt` / `parseFloat` restricted to plain decimal text.
 */
module Base {

  datatype Option<T> = None | Some(value: T)

  /** `Number(x) || 0` for a nullable numeric column: null and NaN are `None`. */
  function OrZero(x: Option<real>): real
  {
    match x
    case None => 0.0
    case Some(v) => v
  }

  // ---------------------------------------------------------------------
  // Rounding (Math.floor, Math.ceil, Math.round, Math.abs)
  // ---------------------------------------------------------------------

  /** Math.floor: the greatest integer not above `x`. */
  function Floor(x: real): (r: int)
    ensures r as real <= x < r as real + 1.0
  {
    x.Floor
  }

  /** Math.ceil: the least integer not below `x`. */
  function Ceil(x: real): (r: int)
    ensures x <= r as real < x + 1.0
  {
    -((-x).Floor)
  }

  /** Math.round: the nearest integer, halves rounded towards +infinity. */
  function Round(x: real): (r: int)
    ensures r as real - 0.5 <= x < r as real + 0.5
  {
    (x + 0.5).Floor
  }

  function Abs(x: int): (r: nat)
    ensures r == x || r == -x
  {
    if x < 0 then -x else x
  }

  function AbsReal(x: real): (r: real)
    ensures r >= 0.0 && (r == x || r == -x)
  {
    if x < 0.0 then -x else x
  }

  function Min(a: int, b: int): int
  {
    if a < b then a else b
  }

  function Max(a: int, b: int): int
  {
    if a < b then b else a
  }

  /** `xs.slice(0, n)`: the first `n` elements, or all of them when there are fewer. */
  function FirstN<T>(xs: seq<T>, n: nat): (r: seq<T>)
    ensures |r| <= n && |r| <= |xs| && r == xs[..|r|]
    ensures |xs| <= n ==> r == xs
    ensures |xs| >= n ==> |r| == n
  {
    if |xs| <= n then xs else xs[..n]
  }

  /** A concatenation with a non-empty right part ends with that part's last element. */
  lemma AppendSnoc<T>(a: seq<T>, b: seq<T>)
    requires |b| > 0
    ensures a + b == (a + b[..|b| - 1]) + [b[|b| - 1]]
    ensures b == b[..|b| - 1] + [b[|b| - 1]]
  {
  }

  lemma AppendAssoc<T>(x: seq<T>, y: seq<T>, z: seq<T>)
    ensures (x + y) + z == x + (y + z)
  {
  }

  lemma RoundOfInteger(n: int)
    ensures Round(n as real) == n
  {
  }

  // ---------------------------------------------------------------------
  // Strings
  // ---------------------------------------------------------------------

  /**
   * The white-space characters `String.prototype.trim` and `\s` remove:
   * the ECMAScript WhiteSpace (tab, vertical tab, form feed, the byte
   * order mark and every space separator) and LineTerminator characters.
   */
  predicate IsSpace(c: char)
  {
    c == ' ' || c == '\t' || c == '\n' || c == '\r' || c == '\U{000B}' || c == '\U{000C}'
    || c == '\U{00A0}' || c == '\U{FEFF}' || c == '\U{1680}' || ('\U{2000}' <= c <= '\U{200A}')
    || c == '\U{2028}' || c == '\U{2029}' || c == '\U{202F}' || c == '\U{205F}' || c == '\U{3000}'
  }

  predicate AllSpace(s: string)
  {
    forall i :: 0 <= i < |s| ==> IsSpace(s[i])
  }

  /** Neither end of `s` is white space. */
  predicate IsTrimmed(s: string)
  {
    |s| == 0 || (!IsSpace(s[0]) && !IsSpace(s[|s| - 1]))
  }

  function TrimStart(s: string): (r: string)
    ensures |r| <= |s|
    ensures r == s[|s| - |r|..]
    ensures AllSpace(s[..|s| - |r|])
    ensures |r| == 0 || !IsSpace(r[0])
    decreases |s|
  {
    if |s| > 0 && IsSpace(s[0]) then TrimStart(s[1..]) else s
  }

  /** The first index at or after `i` that does not hold white space (or `|s|`). */
  function SpanStart(s: string, i: nat): (k: nat)
    requires i <= |s|
    ensures i <= k <= |s|
    ensures forall m :: i <= m < k ==> IsSpace(s[m])
    ensures k < |s| ==> !IsSpace(s[k])
    decreases |s| - i
  {
    if i < |s| && IsSpace(s[i]) then SpanStart(s, i + 1) else i
  }

  /** The end of `s[lo..j]` once its trailing white space is dropped. */
  function SpanEnd(s: string, lo: nat, j: nat): (k: nat)
    requires lo <= j <= |s|
    ensures lo <= k <= j
    ensures forall m :: k <= m < j ==> IsSpace(s[m])
    ensures k > lo ==> !IsSpace(s[k - 1])
    decreases j
  {
    if j > lo && IsSpace(s[j - 1]) then SpanEnd(s, lo, j - 1) else j
  }

  /** String.prototype.trim: `s` with the white space at both ends removed, and nothing else. */
  function Trim(s: string): (r: string)
    ensures IsTrimmed(r)
    ensures exists i, j :: 0 <= i <= j <= |s| && r == s[i..j] && AllSpace(s[..i]) && AllSpace(s[j..])
  {
    var i := SpanStart(s, 0);
    var j := SpanEnd(s, i, |s|);
    assert AllSpace(s[..i]) by {
      forall m | 0 <= m < i ensures IsSpace(s[..i][m]) { assert s[..i][m] == s[m]; }
    }
    assert AllSpace(s[j..]) by {
      forall m | 0 <= m < |s| - j ensures IsSpace(s[j..][m]) { assert s[j..][m] == s[j + m]; }
    }
    s[i..j]
  }

  lemma TrimOfTrimmed(s: string)
    requires IsTrimmed(s)
    ensures Trim(s) == s
  {
    if |s| > 0 {
      assert SpanStart(s, 0) == 0;
      assert SpanEnd(s, 0, |s|) == |s|;
    }
  }

  lemma TrimIdempotent(s: string)
    ensures Trim(Trim(s)) == Trim(s)
  {
    TrimOfTrimmed(Trim(s));
  }

  /** Lower case of one character: the ASCII and Latin-1 capitals. */
  function LowerChar(c: char): char
  {
    if 'A' <= c <= 'Z' || ('\U{00C0}' <= c <= '\U{00DE}' && c != '\U{00D7}') then (c as int + 32) as char else c
  }

  /** String.prototype.toLowerCase over the characters `LowerChar` covers. */
  function ToLower(s: string): (r: string)
    ensures |r| == |s|
    ensures forall i :: 0 <= i < |s| ==> r[i] == LowerChar(s[i])
  {
    seq(|s|, i requires 0 <= i < |s| => LowerChar(s[i]))
  }

  /** `s.endsWith(suffix)`. */
  predicate EndsWith(s: string, suffix: string)
  {
    |suffix| <= |s| && s[|s| - |suffix|..] == suffix
  }

  /** String.prototype.includes: `sub` occurs in `s` at some position. */
  predicate Includes(s: string, sub: string)
  {
    exists i :: 0 <= i <= |s| && OccursAt(s, sub, i)
  }

  predicate OccursAt(s: string, sub: string, i: int)
  {
    0 <= i <= |s| - |sub| && s[i..i + |sub|] == sub
  }

  lemma IncludesItself(s: string)
    ensures Includes(s, s)
  {
    assert s[0..|s|] == s;
    assert OccursAt(s, s, 0);
  }

  /** Concatenation of `parts` with `sep` between consecutive parts (Array.prototype.join). */
  function Join(parts: seq<string>, sep: string): string
  {
    if |parts| == 0 then ""
    else if |parts| == 1 then parts[0]
    else Join(parts[..|parts| - 1], sep) + sep + parts[|parts| - 1]
  }

  // ---------------------------------------------------------------------
  // Decimal numerals
  // ---------------------------------------------------------------------

  predicate IsDigit(c: char)
  {
    '0' <= c <= '9'
  }

  predicate AllDigits(s: string)
  {
    forall i :: 0 <= i < |s| ==> IsDigit(s[i])
  }

  function DigitChar(d: nat): char
    requires d < 10
  {
    ('0' as int + d) as char
  }

  /** The value of a string of decimal digits, most significant first. */
  function DigitsValue(s: string): nat
    requires AllDigits(s)
  {
    if |s| == 0 then 0 else DigitsValue(s[..|s| - 1]) * 10 + (s[|s| - 1] as int - '0' as int)
  }

  function Pow10(k: nat): (r: nat)
    ensures r >= 1
  {
    if k == 0 then 1 else 10 * Pow10(k - 1)
  }

  /** Length of the run of digits at the front of `s`. */
  function LeadingDigits(s: string): (n: nat)
    ensures n <= |s| && AllDigits(s[..n])
    ensures n < |s| ==> !IsDigit(s[n])
  {
    if |s| > 0 && IsDigit(s[0]) then
      var k := LeadingDigits(s[1..]);
      assert s[..1 + k] == [s[0]] + s[1..][..k];
      1 + k
    else 0
  }

  /** String(n) for a natural number: its shortest decimal numeral. */
  function NatToString(n: nat): (r: string)
    ensures |r| >= 1 && AllDigits(r)
    ensures n >= 10 ==> r[0] != '0'
  {
    if n < 10 then [DigitChar(n)] else NatToString(n / 10) + [DigitChar(n % 10)]
  }

  /** String(n) for an integer. */
  function IntToString(n: int): string
  {
    if n < 0 then "-" + NatToString(-n) else NatToString(n)
  }

  /** `String(n).padStart(2, '0')`. */
  function Pad2(n: nat): string
  {
    var s := NatToString(n);
    if |s| < 2 then "0" + s else s
  }

  lemma {:induction false} NatToStringValue(n: nat)
    ensures DigitsValue(NatToString(n)) == n
  {
    if n >= 10 {
      NatToStringValue(n / 10);
      var s := NatToString(n);
      assert s[..|s| - 1] == NatToString(n / 10);
    }
  }

  lemma Pad2Shape(n: nat)
    requires n < 100
    ensures |Pad2(n)| == 2 && AllDigits(Pad2(n)) && DigitsValue(Pad2(n)) == n
  {
    NatToStringValue(n);
    if n < 10 {
      assert Pad2(n)[..1] == "0";
    } else {
      assert NatToString(n / 10) == [DigitChar(n / 10)];
    }
  }

  /** Sign prefix of a numeral: `-` gives -1, `+` or nothing gives 1. */
  function SignOf(s: string): int
  {
    if |s| > 0 && s[0] == '-' then -1 else 1
  }

  function DropSign(s: string): string
  {
    if |s| > 0 && (s[0] == '-' || s[0] == '+') then s[1..] else s
  }

  /**
   * parseInt(s, 10): leading white space skipped, an optional sign,
   * then the longest run of digits; `None` (NaN) when there is no digit.
   */
  function ParseInt(s: string): Option<int>
  {
    var t := TrimStart(s);
    var u := DropSign(t);
    var n := LeadingDigits(u);
    if n == 0 then None else Some(SignOf(t) * DigitsValue(u[..n]))
  }

  lemma {:induction false} ParseIntOfString(n: int)
    ensures ParseInt(IntToString(n)) == Some(n)
  {
    var m := if n < 0 then -n else n;
    var d := NatToString(m);
    var s := IntToString(n);
    assert s == (if n < 0 then "-" else "") + d;
    NoLeadingSpace(s);
    assert DropSign(s) == d;
    AllDigitsRun(d);
    NatToStringValue(m);
    assert d[..|d|] == d;
  }

  lemma NoLeadingSpace(s: string)
    requires |s| > 0 && (IsDigit(s[0]) || s[0] == '-')
    ensures TrimStart(s) == s
  {
    assert !IsSpace(s[0]);
  }

  lemma {:induction false} AllDigitsRun(s: string)
    requires AllDigits(s)
    ensures LeadingDigits(s) == |s|
    decreases |s|
  {
    if |s| > 0 {
      AllDigitsRun(s[1..]);
    }
  }

  /**
   * parseFloat(s) on decimal text: leading white space, an optional sign,
   * digits, then optionally `.` and more digits; `None` (NaN) when no digit
   * appears.  Exponents and `Infinity` are outside this model.
   */
  function ParseFloat(s: string): Option<real>
  {
    var t := TrimStart(s);
    match UnsignedDecimal(DropSign(t))
    case None => None
    case Some(v) => Some(Signed(SignOf(t), v))
  }

  /** Digits, optionally `.` and digits, read from the front of `u`; `None` without a digit. */
  function UnsignedDecimal(u: string): Option<real>
  {
    var n := LeadingDigits(u);
    if n < |u| && u[n] == '.' then
      var k := LeadingDigits(u[n + 1..]);
      if n == 0 && k == 0 then None
      else Some(DigitsValue(u[..n]) as real + Fraction(u[n + 1..][..k]))
    else if n == 0 then None
    else Some(DigitsValue(u[..n]) as real)
  }

  /** The value of the digits after a decimal point. */
  function Fraction(ds: string): real
    requires AllDigits(ds)
  {
    DigitsValue(ds) as real / Pow10(|ds|) as real
  }

  function Signed(sign: int, v: real): real
  {
    if sign < 0 then -v else v
  }

  lemma ParseFloatOfNat(n: nat)
    ensures ParseFloat(NatToString(n)) == Some(n as real)
  {
    var d := NatToString(n);
    NatToStringValue(n);
    AllDigitsRun(d);
    NoLeadingSpace(d);
    assert DropSign(d) == d;
    assert d[..|d|] == d;
  }

  /** Position of the first `a` in `s`, or -1. */
  function IndexOf(s: string, a: char): (k: int)
    ensures -1 <= k < |s|
    ensures k == -1 <==> a !in s
    ensures k >= 0 ==> s[k] == a && a !in s[..k]
  {
    if |s| == 0 then -1
    else if s[0] == a then 0
    else
      var k := IndexOf(s[1..], a);
      assert k >= 0 ==> s[..k + 1] == [s[0]] + s[1..][..k];
      if k == -1 then -1 else k + 1
  }

  /** `s.replace(a, b)` with a one-character pattern: only the first occurrence changes. */
  function ReplaceFirst(s: string, a: char, b: char): (r: string)
    ensures |r| == |s|
    ensures forall i :: 0 <= i < |s| ==> r[i] == (if i == IndexOf(s, a) then b else s[i])
  {
    var k := IndexOf(s, a);
    if k < 0 then s else s[..k] + [b] + s[k + 1..]
  }

  /** `parseFloat(s.replace(',', '.')) || 0`: the numeric coercion the upload routes apply to every cell. */
  function DecimalOrZero(s: string): real
  {
    OrZero(ParseFloat(ReplaceFirst(s, ',', '.')))
  }

  lemma {:induction false} LeadingDigitsStop(ds: string, rest: string)
    requires AllDigits(ds) && |rest| > 0 && !IsDigit(rest[0])
    ensures LeadingDigits(ds + rest) == |ds|
    decreases |ds|
  {
    if |ds| > 0 {
      assert (ds + rest)[1..] == ds[1..] + rest;
      LeadingDigitsStop(ds[1..], rest);
    }
  }

  // ---------------------------------------------------------------------
  // De-duplication (`[...new Set(xs)]`)
  // ---------------------------------------------------------------------

  predicate Distinct<T(==,!new)>(xs: seq<T>)
  {
    forall i, j :: 0 <= i < j < |xs| ==> xs[i] != xs[j]
  }

  /** The elements of `xs` in order of first occurrence, each once, as a JavaScript `Set` iterates them. */
  function Dedup<T(==,!new)>(xs: seq<T>): (d: seq<T>)
    ensures forall x :: x in d <==> x in xs
    ensures Distinct(d)
  {
    if |xs| == 0 then []
    else
      var n := |xs| - 1;
      var prev := Dedup(xs[..n]);
      assert xs == xs[..n] + [xs[n]];
      if xs[n] in prev then prev else prev + [xs[n]]
  }

  /** `k` is the position where `x` first occurs in `xs`. */
  predicate IsFirst<T(==,!new)>(xs: seq<T>, x: T, k: int)
  {
    0 <= k < |xs| && xs[k] == x && forall m :: 0 <= m < k ==> xs[m] != x
  }

  /** Dedup keeps the order of first occurrence: an earlier element first occurs earlier. */
  lemma {:induction false} DedupFirstOccurrence<T(!new)>(xs: seq<T>, i: int, j: int, p: int, q: int)
    requires 0 <= i < j < |Dedup(xs)|
    requires IsFirst(xs, Dedup(xs)[i], p) && IsFirst(xs, Dedup(xs)[j], q)
    ensures p < q
  {
    var n := |xs| - 1;
    var prev := Dedup(xs[..n]);
    var d := Dedup(xs);
    assert d[i] in prev;
    assert p < n by {
      var m :| 0 <= m < n && xs[..n][m] == d[i];
    }
    if j < |prev| {
      assert d[j] in prev;
      assert q < n by {
        var m :| 0 <= m < n && xs[..n][m] == d[j];
      }
      assert IsFirst(xs[..n], prev[i], p) && IsFirst(xs[..n], prev[j], q);
      DedupFirstOccurrence(xs[..n], i, j, p, q);
    } else {
      assert d[j] == xs[n] && xs[n] !in xs[..n];
      forall m | 0 <= m < n ensures xs[m] != xs[n] {
        assert xs[m] == xs[..n][m];
      }
    }
  }
}
