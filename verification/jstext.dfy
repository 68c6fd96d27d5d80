/** The pieces of JavaScript string behaviour the source relies on: the `\w` and line-terminator
    character classes of its regular expressions, `startsWith` / `includes`, the decimal rendering
    of `Date.now()`, and the global `parseInt` used to read a duration typed into a prompt
    (section 19.2.5 of ECMA-262). */
module JsText {
  import opened Base

  /** `\w`: ASCII letters, digits and underscore. */
  predicate IsWordChar(c: char) {
    ('a' <= c <= 'z') || ('A' <= c <= 'Z') || ('0' <= c <= '9') || c == '_'
  }

  /** The characters `.` does not match in a regular expression without the `s` flag. */
  predicate IsLineTerminator(c: char) {
    c == '\n' || c == '\r' || c == '\U{2028}' || c == '\U{2029}'
  }

  /** StrWhiteSpaceChar: what `parseInt` skips before the number (white space and line terminators). */
  predicate IsJsWhiteSpace(c: char) {
    || c == '\t' || c == '\U{000B}' || c == '\U{000C}' || c == ' ' || c == '\U{00A0}'
    || c == '\U{FEFF}' || c == '\U{1680}' || ('\U{2000}' <= c <= '\U{200A}')
    || c == '\U{202F}' || c == '\U{205F}' || c == '\U{3000}'
    || IsLineTerminator(c)
  }

  predicate IsDecimalDigit(c: char) {
    '0' <= c <= '9'
  }

  /** The value of `c` as a digit in base `radix` (10 or 16), if it is one. */
  function DigitValue(c: char, radix: nat): (d: Option<nat>)
    requires radix == 10 || radix == 16
    ensures d.Some? ==> d.value < radix
    ensures radix == 10 ==> (d.Some? <==> IsDecimalDigit(c))
  {
    if '0' <= c <= '9' then Some(c as nat - '0' as nat)
    else if radix == 16 && 'a' <= c <= 'f' then Some(c as nat - 'a' as nat + 10)
    else if radix == 16 && 'A' <= c <= 'F' then Some(c as nat - 'A' as nat + 10)
    else None
  }

  predicate StartsWith(s: string, prefix: string) {
    |prefix| <= |s| && s[..|prefix|] == prefix
  }

  /** `s.includes(w)`: `w` occurs somewhere in `s`. */
  predicate Includes(s: string, w: string)
    decreases |s|
  {
    StartsWith(s, w) || (|s| > 0 && Includes(s[1..], w))
  }

  /** 2^53: up to here every integer is a double, so the Number `parseInt` returns is exact. */
  const ExactIntegerBound: nat := 0x20_0000_0000_0000

  /** The decimal rendering of a natural number, as `String(n)` and template literals produce it. */
  function DecimalString(n: nat): (s: string)
    ensures |s| > 0
    ensures forall j :: 0 <= j < |s| ==> IsDecimalDigit(s[j])
    ensures n > 0 ==> s[0] != '0'
  {
    if n < 10 then [(n + '0' as nat) as char]
    else DecimalString(n / 10) + [(n % 10 + '0' as nat) as char]
  }

  /** The number written by a run of digits in base `radix`, most significant first. */
  function DigitsValue(s: string, radix: nat): nat
    requires radix == 10 || radix == 16
    requires forall j :: 0 <= j < |s| ==> DigitValue(s[j], radix).Some?
  {
    if |s| == 0 then 0
    else DigitsValue(s[..|s| - 1], radix) * radix + DigitValue(s[|s| - 1], radix).value
  }

  /** The length of the run of base-`radix` digits at the start of `s`. */
  function DigitRun(s: string, radix: nat): (k: nat)
    requires radix == 10 || radix == 16
    ensures k <= |s|
    ensures forall j :: 0 <= j < k ==> DigitValue(s[j], radix).Some?
    ensures k < |s| ==> DigitValue(s[k], radix).None?
  {
    if |s| == 0 || DigitValue(s[0], radix).None? then 0 else 1 + DigitRun(s[1..], radix)
  }

  /** `s` with its leading StrWhiteSpaceChar characters removed. */
  function TrimStart(s: string): (t: string)
    ensures |t| <= |s| && t == s[|s| - |t|..]
    ensures forall j :: 0 <= j < |s| - |t| ==> IsJsWhiteSpace(s[j])
    ensures |t| > 0 ==> !IsJsWhiteSpace(t[0])
  {
    if |s| > 0 && IsJsWhiteSpace(s[0]) then TrimStart(s[1..]) else s
  }

  /** The unsigned part of `parseInt`: a `0x`/`0X` prefix switches to base 16, then the longest
      run of digits is read; `None` when that run is empty. */
  function ParseMagnitude(u: string): (r: Option<nat>)
  {
    var hex := |u| >= 2 && u[0] == '0' && (u[1] == 'x' || u[1] == 'X');
    var radix := if hex then 16 else 10;
    var v := if hex then u[2..] else u;
    var k := DigitRun(v, radix);
    if k == 0 then None else Some(DigitsValue(v[..k], radix))
  }

  /** `parseInt` after white space is skipped: one sign is accepted before the magnitude, and
      negative zero is 0. */
  function ParseSigned(t: string): (r: Option<int>)
  {
    if |t| > 0 && t[0] == '-' then
      match ParseMagnitude(t[1..])
      case Some(m) => Some(-(m as int))
      case None => None
    else if |t| > 0 && t[0] == '+' then
      match ParseMagnitude(t[1..])
      case Some(m) => Some(m as int)
      case None => None
    else
      match ParseMagnitude(t)
      case Some(m) => Some(m as int)
      case None => None
  }

  /** `parseInt(s)` with no radix: `None` is NaN. Leading white space is skipped; nothing after
      the digits matters. */
  function ParseInt(s: string): (r: Option<int>)
  {
    ParseSigned(TrimStart(s))
  }

  /** `parseInt(text) || fallback`: NaN and zero both fall back. */
  function ParseIntOr(text: string, fallback: int): (r: int)
    ensures ParseInt(text).None? ==> r == fallback
    ensures ParseInt(text) == Some(0) ==> r == fallback
    ensures ParseInt(text).Some? && ParseInt(text).value != 0 ==> r == ParseInt(text).value
  {
    match ParseInt(text)
    case Some(n) => if n != 0 then n else fallback
    case None => fallback
  }

  // ---------------------------------------------------------------------------------------------
  // Properties of the decimal rendering and of parseInt.

  /** Reading back the digits `DecimalString` writes gives the number again. */
  lemma {:induction false} DigitsValueOfDecimal(n: nat)
    ensures forall j :: 0 <= j < |DecimalString(n)| ==> DigitValue(DecimalString(n)[j], 10).Some?
    ensures DigitsValue(DecimalString(n), 10) == n
  {
    var s := DecimalString(n);
    if n >= 10 {
      DigitsValueOfDecimal(n / 10);
      var p := DecimalString(n / 10);
      assert s == p + [(n % 10 + '0' as nat) as char];
      assert s[..|s| - 1] == p;
    }
  }

  /** A run of decimal digits followed by a non-digit is read up to the non-digit. */
  lemma {:induction false} DigitRunOfDigitsThen(d: string, rest: string)
    requires forall j :: 0 <= j < |d| ==> IsDecimalDigit(d[j])
    requires rest == [] || !IsDecimalDigit(rest[0])
    ensures DigitRun(d + rest, 10) == |d|
  {
    if |d| > 0 {
      assert (d + rest)[1..] == d[1..] + rest;
      DigitRunOfDigitsThen(d[1..], rest);
    } else {
      assert d + rest == rest;
    }
  }

  /** The magnitude reader reads back what `String(n)` wrote, and ignores any trailing text that
      does not begin with a digit or (after a lone "0") an `x`. */
  lemma MagnitudeOfDecimal(n: nat, rest: string)
    requires rest == [] || (!IsDecimalDigit(rest[0]) && rest[0] != 'x' && rest[0] != 'X')
    ensures ParseMagnitude(DecimalString(n) + rest) == Some(n)
  {
    var d := DecimalString(n);
    var s := d + rest;
    if |d| == 1 {
      assert !(|s| >= 2 && (s[1] == 'x' || s[1] == 'X'));
    } else {
      assert s[1] == d[1];
    }
    DigitRunOfDigitsThen(d, rest);
    assert s[..|d|] == d;
    DigitsValueOfDecimal(n);
  }

  /** parseInt reads back what `String(n)` wrote, followed by any text that does not continue
      the number, while the number is one a double holds exactly. */
  lemma ParseIntDecimal(n: nat, rest: string)
    requires n <= ExactIntegerBound
    requires rest == [] || (!IsDecimalDigit(rest[0]) && rest[0] != 'x' && rest[0] != 'X')
    ensures ParseInt(DecimalString(n) + rest) == Some(n)
  {
    var s := DecimalString(n) + rest;
    assert s[0] == DecimalString(n)[0];
    NoDigitIsWhiteSpace(s[0]);
    assert TrimStart(s) == s;
    MagnitudeOfDecimal(n, rest);
    assert ParseSigned(s) == Some(n);
  }

  /** With a minus sign in front, parseInt reads back the negated number, while the number is
      one a double holds exactly. */
  lemma ParseIntNegativeDecimal(n: nat)
    requires n <= ExactIntegerBound
    ensures ParseInt("-" + DecimalString(n)) == Some(-(n as int))
  {
    var d := DecimalString(n);
    var s := "-" + d;
    assert !IsJsWhiteSpace(s[0]);
    assert TrimStart(s) == s;
    assert s[1..] == d + [];
    MagnitudeOfDecimal(n, []);
    assert ParseSigned(s) == Some(-(n as int));
  }

  lemma NoDigitIsWhiteSpace(c: char)
    requires IsDecimalDigit(c)
    ensures !IsJsWhiteSpace(c) && c != '-' && c != '+'
  {
  }

  /** Leading white space never changes what parseInt reads. */
  lemma {:induction false} ParseIntSkipsWhiteSpace(ws: string, s: string)
    requires forall j :: 0 <= j < |ws| ==> IsJsWhiteSpace(ws[j])
    ensures ParseInt(ws + s) == ParseInt(s)
  {
    TrimStartSkips(ws, s);
  }

  lemma {:induction false} TrimStartSkips(ws: string, s: string)
    requires forall j :: 0 <= j < |ws| ==> IsJsWhiteSpace(ws[j])
    ensures TrimStart(ws + s) == TrimStart(s)
  {
    if |ws| > 0 {
      assert (ws + s)[0] == ws[0];
      assert (ws + s)[1..] == ws[1..] + s;
      TrimStartSkips(ws[1..], s);
    } else {
      assert ws + s == s;
    }
  }

  /** A cancelled or empty prompt reads as "0", which is falsy, so the fallback is kept. */
  lemma EmptyAnswerKeepsFallback(fallback: int)
    ensures ParseIntOr(OrElse("", "0"), fallback) == fallback
  {
    ParseIntDecimal(0, []);
    assert DecimalString(0) + [] == "0";
  }
}
