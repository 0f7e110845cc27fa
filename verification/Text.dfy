/** The JavaScript string operations the browser code relies on:
    `trim`, `toLowerCase`, `includes`, `parseInt` (through its use as
    `parseInt(x) || 0`) and the default `<` order that `Array.sort`
    uses on strings. */
module Text {

  /** ECMAScript WhiteSpace and LineTerminator code points: what `trim`
      strips and what `parseInt` skips. */
  predicate IsSpace(c: char) {
    c == ' ' || c == '\t' || c == '\n' || c == '\r'
    || c == '\U{000B}' || c == '\U{000C}' || c == '\U{00A0}' || c == '\U{1680}'
    || ('\U{2000}' <= c <= '\U{200A}')
    || c == '\U{2028}' || c == '\U{2029}' || c == '\U{202F}' || c == '\U{205F}'
    || c == '\U{3000}' || c == '\U{FEFF}'
  }

  function TrimStart(s: string): (r: string)
    ensures |r| <= |s|
  {
    if s == [] || !IsSpace(s[0]) then s else TrimStart(s[1..])
  }

  /** `TrimStart` cuts a white-space prefix and stops at the first other
      character. */
  lemma {:induction false} TrimStartSpec(s: string)
    ensures TrimStart(s) == s[|s| - |TrimStart(s)|..]
    ensures TrimStart(s) == [] || !IsSpace(TrimStart(s)[0])
    ensures forall i :: 0 <= i < |s| - |TrimStart(s)| ==> IsSpace(s[i])
  {
    if s != [] && IsSpace(s[0]) {
      TrimStartSpec(s[1..]);
    }
  }

  function TrimEnd(s: string): (r: string)
    ensures |r| <= |s|
  {
    if s == [] || !IsSpace(s[|s| - 1]) then s else TrimEnd(s[..|s| - 1])
  }

  /** `TrimEnd` cuts a white-space suffix and stops at the last other
      character. */
  lemma {:induction false} TrimEndSpec(s: string)
    ensures TrimEnd(s) == s[..|TrimEnd(s)|]
    ensures TrimEnd(s) == [] || !IsSpace(TrimEnd(s)[|TrimEnd(s)| - 1])
    ensures forall i :: |TrimEnd(s)| <= i < |s| ==> IsSpace(s[i])
  {
    if s != [] && IsSpace(s[|s| - 1]) {
      TrimEndSpec(s[..|s| - 1]);
    }
  }

  /** `String.prototype.trim`. */
  function Trim(s: string): string {
    TrimEnd(TrimStart(s))
  }

  /** How many white-space characters trim cuts from the front. */
  function LeadingSpaces(s: string): (n: nat)
    ensures n <= |s|
  {
    |s| - |TrimStart(s)|
  }

  /** What trim returns: a contiguous piece of the input with only white
      space cut off around it. */
  lemma TrimSpec(s: string)
    ensures LeadingSpaces(s) + |Trim(s)| <= |s|
    ensures Trim(s) == s[LeadingSpaces(s)..LeadingSpaces(s) + |Trim(s)|]
    ensures forall k :: 0 <= k < LeadingSpaces(s) ==> IsSpace(s[k])
    ensures forall k :: LeadingSpaces(s) + |Trim(s)| <= k < |s| ==> IsSpace(s[k])
  {
    var t := TrimStart(s);
    TrimStartSpec(s);
    TrimEndOfSuffix(s, t, |s| - |t|);
  }

  /** ... and that piece neither starts nor ends with white space. */
  lemma TrimEdges(s: string)
    ensures Trim(s) == [] || (!IsSpace(Trim(s)[0]) && !IsSpace(Trim(s)[|Trim(s)| - 1]))
  {
    var t := TrimStart(s);
    var r := TrimEnd(t);
    TrimStartSpec(s);
    TrimEndSpec(t);
    if r != [] {
      assert r[0] == t[0];
    }
  }

  /** Trimming the end of a suffix of `s`, restated in positions of `s`. */
  lemma TrimEndOfSuffix(s: string, t: string, i: nat)
    requires i <= |s| && t == s[i..]
    ensures i + |TrimEnd(t)| <= |s|
    ensures TrimEnd(t) == s[i..i + |TrimEnd(t)|]
    ensures forall k :: i + |TrimEnd(t)| <= k < |s| ==> IsSpace(s[k])
  {
    var r := TrimEnd(t);
    TrimEndSpec(t);
    assert r == t[..|r|];
    forall k | i + |r| <= k < |s| ensures IsSpace(s[k]) {
      assert s[k] == t[k - i];
    }
  }

  /** A text trims to "" exactly when it is all white space. */
  lemma {:induction false} TrimEmptyIffBlank(s: string)
    ensures Trim(s) == "" <==> forall k :: 0 <= k < |s| ==> IsSpace(s[k])
  {
    TrimSpec(s);
    TrimEdges(s);
  }

  /** `toLowerCase` on ASCII and Latin-1 letters. */
  function LowerChar(c: char): (l: char)
    ensures IsUpper(c) ==> l as int == c as int + 32
    ensures !IsUpper(c) ==> l == c
    ensures !IsUpper(l)
  {
    if IsUpper(c) then (c as int + 32) as char else c
  }

  /** The capitals `toLowerCase` maps here: A-Z and the Latin-1 capitals
      À-Þ except the multiplication sign. */
  predicate IsUpper(c: char) {
    'A' <= c <= 'Z' || ('\U{00C0}' <= c <= '\U{00DE}' && c != '\U{00D7}')
  }

  function Lower(s: string): (r: string)
    ensures |r| == |s|
    ensures forall i :: 0 <= i < |s| ==> r[i] == LowerChar(s[i])
  {
    if s == [] then [] else [LowerChar(s[0])] + Lower(s[1..])
  }

  /** Lower-casing an already lower-cased text changes nothing, so the
      search term and the fields meet in the same case. */
  lemma {:induction false} LowerIdempotent(s: string)
    ensures Lower(Lower(s)) == Lower(s)
  {
    var r := Lower(s);
    assert forall i :: 0 <= i < |r| ==> Lower(r)[i] == LowerChar(r[i]) == r[i];
  }

  /** `haystack.includes(needle)`. */
  predicate Contains(haystack: string, needle: string) {
    exists i | 0 <= i <= |haystack| - |needle| :: OccursAt(haystack, needle, i)
  }

  predicate OccursAt(haystack: string, needle: string, i: int) {
    0 <= i <= |haystack| - |needle| && haystack[i..i + |needle|] == needle
  }

  predicate IsDigit(c: char) {
    '0' <= c <= '9'
  }

  function HexValue(c: char): (v: int)
    ensures -1 <= v < 16
  {
    if '0' <= c <= '9' then c as int - '0' as int
    else if 'a' <= c <= 'f' then c as int - 'a' as int + 10
    else if 'A' <= c <= 'F' then c as int - 'A' as int + 10
    else -1
  }

  /** The longest prefix of `s` made of digits of the radix (10 or 16). */
  function DigitPrefix(s: string, radix: int): (r: string)
    requires radix == 10 || radix == 16
    ensures |r| <= |s| && r == s[..|r|]
    ensures forall i :: 0 <= i < |r| ==> 0 <= HexValue(r[i]) < radix
    ensures |r| < |s| ==> !(0 <= HexValue(s[|r|]) < radix)
  {
    if s != [] && 0 <= HexValue(s[0]) < radix then [s[0]] + DigitPrefix(s[1..], radix) else []
  }

  /** The value of a digit string, most significant digit first. */
  function DigitsValue(s: string, radix: int): (v: int)
    requires radix == 10 || radix == 16
    requires forall i :: 0 <= i < |s| ==> 0 <= HexValue(s[i]) < radix
    ensures v >= 0
  {
    if s == [] then 0 else DigitsValue(s[..|s| - 1], radix) * radix + HexValue(s[|s| - 1])
  }

  /** `parseInt(s) || 0`: leading white space, an optional sign, a "0x"
      prefix switching to radix 16, then as many digits as there are;
      no digit at all (NaN) gives 0. */
  function ParseIntOrZero(s: string): int {
    var t := TrimStart(s);
    var negative := |t| > 0 && t[0] == '-';
    var u := if |t| > 0 && (t[0] == '-' || t[0] == '+') then t[1..] else t;
    var hex := |u| >= 2 && u[0] == '0' && (u[1] == 'x' || u[1] == 'X');
    var radix := if hex then 16 else 10;
    var digits := DigitPrefix(if hex then u[2..] else u, radix);
    var magnitude := DigitsValue(digits, radix);
    if negative then -magnitude else magnitude
  }

  /** The decimal text of a natural number, without leading zeros. */
  function DecimalString(n: nat): (s: string)
    ensures |s| > 0 && forall i :: 0 <= i < |s| ==> IsDigit(s[i])
    ensures |s| > 1 ==> s[0] != '0'
  {
    if n < 10 then [('0' as int + n) as char]
    else DecimalString(n / 10) + [('0' as int + n % 10) as char]
  }

  lemma {:induction false} DecimalValue(n: nat)
    ensures forall i :: 0 <= i < |DecimalString(n)| ==> 0 <= HexValue(DecimalString(n)[i]) < 10
    ensures DigitsValue(DecimalString(n), 10) == n
  {
    var s := DecimalString(n);
    if n >= 10 {
      DecimalValue(n / 10);
      assert s[..|s| - 1] == DecimalString(n / 10);
    }
  }

  /** A number written in decimal parses back to itself, which is what
      the listing sorts invoice numbers by. */
  lemma ParseDecimalRoundTrip(n: nat)
    ensures ParseIntOrZero(DecimalString(n)) == n
  {
    DecimalValue(n);
    ParsePlainDigits(DecimalString(n));
  }

  /** A digit string parses to its decimal value, leading zeros included
      ("000123" gives 123). */
  lemma ParsePlainDigits(s: string)
    requires |s| > 0 && forall i :: 0 <= i < |s| ==> IsDigit(s[i])
    ensures forall i :: 0 <= i < |s| ==> 0 <= HexValue(s[i]) < 10
    ensures ParseIntOrZero(s) == DigitsValue(s, 10)
  {
    ParseDigitsThenText(s, []);
    assert s + [] == s;
  }

  /** Whatever follows the digits is ignored ("123/A" gives 123), as long
      as it does not turn a lone "0" into a "0x" prefix. */
  lemma ParseDigitsThenText(s: string, rest: string)
    requires |s| > 0 && forall i :: 0 <= i < |s| ==> IsDigit(s[i])
    requires rest == [] || !IsDigit(rest[0])
    requires !(s == "0" && rest != [] && (rest[0] == 'x' || rest[0] == 'X'))
    ensures forall i :: 0 <= i < |s| ==> 0 <= HexValue(s[i]) < 10
    ensures ParseIntOrZero(s + rest) == DigitsValue(s, 10)
  {
    var t := s + rest;
    assert t[0] == s[0];
    assert !IsSpace(t[0]);
    assert TrimStart(t) == t;
    assert t[0] != '-' && t[0] != '+';
    assert !(|t| >= 2 && t[0] == '0' && (t[1] == 'x' || t[1] == 'X')) by {
      if |s| >= 2 {
        assert t[1] == s[1];
      }
    }
    DigitPrefixThenText(s, rest);
  }

  /** The digits of radix 10 at the front of `s + rest` are `s`. */
  lemma {:induction false} DigitPrefixThenText(s: string, rest: string)
    requires forall i :: 0 <= i < |s| ==> IsDigit(s[i])
    requires rest == [] || !IsDigit(rest[0])
    ensures DigitPrefix(s + rest, 10) == s
  {
    if s == [] {
      assert s + rest == rest;
    } else {
      assert (s + rest)[0] == s[0];
      assert (s + rest)[1..] == s[1..] + rest;
      DigitPrefixThenText(s[1..], rest);
    }
  }

  /** `parseInt` finds no digit after the optional sign and gives NaN,
      which `|| 0` turns into 0 ("", "NF-12", "S/N"). */
  lemma ParseNoDigitsZero(s: string)
    requires var t := TrimStart(s);
      var u := if |t| > 0 && (t[0] == '-' || t[0] == '+') then t[1..] else t;
      u == [] || !IsDigit(u[0])
    ensures ParseIntOrZero(s) == 0
  {
  }

  lemma DigitPrefixOfDigits(s: string)
    requires forall i :: 0 <= i < |s| ==> 0 <= HexValue(s[i]) < 10
    ensures DigitPrefix(s, 10) == s
  {
  }

  /** JavaScript's `a < b` on strings: the first differing character
      decides, a proper prefix comes first. */
  predicate StrLess(a: string, b: string) {
    if a == [] then b != []
    else if b == [] then false
    else if a[0] != b[0] then a[0] < b[0]
    else StrLess(a[1..], b[1..])
  }

  lemma {:induction false} StrLessIrreflexive(a: string)
    ensures !StrLess(a, a)
  {
    if a != [] {
      StrLessIrreflexive(a[1..]);
    }
  }

  lemma {:induction false} StrLessTotal(a: string, b: string)
    ensures a == b || StrLess(a, b) || StrLess(b, a)
  {
    if a != [] && b != [] && a[0] == b[0] {
      StrLessTotal(a[1..], b[1..]);
      if a[1..] == b[1..] {
        assert a == [a[0]] + a[1..] && b == [b[0]] + b[1..];
      }
    }
  }

  lemma {:induction false} StrLessTransitive(a: string, b: string, c: string)
    requires StrLess(a, b) && StrLess(b, c)
    ensures StrLess(a, c)
  {
    if a != [] && b != [] && c != [] && a[0] == b[0] && b[0] == c[0] {
      StrLessTransitive(a[1..], b[1..], c[1..]);
    }
  }
}
