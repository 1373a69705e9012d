/** The JavaScript string built-ins the survey relies on: String.prototype.trim,
    the first piece of String.prototype.split with a one-character separator,
    Number.prototype.toString for integers and parseInt(s, 10). Strings are
    sequences of code points; number precision beyond integers is not modelled. */
module JsText {
  import opened Types

  /** ECMAScript WhiteSpace and LineTerminator code points: what trim() removes
      and what the regular-expression class \s matches. */
  predicate IsWhitespace(c: char) {
    || c == '\t' || c == '\n' || c == '\U{000B}' || c == '\U{000C}' || c == '\r' || c == ' '
    || c == '\U{00A0}' || c == '\U{1680}' || ('\U{2000}' <= c <= '\U{200A}')
    || c == '\U{2028}' || c == '\U{2029}' || c == '\U{202F}' || c == '\U{205F}'
    || c == '\U{3000}' || c == '\U{FEFF}'
  }

  predicate AllWhitespace(s: string) {
    forall i :: 0 <= i < |s| ==> IsWhitespace(s[i])
  }

  /** String.prototype.trimStart: the longest suffix that does not start with whitespace. */
  function TrimStart(s: string): (r: string)
    ensures |r| <= |s| && r == s[|s| - |r|..]
    ensures AllWhitespace(s[..|s| - |r|])
    ensures r == [] || !IsWhitespace(r[0])
  {
    if s != [] && IsWhitespace(s[0]) then TrimStart(s[1..]) else s
  }

  /** String.prototype.trimEnd: the longest prefix that does not end with whitespace. */
  function TrimEnd(s: string): (r: string)
    ensures |r| <= |s| && r == s[..|r|]
    ensures AllWhitespace(s[|r|..])
    ensures r == [] || !IsWhitespace(r[|r| - 1])
  {
    if s != [] && IsWhitespace(s[|s| - 1]) then TrimEnd(s[..|s| - 1]) else s
  }

  /** String.prototype.trim: whitespace removed at both ends, the inside untouched. */
  function Trim(s: string): (r: string)
    ensures r == [] || (!IsWhitespace(r[0]) && !IsWhitespace(r[|r| - 1]))
    ensures Middle(s, |s| - |TrimStart(s)|, r)
  {
    MiddleOfSuffix(s, TrimStart(s), |TrimEnd(TrimStart(s))|);
    TrimEnd(TrimStart(s))
  }

  /** r is the part of s that starts at a, with only whitespace before and after it. */
  predicate Middle(s: string, a: int, r: string) {
    && 0 <= a && a + |r| <= |s| && r == s[a..a + |r|]
    && AllWhitespace(s[..a]) && AllWhitespace(s[a + |r|..])
  }

  /** The first m characters of a whitespace-led suffix t of s, followed by
      whitespace only, are the middle of s. */
  lemma MiddleOfSuffix(s: string, t: string, m: nat)
    requires |t| <= |s| && t == s[|s| - |t|..] && AllWhitespace(s[..|s| - |t|])
    requires m <= |t| && AllWhitespace(t[m..])
    ensures Middle(s, |s| - |t|, t[..m])
  {
    var a := |s| - |t|;
    assert t[..m] == s[a..a + m];
    assert t[m..] == s[a + m..];
  }

  lemma {:induction false} TrimStartIdentity(s: string)
    requires s == [] || !IsWhitespace(s[0])
    ensures TrimStart(s) == s
  {
  }

  lemma {:induction false} TrimEndIdentity(s: string)
    requires s == [] || !IsWhitespace(s[|s| - 1])
    ensures TrimEnd(s) == s
  {
  }

  /** A string with no whitespace at either end is its own trim; in particular
      trimming is idempotent. */
  lemma TrimIdentity(s: string)
    requires s == [] || (!IsWhitespace(s[0]) && !IsWhitespace(s[|s| - 1]))
    ensures Trim(s) == s
  {
    TrimStartIdentity(s);
    TrimEndIdentity(s);
  }

  lemma TrimIdempotent(s: string)
    ensures Trim(Trim(s)) == Trim(s)
  {
    TrimIdentity(Trim(s));
  }

  /** s.split(sep)[0] for a one-character separator: the text before the first
      occurrence of sep, or all of s when sep does not occur. */
  function BeforeFirst(s: string, sep: char): (r: string)
    ensures |r| <= |s| && r == s[..|r|]
    ensures sep !in r
    ensures |r| < |s| ==> s[|r|] == sep
  {
    if s == [] || s[0] == sep then [] else [s[0]] + BeforeFirst(s[1..], sep)
  }

  lemma BeforeFirstAbsent(s: string, sep: char)
    requires sep !in s
    ensures BeforeFirst(s, sep) == s
  {
  }

  // ---------------------------------------------------------------------------
  // Decimal integers

  predicate IsDigit(c: char) {
    '0' <= c <= '9'
  }

  predicate AllDigits(s: string) {
    forall i :: 0 <= i < |s| ==> IsDigit(s[i])
  }

  function DigitChar(d: nat): (c: char)
    requires d < 10
    ensures IsDigit(c) && c as int - '0' as int == d
  {
    ('0' as int + d) as char
  }

  function DigitValue(c: char): (d: nat)
    requires IsDigit(c)
    ensures d < 10 && DigitChar(d) == c
  {
    c as int - '0' as int
  }

  /** Number.prototype.toString() of a non-negative integer: its shortest decimal numeral. */
  function NatToString(n: nat): (r: string)
    ensures |r| >= 1 && AllDigits(r)
    ensures r[0] != '0' || n == 0
  {
    if n < 10 then [DigitChar(n)] else NatToString(n / 10) + [DigitChar(n % 10)]
  }

  /** Number.prototype.toString() of an integer. */
  function IntToString(i: int): (r: string)
    ensures |r| >= 1
    ensures r[0] == '-' <==> i < 0
    ensures var digits := if i < 0 then r[1..] else r;
      |digits| >= 1 && AllDigits(digits) && DigitsValue(digits) == (if i < 0 then -i else i)
  {
    DigitsValueOfNatToString(if i < 0 then -i else i);
    if i < 0 then "-" + NatToString(-i) else NatToString(i)
  }

  /** The value of a numeral read most significant digit first. */
  function DigitsValue(s: string): nat
    requires AllDigits(s)
  {
    if s == [] then 0 else 10 * DigitsValue(s[..|s| - 1]) + DigitValue(s[|s| - 1])
  }

  lemma {:induction false} DigitsValueOfNatToString(n: nat)
    ensures DigitsValue(NatToString(n)) == n
  {
    var r := NatToString(n);
    if n >= 10 {
      DigitsValueOfNatToString(n / 10);
      assert r[..|r| - 1] == NatToString(n / 10);
    }
  }

  /** The number of digits at the front of s. */
  function LeadingDigitCount(s: string): (k: nat)
    ensures k <= |s| && AllDigits(s[..k])
    ensures k < |s| ==> !IsDigit(s[k])
  {
    if s != [] && IsDigit(s[0]) then
      var k := 1 + LeadingDigitCount(s[1..]);
      assert s[..k] == [s[0]] + s[1..][..k - 1];
      k
    else 0
  }

  lemma LeadingDigitCountAll(s: string)
    requires AllDigits(s)
    ensures LeadingDigitCount(s) == |s|
  {
  }

  /** parseInt(s, 10): leading whitespace skipped, one optional sign, then the
      longest run of decimal digits; None stands for NaN (no digit there).
      Negative zero is read as zero. */
  function ParseInt(s: string): (r: Option<int>)
    ensures r.None? <==> LeadingDigitCount(SignStripped(TrimStart(s))) == 0
  {
    var t := TrimStart(s);
    var u := SignStripped(t);
    var k := LeadingDigitCount(u);
    if k == 0 then None
    else
      var v: int := DigitsValue(u[..k]);
      Some(if t[0] == '-' then -v else v)
  }

  function SignStripped(t: string): (u: string)
    ensures u == t || (t != [] && t[0] in "+-" && u == t[1..])
  {
    if t != [] && (t[0] == '-' || t[0] == '+') then t[1..] else t
  }

  /** Reading back what toString() wrote gives the same integer. */
  lemma ParseIntOfIntToString(i: int)
    ensures ParseInt(IntToString(i)) == Some(i)
  {
    var n: nat := if i < 0 then -i else i;
    var digits := NatToString(n);
    DigitsValueOfNatToString(n);
    if i < 0 {
      var s := "-" + digits;
      assert IntToString(i) == s;
      ParseIntOfNumeral(s, digits);
    } else {
      ParseIntOfNumeral(digits, digits);
    }
  }

  /** A numeral, possibly preceded by a minus sign, reads as its value. */
  lemma ParseIntOfNumeral(s: string, digits: string)
    requires AllDigits(digits) && digits != []
    requires s == digits || s == "-" + digits
    ensures ParseInt(s) == Some(if s == digits then DigitsValue(digits) as int else -(DigitsValue(digits) as int))
  {
    TrimStartIdentity(s);
    assert SignStripped(s) == digits;
    LeadingDigitCountAll(digits);
    assert digits[..|digits|] == digits;
  }
}
