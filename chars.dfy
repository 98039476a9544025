/** Character classes of Python's `str` methods, restricted to the alphabet the
    documents use: ASCII, the Hungarian accented letters and the Latin-1 and
    Unicode line separators. `'x'.isspace()`, `isdigit()`, `isalpha()`,
    `upper()`, `lower()` and the regex classes `\s`, `\d`, `\w` are modelled on
    that alphabet only. */
module Chars {

  /** `c.isspace()`, Python's whitespace (also what `str.split()` and
      `str.strip()` remove). */
  predicate IsSpace(c: char)
  {
    c == ' ' || c == '\t' || c == '\n' || c == '\r' || c == '\U{000B}' || c == '\U{000C}'
    || ('\U{001C}' <= c <= '\U{001F}') || c == '\U{0085}' || c == '\U{00A0}'
    || c == '\U{2028}' || c == '\U{2029}'
  }

  /** The characters at which `str.splitlines()` ends a line. */
  predicate IsLineBreak(c: char)
  {
    c == '\n' || c == '\r' || c == '\U{000B}' || c == '\U{000C}'
    || ('\U{001C}' <= c <= '\U{001E}') || c == '\U{0085}' || c == '\U{2028}' || c == '\U{2029}'
  }

  lemma LineBreakIsSpace(c: char)
    ensures IsLineBreak(c) ==> IsSpace(c)
  {
  }

  predicate IsDigit(c: char) { '0' <= c <= '9' }

  predicate IsAsciiUpper(c: char) { 'A' <= c <= 'Z' }
  predicate IsAsciiLower(c: char) { 'a' <= c <= 'z' }
  predicate IsAsciiLetter(c: char) { IsAsciiUpper(c) || IsAsciiLower(c) }
  predicate IsAsciiAlnum(c: char) { IsAsciiLetter(c) || IsDigit(c) }

  /** The accented letters of Hungarian. Those whose upper-case form is 32 code
      points lower (Latin-1) and the two double-acute letters (Latin Extended-A). */
  predicate IsHuLowerLatin1(c: char)
  {
    c == 'á' || c == 'é' || c == 'í' || c == 'ó' || c == 'ö' || c == 'ú' || c == 'ü'
  }
  predicate IsHuUpperLatin1(c: char)
  {
    c == 'Á' || c == 'É' || c == 'Í' || c == 'Ó' || c == 'Ö' || c == 'Ú' || c == 'Ü'
  }
  predicate IsHuLowerDouble(c: char) { c == 'ő' || c == 'ű' }
  predicate IsHuUpperDouble(c: char) { c == 'Ő' || c == 'Ű' }

  predicate IsLower(c: char) { IsAsciiLower(c) || IsHuLowerLatin1(c) || IsHuLowerDouble(c) }
  predicate IsUpper(c: char) { IsAsciiUpper(c) || IsHuUpperLatin1(c) || IsHuUpperDouble(c) }

  /** `c.isalpha()`. */
  predicate IsAlpha(c: char) { IsLower(c) || IsUpper(c) }

  /** `c.isalnum()`. */
  predicate IsAlnum(c: char) { IsAlpha(c) || IsDigit(c) }

  /** The regex class `\w` (what `\b` looks at). */
  predicate IsWordChar(c: char) { IsAlnum(c) || c == '_' }

  /** `c.upper()`: lower-case letters become upper case, every other character
      is left as it is. */
  function Upper(c: char): (u: char)
    ensures IsLower(c) ==> IsUpper(u)
    ensures !IsLower(c) ==> u == c
    ensures IsAlpha(u) <==> IsAlpha(c)
    ensures IsDigit(u) <==> IsDigit(c)
    ensures IsSpace(u) <==> IsSpace(c)
    ensures !IsLower(u)
  {
    if IsAsciiLower(c) || IsHuLowerLatin1(c) then (c as int - 32) as char
    else if IsHuLowerDouble(c) then (c as int - 1) as char
    else c
  }

  /** `c.lower()`: upper-case letters become lower case, every other character
      is left as it is. */
  function Lower(c: char): (l: char)
    ensures IsUpper(c) ==> IsLower(l)
    ensures !IsUpper(c) ==> l == c
    ensures IsAlpha(l) <==> IsAlpha(c)
    ensures !IsUpper(l)
  {
    if IsAsciiUpper(c) || IsHuUpperLatin1(c) then (c as int + 32) as char
    else if IsHuUpperDouble(c) then (c as int + 1) as char
    else c
  }

  lemma UpperIdempotent(c: char)
    ensures Upper(Upper(c)) == Upper(c)
  {
  }

  lemma UpperOfLower(c: char)
    ensures Upper(Lower(c)) == Upper(c)
  {
  }

  /** `s.upper()`, one character at a time on this alphabet. */
  function UpperStr(s: string): (r: string)
    ensures |r| == |s|
    ensures forall i | 0 <= i < |s| :: r[i] == Upper(s[i])
  {
    if |s| == 0 then "" else [Upper(s[0])] + UpperStr(s[1..])
  }

  /** `s.lower()`. */
  function LowerStr(s: string): (r: string)
    ensures |r| == |s|
    ensures forall i | 0 <= i < |s| :: r[i] == Lower(s[i])
  {
    if |s| == 0 then "" else [Lower(s[0])] + LowerStr(s[1..])
  }

  lemma UpperStrIdempotent(s: string)
    ensures UpperStr(UpperStr(s)) == UpperStr(s)
  {
    var u := UpperStr(s);
    forall i | 0 <= i < |s|
      ensures UpperStr(u)[i] == u[i]
    {
      UpperIdempotent(s[i]);
    }
  }

  lemma UpperStrOfLowerStr(s: string)
    ensures UpperStr(LowerStr(s)) == UpperStr(s)
  {
    forall i | 0 <= i < |s|
      ensures UpperStr(LowerStr(s))[i] == UpperStr(s)[i]
    {
      UpperOfLower(s[i]);
    }
  }

  /** No lower-case letter: what `upper()` leaves. */
  predicate NoLower(s: string)
  {
    forall i | 0 <= i < |s| :: !IsLower(s[i])
  }

  /** `s.isdigit()`: non-empty and every character a decimal digit. */
  predicate IsDigits(s: string)
  {
    |s| > 0 && forall i | 0 <= i < |s| :: IsDigit(s[i])
  }

  /** `s.isalpha()`: non-empty and every character a letter. */
  predicate IsAlphas(s: string)
  {
    |s| > 0 && forall i | 0 <= i < |s| :: IsAlpha(s[i])
  }

  function Pow10(k: nat): (p: nat)
    ensures p >= 1
  {
    if k == 0 then 1 else 10 * Pow10(k - 1)
  }

  /** `int(s)` for a string of decimal digits. */
  function DigitsValue(s: string): (n: nat)
    requires forall i | 0 <= i < |s| :: IsDigit(s[i])
    ensures n < Pow10(|s|)
    decreases |s|
  {
    if |s| == 0 then 0
    else
      assert IsDigit(s[|s| - 1]);
      DigitsValue(s[..|s| - 1]) * 10 + (s[|s| - 1] as int - '0' as int)
  }
}
