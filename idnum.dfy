/** The ID-card number canonicaliser: six digits followed by two letters,
    with the usual OCR confusions mended zone by zone. */
module IdNumber {
  import opened Base
  import opened Chars
  import opened PyStr

  /** A digit-zone character after the fixes: O reads as 0; I, L and | as 1. */
  function DigitFix(c: char): char
  {
    if c == 'O' then '0' else if c == 'I' || c == 'L' || c == '|' then '1' else c
  }

  /** A letter-zone character after the fixes: 0 reads as O; 1, L and | as I. */
  function LetterFix(c: char): char
  {
    if c == '0' then 'O' else if c == '1' || c == 'L' || c == '|' then 'I' else c
  }

  /** Applies a character fix to every character of a zone. */
  function MapFix(z: string, f: char -> char): (r: string)
    ensures |r| == |z|
    ensures forall i | 0 <= i < |z| :: r[i] == f(z[i])
  {
    if |z| == 0 then "" else [f(z[0])] + MapFix(z[1..], f)
  }

  /** `raw.strip().upper().replace(" ", "")`. */
  function Compact(raw: string): (s: string)
    ensures forall i | 0 <= i < |s| :: s[i] != ' '
  {
    Filter(UpperStr(Strip(raw)), NotSpaceChar)
  }

  /** The canonical form: six decimal digits and two upper-case letters. */
  predicate IsIdNumber(t: string)
  {
    |t| == 8 && (forall i | 0 <= i < 6 :: IsDigit(t[i])) && IsUpper(t[6]) && IsUpper(t[7])
  }

  /** The zone checks on an 8-character compacted string. */
  function Zones(s: string): (r: Option<string>)
    requires |s| == 8
    ensures r.Some? ==> |r.value| == 8
    ensures r.Some? ==> forall i | 0 <= i < 6 :: r.value[i] == DigitFix(s[i])
    ensures r.Some? ==> forall i | 6 <= i < 8 :: r.value[i] == LetterFix(s[i])
  {
    var digits := MapFix(s[..6], DigitFix);
    if !IsDigits(digits) then None
    else
      var letters := MapFix(s[6..], LetterFix);
      if |letters| != 2 || !IsAlphas(letters) then None
      else Some(digits + letters)
  }

  /** `normalize_id_number`: None for empty input and for input whose
      compacted form is not exactly 8 characters long; otherwise the zone
      checks decide. */
  function NormalizeIdNumberOf(raw: string): (r: Option<string>)
    ensures raw == "" || |Compact(raw)| != 8 ==> r == None
    ensures r.Some? ==> |r.value| == 8
    ensures r.Some? ==> forall i | 0 <= i < 6 :: r.value[i] == DigitFix(Compact(raw)[i])
    ensures r.Some? ==> forall i | 6 <= i < 8 :: r.value[i] == LetterFix(Compact(raw)[i])
  {
    if raw == "" then None
    else
      var s := Compact(raw);
      if |s| != 8 then None else Zones(s)
  }

  /** The zone checks succeed exactly when, after the fixes, the first six
      characters are digits and the last two are letters. */
  lemma ZonesIff(s: string)
    requires |s| == 8
    ensures Zones(s).Some? <==>
      (forall i | 0 <= i < 6 :: IsDigit(DigitFix(s[i]))) && IsAlpha(LetterFix(s[6])) && IsAlpha(LetterFix(s[7]))
  {
    var digits := MapFix(s[..6], DigitFix);
    var letters := MapFix(s[6..], LetterFix);
    assert forall i | 0 <= i < 6 :: digits[i] == DigitFix(s[i]);
    assert letters[0] == LetterFix(s[6]) && letters[1] == LetterFix(s[7]);
  }

  /** The full acceptance condition: non-empty input, eight compacted
      characters, six digits after the digit-zone fixes and two letters after
      the letter-zone fixes. */
  lemma NormalizeIdNumberAccepts(raw: string)
    ensures NormalizeIdNumberOf(raw).Some? <==>
      raw != "" && |Compact(raw)| == 8
      && (forall i | 0 <= i < 6 :: IsDigit(DigitFix(Compact(raw)[i])))
      && IsAlpha(LetterFix(Compact(raw)[6])) && IsAlpha(LetterFix(Compact(raw)[7]))
  {
    if raw != "" && |Compact(raw)| == 8 {
      ZonesIff(Compact(raw));
    }
  }

  /** The compacted form is already upper-cased. */
  lemma CompactNoLower(raw: string)
    ensures NoLower(Compact(raw))
  {
    FilterNoLower(UpperStr(Strip(raw)), NotSpaceChar);
  }

  lemma LetterFixNotLower(c: char)
    requires !IsLower(c)
    ensures !IsLower(LetterFix(c))
  {
  }

  /** A successful result is six digits followed by two upper-case letters. */
  lemma NormalizeIdNumberShape(raw: string)
    ensures NormalizeIdNumberOf(raw).Some? ==> IsIdNumber(NormalizeIdNumberOf(raw).value)
  {
    if NormalizeIdNumberOf(raw).Some? {
      var s := Compact(raw);
      var t := NormalizeIdNumberOf(raw).value;
      ZonesIff(s);
      CompactNoLower(raw);
      LetterFixNotLower(s[6]);
      LetterFixNotLower(s[7]);
    }
  }

  /** The loop that rewrites the list of the first six characters in place. */
  method FixDigitZone(s: string) returns (first6: string)
    requires |s| == 8
    ensures first6 == MapFix(s[..6], DigitFix)
  {
    first6 := s[..6];
    for i := 0 to 6
      invariant |first6| == 6
      invariant forall j | 0 <= j < i :: first6[j] == DigitFix(s[j])
      invariant forall j | i <= j < 6 :: first6[j] == s[j]
    {
      if first6[i] == 'O' {
        first6 := first6[i := '0'];
      } else if first6[i] == 'I' || first6[i] == 'L' || first6[i] == '|' {
        first6 := first6[i := '1'];
      }
    }
  }

  /** The loop that rewrites the list of the last two characters in place. */
  method FixLetterZone(s: string) returns (last2: string)
    requires |s| == 8
    ensures last2 == MapFix(s[6..], LetterFix)
  {
    last2 := s[6..];
    for i := 0 to 2
      invariant |last2| == 2
      invariant forall j | 0 <= j < i :: last2[j] == LetterFix(s[6 + j])
      invariant forall j | i <= j < 2 :: last2[j] == s[6 + j]
    {
      if last2[i] == '0' {
        last2 := last2[i := 'O'];
      } else if last2[i] == '1' || last2[i] == 'L' || last2[i] == '|' {
        last2 := last2[i := 'I'];
      }
    }
  }

  /** `normalize_id_number` as written, with its two fix-up loops. */
  method NormalizeIdNumber(raw: string) returns (r: Option<string>)
    ensures r == NormalizeIdNumberOf(raw)
  {
    if raw == "" {
      return None;
    }
    var s := Compact(raw);
    if |s| != 8 {
      return None;
    }
    var digits := FixDigitZone(s);
    if !IsDigits(digits) {
      return None;
    }
    var letters := FixLetterZone(s);
    if |letters| != 2 || !IsAlphas(letters) {
      return None;
    }
    r := Some(digits + letters);
  }

  lemma FixesIdempotent(c: char)
    ensures DigitFix(DigitFix(c)) == DigitFix(c)
    ensures LetterFix(LetterFix(c)) == LetterFix(c)
  {
  }

  lemma CompactOfIdNumber(t: string)
    requires IsIdNumber(t)
    ensures Compact(t) == t
  {
    assert forall i | 0 <= i < 8 :: !IsSpace(t[i]) && !IsLower(t[i]) && t[i] != ' ';
    StripUnchanged(t);
    assert UpperStr(t) == t;
    FilterAll(t, NotSpaceChar);
  }

  lemma ZonesOfFixed(t: string)
    requires IsIdNumber(t) && LetterFix(t[6]) == t[6] && LetterFix(t[7]) == t[7]
    ensures Zones(t) == Some(t)
  {
    ZonesIff(t);
    var z := Zones(t).value;
    assert forall i | 0 <= i < 6 :: DigitFix(t[i]) == t[i];
    assert forall i | 0 <= i < 8 :: z[i] == t[i];
    assert z == t;
  }

  /** A canonical number is its own canonical form. */
  lemma NormalizeIdNumberIdempotent(raw: string)
    ensures NormalizeIdNumberOf(raw).Some? ==>
      NormalizeIdNumberOf(NormalizeIdNumberOf(raw).value) == NormalizeIdNumberOf(raw)
  {
    if NormalizeIdNumberOf(raw).Some? {
      var t := NormalizeIdNumberOf(raw).value;
      var s := Compact(raw);
      NormalizeIdNumberShape(raw);
      FixesIdempotent(s[6]);
      FixesIdempotent(s[7]);
      CompactOfIdNumber(t);
      ZonesOfFixed(t);
    }
  }

  /** Case does not matter: inputs that agree once upper-cased have the same
      canonical form. */
  lemma NormalizeIdNumberCaseInsensitive(a: string, b: string)
    requires UpperStr(a) == UpperStr(b)
    ensures NormalizeIdNumberOf(a) == NormalizeIdNumberOf(b)
  {
    assert |a| == |b|;
    StripUpper(a);
    StripUpper(b);
    UpperStrIdempotent(Strip(a));
    UpperStrIdempotent(Strip(b));
    assert UpperStr(Strip(a)) == UpperStr(Strip(b)) by {
      calc {
        UpperStr(Strip(a));
        UpperStr(UpperStr(Strip(a)));
        UpperStr(Strip(UpperStr(a)));
        UpperStr(Strip(UpperStr(b)));
        UpperStr(UpperStr(Strip(b)));
        UpperStr(Strip(b));
      }
    }
  }
}
