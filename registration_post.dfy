/** `documents/registration/postprocess.py`: the canonical document number
    (two letters and five digits) and the canonical VIN (seventeen letters
    and digits without I, O and Q) of the registration certificate. Every
    value is first whitespace-normalised (empty becomes None); then field E
    and the document number are replaced by their canonical forms. */
module RegistrationPost {
  import opened Base
  import opened Chars
  import opened PyStr
  import opened Regex
  import opened Normalize
  import opened RegistrationRules
  import opened IdNumber
  import opened Fields

  // ---------------------------------------------------------------------
  // normalize_document_number
  // ---------------------------------------------------------------------

  /** `_DOCNO_PREFIX_FIX`: 0 reads as O and 1 as I. */
  function PrefixFix(c: char): char
  {
    if c == '0' then 'O' else if c == '1' then 'I' else c
  }

  /** `_DOCNO_DIGIT_FIX`: O reads as 0; I and J as 1. */
  function SerialFix(c: char): char
  {
    if c == 'O' then '0' else if c == 'I' || c == 'J' then '1' else c
  }

  /** The canonical registration number: two letters A to Z and five
      decimal digits. */
  predicate IsRegCanon(t: string)
  {
    |t| == 7 && IsAsciiUpper(t[0]) && IsAsciiUpper(t[1]) && forall i | 2 <= i < 7 :: IsDigit(t[i])
  }

  /** The checks `normalize_document_number` makes of the two zones: a
      prefix of two letters and a serial of five digits. */
  function DocnoChecks(prefix: string, digits: string): Option<string>
  {
    if |prefix| != 2 || !IsAlphas(prefix) then None
    else if |digits| != 5 || !IsDigits(digits) then None
    else Some(prefix + digits)
  }

  /** The two zones of a match, upper-cased and mended. */
  function Mended(g: Option<string>, fix: char -> char): string
  {
    MapFix(UpperStr(g.OrElse("")), fix)
  }

  /** `normalize_document_number`: the first `DOCUMENT_NUMBER_VALUE` match of
      the whitespace-normalised value, its zones mended, provided the
      prefix is two letters and the serial five digits. */
  function NormalizeRegDocno(raw: Option<string>): (r: Option<string>)
  {
    RegDocnoIn(NormWs(raw))
  }

  /** What `normalize_document_number` does after `norm_ws`. */
  function RegDocnoIn(s: string): Option<string>
  {
    if s == "" then None
    else match RegDocnoValue(s)
      case None => None
      case Some(m) => DocnoChecks(Mended(Group(m, 1), PrefixFix), Mended(Group(m, 2), SerialFix))
  }

  /** A prefix-zone character, upper-cased and mended, is a letter A to Z. */
  lemma PrefixMended(c: char)
    requires PrefixChar(c)
    ensures IsAsciiUpper(PrefixFix(Upper(c)))
  {
  }

  /** A serial-zone character, upper-cased and mended, is a decimal digit. */
  lemma SerialMended(c: char)
    requires SerialChar(c)
    ensures IsDigit(SerialFix(Upper(c)))
  {
  }

  /** Zones of prefix and serial characters pass the checks. */
  lemma DocnoChecksPass(g1: string, g2: string)
    requires |g1| == 2 && PrefixChar(g1[0]) && PrefixChar(g1[1])
    requires |g2| == 5 && forall i | 0 <= i < 5 :: SerialChar(g2[i])
    ensures DocnoChecks(Mended(Some(g1), PrefixFix), Mended(Some(g2), SerialFix)).Some?
    ensures var t := DocnoChecks(Mended(Some(g1), PrefixFix), Mended(Some(g2), SerialFix)).value;
      IsRegCanon(t) && t == Mended(Some(g1), PrefixFix) + Mended(Some(g2), SerialFix)
  {
    var p, d := Mended(Some(g1), PrefixFix), Mended(Some(g2), SerialFix);
    PrefixMended(g1[0]);
    PrefixMended(g1[1]);
    forall i | 0 <= i < 5 ensures IsDigit(d[i]) {
      SerialMended(g2[i]);
    }
    assert IsAlphas(p) && IsDigits(d);
    var t := p + d;
    assert forall i | 2 <= i < 7 :: t[i] == d[i - 2];
  }

  /** The strict checks never reject a match: a number comes out exactly
      when `DOCUMENT_NUMBER_VALUE` matches the whitespace-normalised value;
      it is canonical, and it is the match's prefix zone upper-cased and
      mended by 0 to O and 1 to I, followed by its serial zone upper-cased
      and mended by O to 0 and I, J to 1. */
  lemma NormalizeRegDocnoIff(raw: Option<string>)
    ensures NormalizeRegDocno(raw).Some? <==> RegDocnoValue(NormWs(raw)).Some?
    ensures NormalizeRegDocno(raw).Some? ==> IsRegCanon(NormalizeRegDocno(raw).value)
    ensures NormalizeRegDocno(raw).Some? ==>
      var s := NormWs(raw); var q := RegDocnoValue(s).value.start;
      NormalizeRegDocno(raw).value ==
        MapFix(UpperStr(s[q..q + 2]), PrefixFix) + MapFix(UpperStr(s[q + 2..q + 7]), SerialFix)
  {
    RegDocnoInIff(NormWs(raw));
  }

  /** `RegDocnoIn` on any string: `NormalizeRegDocnoIff` without the
      spacing. */
  lemma RegDocnoInIff(s: string)
    ensures RegDocnoIn(s).Some? <==> RegDocnoValue(s).Some?
    ensures RegDocnoIn(s).Some? ==> IsRegCanon(RegDocnoIn(s).value)
    ensures RegDocnoIn(s).Some? ==>
      var q := RegDocnoValue(s).value.start;
      RegDocnoIn(s).value == MapFix(UpperStr(s[q..q + 2]), PrefixFix) + MapFix(UpperStr(s[q + 2..q + 7]), SerialFix)
  {
    if RegDocnoValue(s).Some? {
      var m := RegDocnoValue(s).value;
      var q := m.start;
      RegDocnoInZones(s, m);
      DocnoChecksPass(s[q..q + 2], s[q + 2..q + 7]);
    }
  }

  /** On a match, `RegDocnoIn` checks the match's two zones, which are
      prefix and serial characters. */
  lemma RegDocnoInZones(s: string, m: Hit)
    requires RegDocnoValue(s) == Some(m)
    ensures var q := m.start; var g1, g2 := s[q..q + 2], s[q + 2..q + 7];
      RegDocnoIn(s) == DocnoChecks(Mended(Some(g1), PrefixFix), Mended(Some(g2), SerialFix)) &&
      |g1| == 2 && PrefixChar(g1[0]) && PrefixChar(g1[1]) &&
      |g2| == 5 && forall i | 0 <= i < 5 :: SerialChar(g2[i])
  {
    var q := m.start;
    var g1, g2 := s[q..q + 2], s[q + 2..q + 7];
    assert Group(m, 1) == Some(g1) && Group(m, 2) == Some(g2);
    assert RegDocnoAt(s, q);
    assert forall i | 0 <= i < 5 :: g2[i] == s[q + 2 + i];
  }

  /** A canonical number is a match on its own. */
  lemma CanonMatches(t: string)
    requires IsRegCanon(t)
    ensures RegDocnoValue(t).Some? && RegDocnoValue(t).value.start == 0
  {
    assert RegDocnoAt(t, 0);
  }

  /** Upper-casing leaves a text without lower-case letters alone. */
  lemma UpperStrOfNoLower(z: string)
    requires NoLower(z)
    ensures UpperStr(z) == z
  {
    forall i | 0 <= i < |z| ensures UpperStr(z)[i] == z[i] {
    }
  }

  /** A fix that leaves every character of a zone alone leaves the zone
      alone. */
  lemma MapFixOfFixed(z: string, f: char -> char)
    requires forall i | 0 <= i < |z| :: f(z[i]) == z[i]
    ensures MapFix(z, f) == z
  {
    forall i | 0 <= i < |z| ensures MapFix(z, f)[i] == z[i] {
    }
  }

  /** A canonical number has no whitespace, so normalising its spacing
      leaves it alone. */
  lemma CanonSpacing(t: string)
    requires IsRegCanon(t)
    ensures NormWs(Some(t)) == t
  {
    assert Collapsed(t);
    CollapsedFixpoint(t);
  }

  /** A canonical number is left as it is. */
  lemma NormalizeRegDocnoCanonical(t: string)
    requires IsRegCanon(t)
    ensures NormalizeRegDocno(Some(t)) == Some(t)
  {
    CanonSpacing(t);
    CanonMatches(t);
    var m := RegDocnoValue(t).value;
    assert Group(m, 1) == Some(t[0..2]) && Group(m, 2) == Some(t[2..7]);
    CanonZonesFixed(t);
  }

  /** The zones of a canonical number are left alone by the upper-casing
      and the mending, and pass the checks. */
  lemma CanonZonesFixed(t: string)
    requires IsRegCanon(t)
    ensures DocnoChecks(Mended(Some(t[0..2]), PrefixFix), Mended(Some(t[2..7]), SerialFix)) == Some(t)
  {
    var g1, g2 := t[0..2], t[2..7];
    assert NoLower(g1) && NoLower(g2);
    UpperStrOfNoLower(g1);
    UpperStrOfNoLower(g2);
    MapFixOfFixed(g1, PrefixFix);
    MapFixOfFixed(g2, SerialFix);
    assert IsAlphas(g1) && IsDigits(g2);
    assert g1 + g2 == t;
  }

  /** Normalising a normalised number changes nothing. */
  lemma NormalizeRegDocnoIdempotent(raw: Option<string>)
    ensures NormalizeRegDocno(NormalizeRegDocno(raw)) == NormalizeRegDocno(raw)
  {
    NormalizeRegDocnoIff(raw);
    if NormalizeRegDocno(raw).Some? {
      NormalizeRegDocnoCanonical(NormalizeRegDocno(raw).value);
    }
  }

  // ---------------------------------------------------------------------
  // normalize_vin
  // ---------------------------------------------------------------------

  /** `_VIN_FIX`: I reads as 1; O and Q as 0. */
  function VinFix(c: char): char
  {
    if c == 'I' then '1' else if c == 'O' || c == 'Q' then '0' else c
  }

  predicate NotWhitespace(c: char)
  {
    !IsSpace(c)
  }

  /** `"".join(s.split())`: the characters of `s` other than whitespace. */
  function Unspaced(s: string): (r: string)
    ensures NoSpace(r)
  {
    Filter(s, NotWhitespace)
  }

  /** `s.isalnum()`: non-empty and every character a letter or a digit. */
  predicate IsAlnums(s: string)
  {
    |s| > 0 && forall i | 0 <= i < |s| :: IsAlnum(s[i])
  }

  /** The canonical VIN: seventeen upper-case letters A to Z and digits,
      none of them I, O or Q. */
  predicate IsVinCanon(v: string)
  {
    |v| == 17 && forall i | 0 <= i < 17 ::
      (IsAsciiUpper(v[i]) || IsDigit(v[i])) && v[i] != 'I' && v[i] != 'O' && v[i] != 'Q'
  }

  /** The candidate of a match: group 1 when a group took part, else the
      whole match, with the whitespace dropped and upper-cased. */
  function VinCandidate(m: Hit): string
  {
    var g := if LastIndex(m).Some? then Group(m, 1) else Group(m, 0);
    UpperStr(Unspaced(g.OrElse("")))
  }

  /** The checks `normalize_vin` makes of a candidate: seventeen characters,
      then mended, then letters and digits only and none of I, O and Q. */
  function VinChecks(vin: string): Option<string>
  {
    if |vin| != 17 then None
    else
      var fixed := MapFix(vin, VinFix);
      if |fixed| != 17 || !IsAlnums(fixed) then None
      else if 'I' in fixed || 'O' in fixed || 'Q' in fixed then None
      else Some(fixed)
  }

  /** `normalize_vin`. */
  function NormalizeVin(raw: Option<string>): (r: Option<string>)
  {
    VinIn(NormWs(raw))
  }

  /** What `normalize_vin` does after `norm_ws`. */
  function VinIn(s: string): Option<string>
  {
    if s == "" then None
    else match VinValue(s)
      case None => None
      case Some(m) => VinChecks(VinCandidate(m))
  }

  /** The candidate of a match is its seventeen characters, upper-cased. */
  lemma VinCandidateOf(s: string, m: Hit)
    requires VinValue(s) == Some(m)
    ensures VinCandidate(m) == UpperStr(s[m.start..m.start + 17])
  {
    var w := s[m.start..m.start + 17];
    assert Group(m, 1) == Some(w);
    assert LastIndex(m).Some?;
    assert forall i | 0 <= i < |w| :: NotWhitespace(w[i]) by {
      assert forall i | 0 <= i < |w| :: w[i] == s[m.start + i];
    }
    FilterAll(w, NotWhitespace);
  }

  /** An ASCII letter or digit, upper-cased and mended, is an upper-case
      letter or digit other than I, O and Q. */
  lemma VinCharMended(c: char)
    requires IsAsciiAlnum(c)
    ensures var f := VinFix(Upper(c)); (IsAsciiUpper(f) || IsDigit(f)) && f != 'I' && f != 'O' && f != 'Q'
  {
  }

  /** Seventeen ASCII letters and digits, upper-cased, pass the checks, and
      come out mended character by character. */
  lemma VinChecksPass(w: string)
    requires |w| == 17 && forall i | 0 <= i < 17 :: IsAsciiAlnum(w[i])
    ensures VinChecks(UpperStr(w)).Some?
    ensures var v := VinChecks(UpperStr(w)).value;
      IsVinCanon(v) && forall i | 0 <= i < 17 :: v[i] == VinFix(Upper(w[i]))
  {
    var vin := UpperStr(w);
    var fixed := MapFix(vin, VinFix);
    forall i | 0 <= i < 17
      ensures fixed[i] == VinFix(Upper(w[i]))
      ensures (IsAsciiUpper(fixed[i]) || IsDigit(fixed[i])) && fixed[i] != 'I' && fixed[i] != 'O' && fixed[i] != 'Q'
    {
      VinCharMended(w[i]);
    }
    assert IsAlnums(fixed);
  }

  /** The checks never reject a match: a VIN comes out exactly when
      `VIN_VALUE` matches the whitespace-normalised value, and it is the
      match upper-cased and mended, character by character. */
  lemma NormalizeVinIff(raw: Option<string>)
    ensures NormalizeVin(raw).Some? <==> VinValue(NormWs(raw)).Some?
    ensures NormalizeVin(raw).Some? ==> IsVinCanon(NormalizeVin(raw).value)
    ensures NormalizeVin(raw).Some? ==>
      var s := NormWs(raw); var q := VinValue(s).value.start;
      forall i | 0 <= i < 17 :: NormalizeVin(raw).value[i] == VinFix(Upper(s[q + i]))
  {
    VinInIff(NormWs(raw));
  }

  /** `VinIn` on any string: `NormalizeVinIff` without the spacing. */
  lemma VinInIff(s: string)
    ensures VinIn(s).Some? <==> VinValue(s).Some?
    ensures VinIn(s).Some? ==> IsVinCanon(VinIn(s).value)
    ensures VinIn(s).Some? ==>
      var q := VinValue(s).value.start;
      forall i | 0 <= i < 17 :: VinIn(s).value[i] == VinFix(Upper(s[q + i]))
  {
    if VinValue(s).Some? {
      var m := VinValue(s).value;
      VinCandidateOf(s, m);
      var w := s[m.start..m.start + 17];
      assert forall i | 0 <= i < 17 :: w[i] == s[m.start + i];
      VinChecksPass(w);
    }
  }

  /** Mending and upper-casing leave a canonical VIN alone. */
  lemma VinChecksCanonical(v: string)
    requires IsVinCanon(v)
    ensures VinChecks(UpperStr(v)) == Some(v)
  {
    assert NoLower(v);
    UpperStrOfNoLower(v);
    MapFixOfFixed(v, VinFix);
    assert IsAlnums(v);
    assert 'I' !in v && 'O' !in v && 'Q' !in v;
  }

  /** A canonical VIN has no whitespace, so normalising its spacing leaves
      it alone. */
  lemma VinSpacing(v: string)
    requires IsVinCanon(v)
    ensures NormWs(Some(v)) == v
  {
    assert Collapsed(v);
    CollapsedFixpoint(v);
  }

  /** A canonical VIN is left as it is. */
  lemma NormalizeVinCanonical(v: string)
    requires IsVinCanon(v)
    ensures NormalizeVin(Some(v)) == Some(v)
  {
    VinSpacing(v);
    assert forall i | 0 <= i < 17 :: IsAsciiAlnum(v[i]);
    VinOfToken(v);
    assert VinIn(v) == VinChecks(VinCandidate(VinValue(v).value));
    var m := VinValue(v).value;
    VinCandidateOf(v, m);
    assert v[0..17] == v;
    VinChecksCanonical(v);
  }

  /** Normalising a normalised VIN changes nothing. */
  lemma NormalizeVinIdempotent(raw: Option<string>)
    ensures NormalizeVin(NormalizeVin(raw)) == NormalizeVin(raw)
  {
    NormalizeVinIff(raw);
    if NormalizeVin(raw).Some? {
      NormalizeVinCanonical(NormalizeVin(raw).value);
    }
  }

  /** Both normalisers start with `norm_ws`, so a value already passed
      through `empty_to_none` normalises as the raw value does. */
  lemma NormWsOfEmptyToNone(v: Option<string>)
    ensures NormWs(EmptyToNone(v)) == NormWs(v)
  {
    var s := NormWs(v);
    if s != "" {
      assert EmptyToNone(v) == Some(s);
      CollapsedFixpoint(s);
      assert NormWs(Some(s)) == Collapse(s);
    }
  }

  /** A canonical VIN or number survives `empty_to_none`. */
  lemma CanonSurvives(v: string)
    requires IsVinCanon(v) || IsRegCanon(v)
    ensures EmptyToNone(Some(v)) == Some(v)
  {
    if IsVinCanon(v) { VinSpacing(v); } else { CanonSpacing(v); }
  }

  // ---------------------------------------------------------------------
  // postprocess
  // ---------------------------------------------------------------------

  /** The updates of `postprocess` with the two canonicalisers as
      parameters: every value normalised, then E replaced by `vin` of its
      normalised value, then the document number by `docno` of its. */
  function Apply(fields: Record, vin: Option<string> -> Option<string>, docno: Option<string> -> Option<string>): Record
  {
    var n := NormalizeAll(fields);
    n[CODE_E := vin(Get(n, CODE_E))][DOCUMENT_NUMBER := docno(Get(n, DOCUMENT_NUMBER))]
  }

  /** What `postprocess` returns; the input dictionary is a value and is not
      changed. */
  function PostprocessOf(fields: Record): Record
  {
    Apply(fields, NormalizeVin, NormalizeRegDocno)
  }

  /** `postprocess`: the normalisation loop over the keys, then E, then the
      document number. */
  method Postprocess(fields: Record) returns (out: Record)
    ensures out == PostprocessOf(fields)
  {
    out := NormalizeEach(fields);
    out := out[CODE_E := NormalizeVin(Get(out, CODE_E))];
    out := out[DOCUMENT_NUMBER := NormalizeRegDocno(Get(out, DOCUMENT_NUMBER))];
  }

  /** The updates keep the input keys and add E and "document_number";
      the two replaced fields are the fixers of the normalised values, and
      every other field is only normalised. */
  lemma ApplyFields(fields: Record, vin: Option<string> -> Option<string>, docno: Option<string> -> Option<string>)
    ensures var out := Apply(fields, vin, docno);
      out.Keys == fields.Keys + {CODE_E, DOCUMENT_NUMBER} &&
      out[CODE_E] == vin(EmptyToNone(Get(fields, CODE_E))) &&
      out[DOCUMENT_NUMBER] == docno(EmptyToNone(Get(fields, DOCUMENT_NUMBER))) &&
      forall k | k in fields && k != CODE_E && k != DOCUMENT_NUMBER :: out[k] == EmptyToNone(fields[k])
  {
    var n := NormalizeAll(fields);
    assert Get(n, CODE_E) == EmptyToNone(Get(fields, CODE_E));
    assert Get(n, DOCUMENT_NUMBER) == EmptyToNone(Get(fields, DOCUMENT_NUMBER));
  }

  /** The updates leave a record alone whose values are normalised and
      whose two replaced fields the fixers leave alone. */
  lemma ApplyFixed(o: Record, vin: Option<string> -> Option<string>, docno: Option<string> -> Option<string>)
    requires forall k | k in o :: EmptyToNone(o[k]) == o[k]
    requires CODE_E in o && vin(o[CODE_E]) == o[CODE_E]
    requires DOCUMENT_NUMBER in o && docno(o[DOCUMENT_NUMBER]) == o[DOCUMENT_NUMBER]
    ensures Apply(o, vin, docno) == o
  {
    NormalizeAllFixed(o);
  }

  /** Normalising a record whose every value is already normalised changes
      nothing. */
  lemma NormalizeAllFixed(o: Record)
    requires forall k | k in o :: EmptyToNone(o[k]) == o[k]
    ensures NormalizeAll(o) == o
  {
  }

  /** The output keys are the input keys, E and "document_number". */
  lemma PostprocessKeys(fields: Record)
    ensures PostprocessOf(fields).Keys == fields.Keys + {CODE_E, DOCUMENT_NUMBER}
  {
    ApplyFields(fields, NormalizeVin, NormalizeRegDocno);
  }

  /** E holds the canonical VIN of the raw value, or None; the document
      number its canonical number, or None. */
  lemma PostprocessCanonical(fields: Record)
    ensures var out := PostprocessOf(fields);
      CODE_E in out && out[CODE_E] == NormalizeVin(Get(fields, CODE_E)) &&
      DOCUMENT_NUMBER in out && out[DOCUMENT_NUMBER] == NormalizeRegDocno(Get(fields, DOCUMENT_NUMBER))
    ensures var out := PostprocessOf(fields);
      (out[CODE_E].Some? ==> IsVinCanon(out[CODE_E].value)) &&
      (out[DOCUMENT_NUMBER].Some? ==> IsRegCanon(out[DOCUMENT_NUMBER].value))
  {
    ApplyFields(fields, NormalizeVin, NormalizeRegDocno);
    NormWsOfEmptyToNone(Get(fields, CODE_E));
    NormWsOfEmptyToNone(Get(fields, DOCUMENT_NUMBER));
    NormalizeVinIff(Get(fields, CODE_E));
    NormalizeRegDocnoIff(Get(fields, DOCUMENT_NUMBER));
  }

  /** Every other field is only whitespace-normalised. */
  lemma OthersNormalized(fields: Record, k: Key)
    requires k in fields && k != CODE_E && k != DOCUMENT_NUMBER
    ensures k in PostprocessOf(fields) && PostprocessOf(fields)[k] == EmptyToNone(fields[k])
  {
    ApplyFields(fields, NormalizeVin, NormalizeRegDocno);
  }

  /** Post-processing a post-processed record changes nothing. */
  lemma PostprocessIdempotent(fields: Record)
    ensures PostprocessOf(PostprocessOf(fields)) == PostprocessOf(fields)
  {
    var out := PostprocessOf(fields);
    PostprocessCanonical(fields);
    ApplyFields(fields, NormalizeVin, NormalizeRegDocno);
    forall k | k in out
      ensures EmptyToNone(out[k]) == out[k]
    {
      if k == CODE_E || k == DOCUMENT_NUMBER {
        if out[k].Some? { CanonSurvives(out[k].value); }
      } else {
        EmptyToNoneIdempotent(fields[k]);
      }
    }
    NormalizeVinIdempotent(Get(fields, CODE_E));
    NormalizeRegDocnoIdempotent(Get(fields, DOCUMENT_NUMBER));
    ApplyFixed(out, NormalizeVin, NormalizeRegDocno);
  }
}
