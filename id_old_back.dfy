/** The old-style ID-card back extractor and its processor. */
module IdOldBack {
  import opened Base
  import opened Chars
  import opened PyStr
  import opened Regex
  import opened Calendar
  import opened OcrText
  import opened LabelScan
  import opened Normalize
  import opened Fields

  /** The compiled patterns of the old ID back rules, as matchers: the inline
      "label: value" patterns, the bare labels, and the two always-inline
      fields. */
  datatype Rules = Rules(
    birthNameInline: Matcher, birthPlaceInline: Matcher, birthDateInline: Matcher,
    mothersNameInline: Matcher, sexInline: Matcher,
    birthNameLabel: Matcher, birthPlaceLabel: Matcher, birthDateLabel: Matcher,
    mothersNameLabel: Matcher, sexLabel: Matcher,
    nationalityInline: Matcher, issuingAuthorityInline: Matcher)

  /** `STOP_LABELS`: the five bare labels. */
  function Stops(rules: Rules): (s: seq<Matcher>)
    ensures |s| == 5
  {
    [rules.birthNameLabel, rules.birthPlaceLabel, rules.birthDateLabel, rules.mothersNameLabel, rules.sexLabel]
  }

  /** `_get_value`: the inline value when the inline pattern yields one;
      otherwise the guarded next-line read on the normalised lines, which is
      None when the label is missing, nothing follows it, or what follows is
      a stop label. */
  function GetValue(text: string, inline: Matcher, lbl: Matcher, stops: seq<Matcher>): (r: Option<string>)
  {
    var v := SearchValue(text, inline);
    if v.Some? then v
    else NextlineValueGuarded(NormLinesOf(text), lbl, stops).value
  }

  /** The inline value wins; a value is never empty; a next-line value is
      never a stop label; and None means the next-line read found nothing
      or found a stop label. */
  lemma GetValueSpec(text: string, inline: Matcher, lbl: Matcher, stops: seq<Matcher>)
    ensures var r := GetValue(text, inline, lbl, stops);
      (SearchValue(text, inline).Some? ==> r == SearchValue(text, inline)) &&
      (r.Some? ==> r.value != "")
    ensures var r := GetValue(text, inline, lbl, stops);
      SearchValue(text, inline).None? && r.Some? ==>
        !IsStopLabel(r.value, stops) && Some(r.value) == NextlineValue(NormLinesOf(text), lbl)
    ensures var r := GetValue(text, inline, lbl, stops);
      SearchValue(text, inline).None? && r.None? ==>
        NextlineValue(NormLinesOf(text), lbl).None? || IsStopLabel(NextlineValue(NormLinesOf(text), lbl).value, stops)
  {
  }

  /** `extract_birth_name`. */
  function ExtractBirthName(text: string, rules: Rules): Option<string>
  {
    GetValue(text, rules.birthNameInline, rules.birthNameLabel, Stops(rules))
  }

  /** `extract_birth_place`. */
  function ExtractBirthPlace(text: string, rules: Rules): Option<string>
  {
    GetValue(text, rules.birthPlaceInline, rules.birthPlaceLabel, Stops(rules))
  }

  /** `extract_mothers_name`. */
  function ExtractMothersName(text: string, rules: Rules): Option<string>
  {
    GetValue(text, rules.mothersNameInline, rules.mothersNameLabel, Stops(rules))
  }

  /** The located raw birth-date value. */
  function BirthDateRaw(text: string, rules: Rules): Option<string>
  {
    GetValue(text, rules.birthDateInline, rules.birthDateLabel, Stops(rules))
  }

  /** `extract_birth_date`: the first (earliest) date parsed from the located
      value. */
  function ExtractBirthDate(text: string, rules: Rules): (r: Option<string>)
  {
    var raw := BirthDateRaw(text, rules);
    if raw.None? || raw.value == "" then None
    else
      var ds := DatesIso(raw.value);
      if |ds| > 0 then Some(ds[0]) else None
  }

  /** The birth date is an ISO date earlier than every other date of the
      located value, and None exactly when no value was located or it holds
      no date. */
  lemma BirthDateEarliest(text: string, rules: Rules)
    ensures var raw := BirthDateRaw(text, rules);
      ExtractBirthDate(text, rules).None? <==> raw.None? || DatesIso(raw.value) == []
    ensures var r := ExtractBirthDate(text, rules);
      r.Some? ==>
        IsIsoDate(r.value) &&
        forall j | 1 <= j < |DatesIso(BirthDateRaw(text, rules).value)| ::
          StrLess(r.value, DatesIso(BirthDateRaw(text, rules).value)[j])
  {
  }

  /** `extract_sex`: `normalize_sex` of the located value, "" when none. */
  function ExtractSex(text: string, rules: Rules): (r: Option<string>)
    ensures r == None || r == Some("NŐ") || r == Some("FÉRFI")
    ensures GetValue(text, rules.sexInline, rules.sexLabel, Stops(rules)).None? ==> r == None
  {
    NormalizeSex(GetValue(text, rules.sexInline, rules.sexLabel, Stops(rules)).OrElse(""))
  }

  // ---------------------------------------------------------------------
  // Nationality
  // ---------------------------------------------------------------------

  /** The characters stripped from the ends of the nationality token. */
  const TOKEN_PUNCT: string := ".,;:"

  /** The text after the last '/', stripped; the whole value when it has no
      '/'. */
  function AfterLastSlash(s: string): string
  {
    if '/' in s then
      var parts := SplitOn(s, '/');
      Strip(parts[|parts| - 1])
    else s
  }

  /** The nationality steps on a located value as written:
      `s.split()[0]` raises IndexError when nothing follows the last '/'. */
  function NationalityOfValueAsWritten(raw: string): (r: Result<Option<string>>)
  {
    var ws := Words(AfterLastSlash(Strip(raw)));
    if |ws| == 0 then Raise(IndexError)
    else
      var token := StripChars(ws[0], TOKEN_PUNCT);
      Ok(if token != "" then Some(UpperStr(token)) else None)
  }

  /** `extract_nationality` as written. */
  function ExtractNationalityAsWritten(text: string, rules: Rules): (r: Result<Option<string>>)
  {
    var raw := SearchValue(text, rules.nationalityInline);
    if raw.None? then Ok(None) else NationalityOfValueAsWritten(raw.value)
  }

  /** The as-written steps fail exactly when the value has a '/' and only
      whitespace after the last one; a value without '/' never fails. */
  lemma NationalityRaises(raw: string)
    requires !Blank(raw)
    ensures NationalityOfValueAsWritten(raw).Raise? <==>
      '/' in Strip(raw) && Blank(AfterLastSlash(Strip(raw)))
  {
    StripEmptyIffBlank(raw);
    var s := Strip(raw);
    if '/' !in s {
      assert !IsSpace(s[0]);
    }
  }

  /** A value ending in '/' (say "HUN/" after the nationality label) makes
      the extractor raise. */
  lemma NationalityTrailingSlash()
    ensures NationalityOfValueAsWritten("HUN/").Raise?
  {
    var s := "HUN/";
    assert !IsSpace(s[0]) && !IsSpace(s[3]);
    StripUnchanged(s);
    assert Strip(s) == s;
    assert '/' in s by { assert s[3] == '/'; }
    assert SplitOn(s, '/') == ["HUN", ""] by {
      assert s == "HUN" + ['/'] + "";
      SplitOnConcat("HUN", "", '/');
    }
    assert Blank(AfterLastSlash(s));
    NationalityRaises(s);
  }

  /** The nationality steps with the evident intent: no token gives None. */
  function NationalityOfValue(raw: string): (r: Option<string>)
    ensures r.Some? ==> r.value != "" && NoSpace(r.value) && NoLower(r.value) && UpperStr(r.value) == r.value
  {
    var ws := Words(AfterLastSlash(Strip(raw)));
    if |ws| == 0 then None
    else
      var token := StripChars(ws[0], TOKEN_PUNCT);
      NoSpaceStripChars(ws[0], TOKEN_PUNCT);
      UpperStrIdempotent(token);
      if token != "" then Some(UpperStr(token)) else None
  }

  /** `extract_nationality`, corrected: the upper-cased first token after
      the last '/', stripped of ".,;:", or None. */
  function ExtractNationality(text: string, rules: Rules): (r: Option<string>)
    ensures SearchValue(text, rules.nationalityInline).None? ==> r == None
  {
    var raw := SearchValue(text, rules.nationalityInline);
    if raw.None? then None else NationalityOfValue(raw.value)
  }

  /** The corrected extractor agrees with the code wherever the code returns,
      and gives None where it raises. */
  lemma NationalityCorrects(text: string, rules: Rules)
    ensures ExtractNationalityAsWritten(text, rules).Ok? ==>
      ExtractNationality(text, rules) == ExtractNationalityAsWritten(text, rules).value
    ensures ExtractNationalityAsWritten(text, rules).Raise? ==> ExtractNationality(text, rules).None?
  {
  }

  // ---------------------------------------------------------------------
  // Issuing authority
  // ---------------------------------------------------------------------

  /** `s[:s.find(year)].strip()` when the year occurs in `s`, else `s`. */
  function CutBefore(s: string, year: string): (r: string)
    requires Trimmed(s)
    ensures Trimmed(r)
  {
    var idx := FindFrom(s, year, 0);
    if idx != -1 then Strip(Slice(s, 0, idx)) else s
  }

  /** A piece of `s` ending at or before `idx` has no occurrence of `sub`
      when `s` has none starting before `idx`. */
  lemma NoOccurrenceInPiece(v: string, s: string, a: nat, sub: string, idx: nat)
    requires InfixAt(v, s, a) && a + |v| <= idx && |sub| > 0
    requires forall i: nat | i < idx :: !OccursAt(s, sub, i)
    ensures forall i: nat :: !OccursAt(v, sub, i)
  {
    forall i: nat | i + |sub| <= |v| ensures !OccursAt(v, sub, i) {
      assert !OccursAt(s, sub, a + i);
      assert exists k | 0 <= k < |sub| :: s[a + i + k] != sub[k];
    }
  }

  /** The cut leaves a piece of the text before the first occurrence of the
      year, so a non-empty year no longer occurs in it. */
  lemma CutBeforeNoYear(s: string, year: string)
    requires Trimmed(s) && |year| > 0 && FindFrom(s, year, 0) != -1
    ensures forall i: nat :: !OccursAt(CutBefore(s, year), year, i)
  {
    var idx := FindFrom(s, year, 0);
    var pre := Slice(s, 0, idx);
    assert pre == s[..idx];
    StripInfix(pre);
    var a := |pre| - |LStrip(pre)|;
    InfixTrans(Strip(pre), pre, s, a, 0);
    NoOccurrenceInPiece(Strip(pre), s, a, year, idx);
  }

  /** `extract_issuing_authority` on a located value: when the value holds a
      date, everything from the first occurrence of that date's year on is
      cut off; an empty rest is None. */
  function AuthorityOfValue(raw: string): (r: Option<string>)
    ensures r.Some? ==> r.value != "" && Trimmed(r.value)
  {
    var s := Strip(raw);
    var dates := DatesIso(s);
    OrNone(if |dates| > 0 then CutBefore(s, Slice(dates[0], 0, 4)) else s)
  }

  /** `extract_issuing_authority`. */
  function ExtractIssuingAuthority(text: string, rules: Rules): (r: Option<string>)
    ensures SearchValue(text, rules.issuingAuthorityInline).None? ==> r == None
  {
    var raw := SearchValue(text, rules.issuingAuthorityInline);
    if raw.None? then None else AuthorityOfValue(raw.value)
  }

  /** A value without a date is kept whole; otherwise, when the year of its
      earliest date occurs in it, the result is a piece of the text before
      that occurrence, so the year no longer occurs in it. */
  lemma AuthorityCut(raw: string)
    ensures DatesIso(Strip(raw)) == [] ==> AuthorityOfValue(raw) == OrNone(Strip(raw))
    ensures var s := Strip(raw); var dates := DatesIso(s);
      |dates| > 0 && FindFrom(s, Slice(dates[0], 0, 4), 0) != -1 && AuthorityOfValue(raw).Some? ==>
        forall i: nat :: !OccursAt(AuthorityOfValue(raw).value, Slice(dates[0], 0, 4), i)
  {
    var s := Strip(raw);
    var dates := DatesIso(s);
    if |dates| > 0 && FindFrom(s, Slice(dates[0], 0, 4), 0) != -1 {
      var d :| IsValid(d) && IsoOf(d) == dates[0];
      CutBeforeNoYear(s, Slice(dates[0], 0, 4));
    }
  }

  // ---------------------------------------------------------------------
  // Processor
  // ---------------------------------------------------------------------

  /** `schema.FIELDS` of the old ID back. */
  const FIELDS: seq<Key> := [BIRTH_NAME, BIRTH_PLACE, BIRTH_DATE, SEX, NATIONALITY, MOTHERS_NAME, ISSUING_AUTHORITY]

  /** The values the extractors find, one per schema key. */
  datatype Extracted = Extracted(
    birthName: Option<string>, birthPlace: Option<string>, birthDate: Option<string>,
    sex: Option<string>, nationality: Option<string>, mothersName: Option<string>,
    authority: Option<string>)

  /** The extractor calls of `extract_fields`, all on the same text; the
      nationality, which the as-written extractor may fail to produce, is the
      value it returned. */
  function ExtractAll(text: string, rules: Rules, nationality: Option<string>): Extracted
  {
    Extracted(ExtractBirthName(text, rules), ExtractBirthPlace(text, rules), ExtractBirthDate(text, rules),
      ExtractSex(text, rules), nationality, ExtractMothersName(text, rules),
      ExtractIssuingAuthority(text, rules))
  }

  /** `schema.empty()` after the seven assignments, projected onto FIELDS.
      Every schema key is assigned, so this is the dictionary of the seven
      values. */
  function Fill(x: Extracted): (r: Record)
    ensures forall k :: k in r <==> k in FIELDS
  {
    map[BIRTH_NAME := x.birthName, BIRTH_PLACE := x.birthPlace, BIRTH_DATE := x.birthDate, SEX := x.sex,
        NATIONALITY := x.nationality, MOTHERS_NAME := x.mothersName, ISSUING_AUTHORITY := x.authority]
  }

  /** Each schema key holds its own extractor's value. */
  lemma FillValues(x: Extracted)
    ensures var r := Fill(x);
      BIRTH_NAME in r && r[BIRTH_NAME] == x.birthName &&
      BIRTH_PLACE in r && r[BIRTH_PLACE] == x.birthPlace &&
      BIRTH_DATE in r && r[BIRTH_DATE] == x.birthDate &&
      SEX in r && r[SEX] == x.sex &&
      NATIONALITY in r && r[NATIONALITY] == x.nationality &&
      MOTHERS_NAME in r && r[MOTHERS_NAME] == x.mothersName &&
      ISSUING_AUTHORITY in r && r[ISSUING_AUTHORITY] == x.authority
  {
  }

  /** `IDOldBackProcessor.extract_fields` on `ocr.text or ""`: the
      IndexError of the nationality extractor propagates; otherwise exactly
      the seven schema keys. */
  function OldBackFields(text: string, rules: Rules): (r: Result<Record>)
    ensures r.Raise? <==> ExtractNationalityAsWritten(text, rules).Raise?
    ensures r.Raise? ==> r.error == IndexError
    ensures r.Ok? ==> forall k :: k in r.value <==> k in FIELDS
  {
    match ExtractNationalityAsWritten(text, rules)
    case Raise(e) => Raise(e)
    case Ok(n) => Ok(Fill(ExtractAll(text, rules, n)))
  }

  /** The processor fails exactly when the nationality value has a '/' with
      only whitespace after the last one. */
  lemma OldBackRaises(text: string, rules: Rules)
    ensures OldBackFields(text, rules).Raise? <==>
      SearchValue(text, rules.nationalityInline).Some? &&
      '/' in Strip(SearchValue(text, rules.nationalityInline).value) &&
      Blank(AfterLastSlash(Strip(SearchValue(text, rules.nationalityInline).value)))
  {
    var raw := SearchValue(text, rules.nationalityInline);
    if raw.Some? {
      NationalityRaises(raw.value);
    }
  }

  /** The stored birth date is the extractor's, hence None or an ISO date. */
  lemma StoredBirthDate(text: string, rules: Rules)
    ensures var r := OldBackFields(text, rules);
      r.Ok? ==> (r.value[BIRTH_DATE] == ExtractBirthDate(text, rules) &&
                 (r.value[BIRTH_DATE].Some? ==> IsIsoDate(r.value[BIRTH_DATE].value)))
  {
    var n := ExtractNationalityAsWritten(text, rules);
    if n.Ok? {
      FillValues(ExtractAll(text, rules, n.value));
      BirthDateEarliest(text, rules);
    }
  }

  /** The stored sex is the extractor's, hence one of the two canonical
      words or None. */
  lemma StoredSex(text: string, rules: Rules)
    ensures var r := OldBackFields(text, rules);
      r.Ok? ==> (r.value[SEX] == ExtractSex(text, rules) &&
                 (r.value[SEX] == None || r.value[SEX] == Some("NŐ") || r.value[SEX] == Some("FÉRFI")))
  {
    var n := ExtractNationalityAsWritten(text, rules);
    if n.Ok? {
      FillValues(ExtractAll(text, rules, n.value));
    }
  }

  /** When the processor returns, the stored nationality is what the
      corrected extractor gives, hence upper case. */
  lemma StoredNationality(text: string, rules: Rules)
    ensures var r := OldBackFields(text, rules);
      r.Ok? ==> (r.value[NATIONALITY] == ExtractNationality(text, rules) &&
                 (r.value[NATIONALITY].Some? ==> NoLower(r.value[NATIONALITY].value)))
  {
    var n := ExtractNationalityAsWritten(text, rules);
    if n.Ok? {
      FillValues(ExtractAll(text, rules, n.value));
      NationalityCorrects(text, rules);
    }
  }
}
