/** The ID-card back extractor and its processor. */
module IdBack {
  import opened Base
  import opened PyStr
  import opened Regex
  import opened OcrText
  import opened LabelScan
  import opened Fields

  /** The compiled patterns of the ID back rules, as matchers. */
  datatype Rules = Rules(
    birthPlaceLabel: Matcher,
    birthNameLabel: Matcher,
    mothersNameLabel: Matcher,
    originPlaceLabel: Matcher,
    issuingAuthorityInline: Matcher)

  /** `STOP_LABELS`: the four label patterns. */
  function Stops(rules: Rules): (s: seq<Matcher>)
    ensures |s| == 4
  {
    [rules.birthPlaceLabel, rules.birthNameLabel, rules.mothersNameLabel, rules.originPlaceLabel]
  }

  /** `extract_birth_place`: the next non-empty line after the label line. */
  function ExtractBirthPlace(lines: seq<string>, rules: Rules): (r: Option<string>)
  {
    NextlineValue(lines, rules.birthPlaceLabel)
  }

  /** `extract_birth_name`: the guarded next-line read. */
  function ExtractBirthName(lines: seq<string>, rules: Rules): (r: Option<string>)
  {
    NextlineValueGuarded(lines, rules.birthNameLabel, Stops(rules)).value
  }

  /** `extract_mothers_name`. */
  function ExtractMothersName(lines: seq<string>, rules: Rules): (r: Option<string>)
  {
    NextlineValue(lines, rules.mothersNameLabel)
  }

  /** `extract_origin_place`: the guarded next-line read. */
  function ExtractOriginPlace(lines: seq<string>, rules: Rules): (r: Option<string>)
  {
    NextlineValueGuarded(lines, rules.originPlaceLabel, Stops(rules)).value
  }

  /** `extract_issuing_authority`: the inline value searched in the raw text. */
  function ExtractIssuingAuthority(text: string, rules: Rules): (r: Option<string>)
  {
    SearchValue(text, rules.issuingAuthorityInline)
  }

  /** On normalised lines the unguarded reads take the line right after the
      label line, whatever it holds (a label line included). */
  lemma UnguardedIsNextLine(text: string, rules: Rules)
    ensures var lines := NormLinesOf(text);
      ExtractBirthPlace(lines, rules) == LineAfter(lines, FirstLabel(lines, rules.birthPlaceLabel, 0)) &&
      ExtractMothersName(lines, rules) == LineAfter(lines, FirstLabel(lines, rules.mothersNameLabel, 0))
  {
    NextlineOfClean(NormLinesOf(text), rules.birthPlaceLabel);
    NextlineOfClean(NormLinesOf(text), rules.mothersNameLabel);
  }

  /** A guarded read is the unguarded read unless that is missing or matches
      a stop label, in which case it is None; so it never matches a stop
      label. */
  lemma GuardedReads(lines: seq<string>, rules: Rules)
    ensures var v := ExtractBirthName(lines, rules);
      var u := NextlineValue(lines, rules.birthNameLabel);
      (v.Some? ==> !IsStopLabel(v.value, Stops(rules))) &&
      (v == if u.Some? && !IsStopLabel(u.value, Stops(rules)) then u else None)
    ensures var v := ExtractOriginPlace(lines, rules);
      var u := NextlineValue(lines, rules.originPlaceLabel);
      (v.Some? ==> !IsStopLabel(v.value, Stops(rules))) &&
      (v == if u.Some? && !IsStopLabel(u.value, Stops(rules)) then u else None)
  {
  }

  // ---------------------------------------------------------------------
  // Processor
  // ---------------------------------------------------------------------

  /** `schema.FIELDS` of the ID back. */
  const FIELDS: seq<Key> := [BIRTH_PLACE, BIRTH_NAME, MOTHERS_NAME, ORIGIN_PLACE, ISSUING_AUTHORITY]

  /** The pattern that searches the raw text finds nothing in empty text. */
  predicate SilentOnEmpty(rules: Rules)
  {
    rules.issuingAuthorityInline("").None?
  }

  /** The values the extractors find, one per schema key. */
  datatype Extracted = Extracted(
    birthPlace: Option<string>, birthName: Option<string>, mothersName: Option<string>,
    originPlace: Option<string>, authority: Option<string>)

  /** The extractor calls of `extract_fields`: the line-based ones on
      `norm_lines(text)`, the issuing authority on the raw text. */
  function ExtractAll(text: string, rules: Rules): Extracted
  {
    var lines := NormLinesOf(text);
    Extracted(ExtractBirthPlace(lines, rules), ExtractBirthName(lines, rules), ExtractMothersName(lines, rules),
      ExtractOriginPlace(lines, rules), ExtractIssuingAuthority(text, rules))
  }

  /** `schema.empty()` after the five assignments, projected onto FIELDS.
      Every schema key is assigned, so this is the dictionary of the five
      values. */
  function Fill(x: Extracted): (r: Record)
    ensures forall k :: k in r <==> k in FIELDS
  {
    map[BIRTH_PLACE := x.birthPlace, BIRTH_NAME := x.birthName, MOTHERS_NAME := x.mothersName,
        ORIGIN_PLACE := x.originPlace, ISSUING_AUTHORITY := x.authority]
  }

  /** Each schema key holds its own extractor's value. */
  lemma FillValues(x: Extracted)
    ensures var r := Fill(x);
      BIRTH_PLACE in r && r[BIRTH_PLACE] == x.birthPlace &&
      BIRTH_NAME in r && r[BIRTH_NAME] == x.birthName &&
      MOTHERS_NAME in r && r[MOTHERS_NAME] == x.mothersName &&
      ORIGIN_PLACE in r && r[ORIGIN_PLACE] == x.originPlace &&
      ISSUING_AUTHORITY in r && r[ISSUING_AUTHORITY] == x.authority
  {
  }

  /** `IDBackProcessor.extract_fields` on `ocr.text or ""`: exactly the five
      schema keys. */
  function IdBackFields(text: string, rules: Rules): (r: Record)
    ensures forall k :: k in r <==> k in FIELDS
  {
    Fill(ExtractAll(text, rules))
  }

  /** The stored guarded fields never hold a stop label, and the stored
      unguarded fields are the lines right after their labels. */
  lemma IdBackStoredLines(text: string, rules: Rules)
    ensures var r := IdBackFields(text, rules); var lines := NormLinesOf(text);
      (r[BIRTH_NAME].Some? ==> !IsStopLabel(r[BIRTH_NAME].value, Stops(rules))) &&
      (r[ORIGIN_PLACE].Some? ==> !IsStopLabel(r[ORIGIN_PLACE].value, Stops(rules))) &&
      r[BIRTH_PLACE] == LineAfter(lines, FirstLabel(lines, rules.birthPlaceLabel, 0)) &&
      r[MOTHERS_NAME] == LineAfter(lines, FirstLabel(lines, rules.mothersNameLabel, 0))
  {
    FillValues(ExtractAll(text, rules));
    GuardedReads(NormLinesOf(text), rules);
    UnguardedIsNextLine(text, rules);
  }

  /** The stored issuing authority is the inline value of the raw text. */
  lemma IdBackStoredAuthority(text: string, rules: Rules)
    ensures IdBackFields(text, rules)[ISSUING_AUTHORITY] == SearchValue(text, rules.issuingAuthorityInline)
  {
    FillValues(ExtractAll(text, rules));
  }

  /** Empty OCR text gives None in every field. */
  lemma IdBackFieldsEmpty(rules: Rules)
    requires SilentOnEmpty(rules)
    ensures forall k | k in IdBackFields("", rules) :: IdBackFields("", rules)[k] == None
  {
    assert NormLinesOf("") == [];
    FillValues(ExtractAll("", rules));
  }
}
