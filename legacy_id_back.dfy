/** The earlier ID-card back processor of `documents/processors/id_back.py`,
    built on the helpers of `core/utils/text.py`. */
module LegacyIdBack {
  import opened Base
  import opened Regex
  import opened Text
  import opened Fields
  import IdBack

  /** `STOP_LABELS`: the four label patterns, as the later extractor lists
      them too. */
  function Stops(rules: IdBack.Rules): (s: seq<Matcher>)
    ensures s == IdBack.Stops(rules)
  {
    [rules.birthPlaceLabel, rules.birthNameLabel, rules.mothersNameLabel, rules.originPlaceLabel]
  }

  /** The five extractor calls of `extract_fields`: the next-line reads on
      `split_lines(text)`, the birth name and the origin place guarded by the
      stop labels, the issuing authority inline on the raw text. */
  function ExtractAll(text: string, rules: IdBack.Rules): (x: IdBack.Extracted)
    ensures var lines := SplitLinesOf(text);
      x.birthPlace == ExtractNextlineValueOf(lines, rules.birthPlaceLabel) &&
      x.birthName == ExtractNextlineValueGuardedOf(lines, rules.birthNameLabel, Stops(rules)) &&
      x.mothersName == ExtractNextlineValueOf(lines, rules.mothersNameLabel) &&
      x.originPlace == ExtractNextlineValueGuardedOf(lines, rules.originPlaceLabel, Stops(rules)) &&
      x.authority == ExtractInlineValue(text, rules.issuingAuthorityInline)
  {
    var lines := SplitLinesOf(text);
    IdBack.Extracted(
      ExtractNextlineValueOf(lines, rules.birthPlaceLabel),
      ExtractNextlineValueGuardedOf(lines, rules.birthNameLabel, Stops(rules)),
      ExtractNextlineValueOf(lines, rules.mothersNameLabel),
      ExtractNextlineValueGuardedOf(lines, rules.originPlaceLabel, Stops(rules)),
      ExtractInlineValue(text, rules.issuingAuthorityInline))
  }

  /** `IDBackProcessor.extract_fields` on `ocr.text or ""`: exactly the five
      schema keys of `schemas/id_back.py`. */
  function IdBackFields(text: string, rules: IdBack.Rules): (r: Record)
    ensures forall k :: k in r <==> k in IdBack.FIELDS
  {
    IdBack.Fill(ExtractAll(text, rules))
  }

  /** The stored guarded fields are the unguarded reads unless those match a
      stop label, so they never hold one; the unguarded fields are stored as
      read. */
  lemma IdBackStoredLines(text: string, rules: IdBack.Rules)
    ensures var r := IdBackFields(text, rules); var lines := SplitLinesOf(text);
      var bn := ExtractNextlineValueOf(lines, rules.birthNameLabel);
      var op := ExtractNextlineValueOf(lines, rules.originPlaceLabel);
      r[BIRTH_PLACE] == ExtractNextlineValueOf(lines, rules.birthPlaceLabel) &&
      r[MOTHERS_NAME] == ExtractNextlineValueOf(lines, rules.mothersNameLabel) &&
      r[BIRTH_NAME] == (if bn.Some? && !AnyMatches(Stops(rules), bn.value) then bn else None) &&
      r[ORIGIN_PLACE] == (if op.Some? && !AnyMatches(Stops(rules), op.value) then op else None) &&
      (r[BIRTH_NAME].Some? ==> !AnyMatches(Stops(rules), r[BIRTH_NAME].value)) &&
      (r[ORIGIN_PLACE].Some? ==> !AnyMatches(Stops(rules), r[ORIGIN_PLACE].value))
  {
    IdBack.FillValues(ExtractAll(text, rules));
  }

  /** The stored issuing authority is the one the later extractor finds on
      the same text with the same pattern. */
  lemma IdBackAuthorityAgrees(text: string, rules: IdBack.Rules)
    ensures IdBackFields(text, rules)[ISSUING_AUTHORITY] == IdBack.IdBackFields(text, rules)[ISSUING_AUTHORITY]
  {
    IdBack.FillValues(ExtractAll(text, rules));
    IdBack.IdBackStoredAuthority(text, rules);
  }

  /** Empty OCR text gives None in every field. */
  lemma IdBackFieldsEmpty(rules: IdBack.Rules)
    requires IdBack.SilentOnEmpty(rules)
    ensures forall k | k in IdBackFields("", rules) :: IdBackFields("", rules)[k] == None
  {
    IdBack.FillValues(ExtractAll("", rules));
  }
}
