/** The old-style ID-card front extractor and its processor. */
module IdOldFront {
  import opened Base
  import opened PyStr
  import opened Regex
  import opened Calendar
  import opened OcrText
  import opened LabelScan
  import opened Normalize
  import opened IdNumber
  import opened Fields

  /** The compiled patterns of the old ID front rules, as matchers; the
      candidate pattern through its `finditer` matches. */
  datatype Rules = Rules(
    nameLabel: Matcher,
    docnoInline: Matcher,
    idNumberCandidates: string -> seq<Hit>)

  /** Neither pattern finds anything in empty text (each needs at least a
      label word or eight characters). */
  predicate SilentOnEmpty(rules: Rules)
  {
    rules.docnoInline("").None? && rules.idNumberCandidates("") == []
  }

  /** `extract_full_name`: the next non-empty line after the first name-label
      line of the normalised lines. */
  function ExtractFullName(text: string, rules: Rules): (r: Option<string>)
  {
    NextlineValue(NormLinesOf(text), rules.nameLabel)
  }

  /** On normalised lines the name is the line right after the label line. */
  lemma FullNameIsNextLine(text: string, rules: Rules)
    ensures ExtractFullName(text, rules) ==
      LineAfter(NormLinesOf(text), FirstLabel(NormLinesOf(text), rules.nameLabel, 0))
    ensures ExtractFullName(text, rules).Some? ==> CleanLine(ExtractFullName(text, rules).value)
  {
    NextlineOfClean(NormLinesOf(text), rules.nameLabel);
  }

  /** `extract_expiry_date`: the last parsed date. */
  function ExtractExpiryDate(text: string): (r: Option<string>)
  {
    var ds := DatesIso(text);
    if |ds| > 0 then Some(ds[|ds| - 1]) else None
  }

  /** The expiry date is the latest date of the text, an ISO date, and None
      only when the text has no date. */
  lemma ExpiryIsLatest(text: string)
    ensures ExtractExpiryDate(text).None? <==> DatesIso(text) == []
    ensures ExtractExpiryDate(text).Some? ==>
      IsIsoDate(ExtractExpiryDate(text).value) &&
      forall i | 0 <= i < |DatesIso(text)| - 1 :: StrLess(DatesIso(text)[i], ExtractExpiryDate(text).value)
  {
  }

  // ---------------------------------------------------------------------
  // Document number
  // ---------------------------------------------------------------------

  /** The characters stripped from the ends of the inline token. */
  const TOKEN_PUNCT: string := ".,;:"

  /** `v.split()[0].strip(".,;:")` for a non-blank value. */
  function InlineToken(v: string): string
    requires !Blank(v)
  {
    StripChars(Words(v)[0], TOKEN_PUNCT)
  }

  /** The inline value's token, canonicalised. */
  function InlineNumber(text: string, rules: Rules): (r: Option<string>)
  {
    var v := SearchValue(text, rules.docnoInline);
    if v.None? then None else NormalizeIdNumberOf(InlineToken(v.value))
  }

  /** A candidate match's group 1, canonicalised. */
  function Canonical(): Hit -> Option<string>
  {
    (m: Hit) => NormalizeIdNumberOf(Group(m, 1).OrElse(""))
  }

  /** The first candidate match that canonicalises. */
  function ScanCandidates(ms: seq<Hit>): (r: Option<string>)
  {
    match FirstAccepted(ms, Canonical(), 0)
    case Some(i) => Canonical()(ms[i])
    case None => None
  }

  /** What `extract_document_number` returns: the canonical inline token,
      else the first canonical candidate of the whitespace-collapsed text. No
      candidate is refused for resembling a date. */
  function ExtractDocumentNumberOf(text: string, rules: Rules): (r: Option<string>)
  {
    var inline := InlineNumber(text, rules);
    if inline.Some? then inline else ScanCandidates(rules.idNumberCandidates(Collapse(text)))
  }

  /** The result is always a `normalize_id_number` output (hence canonical and
      its own canonical form); the inline token wins when it canonicalises,
      and otherwise the first canonicalising candidate wins. */
  lemma DocumentNumberSpec(text: string, rules: Rules)
    ensures var r := ExtractDocumentNumberOf(text, rules);
      r.Some? ==> IsIdNumber(r.value) && NormalizeIdNumberOf(r.value) == r
    ensures InlineNumber(text, rules).Some? ==> ExtractDocumentNumberOf(text, rules) == InlineNumber(text, rules)
    ensures var ms := rules.idNumberCandidates(Collapse(text));
      InlineNumber(text, rules).None? ==>
        (ExtractDocumentNumberOf(text, rules).None? <==>
          forall j | 0 <= j < |ms| :: NormalizeIdNumberOf(Group(ms[j], 1).OrElse("")).None?)
  {
    var ms := rules.idNumberCandidates(Collapse(text));
    var v := SearchValue(text, rules.docnoInline);
    if v.Some? {
      NormalizeIdNumberShape(InlineToken(v.value));
      NormalizeIdNumberIdempotent(InlineToken(v.value));
    }
    match FirstAccepted(ms, Canonical(), 0)
    case Some(i) =>
      NormalizeIdNumberShape(Group(ms[i], 1).OrElse(""));
      NormalizeIdNumberIdempotent(Group(ms[i], 1).OrElse(""));
    case None =>
      assert forall j | 0 <= j < |ms| :: Canonical()(ms[j]) == NormalizeIdNumberOf(Group(ms[j], 1).OrElse(""));
  }

  /** The `for m in ID_NUMBER_CANDIDATE.finditer(compact)` loop. */
  method ScanCandidateMatches(ms: seq<Hit>) returns (r: Option<string>)
    ensures r == ScanCandidates(ms)
  {
    for i := 0 to |ms|
      invariant FirstAccepted(ms, Canonical(), i) == FirstAccepted(ms, Canonical(), 0)
    {
      var norm := NormalizeIdNumber(Group(ms[i], 1).OrElse(""));
      assert Canonical()(ms[i]) == norm;
      if norm.Some? {
        return norm;
      }
    }
    return None;
  }

  /** `extract_document_number`. */
  method ExtractDocumentNumber(text: string, rules: Rules) returns (r: Option<string>)
    ensures r == ExtractDocumentNumberOf(text, rules)
  {
    var v := SearchValue(text, rules.docnoInline);
    if v.Some? {
      var token := InlineToken(v.value);
      var norm := NormalizeIdNumber(token);
      if norm.Some? {
        return norm;
      }
    }
    var compact := Collapse(text);
    r := ScanCandidateMatches(rules.idNumberCandidates(compact));
  }

  // ---------------------------------------------------------------------
  // Processor
  // ---------------------------------------------------------------------

  /** `schema.FIELDS` of the old ID front. */
  const FIELDS: seq<Key> := [DOCUMENT_NUMBER, FULL_NAME, EXPIRY_DATE]

  /** The values the three extractors find. */
  datatype Extracted = Extracted(fullName: Option<string>, expiry: Option<string>, documentNumber: Option<string>)

  /** The extractor calls of `extract_fields`. */
  function ExtractAll(text: string, rules: Rules): Extracted
  {
    Extracted(ExtractFullName(text, rules), ExtractExpiryDate(text), ExtractDocumentNumberOf(text, rules))
  }

  /** `schema.empty()` filled with the three values, projected onto FIELDS:
      every schema key is assigned, so this is the dictionary of the three. */
  function Fill(x: Extracted): (r: Record)
    ensures forall k :: k in r <==> k in FIELDS
  {
    map[FULL_NAME := x.fullName, EXPIRY_DATE := x.expiry, DOCUMENT_NUMBER := x.documentNumber]
  }

  /** Each schema key holds its own extractor's value. */
  lemma FillValues(x: Extracted)
    ensures var r := Fill(x);
      FULL_NAME in r && r[FULL_NAME] == x.fullName &&
      EXPIRY_DATE in r && r[EXPIRY_DATE] == x.expiry &&
      DOCUMENT_NUMBER in r && r[DOCUMENT_NUMBER] == x.documentNumber
  {
  }

  /** `IDOldFrontProcessor.extract_fields` on `ocr.text or ""`: exactly the
      three schema keys. */
  function OldFrontFields(text: string, rules: Rules): (r: Record)
    ensures forall k :: k in r <==> k in FIELDS
  {
    Fill(ExtractAll(text, rules))
  }

  /** The stored name is the clean line after the name label, the stored
      expiry date is None or an ISO date, and the stored number is None or
      canonical. */
  lemma OldFrontFieldsShape(text: string, rules: Rules)
    ensures var r := OldFrontFields(text, rules);
      r[FULL_NAME] == LineAfter(NormLinesOf(text), FirstLabel(NormLinesOf(text), rules.nameLabel, 0)) &&
      (r[EXPIRY_DATE].Some? ==> IsIsoDate(r[EXPIRY_DATE].value)) &&
      (r[DOCUMENT_NUMBER].Some? ==> IsIdNumber(r[DOCUMENT_NUMBER].value))
  {
    FillValues(ExtractAll(text, rules));
    FullNameIsNextLine(text, rules);
    ExpiryIsLatest(text);
    DocumentNumberSpec(text, rules);
  }

  /** Empty OCR text gives None in every field. */
  lemma OldFrontFieldsEmpty(rules: Rules)
    requires SilentOnEmpty(rules)
    ensures forall k | k in OldFrontFields("", rules) :: OldFrontFields("", rules)[k] == None
  {
    assert NormLinesOf("") == [];
    assert Collapse("") == "";
    FillValues(ExtractAll("", rules));
  }
}
