/** The current ID-card front extractor and its processor. */
module IdFront {
  import opened Base
  import opened Chars
  import opened PyStr
  import opened Regex
  import opened Calendar
  import opened OcrText
  import opened LabelScan
  import opened Normalize
  import opened IdNumber
  import opened Fields

  /** The compiled patterns of the ID front rules, as matchers. The candidate
      pattern is consumed through `finditer`: its matches, in order. */
  datatype Rules = Rules(
    nameLabel: Matcher,
    sexInline: Matcher,
    nationalityInline: Matcher,
    docnoInline: Matcher,
    idNumberCandidates: string -> seq<Hit>,
    nationalityToken: Matcher,
    sexToken: Matcher)

  /** The characters `_first_token` strips from the ends of the word. */
  const TOKEN_PUNCT: string := ".,;:"

  /** `_first_token`: the first word with `.,;:` stripped from its ends, None
      for a missing or empty value or a word made of those characters only.
      `s.split()[0]` raises on a whitespace-only value; every caller passes a
      `search_value` result, which is never one. */
  function FirstToken(s: Option<string>): (r: Option<string>)
    requires s.Some? && s.value != "" ==> !Blank(s.value)
    ensures s.None? || s.value == "" ==> r == None
    ensures r.Some? ==> r.value != "" && NoSpace(r.value)
    ensures r.Some? ==> r.value[0] !in TOKEN_PUNCT && r.value[|r.value| - 1] !in TOKEN_PUNCT
  {
    if s.None? || s.value == "" then None
    else
      var w := Words(s.value)[0];
      NoSpaceStripChars(w, TOKEN_PUNCT);
      OrNone(StripChars(w, TOKEN_PUNCT))
  }

  /** `extract_full_name`: the next non-empty line after the first name-label
      line of the normalised lines. */
  function ExtractFullName(text: string, rules: Rules): (r: Option<string>)
  {
    NextlineValue(NormLinesOf(text), rules.nameLabel)
  }

  /** On normalised lines the name is the line right after the label line. */
  lemma FullNameIsNextLine(text: string, rules: Rules)
    ensures ExtractFullName(text, rules) ==
      LineAfter(NormLinesOf(text), FirstLabel(NormLinesOf(text), rules.nameLabel, 0))
    ensures ExtractFullName(text, rules).Some? ==> CleanLine(ExtractFullName(text, rules).value)
  {
    NextlineOfClean(NormLinesOf(text), rules.nameLabel);
  }

  /** The raw sex value: the inline value, else the whole first token match. */
  function SexRaw(text: string, rules: Rules): Option<string>
  {
    var v := SearchValue(text, rules.sexInline);
    if v.Some? then v
    else match rules.sexToken(text)
      case Some(m) => Group(m, 0)
      case None => None
  }

  /** `extract_sex`: "NŐ", "FÉRFI" or None; an inline value is preferred to a
      bare token. */
  function ExtractSex(text: string, rules: Rules): (r: Option<string>)
    ensures r == None || r == Some("NŐ") || r == Some("FÉRFI")
    ensures SearchValue(text, rules.sexInline).Some? ==>
      r == NormalizeSex(SearchValue(text, rules.sexInline).value)
    ensures SearchValue(text, rules.sexInline).None? && rules.sexToken(text).None? ==> r == None
  {
    NormalizeSex(SexRaw(text, rules).OrElse(""))
  }

  /** `extract_nationality`: the upper-cased first token of the inline value,
      else the upper-cased whole first token match. */
  function ExtractNationality(text: string, rules: Rules): (r: Option<string>)
  {
    var tok := FirstToken(SearchValue(text, rules.nationalityInline));
    if tok.Some? then Some(UpperStr(tok.value))
    else match rules.nationalityToken(text)
      case Some(m) => Some(UpperStr(Whole(m)))
      case None => None
  }

  /** The nationality is always upper case; it is the inline token when
      there is one, and None only when neither pattern finds anything. */
  lemma NationalityUpper(text: string, rules: Rules)
    ensures ExtractNationality(text, rules).Some? ==>
      NoLower(ExtractNationality(text, rules).value)
      && UpperStr(ExtractNationality(text, rules).value) == ExtractNationality(text, rules).value
    ensures FirstToken(SearchValue(text, rules.nationalityInline)).Some? ==>
      ExtractNationality(text, rules) ==
        Some(UpperStr(FirstToken(SearchValue(text, rules.nationalityInline)).value))
    ensures ExtractNationality(text, rules).None? <==>
      FirstToken(SearchValue(text, rules.nationalityInline)).None? && rules.nationalityToken(text).None?
  {
    var tok := FirstToken(SearchValue(text, rules.nationalityInline));
    if tok.Some? {
      UpperStrIdempotent(tok.value);
    } else if rules.nationalityToken(text).Some? {
      UpperStrIdempotent(Whole(rules.nationalityToken(text).value));
    }
  }

  // ---------------------------------------------------------------------
  // Dates
  // ---------------------------------------------------------------------

  /** The positional policy on the parsed dates: none gives neither date,
      one gives the birth date only, more give the first and the last. */
  function BirthAndExpiry(dates: seq<string>): (Option<string>, Option<string>)
  {
    if |dates| == 0 then (None, None)
    else if |dates| == 1 then (Some(dates[0]), None)
    else (Some(dates[0]), Some(dates[|dates| - 1]))
  }

  /** `extract_birth_and_expiry_dates`. */
  function ExtractBirthAndExpiry(text: string): (Option<string>, Option<string>)
  {
    BirthAndExpiry(DatesIso(text))
  }

  /** On strictly ascending dates the policy picks the earliest as birth
      date and the latest as expiry date; an expiry date needs a birth date
      before it. */
  lemma BirthAndExpiryOf(dates: seq<string>)
    requires StrictlyAscending(dates)
    ensures var (b, e) := BirthAndExpiry(dates);
      (b.None? <==> dates == []) &&
      (e.None? <==> |dates| <= 1) &&
      (b.Some? ==> b.value == dates[0] && forall i | 0 < i < |dates| :: StrLess(b.value, dates[i])) &&
      (e.Some? ==> e.value == dates[|dates| - 1] && forall i | 0 <= i < |dates| - 1 :: StrLess(dates[i], e.value)) &&
      (e.Some? ==> b.Some? && StrLess(b.value, e.value))
  {
  }

  /** The same on the text: birth and expiry are ISO dates of the text, the
      earliest and the latest. */
  lemma BirthAndExpiryOrder(text: string)
    ensures var (b, e) := ExtractBirthAndExpiry(text);
      (b.None? <==> DatesIso(text) == []) &&
      (e.Some? ==> b.Some? && StrLess(b.value, e.value)) &&
      (b.Some? ==> IsIsoDate(b.value)) &&
      (e.Some? ==> IsIsoDate(e.value))
  {
    BirthAndExpiryOf(DatesIso(text));
  }

  // ---------------------------------------------------------------------
  // Document number
  // ---------------------------------------------------------------------

  /** `_is_date_derived`: the number's first six characters are the DDMMYY
      form of the birth or of the expiry date. */
  function IsDateDerived(normId: string, birth: Option<string>, expiry: Option<string>): bool
  {
    if normId == "" then false
    else
      var first6 := Slice(normId, 0, 6);
      var dob := DdMmYyFromIso(birth.OrElse(""));
      var doe := DdMmYyFromIso(expiry.OrElse(""));
      (dob.Some? && first6 == dob.value) || (doe.Some? && first6 == doe.value)
  }

  /** The ISO form of an optional date. */
  function IsoOpt(d: Option<Date>): Option<string>
    requires d.Some? ==> IsValid(d.value)
  {
    if d.Some? then Some(IsoOf(d.value)) else None
  }

  /** On ISO dates: a number is date-derived exactly when it starts with the
      day, month and two-digit year of the birth or of the expiry date. */
  lemma DateDerivedIff(normId: string, birth: Option<Date>, expiry: Option<Date>)
    requires birth.Some? ==> IsValid(birth.value)
    requires expiry.Some? ==> IsValid(expiry.value)
    ensures IsDateDerived(normId, IsoOpt(birth), IsoOpt(expiry)) <==>
      normId != "" &&
      ((birth.Some? && Slice(normId, 0, 6) == DdMmYy(birth.value)) ||
       (expiry.Some? && Slice(normId, 0, 6) == DdMmYy(expiry.value)))
  {
    if birth.Some? { DdMmYyOfDate(birth.value); }
    if expiry.Some? { DdMmYyOfDate(expiry.value); }
  }

  /** One candidate: its canonical form, unless it is date-derived. */
  function AcceptNumber(raw: string, birth: Option<string>, expiry: Option<string>): (r: Option<string>)
    ensures r.Some? ==> NormalizeIdNumberOf(raw) == r && !IsDateDerived(r.value, birth, expiry)
    ensures r.None? <==> NormalizeIdNumberOf(raw).None? || IsDateDerived(NormalizeIdNumberOf(raw).value, birth, expiry)
  {
    match NormalizeIdNumberOf(raw)
    case None => None
    case Some(n) => if IsDateDerived(n, birth, expiry) then None else Some(n)
  }

  /** Group 1 of a candidate match. */
  function CandidateRaw(m: Hit): string
  {
    Group(m, 1).OrElse("")
  }

  /** A candidate match read through `AcceptNumber`. */
  function Acceptor(birth: Option<string>, expiry: Option<string>): Hit -> Option<string>
  {
    (m: Hit) => AcceptNumber(CandidateRaw(m), birth, expiry)
  }

  /** What the candidate loop returns: the accepted value of the first
      accepted candidate match, None when no candidate is accepted. */
  function ScanCandidates(ms: seq<Hit>, birth: Option<string>, expiry: Option<string>): (r: Option<string>)
    ensures r.Some? ==> IsIdNumber(r.value) && !IsDateDerived(r.value, birth, expiry)
    ensures r.None? <==> forall j | 0 <= j < |ms| :: AcceptNumber(CandidateRaw(ms[j]), birth, expiry).None?
    ensures r.Some? ==> exists i | 0 <= i < |ms| ::
      r == AcceptNumber(CandidateRaw(ms[i]), birth, expiry) &&
      forall j | 0 <= j < i :: AcceptNumber(CandidateRaw(ms[j]), birth, expiry).None?
  {
    var f := Acceptor(birth, expiry);
    match FirstAccepted(ms, f, 0)
    case Some(i) =>
      assert f(ms[i]) == AcceptNumber(CandidateRaw(ms[i]), birth, expiry);
      assert forall j | 0 <= j < i :: f(ms[j]) == AcceptNumber(CandidateRaw(ms[j]), birth, expiry);
      NormalizeIdNumberShape(CandidateRaw(ms[i]));
      f(ms[i])
    case None =>
      assert forall j | 0 <= j < |ms| :: f(ms[j]) == AcceptNumber(CandidateRaw(ms[j]), birth, expiry);
      None
  }

  /** The inline value's first token, canonicalised and accepted. */
  function InlineNumber(text: string, rules: Rules, birth: Option<string>, expiry: Option<string>): (r: Option<string>)
    ensures r.Some? ==> IsIdNumber(r.value) && !IsDateDerived(r.value, birth, expiry)
  {
    var tok := FirstToken(SearchValue(text, rules.docnoInline));
    if tok.None? then None
    else
      NormalizeIdNumberShape(tok.value);
      AcceptNumber(tok.value, birth, expiry)
  }

  /** What `extract_document_number` returns: the accepted inline token, else
      the first accepted candidate of the whitespace-collapsed text. */
  function ExtractDocumentNumberOf(text: string, rules: Rules, birth: Option<string>, expiry: Option<string>): (r: Option<string>)
    ensures r.Some? ==> IsIdNumber(r.value) && !IsDateDerived(r.value, birth, expiry)
  {
    var inline := InlineNumber(text, rules, birth, expiry);
    if inline.Some? then inline
    else ScanCandidates(rules.idNumberCandidates(Collapse(text)), birth, expiry)
  }

  /** One candidate as the source checks it: canonicalise, then reject a
      date-derived number. */
  method AcceptCandidate(raw: string, birth: Option<string>, expiry: Option<string>) returns (r: Option<string>)
    ensures r == AcceptNumber(raw, birth, expiry)
  {
    var norm := NormalizeIdNumber(raw);
    if norm.None? || IsDateDerived(norm.value, birth, expiry) {
      return None;
    }
    return norm;
  }

  /** The `for m in ID_NUMBER_CANDIDATE.finditer(compact)` loop. */
  method ScanCandidateMatches(ms: seq<Hit>, birth: Option<string>, expiry: Option<string>) returns (r: Option<string>)
    ensures r == ScanCandidates(ms, birth, expiry)
  {
    ghost var f := Acceptor(birth, expiry);
    for i := 0 to |ms|
      invariant FirstAccepted(ms, f, i) == FirstAccepted(ms, f, 0)
    {
      var norm := AcceptCandidate(CandidateRaw(ms[i]), birth, expiry);
      assert f(ms[i]) == norm;
      if norm.Some? {
        return norm;
      }
    }
    return None;
  }

  /** `extract_document_number`: the inline token first, then the candidate
      loop over the whitespace-collapsed text. */
  method ExtractDocumentNumber(text: string, rules: Rules, birth: Option<string>, expiry: Option<string>)
    returns (r: Option<string>)
    ensures r == ExtractDocumentNumberOf(text, rules, birth, expiry)
  {
    var tok := FirstToken(SearchValue(text, rules.docnoInline));
    if tok.Some? {
      var norm := AcceptCandidate(tok.value, birth, expiry);
      if norm.Some? {
        return norm;
      }
    }
    var compact := Collapse(text);
    r := ScanCandidateMatches(rules.idNumberCandidates(compact), birth, expiry);
  }

  /** Precedence: an accepted inline token wins; otherwise the first accepted
      candidate wins, and the result is None only when there is neither. */
  lemma DocumentNumberPrecedence(text: string, rules: Rules, birth: Option<string>, expiry: Option<string>)
    ensures InlineNumber(text, rules, birth, expiry).Some? ==>
      ExtractDocumentNumberOf(text, rules, birth, expiry) == InlineNumber(text, rules, birth, expiry)
    ensures var ms := rules.idNumberCandidates(Collapse(text));
      ExtractDocumentNumberOf(text, rules, birth, expiry).None? <==>
        InlineNumber(text, rules, birth, expiry).None? &&
        forall j | 0 <= j < |ms| :: AcceptNumber(CandidateRaw(ms[j]), birth, expiry).None?
  {
  }

  // ---------------------------------------------------------------------
  // Processor
  // ---------------------------------------------------------------------

  /** The names of the fields the processor fills. */
  const FILLED: set<Key> := {FULL_NAME, SEX, NATIONALITY, BIRTH_DATE, EXPIRY_DATE, DOCUMENT_NUMBER}

  /** The extracted values, in the order the processor stores them. */
  datatype Extracted = Extracted(
    fullName: Option<string>, sex: Option<string>, nationality: Option<string>,
    birth: Option<string>, expiry: Option<string>, documentNumber: Option<string>)

  /** The six assignments the processor makes. */
  function Assigned(x: Extracted): (r: Record)
    ensures forall k :: k in r <==> k in FILLED
  {
    map[FULL_NAME := x.fullName, SEX := x.sex, NATIONALITY := x.nationality,
        BIRTH_DATE := x.birth, EXPIRY_DATE := x.expiry, DOCUMENT_NUMBER := x.documentNumber]
  }

  /** `schema.empty()` after the six assignments, projected onto the keys. A
      key the processor leaves alone reads None in `empty()` and in the
      projection alike, so this is the projection of the assignments. */
  function Fill(keys: seq<Key>, x: Extracted): (r: Record)
    ensures forall k :: k in r <==> k in keys
  {
    Project(Assigned(x), keys)
  }

  /** An unfilled schema key is None, and each filled schema key holds its
      own extractor's value. */
  lemma FillValues(keys: seq<Key>, x: Extracted)
    ensures var r := Fill(keys, x);
      (forall k | k in r && k !in FILLED :: r[k] == None) &&
      (FULL_NAME in r ==> r[FULL_NAME] == x.fullName) &&
      (SEX in r ==> r[SEX] == x.sex) &&
      (NATIONALITY in r ==> r[NATIONALITY] == x.nationality) &&
      (BIRTH_DATE in r ==> r[BIRTH_DATE] == x.birth) &&
      (EXPIRY_DATE in r ==> r[EXPIRY_DATE] == x.expiry) &&
      (DOCUMENT_NUMBER in r ==> r[DOCUMENT_NUMBER] == x.documentNumber)
  {
  }

  /** The values the extractors find in the text; the document number is
      computed from the birth and expiry dates found. */
  function ExtractAll(text: string, rules: Rules): (x: Extracted)
    ensures (x.birth, x.expiry) == ExtractBirthAndExpiry(text)
    ensures x.documentNumber == ExtractDocumentNumberOf(text, rules, x.birth, x.expiry)
  {
    var (birth, expiry) := ExtractBirthAndExpiry(text);
    Extracted(ExtractFullName(text, rules), ExtractSex(text, rules), ExtractNationality(text, rules),
      birth, expiry, ExtractDocumentNumberOf(text, rules, birth, expiry))
  }

  /** `IDFrontProcessor.extract_fields` on `ocr.text or ""`: every schema key
      is present. The schema file is not part of this model, so its key list
      is a parameter. */
  function IdFrontFields(text: string, rules: Rules, keys: seq<Key>): (r: Record)
    ensures forall k :: k in r <==> k in keys
  {
    Fill(keys, ExtractAll(text, rules))
  }

  /** A key the processor does not fill is None, and the stored name, sex and
      nationality are their extractors' results on the same text. */
  lemma IdFrontStoredText(text: string, rules: Rules, keys: seq<Key>)
    ensures var r := IdFrontFields(text, rules, keys);
      (forall k | k in r && k !in FILLED :: r[k] == None) &&
      (FULL_NAME in r ==> r[FULL_NAME] == ExtractFullName(text, rules)) &&
      (SEX in r ==> r[SEX] == ExtractSex(text, rules)) &&
      (NATIONALITY in r ==> r[NATIONALITY] == ExtractNationality(text, rules))
  {
    FillValues(keys, ExtractAll(text, rules));
  }

  /** The stored document number is canonical and not derived from the
      stored birth and expiry dates, and a stored expiry date comes after a
      stored birth date. */
  lemma IdFrontFieldsConsistent(text: string, rules: Rules, keys: seq<Key>)
    requires DOCUMENT_NUMBER in keys && BIRTH_DATE in keys && EXPIRY_DATE in keys
    ensures var r := IdFrontFields(text, rules, keys);
      (r[DOCUMENT_NUMBER].Some? ==>
        IsIdNumber(r[DOCUMENT_NUMBER].value) &&
        !IsDateDerived(r[DOCUMENT_NUMBER].value, r[BIRTH_DATE], r[EXPIRY_DATE])) &&
      (r[EXPIRY_DATE].Some? ==> r[BIRTH_DATE].Some? && StrLess(r[BIRTH_DATE].value, r[EXPIRY_DATE].value))
  {
    FillValues(keys, ExtractAll(text, rules));
    BirthAndExpiryOrder(text);
  }
}
