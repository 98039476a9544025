/** The earlier ID-card front processor of `documents/processors/id_front.py`,
    built on the helpers of `core/utils/text.py` and
    `core/utils/normalization.py`. */
module LegacyIdFront {
  import opened Base
  import opened Chars
  import opened PyStr
  import opened Regex
  import opened Calendar
  import opened Text
  import opened IdNumber
  import opened Fields
  import Normalization
  import IdFront

  type Rules = IdFront.Rules

  /** Lines of `split_lines` are never blank, so the next non-empty line
      after index `k` is simply line `k + 1`. */
  lemma NextOfSplitLines(lines: seq<string>, k: nat)
    requires forall i | 0 <= i < |lines| :: lines[i] != "" && Collapsed(lines[i])
    ensures NextNonEmptyOf(lines, k) == if k + 1 < |lines| then Some(lines[k + 1]) else None
  {
    if k + 1 < |lines| {
      assert !IsSpace(lines[k + 1][0]);
    }
  }

  /** `name`: the line right after the first line of `split_lines(text)`
      that the name label matches, markdown stripped; None without a label
      line or when the label line is the last one. */
  function ExtractFullName(text: string, rules: Rules): (r: Option<string>)
    ensures var ls := SplitLinesOf(text);
      r == match LabelScan.FirstLabel(ls, rules.nameLabel, 0)
        case None => None
        case Some(h) => if h.0 + 1 < |ls| then Some(StripMarkdown(ls[h.0 + 1])) else None
  {
    var ls := SplitLinesOf(text);
    match LabelScan.FirstLabel(ls, rules.nameLabel, 0)
    case None => ExtractNextlineValueOf(ls, rules.nameLabel)
    case Some(h) => NextOfSplitLines(ls, h.0); ExtractNextlineValueOf(ls, rules.nameLabel)
  }

  /** `sex`: the inline value, else the whole first token match, through
      `normalize_sex` of normalization.py. */
  function ExtractSex(text: string, rules: Rules): (r: Option<string>)
    ensures r == None || r == Some("NŐ") || r == Some("FÉRFI")
    ensures ExtractInlineValue(text, rules.sexInline).Some? ==>
      r == Normalization.NormalizeSexAsWritten(ExtractInlineValue(text, rules.sexInline).value)
    ensures ExtractInlineValue(text, rules.sexInline).None? && rules.sexToken(text).None? ==> r == None
  {
    Normalization.NormalizeSexAsWritten(IdFront.SexRaw(text, rules).OrElse(""))
  }

  /** `nationality`: when there is an inline value, its first word with
      `.,;:` stripped, upper-cased (possibly empty); otherwise group 1 of the
      first token match, upper-cased. */
  function ExtractNationality(text: string, rules: Rules): (r: Option<string>)
  {
    var v := ExtractInlineValue(text, rules.nationalityInline);
    if v.Some? then Some(UpperStr(IdFront.FirstToken(v).OrElse("")))
    else match rules.nationalityToken(text)
      case Some(m) => (match Group(m, 1) case Some(g) => Some(UpperStr(g)) case None => None)
      case None => None
  }

  /** The nationality is upper case; an inline value always decides it, even
      one that leaves an empty token, and the token match is used only when
      there is no inline value. */
  lemma NationalityOf(text: string, rules: Rules)
    ensures var r := ExtractNationality(text, rules);
      var v := ExtractInlineValue(text, rules.nationalityInline);
      (r.Some? ==> NoLower(r.value) && UpperStr(r.value) == r.value) &&
      (v.Some? ==> r.Some?) &&
      (v.Some? && IdFront.FirstToken(v).None? ==> r == Some("")) &&
      (v.None? && rules.nationalityToken(text).None? ==> r == None)
  {
    var v := ExtractInlineValue(text, rules.nationalityInline);
    if v.Some? {
      UpperStrIdempotent(IdFront.FirstToken(v).OrElse(""));
    } else if rules.nationalityToken(text).Some? && Group(rules.nationalityToken(text).value, 1).Some? {
      UpperStrIdempotent(Group(rules.nationalityToken(text).value, 1).value);
    }
  }

  /** On an inline value with a non-empty token both generations store the
      same nationality; on one whose token is empty this one stores "" where
      the later one falls back to the token match. */
  lemma NationalityGenerations(text: string, rules: Rules)
    ensures var v := ExtractInlineValue(text, rules.nationalityInline);
      (IdFront.FirstToken(v).Some? ==> ExtractNationality(text, rules) == IdFront.ExtractNationality(text, rules)) &&
      (v.Some? && IdFront.FirstToken(v).None? ==>
        ExtractNationality(text, rules) == Some("") &&
        IdFront.ExtractNationality(text, rules) ==
          (match rules.nationalityToken(text) case Some(m) => Some(UpperStr(Whole(m))) case None => None))
  {
  }

  /** The dates of the text, earliest first, then the positional policy:
      birth date first, expiry date last when there are two or more. */
  function ExtractBirthAndExpiry(text: string): (Option<string>, Option<string>)
  {
    IdFront.BirthAndExpiry(Normalization.ExtractDatesOf(text))
  }

  /** Birth and expiry are ISO dates of the text, the earliest and the latest,
      and an expiry date is only stored beside an earlier birth date. */
  lemma BirthAndExpiryOrder(text: string)
    ensures var (b, e) := ExtractBirthAndExpiry(text);
      var ds := Normalization.ExtractDatesOf(text);
      (b.None? <==> ds == []) && (e.None? <==> |ds| <= 1) &&
      (b.Some? ==> b.value == ds[0] && IsIsoDate(b.value)) &&
      (e.Some? ==> e.value == ds[|ds| - 1] && IsIsoDate(e.value)) &&
      (e.Some? ==> b.Some? && StrLess(b.value, e.value))
  {
    IdFront.BirthAndExpiryOf(Normalization.ExtractDatesOf(text));
  }

  /** The inline value's first token, canonicalised; unlike the candidate
      scan it is not checked against the dates. */
  function InlineNumber(text: string, rules: Rules): (r: Option<string>)
    ensures r.Some? ==> IsIdNumber(r.value)
    ensures r.Some? ==>
      (IdFront.FirstToken(ExtractInlineValue(text, rules.docnoInline)).Some? &&
       r == NormalizeIdNumberOf(IdFront.FirstToken(ExtractInlineValue(text, rules.docnoInline)).value))
  {
    var tok := IdFront.FirstToken(ExtractInlineValue(text, rules.docnoInline));
    if tok.None? then None
    else
      NormalizeIdNumberShape(tok.value);
      NormalizeIdNumberOf(tok.value)
  }

  /** `text.replace(" ", "")`: only the space character is removed. */
  function Compact(text: string): (r: string)
    ensures ' ' !in r && |r| <= |text|
  {
    Filter(text, NotSpaceChar)
  }

  /** What the document-number steps store: the canonical inline token, else
      the first accepted candidate of the compacted text. */
  function ExtractDocumentNumberOf(text: string, rules: Rules, birth: Option<string>, expiry: Option<string>): (r: Option<string>)
    ensures r.Some? ==> IsIdNumber(r.value)
    ensures InlineNumber(text, rules).Some? ==> r == InlineNumber(text, rules)
    ensures InlineNumber(text, rules).None? ==>
      r == IdFront.ScanCandidates(rules.idNumberCandidates(Compact(text)), birth, expiry)
  {
    var inline := InlineNumber(text, rules);
    if inline.Some? then inline
    else IdFront.ScanCandidates(rules.idNumberCandidates(Compact(text)), birth, expiry)
  }

  /** Steps 5 of `extract_fields`: the inline token, then the candidate loop. */
  method ExtractDocumentNumber(text: string, rules: Rules, birth: Option<string>, expiry: Option<string>)
    returns (r: Option<string>)
    ensures r == ExtractDocumentNumberOf(text, rules, birth, expiry)
  {
    var tok := IdFront.FirstToken(ExtractInlineValue(text, rules.docnoInline));
    if tok.Some? {
      r := NormalizeIdNumber(tok.value);
      if r.Some? {
        return r;
      }
    }
    var compact := Compact(text);
    r := IdFront.ScanCandidateMatches(rules.idNumberCandidates(compact), birth, expiry);
  }

  /** A stored number that did not come from the inline value is not derived
      from the dates; one that did may be. */
  lemma DocumentNumberPrecedence(text: string, rules: Rules, birth: Option<string>, expiry: Option<string>)
    ensures var r := ExtractDocumentNumberOf(text, rules, birth, expiry);
      var ms := rules.idNumberCandidates(Compact(text));
      (r.Some? && InlineNumber(text, rules).None? ==> !IdFront.IsDateDerived(r.value, birth, expiry)) &&
      (r.None? <==>
        (InlineNumber(text, rules).None? &&
         forall j | 0 <= j < |ms| :: IdFront.AcceptNumber(IdFront.CandidateRaw(ms[j]), birth, expiry).None?))
  {
  }

  /** `schemas/id_front.py` `FIELDS`. */
  const FIELDS: seq<Key> := [DOCUMENT_TYPE, FULL_NAME, SEX, BIRTH_DATE, EXPIRY_DATE, DOCUMENT_NUMBER, NATIONALITY]

  /** Each schema key holds its own step's value; `document_type` is None. */
  lemma FillFields(x: IdFront.Extracted)
    ensures var r := IdFront.Fill(FIELDS, x);
      r[DOCUMENT_TYPE] == None && r[FULL_NAME] == x.fullName && r[SEX] == x.sex &&
      r[BIRTH_DATE] == x.birth && r[EXPIRY_DATE] == x.expiry &&
      r[DOCUMENT_NUMBER] == x.documentNumber && r[NATIONALITY] == x.nationality
  {
    IdFront.FillValues(FIELDS, x);
    assert DOCUMENT_TYPE in FIELDS && DOCUMENT_TYPE !in IdFront.FILLED;
  }

  /** The values the steps find; the document number is computed from the
      birth and expiry dates found. */
  function ExtractAll(text: string, rules: Rules): (x: IdFront.Extracted)
    ensures (x.birth, x.expiry) == ExtractBirthAndExpiry(text)
    ensures x.documentNumber == ExtractDocumentNumberOf(text, rules, x.birth, x.expiry)
  {
    var (birth, expiry) := ExtractBirthAndExpiry(text);
    IdFront.Extracted(ExtractFullName(text, rules), ExtractSex(text, rules), ExtractNationality(text, rules),
      birth, expiry, ExtractDocumentNumberOf(text, rules, birth, expiry))
  }

  /** `IDFrontProcessor.extract_fields` on `ocr.text or ""`: the seven schema
      keys, `document_type` never assigned. */
  function IdFrontFields(text: string, rules: Rules): (r: Record)
    ensures forall k :: k in r <==> k in FIELDS
  {
    IdFront.Fill(FIELDS, ExtractAll(text, rules))
  }

  /** `document_type` is None, and the name, sex and nationality stored are
      their steps' results on the same text. */
  lemma IdFrontStoredText(text: string, rules: Rules)
    ensures var r := IdFrontFields(text, rules);
      r[DOCUMENT_TYPE] == None &&
      r[FULL_NAME] == ExtractFullName(text, rules) &&
      r[SEX] == ExtractSex(text, rules) &&
      r[NATIONALITY] == ExtractNationality(text, rules)
  {
    FillFields(ExtractAll(text, rules));
  }

  /** The stored document number is canonical, an expiry date is stored only
      after an earlier birth date, and a number not taken from the inline
      value is not derived from the stored dates. */
  lemma IdFrontFieldsConsistent(text: string, rules: Rules)
    ensures var r := IdFrontFields(text, rules);
      (r[DOCUMENT_NUMBER].Some? ==> IsIdNumber(r[DOCUMENT_NUMBER].value)) &&
      (r[DOCUMENT_NUMBER].Some? && InlineNumber(text, rules).None? ==>
        !IdFront.IsDateDerived(r[DOCUMENT_NUMBER].value, r[BIRTH_DATE], r[EXPIRY_DATE])) &&
      (r[EXPIRY_DATE].Some? ==> r[BIRTH_DATE].Some? && StrLess(r[BIRTH_DATE].value, r[EXPIRY_DATE].value))
  {
    var x := ExtractAll(text, rules);
    FillFields(x);
    BirthAndExpiryOrder(text);
    DocumentNumberPrecedence(text, rules, x.birth, x.expiry);
  }
}
