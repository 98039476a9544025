/** `documents/address_card/processor.py` and `schema.py`: the address-card
    processor runs each extractor of `AddressCard` once on the normalised
    lines and stores the results under the twelve schema keys. It does not
    call `AddressCardPost.Postprocess`. */
module AddressCardProcessor {
  import opened Base
  import opened Calendar
  import opened OcrText
  import opened LabelScan
  import opened AddressRules
  import opened AddressCard
  import opened Fields

  /** `schema.FIELDS` of the address card. */
  const FIELDS: seq<Key> :=
    [DOCUMENT_NUMBER, FULL_NAME, BIRTH_DATE, BIRTH_PLACE, MOTHERS_NAME, PERMANENT_ADDRESS,
     PERMANENT_REPORTING_TIME, TEMPORARY_ADDRESS, TEMPORARY_REPORTING_TIME, TEMPORARY_VALIDITY,
     ISSUING_AUTHORITY, ISSUE_DATE]

  /** The values the extractors find. */
  datatype Extracted = Extracted(
    documentNumber: Option<string>, fullName: Option<string>, birthPlace: Option<string>,
    birthDate: Option<string>, mothersName: Option<string>, permanentAddress: Option<string>,
    permanentReportingTime: Option<string>, temporaryAddress: Option<string>,
    temporaryReportingTime: Option<string>, temporaryValidity: Option<string>,
    authority: Option<string>, issueDate: Option<string>)

  /** The extractor calls of `extract_fields`, as the extractors are written:
      the lines are normalised once; only the document number also sees the
      raw text, for its fallback. The birth place and date come from one
      extractor, the authority and issue date from another. */
  function ExtractAll(text: string, r: Labels): Extracted
  {
    var lines := NormLinesOf(text);
    var authority := AuthorityAndIssueDate(lines, r);
    Extracted(
      ExtractDocumentNumberAsWritten(lines, text, r), ValueLine(lines, r.fullName, r),
      BirthPlaceAsWritten(lines, r), BirthDate(lines, r), ValueLine(lines, r.mothersName, r),
      ValueTwoLines(lines, r.permanentAddress, r), PermanentReportingTime(lines, r),
      ValueTwoLines(lines, r.temporaryAddress, r), TemporaryReportingTime(lines, r),
      TemporaryValidity(lines, r), authority.0, authority.1)
  }

  /** `schema.empty()` filled and projected onto FIELDS: every schema key is
      assigned. */
  function Fill(x: Extracted): (m: Record)
    ensures forall k :: k in m <==> k in FIELDS
  {
    map[DOCUMENT_NUMBER := x.documentNumber, FULL_NAME := x.fullName, BIRTH_DATE := x.birthDate,
        BIRTH_PLACE := x.birthPlace, MOTHERS_NAME := x.mothersName,
        PERMANENT_ADDRESS := x.permanentAddress, PERMANENT_REPORTING_TIME := x.permanentReportingTime,
        TEMPORARY_ADDRESS := x.temporaryAddress, TEMPORARY_REPORTING_TIME := x.temporaryReportingTime,
        TEMPORARY_VALIDITY := x.temporaryValidity, ISSUING_AUTHORITY := x.authority, ISSUE_DATE := x.issueDate]
  }

  /** The document number and the personal fields hold their extractors'
      values. */
  lemma FillPersonal(x: Extracted)
    ensures var m := Fill(x);
      DOCUMENT_NUMBER in m && m[DOCUMENT_NUMBER] == x.documentNumber
      && FULL_NAME in m && m[FULL_NAME] == x.fullName
      && BIRTH_PLACE in m && m[BIRTH_PLACE] == x.birthPlace
      && MOTHERS_NAME in m && m[MOTHERS_NAME] == x.mothersName
  {
  }

  /** The two address blocks hold their extractors' values. */
  lemma FillAddresses(x: Extracted)
    ensures var m := Fill(x);
      PERMANENT_ADDRESS in m && m[PERMANENT_ADDRESS] == x.permanentAddress
      && PERMANENT_REPORTING_TIME in m && m[PERMANENT_REPORTING_TIME] == x.permanentReportingTime
      && TEMPORARY_ADDRESS in m && m[TEMPORARY_ADDRESS] == x.temporaryAddress
      && TEMPORARY_REPORTING_TIME in m && m[TEMPORARY_REPORTING_TIME] == x.temporaryReportingTime
  {
  }

  /** The dates and the authority hold their extractors' values. */
  lemma FillDates(x: Extracted)
    ensures var m := Fill(x);
      BIRTH_DATE in m && m[BIRTH_DATE] == x.birthDate
      && TEMPORARY_VALIDITY in m && m[TEMPORARY_VALIDITY] == x.temporaryValidity
      && ISSUING_AUTHORITY in m && m[ISSUING_AUTHORITY] == x.authority
      && ISSUE_DATE in m && m[ISSUE_DATE] == x.issueDate
  {
  }

  /** `AddressCardProcessor.extract_fields` on `ocr.text or ""`: exactly the
      twelve schema keys. */
  function AddressCardFields(text: string, r: Labels): (m: Record)
    ensures forall k :: k in m <==> k in FIELDS
  {
    Fill(ExtractAll(text, r))
  }

  /** Holds when `v` is None or an ISO date. */
  ghost predicate IsoOrNone(v: Option<string>)
  {
    v.Some? ==> IsIsoDate(v.value)
  }

  /** The stored birth date, validity and issue date are each None or an
      ISO date. */
  lemma StoredDates(text: string, r: Labels)
    ensures var m := AddressCardFields(text, r);
      BIRTH_DATE in m && TEMPORARY_VALIDITY in m && ISSUE_DATE in m
      && IsoOrNone(m[BIRTH_DATE]) && IsoOrNone(m[TEMPORARY_VALIDITY]) && IsoOrNone(m[ISSUE_DATE])
  {
    FillDates(ExtractAll(text, r));
  }

  /** The stored reporting times are each None or an ISO date. */
  lemma StoredReportingTimes(text: string, r: Labels)
    ensures var m := AddressCardFields(text, r);
      PERMANENT_REPORTING_TIME in m && TEMPORARY_REPORTING_TIME in m
      && IsoOrNone(m[PERMANENT_REPORTING_TIME]) && IsoOrNone(m[TEMPORARY_REPORTING_TIME])
  {
    FillAddresses(ExtractAll(text, r));
  }

  /** The stored document number is None or six digit-zone characters, a
      space and two letter-zone characters, in upper case. */
  lemma StoredDocumentNumber(text: string, r: Labels)
    ensures var m := AddressCardFields(text, r);
      DOCUMENT_NUMBER in m && (m[DOCUMENT_NUMBER].Some? ==> IsDocnoShape(m[DOCUMENT_NUMBER].value))
  {
    FillPersonal(ExtractAll(text, r));
  }

  /** An extraction that found nothing fills every key with None. */
  lemma FillNothing(x: Extracted)
    requires x == Extracted(None, None, None, None, None, None, None, None, None, None, None, None)
    ensures forall k | k in Fill(x) :: Fill(x)[k] == None
  {
  }

  /** Empty OCR text has no lines and no fallback match, so every field is
      None. */
  lemma EmptyTextFields(r: Labels)
    ensures forall k | k in AddressCardFields("", r) :: AddressCardFields("", r)[k] == None
  {
    var lines := NormLinesOf("");
    assert lines == [];
    DocumentNumberFallbackLost(lines, "", r);
    assert ExtractAll("", r) == Extracted(None, None, None, None, None, None, None, None, None, None, None, None);
    FillNothing(ExtractAll("", r));
  }
}
