/** `documents/address_card/postprocess.py`: the canonical document number
    and the cross-field rules of the address card. Every value is first
    whitespace-normalised (empty becomes None); then the document number is
    canonicalised, a foreign permanent address clears the permanent reporting
    time, a temporary reporting time not before the validity clears both, and
    a foreign permanent address clears a birth place naming Hungary. */
module AddressCardPost {
  import opened Base
  import opened Chars
  import opened PyStr
  import opened Regex
  import opened Normalize
  import opened AddressRules
  import opened IdNumber
  import opened Fields

  // ---------------------------------------------------------------------
  // _normalize_document_number
  // ---------------------------------------------------------------------

  /** `_DIGIT_FIX`: O reads as 0; I, J, L and l as 1. */
  function DocnoDigitFix(c: char): char
  {
    if c == 'O' then '0' else if c == 'I' || c == 'J' || c == 'L' || c == 'l' then '1' else c
  }

  /** `_LETTER_FIX`: 0 reads as O and 1 as I. */
  function DocnoLetterFix(c: char): char
  {
    if c == '0' then 'O' else if c == '1' then 'I' else c
  }

  /** The candidate built from a match: each zone stripped, upper-cased and
      mended, joined by one space. */
  function DocnoCandidate(m: Hit): string
  {
    MapFix(UpperStr(Strip(Group(m, 1).OrElse(""))), DocnoDigitFix) + " " +
    MapFix(UpperStr(Strip(Group(m, 2).OrElse(""))), DocnoLetterFix)
  }

  /** `_normalize_document_number`. */
  function NormalizeDocno(raw: Option<string>): (r: Option<string>)
    ensures r.Some? ==> IsCanonDocno(r.value) && r.value[6] == ' '
  {
    var s := NormWs(raw);
    if s == "" then None
    else match DocnoValue(s)
      case None => None
      case Some(m) =>
        var cand := DocnoCandidate(m);
        if IsCanonDocno(cand) && cand[6] == ' ' then Some(cand) else None
  }

  /** A digit-zone character is not whitespace. */
  lemma DocnoDigitNotSpace(c: char)
    requires DocnoDigit(c)
    ensures !IsSpace(c)
  {
  }

  /** A digit-zone character, upper-cased and mended, is a decimal digit. */
  lemma DigitZoneMended(c: char)
    requires DocnoDigit(c)
    ensures IsDigit(DocnoDigitFix(Upper(c)))
  {
  }

  /** A letter-zone character, upper-cased and mended, is a letter A to Z. */
  lemma LetterZoneMended(c: char)
    requires DocnoLetter(c)
    ensures IsAsciiUpper(DocnoLetterFix(Upper(c)))
  {
  }

  /** Two zones of `DOCNO_VALUE` characters are mended into a canonical
      number, character by character. */
  lemma MendedZones(g1: string, g2: string)
    requires |g1| == 6 && forall i | 0 <= i < 6 :: DocnoDigit(g1[i])
    requires |g2| == 2 && DocnoLetter(g2[0]) && DocnoLetter(g2[1])
    ensures var d := MapFix(UpperStr(Strip(g1)), DocnoDigitFix); var l := MapFix(UpperStr(Strip(g2)), DocnoLetterFix);
      var c := d + " " + l;
      IsCanonDocno(c) && c[6] == ' ' &&
      (forall i | 0 <= i < 6 :: c[i] == DocnoDigitFix(Upper(g1[i]))) &&
      c[7] == DocnoLetterFix(Upper(g2[0])) && c[8] == DocnoLetterFix(Upper(g2[1]))
  {
    DocnoDigitNotSpace(g1[0]);
    DocnoDigitNotSpace(g1[5]);
    StripUnchanged(g1);
    assert !IsSpace(g2[0]) && !IsSpace(g2[1]);
    StripUnchanged(g2);
    var d := MapFix(UpperStr(g1), DocnoDigitFix);
    var l := MapFix(UpperStr(g2), DocnoLetterFix);
    forall i | 0 <= i < 6 ensures IsDigit(d[i]) && d[i] == DocnoDigitFix(Upper(g1[i])) {
      DigitZoneMended(g1[i]);
    }
    LetterZoneMended(g2[0]);
    LetterZoneMended(g2[1]);
    var c := d + " " + l;
    assert c[7] == l[0] && c[8] == l[1];
    assert forall i | 0 <= i < 6 :: c[i] == d[i];
  }

  /** The zones of a match are mended into a canonical number. */
  lemma CandidateCanonical(s: string)
    requires DocnoValue(s).Some?
    ensures var c := DocnoCandidate(DocnoValue(s).value); IsCanonDocno(c) && c[6] == ' '
    ensures var m := DocnoValue(s).value; var c := DocnoCandidate(m);
      (forall i | 0 <= i < 6 :: c[i] == DocnoDigitFix(Upper(Group(m, 1).value[i]))) &&
      c[7] == DocnoLetterFix(Upper(Group(m, 2).value[0])) && c[8] == DocnoLetterFix(Upper(Group(m, 2).value[1]))
  {
    DocnoGroups(s);
    var m := DocnoValue(s).value;
    MendedZones(Group(m, 1).value, Group(m, 2).value);
  }

  /** The strict validation never rejects a match: a number comes out
      exactly when `DOCNO_VALUE` matches the whitespace-normalised value, and
      it is that match's zones, upper-cased and mended. */
  lemma NormalizeDocnoIff(raw: Option<string>)
    ensures NormalizeDocno(raw).Some? <==> DocnoValue(NormWs(raw)).Some?
    ensures NormalizeDocno(raw).Some? ==> NormalizeDocno(raw).value == DocnoCandidate(DocnoValue(NormWs(raw)).value)
  {
    if DocnoValue(NormWs(raw)).Some? {
      CandidateCanonical(NormWs(raw));
    }
  }

  /** Upper-casing leaves a text without lower-case letters alone. */
  lemma UpperStrOfNoLower(z: string)
    requires NoLower(z)
    ensures UpperStr(z) == z
  {
    forall i | 0 <= i < |z| ensures UpperStr(z)[i] == z[i] {
    }
  }

  /** A fix that leaves every character of a zone alone leaves the zone
      alone. */
  lemma MapFixOfFixed(z: string, f: char -> char)
    requires forall i | 0 <= i < |z| :: f(z[i]) == z[i]
    ensures MapFix(z, f) == z
  {
    forall i | 0 <= i < |z| ensures MapFix(z, f)[i] == z[i] {
    }
  }

  /** The zones of a canonical number are left alone by the stripping, the
      upper-casing and the mending. */
  lemma CanonZonesFixed(g1: string, g2: string)
    requires |g1| == 6 && forall i | 0 <= i < 6 :: IsDigit(g1[i])
    requires |g2| == 2 && IsAsciiUpper(g2[0]) && IsAsciiUpper(g2[1])
    ensures MapFix(UpperStr(Strip(g1)), DocnoDigitFix) == g1
    ensures MapFix(UpperStr(Strip(g2)), DocnoLetterFix) == g2
  {
    assert Trimmed(g1) && Trimmed(g2);
    StripUnchanged(g1);
    StripUnchanged(g2);
    UpperStrOfNoLower(g1);
    UpperStrOfNoLower(g2);
    MapFixOfFixed(g1, DocnoDigitFix);
    MapFixOfFixed(g2, DocnoLetterFix);
  }

  /** A match whose zones are those of a canonical number written with one
      space gives back that number. */
  lemma CandidateOfCanon(m: Hit, t: string)
    requires IsCanonDocno(t) && t[6] == ' '
    requires Group(m, 1) == Some(t[..6]) && Group(m, 2) == Some(t[7..])
    ensures DocnoCandidate(m) == t
  {
    var g1, g2 := t[..6], t[7..];
    assert g2[0] == t[7] && g2[1] == t[8];
    CanonZonesFixed(g1, g2);
    assert t == g1 + [t[6]] + g2;
  }

  /** A canonical number written with one space is left as it is. */
  lemma NormalizeDocnoCanonical(t: string)
    requires IsCanonDocno(t) && t[6] == ' '
    ensures NormalizeDocno(Some(t)) == Some(t)
  {
    assert Collapsed(t);
    CollapsedFixpoint(t);
    CanonIsDocno(t);
    CandidateOfCanon(DocnoValue(t).value, t);
  }

  /** Normalising a normalised number changes nothing. */
  lemma NormalizeDocnoIdempotent(raw: Option<string>)
    ensures NormalizeDocno(NormalizeDocno(raw)) == NormalizeDocno(raw)
  {
    if NormalizeDocno(raw).Some? {
      NormalizeDocnoCanonical(NormalizeDocno(raw).value);
    }
  }

  // ---------------------------------------------------------------------
  // postprocess
  // ---------------------------------------------------------------------

  /** `FOREIGN_ADDRESS_VALUE.fullmatch(out.get("permanent_address") or "")`. */
  predicate Foreign(o: Record)
  {
    IsForeignAddress(Get(o, PERMANENT_ADDRESS).OrElse(""))
  }

  /** Step 3's condition: a temporary address is given, both dates are
      present and the reporting time is not before the validity. */
  predicate OrderBroken(o: Record)
  {
    var addr := Get(o, TEMPORARY_ADDRESS);
    var rpt := Get(o, TEMPORARY_REPORTING_TIME);
    var val := Get(o, TEMPORARY_VALIDITY);
    addr.Some? && addr.value != "" && rpt.Some? && val.Some? && !StrLess(rpt.value, val.value)
  }

  /** Step 4's condition: a foreign permanent address and a birth place
      naming Hungary. */
  predicate HungaryClash(o: Record)
  {
    Foreign(o) && HasHungaryWord(Get(o, BIRTH_PLACE).OrElse(""))
  }

  /** Step 2. */
  function ForeignRule(o: Record): Record
  {
    if Foreign(o) then o[PERMANENT_REPORTING_TIME := None] else o
  }

  /** Step 3. */
  function OrderRule(o: Record): Record
  {
    if OrderBroken(o) then o[TEMPORARY_REPORTING_TIME := None][TEMPORARY_VALIDITY := None] else o
  }

  /** Step 4. */
  function HungaryRule(o: Record): Record
  {
    if HungaryClash(o) then o[BIRTH_PLACE := None] else o
  }

  /** Steps 1 to 4 on the normalised fields `n`, `docno` being the canonical
      document number stored in step 1. */
  function Rules(n: Record, docno: Option<string>): Record
  {
    HungaryRule(OrderRule(ForeignRule(n[DOCUMENT_NUMBER := docno])))
  }

  /** What `postprocess` returns; the input dictionary is a value and is not
      changed. */
  function PostprocessOf(fields: Record): Record
  {
    var n := NormalizeAll(fields);
    Rules(n, NormalizeDocno(Get(n, DOCUMENT_NUMBER)))
  }

  /** `postprocess`: the normalisation loop over the keys, then the rules in
      order. */
  method Postprocess(fields: Record) returns (out: Record)
    ensures out == PostprocessOf(fields)
  {
    out := NormalizeEach(fields);
    var docno := NormalizeDocno(Get(out, DOCUMENT_NUMBER));
    out := ApplyRules(out, docno);
  }

  /** Steps 1 to 4 as successive updates of `out`. */
  method ApplyRules(n: Record, docno: Option<string>) returns (out: Record)
    ensures out == Rules(n, docno)
  {
    out := n[DOCUMENT_NUMBER := docno];
    if Foreign(out) {
      out := out[PERMANENT_REPORTING_TIME := None];
    }
    if OrderBroken(out) {
      out := out[TEMPORARY_REPORTING_TIME := None];
      out := out[TEMPORARY_VALIDITY := None];
    }
    if HungaryClash(out) {
      out := out[BIRTH_PLACE := None];
    }
  }

  /** The whitespace normalisation does not change whether the permanent
      address is the foreign marker. */
  lemma ForeignOfNormalized(fields: Record)
    ensures Foreign(NormalizeAll(fields)) <==> IsForeignAddress(Get(fields, PERMANENT_ADDRESS).OrElse(""))
  {
    var raw := Get(fields, PERMANENT_ADDRESS);
    assert Get(NormalizeAll(fields), PERMANENT_ADDRESS).OrElse("") == Collapse(raw.OrElse(""));
    ForeignAddressSpacing(raw.OrElse(""));
  }

  /** The rules never change the permanent address, so each sees the
      foreign marker of the normalised fields. */
  lemma ForeignStable(n: Record, docno: Option<string>)
    ensures Foreign(n[DOCUMENT_NUMBER := docno]) == Foreign(n)
    ensures Foreign(ForeignRule(n[DOCUMENT_NUMBER := docno])) == Foreign(n)
    ensures Foreign(OrderRule(ForeignRule(n[DOCUMENT_NUMBER := docno]))) == Foreign(n)
  {
  }

  /** The keys the rules leave: those of `n`, the document number, and the
      permanent reporting time when the address is foreign. */
  lemma RulesKeys(n: Record, docno: Option<string>)
    ensures Rules(n, docno).Keys ==
      n.Keys + {DOCUMENT_NUMBER} + (if Foreign(n) then {PERMANENT_REPORTING_TIME} else {})
  {
    ForeignStable(n, docno);
  }

  /** The output keys are the input keys and "document_number", and
      "permanent_reporting_time" when the permanent address is foreign. */
  lemma PostprocessKeys(fields: Record)
    ensures PostprocessOf(fields).Keys ==
      fields.Keys + {DOCUMENT_NUMBER} +
      (if IsForeignAddress(Get(fields, PERMANENT_ADDRESS).OrElse("")) then {PERMANENT_REPORTING_TIME} else {})
  {
    var n := NormalizeAll(fields);
    ForeignOfNormalized(fields);
    RulesKeys(n, NormalizeDocno(Get(n, DOCUMENT_NUMBER)));
  }

  /** Steps 2 to 4 keep the document number stored in step 1. */
  lemma RulesDocno(n: Record, docno: Option<string>)
    ensures DOCUMENT_NUMBER in Rules(n, docno) && Rules(n, docno)[DOCUMENT_NUMBER] == docno
  {
    var o := OrderRule(ForeignRule(n[DOCUMENT_NUMBER := docno]));
    assert DOCUMENT_NUMBER in o && o[DOCUMENT_NUMBER] == docno;
  }

  /** The stored document number is the canonical form of the normalised
      value: canonical or None. */
  lemma PostprocessDocno(fields: Record)
    ensures var out := PostprocessOf(fields);
      DOCUMENT_NUMBER in out && out[DOCUMENT_NUMBER] == NormalizeDocno(EmptyToNone(Get(fields, DOCUMENT_NUMBER)))
    ensures var out := PostprocessOf(fields);
      out[DOCUMENT_NUMBER].Some? ==> IsCanonDocno(out[DOCUMENT_NUMBER].value)
  {
    var n := NormalizeAll(fields);
    assert Get(n, DOCUMENT_NUMBER) == EmptyToNone(Get(fields, DOCUMENT_NUMBER));
    RulesDocno(n, NormalizeDocno(Get(n, DOCUMENT_NUMBER)));
  }

  /** Steps 2 to 4 on the permanent reporting time: cleared when the address
      is foreign, else kept. */
  lemma RulesReportingTime(n: Record, docno: Option<string>)
    ensures Foreign(n) ==> PERMANENT_REPORTING_TIME in Rules(n, docno) && Rules(n, docno)[PERMANENT_REPORTING_TIME] == None
    ensures !Foreign(n) ==> Get(Rules(n, docno), PERMANENT_REPORTING_TIME) == Get(n, PERMANENT_REPORTING_TIME)
  {
    ForeignStable(n, docno);
  }

  /** A foreign permanent address ("Külföldi cím" in any case, accents and
      spacing) leaves no permanent reporting time; otherwise the reporting
      time is only normalised. */
  lemma ForeignClearsReportingTime(fields: Record)
    ensures var out := PostprocessOf(fields);
      IsForeignAddress(Get(fields, PERMANENT_ADDRESS).OrElse("")) ==>
        PERMANENT_REPORTING_TIME in out && out[PERMANENT_REPORTING_TIME] == None
    ensures !IsForeignAddress(Get(fields, PERMANENT_ADDRESS).OrElse("")) ==>
      Get(PostprocessOf(fields), PERMANENT_REPORTING_TIME) == EmptyToNone(Get(fields, PERMANENT_REPORTING_TIME))
  {
    var n := NormalizeAll(fields);
    ForeignOfNormalized(fields);
    RulesReportingTime(n, NormalizeDocno(Get(n, DOCUMENT_NUMBER)));
  }

  /** Steps 2 to 4 on the temporary block: both dates cleared when the order
      is broken, else both kept. */
  lemma RulesOrder(n: Record, docno: Option<string>)
    ensures var o := Rules(n, docno);
      (OrderBroken(n) ==> Get(o, TEMPORARY_REPORTING_TIME) == None && Get(o, TEMPORARY_VALIDITY) == None) &&
      (!OrderBroken(n) ==>
        Get(o, TEMPORARY_REPORTING_TIME) == Get(n, TEMPORARY_REPORTING_TIME) &&
        Get(o, TEMPORARY_VALIDITY) == Get(n, TEMPORARY_VALIDITY))
    ensures Get(Rules(n, docno), TEMPORARY_ADDRESS) == Get(n, TEMPORARY_ADDRESS)
  {
    var o := ForeignRule(n[DOCUMENT_NUMBER := docno]);
    assert OrderBroken(o) == OrderBroken(n);
  }

  /** With a temporary address and both dates present, the two dates are
      kept when the reporting time comes first and both are cleared
      otherwise; without a temporary address or either date they are only
      normalised. */
  lemma TemporaryOrder(fields: Record)
    ensures var n := NormalizeAll(fields); var out := PostprocessOf(fields);
      (OrderBroken(n) ==> Get(out, TEMPORARY_REPORTING_TIME) == None && Get(out, TEMPORARY_VALIDITY) == None) &&
      (!OrderBroken(n) ==>
        Get(out, TEMPORARY_REPORTING_TIME) == EmptyToNone(Get(fields, TEMPORARY_REPORTING_TIME)) &&
        Get(out, TEMPORARY_VALIDITY) == EmptyToNone(Get(fields, TEMPORARY_VALIDITY)))
  {
    var n := NormalizeAll(fields);
    RulesOrder(n, NormalizeDocno(Get(n, DOCUMENT_NUMBER)));
  }

  /** After post-processing, with a temporary address given, a temporary
      reporting time and validity that are both present are in order. */
  lemma TemporaryInOrder(fields: Record)
    ensures var out := PostprocessOf(fields);
      var addr := Get(out, TEMPORARY_ADDRESS);
      var rpt := Get(out, TEMPORARY_REPORTING_TIME); var val := Get(out, TEMPORARY_VALIDITY);
      addr.Some? && addr.value != "" && rpt.Some? && val.Some? ==> StrLess(rpt.value, val.value)
  {
    var n := NormalizeAll(fields);
    RulesOrder(n, NormalizeDocno(Get(n, DOCUMENT_NUMBER)));
  }

  /** Steps 2 to 4 on the birth place: cleared on a Hungary clash, else
      kept. */
  lemma RulesBirthPlace(n: Record, docno: Option<string>)
    ensures HungaryClash(n) ==> BIRTH_PLACE in Rules(n, docno) && Rules(n, docno)[BIRTH_PLACE] == None
    ensures !HungaryClash(n) ==> Get(Rules(n, docno), BIRTH_PLACE) == Get(n, BIRTH_PLACE)
  {
    ForeignStable(n, docno);
    var o := OrderRule(ForeignRule(n[DOCUMENT_NUMBER := docno]));
    assert Get(o, BIRTH_PLACE) == Get(n, BIRTH_PLACE);
    assert HungaryClash(o) == HungaryClash(n);
  }

  /** A foreign permanent address and a normalised birth place naming
      Hungary leave no birth place; otherwise the birth place is only
      normalised. */
  lemma HungaryBirthPlace(fields: Record)
    ensures var bp := EmptyToNone(Get(fields, BIRTH_PLACE)); var out := PostprocessOf(fields);
      var clash := IsForeignAddress(Get(fields, PERMANENT_ADDRESS).OrElse("")) && HasHungaryWord(bp.OrElse(""));
      (clash ==> BIRTH_PLACE in out && out[BIRTH_PLACE] == None) &&
      (!clash ==> Get(out, BIRTH_PLACE) == bp)
  {
    var n := NormalizeAll(fields);
    ForeignOfNormalized(fields);
    assert Get(n, BIRTH_PLACE) == EmptyToNone(Get(fields, BIRTH_PLACE));
    RulesBirthPlace(n, NormalizeDocno(Get(n, DOCUMENT_NUMBER)));
  }

  /** Steps 1 to 4 change no key other than the five they name. */
  lemma RulesOthers(n: Record, docno: Option<string>, k: Key)
    requires k in n
    requires k != DOCUMENT_NUMBER && k != PERMANENT_REPORTING_TIME && k != TEMPORARY_REPORTING_TIME
    requires k != TEMPORARY_VALIDITY && k != BIRTH_PLACE
    ensures k in Rules(n, docno) && Rules(n, docno)[k] == n[k]
  {
    var o := OrderRule(ForeignRule(n[DOCUMENT_NUMBER := docno]));
    assert k in o && o[k] == n[k];
  }

  /** Every other field is only normalised. */
  lemma OthersNormalized(fields: Record, k: Key)
    requires k in fields
    requires k != DOCUMENT_NUMBER && k != PERMANENT_REPORTING_TIME && k != TEMPORARY_REPORTING_TIME
    requires k != TEMPORARY_VALIDITY && k != BIRTH_PLACE
    ensures k in PostprocessOf(fields) && PostprocessOf(fields)[k] == EmptyToNone(fields[k])
  {
    var n := NormalizeAll(fields);
    RulesOthers(n, NormalizeDocno(Get(n, DOCUMENT_NUMBER)), k);
  }
}
