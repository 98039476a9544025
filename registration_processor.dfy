/** `documents/registration/processor.py` and `schema.py`: the
    registration processor runs the document-number extractor and the
    extractor of each of the 24 coded and textual fields on the raw text,
    post-processes the dictionary and projects it onto the 25 schema keys. */
module RegistrationProcessor {
  import opened Base
  import opened Chars
  import opened PyStr
  import opened Calendar
  import opened Normalize
  import opened RegistrationRules
  import opened Registration
  import opened RegistrationTowing
  import opened RegistrationPost
  import opened Fields

  /** `schema.FIELDS` of the registration certificate, in its order. */
  const FIELDS: seq<Key> :=
    [DOCUMENT_NUMBER, CODE_A, CODE_B, CODE_D_1, CODE_D_2, CODE_D_3, CODE_E, CODE_F_1, CODE_G,
     CODE_H, CODE_I, CODE_J, CODE_K, CODE_O, CODE_P_1, CODE_P_2, CODE_P_3, CODE_P_5, CODE_Q,
     MANUFACTURE_YEAR, GEARBOX_TYPE, CODE_R, CODE_S_1, CODE_S_2, CODE_V_9]

  /** The values the extractors find. */
  datatype Extracted = Extracted(
    documentNumber: Option<string>, a: Option<string>, b: Option<string>,
    d1: Option<string>, d2: Option<string>, d3: Option<string>, e: Option<string>,
    f1: Option<string>, g: Option<string>, h: Option<string>, i: Option<string>,
    j: Option<string>, k: Option<string>, o: Option<string>, p1: Option<string>,
    p2: Option<string>, p3: Option<string>, p5: Option<string>, q: Option<string>,
    r: Option<string>, s1: Option<string>, s2: Option<string>, v9: Option<string>,
    manufactureYear: Option<string>, gearboxType: Option<string>)

  /** The extractor calls of `extract_fields`, each on the raw text. */
  function ExtractAll(text: string, lb: Labels): Extracted
  {
    Gather(text, lb, DocumentNumberOf(text), ExtractOOf(text, lb))
  }

  /** The values of `extract_fields` given the results of its two
      loop-based extractors, the document number and the towing summary. */
  function Gather(text: string, lb: Labels, docno: Option<string>, o: Option<string>): Extracted
  {
    Extracted(
      docno, ExtractAAsWritten(text, lb), ExtractB(text, lb),
      PlainField(text, lb, lb.D1), PlainField(text, lb, lb.D2), PlainField(text, lb, lb.D3),
      ExtractE(text, lb), WeightField(text, lb, lb.F1), WeightField(text, lb, lb.G),
      PlainField(text, lb, lb.H), ExtractI(text, lb), ExtractJ(text, lb),
      PlainField(text, lb, lb.K), o, ExtractP1(text, lb),
      ExtractP2(text, lb), ExtractP3(text, lb), PlainField(text, lb, lb.P5), ExtractQ(text, lb),
      PlainField(text, lb, lb.R), SeatField(text, lb, lb.S1), SeatField(text, lb, lb.S2),
      SmallNumberField(text, lb, lb.V9), ExtractManufactureYear(text, lb),
      SmallNumberField(text, lb, lb.GearboxType))
  }

  /** The value `extract_fields` assigns to schema key `k`. */
  function FieldOf(x: Extracted, k: Key): Option<string>
  {
    if k == DOCUMENT_NUMBER then x.documentNumber
    else if k == CODE_A then x.a
    else if k == CODE_B then x.b
    else if k == CODE_D_1 then x.d1
    else if k == CODE_D_2 then x.d2
    else if k == CODE_D_3 then x.d3
    else if k == CODE_E then x.e
    else if k == CODE_F_1 then x.f1
    else if k == CODE_G then x.g
    else if k == CODE_H then x.h
    else if k == CODE_I then x.i
    else if k == CODE_J then x.j
    else if k == CODE_K then x.k
    else if k == CODE_O then x.o
    else if k == CODE_P_1 then x.p1
    else if k == CODE_P_2 then x.p2
    else if k == CODE_P_3 then x.p3
    else if k == CODE_P_5 then x.p5
    else if k == CODE_Q then x.q
    else if k == CODE_R then x.r
    else if k == CODE_S_1 then x.s1
    else if k == CODE_S_2 then x.s2
    else if k == CODE_V_9 then x.v9
    else if k == MANUFACTURE_YEAR then x.manufactureYear
    else if k == GEARBOX_TYPE then x.gearboxType
    else None
  }

  /** `schema.empty()` with every schema key then assigned its extractor's
      value. */
  function Fill(x: Extracted): Record
  {
    map k | k in FIELDS :: FieldOf(x, k)
  }

  /** The dictionary `extract_fields` returns for extractor values `x`:
      filled, post-processed, then projected onto the schema. */
  function Assemble(x: Extracted): (m: Record)
    ensures forall k :: k in m <==> k in FIELDS
  {
    Project(PostprocessOf(Fill(x)), FIELDS)
  }

  /** What `extract_fields` returns on `ocr.text or ""`. */
  function RegistrationFields(text: string, lb: Labels): Record
  {
    Assemble(ExtractAll(text, lb))
  }

  /** The tail of `extract_fields` once the extractors have run. */
  method Finish(x: Extracted) returns (fields: Record)
    ensures fields == Assemble(x)
  {
    fields := Fill(x);
    fields := Postprocess(fields);
    fields := Project(fields, FIELDS);
  }

  /** `extract_fields`: the two loop-based extractors run as methods, the
      remaining ones as functions; the dictionary is then filled,
      post-processed and projected. */
  method ExtractFields(text: string, lb: Labels) returns (fields: Record)
    ensures fields == RegistrationFields(text, lb)
  {
    var docno := ExtractDocumentNumber(text);
    var o := ExtractO(text, lb);
    fields := Finish(Gather(text, lb, docno, o));
  }

  /** Each stored value is the post-processed filled value. */
  lemma FillIs(x: Extracted, k: Key)
    requires k in FIELDS
    ensures Get(Fill(x), k) == FieldOf(x, k)
  {
  }

  /** The schema keys stored after post-processing a record `f`. */
  lemma ProjectedCanonical(f: Record)
    ensures var m := Project(PostprocessOf(f), FIELDS);
      CODE_E in m && m[CODE_E] == NormalizeVin(Get(f, CODE_E)) &&
      DOCUMENT_NUMBER in m && m[DOCUMENT_NUMBER] == NormalizeRegDocno(Get(f, DOCUMENT_NUMBER))
    ensures var m := Project(PostprocessOf(f), FIELDS);
      (m[CODE_E].Some? ==> IsVinCanon(m[CODE_E].value)) &&
      (m[DOCUMENT_NUMBER].Some? ==> IsRegCanon(m[DOCUMENT_NUMBER].value))
  {
    PostprocessCanonical(f);
  }

  /** Every key but the VIN and the document number holds its extractor's
      value, whitespace-normalised. */
  lemma AssembledOther(x: Extracted, k: Key)
    requires k in FIELDS && k != CODE_E && k != DOCUMENT_NUMBER
    ensures k in Assemble(x) && Assemble(x)[k] == EmptyToNone(FieldOf(x, k))
  {
    OthersNormalized(Fill(x), k);
  }

  /** The dates, the towing summary and the seat counts hold their
      extractors' values, whitespace-normalised. */
  lemma AssembledFields(x: Extracted)
    ensures var m := Assemble(x);
      CODE_B in m && m[CODE_B] == EmptyToNone(x.b) && CODE_I in m && m[CODE_I] == EmptyToNone(x.i) &&
      CODE_O in m && m[CODE_O] == EmptyToNone(x.o) &&
      CODE_S_1 in m && m[CODE_S_1] == EmptyToNone(x.s1) && CODE_S_2 in m && m[CODE_S_2] == EmptyToNone(x.s2)
  {
    assert FieldOf(x, CODE_B) == x.b && FieldOf(x, CODE_I) == x.i && FieldOf(x, CODE_O) == x.o;
    assert FieldOf(x, CODE_S_1) == x.s1 && FieldOf(x, CODE_S_2) == x.s2;
    AssembledOther(x, CODE_B);
    AssembledOther(x, CODE_I);
    AssembledOther(x, CODE_O);
    AssembledOther(x, CODE_S_1);
    AssembledOther(x, CODE_S_2);
  }

  /** The VIN and the document number hold the canonical forms of their
      extractors' values, each canonical or None. */
  lemma AssembledCanonical(x: Extracted)
    ensures var m := Assemble(x);
      CODE_E in m && m[CODE_E] == NormalizeVin(x.e) &&
      DOCUMENT_NUMBER in m && m[DOCUMENT_NUMBER] == NormalizeRegDocno(x.documentNumber)
    ensures var m := Assemble(x);
      (m[CODE_E].Some? ==> IsVinCanon(m[CODE_E].value)) &&
      (m[DOCUMENT_NUMBER].Some? ==> IsRegCanon(m[DOCUMENT_NUMBER].value))
  {
    assert FieldOf(x, CODE_E) == x.e;
    assert FieldOf(x, DOCUMENT_NUMBER) == x.documentNumber;
    FillIs(x, CODE_E);
    FillIs(x, DOCUMENT_NUMBER);
    var v := Get(Fill(x), CODE_E);
    var d := Get(Fill(x), DOCUMENT_NUMBER);
    assert v == x.e && d == x.documentNumber;
    ProjectedCanonical(Fill(x));
  }

  /** The stored VIN is the canonical form of what `extract_E` found and
      the stored document number the canonical form of the first repeated
      token: each is canonical or None. */
  lemma StoredCanonical(text: string, lb: Labels)
    ensures var m := RegistrationFields(text, lb);
      CODE_E in m && m[CODE_E] == NormalizeVin(ExtractE(text, lb)) &&
      DOCUMENT_NUMBER in m && m[DOCUMENT_NUMBER] == NormalizeRegDocno(DocumentNumberOf(text))
    ensures var m := RegistrationFields(text, lb);
      (m[CODE_E].Some? ==> IsVinCanon(m[CODE_E].value)) &&
      (m[DOCUMENT_NUMBER].Some? ==> IsRegCanon(m[DOCUMENT_NUMBER].value))
  {
    var x := ExtractAll(text, lb);
    assert x.e == ExtractE(text, lb) && x.documentNumber == DocumentNumberOf(text);
    AssembledCanonical(x);
  }

  /** An upper-cased document-number token is its own whitespace-normalised
      value and a match of `DOCUMENT_NUMBER_VALUE`. */
  lemma TokenCanonicalises(t: string)
    requires IsRegDocnoToken(t)
    ensures NormalizeRegDocno(Some(t)).Some?
  {
    assert forall i | 0 <= i < 7 :: IsWordChar(t[i]) && !IsSpace(t[i]) by {
      forall i | 0 <= i < 7 ensures IsWordChar(t[i]) && !IsSpace(t[i]) {
        if i < 2 { assert PrefixChar(t[i]); } else { assert SerialChar(t[i]); }
      }
    }
    assert Collapsed(t);
    CollapsedFixpoint(t);
    assert RegDocnoAt(t, 0);
    NormalizeRegDocnoIff(Some(t));
  }

  /** The first repeated token always canonicalises: a document number is
      stored exactly when some token is printed twice. */
  lemma StoredDocumentNumberFound(text: string, lb: Labels)
    ensures var m := RegistrationFields(text, lb);
      DOCUMENT_NUMBER in m && (m[DOCUMENT_NUMBER].Some? <==> DocumentNumberOf(text).Some?)
  {
    StoredCanonical(text, lb);
    var d := DocumentNumberOf(text);
    if d.Some? {
      TokenCanonicalises(d.value);
    }
  }

  /** An ISO date needs no whitespace normalisation. */
  lemma IsoSurvives(s: string)
    requires IsIsoDate(s)
    ensures EmptyToNone(Some(s)) == Some(s)
  {
    var d :| IsValid(d) && IsoOf(d) == s;
    assert forall i | 0 <= i < 10 :: !IsSpace(s[i]);
    assert Collapsed(s);
    CollapsedFixpoint(s);
  }

  /** A date value is stored unchanged. */
  lemma AssembledDates(x: Extracted)
    requires x.b.Some? ==> IsIsoDate(x.b.value)
    requires x.i.Some? ==> IsIsoDate(x.i.value)
    ensures var m := Assemble(x);
      CODE_B in m && m[CODE_B] == x.b && CODE_I in m && m[CODE_I] == x.i
  {
    AssembledFields(x);
    if x.b.Some? { IsoSurvives(x.b.value); }
    if x.i.Some? { IsoSurvives(x.i.value); }
  }

  /** The stored B is None or an ISO date: the earliest date of its label
      values, unchanged by post-processing. */
  lemma StoredDateB(text: string, lb: Labels)
    ensures var m := RegistrationFields(text, lb);
      CODE_B in m && m[CODE_B] == ExtractB(text, lb) && (m[CODE_B].Some? ==> IsIsoDate(m[CODE_B].value))
  {
    AssembledDates(ExtractAll(text, lb));
  }

  /** The same for the stored I. */
  lemma StoredDateI(text: string, lb: Labels)
    ensures var m := RegistrationFields(text, lb);
      CODE_I in m && m[CODE_I] == ExtractI(text, lb) && (m[CODE_I].Some? ==> IsIsoDate(m[CODE_I].value))
  {
    AssembledDates(ExtractAll(text, lb));
  }

  /** A seat count is stored as its stripped digits. */
  lemma PlainIntSurvives(s: string)
    requires IsPlainInt(s)
    ensures EmptyToNone(Some(s)) == Some(Strip(s)) && IsPlainInt(Strip(s))
  {
    CollapseOfOneWord(s);
    StripUnchanged(Strip(s));
  }

  /** Holds when the stored `m` is the stripped plain number `v`, or both are
      None. */
  predicate StoredSeat(m: Option<string>, v: Option<string>)
  {
    (m.Some? <==> v.Some?) && (m.Some? ==> m.value == Strip(v.value) && IsPlainInt(m.value))
  }

  /** Seat counts are stored stripped. */
  lemma AssembledSeats(x: Extracted)
    requires x.s1.Some? ==> IsPlainInt(x.s1.value)
    requires x.s2.Some? ==> IsPlainInt(x.s2.value)
    ensures var m := Assemble(x);
      CODE_S_1 in m && StoredSeat(m[CODE_S_1], x.s1) && CODE_S_2 in m && StoredSeat(m[CODE_S_2], x.s2)
  {
    AssembledFields(x);
    if x.s1.Some? { PlainIntSurvives(x.s1.value); }
    if x.s2.Some? { PlainIntSurvives(x.s2.value); }
  }

  /** The stored S.1 is what its label reads, stripped: None or a plain
      number without a leading zero. */
  lemma StoredSeatsS1(text: string, lb: Labels)
    ensures var m := RegistrationFields(text, lb); var v := SeatField(text, lb, lb.S1);
      CODE_S_1 in m && (m[CODE_S_1].Some? <==> v.Some?) &&
      (m[CODE_S_1].Some? ==> m[CODE_S_1].value == Strip(v.value) && IsPlainInt(m[CODE_S_1].value))
  {
    AssembledSeats(ExtractAll(text, lb));
  }

  /** The same for the stored S.2. */
  lemma StoredSeatsS2(text: string, lb: Labels)
    ensures var m := RegistrationFields(text, lb); var v := SeatField(text, lb, lb.S2);
      CODE_S_2 in m && (m[CODE_S_2].Some? <==> v.Some?) &&
      (m[CODE_S_2].Some? ==> m[CODE_S_2].value == Strip(v.value) && IsPlainInt(m[CODE_S_2].value))
  {
    AssembledSeats(ExtractAll(text, lb));
  }

  /** The stored towing summary is the whitespace-normalised `extract_O`
      value. */
  lemma StoredTowing(text: string, lb: Labels)
    ensures var m := RegistrationFields(text, lb);
      CODE_O in m && m[CODE_O] == EmptyToNone(ExtractOOf(text, lb))
  {
    var x := ExtractAll(text, lb);
    assert x.o == ExtractOOf(text, lb);
    AssembledFields(x);
  }

  /** What the dispatcher can rely on: exactly the schema keys, and a
      canonical document number or None. */
  predicate Shaped(m: Record)
  {
    (forall k :: k in m <==> k in FIELDS) &&
    DOCUMENT_NUMBER in m && (m[DOCUMENT_NUMBER].Some? ==> IsRegCanon(m[DOCUMENT_NUMBER].value))
  }

  /** Every registration result has that shape. */
  lemma RegistrationFieldsShaped(text: string, lb: Labels)
    ensures Shaped(RegistrationFields(text, lb))
  {
    StoredCanonical(text, lb);
  }
}
