/** `pipeline/service.py`: the payload unification and the decision logic
    of `process_document` once the OCR text is known. */
module Service {
  import opened Base
  import opened Fields
  import opened Registry
  import RegistrationPost
  import RegistrationProcessor

  /** `personal_schema.FIELDS`. */
  const PERSONAL_FIELDS: seq<Key> :=
    [FULL_NAME, BIRTH_DATE, BIRTH_PLACE, BIRTH_NAME, SEX, NATIONALITY, ISSUING_AUTHORITY,
     ISSUE_DATE, EXPIRY_DATE, MOTHERS_NAME, PERMANENT_ADDRESS, PERMANENT_REPORTING_TIME,
     TEMPORARY_ADDRESS, TEMPORARY_REPORTING_TIME, TEMPORARY_VALIDITY, COUNTRY_CODE, ORIGIN_PLACE]

  /** `vehicle_schema.FIELDS`: the registration keys without the document
      number. */
  const VEHICLE_FIELDS: seq<Key> :=
    [CODE_A, CODE_B, CODE_D_1, CODE_D_2, CODE_D_3, CODE_E, CODE_F_1, CODE_G, CODE_H, CODE_I,
     CODE_J, CODE_K, CODE_O, CODE_P_1, CODE_P_2, CODE_P_3, CODE_P_5, CODE_Q, MANUFACTURE_YEAR,
     GEARBOX_TYPE, CODE_R, CODE_S_1, CODE_S_2, CODE_V_9]

  /** The two payload categories. */
  datatype Category = PersonalData | VehicleData

  function CategoryName(c: Category): string
  {
    match c
    case PersonalData => "personal_data"
    case VehicleData => "vehicle_data"
  }

  /** Membership of the type's value in `VEHICLE_TYPES`. */
  function CategoryOf(docTypeValue: string): Category
  {
    if docTypeValue == "REGISTRATION" || docTypeValue == "COC" then VehicleData else PersonalData
  }

  function SchemaOf(c: Category): seq<Key>
  {
    match c
    case PersonalData => PERSONAL_FIELDS
    case VehicleData => VEHICLE_FIELDS
  }

  /** Registration and COC payloads are vehicle data; every other type's is
      personal data. */
  lemma CategoryOfDocType(t: DocType)
    ensures CategoryOf(Value(t)) == VehicleData <==> t == REGISTRATION || t == COC
  {
    ValueInjective(t, REGISTRATION);
    ValueInjective(t, COC);
  }

  /** `unify_payload`: the category's empty schema, then each schema key the
      input holds copied over. */
  method UnifyPayload(docTypeValue: string, fields: Record) returns (category: Category, out: Record)
    ensures category == CategoryOf(docTypeValue)
    ensures out == Project(fields, SchemaOf(category))
  {
    category := CategoryOf(docTypeValue);
    var keys := SchemaOf(category);
    out := Empty(keys);
    for i := 0 to |keys|
      invariant forall k :: k in out <==> k in keys
      invariant forall k | k in out :: out[k] == if k in keys[..i] then Get(fields, k) else None
    {
      var k := keys[i];
      assert keys[..i + 1] == keys[..i] + [k];
      if k in fields {
        out := out[k := fields[k]];
      }
    }
    assert keys[..|keys|] == keys;
    assert out == Project(fields, keys);
  }

  /** Unifying a payload whose keys are exactly the category's schema keys
      changes nothing. */
  lemma UnifyExact(fields: Record, c: Category)
    requires forall k :: k in fields <==> k in SchemaOf(c)
    ensures Project(fields, SchemaOf(c)) == fields
  {
  }

  /** The fields `process_document` receives: none for a type without a
      processor, else what its processor extracts. `extract(c)` is what
      `extract_fields` of class `c` returns on this OCR result; in the
      running system it is `ExtractWith(c, text, env)`. */
  function Dispatched(t: DocType, extract: ProcessorClass -> Result<Record>): Result<Record>
  {
    match ClassFor(t)
    case None => Ok(map[])
    case Some(c) => extract(c)
  }

  /** `fields.pop("document_number", None)`: the value (None when absent)
      and the dictionary without the key. */
  function PopDocumentNumber(fields: Record): (Option<string>, Record)
  {
    (Get(fields, DOCUMENT_NUMBER), fields - {DOCUMENT_NUMBER})
  }

  /** The stub confidence: 0.5 when the OCR text is non-empty, else 0.0. */
  function Confidence(text: string): real
  {
    if text != "" then 0.5 else 0.0
  }

  /** The intended `ExtractionResult`. */
  datatype Outcome = Outcome(
    docType: DocType, documentNumber: Option<string>, isCorrectDocument: bool,
    confidence: real, fields: Record)

  /** `process_document` as written: `ExtractionResult` has no
      `document_number` field and its `warnings` field has no default, so
      the constructor call raises once the fields are known. */
  function ProcessDocumentAsWritten(t: DocType, text: string, extract: ProcessorClass -> Result<Record>): Result<Outcome>
  {
    match Dispatched(t, extract)
    case Raise(e) => Raise(e)
    case Ok(_) => Raise(TypeError("unexpected keyword argument 'document_number'"))
  }

  /** No call of `process_document` as written returns a result. */
  lemma ProcessDocumentAlwaysRaises(t: DocType, text: string, extract: ProcessorClass -> Result<Record>)
    ensures ProcessDocumentAsWritten(t, text, extract).Raise?
    ensures Dispatched(t, extract).Ok? ==> ProcessDocumentAsWritten(t, text, extract).error.TypeError?
  {
  }

  /** `process_document` as intended: the dispatched fields with the
      document number moved out, and the stub scoring. */
  function ProcessDocument(t: DocType, text: string, extract: ProcessorClass -> Result<Record>): Result<Outcome>
  {
    Conclude(t, text, Dispatched(t, extract))
  }

  /** The steps after dispatch, on the processor's result `d`. */
  function Conclude(t: DocType, text: string, d: Result<Record>): Result<Outcome>
  {
    match d
    case Raise(e) => Raise(e)
    case Ok(f) =>
      var (docno, rest) := PopDocumentNumber(f);
      Ok(Outcome(t, docno, true, Confidence(text), rest))
  }

  /** The outcome carries the requested type, the processor's document
      number and its other fields unchanged; the document is always
      reported correct and the confidence is 0.5 exactly when there is
      text. */
  lemma ConcludeSpec(t: DocType, text: string, d: Result<Record>)
    ensures Conclude(t, text, d).Ok? <==> d.Ok?
    ensures var r := Conclude(t, text, d);
      r.Ok? ==>
        r.value.docType == t && r.value.isCorrectDocument &&
        r.value.documentNumber == Get(d.value, DOCUMENT_NUMBER) &&
        DOCUMENT_NUMBER !in r.value.fields &&
        (forall k :: k in r.value.fields <==> k in d.value && k != DOCUMENT_NUMBER) &&
        (forall k | k in r.value.fields :: r.value.fields[k] == d.value[k])
    ensures var r := Conclude(t, text, d);
      r.Ok? ==> (r.value.confidence == 0.5 <==> text != "") && (r.value.confidence == 0.0 <==> text == "")
  {
  }

  /** A COC document has no processor: no fields and no document
      number. */
  lemma CocHasNoFields(text: string, extract: ProcessorClass -> Result<Record>)
    ensures var r := ProcessDocument(COC, text, extract);
      r.Ok? && r.value.fields == map[] && r.value.documentNumber == None
  {
  }

  /** The registration schema without the document number is the vehicle
      schema. */
  lemma RegistrationKeysAreVehicleKeys()
    ensures forall k :: k in RegistrationProcessor.FIELDS && k != DOCUMENT_NUMBER <==> k in VEHICLE_FIELDS
  {
  }

  /** A registration outcome always exists (the processor's result has the
      shape `RegistrationFieldsShaped` proves); its fields are exactly the
      vehicle schema, and its document number is canonical or None. */
  lemma ProcessRegistration(text: string, extract: ProcessorClass -> Result<Record>)
    requires extract(RegistrationProcessor).Ok? && RegistrationProcessor.Shaped(extract(RegistrationProcessor).value)
    ensures var r := ProcessDocument(REGISTRATION, text, extract);
      r.Ok? && (forall k :: k in r.value.fields <==> k in VEHICLE_FIELDS) &&
      (r.value.documentNumber.Some? ==> RegistrationPost.IsRegCanon(r.value.documentNumber.value))
  {
    RegistrationKeysAreVehicleKeys();
  }

  /** End to end: with the registry's own processors, every registration
      text gives an outcome whose fields are exactly the vehicle schema and
      whose document number is canonical or None. */
  lemma ProcessRegistrationText(text: string, env: Env)
    ensures var r := ProcessDocument(REGISTRATION, text, c => ExtractWith(c, text, env));
      r.Ok? && (forall k :: k in r.value.fields <==> k in VEHICLE_FIELDS) &&
      (r.value.documentNumber.Some? ==> RegistrationPost.IsRegCanon(r.value.documentNumber.value))
  {
    var extract := c => ExtractWith(c, text, env);
    var fields := RegistrationProcessor.RegistrationFields(text, env.registration);
    assert extract(RegistrationProcessor) == Ok(fields);
    RegistrationProcessor.RegistrationFieldsShaped(text, env.registration);
    ProcessRegistration(text, extract);
  }
}
