/** The field dictionaries the processors build. Every value is a string or
    None. The source spells the keys as strings; here each key is a number
    with a named constant, the comment beside it giving the spelling. */
module Fields {
  import opened Base
  import opened Normalize

  /** A field name. */
  newtype Key = k: int | 0 <= k < 43

  const DOCUMENT_TYPE: Key := 0  // "document_type"
  const DOCUMENT_NUMBER: Key := 1  // "document_number"
  const FULL_NAME: Key := 2  // "full_name"
  const SEX: Key := 3  // "sex"
  const NATIONALITY: Key := 4  // "nationality"
  const BIRTH_DATE: Key := 5  // "birth_date"
  const BIRTH_PLACE: Key := 6  // "birth_place"
  const BIRTH_NAME: Key := 7  // "birth_name"
  const MOTHERS_NAME: Key := 8  // "mothers_name"
  const ORIGIN_PLACE: Key := 9  // "origin_place"
  const ISSUING_AUTHORITY: Key := 10  // "issuing_authority"
  const ISSUE_DATE: Key := 11  // "issue_date"
  const EXPIRY_DATE: Key := 12  // "expiry_date"
  const COUNTRY_CODE: Key := 13  // "country_code"
  const PERMANENT_ADDRESS: Key := 14  // "permanent_address"
  const PERMANENT_REPORTING_TIME: Key := 15  // "permanent_reporting_time"
  const TEMPORARY_ADDRESS: Key := 16  // "temporary_address"
  const TEMPORARY_REPORTING_TIME: Key := 17  // "temporary_reporting_time"
  const TEMPORARY_VALIDITY: Key := 18  // "temporary_validity"
  const CODE_A: Key := 19  // "A"
  const CODE_B: Key := 20  // "B"
  const CODE_D_1: Key := 21  // "D.1"
  const CODE_D_2: Key := 22  // "D.2"
  const CODE_D_3: Key := 23  // "D.3"
  const CODE_E: Key := 24  // "E"
  const CODE_F_1: Key := 25  // "F.1"
  const CODE_G: Key := 26  // "G"
  const CODE_H: Key := 27  // "H"
  const CODE_I: Key := 28  // "I"
  const CODE_J: Key := 29  // "J"
  const CODE_K: Key := 30  // "K"
  const CODE_O: Key := 31  // "O"
  const CODE_P_1: Key := 32  // "P.1"
  const CODE_P_2: Key := 33  // "P.2"
  const CODE_P_3: Key := 34  // "P.3"
  const CODE_P_5: Key := 35  // "P.5"
  const CODE_Q: Key := 36  // "Q"
  const CODE_R: Key := 37  // "R"
  const CODE_S_1: Key := 38  // "S.1"
  const CODE_S_2: Key := 39  // "S.2"
  const CODE_V_9: Key := 40  // "V.9"
  const MANUFACTURE_YEAR: Key := 41  // "manufacture_year"
  const GEARBOX_TYPE: Key := 42  // "gearbox_type"

  /** A `dict[str, Optional[str]]`; key order is not modelled. */
  type Record = map<Key, Option<string>>

  /** `fields.get(k)`. */
  function Get(fields: Record, k: Key): (r: Option<string>)
    ensures k !in fields ==> r == None
    ensures k in fields ==> r == fields[k]
  {
    if k in fields then fields[k] else None
  }

  /** `{k: None for k in keys}` (a schema's `empty()`). */
  function Empty(keys: seq<Key>): (r: Record)
    ensures forall k :: k in r <==> k in keys
    ensures forall k | k in r :: r[k] == None
  {
    map k | k in keys :: None
  }

  /** `{k: fields.get(k) for k in keys}`: exactly the schema keys, a key the
      processor never set reading None. */
  function Project(fields: Record, keys: seq<Key>): (r: Record)
    ensures forall k :: k in r <==> k in keys
    ensures forall k | k in r :: r[k] == Get(fields, k)
  {
    map k | k in keys :: Get(fields, k)
  }

  /** The pass both post-processors open with,
      `for k, v in out.items(): out[k] = empty_to_none(v)`: the same keys,
      every value whitespace-normalised and "" turned into None. */
  function NormalizeAll(fields: Record): (o: Record)
    ensures o.Keys == fields.Keys
    ensures forall k | k in o :: o[k] == EmptyToNone(fields[k])
  {
    map k | k in fields :: EmptyToNone(fields[k])
  }

  /** The loop of that pass, one key at a time. */
  method NormalizeEach(fields: Record) returns (out: Record)
    ensures out == NormalizeAll(fields)
  {
    out := fields;
    var todo := fields.Keys;
    while todo != {}
      invariant todo <= fields.Keys
      invariant out.Keys == fields.Keys
      invariant forall k | k in fields :: out[k] == if k in todo then fields[k] else EmptyToNone(fields[k])
      decreases todo
    {
      var k :| k in todo;
      out := out[k := EmptyToNone(out[k])];
      todo := todo - {k};
    }
    assert out == NormalizeAll(fields);
  }
}
