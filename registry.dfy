/** `documents/registry.py`: the table from document type to processor
    class, and `get_processor`. */
module Registry {
  import opened Base
  import opened Fields
  import IdFront
  import IdBack
  import IdOldFront
  import IdOldBack
  import DrivingLicense
  import AddressRules
  import AddressCardProcessor
  import Passport
  import RegistrationRules
  import RegistrationProcessor

  /** `core.types.DocType`. */
  datatype DocType =
    | ID_FRONT | ID_BACK | ID_OLD_FRONT | ID_OLD_BACK | DRIVING_LICENSE
    | ADDRESS_CARD | PASSPORT | REGISTRATION | COC

  /** The enum's string value. */
  function Value(t: DocType): string
  {
    match t
    case ID_FRONT => "ID_FRONT"
    case ID_BACK => "ID_BACK"
    case ID_OLD_FRONT => "ID_OLD_FRONT"
    case ID_OLD_BACK => "ID_OLD_BACK"
    case DRIVING_LICENSE => "DRIVING_LICENSE"
    case ADDRESS_CARD => "ADDRESS_CARD"
    case PASSPORT => "PASSPORT"
    case REGISTRATION => "REGISTRATION"
    case COC => "COC"
  }

  /** The eight processor classes the registry imports. */
  datatype ProcessorClass =
    | IDFrontProcessor | IDBackProcessor | IDOldFrontProcessor | IDOldBackProcessor
    | DrivingLicenseProcessor | AddressCardProcessor | PassportProcessor | RegistrationProcessor

  /** The `doc_type` property of each class: the value of the type it
      handles. */
  function ClassDocType(c: ProcessorClass): string
  {
    match c
    case IDFrontProcessor => Value(ID_FRONT)
    case IDBackProcessor => Value(ID_BACK)
    case IDOldFrontProcessor => Value(ID_OLD_FRONT)
    case IDOldBackProcessor => Value(ID_OLD_BACK)
    case DrivingLicenseProcessor => Value(DRIVING_LICENSE)
    case AddressCardProcessor => Value(ADDRESS_CARD)
    case PassportProcessor => Value(PASSPORT)
    case RegistrationProcessor => Value(REGISTRATION)
  }

  /** `PROCESSOR_CLASSES.get(doc_type)`: COC has no entry. */
  function ClassFor(t: DocType): (r: Option<ProcessorClass>)
    ensures r.None? <==> t == COC
  {
    match t
    case ID_FRONT => Some(IDFrontProcessor)
    case ID_BACK => Some(IDBackProcessor)
    case ID_OLD_FRONT => Some(IDOldFrontProcessor)
    case ID_OLD_BACK => Some(IDOldBackProcessor)
    case DRIVING_LICENSE => Some(DrivingLicenseProcessor)
    case ADDRESS_CARD => Some(AddressCardProcessor)
    case PASSPORT => Some(PassportProcessor)
    case REGISTRATION => Some(RegistrationProcessor)
    case COC => None
  }

  /** The enum values are pairwise distinct. */
  lemma ValueInjective(t: DocType, u: DocType)
    ensures Value(t) == Value(u) <==> t == u
  {
    if t != u && |Value(t)| == |Value(u)| {
      ValueLetters(t, u);
    }
  }

  /** Two types whose values have the same length differ at a fixed
      position. */
  lemma ValueLetters(t: DocType, u: DocType)
    requires t != u && |Value(t)| == |Value(u)|
    ensures Value(t) != Value(u)
  {
    var vt := Value(t);
    var vu := Value(u);
    assert vt[|vt| - 1] != vu[|vu| - 1] || vt[3] != vu[3] || vt[0] != vu[0];
  }

  /** Every registered class handles exactly the type it is registered
      under, and no two types share a class. */
  lemma RegistryMatchesDocType(t: DocType)
    ensures ClassFor(t).Some? ==> ClassDocType(ClassFor(t).value) == Value(t)
    ensures forall u :: ClassFor(t).Some? && ClassFor(u) == ClassFor(t) ==> u == t
  {
    forall u | ClassFor(t).Some? && ClassFor(u) == ClassFor(t) ensures u == t {
      ValueInjective(t, u);
    }
  }

  /** `get_processor`: a fresh instance of the registered class, or None for
      a type without one. */
  method GetProcessor(t: DocType) returns (p: Processor?)
    ensures p == null <==> ClassFor(t).None?
    ensures p != null ==> fresh(p) && p.cls == ClassFor(t).value
  {
    var c := ClassFor(t);
    if c.None? {
      return null;
    }
    p := new Processor(c.value);
  }

  /** The rule tables and schema key lists the processors read. The id_front
      and driving_license schema files are not part of this model, so
      their key lists are parameters. */
  datatype Env = Env(
    idFront: IdFront.Rules, idFrontKeys: seq<Key>,
    idBack: IdBack.Rules,
    idOldFront: IdOldFront.Rules,
    idOldBack: IdOldBack.Rules,
    drivingLicense: DrivingLicense.Rules, drivingLicenseKeys: seq<Key>,
    addressCard: AddressRules.Labels,
    passport: Passport.Rules,
    registration: RegistrationRules.Labels)

  /** `processor.extract_fields(ocr)` for an instance of class `c`, on the
      OCR text: the vehicle registration processor, or one of the
      personal-document processors. */
  function ExtractWith(c: ProcessorClass, text: string, env: Env): Result<Record>
  {
    match c
    case RegistrationProcessor => Ok(RegistrationProcessor.RegistrationFields(text, env.registration))
    case _ => ExtractPersonal(c, text, env)
  }

  /** `extract_fields` of the seven personal-document processors. */
  function ExtractPersonal(c: ProcessorClass, text: string, env: Env): Result<Record>
    requires !c.RegistrationProcessor?
  {
    match c
    case IDFrontProcessor => Ok(IdFront.IdFrontFields(text, env.idFront, env.idFrontKeys))
    case IDBackProcessor => Ok(IdBack.IdBackFields(text, env.idBack))
    case IDOldFrontProcessor => Ok(IdOldFront.OldFrontFields(text, env.idOldFront))
    case IDOldBackProcessor => IdOldBack.OldBackFields(text, env.idOldBack)
    case DrivingLicenseProcessor => DrivingLicense.DrivingLicenseFields(text, env.drivingLicense, env.drivingLicenseKeys)
    case AddressCardProcessor => Ok(AddressCardProcessor.AddressCardFields(text, env.addressCard))
    case PassportProcessor => Ok(Passport.PassportFields(text, env.passport))
  }

  /** A processor instance: it holds no state beyond its class. */
  class Processor {
    const cls: ProcessorClass

    constructor (c: ProcessorClass)
      ensures cls == c
    {
      cls := c;
    }
  }
}
