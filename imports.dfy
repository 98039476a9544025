/** Module loading along the import chains that end in
    `core/utils/normalize.py`: each module runs its `from ... import ...`
    statements in order, and the first name a module asks for that is not
    bound raises `ImportError`. */
module Imports {
  import opened Base

  /** The helpers the processors import from `core/utils/normalize.py`. */
  datatype Name = ParseDatesIso | DdMmYyFromIso | NormalizeSex | NormalizeIdNumber | NormWs | EmptyToNone

  /** The Python spelling of a helper. */
  function PyName(n: Name): string
  {
    match n
    case ParseDatesIso => "parse_dates_iso"
    case DdMmYyFromIso => "ddmmyy_from_iso"
    case NormalizeSex => "normalize_sex"
    case NormalizeIdNumber => "normalize_id_number"
    case NormWs => "norm_ws"
    case EmptyToNone => "empty_to_none"
  }

  /** The helpers `core/utils/normalize.py` defines as written. */
  const DEFINED_AS_WRITTEN: set<Name> := {ParseDatesIso, DdMmYyFromIso, NormalizeSex}

  /** The same module with the three helpers its importers expect. */
  const DEFINED: set<Name> := {ParseDatesIso, DdMmYyFromIso, NormalizeSex, NormalizeIdNumber, NormWs, EmptyToNone}

  /** The modules on the chains. */
  datatype Unit =
    | AddressPostprocess | AddressExtract | AddressProcessor
    | RegistrationPostprocess | RegistrationExtract | RegistrationProcessor
    | IdOldFrontExtract | IdOldFrontProcessor
    | Registry | Service

  /** One import statement: helpers from normalize.py, or a module of the
      chain. */
  datatype Step = FromNormalize(names: seq<Name>) | Load(unit: Unit)

  /** Depth on the chain: a module only loads modules of smaller depth. */
  function Depth(u: Unit): nat
  {
    match u
    case Service => 3
    case Registry => 2
    case AddressProcessor | RegistrationProcessor | IdOldFrontProcessor => 1
    case _ => 0
  }

  /** The import statements of each module that bear on the chain, in
      order. */
  function Steps(u: Unit): (ss: seq<Step>)
    ensures forall i | 0 <= i < |ss| :: ss[i].Load? ==> Depth(ss[i].unit) < Depth(u)
  {
    match u
    case AddressPostprocess => [FromNormalize([NormWs, EmptyToNone])]
    case AddressExtract => [FromNormalize([ParseDatesIso])]
    case AddressProcessor => [Load(AddressExtract)]
    case RegistrationPostprocess => [FromNormalize([EmptyToNone, NormWs])]
    case RegistrationExtract => [FromNormalize([ParseDatesIso])]
    case RegistrationProcessor => [Load(RegistrationPostprocess), Load(RegistrationExtract)]
    case IdOldFrontExtract => [FromNormalize([ParseDatesIso, NormalizeIdNumber])]
    case IdOldFrontProcessor => [Load(IdOldFrontExtract)]
    case Registry => [Load(IdOldFrontProcessor), Load(AddressProcessor), Load(RegistrationProcessor)]
    case Service => [Load(Registry)]
  }

  /** The first of `names` that is not bound. */
  function FirstMissing(names: seq<Name>, defined: set<Name>): (r: Option<Name>)
    ensures r.None? <==> forall i | 0 <= i < |names| :: names[i] in defined
    ensures r.Some? ==> r.value in names && r.value !in defined
  {
    if |names| == 0 then None
    else if names[0] !in defined then Some(names[0])
    else FirstMissing(names[1..], defined)
  }

  /** The helpers some names list. */
  function NamesOf(ns: seq<Name>): (r: set<Name>)
    ensures forall n :: n in r <==> n in ns
  {
    if |ns| == 0 then {} else {ns[0]} + NamesOf(ns[1..])
  }

  /** Loading module `u` when normalize.py binds `defined`. */
  function LoadUnit(u: Unit, defined: set<Name>): (r: Result<()>)
    decreases Depth(u), 1, 0
  {
    Run(Steps(u), Depth(u), defined)
  }

  /** One import statement. */
  function StepResult(s: Step, bound: nat, defined: set<Name>): (r: Result<()>)
    requires s.Load? ==> Depth(s.unit) < bound
    decreases bound, 0, 0
  {
    match s
    case FromNormalize(ns) =>
      (match FirstMissing(ns, defined) case Some(n) => Raise(ImportError(PyName(n))) case None => Ok(()))
    case Load(v) => LoadUnit(v, defined)
  }

  /** Running some import statements in order: the first failure is the
      result. */
  function Run(steps: seq<Step>, bound: nat, defined: set<Name>): (r: Result<()>)
    requires forall i | 0 <= i < |steps| :: steps[i].Load? ==> Depth(steps[i].unit) < bound
    decreases bound, 0, |steps|
  {
    if |steps| == 0 then Ok(())
    else
      var first := StepResult(steps[0], bound, defined);
      if first.Raise? then first else Run(steps[1..], bound, defined)
  }

  /** The helpers a module needs, directly or through the modules it loads:
      an independent statement of the chains. */
  function Needs(u: Unit): set<Name>
  {
    match u
    case AddressPostprocess => {NormWs, EmptyToNone}
    case AddressExtract | AddressProcessor | RegistrationExtract => {ParseDatesIso}
    case RegistrationPostprocess => {NormWs, EmptyToNone}
    case RegistrationProcessor => {NormWs, EmptyToNone, ParseDatesIso}
    case IdOldFrontExtract | IdOldFrontProcessor => {ParseDatesIso, NormalizeIdNumber}
    case Registry | Service => {ParseDatesIso, NormalizeIdNumber, NormWs, EmptyToNone}
  }

  /** The helpers one statement needs. */
  function StepNeed(s: Step): set<Name>
  {
    match s
    case FromNormalize(ns) => NamesOf(ns)
    case Load(v) => Needs(v)
  }

  /** The helpers some import statements need. */
  function StepsNeed(steps: seq<Step>): set<Name>
  {
    if |steps| == 0 then {} else StepNeed(steps[0]) + StepsNeed(steps[1..])
  }

  /** The statements of each module need exactly what `Needs` lists. */
  lemma StepsNeedUnit(u: Unit)
    ensures StepsNeed(Steps(u)) == Needs(u)
  {
    var ss := Steps(u);
    assert |ss| <= 3;
    if |ss| >= 1 { assert StepsNeed(ss) == StepNeed(ss[0]) + StepsNeed(ss[1..]); }
    if |ss| >= 2 { assert StepsNeed(ss[1..]) == StepNeed(ss[1]) + StepsNeed(ss[2..]); }
    if |ss| >= 3 { assert StepsNeed(ss[2..]) == StepNeed(ss[2]) + StepsNeed(ss[3..]); }
    assert StepsNeed(ss[|ss|..]) == {};
  }

  /** Running statements succeeds exactly when every helper they need is
      bound. */
  lemma {:induction false} RunIff(steps: seq<Step>, bound: nat, defined: set<Name>)
    requires forall i | 0 <= i < |steps| :: steps[i].Load? ==> Depth(steps[i].unit) < bound
    ensures Run(steps, bound, defined).Ok? <==> StepsNeed(steps) <= defined
    decreases bound, 0, |steps|
  {
    if |steps| > 0 {
      RunIff(steps[1..], bound, defined);
      if steps[0].Load? {
        LoadIff(steps[0].unit, defined);
      } else {
        var ns := steps[0].names;
        assert FirstMissing(ns, defined).None? <==> NamesOf(ns) <= defined;
      }
    }
  }

  /** A module loads exactly when every helper on its chain is bound. */
  lemma {:induction false} LoadIff(u: Unit, defined: set<Name>)
    ensures LoadUnit(u, defined).Ok? <==> Needs(u) <= defined
    decreases Depth(u), 1, 0
  {
    RunIff(Steps(u), Depth(u), defined);
    StepsNeedUnit(u);
  }

  /** A module whose first statement fails fails with that statement's
      error. */
  lemma FirstStepFails(u: Unit, defined: set<Name>)
    requires |Steps(u)| > 0 && StepResult(Steps(u)[0], Depth(u), defined).Raise?
    ensures LoadUnit(u, defined) == StepResult(Steps(u)[0], Depth(u), defined)
  {
  }

  /** `id_old_front/extract.py` asks for `normalize_id_number`, which
      normalize.py as written does not define. */
  lemma IdOldFrontExtractFails()
    ensures LoadUnit(IdOldFrontExtract, DEFINED_AS_WRITTEN) == Raise(ImportError("normalize_id_number"))
  {
    assert FirstMissing([ParseDatesIso, NormalizeIdNumber], DEFINED_AS_WRITTEN) == Some(NormalizeIdNumber) by {
      assert [ParseDatesIso, NormalizeIdNumber][1..] == [NormalizeIdNumber];
    }
    FirstStepFails(IdOldFrontExtract, DEFINED_AS_WRITTEN);
  }

  /** As written, the service cannot be loaded: through the registry and
      the earlier ID front processor, the first missing helper is
      `normalize_id_number`. */
  lemma ServiceImportFails()
    ensures LoadUnit(IdOldFrontProcessor, DEFINED_AS_WRITTEN) == Raise(ImportError("normalize_id_number"))
    ensures LoadUnit(Registry, DEFINED_AS_WRITTEN) == Raise(ImportError("normalize_id_number"))
    ensures LoadUnit(Service, DEFINED_AS_WRITTEN) == Raise(ImportError("normalize_id_number"))
  {
    IdOldFrontExtractFails();
    FirstStepFails(IdOldFrontProcessor, DEFINED_AS_WRITTEN);
    FirstStepFails(Registry, DEFINED_AS_WRITTEN);
    FirstStepFails(Service, DEFINED_AS_WRITTEN);
  }

  /** The two post-processors fail on their first helper: `empty_to_none`
      for the registration, `norm_ws` for the address card; the registration
      processor inherits the failure. */
  lemma PostprocessImportFails()
    ensures LoadUnit(RegistrationPostprocess, DEFINED_AS_WRITTEN) == Raise(ImportError("empty_to_none"))
    ensures LoadUnit(RegistrationProcessor, DEFINED_AS_WRITTEN) == Raise(ImportError("empty_to_none"))
    ensures LoadUnit(AddressPostprocess, DEFINED_AS_WRITTEN) == Raise(ImportError("norm_ws"))
  {
    assert FirstMissing([EmptyToNone, NormWs], DEFINED_AS_WRITTEN) == Some(EmptyToNone);
    assert FirstMissing([NormWs, EmptyToNone], DEFINED_AS_WRITTEN) == Some(NormWs);
    FirstStepFails(RegistrationPostprocess, DEFINED_AS_WRITTEN);
    FirstStepFails(RegistrationProcessor, DEFINED_AS_WRITTEN);
    FirstStepFails(AddressPostprocess, DEFINED_AS_WRITTEN);
  }

  /** The address-card processor does not import its post-processor and
      loads as written. */
  lemma AddressProcessorLoads()
    ensures LoadUnit(AddressProcessor, DEFINED_AS_WRITTEN).Ok?
  {
    LoadIff(AddressProcessor, DEFINED_AS_WRITTEN);
  }

  /** With the three helpers defined, every module on the chains loads. */
  lemma AllLoadWithHelpers(u: Unit)
    ensures LoadUnit(u, DEFINED).Ok?
  {
    LoadIff(u, DEFINED);
  }
}
