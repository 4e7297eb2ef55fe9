/** TriageProcessor: hard safety rules composed over the classifier's level,
    and a separate department decision tree on the raw record
    (src/triage_engine/processor.py). Thresholds are compared in tenths. */
module Processor {
  import opened Common
  import opened Values

  datatype RuleHit = RuleHit(level: int, reason: string)

  datatype Source = SafetyRule | MlModel

  function SourceName(s: Source): string {
    match s
    case SafetyRule => "Safety Rule"
    case MlModel => "ML Model"
  }

  datatype Decision = Decision(triageLevel: int, department: string, source: Source, reason: Option<string>)

  datatype ProcessError = UnseenArrivalMode(value: Value)

  const LowOxygen := "CRITICAL: Low Oxygen Saturation"
  const SevereHypertension := "CRITICAL: Severe Hypertension"

  const Pulmonology := "Pulmonology / Respiratory"
  const Cardiology := "Cardiology"
  const Emergency := "Emergency / Trauma"
  const GeneralMedicine := "General Medicine"

  /** What apply_rules reads, in the order it reads it: the blood pressure is
      looked at only when the oxygen rule did not fire. */
  predicate RulesReadable(r: Record) {
    NumAt(r, OxygenSaturation) && (r[OxygenSaturation].tenths >= 900 ==> NumAt(r, SystolicBloodPressure))
  }

  /** apply_rules: the first matching rule, or None. */
  function ApplyRules(r: Record): (hit: Option<RuleHit>)
    requires RulesReadable(r)
    ensures hit.Some? ==> hit.value.level == 3
    ensures hit.Some? <==> r[OxygenSaturation].tenths < 900 || r[SystolicBloodPressure].tenths > 1900
    ensures r[OxygenSaturation].tenths < 900 ==> hit == Some(RuleHit(3, LowOxygen))
    ensures r[OxygenSaturation].tenths >= 900 && r[SystolicBloodPressure].tenths > 1900 ==>
              hit == Some(RuleHit(3, SevereHypertension))
  {
    if r[OxygenSaturation].tenths < 900 then Some(RuleHit(3, LowOxygen))
    else if r[SystolicBloodPressure].tenths > 1900 then Some(RuleHit(3, SevereHypertension))
    else None
  }

  /** What get_department reads, again with Python's short-circuit order. */
  predicate DepartmentReadable(r: Record) {
    && NumAt(r, OxygenSaturation)
    && (r[OxygenSaturation].tenths >= 920 ==> NumAt(r, HeartRate))
    && (r[OxygenSaturation].tenths >= 920 && r[HeartRate].tenths <= 1200 ==> NumAt(r, SystolicBloodPressure))
    && ((r[OxygenSaturation].tenths >= 920 && r[HeartRate].tenths <= 1200 &&
         r[SystolicBloodPressure].tenths <= 1600) ==> NumAt(r, PainLevel))
  }

  /** get_department: the first condition that holds picks the department. */
  function Department(r: Record): (d: string)
    requires DepartmentReadable(r)
    ensures d in {Pulmonology, Cardiology, Emergency, GeneralMedicine}
    ensures d == Pulmonology <==> r[OxygenSaturation].tenths < 920
    ensures d == Cardiology <==>
              r[OxygenSaturation].tenths >= 920 &&
              (r[HeartRate].tenths > 1200 || r[SystolicBloodPressure].tenths > 1600)
    ensures d == Emergency <==>
              r[OxygenSaturation].tenths >= 920 && r[HeartRate].tenths <= 1200 &&
              r[SystolicBloodPressure].tenths <= 1600 && r[PainLevel].tenths >= 80
  {
    if r[OxygenSaturation].tenths < 920 then Pulmonology
    else if r[HeartRate].tenths > 1200 || r[SystolicBloodPressure].tenths > 1600 then Cardiology
    else if r[PainLevel].tenths >= 80 then Emergency
    else GeneralMedicine
  }

  /** process_patient: rules first, the classifier's level otherwise. The
      encoder runs on every call, so an unseen arrival mode is an error even
      when a rule has fired. */
  function ProcessPatient(r: Record, art: Artifacts): (res: Result<Decision, ProcessError>)
    requires HasColumns(r) && RulesReadable(r) && DepartmentReadable(r)
    ensures res.Err? <==> ModelInput(r, art.encode).None?
    ensures res.Ok? ==> res.value.department == Department(r)
    ensures res.Ok? && ApplyRules(r).Some? ==>
              res.value.triageLevel == 3 && res.value.source == SafetyRule &&
              res.value.reason == Some(ApplyRules(r).value.reason)
    ensures res.Ok? && ApplyRules(r).None? ==>
              res.value.triageLevel == art.predict(ModelInput(r, art.encode).value) &&
              res.value.source == MlModel && res.value.reason == None
  {
    var hit := ApplyRules(r);
    match ModelInput(r, art.encode)
    case None => Err(UnseenArrivalMode(r[ArrivalMode]))
    case Some(row) =>
      var mlLevel := art.predict(row);
      var level := if hit.Some? then hit.value.level else mlLevel;
      var source := if hit.Some? then SafetyRule else MlModel;
      Ok(Decision(level, Department(r), source, if hit.Some? then Some(hit.value.reason) else None))
  }

  /** A low-oxygen rule hit is always routed to pulmonology: the department
      tree looks at the same raw reading with a higher threshold. */
  lemma LowOxygenRoutesToPulmonology(r: Record, art: Artifacts)
    requires HasColumns(r) && RulesReadable(r) && DepartmentReadable(r)
    requires ProcessPatient(r, art).Ok?
    requires ProcessPatient(r, art).value.reason == Some(LowOxygen)
    ensures ProcessPatient(r, art).value.department == Pulmonology
  {
  }

  /** The rules only ever raise acuity: for a classifier that answers a level
      in 0..3, the final level is at least the classifier's. */
  lemma RulesNeverLowerLevel(r: Record, art: Artifacts)
    requires HasColumns(r) && RulesReadable(r) && DepartmentReadable(r)
    requires ProcessPatient(r, art).Ok?
    requires 0 <= art.predict(ModelInput(r, art.encode).value) <= 3
    ensures ProcessPatient(r, art).value.triageLevel >= art.predict(ModelInput(r, art.encode).value)
  {
  }

  /** The rules are monotone in the vitals: a record with oxygen no higher and
      blood pressure no lower than one that trips a rule trips a rule too. */
  lemma RulesMonotone(r: Record, s: Record)
    requires NumAt(r, OxygenSaturation) && NumAt(r, SystolicBloodPressure)
    requires NumAt(s, OxygenSaturation) && NumAt(s, SystolicBloodPressure)
    requires s[OxygenSaturation].tenths <= r[OxygenSaturation].tenths
    requires s[SystolicBloodPressure].tenths >= r[SystolicBloodPressure].tenths
    requires ApplyRules(r).Some?
    ensures ApplyRules(s).Some?
  {
  }
}
