/** The feature vocabulary shared by the parser, the rule engine, the explainer
    and the session bookkeeping: the dictionary keys the pipeline passes around,
    the values stored under them, and the classifier's fixed column order. */
module Values {
  import opened Common

  /** The keys of a feature dictionary: the nine model columns and raw_text. */
  datatype Key =
    | Age | HeartRate | SystolicBloodPressure | OxygenSaturation | BodyTemperature
    | PainLevel | ChronicDiseaseCount | PreviousErVisits | ArrivalMode | RawText

  /** The dictionary key as the Python code spells it. */
  function Name(k: Key): (s: string)
    ensures |s| > 0 && '\n' !in s
  {
    match k
    case Age => "age"
    case HeartRate => "heart_rate"
    case SystolicBloodPressure => "systolic_blood_pressure"
    case OxygenSaturation => "oxygen_saturation"
    case BodyTemperature => "body_temperature"
    case PainLevel => "pain_level"
    case ChronicDiseaseCount => "chronic_disease_count"
    case PreviousErVisits => "previous_er_visits"
    case ArrivalMode => "arrival_mode"
    case RawText => "raw_text"
  }

  /** A stored value. Every number is kept in integer tenths of its unit, so a
      heart rate of 110 is Num(1100) and a temperature of 40.2 is Num(402);
      strings (arrival mode, raw text) are Text. */
  datatype Value = Num(tenths: int) | Text(text: string)

  /** A whole-unit number as a stored value. */
  function Whole(n: int): (v: Value)
    ensures v.Num? && v.tenths == 10 * n
  {
    Num(10 * n)
  }

  /** A Python feature dictionary. */
  type Record = map<Key, Value>

  predicate IsColumn(k: Key) {
    k != RawText
  }

  /** The column order the classifier was fitted with. */
  const Columns: seq<Key> :=
    [Age, HeartRate, SystolicBloodPressure, OxygenSaturation, BodyTemperature,
     PainLevel, ChronicDiseaseCount, PreviousErVisits, ArrivalMode]

  /** The position of a column in Columns. */
  function ColumnIndex(k: Key): (i: nat)
    requires IsColumn(k)
    ensures i < |Columns| && Columns[i] == k
  {
    match k
    case Age => 0
    case HeartRate => 1
    case SystolicBloodPressure => 2
    case OxygenSaturation => 3
    case BodyTemperature => 4
    case PainLevel => 5
    case ChronicDiseaseCount => 6
    case PreviousErVisits => 7
    case ArrivalMode => 8
  }

  /** Columns lists every column exactly once. */
  lemma ColumnsAreTheColumns()
    ensures forall k :: k in Columns <==> IsColumn(k)
    ensures forall i :: 0 <= i < |Columns| ==> ColumnIndex(Columns[i]) == i
  {
    forall k | IsColumn(k) ensures k in Columns {
      assert Columns[ColumnIndex(k)] == k;
    }
  }

  /** A key holding a number (Python would raise TypeError comparing anything else). */
  predicate NumAt(r: Record, k: Key) {
    k in r && r[k].Num?
  }

  /** r.get(k, default) for a numeric key. */
  function NumOr(r: Record, k: Key, default: int): int
    requires k in r ==> r[k].Num?
  {
    if k in r then r[k].tenths else default
  }

  /** Every key other than arrival_mode and raw_text holds a number. */
  predicate Numeric(r: Record) {
    forall k :: k in r && k != ArrivalMode && k != RawText ==> r[k].Num?
  }

  /** All nine model columns are present. */
  predicate HasColumns(r: Record) {
    forall k :: IsColumn(k) ==> k in r
  }

  /** One cell of the classifier's input row: a feature as it stands, or the
      integer code the label encoder gave to the arrival mode. */
  datatype Cell = Feature(value: Value) | Encoded(code: int)

  /** A class-conditional attribution vector: one raw contribution per column. */
  type AttributionVector = s: seq<real> | |s| == 9
    witness [0.0, 0.0, 0.0, 0.0, 0.0, 0.0, 0.0, 0.0, 0.0]

  /** The pickled artifacts, as the functions they provide: the classifier's
      predict, the tree explainer's attribution for a given class, and the label
      encoder's transform (None for a category it was not fitted on, where
      LabelEncoder.transform raises). */
  datatype Artifacts = Artifacts(
    predict: seq<Cell> -> int,
    attribute: (seq<Cell>, int) -> AttributionVector,
    encode: string -> Option<int>)

  /** encoder.transform on the arrival_mode cell; a number was never a fitted label. */
  function EncodeArrival(v: Value, encode: string -> Option<int>): Option<int> {
    if v.Text? then encode(v.text) else None
  }

  /** The classifier's input row: df[cols] with only arrival_mode put through the
      encoder. None when the encoder rejects the arrival mode. */
  function ModelInput(r: Record, encode: string -> Option<int>): (x: Option<seq<Cell>>)
    requires HasColumns(r)
    ensures x.Some? <==> EncodeArrival(r[ArrivalMode], encode).Some?
    ensures x.Some? ==> |x.value| == |Columns|
    ensures x.Some? ==> forall i :: 0 <= i < |Columns| && Columns[i] != ArrivalMode ==>
                          x.value[i] == Feature(r[Columns[i]])
    ensures x.Some? ==> x.value[ColumnIndex(ArrivalMode)] == Encoded(EncodeArrival(r[ArrivalMode], encode).value)
  {
    match EncodeArrival(r[ArrivalMode], encode)
    case None => None
    case Some(code) =>
      Some([Feature(r[Age]), Feature(r[HeartRate]), Feature(r[SystolicBloodPressure]),
            Feature(r[OxygenSaturation]), Feature(r[BodyTemperature]), Feature(r[PainLevel]),
            Feature(r[ChronicDiseaseCount]), Feature(r[PreviousErVisits]), Encoded(code)])
  }
}
