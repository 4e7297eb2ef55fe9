/** BaseClinicalParser._parse_vitals: from document text to a partial feature
    dictionary. The regular expressions are not modelled; each becomes an
    abstract extractor that yields its captured numbers in match order, so that
    what is modelled is how the candidates are converted, range-filtered and
    reduced (src/ingestion/parsers.py:9-53). */
module Parsers {
  import opened Common
  import opened Values

  /** The regex searches the parser runs on the text.
      Temperatures come as tenths of a degree: `\d{2,3}\.?\d?` has at most one
      decimal digit, so "104.4" is 1044 and "98" is 980. The other extractors
      yield the integer group of their pattern. wordFound(kw, text) is
      re.search(r'\b' + kw + r'\b', text, re.I) succeeding. */
  datatype Patterns = Patterns(
    temperatureLabelled: string -> seq<nat>,
    temperatureDegree: string -> seq<nat>,
    oxygenSaturation: string -> seq<nat>,
    heartRate: string -> seq<nat>,
    bloodPressure: string -> seq<nat>,
    age: string -> seq<nat>,
    wordFound: (string, string) -> bool)

  /** Plausible ranges, in the units the candidates come in. */
  const TempLow := 300    // 30.0 degrees C, in tenths
  const TempHigh := 450   // 45.0 degrees C, in tenths
  const SpO2Low := 50
  const SpO2High := 100
  const HrLow := 30
  const HrHigh := 250
  const SbpLow := 50
  const SbpHigh := 300
  const AgeHigh := 120

  const ChronicKeywords: seq<string> :=
    ["hypertension", "asthma", "diabetes", "psoriatic arthritis",
     "coronary artery disease", "cad", "copd", "cancer", "heart failure"]

  /** The Fahrenheit heuristic on one candidate of t tenths: above 50 degrees it
      is read as Fahrenheit and becomes round((v - 32) * 5 / 9, 1); otherwise it
      is kept. The result is the integer nearest to 5(t - 320)/9 tenths, which
      is never exactly half-way, so Python's rounding cannot differ. */
  function ToCelsius(t: nat): (c: int)
    ensures t <= 500 ==> c == t
    ensures t > 500 ==> -9 < 18 * c - 10 * (t - 320) < 9
  {
    if t > 500 then
      var n := 10 * (t - 320) + 9;
      var q := n / 18;
      assert n == 18 * q + n % 18 && 0 <= n % 18 < 18;
      assert n % 18 == 2 * (5 * (t - 320) - 9 * q + 4) + 1;
      q
    else t
  }

  lemma FahrenheitExample()
    ensures ToCelsius(1044) == 402
  {
  }

  function Celsius(s: seq<nat>): (r: seq<int>)
    ensures |r| == |s| && forall i :: 0 <= i < |s| ==> r[i] == ToCelsius(s[i])
  {
    seq(|s|, i requires 0 <= i < |s| => ToCelsius(s[i]))
  }

  /** The list comprehension [x for x in s if lo <= x <= hi]. */
  function Within(s: seq<int>, lo: int, hi: int): (r: seq<int>)
    ensures forall x :: x in r <==> x in s && lo <= x <= hi
    ensures |r| <= |s|
  {
    if s == [] then []
    else if lo <= s[0] <= hi then [s[0]] + Within(s[1..], lo, hi)
    else Within(s[1..], lo, hi)
  }

  function Max(s: seq<int>): (m: int)
    requires |s| > 0
    ensures m in s && forall x :: x in s ==> x <= m
  {
    if |s| == 1 then s[0]
    else
      var rest := Max(s[1..]);
      assert forall x :: x in s ==> x == s[0] || x in s[1..];
      if s[0] >= rest then s[0] else rest
  }

  function Min(s: seq<int>): (m: int)
    requires |s| > 0
    ensures m in s && forall x :: x in s ==> m <= x
  {
    if |s| == 1 then s[0]
    else
      var rest := Min(s[1..]);
      assert forall x :: x in s ==> x == s[0] || x in s[1..];
      if s[0] <= rest then s[0] else rest
  }

  /** sum(1 for kw in kws if found(kw)). */
  function CountFound(kws: seq<string>, text: string, p: Patterns): (n: nat)
    ensures n <= |kws|
  {
    if kws == [] then 0
    else (if p.wordFound(kws[0], text) then 1 else 0) + CountFound(kws[1..], text, p)
  }

  function TemperatureCandidates(text: string, p: Patterns): seq<int> {
    Celsius(p.temperatureLabelled(text) + p.temperatureDegree(text))
  }

  /** body_temperature: the highest converted candidate in [30.0, 45.0]. */
  function TemperatureReading(text: string, p: Patterns): (r: Option<int>)
    ensures r.Some? <==> exists c :: c in TemperatureCandidates(text, p) && TempLow <= c <= TempHigh
    ensures r.Some? ==> r.value in TemperatureCandidates(text, p) && TempLow <= r.value <= TempHigh
    ensures r.Some? ==> forall c :: c in TemperatureCandidates(text, p) && TempLow <= c <= TempHigh ==> c <= r.value
  {
    var valid := Within(TemperatureCandidates(text, p), TempLow, TempHigh);
    if |valid| > 0 then Some(Max(valid)) else None
  }

  /** oxygen_saturation: the lowest candidate in [50, 100]. */
  function OxygenReading(text: string, p: Patterns): (r: Option<int>)
    ensures r.Some? <==> exists c :: c in p.oxygenSaturation(text) && SpO2Low <= c <= SpO2High
    ensures r.Some? ==> r.value in p.oxygenSaturation(text) && SpO2Low <= r.value <= SpO2High
    ensures r.Some? ==> forall c :: c in p.oxygenSaturation(text) && SpO2Low <= c <= SpO2High ==> r.value <= c
  {
    var valid := Within(p.oxygenSaturation(text), SpO2Low, SpO2High);
    if |valid| > 0 then Some(Min(valid)) else None
  }

  /** heart_rate: the highest candidate in [30, 250]. */
  function HeartRateReading(text: string, p: Patterns): (r: Option<int>)
    ensures r.Some? <==> exists c :: c in p.heartRate(text) && HrLow <= c <= HrHigh
    ensures r.Some? ==> r.value in p.heartRate(text) && HrLow <= r.value <= HrHigh
    ensures r.Some? ==> forall c :: c in p.heartRate(text) && HrLow <= c <= HrHigh ==> c <= r.value
  {
    var valid := Within(p.heartRate(text), HrLow, HrHigh);
    if |valid| > 0 then Some(Max(valid)) else None
  }

  /** systolic_blood_pressure: the highest candidate in [50, 300]. */
  function SystolicReading(text: string, p: Patterns): (r: Option<int>)
    ensures r.Some? <==> exists c :: c in p.bloodPressure(text) && SbpLow <= c <= SbpHigh
    ensures r.Some? ==> r.value in p.bloodPressure(text) && SbpLow <= r.value <= SbpHigh
    ensures r.Some? ==> forall c :: c in p.bloodPressure(text) && SbpLow <= c <= SbpHigh ==> c <= r.value
  {
    var valid := Within(p.bloodPressure(text), SbpLow, SbpHigh);
    if |valid| > 0 then Some(Max(valid)) else None
  }

  /** age: re.search finds only the first match; it is kept when at most 120. */
  function AgeReading(text: string, p: Patterns): (r: Option<int>)
    ensures r.Some? <==> |p.age(text)| > 0 && p.age(text)[0] <= AgeHigh
    ensures r.Some? ==> r.value == p.age(text)[0]
  {
    var ages := p.age(text);
    if |ages| > 0 && ages[0] <= AgeHigh then Some(ages[0]) else None
  }

  /** chronic_disease_count: how many vocabulary keywords occur, when any do. */
  function ChronicReading(text: string, p: Patterns): (r: Option<int>)
    ensures r.Some? ==> 1 <= r.value <= |ChronicKeywords|
  {
    var n := CountFound(ChronicKeywords, text, p);
    if n > 0 then Some(n) else None
  }

  /** The value _parse_vitals stores under key k, if it stores one. */
  function Reading(k: Key, text: string, p: Patterns): Option<Value> {
    match k
    case BodyTemperature => Tenths(TemperatureReading(text, p))
    case OxygenSaturation => Units(OxygenReading(text, p))
    case HeartRate => Units(HeartRateReading(text, p))
    case SystolicBloodPressure => Units(SystolicReading(text, p))
    case Age => Units(AgeReading(text, p))
    case ChronicDiseaseCount => Units(ChronicReading(text, p))
    case RawText => Some(Text(text))
    case _ => None
  }

  function Tenths(o: Option<int>): Option<Value> {
    if o.Some? then Some(Num(o.value)) else None
  }

  function Units(o: Option<int>): Option<Value> {
    if o.Some? then Some(Whole(o.value)) else None
  }

  const ParsedKeys: set<Key> :=
    {BodyTemperature, OxygenSaturation, HeartRate, SystolicBloodPressure, Age, ChronicDiseaseCount, RawText}

  /** The dictionary _parse_vitals returns: a key for every reading found, and
      raw_text always. */
  function ParseVitals(text: string, p: Patterns): (v: Record)
    ensures RawText in v && v[RawText] == Text(text)
    ensures forall k :: k in v <==> Reading(k, text, p).Some?
    ensures forall k :: k in v ==> v[k] == Reading(k, text, p).value
    ensures ArrivalMode !in v && PainLevel !in v && PreviousErVisits !in v
    ensures Numeric(v)
  {
    map k | k in ParsedKeys && Reading(k, text, p).Some? :: Reading(k, text, p).value
  }

  /** Every vital present lies in its plausible range (in tenths). */
  predicate Plausible(v: Record) {
    && (NumAt(v, BodyTemperature) ==> TempLow <= v[BodyTemperature].tenths <= TempHigh)
    && (NumAt(v, OxygenSaturation) ==> 10 * SpO2Low <= v[OxygenSaturation].tenths <= 10 * SpO2High)
    && (NumAt(v, HeartRate) ==> 10 * HrLow <= v[HeartRate].tenths <= 10 * HrHigh)
    && (NumAt(v, SystolicBloodPressure) ==> 10 * SbpLow <= v[SystolicBloodPressure].tenths <= 10 * SbpHigh)
    && (NumAt(v, Age) ==> 0 <= v[Age].tenths <= 10 * AgeHigh)
    && (NumAt(v, ChronicDiseaseCount) ==> 10 <= v[ChronicDiseaseCount].tenths <= 10 * |ChronicKeywords|)
  }

  lemma ParsedIsPlausible(text: string, p: Patterns)
    ensures Plausible(ParseVitals(text, p))
  {
  }

  /** The age comes from the first match alone: a first match above 120 leaves
      the key out whatever later matches there are. */
  lemma AgeFirstMatchOnly(text: string, p: Patterns)
    requires |p.age(text)| > 0 && p.age(text)[0] > AgeHigh
    ensures Age !in ParseVitals(text, p)
  {
  }

  predicate Distinct(kws: seq<string>) {
    forall i, j :: 0 <= i < j < |kws| ==> kws[i] != kws[j]
  }

  function FoundSet(kws: seq<string>, text: string, p: Patterns): set<string> {
    set k | k in kws && p.wordFound(k, text)
  }

  /** Over a list without repeats the sum counts distinct keywords found. */
  lemma {:induction false} CountIsDistinctFound(kws: seq<string>, text: string, p: Patterns)
    requires Distinct(kws)
    ensures CountFound(kws, text, p) == |FoundSet(kws, text, p)|
  {
    if kws != [] {
      var rest := kws[1..];
      assert Distinct(rest);
      CountIsDistinctFound(rest, text, p);
      assert kws[0] !in rest;
      var head := if p.wordFound(kws[0], text) then {kws[0]} else {};
      assert FoundSet(kws, text, p) == head + FoundSet(rest, text, p);
      assert head !! FoundSet(rest, text, p);
    }
  }

  lemma ChronicKeywordsDistinct()
    ensures Distinct(ChronicKeywords)
  {
  }

  /** chronic_disease_count, when present, is the number of distinct condition
      names found; it is absent exactly when none is found. */
  lemma ChronicCount(text: string, p: Patterns)
    ensures ChronicDiseaseCount in ParseVitals(text, p) <==> |FoundSet(ChronicKeywords, text, p)| > 0
    ensures ChronicDiseaseCount in ParseVitals(text, p) ==>
              ParseVitals(text, p)[ChronicDiseaseCount] == Whole(|FoundSet(ChronicKeywords, text, p)|)
  {
    ChronicKeywordsDistinct();
    CountIsDistinctFound(ChronicKeywords, text, p);
  }

  /** Text in which no pattern matches yields raw_text and nothing else. */
  lemma NothingRecognised(text: string, p: Patterns)
    requires p.temperatureLabelled(text) == [] && p.temperatureDegree(text) == []
    requires p.oxygenSaturation(text) == [] && p.heartRate(text) == []
    requires p.bloodPressure(text) == [] && p.age(text) == []
    requires forall kw :: kw in ChronicKeywords ==> !p.wordFound(kw, text)
    ensures ParseVitals(text, p) == map[RawText := Text(text)]
  {
    ChronicKeywordsDistinct();
    CountIsDistinctFound(ChronicKeywords, text, p);
    assert FoundSet(ChronicKeywords, text, p) == {};
    var v := ParseVitals(text, p);
    assert v.Keys == {RawText};
  }
}
