/** The bookkeeping of the Streamlit script (src/ui/app.py): filling defaults
    into the parsed features, the trend and deltas against the patient's
    previous record, the per-patient history, the queue keyed by patient id,
    and the order and colour of the cards on the live board. The session is a
    class whose two fields are Streamlit's session_state.history and
    session_state.triage_queue. */
module App {
  import opened Common
  import opened Values
  import opened StableSort
  import opened Explain
  import Parsers
  import MedGemma

  datatype Trend = Stable | Worsening

  /** The queue entry's deltas dictionary, in tenths; None where not computed. */
  datatype Deltas = Deltas(spo2: Option<int>, temp: Option<int>, hr: Option<int>)

  const NoDeltas := Deltas(None, None, None)

  /** The trend and deltas computed for an intake. */
  datatype Assessment = Assessment(trend: Trend, deltas: Deltas)

  datatype HistoryEntry = HistoryEntry(features: Record, triageLevel: int)

  /** A queue entry; bio holds the three fields of the LLM narrative. */
  datatype QueueEntry = QueueEntry(
    id: string, level: int, trend: Trend, features: Record, shap: string,
    deltas: Deltas, bio: MedGemma.Narrative)

  type History = map<string, seq<HistoryEntry>>

  // ---------------------------------------------------------------------------
  // Default filling (lines 78-81).

  /** The four keys the batch path fills in when the parser did not set them. */
  const Fill: Record := map[
    PainLevel := Num(50), ArrivalMode := Text("walk_in"),
    ChronicDiseaseCount := Num(0), PreviousErVisits := Num(0)]

  /** features after lines 78-81: every key the parser set is kept as it is,
      and each of the four keys it did not set takes its default. */
  function WithDefaults(f: Record): (r: Record)
    ensures r.Keys == f.Keys + Fill.Keys
    ensures forall k :: k in f ==> r[k] == f[k]
    ensures forall k :: k in Fill && k !in f ==> r[k] == Fill[k]
    ensures Numeric(f) ==> Numeric(r)
  {
    Fill + f
  }

  /** features.get(k, d). */
  function Get(f: Record, k: Key, d: Value): Value {
    if k in f then f[k] else d
  }

  /** Lines 78-81, one assignment after the other. */
  method FillDefaults(features: Record) returns (filled: Record)
    ensures filled == WithDefaults(features)
  {
    filled := features;
    filled := filled[PainLevel := Get(filled, PainLevel, Num(50))];
    filled := filled[ArrivalMode := Get(filled, ArrivalMode, Text("walk_in"))];
    filled := filled[ChronicDiseaseCount := Get(filled, ChronicDiseaseCount, Num(0))];
    filled := filled[PreviousErVisits := Get(filled, PreviousErVisits, Num(0))];
    FillInOrder(features);
  }

  /** The four assignments in a row fill exactly the four defaults. */
  lemma FillInOrder(f: Record)
    ensures var g1 := f[PainLevel := Get(f, PainLevel, Num(50))];
      var g2 := g1[ArrivalMode := Get(g1, ArrivalMode, Text("walk_in"))];
      var g3 := g2[ChronicDiseaseCount := Get(g2, ChronicDiseaseCount, Num(0))];
      g3[PreviousErVisits := Get(g3, PreviousErVisits, Num(0))] == WithDefaults(f)
  {
    var g1 := f[PainLevel := Get(f, PainLevel, Num(50))];
    var g2 := g1[ArrivalMode := Get(g1, ArrivalMode, Text("walk_in"))];
    var g3 := g2[ChronicDiseaseCount := Get(g2, ChronicDiseaseCount, Num(0))];
    var g4 := g3[PreviousErVisits := Get(g3, PreviousErVisits, Num(0))];
    assert g4.Keys == f.Keys + Fill.Keys;
    forall k | k in g4 ensures g4[k] == WithDefaults(f)[k] {
      if k in f {
        assert g4[k] == f[k];
      }
    }
  }

  /** Filling twice changes nothing more. */
  lemma DefaultsIdempotent(f: Record)
    ensures WithDefaults(WithDefaults(f)) == WithDefaults(f)
  {
  }

  // ---------------------------------------------------------------------------
  // Trend and deltas (lines 94-108 and 171-180).

  /** history.get(id, []). */
  function Prior(h: History, id: string): seq<HistoryEntry> {
    if id in h then h[id] else []
  }

  predicate NumericHistory(entries: seq<HistoryEntry>) {
    forall i :: 0 <= i < |entries| ==> Numeric(entries[i].features)
  }

  /** A delta of the batch path: set only when both records hold the vital. */
  function Change(cur: Record, prev: Record, k: Key): (d: Option<int>)
    requires Numeric(cur) && Numeric(prev) && k != ArrivalMode && k != RawText
    ensures d.Some? <==> k in cur && k in prev
    ensures d.Some? ==> d.value == cur[k].tenths - prev[k].tenths
  {
    if k in cur && k in prev then Some(cur[k].tenths - prev[k].tenths) else None
  }

  /** The batch path's comparison with the patient's last record: nothing
      without history; otherwise the three deltas, and worsening exactly when
      SpO2 fell or the temperature rose (a missing reading counts as 100% and
      37.0 degrees). */
  function BatchAssessment(cur: Record, prior: seq<HistoryEntry>): (a: Assessment)
    requires Numeric(cur) && NumericHistory(prior)
    ensures prior == [] ==> a == Assessment(Trend.Stable, NoDeltas)
    ensures prior != [] ==>
      var prev := prior[|prior| - 1].features;
      && a.deltas == Deltas(Change(cur, prev, OxygenSaturation), Change(cur, prev, BodyTemperature), Change(cur, prev, HeartRate))
      && (a.trend == Worsening <==>
            NumOr(cur, OxygenSaturation, 1000) < NumOr(prev, OxygenSaturation, 1000) ||
            NumOr(cur, BodyTemperature, 370) > NumOr(prev, BodyTemperature, 370))
  {
    if prior == [] then Assessment(Trend.Stable, NoDeltas)
    else
      var prev := prior[|prior| - 1].features;
      assert Numeric(prev);
      var worse := NumOr(cur, OxygenSaturation, 1000) < NumOr(prev, OxygenSaturation, 1000) ||
                   NumOr(cur, BodyTemperature, 370) > NumOr(prev, BodyTemperature, 370);
      Assessment(if worse then Worsening else Trend.Stable,
                 Deltas(Change(cur, prev, OxygenSaturation), Change(cur, prev, BodyTemperature), Change(cur, prev, HeartRate)))
  }

  /** Lines 94-108: the trend variable and the deltas dictionary, updated in place. */
  method BatchTrendAndDeltas(features: Record, historyList: seq<HistoryEntry>) returns (trend: Trend, deltas: Deltas)
    requires Numeric(features) && NumericHistory(historyList)
    ensures Assessment(trend, deltas) == BatchAssessment(features, historyList)
  {
    trend := Trend.Stable;
    deltas := NoDeltas;
    if |historyList| > 0 {
      var prev := historyList[|historyList| - 1].features;
      assert Numeric(prev);
      if OxygenSaturation in features && OxygenSaturation in prev {
        deltas := deltas.(spo2 := Some(features[OxygenSaturation].tenths - prev[OxygenSaturation].tenths));
      }
      if BodyTemperature in features && BodyTemperature in prev {
        deltas := deltas.(temp := Some(features[BodyTemperature].tenths - prev[BodyTemperature].tenths));
      }
      if HeartRate in features && HeartRate in prev {
        deltas := deltas.(hr := Some(features[HeartRate].tenths - prev[HeartRate].tenths));
      }
      if NumOr(features, OxygenSaturation, 1000) < NumOr(prev, OxygenSaturation, 1000) ||
         NumOr(features, BodyTemperature, 370) > NumOr(prev, BodyTemperature, 370) {
        trend := Worsening;
      }
    }
  }

  /** A patient seen again with unchanged vitals is stable, and every delta that
      is set is zero. */
  lemma BatchUnchangedIsStable(cur: Record, prior: seq<HistoryEntry>)
    requires Numeric(cur) && NumericHistory(prior) && prior != []
    requires prior[|prior| - 1].features == cur
    ensures BatchAssessment(cur, prior).trend == Trend.Stable
    ensures var d := BatchAssessment(cur, prior).deltas;
      d.spo2 in {None, Some(0)} && d.temp in {None, Some(0)} && d.hr in {None, Some(0)}
  {
  }

  /** Only the two readings that flag a deterioration can make the batch trend
      worsening: the heart rate, however high, never does. */
  lemma BatchTrendIgnoresHeartRate(cur: Record, prior: seq<HistoryEntry>, hr: int)
    requires Numeric(cur) && NumericHistory(prior)
    ensures BatchAssessment(cur[HeartRate := Num(hr)], prior).trend == BatchAssessment(cur, prior).trend
  {
  }

  /** The manual path: the form's SpO2 and heart rate are whole numbers and its
      temperature is given in tenths. Deltas are always computed against the
      last record with defaults 100%, 37.0 degrees and 80 bpm; only a fall in
      SpO2 worsens the trend. */
  function ManualAssessment(spo2: int, tempTenths: int, hr: int, prior: seq<HistoryEntry>): (a: Assessment)
    requires NumericHistory(prior)
    ensures prior == [] ==> a == Assessment(Trend.Stable, NoDeltas)
    ensures prior != [] ==>
      var prev := prior[|prior| - 1].features;
      && a.deltas == Deltas(Some(10 * spo2 - NumOr(prev, OxygenSaturation, 1000)),
                            Some(tempTenths - NumOr(prev, BodyTemperature, 370)),
                            Some(10 * hr - NumOr(prev, HeartRate, 800)))
      && (a.trend == Worsening <==> 10 * spo2 < NumOr(prev, OxygenSaturation, 1000))
  {
    if prior == [] then Assessment(Trend.Stable, NoDeltas)
    else
      var prev := prior[|prior| - 1].features;
      assert Numeric(prev);
      Assessment(if 10 * spo2 < NumOr(prev, OxygenSaturation, 1000) then Worsening else Trend.Stable,
                 Deltas(Some(10 * spo2 - NumOr(prev, OxygenSaturation, 1000)),
                        Some(tempTenths - NumOr(prev, BodyTemperature, 370)),
                        Some(10 * hr - NumOr(prev, HeartRate, 800))))
  }

  /** Lines 171-180. */
  method ManualTrendAndDeltas(spo2: int, tempTenths: int, hr: int, historyList: seq<HistoryEntry>)
    returns (trend: Trend, deltas: Deltas)
    requires NumericHistory(historyList)
    ensures Assessment(trend, deltas) == ManualAssessment(spo2, tempTenths, hr, historyList)
  {
    trend := Trend.Stable;
    deltas := NoDeltas;
    if |historyList| > 0 {
      var prev := historyList[|historyList| - 1].features;
      assert Numeric(prev);
      deltas := deltas.(spo2 := Some(10 * spo2 - NumOr(prev, OxygenSaturation, 1000)));
      deltas := deltas.(temp := Some(tempTenths - NumOr(prev, BodyTemperature, 370)));
      deltas := deltas.(hr := Some(10 * hr - NumOr(prev, HeartRate, 800)));
      if 10 * spo2 < NumOr(prev, OxygenSaturation, 1000) {
        trend := Worsening;
      }
    }
  }

  /** The manual path ignores the temperature for the trend: a fever alone
      never flags a deterioration there. */
  lemma ManualTrendIgnoresTemperature(spo2: int, t1: int, t2: int, hr: int, prior: seq<HistoryEntry>)
    requires NumericHistory(prior)
    ensures ManualAssessment(spo2, t1, hr, prior).trend == ManualAssessment(spo2, t2, hr, prior).trend
  {
  }

  // ---------------------------------------------------------------------------
  // The queue (lines 121-122 and 193-194).

  /** [q for q in triage_queue if q['id'] != id]. */
  function WithoutId(q: seq<QueueEntry>, id: string): (r: seq<QueueEntry>)
    ensures forall e :: e in r <==> e in q && e.id != id
    ensures |r| <= |q|
  {
    if q == [] then []
    else
      assert q == [q[0]] + q[1..];
      (if q[0].id == id then [] else [q[0]]) + WithoutId(q[1..], id)
  }

  lemma WithoutIdCons(x: QueueEntry, q: seq<QueueEntry>, id: string)
    ensures WithoutId([x] + q, id) == (if x.id == id then [] else [x]) + WithoutId(q, id)
  {
    assert ([x] + q)[0] == x && ([x] + q)[1..] == q;
  }

  /** Concatenation regrouped, as a separate step to keep the proof below small. */
  lemma Regroup(a: seq<QueueEntry>, b: seq<QueueEntry>, c: seq<QueueEntry>)
    ensures a + (b + c) == (a + b) + c
  {
  }

  /** The filter distributes over concatenation, so it keeps the relative order
      of the entries it keeps. */
  lemma {:induction false} WithoutIdAppend(q1: seq<QueueEntry>, q2: seq<QueueEntry>, id: string)
    ensures WithoutId(q1 + q2, id) == WithoutId(q1, id) + WithoutId(q2, id)
    decreases |q1|
  {
    if q1 == [] {
      assert q1 + q2 == q2;
    } else {
      var x, t := q1[0], q1[1..];
      assert q1 == [x] + t;
      assert q1 + q2 == [x] + (t + q2);
      WithoutIdCons(x, t + q2, id);
      WithoutIdCons(x, t, id);
      WithoutIdAppend(t, q2, id);
      Regroup(if x.id == id then [] else [x], WithoutId(t, id), WithoutId(q2, id));
    }
  }

  lemma {:induction false} WithoutIdTwice(q: seq<QueueEntry>, id: string)
    ensures WithoutId(WithoutId(q, id), id) == WithoutId(q, id)
    decreases |q|
  {
    if q != [] {
      var head := if q[0].id == id then [] else [q[0]];
      WithoutIdAppend(head, WithoutId(q[1..], id), id);
      WithoutIdTwice(q[1..], id);
      if head != [] {
        assert head[1..] == [];
      }
    }
  }

  predicate DistinctIds(q: seq<QueueEntry>) {
    forall i, j :: 0 <= i < j < |q| ==> q[i].id != q[j].id
  }

  lemma {:induction false} WithoutIdKeepsDistinct(q: seq<QueueEntry>, id: string)
    requires DistinctIds(q)
    ensures DistinctIds(WithoutId(q, id))
    decreases |q|
  {
    if q != [] {
      var rest := WithoutId(q[1..], id);
      assert DistinctIds(q[1..]) by {
        forall i, j | 0 <= i < j < |q[1..]| ensures q[1..][i].id != q[1..][j].id {
          assert q[1..][i] == q[i + 1] && q[1..][j] == q[j + 1];
        }
      }
      WithoutIdKeepsDistinct(q[1..], id);
      if q[0].id != id {
        forall e | e in rest ensures e.id != q[0].id {
          var j :| 0 <= j < |q[1..]| && q[1..][j] == e;
          assert q[j + 1] == e;
        }
        forall i, j | 0 <= i < j < |[q[0]] + rest| ensures ([q[0]] + rest)[i].id != ([q[0]] + rest)[j].id {
          if i == 0 {
            assert ([q[0]] + rest)[j] in rest;
          } else {
            assert ([q[0]] + rest)[i] == rest[i - 1] && ([q[0]] + rest)[j] == rest[j - 1];
          }
        }
      } else {
        assert WithoutId(q, id) == rest;
      }
    }
  }

  /** The queue after an upsert. */
  function Upsert(q: seq<QueueEntry>, e: QueueEntry): seq<QueueEntry> {
    WithoutId(q, e.id) + [e]
  }

  /** After an upsert the entry is last and is the only one with its id, and
      apart from it the queue holds the same entries in the same order. */
  lemma UpsertFacts(q: seq<QueueEntry>, e: QueueEntry)
    ensures var r := Upsert(q, e);
      && |r| > 0 && r[|r| - 1] == e
      && (forall i :: 0 <= i < |r| - 1 ==> r[i].id != e.id)
      && WithoutId(r, e.id) == WithoutId(q, e.id)
  {
    var r := Upsert(q, e);
    forall i | 0 <= i < |r| - 1 ensures r[i].id != e.id {
      assert r[i] in WithoutId(q, e.id);
    }
    WithoutIdAppend(WithoutId(q, e.id), [e], e.id);
    WithoutIdTwice(q, e.id);
    assert WithoutId([e], e.id) == [];
  }

  // ---------------------------------------------------------------------------
  // The session state: history and queue, and the invariant they keep.

  datatype SessionState = SessionState(history: History, queue: seq<QueueEntry>)

  /** What lines 110 and 121-122 (182 and 193-194) do with a new entry. */
  function Admitted(st: SessionState, e: QueueEntry): SessionState {
    SessionState(st.history[e.id := Prior(st.history, e.id) + [HistoryEntry(e.features, e.level)]],
                 Upsert(st.queue, e))
  }

  /** The history is append-only: the patient's list grows by exactly the new
      record, at its end; no other patient's list changes, and none is dropped. */
  lemma HistoryAppendOnly(st: SessionState, e: QueueEntry)
    ensures var h := Admitted(st, e).history;
      && h.Keys == st.history.Keys + {e.id}
      && |Prior(h, e.id)| == |Prior(st.history, e.id)| + 1
      && Prior(st.history, e.id) <= Prior(h, e.id)
      && Prior(h, e.id)[|Prior(h, e.id)| - 1] == HistoryEntry(e.features, e.level)
      && forall id :: id != e.id ==> Prior(h, id) == Prior(st.history, id)
  {
  }

  /** Queue ids are distinct; each queued patient has a history whose last
      record is the queued one; every recorded feature set is numeric. */
  predicate Consistent(st: SessionState) {
    && DistinctIds(st.queue)
    && (forall i :: 0 <= i < |st.queue| ==>
          && st.queue[i].id in st.history && |st.history[st.queue[i].id]| > 0
          && st.history[st.queue[i].id][|st.history[st.queue[i].id]| - 1] ==
               HistoryEntry(st.queue[i].features, st.queue[i].level))
    && (forall id :: id in st.history ==> NumericHistory(st.history[id]))
  }

  lemma UpsertKeepsDistinct(q: seq<QueueEntry>, e: QueueEntry)
    requires DistinctIds(q)
    ensures DistinctIds(Upsert(q, e))
  {
    var r := Upsert(q, e);
    var kept := WithoutId(q, e.id);
    WithoutIdKeepsDistinct(q, e.id);
    forall i, j | 0 <= i < j < |r| ensures r[i].id != r[j].id {
      if j == |r| - 1 {
        assert r[i] in kept;
      } else {
        assert r[i] == kept[i] && r[j] == kept[j];
      }
    }
  }

  /** Every queued entry is still the last record of its patient. */
  lemma AdmittedQueueRecorded(st: SessionState, e: QueueEntry)
    requires Consistent(st)
    ensures var r := Admitted(st, e);
      forall i :: 0 <= i < |r.queue| ==>
        && r.queue[i].id in r.history && |r.history[r.queue[i].id]| > 0
        && r.history[r.queue[i].id][|r.history[r.queue[i].id]| - 1] == HistoryEntry(r.queue[i].features, r.queue[i].level)
  {
    var r := Admitted(st, e);
    var kept := WithoutId(st.queue, e.id);
    forall i | 0 <= i < |r.queue|
      ensures r.queue[i].id in r.history && |r.history[r.queue[i].id]| > 0
      ensures r.history[r.queue[i].id][|r.history[r.queue[i].id]| - 1] == HistoryEntry(r.queue[i].features, r.queue[i].level)
    {
      if i < |r.queue| - 1 {
        assert r.queue[i] in kept;
        KeptEntryRecorded(st, e, r.queue[i]);
      }
    }
  }

  lemma KeptEntryRecorded(st: SessionState, e: QueueEntry, x: QueueEntry)
    requires Consistent(st) && x in WithoutId(st.queue, e.id)
    ensures var h := Admitted(st, e).history;
      x.id in h && |h[x.id]| > 0 && h[x.id][|h[x.id]| - 1] == HistoryEntry(x.features, x.level)
  {
    var k :| 0 <= k < |st.queue| && st.queue[k] == x;
  }

  lemma AdmittedHistoryNumeric(st: SessionState, e: QueueEntry)
    requires forall id :: id in st.history ==> NumericHistory(st.history[id])
    requires Numeric(e.features)
    ensures var h := Admitted(st, e).history;
      forall id :: id in h ==> NumericHistory(h[id])
  {
    var h := Admitted(st, e).history;
    var l := h[e.id];
    forall i | 0 <= i < |l| ensures Numeric(l[i].features) {
      if i < |Prior(st.history, e.id)| {
        assert l[i] == Prior(st.history, e.id)[i];
      }
    }
  }

  lemma AdmittedKeepsConsistent(st: SessionState, e: QueueEntry)
    requires Consistent(st) && Numeric(e.features)
    ensures Consistent(Admitted(st, e))
  {
    UpsertKeepsDistinct(st.queue, e);
    AdmittedQueueRecorded(st, e);
    AdmittedHistoryNumeric(st, e);
  }

  // ---------------------------------------------------------------------------
  // One intake: features, explanation, narrative, assessment.

  /** One entry of the drivers string: "feature (direction)". */
  function Driver(f: Factor): string {
    Name(f.feature) + " (" + f.direction + ")"
  }

  /** ", ".join of the drivers. */
  function ShapSummary(top: seq<Factor>): string {
    if top == [] then ""
    else if |top| == 1 then Driver(top[0])
    else Driver(top[0]) + ", " + ShapSummary(top[1..])
  }

  /** Driver labels are single lines, so the drivers string is one line. */
  lemma {:induction false} ShapSummaryOneLine(top: seq<Factor>)
    requires forall i :: 0 <= i < |top| ==> '\n' !in top[i].direction
    ensures '\n' !in ShapSummary(top)
    decreases |top|
  {
    if |top| > 1 {
      ShapSummaryOneLine(top[1..]);
    }
  }

  /** features.get('raw_text', 'No clinical context.'). */
  function NotesOf(f: Record): string {
    if RawText in f && f[RawText].Text? then f[RawText].text else "No clinical context."
  }

  /** The queue entry for a triaged record: the explanation's level, the
      drivers string, the narrative the backend produced for them, and the
      assessment. */
  function EntryFor(id: string, features: Record, ex: Explanation, notes: string,
                    backend: string -> MedGemma.Transport, a: Assessment): QueueEntry
  {
    var shap := ShapSummary(ex.topFactors);
    QueueEntry(id, ex.triageLevel, a.trend, features, shap, a.deltas,
               MedGemma.GetExplanation(ex.triageLevel, shap, notes, backend))
  }

  /** A record uploaded in a batch: the patient id typed for the file and the
      file's extracted text. */
  datatype Upload = Upload(id: string, text: string)

  /** Lines 74-119 for one file: parse, fill defaults, triage, explain, assess.
      Err where process_triage_and_shap raises. */
  function FileIntake(st: SessionState, u: Upload, p: Parsers.Patterns, sel: seq<Key>, art: Artifacts,
                      backend: string -> MedGemma.Transport): (r: Result<QueueEntry, ExplainError>)
    requires Consistent(st)
    ensures r.Ok? ==> r.value.id == u.id && Numeric(r.value.features)
  {
    var features := WithDefaults(Parsers.ParseVitals(u.text, p));
    match TriageAndShap(features, sel, art)
    case Err(e) => Err(e)
    case Ok(ex) =>
      Ok(EntryFor(u.id, features, ex, NotesOf(features), backend, BatchAssessment(features, Prior(st.history, u.id))))
  }

  /** The intake form of the manual tab. The temperature is in tenths. */
  datatype ManualForm = ManualForm(
    age: int, arrivalMode: string, chronic: int, hr: int, sbp: int,
    prevEr: int, spo2: int, tempTenths: int, pain: int)

  /** The raw_text f-string of line 156. */
  function ManualNote(m: ManualForm): string {
    "Patient arrived via " + m.arrivalMode + " complaining of " + IntStr(m.pain) +
    "/10 pain. Vitals: HR " + IntStr(m.hr) + ", SpO2 " + IntStr(m.spo2) + "."
  }

  /** The value the manual form gives a key. */
  function ManualCell(m: ManualForm, k: Key): (v: Value)
    ensures k != ArrivalMode && k != RawText ==> v.Num?
  {
    match k
    case Age => Whole(m.age)
    case ArrivalMode => Text(m.arrivalMode)
    case HeartRate => Whole(m.hr)
    case SystolicBloodPressure => Whole(m.sbp)
    case OxygenSaturation => Whole(m.spo2)
    case BodyTemperature => Num(m.tempTenths)
    case PainLevel => Whole(m.pain)
    case ChronicDiseaseCount => Whole(m.chronic)
    case PreviousErVisits => Whole(m.prevEr)
    case RawText => Text(ManualNote(m))
  }

  /** Every key: the nine columns and raw_text. */
  const AllKeys: set<Key> := {Age, ArrivalMode, HeartRate, SystolicBloodPressure, OxygenSaturation,
                              BodyTemperature, PainLevel, ChronicDiseaseCount, PreviousErVisits, RawText}

  /** manual_features: every column and raw_text, all numbers but the arrival
      mode and the note, each holding the form's value. */
  function ManualFeatures(m: ManualForm): (r: Record)
    ensures Numeric(r) && HasColumns(r) && RawText in r
    ensures r[ArrivalMode] == Text(m.arrivalMode) && r[RawText] == Text(ManualNote(m))
    ensures r[OxygenSaturation] == Whole(m.spo2) && r[HeartRate] == Whole(m.hr)
    ensures r[BodyTemperature] == Num(m.tempTenths)
    ensures r[Age] == Whole(m.age) && r[SystolicBloodPressure] == Whole(m.sbp)
    ensures r[PainLevel] == Whole(m.pain) && r[ChronicDiseaseCount] == Whole(m.chronic)
    ensures r[PreviousErVisits] == Whole(m.prevEr)
  {
    map k | k in AllKeys :: ManualCell(m, k)
  }

  /** Lines 151-191 for a submitted form. */
  function ManualIntake(st: SessionState, id: string, m: ManualForm, sel: seq<Key>, art: Artifacts,
                        backend: string -> MedGemma.Transport): (r: Result<QueueEntry, ExplainError>)
    requires Consistent(st)
    ensures r.Ok? ==> r.value.id == id && Numeric(r.value.features)
  {
    var features := ManualFeatures(m);
    match TriageAndShap(features, sel, art)
    case Err(e) => Err(e)
    case Ok(ex) =>
      Ok(EntryFor(id, features, ex, ManualNote(m), backend, ManualAssessment(m.spo2, m.tempTenths, m.hr, Prior(st.history, id))))
  }

  /** The state after one intake: admitted when triage succeeded, unchanged
      when it raised (the script stops there). */
  function AfterIntake(st: SessionState, r: Result<QueueEntry, ExplainError>): (s: SessionState)
    requires Consistent(st) && (r.Ok? ==> Numeric(r.value.features))
    ensures Consistent(s)
  {
    match r
    case Err(_) => st
    case Ok(e) =>
      AdmittedKeepsConsistent(st, e);
      Admitted(st, e)
  }

  /** What a run of the batch loop leaves: the state, how many files were
      admitted, and the error that ended the run early, if one did. */
  datatype BatchRun = BatchRun(state: SessionState, admitted: nat, failure: Option<ExplainError>)

  /** The batch loop over the files in order: each file is admitted in turn,
      and the first file whose triage raises ends the run, the files after it
      never being read. The failing file is the one after those admitted, and
      it fails against the state they left. */
  function RunFiles(st: SessionState, files: seq<Upload>, p: Parsers.Patterns, sel: seq<Key>, art: Artifacts,
                    backend: string -> MedGemma.Transport): (b: BatchRun)
    requires Consistent(st)
    ensures Consistent(b.state) && b.admitted <= |files|
    ensures b.failure.None? <==> b.admitted == |files|
    decreases |files|
  {
    if files == [] then BatchRun(st, 0, None)
    else
      match FileIntake(st, files[0], p, sel, art, backend)
      case Err(e) => BatchRun(st, 0, Some(e))
      case Ok(e) =>
        AdmittedKeepsConsistent(st, e);
        var rest := RunFiles(Admitted(st, e), files[1..], p, sel, art, backend);
        rest.(admitted := rest.admitted + 1)
  }

  /** A run that failed stopped at the file after those admitted, which
      raised against the state they left. */
  lemma {:induction false} RunFailsAtNextFile(st: SessionState, files: seq<Upload>, p: Parsers.Patterns, sel: seq<Key>,
                                              art: Artifacts, backend: string -> MedGemma.Transport)
    requires Consistent(st)
    ensures var b := RunFiles(st, files, p, sel, art, backend);
      b.failure.Some? ==> FileIntake(b.state, files[b.admitted], p, sel, art, backend) == Err(b.failure.value)
    decreases |files|
  {
    if files != [] {
      var r := FileIntake(st, files[0], p, sel, art, backend);
      if r.Ok? {
        AdmittedKeepsConsistent(st, r.value);
        RunFailsAtNextFile(Admitted(st, r.value), files[1..], p, sel, art, backend);
        var rest := RunFiles(Admitted(st, r.value), files[1..], p, sel, art, backend);
        if rest.failure.Some? {
          assert files[1..][rest.admitted] == files[rest.admitted + 1];
        }
      }
    }
  }

  /** The batch tab never reads an arrival mode, so every uploaded record
      reaches the encoder as "walk_in", whatever the selection. */
  lemma UploadArrivesWalkingIn(u: Upload, p: Parsers.Patterns, sel: seq<Key>)
    ensures Completed(WithDefaults(Parsers.ParseVitals(u.text, p)), sel)[ArrivalMode] == Text("walk_in")
  {
  }

  /** Whether a file's triage raises depends only on the encoder's answer for
      "walk_in", not on the file or the session. */
  lemma FileOutcomeFixed(st: SessionState, u: Upload, p: Parsers.Patterns, sel: seq<Key>, art: Artifacts,
                         backend: string -> MedGemma.Transport)
    requires Consistent(st)
    ensures FileIntake(st, u, p, sel, art, backend).Ok? <==> EncodeArrival(Text("walk_in"), art.encode).Some?
  {
    UploadArrivesWalkingIn(u, p, sel);
  }

  /** Hence a batch fails exactly when it has a file and the encoder rejects
      "walk_in", and then it fails at its first file, admitting nothing. */
  lemma {:induction false} BatchAllOrNothing(st: SessionState, files: seq<Upload>, p: Parsers.Patterns,
                                             sel: seq<Key>, art: Artifacts, backend: string -> MedGemma.Transport)
    requires Consistent(st)
    ensures var b := RunFiles(st, files, p, sel, art, backend);
      && (b.failure.Some? <==> files != [] && EncodeArrival(Text("walk_in"), art.encode).None?)
      && (b.failure.Some? ==> b.admitted == 0 && b.state == st)
    decreases |files|
  {
    if files != [] {
      var r := FileIntake(st, files[0], p, sel, art, backend);
      FileOutcomeFixed(st, files[0], p, sel, art, backend);
      if r.Ok? {
        AdmittedKeepsConsistent(st, r.value);
        BatchAllOrNothing(Admitted(st, r.value), files[1..], p, sel, art, backend);
      }
    }
  }

  /** One intake never removes a record from a patient's history. */
  lemma IntakeHistoryGrows(st: SessionState, r: Result<QueueEntry, ExplainError>, id: string)
    requires Consistent(st) && (r.Ok? ==> Numeric(r.value.features))
    ensures Prior(st.history, id) <= Prior(AfterIntake(st, r).history, id)
    ensures id in st.history ==> id in AfterIntake(st, r).history
  {
    if r.Ok? {
      HistoryAppendOnly(st, r.value);
    }
  }

  /** Across a batch no record is ever removed from a patient's history. */
  lemma {:induction false} BatchHistoryOnlyGrows(st: SessionState, files: seq<Upload>, p: Parsers.Patterns,
                                                 sel: seq<Key>, art: Artifacts, backend: string -> MedGemma.Transport, id: string)
    requires Consistent(st)
    ensures Prior(st.history, id) <= Prior(RunFiles(st, files, p, sel, art, backend).state.history, id)
    ensures id in st.history ==> id in RunFiles(st, files, p, sel, art, backend).state.history
    decreases |files|
  {
    if files != [] {
      var r := FileIntake(st, files[0], p, sel, art, backend);
      if r.Ok? {
        AdmittedKeepsConsistent(st, r.value);
        IntakeHistoryGrows(st, r, id);
        BatchHistoryOnlyGrows(Admitted(st, r.value), files[1..], p, sel, art, backend, id);
      }
    }
  }

  /** The prompt sent for an intake ends with the patient-data block: the
      level, the drivers and the flattened notes, each on its own line. */
  lemma IntakePromptEndsWithPatientData(features: Record, sel: seq<Key>, art: Artifacts, notes: string)
    requires TriageAndShap(features, sel, art).Ok?
    ensures var ex := TriageAndShap(features, sel, art).value;
      var shap := ShapSummary(ex.topFactors);
      var lines := MedGemma.Split(MedGemma.Prompt(ex.triageLevel, shap, MedGemma.SafeNotes(notes)), "\n");
      |lines| >= 5 && lines[|lines| - 5..] == MedGemma.DataLines(ex.triageLevel, shap, MedGemma.SafeNotes(notes))
  {
    var ex := TriageAndShap(features, sel, art).value;
    ExplanationFacts(features, sel, art);
    forall i | 0 <= i < |ex.topFactors| ensures '\n' !in ex.topFactors[i].direction {
      assert ex.topFactors[i] in ex.topFactors;
      var row := RowFor(features, sel, art).value;
      var f := ex.topFactors[i];
      DirectionOneLine(art.attribute(row, ex.triageLevel)[ColumnIndex(f.feature)], ex.triageLevel);
    }
    ShapSummaryOneLine(ex.topFactors);
    MedGemma.PromptEndsWithPatientData(ex.triageLevel, ShapSummary(ex.topFactors), notes);
  }

  // ---------------------------------------------------------------------------
  // The board (lines 207-219).

  function Worse(e: QueueEntry): int {
    if e.trend == Worsening then 1 else 0
  }

  /** The sort key (level, 1 if worsening else 0) as one integer. */
  function BoardKey(e: QueueEntry): int {
    2 * e.level + Worse(e)
  }

  /** Comparing BoardKey is comparing the pair lexicographically. */
  lemma BoardKeyIsLexicographic(a: QueueEntry, b: QueueEntry)
    ensures BoardKey(a) > BoardKey(b) <==> a.level > b.level || (a.level == b.level && Worse(a) > Worse(b))
    ensures BoardKey(a) == BoardKey(b) <==> a.level == b.level && Worse(a) == Worse(b)
  {
  }

  /** sorted(triage_queue, key=..., reverse=True). */
  function Board(q: seq<QueueEntry>): seq<QueueEntry> {
    SortDescending(q, BoardKey)
  }

  /** The board shows every queued entry once, by level and then worsening
      first; entries that tie on both keep their queue order. */
  lemma BoardOrder(q: seq<QueueEntry>)
    ensures multiset(Board(q)) == multiset(q)
    ensures forall i, j :: 0 <= i < j < |Board(q)| ==>
              Board(q)[i].level > Board(q)[j].level ||
              (Board(q)[i].level == Board(q)[j].level && Worse(Board(q)[i]) >= Worse(Board(q)[j]))
    ensures forall k :: WithKey(Board(q), BoardKey, k) == WithKey(q, BoardKey, k)
  {
    var b := Board(q);
    forall i, j | 0 <= i < j < |b|
      ensures b[i].level > b[j].level || (b[i].level == b[j].level && Worse(b[i]) >= Worse(b[j]))
    {
      BoardKeyIsLexicographic(b[i], b[j]);
    }
    forall k ensures WithKey(b, BoardKey, k) == WithKey(q, BoardKey, k) {
      SortIsStable(q, BoardKey, k);
    }
  }

  datatype Card = Critical | Urgent | Stable

  /** card_color's class for a level. */
  function CardFor(level: int): (c: Card)
    ensures c == Critical <==> level >= 2
    ensures c == Urgent <==> level == 1
    ensures c == Card.Stable <==> level < 1
  {
    if level >= 2 then Critical else if level == 1 then Urgent else Card.Stable
  }

  function CardLabel(c: Card): string {
    match c
    case Critical => "\U{1F534} CRITICAL (Level 2/3)"
    case Urgent => "\U{1F7E1} URGENT (Level 1)"
    case Stable => "\U{1F7E2} STABLE (Level 0)"
  }

  function Severity(c: Card): nat {
    match c
    case Critical => 2
    case Urgent => 1
    case Stable => 0
  }

  /** Down the board the cards never get more severe. */
  lemma BoardCardsDescend(q: seq<QueueEntry>)
    ensures forall i, j :: 0 <= i < j < |Board(q)| ==>
              Severity(CardFor(Board(q)[i].level)) >= Severity(CardFor(Board(q)[j].level))
  {
    BoardOrder(q);
  }

  // ---------------------------------------------------------------------------
  // The session.

  class Session {
    var history: History
    var queue: seq<QueueEntry>

    function State(): SessionState
      reads this
    {
      SessionState(history, queue)
    }

    predicate Valid()
      reads this
    {
      Consistent(State())
    }

    /** Lines 16-19: both start empty. */
    constructor()
      ensures history == map[] && queue == [] && Valid()
    {
      history := map[];
      queue := [];
    }

    /** Lines 110 and 121-122: setdefault(id, []).append, then the upsert. */
    method Admit(e: QueueEntry)
      requires Valid() && Numeric(e.features)
      modifies this
      ensures State() == Admitted(old(State()), e)
      ensures Valid()
    {
      AdmittedKeepsConsistent(State(), e);
      history := history[e.id := Prior(history, e.id) + [HistoryEntry(e.features, e.level)]];
      queue := WithoutId(queue, e.id);
      queue := queue + [e];
    }

    /** One file of the batch loop (lines 75-122). */
    method ProcessFile(u: Upload, p: Parsers.Patterns, sel: seq<Key>, art: Artifacts,
                       backend: string -> MedGemma.Transport) returns (r: Result<QueueEntry, ExplainError>)
      requires Valid()
      modifies this
      ensures r == FileIntake(old(State()), u, p, sel, art, backend)
      ensures State() == (if r.Ok? then Admitted(old(State()), r.value) else old(State()))
      ensures Valid()
    {
      var features := FillDefaults(Parsers.ParseVitals(u.text, p));
      var aiResult := ProcessTriageAndShap(features, sel, art);
      if aiResult.Err? {
        return Err(aiResult.error);
      }
      var trend, deltas := BatchTrendAndDeltas(features, Prior(history, u.id));
      var entry := EntryFor(u.id, features, aiResult.value, NotesOf(features), backend, Assessment(trend, deltas));
      Admit(entry);
      r := Ok(entry);
    }

    /** The batch loop of lines 74-122; it ends at the first file whose triage
        raises, with the files before it admitted. */
    method RunBatch(files: seq<Upload>, p: Parsers.Patterns, sel: seq<Key>, art: Artifacts,
                    backend: string -> MedGemma.Transport) returns (processed: nat, failure: Option<ExplainError>)
      requires Valid()
      modifies this
      ensures Valid()
      ensures var b := RunFiles(old(State()), files, p, sel, art, backend);
        State() == b.state && processed == b.admitted && failure == b.failure
    {
      processed := 0;
      failure := None;
      ghost var start := State();
      while processed < |files|
        invariant processed <= |files|
        invariant Valid()
        invariant var b, c := RunFiles(start, files, p, sel, art, backend), RunFiles(State(), files[processed..], p, sel, art, backend);
          b.state == c.state && b.admitted == processed + c.admitted && b.failure == c.failure
      {
        ghost var before := State();
        assert files[processed..][0] == files[processed];
        assert files[processed..][1..] == files[processed + 1..];
        var r := ProcessFile(files[processed], p, sel, art, backend);
        if r.Err? {
          failure := Some(r.error);
          return;
        }
        AdmittedKeepsConsistent(before, r.value);
        processed := processed + 1;
      }
    }

    /** The manual tab (lines 150-194). */
    method SubmitManual(id: string, m: ManualForm, sel: seq<Key>, art: Artifacts,
                        backend: string -> MedGemma.Transport) returns (r: Result<QueueEntry, ExplainError>)
      requires Valid()
      modifies this
      ensures r == ManualIntake(old(State()), id, m, sel, art, backend)
      ensures State() == (if r.Ok? then Admitted(old(State()), r.value) else old(State()))
      ensures Valid()
    {
      var manualFeatures := ManualFeatures(m);
      var aiResult := ProcessTriageAndShap(manualFeatures, sel, art);
      if aiResult.Err? {
        return Err(aiResult.error);
      }
      var trend, deltas := ManualTrendAndDeltas(m.spo2, m.tempTenths, m.hr, Prior(history, id));
      var entry := EntryFor(id, manualFeatures, aiResult.value, ManualNote(m), backend, Assessment(trend, deltas));
      Admit(entry);
      r := Ok(entry);
    }
  }
}
