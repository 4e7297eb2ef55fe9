/** process_triage_and_shap: complete the record from defaults and the selected
    features, classify it, turn the predicted class's attribution vector into
    labelled factors and keep the three largest
    (src/explainability/explain.py:6-57). */
module Explain {
  import opened Common
  import opened Values
  import opened StableSort

  /** base_defaults, in tenths. */
  const Defaults: Record := map[
    Age := Num(450), HeartRate := Num(800), SystolicBloodPressure := Num(1200),
    OxygenSaturation := Num(980), BodyTemperature := Num(370), PainLevel := Num(50),
    ChronicDiseaseCount := Num(0), PreviousErVisits := Num(0), ArrivalMode := Text("walk_in")]

  lemma DefaultsAreTheColumns()
    ensures forall k :: k in Defaults <==> IsColumn(k)
  {
  }

  /** One entry of factors. shapMilli is round(float(val), 3) in thousandths. */
  datatype Factor = Factor(feature: Key, value: Value, direction: string, shapMilli: int)

  datatype Explanation = Explanation(triageLevel: int, topFactors: seq<Factor>)

  datatype ExplainError = UnseenArrivalMode(value: Value)

  /** final_inputs: a default for every column, replaced by the patient's value
      for each selected feature the patient record has. */
  function Completed(pf: Record, sel: seq<Key>): (r: Record)
    ensures HasColumns(r)
  {
    map k | k in Defaults.Keys + (set s | s in sel && s in pf) ::
      if k in sel && k in pf then pf[k] else Defaults[k]
  }

  /** Taking one more selected feature overwrites its entry, if the patient has it. */
  lemma CompletedStep(pf: Record, sel: seq<Key>, i: nat)
    requires i < |sel|
    ensures Completed(pf, sel[..i + 1]) ==
              if sel[i] in pf then Completed(pf, sel[..i])[sel[i] := pf[sel[i]]] else Completed(pf, sel[..i])
  {
    assert sel[..i + 1] == sel[..i] + [sel[i]];
  }

  /** Lines 22-25: copy the defaults, then overwrite in selection order. */
  method CompleteFeatures(pf: Record, sel: seq<Key>) returns (finalInputs: Record)
    ensures finalInputs == Completed(pf, sel)
  {
    finalInputs := Defaults;
    var i := 0;
    assert sel[..0] == [];
    while i < |sel|
      invariant 0 <= i <= |sel|
      invariant finalInputs == Completed(pf, sel[..i])
    {
      var sf := sel[i];
      CompletedStep(pf, sel, i);
      if sf in pf {
        finalInputs := finalInputs[sf := pf[sf]];
      }
      i := i + 1;
    }
    assert sel[..|sel|] == sel;
  }

  /** With only column names selected the completed record has exactly the nine
      columns; each takes the patient's value iff it is selected and present. */
  lemma CompletedShape(pf: Record, sel: seq<Key>)
    requires forall s :: s in sel ==> IsColumn(s)
    ensures forall k :: k in Completed(pf, sel) <==> IsColumn(k)
    ensures forall k :: IsColumn(k) ==>
              Completed(pf, sel)[k] == if k in sel && k in pf then pf[k] else Defaults[k]
  {
  }

  const Pushed := "pushed toward Level "
  const Pulled := "pulled away from Level "

  /** The label, relative to the predicted class p; only a strictly positive
      raw contribution pushes. */
  function Direction(raw: real, p: int): string {
    if raw > 0.0 then Pushed + IntStr(p) else Pulled + IntStr(p)
  }

  /** The two labels differ, so the label tells the sign of the contribution. */
  lemma DirectionLabel(raw: real, p: int)
    ensures Direction(raw, p) == Pushed + IntStr(p) <==> raw > 0.0
    ensures Direction(raw, p) == Pulled + IntStr(p) <==> raw <= 0.0
  {
    var s := IntStr(p);
    assert (Pushed + s)[2] == 's' && (Pulled + s)[2] == 'l';
  }

  lemma LabelHeadsOneLine()
    ensures '\n' !in Pushed && '\n' !in Pulled
  {
  }

  /** A direction label is a single line. */
  lemma DirectionOneLine(raw: real, p: int)
    ensures '\n' !in Direction(raw, p)
  {
    LabelHeadsOneLine();
    var head := if raw > 0.0 then Pushed else Pulled;
    assert Direction(raw, p) == head + IntStr(p);
  }

  /** round(x, 3) as an integer number of thousandths. */
  function RoundMilli(x: real): (m: int)
    ensures m as real - 0.5 <= 1000.0 * x < m as real + 0.5
  {
    (1000.0 * x + 0.5).Floor
  }

  function MakeFactor(k: Key, finalInputs: Record, attr: AttributionVector, p: int): Factor
    requires IsColumn(k) && k in finalInputs
  {
    var raw := attr[ColumnIndex(k)];
    Factor(k, finalInputs[k], Direction(raw, p), RoundMilli(raw))
  }

  predicate AllColumns(cols: seq<Key>) {
    forall i :: 0 <= i < |cols| ==> IsColumn(cols[i])
  }

  /** The factors for the selected columns among cols, in the order of cols. */
  function FactorsOver(cols: seq<Key>, sel: seq<Key>, finalInputs: Record, attr: AttributionVector, p: int): seq<Factor>
    requires AllColumns(cols) && HasColumns(finalInputs)
    decreases |cols|
  {
    if cols == [] then []
    else
      var last := cols[|cols| - 1];
      FactorsOver(cols[..|cols| - 1], sel, finalInputs, attr, p) +
      (if last in sel then [MakeFactor(last, finalInputs, attr, p)] else [])
  }

  /** Lines 39-51: walk the columns in order, appending a factor per selected one. */
  method BuildFactors(sel: seq<Key>, finalInputs: Record, attr: AttributionVector, p: int) returns (factors: seq<Factor>)
    requires HasColumns(finalInputs)
    ensures factors == FactorsOver(Columns, sel, finalInputs, attr, p)
  {
    factors := [];
    var i := 0;
    while i < |Columns|
      invariant 0 <= i <= |Columns|
      invariant factors == FactorsOver(Columns[..i], sel, finalInputs, attr, p)
    {
      var feature := Columns[i];
      assert Columns[..i + 1][..i] == Columns[..i];
      if feature in sel {
        factors := factors + [MakeFactor(feature, finalInputs, attr, p)];
      }
      i := i + 1;
    }
    assert Columns[..|Columns|] == Columns;
  }

  function Magnitude(f: Factor): int {
    Abs(f.shapMilli)
  }

  /** sorted(factors, key=abs(shap_value), reverse=True)[:3]. */
  function TopFactors(factors: seq<Factor>): seq<Factor> {
    SortDescending(factors, Magnitude)[..MinNat(3, |factors|)]
  }

  /** The whole of process_triage_and_shap, with the artifacts as functions. */
  function TriageAndShap(pf: Record, sel: seq<Key>, art: Artifacts): Result<Explanation, ExplainError> {
    var finalInputs := Completed(pf, sel);
    match ModelInput(finalInputs, art.encode)
    case None => Err(UnseenArrivalMode(finalInputs[ArrivalMode]))
    case Some(row) =>
      var prediction := art.predict(row);
      var attr := art.attribute(row, prediction);
      Ok(Explanation(prediction, TopFactors(FactorsOver(Columns, sel, finalInputs, attr, prediction))))
  }

  method ProcessTriageAndShap(pf: Record, sel: seq<Key>, art: Artifacts) returns (r: Result<Explanation, ExplainError>)
    ensures r == TriageAndShap(pf, sel, art)
  {
    var finalInputs := CompleteFeatures(pf, sel);
    var row := ModelInput(finalInputs, art.encode);
    if row.None? {
      return Err(UnseenArrivalMode(finalInputs[ArrivalMode]));
    }
    var prediction := art.predict(row.value);
    var currentShap := art.attribute(row.value, prediction);
    var factors := BuildFactors(sel, finalInputs, currentShap, prediction);
    r := Ok(Explanation(prediction, TopFactors(factors)));
  }

  function Features(fs: seq<Factor>): set<Key> {
    set i | 0 <= i < |fs| :: fs[i].feature
  }

  predicate Ascending(cols: seq<Key>)
    requires AllColumns(cols)
  {
    forall i, j :: 0 <= i < j < |cols| ==> ColumnIndex(cols[i]) < ColumnIndex(cols[j])
  }

  predicate FactorsAscending(fs: seq<Factor>) {
    forall i, j :: 0 <= i < j < |fs| ==>
      IsColumn(fs[i].feature) && IsColumn(fs[j].feature) &&
      ColumnIndex(fs[i].feature) < ColumnIndex(fs[j].feature)
  }

  /** Each factor is the one for a selected column of cols, carrying the
      completed value and that column's own attribution. */
  lemma {:induction false} FactorsAreSelected(cols: seq<Key>, sel: seq<Key>, finalInputs: Record, attr: AttributionVector, p: int)
    requires AllColumns(cols) && HasColumns(finalInputs)
    ensures forall f :: f in FactorsOver(cols, sel, finalInputs, attr, p) ==>
              f.feature in sel && f.feature in cols && IsColumn(f.feature) &&
              f == MakeFactor(f.feature, finalInputs, attr, p)
    decreases |cols|
  {
    if cols != [] {
      var init := cols[..|cols| - 1];
      FactorsAreSelected(init, sel, finalInputs, attr, p);
      assert forall k :: k in init ==> k in cols;
    }
  }

  lemma FeaturesAppend(fs: seq<Factor>, f: Factor)
    ensures Features(fs + [f]) == Features(fs) + {f.feature}
  {
    var g := fs + [f];
    forall k | k in Features(g) ensures k in Features(fs) + {f.feature} {
      var i :| 0 <= i < |g| && g[i].feature == k;
      if i < |fs| {
        assert fs[i].feature == k;
      }
    }
    forall k | k in Features(fs) ensures k in Features(g) {
      var i :| 0 <= i < |fs| && fs[i].feature == k;
      assert g[i].feature == k;
    }
    assert g[|fs|].feature == f.feature;
  }

  /** Every selected column of cols gets a factor. */
  lemma {:induction false} FactorsCoverSelection(cols: seq<Key>, sel: seq<Key>, finalInputs: Record, attr: AttributionVector, p: int)
    requires AllColumns(cols) && HasColumns(finalInputs)
    ensures Features(FactorsOver(cols, sel, finalInputs, attr, p)) == (set k | k in cols && k in sel)
    decreases |cols|
  {
    if cols != [] {
      var init := cols[..|cols| - 1];
      var last := cols[|cols| - 1];
      FactorsCoverSelection(init, sel, finalInputs, attr, p);
      var before := FactorsOver(init, sel, finalInputs, attr, p);
      assert forall k :: k in cols <==> k in init || k == last;
      if last in sel {
        FeaturesAppend(before, MakeFactor(last, finalInputs, attr, p));
        assert FactorsOver(cols, sel, finalInputs, attr, p) == before + [MakeFactor(last, finalInputs, attr, p)];
        assert (set k | k in cols && k in sel) == (set k | k in init && k in sel) + {last};
      } else {
        assert FactorsOver(cols, sel, finalInputs, attr, p) == before;
        assert (set k | k in cols && k in sel) == (set k | k in init && k in sel);
      }
    }
  }

  /** The factors keep the order of cols. */
  lemma {:induction false} FactorsInColumnOrder(cols: seq<Key>, sel: seq<Key>, finalInputs: Record, attr: AttributionVector, p: int)
    requires AllColumns(cols) && Ascending(cols) && HasColumns(finalInputs)
    ensures FactorsAscending(FactorsOver(cols, sel, finalInputs, attr, p))
    decreases |cols|
  {
    if cols != [] {
      var init := cols[..|cols| - 1];
      var last := cols[|cols| - 1];
      FactorsInColumnOrder(init, sel, finalInputs, attr, p);
      FactorsAreSelected(init, sel, finalInputs, attr, p);
      var before := FactorsOver(init, sel, finalInputs, attr, p);
      if last in sel {
        forall i | 0 <= i < |before| ensures ColumnIndex(before[i].feature) < ColumnIndex(last) {
          assert before[i] in before;
          var j :| 0 <= j < |init| && init[j] == before[i].feature;
          assert cols[j] == init[j];
        }
      }
    }
  }

  /** Factors in strict column order name distinct features. */
  lemma {:induction false} AscendingFactorsDistinct(fs: seq<Factor>)
    requires FactorsAscending(fs)
    ensures |Features(fs)| == |fs|
    decreases |fs|
  {
    if fs != [] {
      var init := fs[..|fs| - 1];
      var last := fs[|fs| - 1];
      assert FactorsAscending(init);
      AscendingFactorsDistinct(init);
      assert fs == init + [last];
      FeaturesAppend(init, last);
      assert last.feature !in Features(init);
    }
  }

  lemma ColumnsAscending()
    ensures AllColumns(Columns) && Ascending(Columns)
  {
    ColumnsAreTheColumns();
  }

  /** top_factors holds min(3, n) of the n factors, largest magnitude first. */
  lemma TopFactorsRanked(factors: seq<Factor>)
    ensures |TopFactors(factors)| == MinNat(3, |factors|)
    ensures multiset(TopFactors(factors)) <= multiset(factors)
    ensures NonIncreasing(TopFactors(factors), Magnitude)
  {
    var sorted := SortDescending(factors, Magnitude);
    var n := MinNat(3, |factors|);
    assert sorted == sorted[..n] + sorted[n..];
    assert multiset(sorted) == multiset(sorted[..n]) + multiset(sorted[n..]);
  }

  /** A factor left out of top_factors is no larger than any kept one. */
  lemma TopFactorsDropSmaller(factors: seq<Factor>)
    ensures forall f, i :: f in multiset(factors) - multiset(TopFactors(factors)) && 0 <= i < |TopFactors(factors)| ==>
              Magnitude(f) <= Magnitude(TopFactors(factors)[i])
  {
    var sorted := SortDescending(factors, Magnitude);
    DroppedAreSmaller(sorted, MinNat(3, |factors|), Magnitude);
  }

  /** Among factors of equal magnitude, the kept ones are the first in column
      order (the sort is stable). */
  lemma TopFactorsKeepTieOrder(factors: seq<Factor>, m: int)
    ensures WithKey(TopFactors(factors), Magnitude, m) <= WithKey(factors, Magnitude, m)
  {
    var sorted := SortDescending(factors, Magnitude);
    WithKeyOfPrefix(sorted, MinNat(3, |factors|), Magnitude, m);
    SortIsStable(factors, Magnitude, m);
  }

  /** Only membership in the selection is tested, in either loop. */
  lemma {:induction false} FactorsOverMembership(cols: seq<Key>, sel1: seq<Key>, sel2: seq<Key>,
                                                 finalInputs: Record, attr: AttributionVector, p: int)
    requires AllColumns(cols) && HasColumns(finalInputs)
    requires forall k :: k in sel1 <==> k in sel2
    ensures FactorsOver(cols, sel1, finalInputs, attr, p) == FactorsOver(cols, sel2, finalInputs, attr, p)
    decreases |cols|
  {
    if cols != [] {
      FactorsOverMembership(cols[..|cols| - 1], sel1, sel2, finalInputs, attr, p);
    }
  }

  lemma CompletedBySet(pf: Record, sel1: seq<Key>, sel2: seq<Key>)
    requires forall k :: k in sel1 <==> k in sel2
    ensures Completed(pf, sel1) == Completed(pf, sel2)
  {
    assert (set s | s in sel1 && s in pf) == (set s | s in sel2 && s in pf);
  }

  /** The result depends on the selected features only as a set: reordering or
      repeating them changes nothing. (It cannot depend on the key order of the
      patient record, which as a map has none.) */
  lemma SelectionOnlyAsSet(pf: Record, sel1: seq<Key>, sel2: seq<Key>, art: Artifacts)
    requires forall k :: k in sel1 <==> k in sel2
    ensures TriageAndShap(pf, sel1, art) == TriageAndShap(pf, sel2, art)
  {
    CompletedBySet(pf, sel1, sel2);
    var fin := Completed(pf, sel1);
    var row := ModelInput(fin, art.encode);
    if row.Some? {
      var prediction := art.predict(row.value);
      FactorsOverMembership(Columns, sel1, sel2, fin, art.attribute(row.value, prediction), prediction);
    }
  }

  /** The classifier's input row for a patient record and a selection. */
  function RowFor(pf: Record, sel: seq<Key>, art: Artifacts): Option<seq<Cell>> {
    ModelInput(Completed(pf, sel), art.encode)
  }

  /** The columns that are selected. */
  function SelectedColumns(sel: seq<Key>): set<Key> {
    set k | IsColumn(k) && k in sel
  }

  /** Over the whole column list: one factor per selected column, each the
      factor of its column. */
  lemma FactorListFacts(sel: seq<Key>, fin: Record, attr: AttributionVector, p: int)
    requires HasColumns(fin)
    ensures var factors := FactorsOver(Columns, sel, fin, attr, p);
      && |factors| == |SelectedColumns(sel)|
      && forall f :: f in factors ==> f.feature in sel && IsColumn(f.feature) && f == MakeFactor(f.feature, fin, attr, p)
  {
    var factors := FactorsOver(Columns, sel, fin, attr, p);
    ColumnsAscending();
    ColumnsAreTheColumns();
    FactorsAreSelected(Columns, sel, fin, attr, p);
    FactorsCoverSelection(Columns, sel, fin, attr, p);
    FactorsInColumnOrder(Columns, sel, fin, attr, p);
    AscendingFactorsDistinct(factors);
    assert (set k | k in Columns && k in sel) == SelectedColumns(sel);
  }

  /** The kept factors are min(3, n) of the factors. */
  lemma TopFactorsFrom(factors: seq<Factor>)
    ensures |TopFactors(factors)| == MinNat(3, |factors|)
    ensures forall f :: f in TopFactors(factors) ==> f in factors
  {
    TopFactorsRanked(factors);
    var top := TopFactors(factors);
    forall f | f in top ensures f in factors {
      assert f in multiset(top);
    }
  }

  /** The kept factors of a completed record, field by field. */
  lemma TopFactorFields(sel: seq<Key>, fin: Record, attr: AttributionVector, p: int)
    requires HasColumns(fin)
    ensures var top := TopFactors(FactorsOver(Columns, sel, fin, attr, p));
      && |top| == MinNat(3, |SelectedColumns(sel)|)
      && forall f :: f in top ==>
           && f.feature in sel && IsColumn(f.feature) && f.value == fin[f.feature]
           && f.shapMilli == RoundMilli(attr[ColumnIndex(f.feature)])
           && f.direction == Direction(attr[ColumnIndex(f.feature)], p)
  {
    var factors := FactorsOver(Columns, sel, fin, attr, p);
    FactorListFacts(sel, fin, attr, p);
    TopFactorsFrom(factors);
    forall f | f in TopFactors(factors)
      ensures f.feature in sel && IsColumn(f.feature) && f.value == fin[f.feature]
      ensures f.shapMilli == RoundMilli(attr[ColumnIndex(f.feature)])
      ensures f.direction == Direction(attr[ColumnIndex(f.feature)], p)
    {
      assert f in factors;
      assert f == MakeFactor(f.feature, fin, attr, p);
    }
  }

  /** What process_triage_and_shap returns: an error exactly when the encoder
      rejects the completed arrival mode; otherwise the prediction, and
      min(3, #selected columns) factors, each for a selected column, carrying
      the completed value and the attribution of that column in the vector of
      the predicted class, labelled relative to that class. */
  lemma ExplanationFacts(pf: Record, sel: seq<Key>, art: Artifacts)
    ensures TriageAndShap(pf, sel, art).Err? <==> RowFor(pf, sel, art).None?
    ensures TriageAndShap(pf, sel, art).Ok? ==>
      var e := TriageAndShap(pf, sel, art).value;
      var row := RowFor(pf, sel, art).value;
      && e.triageLevel == art.predict(row)
      && |e.topFactors| == MinNat(3, |SelectedColumns(sel)|)
      && forall f :: f in e.topFactors ==>
           && f.feature in sel && IsColumn(f.feature)
           && f.value == Completed(pf, sel)[f.feature]
           && f.shapMilli == RoundMilli(art.attribute(row, e.triageLevel)[ColumnIndex(f.feature)])
           && f.direction == Direction(art.attribute(row, e.triageLevel)[ColumnIndex(f.feature)], e.triageLevel)
  {
    var fin := Completed(pf, sel);
    var row := RowFor(pf, sel, art);
    if row.Some? {
      var p := art.predict(row.value);
      var attr := art.attribute(row.value, p);
      TopFactorFields(sel, fin, attr, p);
    }
  }
}
