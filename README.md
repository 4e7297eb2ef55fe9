# Clinical triage pipeline: a Dafny model of its decision logic

This project models the deterministic core of an AI clinical triage system,
which has five parts:

- **Vitals extraction** (`BaseClinicalParser._parse_vitals`): turning a document's text into a partial feature dictionary.
- **Safety rules and department routing** (`TriageProcessor`).
- **Feature completion and attribution ranking** (`process_triage_and_shap`).
- **The LLM bridge** (`BioMistralExplainer.get_explanation`): it builds the delimiter prompt and parses the `|||`-separated reply.
- **The session bookkeeping of the Streamlit script**: default filling, trend and deltas against the previous visit, the per-patient history, the queue keyed by patient id, and the ordering and colour of the live board.

The foreign parts are parameters:

- **Regular expressions**: each is an extractor from text to its captured numbers, in match order (`Parsers.Patterns`).
- **Classifier, label encoder and tree explainer**: the functions `predict`, `encode` and `attribute` (`Values.Artifacts`). The encoder answers `None` for a category it was not fitted on, which is where `LabelEncoder.transform` raises.
- **HTTP call to the local LLM**: a function from the prompt to a `MedGemma.Transport`, which is a reply (status and text), a read timeout or a refused connection.
- **PDF/OCR text**: provided directly as input.

Every number is kept in integer **tenths** of its unit.

- A heart rate of 110 is `Num(1100)`.
- Temperature candidates `\d{2,3}\.?\d?` have at most one decimal, so 104.4 is 1044. This makes `round(x, 1)` exact. The Fahrenheit heuristic is the nearest integer to 5(t-320)/9, which is never a tie.
- SHAP contributions are `real`. The direction follows the raw value, and `shap_value` is thousandths, rounded half up.

The files are:

- `common.dfy`: Option/Result and decimal rendering.
- `values.dfy`: keys, values, column order and the classifier row.
- `parsers.dfy`, `processor.dfy`, `stable_sort.dfy`, `explain.dfy`, `medgemma.dfy`.
- `app.dfy`: the `App.Session` class, whose fields `history` (a map) and `queue` (a sequence) are the script's `session_state`.

Where the code and its design description disagree, the model follows the code:

- `process_patient` runs the encoder and the classifier even when a safety rule fired. An unseen arrival mode is therefore an error on that path too.
- The UI path (`process_triage_and_shap`) never applies the safety rules. The level shown on the board is the classifier's.
- The manual intake's trend ignores temperature. Its deltas use defaults for missing prior readings.
- The batch tab never sets an arrival mode, so every uploaded record is encoded as walk_in. Whether a file's triage raises is therefore fixed for each encoder, and a batch either admits every file or fails at its first (`App.BatchAllOrNothing`).

## Model

| member | source | states |
|---|---|---|
| Values.ColumnIndex | src/triage_engine/processor.py:42-52 | each column has its position in the fixed order the classifier was fitted with |
| Values.ColumnsAreTheColumns | src/triage_engine/processor.py:42-52 | the column list holds exactly the nine model features, each at its own index |
| Values.ModelInput | src/triage_engine/processor.py:54-58 | the classifier row is the nine columns in fixed order, only arrival_mode encoded; no row exactly when the encoder rejects the arrival mode |
| Parsers.ToCelsius | src/ingestion/parsers.py:16 | a candidate above 50 degrees becomes the Celsius value to the nearest tenth, otherwise it is kept |
| Parsers.FahrenheitExample | src/ingestion/parsers.py:16 | 104.4 becomes 40.2 |
| Parsers.Celsius | src/ingestion/parsers.py:16 | the conversion is applied to every candidate, in order |
| Parsers.Within | src/ingestion/parsers.py:17 | the filter keeps exactly the candidates inside the range |
| Parsers.Max | src/ingestion/parsers.py:19 | max is a member and bounds every element |
| Parsers.Min | src/ingestion/parsers.py:25 | min is a member and is bounded by every element |
| Parsers.CountFound | src/ingestion/parsers.py:48 | the keyword count is at most the vocabulary size |
| Parsers.TemperatureReading | src/ingestion/parsers.py:13-19 | present iff some converted candidate lies in [30.0, 45.0]; then it is the largest such |
| Parsers.OxygenReading | src/ingestion/parsers.py:22-25 | present iff some candidate lies in [50, 100]; then it is the smallest such |
| Parsers.HeartRateReading | src/ingestion/parsers.py:28-31 | present iff some candidate lies in [30, 250]; then it is the largest such |
| Parsers.SystolicReading | src/ingestion/parsers.py:34-37 | present iff some candidate lies in [50, 300]; then it is the largest such |
| Parsers.AgeReading | src/ingestion/parsers.py:40-44 | present iff the first match exists and is at most 120; then it is that match |
| Parsers.ChronicReading | src/ingestion/parsers.py:47-50 | when present, the count is between 1 and 9 |
| Parsers.ParseVitals | src/ingestion/parsers.py:9-53 | raw_text is always the input text; a vital is present iff its reading exists and holds it; arrival mode, pain and ER visits are never set; all else is numeric |
| Parsers.ParsedIsPlausible | src/ingestion/parsers.py:16-50 | every vital present lies inside its range |
| Parsers.AgeFirstMatchOnly | src/ingestion/parsers.py:40-44 | a first age above 120 leaves age out whatever later matches exist |
| Parsers.CountIsDistinctFound | src/ingestion/parsers.py:47-48 | over a repeat-free vocabulary the sum counts the distinct keywords found |
| Parsers.ChronicCount | src/ingestion/parsers.py:47-50 | chronic_disease_count is present iff some keyword is found, and then equals the number of keywords found |
| Parsers.NothingRecognised | src/ingestion/parsers.py:9-53 | text where nothing matches yields only raw_text |
| Processor.ApplyRules | src/triage_engine/processor.py:24-31 | SpO2 < 90 gives (3, low oxygen) whatever the SBP; else SBP > 190 gives (3, severe hypertension); a rule fires iff one of the two holds |
| Processor.Department | src/triage_engine/processor.py:13-22 | first match wins: SpO2 < 92 pulmonology, else HR > 120 or SBP > 160 cardiology, else pain >= 8 emergency, else general medicine |
| Processor.ProcessPatient | src/triage_engine/processor.py:33-72 | error iff the encoder rejects the arrival mode; department from the raw record; a fired rule gives level 3, source Safety Rule and its reason; otherwise the classifier's level, ML Model, no reason |
| Processor.LowOxygenRoutesToPulmonology | src/triage_engine/processor.py:13-31 | a low-oxygen rule hit is always routed to pulmonology |
| Processor.RulesNeverLowerLevel | src/triage_engine/processor.py:63-68 | for a classifier level in 0..3 the final level is never below it |
| Processor.RulesMonotone | src/triage_engine/processor.py:24-31 | lower oxygen or higher pressure than a rule-tripping record trips a rule too |
| StableSort.Insert | src/explainability/explain.py:53 | insertion keeps the elements: one longer, same multiset plus the new one |
| StableSort.InsertKeepsOrder | src/explainability/explain.py:53 | inserting into a non-increasing list keeps it non-increasing |
| StableSort.SortDescending | src/explainability/explain.py:53 | the sort is a permutation ordered by non-increasing key |
| StableSort.InsertWithKey | src/explainability/explain.py:53 | insertion places the new element first among those with its key |
| StableSort.SortIsStable | src/explainability/explain.py:53 | for every key value the elements carrying it keep their input order |
| StableSort.WithKeyOfPrefix | src/explainability/explain.py:53 | a prefix keeps, for each key, a prefix of the elements with it |
| StableSort.DroppedAreSmaller | src/explainability/explain.py:53 | cutting a sorted list drops no element larger than a kept one |
| Explain.DefaultsAreTheColumns | src/explainability/explain.py:16-20 | the base defaults cover exactly the nine columns |
| Explain.Completed | src/explainability/explain.py:22-25 | the completed record has every column |
| Explain.CompleteFeatures | src/explainability/explain.py:22-25 | the copy-then-overwrite loop computes the completed record |
| Explain.CompletedShape | src/explainability/explain.py:16-25 | the completed record has exactly the nine columns; a column takes the patient's value iff it is selected and present, else its default |
| Explain.DirectionLabel | src/explainability/explain.py:44 | "pushed toward Level p" iff the contribution is > 0, "pulled away from Level p" iff it is <= 0 |
| Explain.DirectionOneLine | src/explainability/explain.py:44 | a direction label is one line |
| Explain.RoundMilli | src/explainability/explain.py:50 | the rounded value is within half a thousandth of the contribution |
| Explain.BuildFactors | src/explainability/explain.py:39-51 | the factor loop yields the factors of the selected columns in column order |
| Explain.ProcessTriageAndShap | src/explainability/explain.py:6-57 | the procedure computes the specified explanation |
| Explain.FactorsAreSelected | src/explainability/explain.py:39-51 | each factor is for a selected column and carries the completed value and that column's attribution |
| Explain.FactorsCoverSelection | src/explainability/explain.py:39-51 | every selected column gets a factor |
| Explain.FactorsInColumnOrder | src/explainability/explain.py:39-51 | factors come in strict column order |
| Explain.AscendingFactorsDistinct | src/explainability/explain.py:39-51 | factors in strict column order name distinct features |
| Explain.ColumnsAscending | src/explainability/explain.py:28 | the column list is in its own order |
| Explain.TopFactorsRanked | src/explainability/explain.py:53 | the top list has min(3, n) factors taken from the factors, by non-increasing magnitude |
| Explain.TopFactorsDropSmaller | src/explainability/explain.py:53 | every omitted factor is no larger than any kept one |
| Explain.TopFactorsKeepTieOrder | src/explainability/explain.py:53 | among equal magnitudes, the kept factors are the first in column order |
| Explain.FactorsOverMembership | src/explainability/explain.py:40-41 | the factor list depends on the selection only through membership |
| Explain.SelectionOnlyAsSet | src/explainability/explain.py:23-41 | reordering or repeating the selected features changes nothing |
| Explain.ExplanationFacts | src/explainability/explain.py:6-57 | error iff the encoder rejects; the level is the prediction whose attribution vector labels, rounds and values every kept factor; min(3, #selected) factors |
| MedGemma.Flatten | src/explainability/medgemma.py:51 | line breaks become spaces, nothing else changes |
| MedGemma.TrimLeft | src/explainability/medgemma.py:45 | removes exactly the leading whitespace |
| MedGemma.TrimRight | src/explainability/medgemma.py:45 | removes exactly the trailing whitespace |
| MedGemma.Strip | src/explainability/medgemma.py:45 | an infix of the text with no whitespace at either end |
| MedGemma.StripRemovesOnlyWhitespace | src/explainability/medgemma.py:45 | everything cut from either end of the text is whitespace |
| MedGemma.SplitAtFirst | src/explainability/medgemma.py:54 | the text before the first delimiter is the first part, the rest is split on |
| MedGemma.SplitFree | src/explainability/medgemma.py:54 | text without the delimiter is a single part |
| MedGemma.SplitPartsFromText | src/explainability/medgemma.py:54 | every character of every part comes from the text |
| MedGemma.JoinLinesRoundTrip | src/explainability/medgemma.py:13-27 | splitting joined single lines on line breaks gives them back |
| MedGemma.SafeNotes | src/explainability/medgemma.py:9 | no line break; over 500 characters: the first 500 flattened plus "...", length 503; otherwise the whole input flattened |
| MedGemma.DataLinesAreSingleLines | src/explainability/medgemma.py:22-26 | with single-line drivers, each line of the patient-data block is one line |
| MedGemma.PromptEndsWithPatientData | src/explainability/medgemma.py:13-27 | the prompt's last five lines are the level, drivers and notes lines, "[/INST]" and the empty line |
| MedGemma.GetExplanation | src/explainability/medgemma.py:8-81 | whatever the transport does, all three fields are present and each is one line |
| MedGemma.ParseThreeFields | src/explainability/medgemma.py:44-61 | round trip: "a ||| b ||| c" is read back as (a, b, c) for any single-line fields without the delimiter and without surrounding whitespace, empty ones included |
| MedGemma.SplitThreeFields | src/explainability/medgemma.py:54 | the stripped answer splits into exactly three parts: the first field, the second padded by a space on each side, the third |
| MedGemma.ParseTwoFields | src/explainability/medgemma.py:62-67 | "a ||| b" gives (a, b, "General Triage") for any such fields, empty ones included |
| MedGemma.SplitExtraFields | src/explainability/medgemma.py:54 | whatever follows a third delimiter, the first three parts are the three fields as written |
| MedGemma.ParseDropsExtraFields | src/explainability/medgemma.py:56-61 | "a ||| b ||| c ||| d" gives (a, b, c) for any text d, line breaks and delimiters included |
| MedGemma.ParseWithoutDelimiter | src/explainability/medgemma.py:68-74 | no delimiter: manual review and general triage, at most the first 150 characters of the flattened, stripped answer |
| MedGemma.ParseTextSingleLine | src/explainability/medgemma.py:51-74 | every parsed field is one line |
| MedGemma.NarrativeSingleLine | src/explainability/medgemma.py:41-81 | every transport outcome yields three single-line fields |
| MedGemma.FailureNarratives | src/explainability/medgemma.py:76-81 | non-200, timeout and connection failure answer their fixed triples whatever the reply text |
| App.WithDefaults | src/ui/app.py:78-81 | existing keys are kept; pain 5, walk_in, chronic 0 and ER visits 0 are set only where absent |
| App.FillDefaults | src/ui/app.py:78-81 | the four assignments compute the filled record |
| App.DefaultsIdempotent | src/ui/app.py:78-81 | filling twice is filling once |
| App.Change | src/ui/app.py:100-105 | a batch delta is set iff both records have the vital, and is current minus prior |
| App.BatchAssessment | src/ui/app.py:94-108 | no history: stable, no deltas; otherwise the three deltas, and worsening iff SpO2 fell or temperature rose (defaults 100 and 37) |
| App.BatchTrendAndDeltas | src/ui/app.py:94-108 | the in-place updates compute the batch assessment |
| App.BatchUnchangedIsStable | src/ui/app.py:98-108 | unchanged vitals give a stable trend and zero deltas |
| App.BatchTrendIgnoresHeartRate | src/ui/app.py:107-108 | the heart rate never changes the trend |
| App.ManualAssessment | src/ui/app.py:171-180 | no history: stable, no deltas; otherwise deltas against defaults 100, 37.0 and 80, worsening iff SpO2 fell |
| App.ManualTrendAndDeltas | src/ui/app.py:171-180 | the in-place updates compute the manual assessment |
| App.ManualTrendIgnoresTemperature | src/ui/app.py:180 | the manual trend does not depend on the temperature |
| App.WithoutId | src/ui/app.py:121 | keeps exactly the entries with another id |
| App.WithoutIdAppend | src/ui/app.py:121 | the filter distributes over concatenation, so it keeps relative order |
| App.WithoutIdTwice | src/ui/app.py:121 | filtering twice is filtering once |
| App.WithoutIdKeepsDistinct | src/ui/app.py:121 | filtering keeps ids distinct |
| App.UpsertFacts | src/ui/app.py:121-122 | the new entry is last and the only one with its id; the other entries are unchanged and in order |
| App.HistoryAppendOnly | src/ui/app.py:110 | the patient's history grows by exactly the new record at its end; no other patient's history changes |
| App.AdmittedKeepsConsistent | src/ui/app.py:110-122 | distinct queue ids, each queued entry the last record of its patient, numeric history: all kept by an admission |
| App.ShapSummaryOneLine | src/ui/app.py:87 | the drivers string is one line |
| App.FileIntake | src/ui/app.py:74-119 | an intake's entry carries the patient id and numeric features |
| App.ManualFeatures | src/ui/app.py:151-157 | the manual record has every column and raw_text, is numeric, and holds the form's age, SBP, heart rate, SpO2, temperature, pain, chronic count, ER visits, arrival mode and note |
| App.ManualIntake | src/ui/app.py:150-191 | an intake's entry carries the patient id and numeric features |
| App.AfterIntake | src/ui/app.py:110-122 | taking one intake result keeps the session consistent: admitted on success, unchanged on a triage error |
| App.RunFiles | src/ui/app.py:74-122 | the batch loop keeps the session consistent and admits at most every file; it reports an error exactly when it stopped short of the last file |
| App.RunFailsAtNextFile | src/ui/app.py:74-122 | a failed batch failed at the file right after those admitted, against the state they left |
| App.UploadArrivesWalkingIn | src/ui/app.py:78-81 | every uploaded record reaches the encoder with arrival mode walk_in, whatever the selection |
| App.FileOutcomeFixed | src/ui/app.py:74-90 | a file's triage succeeds iff the encoder accepts walk_in, whatever the file and session |
| App.BatchAllOrNothing | src/ui/app.py:74-122 | a batch fails iff it has a file and the encoder rejects walk_in; a failed batch admitted nothing and left the session as it was |
| App.BatchHistoryOnlyGrows | src/ui/app.py:74-110 | across a batch loop each patient's history before it is a prefix of the history after it |
| App.IntakePromptEndsWithPatientData | src/ui/app.py:84-91 | the prompt for an intake ends with the level, drivers and notes lines |
| App.BoardKeyIsLexicographic | src/ui/app.py:207-211 | comparing the integer key is comparing (level, worsening) lexicographically |
| App.BoardOrder | src/ui/app.py:207-211 | the board is a permutation of the queue, by level then worsening first, stable on ties |
| App.CardFor | src/ui/app.py:214-219 | CRITICAL iff level >= 2, URGENT iff level 1, STABLE iff below 1 |
| App.BoardCardsDescend | src/ui/app.py:207-219 | down the board the cards never get more severe |
| App.Session.constructor | src/ui/app.py:16-19 | history and queue start empty |
| App.Session.Admit | src/ui/app.py:110-122 | history append and queue upsert, keeping the session invariant |
| App.Session.ProcessFile | src/ui/app.py:75-122 | one file: the specified intake, admitted on success, no change when triage raises |
| App.Session.RunBatch | src/ui/app.py:74-122 | the loop leaves exactly the state, admitted count and error of the batch loop specification, in order up to the first file whose triage raises |
| App.Session.SubmitManual | src/ui/app.py:150-194 | the manual intake, admitted on success, no change when triage raises |

## Left out

- The regular-expression engine: each pattern is an abstract extractor of its captured numbers. Pattern semantics are not verified, including the degree pattern's literal "Â°" at src/ingestion/parsers.py:14.
- `DigitalPDFParser` and `OCRImageParser`: PDF rendering, OCR and temporary files are file I/O and foreign libraries. The extracted text is an input.
- `requests.post`, the JSON decoding of the reply and `print`: network and I/O. A reply whose body is not JSON, where `response.json()` raises, is not modelled.
- Pickle loading, `RandomForestClassifier.predict`, `LabelEncoder.transform` and `shap.TreeExplainer`: these are abstract functions. The multi-class SHAP shape selection at src/explainability/explain.py:37 is the `attribute` function applied to the predicted class.
- Floating point: numbers are integer tenths. `Explain.RoundMilli` rounds half up, while Python's `round` on a binary float is half-to-even on exact ties.
- App.Session.SubmitManual: the form's temperature is taken in tenths. The widget allows hundredths, which would make its delta's rounding to one decimal visible.
- The Streamlit widgets, layout, spinners and the card's text rendering. The patient-id-to-file mapping of src/ui/app.py:61-65 is replaced by an id carried with each upload.
- Processor.ApplyRules: requires `RulesReadable`, which says SpO2 is numeric and, when the oxygen rule does not fire, so is SBP. A missing key (`KeyError`) or a non-numeric value (`TypeError` on the comparison) in src/triage_engine/processor.py:24-31 is not modelled.
- Processor.Department: requires `DepartmentReadable`, which says each vital it compares is numeric, in Python's short-circuit order. The `KeyError` or `TypeError` that src/triage_engine/processor.py:13-22 raises otherwise is not modelled.
- Processor.ProcessPatient: requires `HasColumns` as well as the two conditions above. The `KeyError` that selecting a missing column raises at src/triage_engine/processor.py:55 is not modelled.
- A triage error (an arrival mode the encoder was not fitted on) ends the script run in the source. The model returns it and leaves the state as it was.
- src/triage_engine/train_model.py (offline training) and test.py (an environment check).
