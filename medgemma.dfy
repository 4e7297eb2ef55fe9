/** BioMistralExplainer.get_explanation: build the delimiter prompt, post it,
    and parse the reply into three fields on every path
    (src/explainability/medgemma.py:8-81). The HTTP call is a function from
    the prompt to a transport outcome. */
module MedGemma {
  import opened Common

  /** What requests.post produced: a reply with its status and the decoded
      'response' text, a read timeout, or a refused connection. */
  datatype Transport = Reply(status: int, response: string) | ReadTimeout | ConnectionFailure

  /** The returned dictionary; its three keys are always present. */
  datatype Narrative = Narrative(synthesis: string, action: string, department: string)

  // ---------------------------------------------------------------------------
  // String operations the code uses: replace('\n', ' '), strip(), split(sep).

  /** s.replace('\n', ' '). */
  function Flatten(s: string): (r: string)
    ensures |r| == |s| && '\n' !in r
    ensures forall i :: 0 <= i < |s| ==> r[i] == (if s[i] == '\n' then ' ' else s[i])
  {
    seq(|s|, i requires 0 <= i < |s| => if s[i] == '\n' then ' ' else s[i])
  }

  /** The characters Python's str.strip() removes (str.isspace). */
  predicate IsSpace(c: char) {
    || c == ' '
    || '\t' <= c <= '\r'
    || '\U{1C}' <= c <= '\U{1F}'
    || c == '\U{85}' || c == '\U{A0}' || c == '\U{1680}'
    || '\U{2000}' <= c <= '\U{200A}'
    || c == '\U{2028}' || c == '\U{2029}' || c == '\U{202F}' || c == '\U{205F}' || c == '\U{3000}'
  }

  function TrimLeft(s: string): (r: string)
    ensures |r| <= |s| && r == s[|s| - |r|..]
    ensures forall i :: 0 <= i < |s| - |r| ==> IsSpace(s[i])
    ensures r == [] || !IsSpace(r[0])
  {
    if s != [] && IsSpace(s[0]) then
      var r := TrimLeft(s[1..]);
      assert s[1..][|s| - 1 - |r|..] == s[|s| - |r|..];
      assert forall i :: 1 <= i < |s| ==> s[i] == s[1..][i - 1];
      r
    else s
  }

  function TrimRight(s: string): (r: string)
    ensures |r| <= |s| && r == s[..|r|]
    ensures forall i :: |r| <= i < |s| ==> IsSpace(s[i])
    ensures r == [] || !IsSpace(r[|r| - 1])
  {
    if s != [] && IsSpace(s[|s| - 1]) then
      var r := TrimRight(s[..|s| - 1]);
      assert s[..|s| - 1][..|r|] == s[..|r|];
      assert forall i :: 0 <= i < |s| - 1 ==> s[i] == s[..|s| - 1][i];
      r
    else s
  }

  /** s.strip(): the infix left after removing whitespace at both ends. */
  function Strip(s: string): (r: string)
    ensures r == [] || (!IsSpace(r[0]) && !IsSpace(r[|r| - 1]))
    ensures |s| - |TrimLeft(s)| + |r| <= |s|
    ensures r == s[|s| - |TrimLeft(s)|..|s| - |TrimLeft(s)| + |r|]
  {
    TrimRight(TrimLeft(s))
  }

  /** strip() removes whitespace only: Strip(s) is the infix of s starting at
      |s| - |TrimLeft(s)|, and every character before it and every character
      after it is whitespace. */
  lemma StripRemovesOnlyWhitespace(s: string)
    ensures forall i :: 0 <= i < |s| - |TrimLeft(s)| ==> IsSpace(s[i])
    ensures forall i :: |s| - |TrimLeft(s)| + |Strip(s)| <= i < |s| ==> IsSpace(s[i])
  {
    SpaceAfterPrefix(s, TrimLeft(s), Strip(s));
  }

  /** Whitespace after a prefix r of a suffix t of s lies at the end of s. */
  lemma SpaceAfterPrefix(s: string, t: string, r: string)
    requires |t| <= |s| && t == s[|s| - |t|..] && |r| <= |t| && r == t[..|r|]
    requires forall i :: |r| <= i < |t| ==> IsSpace(t[i])
    ensures forall i :: |s| - |t| + |r| <= i < |s| ==> IsSpace(s[i])
  {
    var k := |s| - |t|;
    forall i | k + |r| <= i < |s| ensures IsSpace(s[i]) {
      assert s[i] == t[i - k];
    }
  }

  /** sep occurs in s starting at position i. */
  predicate OccursAt(s: string, sep: string, i: int) {
    0 <= i && i + |sep| <= |s| && s[i..i + |sep|] == sep
  }

  /** No occurrence of sep starts before position n of s. */
  predicate NoOccurrence(s: string, sep: string, n: int) {
    forall i :: 0 <= i < n ==> !OccursAt(s, sep, i)
  }

  predicate Free(s: string, sep: string) {
    NoOccurrence(s, sep, |s|)
  }

  /** s.split(sep): cut at each leftmost non-overlapping occurrence. */
  function Split(s: string, sep: string): (parts: seq<string>)
    requires |sep| > 0
    ensures |parts| >= 1
    decreases |s|
  {
    if |s| < |sep| then [s]
    else if s[..|sep|] == sep then [""] + Split(s[|sep|..], sep)
    else
      var rest := Split(s[1..], sep);
      [[s[0]] + rest[0]] + rest[1..]
  }

  /** Text before the first occurrence of sep is the first part. */
  lemma {:induction false} SplitAtFirst(a: string, sep: string, rest: string)
    requires |sep| > 0 && NoOccurrence(a + sep + rest, sep, |a|)
    ensures Split(a + sep + rest, sep) == [a] + Split(rest, sep)
    decreases |a|
  {
    var t := a + sep + rest;
    if a == [] {
      assert t == sep + rest;
      assert t[..|sep|] == sep && t[|sep|..] == rest;
    } else {
      assert !OccursAt(t, sep, 0);
      assert t[1..] == a[1..] + sep + rest;
      forall i | 0 <= i < |a| - 1 ensures !OccursAt(t[1..], sep, i) {
        assert !OccursAt(t, sep, i + 1);
        if i + |sep| <= |t[1..]| {
          assert t[1..][i..i + |sep|] == t[i + 1..i + 1 + |sep|];
        }
      }
      SplitAtFirst(a[1..], sep, rest);
      assert [a[0]] + a[1..] == a;
    }
  }

  /** Text with no occurrence of sep is not cut. */
  lemma {:induction false} SplitFree(s: string, sep: string)
    requires |sep| > 0 && Free(s, sep)
    ensures Split(s, sep) == [s]
    decreases |s|
  {
    if |s| >= |sep| {
      assert !OccursAt(s, sep, 0);
      forall i | 0 <= i < |s| - 1 ensures !OccursAt(s[1..], sep, i) {
        assert !OccursAt(s, sep, i + 1);
        if i + |sep| <= |s[1..]| {
          assert s[1..][i..i + |sep|] == s[i + 1..i + 1 + |sep|];
        }
      }
      SplitFree(s[1..], sep);
      assert [s[0]] + s[1..] == s;
    }
  }

  /** Every character of every part comes from the text. */
  lemma {:induction false} SplitPartsFromText(s: string, sep: string)
    requires |sep| > 0
    ensures forall p, c :: p in Split(s, sep) && c in p ==> c in s
    decreases |s|
  {
    if |s| >= |sep| {
      if s[..|sep|] == sep {
        SplitPartsFromText(s[|sep|..], sep);
        forall c | c in s[|sep|..] ensures c in s {
          var i :| 0 <= i < |s[|sep|..]| && s[|sep|..][i] == c;
          assert s[|sep| + i] == c;
        }
      } else {
        SplitPartsFromText(s[1..], sep);
        forall c | c in s[1..] ensures c in s {
          var i :| 0 <= i < |s[1..]| && s[1..][i] == c;
          assert s[1 + i] == c;
        }
      }
    }
  }

  /** Joining lines with "\n" and splitting on "\n" gives the lines back. */
  function JoinLines(lines: seq<string>): string
    requires |lines| > 0
  {
    if |lines| == 1 then lines[0] else lines[0] + "\n" + JoinLines(lines[1..])
  }

  lemma NoNewlineFree(s: string)
    requires '\n' !in s
    ensures Free(s, "\n")
  {
    forall i | 0 <= i < |s| ensures !OccursAt(s, "\n", i) {
      assert s[i..i + 1] == [s[i]];
    }
  }

  lemma {:induction false} JoinLinesRoundTrip(lines: seq<string>)
    requires |lines| > 0
    requires forall i :: 0 <= i < |lines| ==> '\n' !in lines[i]
    ensures Split(JoinLines(lines), "\n") == lines
    decreases |lines|
  {
    NoNewlineFree(lines[0]);
    if |lines| == 1 {
      SplitFree(lines[0], "\n");
    } else {
      var rest := JoinLines(lines[1..]);
      var t := lines[0] + "\n" + rest;
      forall i | 0 <= i < |lines[0]| ensures !OccursAt(t, "\n", i) {
        assert t[i..i + 1] == [lines[0][i]];
      }
      SplitAtFirst(lines[0], "\n", rest);
      JoinLinesRoundTrip(lines[1..]);
      assert [lines[0]] + lines[1..] == lines;
    }
  }

  // ---------------------------------------------------------------------------
  // The prompt.

  const NotesLimit := 500
  const SynthesisLimit := 150
  const Delimiter := "|||"

  /** safe_symptoms: at most 500 characters of the notes with line breaks
      flattened, and "..." when the notes were longer. */
  function SafeNotes(symptoms: string): (r: string)
    ensures '\n' !in r
    ensures |symptoms| > NotesLimit ==> |r| == NotesLimit + 3 && r[NotesLimit..] == "..."
    ensures |symptoms| <= NotesLimit ==> |r| == |symptoms|
    ensures forall i :: 0 <= i < |symptoms| && i < NotesLimit ==>
              r[i] == (if symptoms[i] == '\n' then ' ' else symptoms[i])
  {
    if |symptoms| > NotesLimit then Flatten(symptoms[..NotesLimit]) + "..." else Flatten(symptoms)
  }

  /** The fixed lines of the template before the patient data. */
  const TemplateHead: seq<string> := [
    "[INST] You are an AI Chief Medical Officer. Analyze the patient data and return exactly ONE line of text.",
    "You MUST separate your 3 answers using the '|||' symbol.",
    "",
    "Format:",
    "Clinical Synthesis (1 sentence) ||| Recommended Action (3-5 words) ||| Department Routing (1-3 words)",
    "",
    "Example:",
    "Patient is a 55-year-old male presenting with severe chest pain and tachycardia. ||| Stat EKG and Troponin ||| Cardiac ICU",
    "",
    "Patient Data:"]

  function PromptLines(level: int, shapInfo: string, notes: string): seq<string> {
    TemplateHead + DataLines(level, shapInfo, notes)
  }

  /** The f-string prompt of lines 13-27. */
  function Prompt(level: int, shapInfo: string, notes: string): string {
    JoinLines(PromptLines(level, shapInfo, notes))
  }

  function DataLines(level: int, shapInfo: string, notes: string): seq<string> {
    ["- Risk Level: " + IntStr(level), "- AI Drivers: " + shapInfo, "- Notes: " + notes, "[/INST]", ""]
  }

  /** A separator at the front is cut off as an empty first part. */
  lemma SplitAfterSep(c: char, s: string)
    ensures Split([c] + s, [c]) == [""] + Split(s, [c])
  {
    var t := [c] + s;
    assert t[..1] == [c] && t[1..] == s;
  }

  /** Another character at the front joins the first part. */
  lemma SplitAfterOther(x: char, c: char, s: string)
    requires x != c
    ensures var rest := Split(s, [c]);
      Split([x] + s, [c]) == [[x] + rest[0]] + rest[1..]
  {
    var t := [x] + s;
    assert t[..1] == [x] && t[1..] == s;
  }

  lemma PrependPart(p: string, xs: seq<string>, ys: seq<string>)
    ensures [p] + (xs + ys) == ([p] + xs) + ys
  {
  }

  lemma ExtendFirstPart(x: char, xs: seq<string>, ys: seq<string>)
    requires |xs| > 0
    ensures [[x] + (xs + ys)[0]] + (xs + ys)[1..] == ([[x] + xs[0]] + xs[1..]) + ys
  {
    assert (xs + ys)[0] == xs[0] && (xs + ys)[1..] == xs[1..] + ys;
  }

  lemma SplitOnCharSep(c: char, a: string, b: string)
    requires Split(a + [c] + b, [c]) == Split(a, [c]) + Split(b, [c])
    ensures Split([c] + a + [c] + b, [c]) == Split([c] + a, [c]) + Split(b, [c])
  {
    assert [c] + a + [c] + b == [c] + (a + [c] + b);
    SplitAfterSep(c, a);
    SplitAfterSep(c, a + [c] + b);
    PrependPart("", Split(a, [c]), Split(b, [c]));
  }

  lemma SplitOnCharOther(x: char, c: char, a: string, b: string)
    requires x != c
    requires Split(a + [c] + b, [c]) == Split(a, [c]) + Split(b, [c])
    ensures Split([x] + a + [c] + b, [c]) == Split([x] + a, [c]) + Split(b, [c])
  {
    assert [x] + a + [c] + b == [x] + (a + [c] + b);
    SplitAfterOther(x, c, a);
    SplitAfterOther(x, c, a + [c] + b);
    ExtendFirstPart(x, Split(a, [c]), Split(b, [c]));
  }

  /** Splitting on a one-character separator distributes over an occurrence of it. */
  lemma {:induction false} SplitOnChar(a: string, c: char, b: string)
    ensures Split(a + [c] + b, [c]) == Split(a, [c]) + Split(b, [c])
    decreases |a|
  {
    if a == [] {
      assert a + [c] + b == [c] + b;
      SplitAfterSep(c, b);
    } else {
      SplitOnChar(a[1..], c, b);
      assert a == [a[0]] + a[1..];
      if a[0] == c {
        SplitOnCharSep(c, a[1..], b);
      } else {
        SplitOnCharOther(a[0], c, a[1..], b);
      }
    }
  }

  lemma {:induction false} JoinLinesAppend(xs: seq<string>, ys: seq<string>)
    requires |xs| > 0 && |ys| > 0
    ensures JoinLines(xs + ys) == JoinLines(xs) + "\n" + JoinLines(ys)
    decreases |xs|
  {
    if |xs| > 1 {
      assert (xs + ys)[1..] == xs[1..] + ys;
      JoinLinesAppend(xs[1..], ys);
    }
  }

  /** Whatever the head lines hold, a joined text ends with the lines appended
      after the head when those have no line break of their own. */
  lemma LinesAfterHead(head: seq<string>, data: seq<string>)
    requires |head| > 0 && |data| > 0
    requires forall i :: 0 <= i < |data| ==> '\n' !in data[i]
    ensures var lines := Split(JoinLines(head + data), "\n");
      |lines| >= |data| && lines[|lines| - |data|..] == data
  {
    JoinLinesAppend(head, data);
    JoinLinesRoundTrip(data);
    SplitOnChar(JoinLines(head), '\n', JoinLines(data));
  }

  lemma DataLinesAreSingleLines(level: int, shapInfo: string, symptoms: string)
    requires '\n' !in shapInfo
    ensures var data := DataLines(level, shapInfo, SafeNotes(symptoms));
      forall i :: 0 <= i < |data| ==> '\n' !in data[i]
  {
    var data := DataLines(level, shapInfo, SafeNotes(symptoms));
    forall i | 0 <= i < |data| ensures '\n' !in data[i] {
      if i == 0 {
        assert data[i] == "- Risk Level: " + IntStr(level);
      } else if i == 1 {
        assert data[i] == "- AI Drivers: " + shapInfo;
      } else if i == 2 {
        assert data[i] == "- Notes: " + SafeNotes(symptoms);
      } else if i == 3 {
        assert data[i] == "[/INST]";
      } else {
        assert data[i] == "";
      }
    }
  }

  /** The prompt embeds the level, the drivers and the notes each on a line of
      its own at the end of the template: the notes are flattened, so they cannot
      add lines, and as long as the drivers text is one line the last five lines
      of the prompt are exactly the patient-data block. */
  lemma PromptEndsWithPatientData(level: int, shapInfo: string, symptoms: string)
    requires '\n' !in shapInfo
    ensures var lines := Split(Prompt(level, shapInfo, SafeNotes(symptoms)), "\n");
      |lines| >= 5 && lines[|lines| - 5..] == DataLines(level, shapInfo, SafeNotes(symptoms))
  {
    DataLinesAreSingleLines(level, shapInfo, symptoms);
    LinesAfterHead(TemplateHead, DataLines(level, shapInfo, SafeNotes(symptoms)));
  }

  // ---------------------------------------------------------------------------
  // Parsing the reply.

  /** Lines 56-74: the fields taken from the parts of the flattened answer. */
  function Fields(parts: seq<string>, raw: string): Narrative {
    if |parts| >= 3 then Narrative(Strip(parts[0]), Strip(parts[1]), Strip(parts[2]))
    else if |parts| == 2 then Narrative(Strip(parts[0]), Strip(parts[1]), "General Triage")
    else Narrative(raw[..MinNat(SynthesisLimit, |raw|)], "Manual Review", "General Triage")
  }

  /** Lines 54-74: the three fields cut from the flattened answer. */
  function ParseText(raw: string): Narrative {
    Fields(Split(raw, Delimiter), raw)
  }

  /** Lines 44-76 for a reply. */
  function ParseReply(status: int, response: string): Narrative {
    if status == 200 then ParseText(Flatten(Strip(response)))
    else Narrative("API Error " + IntStr(status), "Error", "Error")
  }

  /** The result of get_explanation for a transport outcome. */
  function Interpret(t: Transport): Narrative {
    match t
    case Reply(status, response) => ParseReply(status, response)
    case ReadTimeout => Narrative("Model Timeout.", "Retry", "Timeout")
    case ConnectionFailure => Narrative("Connection Failed.", "Start Ollama", "Offline")
  }

  /** get_explanation, with the backend as a function of the prompt. Whatever
      the backend does, all three fields are present and each is one line. */
  function GetExplanation(level: int, shapInfo: string, symptoms: string, backend: string -> Transport): (n: Narrative)
    ensures '\n' !in n.synthesis && '\n' !in n.action && '\n' !in n.department
  {
    var t := backend(Prompt(level, shapInfo, SafeNotes(symptoms)));
    NarrativeSingleLine(t);
    Interpret(t)
  }

  // ---------------------------------------------------------------------------
  // What the parser recovers.

  /** A field the model may write: one line, no delimiter, no surrounding whitespace. */
  predicate Clean(x: string) {
    '\n' !in x && Free(x, Delimiter) && (x == [] || (!IsSpace(x[0]) && !IsSpace(x[|x| - 1])))
  }

  lemma FlattenSingleLine(s: string)
    requires '\n' !in s
    ensures Flatten(s) == s
  {
  }

  lemma TrimAtNonSpace(s: string)
    requires s == [] || (!IsSpace(s[0]) && !IsSpace(s[|s| - 1]))
    ensures TrimLeft(s) == s && TrimRight(s) == s && Strip(s) == s
  {
  }

  lemma TrimLeftSpace(x: string)
    ensures TrimLeft(" " + x) == TrimLeft(x)
  {
    assert (" " + x)[1..] == x;
  }

  lemma TrimRightSpace(x: string)
    ensures TrimRight(x + " ") == TrimRight(x)
  {
    assert (x + " ")[..|x|] == x;
  }

  /** strip() removes the spaces the delimiter is padded with. */
  lemma StripSpaceAfter(x: string)
    requires x == [] || (!IsSpace(x[0]) && !IsSpace(x[|x| - 1]))
    ensures Strip(x + " ") == x
  {
    TrimRightSpace(x);
    if x == [] {
      TrimLeftSpace(x);
    } else {
      assert TrimLeft(x + " ") == x + " ";
    }
    TrimAtNonSpace(x);
  }

  lemma StripSpaceBefore(x: string)
    requires x == [] || (!IsSpace(x[0]) && !IsSpace(x[|x| - 1]))
    ensures Strip(" " + x) == x
  {
    TrimLeftSpace(x);
    TrimAtNonSpace(x);
  }

  lemma StripSpaceAround(x: string)
    requires x == [] || (!IsSpace(x[0]) && !IsSpace(x[|x| - 1]))
    ensures Strip(" " + x + " ") == x
  {
    PadBoth(x);
    StripLeftSpace(x + " ");
    StripSpaceAfter(x);
  }

  lemma PadBoth(x: string)
    ensures " " + x + " " == " " + (x + " ")
  {
  }

  lemma StripLeftSpace(y: string)
    ensures Strip(" " + y) == Strip(y)
  {
    TrimLeftSpace(y);
  }

  /** Characters kept by strip() are characters of the text. */
  lemma StripInfix(s: string, c: char)
    requires c in Strip(s)
    ensures c in s
  {
    var k := |s| - |TrimLeft(s)|;
    var i :| 0 <= i < |Strip(s)| && Strip(s)[i] == c;
    assert s[k + i] == c;
  }

  /** A piece of a text free of sep is free of it too. */
  lemma FreeInfix(s: string, sep: string, k: nat, n: nat)
    requires Free(s, sep) && k + n <= |s|
    ensures Free(s[k..k + n], sep)
  {
    var r := s[k..k + n];
    forall i | 0 <= i < |r| ensures !OccursAt(r, sep, i) {
      assert !OccursAt(s, sep, k + i);
      if i + |sep| <= |r| {
        var x, y := r[i..i + |sep|], s[k + i..k + i + |sep|];
        assert forall j :: 0 <= j < |sep| ==> x[j] == y[j];
        assert x == y;
      }
    }
  }

  lemma StripPreservesFree(s: string)
    requires Free(s, Delimiter)
    ensures Free(Strip(s), Delimiter)
  {
    FreeInfix(s, Delimiter, |s| - |TrimLeft(s)|, |Strip(s)|);
  }

  lemma FlattenPreservesFree(s: string)
    requires Free(s, Delimiter)
    ensures Free(Flatten(s), Delimiter)
  {
    var r := Flatten(s);
    forall i | 0 <= i < |r| ensures !OccursAt(r, Delimiter, i) {
      assert !OccursAt(s, Delimiter, i);
    }
  }

  /** A space after a delimiter-free text keeps the first cut behind it. */
  lemma CutAfterSpace(x: string, rest: string)
    requires Free(x, Delimiter)
    ensures Split((x + " ") + Delimiter + rest, Delimiter) == [x + " "] + Split(rest, Delimiter)
  {
    var a := x + " ";
    var t := a + Delimiter + rest;
    forall i | 0 <= i < |a| ensures !OccursAt(t, Delimiter, i) {
      if i < |x| && i + 3 <= |x| {
        assert !OccursAt(x, Delimiter, i);
        assert t[i..i + 3] == x[i..i + 3];
      } else if i + 3 <= |t| {
        assert t[i..i + 3][|x| - i] == t[|x|] == ' ';
      }
    }
    SplitAtFirst(a, Delimiter, rest);
  }

  lemma SpaceBeforeFree(x: string)
    requires Free(x, Delimiter)
    ensures Free(" " + x, Delimiter)
  {
    var t := " " + x;
    forall i | 0 <= i < |t| ensures !OccursAt(t, Delimiter, i) {
      if i == 0 {
        assert t[0] == ' ';
      } else if i + 3 <= |t| {
        assert !OccursAt(x, Delimiter, i - 1);
        assert t[i..i + 3] == x[i - 1..i + 2];
      }
    }
  }

  /** The reply the prompt asks for: "a ||| b ||| c". */
  function Answer(a: string, b: string, c: string): string {
    a + " ||| " + b + " ||| " + c
  }

  /** What strip() leaves of a first field and the space after it: nothing
      for an empty field, whose space is then leading whitespace. */
  function Leading(a: string): string {
    if a == [] then [] else a + " "
  }

  /** Likewise for a last field and the space before it. */
  function Trailing(c: string): string {
    if c == [] then [] else " " + c
  }

  lemma StripLeading(a: string)
    requires Clean(a)
    ensures Strip(Leading(a)) == a
  {
    if a != [] {
      StripSpaceAfter(a);
    }
  }

  lemma StripTrailing(c: string)
    requires Clean(c)
    ensures Strip(Trailing(c)) == c
  {
    if c != [] {
      StripSpaceBefore(c);
    }
  }

  lemma TrimLeftAtNonSpace(x: string)
    requires x != [] && !IsSpace(x[0])
    ensures TrimLeft(x) == x
  {
  }

  /** strip() at the front of "a ||| ...": only the space padding an empty
      first field goes. */
  lemma TrimLeftField(a: string, w: string)
    requires Clean(a)
    ensures TrimLeft(a + " " + Delimiter + w) == Leading(a) + Delimiter + w
  {
    var x := Delimiter + w;
    assert x[0] == '|';
    if a == [] {
      assert a + " " + Delimiter + w == " " + x;
      TrimLeftSpace(x);
      TrimLeftAtNonSpace(x);
    } else {
      var y := a + " " + Delimiter + w;
      assert y[0] == a[0];
      TrimLeftAtNonSpace(y);
    }
  }

  /** strip() at the end of "... ||| c": only the space padding an empty
      last field goes. */
  lemma TrimRightField(w: string, c: string)
    requires Clean(c)
    ensures TrimRight(w + Delimiter + " " + c) == w + Delimiter + Trailing(c)
  {
    if c == [] {
      assert w + Delimiter + " " + c == (w + Delimiter) + " ";
      TrimRightSpace(w + Delimiter);
      assert (w + Delimiter)[|w + Delimiter| - 1] == '|';
    } else {
      var s := w + Delimiter + " " + c;
      assert s[|s| - 1] == c[|c| - 1];
    }
  }

  /** Trailing whitespace is stripped only from behind the last non-space
      character. */
  lemma {:induction false} TrimRightAfter(x: string, y: string)
    requires x != [] && !IsSpace(x[|x| - 1])
    ensures TrimRight(x + y) == x + TrimRight(y)
    decreases |y|
  {
    if y == [] {
      assert x + y == x;
    } else if IsSpace(y[|y| - 1]) {
      assert (x + y)[..|x + y| - 1] == x + y[..|y| - 1];
      TrimRightAfter(x, y[..|y| - 1]);
    } else {
      assert (x + y)[|x + y| - 1] == y[|y| - 1];
    }
  }

  lemma FlattenAppend(x: string, y: string)
    ensures Flatten(x + y) == Flatten(x) + Flatten(y)
  {
    forall i | 0 <= i < |x + y| ensures Flatten(x + y)[i] == (Flatten(x) + Flatten(y))[i] {
      if i < |x| {
        assert (x + y)[i] == x[i];
      } else {
        assert (x + y)[i] == y[i - |x|];
      }
    }
  }

  /** The first cut falls right after the first field. */
  lemma CutLeading(a: string, rest: string)
    requires Free(a, Delimiter)
    ensures Split(Leading(a) + Delimiter + rest, Delimiter) == [Leading(a)] + Split(rest, Delimiter)
  {
    if a == [] {
      SplitAtFirst([], Delimiter, rest);
    } else {
      CutAfterSpace(a, rest);
    }
  }

  lemma SplitTrailing(c: string)
    requires Free(c, Delimiter)
    ensures Split(Trailing(c), Delimiter) == [Trailing(c)]
  {
    if c != [] {
      SpaceBeforeFree(c);
      SplitFree(" " + c, Delimiter);
    }
  }

  /** What strip() leaves of "a ||| b ||| c". */
  function StrippedAnswer(a: string, b: string, c: string): string {
    Leading(a) + Delimiter + (" " + b + " ") + Delimiter + Trailing(c)
  }

  /** The answer regrouped around its first delimiter and around its last. */
  lemma AnswerShape(a: string, b: string, c: string)
    ensures Answer(a, b, c) == a + " " + Delimiter + ((" " + b + " ") + Delimiter + " " + c)
    ensures Leading(a) + Delimiter + ((" " + b + " ") + Delimiter + " " + c) ==
            (Leading(a) + Delimiter + (" " + b + " ")) + Delimiter + " " + c
  {
  }

  lemma StripThreeFields(a: string, b: string, c: string)
    requires Clean(a) && Clean(c)
    ensures Strip(Answer(a, b, c)) == StrippedAnswer(a, b, c)
  {
    AnswerShape(a, b, c);
    TrimLeftField(a, (" " + b + " ") + Delimiter + " " + c);
    TrimRightField(Leading(a) + Delimiter + (" " + b + " "), c);
  }

  /** The stripped answer splits into its three padded fields. */
  lemma SplitThreeFields(a: string, b: string, c: string)
    requires Free(a, Delimiter) && Free(b, Delimiter) && Free(c, Delimiter)
    ensures Split(StrippedAnswer(a, b, c), Delimiter) == [Leading(a), " " + b + " ", Trailing(c)]
  {
    var rest := (" " + b + " ") + Delimiter + Trailing(c);
    assert Split(rest, Delimiter) == [" " + b + " ", Trailing(c)] by {
      SpaceBeforeFree(b);
      CutAfterSpace(" " + b, Trailing(c));
      SplitTrailing(c);
    }
    assert StrippedAnswer(a, b, c) == Leading(a) + Delimiter + rest;
    CutLeading(a, rest);
  }

  /** A reply whose stripped text is one line is cut as that text. */
  lemma ParseStripped(response: string, core: string)
    requires Strip(response) == core && '\n' !in core
    ensures ParseReply(200, response) == ParseText(core)
  {
    FlattenSingleLine(core);
  }

  lemma PaddedSingleLine(a: string, b: string)
    requires '\n' !in a && '\n' !in b
    ensures '\n' !in Leading(a) && '\n' !in Trailing(b) && '\n' !in " " + b + " "
  {
  }

  lemma StrippedSingleLine(a: string, b: string, c: string)
    requires '\n' !in a && '\n' !in b && '\n' !in c
    ensures '\n' !in StrippedAnswer(a, b, c) && '\n' !in Leading(a) + Delimiter + Trailing(c)
  {
    PaddedSingleLine(a, c);
    PaddedSingleLine(a, b);
  }

  /** The three fields of a reply that splits into exactly three parts. */
  lemma ParseThreeParts(raw: string, p0: string, p1: string, p2: string)
    requires Split(raw, Delimiter) == [p0, p1, p2]
    ensures ParseText(raw) == Narrative(Strip(p0), Strip(p1), Strip(p2))
  {
  }

  /** The two fields of a reply that splits into exactly two parts. */
  lemma ParseTwoParts(raw: string, p0: string, p1: string)
    requires Split(raw, Delimiter) == [p0, p1]
    ensures ParseText(raw) == Narrative(Strip(p0), Strip(p1), "General Triage")
  {
  }

  /** A reply whose stripped text is one line and cuts into three parts reads
      back their stripped contents. */
  lemma ParseFromThreeParts(response: string, core: string, p0: string, p1: string, p2: string,
                            x0: string, x1: string, x2: string)
    requires Strip(response) == core && '\n' !in core && Split(core, Delimiter) == [p0, p1, p2]
    requires Strip(p0) == x0 && Strip(p1) == x1 && Strip(p2) == x2
    ensures ParseReply(200, response) == Narrative(x0, x1, x2)
  {
    ParseStripped(response, core);
    ParseThreeParts(core, p0, p1, p2);
  }

  /** A well-formed one-line answer "a ||| b ||| c" is read back field by
      field, empty fields included. */
  lemma ParseThreeFields(a: string, b: string, c: string)
    requires Clean(a) && Clean(b) && Clean(c)
    ensures ParseReply(200, Answer(a, b, c)) == Narrative(a, b, c)
  {
    StripThreeFields(a, b, c);
    StrippedSingleLine(a, b, c);
    SplitThreeFields(a, b, c);
    StripLeading(a);
    StripSpaceAround(b);
    StripTrailing(c);
    ParseFromThreeParts(Answer(a, b, c), StrippedAnswer(a, b, c), Leading(a), " " + b + " ", Trailing(c), a, b, c);
  }

  lemma JoinShape(a: string, b: string)
    ensures a + " ||| " + b == a + " " + Delimiter + (" " + b)
    ensures Leading(a) + Delimiter + (" " + b) == Leading(a) + Delimiter + " " + b
  {
  }

  lemma StripTwoFields(a: string, b: string)
    requires Clean(a) && Clean(b)
    ensures Strip(a + " ||| " + b) == Leading(a) + Delimiter + Trailing(b)
  {
    JoinShape(a, b);
    TrimLeftField(a, " " + b);
    TrimRightField(Leading(a), b);
  }

  lemma SplitTwoFields(a: string, b: string)
    requires Free(a, Delimiter) && Free(b, Delimiter)
    ensures Split(Leading(a) + Delimiter + Trailing(b), Delimiter) == [Leading(a), Trailing(b)]
  {
    CutLeading(a, Trailing(b));
    SplitTrailing(b);
  }

  lemma ParseFromTwoParts(response: string, core: string, p0: string, p1: string, x0: string, x1: string)
    requires Strip(response) == core && '\n' !in core && Split(core, Delimiter) == [p0, p1]
    requires Strip(p0) == x0 && Strip(p1) == x1
    ensures ParseReply(200, response) == Narrative(x0, x1, "General Triage")
  {
    ParseStripped(response, core);
    ParseTwoParts(core, p0, p1);
  }

  /** An answer with only two fields is routed to general triage. */
  lemma ParseTwoFields(a: string, b: string)
    requires Clean(a) && Clean(b)
    ensures ParseReply(200, a + " ||| " + b) == Narrative(a, b, "General Triage")
  {
    StripTwoFields(a, b);
    StrippedSingleLine(a, "", b);
    SplitTwoFields(a, b);
    StripLeading(a);
    StripTrailing(b);
    ParseFromTwoParts(a + " ||| " + b, Leading(a) + Delimiter + Trailing(b), Leading(a), Trailing(b), a, b);
  }

  /** The stripped answer up to the delimiter after its third field. */
  function ThreeFieldsCut(a: string, b: string, c: string): string {
    Leading(a) + Delimiter + (" " + b + " ") + Delimiter + (" " + c + " ") + Delimiter
  }

  /** The longer answer regrouped around its first delimiter and after its
      third. */
  lemma ExtraShape(a: string, b: string, c: string, d: string)
    ensures Answer(a, b, c) + " ||| " + d ==
            a + " " + Delimiter + ((" " + b + " ") + Delimiter + (" " + c + " ") + Delimiter + (" " + d))
    ensures Leading(a) + Delimiter + ((" " + b + " ") + Delimiter + (" " + c + " ") + Delimiter + (" " + d)) ==
            ThreeFieldsCut(a, b, c) + (" " + d)
  {
  }

  lemma CutEndsWithBar(a: string, b: string, c: string)
    ensures var p := ThreeFieldsCut(a, b, c); p != [] && p[|p| - 1] == '|'
  {
  }

  /** strip() on "a ||| b ||| c ||| d" can only touch the front of a and
      the end of d. */
  lemma StripExtraFields(a: string, b: string, c: string, d: string)
    requires Clean(a)
    ensures Strip(Answer(a, b, c) + " ||| " + d) == ThreeFieldsCut(a, b, c) + TrimRight(" " + d)
  {
    ExtraShape(a, b, c, d);
    TrimLeftField(a, (" " + b + " ") + Delimiter + (" " + c + " ") + Delimiter + (" " + d));
    CutEndsWithBar(a, b, c);
    TrimRightAfter(ThreeFieldsCut(a, b, c), " " + d);
  }

  /** Whatever follows the third delimiter, the first three parts are the
      three padded fields. */
  lemma SplitExtraFields(a: string, b: string, c: string, f: string)
    requires Free(a, Delimiter) && Free(b, Delimiter) && Free(c, Delimiter)
    ensures var parts := Split(ThreeFieldsCut(a, b, c) + f, Delimiter);
      |parts| >= 3 && parts[0] == Leading(a) && parts[1] == " " + b + " " && parts[2] == " " + c + " "
  {
    var tail := (" " + c + " ") + Delimiter + f;
    var mid := (" " + b + " ") + Delimiter + tail;
    SpaceBeforeFree(b);
    SpaceBeforeFree(c);
    CutAfterSpace(" " + c, f);
    CutAfterSpace(" " + b, tail);
    assert ThreeFieldsCut(a, b, c) + f == Leading(a) + Delimiter + mid;
    CutLeading(a, mid);
  }

  lemma CutSingleLine(a: string, b: string, c: string)
    requires '\n' !in a && '\n' !in b && '\n' !in c
    ensures '\n' !in ThreeFieldsCut(a, b, c)
  {
  }

  /** Flattening leaves a one-line front as it stands. */
  lemma FlattenAfter(p: string, e: string)
    requires '\n' !in p
    ensures Flatten(p + e) == p + Flatten(e)
  {
    FlattenAppend(p, e);
    FlattenSingleLine(p);
  }

  /** The fields of a reply that splits into three parts or more. */
  lemma ParseManyParts(raw: string)
    requires |Split(raw, Delimiter)| >= 3
    ensures var parts := Split(raw, Delimiter);
      ParseText(raw) == Narrative(Strip(parts[0]), Strip(parts[1]), Strip(parts[2]))
  {
  }

  /** Fields after the third are dropped, whatever they hold. */
  lemma ParseDropsExtraFields(a: string, b: string, c: string, d: string)
    requires Clean(a) && Clean(b) && Clean(c)
    ensures ParseReply(200, Answer(a, b, c) + " ||| " + d) == Narrative(a, b, c)
  {
    var p := ThreeFieldsCut(a, b, c);
    var e := TrimRight(" " + d);
    var raw := p + Flatten(e);
    assert ParseReply(200, Answer(a, b, c) + " ||| " + d) == ParseText(raw) by {
      StripExtraFields(a, b, c, d);
      CutSingleLine(a, b, c);
      FlattenAfter(p, e);
    }
    SplitExtraFields(a, b, c, Flatten(e));
    ParseManyParts(raw);
    StripLeading(a);
    StripSpaceAround(b);
    StripSpaceAround(c);
  }

  /** An answer with no delimiter at all goes to manual review, keeping at most
      the first 150 characters of what the model wrote. */
  lemma ParseWithoutDelimiter(response: string)
    requires Free(response, Delimiter)
    ensures var raw := Flatten(Strip(response));
      var n := ParseReply(200, response);
      && n.action == "Manual Review" && n.department == "General Triage"
      && |n.synthesis| == MinNat(SynthesisLimit, |raw|) && n.synthesis <= raw
  {
    StripPreservesFree(response);
    FlattenPreservesFree(Strip(response));
    SplitFree(Flatten(Strip(response)), Delimiter);
  }

  lemma StripSingleLine(x: string)
    requires '\n' !in x
    ensures '\n' !in Strip(x)
  {
    if '\n' in Strip(x) {
      StripInfix(x, '\n');
    }
  }

  lemma PartsSingleLine(raw: string)
    requires '\n' !in raw
    ensures forall k :: 0 <= k < |Split(raw, Delimiter)| ==> '\n' !in Split(raw, Delimiter)[k]
  {
    SplitPartsFromText(raw, Delimiter);
    forall k | 0 <= k < |Split(raw, Delimiter)| ensures '\n' !in Split(raw, Delimiter)[k] {
      assert Split(raw, Delimiter)[k] in Split(raw, Delimiter);
    }
  }

  lemma PrefixSingleLine(raw: string, n: nat)
    requires '\n' !in raw && n <= |raw|
    ensures '\n' !in raw[..n]
  {
    assert forall c :: c in raw[..n] ==> c in raw;
  }

  lemma FieldsSingleLine(parts: seq<string>, raw: string)
    requires '\n' !in raw
    requires forall k :: 0 <= k < |parts| ==> '\n' !in parts[k]
    ensures var n := Fields(parts, raw);
      '\n' !in n.synthesis && '\n' !in n.action && '\n' !in n.department
  {
    if |parts| >= 2 {
      StripSingleLine(parts[0]);
      StripSingleLine(parts[1]);
    }
    if |parts| >= 3 {
      StripSingleLine(parts[2]);
    }
    PrefixSingleLine(raw, MinNat(SynthesisLimit, |raw|));
  }

  lemma ParseTextSingleLine(raw: string)
    requires '\n' !in raw
    ensures var n := ParseText(raw);
      '\n' !in n.synthesis && '\n' !in n.action && '\n' !in n.department
  {
    PartsSingleLine(raw);
    FieldsSingleLine(Split(raw, Delimiter), raw);
  }

  lemma ApiErrorSingleLine(status: int)
    ensures '\n' !in "API Error " + IntStr(status)
  {
    var s := IntStr(status);
    assert forall c :: c in "API Error " + s ==> c in "API Error " || c in s;
  }

  lemma ParseReplySingleLine(status: int, response: string)
    ensures var n := ParseReply(status, response);
      '\n' !in n.synthesis && '\n' !in n.action && '\n' !in n.department
  {
    if status == 200 {
      ParseTextSingleLine(Flatten(Strip(response)));
    } else {
      ApiErrorSingleLine(status);
    }
  }

  /** Whatever the transport produced, the three fields are single lines of
      text, ready for the one-line card of the board. */
  lemma NarrativeSingleLine(t: Transport)
    ensures var n := Interpret(t);
      '\n' !in n.synthesis && '\n' !in n.action && '\n' !in n.department
  {
    match t
    case Reply(status, response) => ParseReplySingleLine(status, response);
    case ReadTimeout => FixedSingleLine("Model Timeout.", "Retry", "Timeout");
    case ConnectionFailure => FixedSingleLine("Connection Failed.", "Start Ollama", "Offline");
  }

  lemma FixedSingleLine(x: string, y: string, z: string)
    requires x == "Model Timeout." || x == "Connection Failed."
    requires y == "Retry" || y == "Start Ollama"
    requires z == "Timeout" || z == "Offline"
    ensures '\n' !in x && '\n' !in y && '\n' !in z
  {
  }

  /** The failure paths answer fixed triples. */
  lemma FailureNarratives(status: int)
    ensures status != 200 ==> ParseReply(status, "") == Narrative("API Error " + IntStr(status), "Error", "Error")
    ensures forall response :: status != 200 ==> ParseReply(status, response) == ParseReply(status, "")
    ensures Interpret(ReadTimeout) == Narrative("Model Timeout.", "Retry", "Timeout")
    ensures Interpret(ConnectionFailure) == Narrative("Connection Failed.", "Start Ollama", "Offline")
  {
  }
}
