/** The AI interpretation client: the prompt it builds from a patient and
    the enriched results, and the fixed texts it returns instead of raising.
    The generative model itself is a parameter: a function from the model
    name and the prompt to either a text or a raised exception. */
module AiService {
  import opened Common

  /** One enriched parameter dict (`name`, `value`, `unit`, `referenceRange`, `flag`). */
  type Param = map<string, string>

  /** `test_results`: test name to parameter dicts, in dict insertion order. */
  type TestResults = seq<(string, seq<Param>)>

  /** What `generate_content(prompt).text` gives: a text, or an exception. */
  datatype Generation = Generated(text: string) | Raised

  const ModelName: string := "gemini-pro"

  const NotAvailable: string := "AI interpretation is not available. Please configure GEMINI_API_KEY."

  const Unavailable: string := "Unable to generate AI interpretation at this time. Please try again later."

  /** The parameter names of `analyze_lab_results` after `self`. */
  const AnalyzeParameters: set<string> := {"patient_data", "test_results"}

  // ----- the prompt -----

  const Opening: string :=
    "You are a medical professional assistant analyzing laboratory test results.\n\nPatient Information:\n- Name: "
  const AgeLabel: string := "\n- Age: "
  const GenderLabel: string := " years\n- Gender: "
  const ResultsHeading: string := "\n\nLaboratory Test Results:\n\n"

  /** The fixed opening, the patient block and the results heading. */
  function Header(patientData: map<string, string>): string {
    Opening + Get(patientData, "name", "N/A") + AgeLabel + Get(patientData, "age", "N/A") + GenderLabel
    + Get(patientData, "gender", "N/A") + ResultsHeading
  }

  const Footer: string :=
    "\nPlease provide a professional medical interpretation of these results including:\n"
    + "1. Summary of abnormal findings (if any)\n2. Clinical significance of the results\n"
    + "3. Possible conditions indicated by the abnormalities\n4. Recommendations for follow-up (if needed)\n\n"
    + "Keep the interpretation clear, concise, and professional. Focus on clinically significant findings.\n"

  /** The marker after a value: only the flags `H` and `L` get one. */
  function FlagMarker(flag: string): (marker: string)
    ensures flag == "H" <==> marker == " [HIGH]"
    ensures flag == "L" <==> marker == " [LOW]"
    ensures flag != "H" && flag != "L" <==> marker == ""
  {
    if flag == "H" then " [HIGH]" else if flag == "L" then " [LOW]" else ""
  }

  /** The reference range, when there is one. */
  function ReferenceSuffix(range: string): (suffix: string)
    ensures range == "" <==> suffix == ""
    ensures range != "" ==> IsSubstring(range, suffix)
  {
    if range == "" then ""
    else
      SubstringOfConcat(" (Reference: ", range, ")");
      " (Reference: " + range + ")"
  }

  /** `a + b` starts and `d` ends the string `a + b + c + d`. */
  lemma FourPartsEnds(a: string, b: string, c: string, d: string)
    ensures var s := a + b + c + d;
      |a + b| <= |s| && s[..|a + b|] == a + b && |d| <= |s| && s[|s| - |d|..] == d
  {
    var s := a + b + c + d;
    assert s == (a + b) + (c + d);
    assert s == (a + b + c) + d;
  }

  lemma InFiveParts(a: string, x: string, b: string, y: string, c: string)
    ensures IsSubstring(x, a + x + b + y + c) && IsSubstring(y, a + x + b + y + c)
  {
    assert a + x + b + y + c == a + x + (b + y + c);
    SubstringOfConcat(a, x, b + y + c);
    assert a + x + b + y + c == (a + x + b) + y + c;
    SubstringOfConcat(a + x + b, y, c);
  }

  /** The line of one parameter, with the `.get` defaults of the loop body. */
  function ParamLine(param: Param): (line: string)
    ensures IsSubstring(Get(param, "name", "Unknown"), line)
    ensures IsSubstring(FlagMarker(Get(param, "flag", "N")) + ReferenceSuffix(Get(param, "referenceRange", "")) + "\n", line)
    ensures var tail := FlagMarker(Get(param, "flag", "N")) + ReferenceSuffix(Get(param, "referenceRange", "")) + "\n";
      |tail| <= |line| && line[|line| - |tail|..] == tail
    ensures var head := "  - " + Get(param, "name", "Unknown");
      |head| <= |line| && line[..|head|] == head
  {
    var head := "  - ";
    var name := Get(param, "name", "Unknown");
    var rest := ": " + Get(param, "value", "N/A") + " " + Get(param, "unit", "");
    var tail := FlagMarker(Get(param, "flag", "N")) + ReferenceSuffix(Get(param, "referenceRange", "")) + "\n";
    InFiveParts(head, name, rest, tail, "");
    assert head + name + rest + tail + "" == head + name + rest + tail;
    FourPartsEnds(head, name, rest, tail);
    head + name + rest + tail
  }

  /** The lines of a test's parameters, in order. */
  function ParamLines(params: seq<Param>): string {
    if params == [] then "" else ParamLines(params[..|params| - 1]) + ParamLine(params[|params| - 1])
  }

  /** One test's heading followed by its parameter lines. */
  function TestBlock(name: string, params: seq<Param>): string {
    "\n" + name + ":\n" + ParamLines(params)
  }

  /** The blocks of all tests, in order. */
  function TestBlocks(testResults: TestResults): string {
    if testResults == [] then ""
    else
      var last := testResults[|testResults| - 1];
      TestBlocks(testResults[..|testResults| - 1]) + TestBlock(last.0, last.1)
  }

  /** The prompt `_create_prompt` returns. */
  function PromptText(patientData: map<string, string>, testResults: TestResults): string {
    Header(patientData) + TestBlocks(testResults) + Footer
  }

  /** The body of the inner loop of `_create_prompt`: one parameter's line appended. */
  method AppendParamLine(current: string, param: Param) returns (prompt: string)
    ensures prompt == current + ParamLine(param)
  {
    var paramName := Get(param, "name", "Unknown");
    var value := Get(param, "value", "N/A");
    var unit := Get(param, "unit", "");
    var refRange := Get(param, "referenceRange", "");
    var flag := Get(param, "flag", "N");
    var flagIndicator := "";
    if flag == "H" {
      flagIndicator := " [HIGH]";
    } else if flag == "L" {
      flagIndicator := " [LOW]";
    }
    prompt := current + "  - " + paramName + ": " + value + " " + unit + flagIndicator;
    ghost var withMarker := prompt;
    if refRange != "" {
      prompt := prompt + " (Reference: " + refRange + ")";
      Regroup(withMarker, " (Reference: ", refRange, ")");
    }
    assert prompt == withMarker + ReferenceSuffix(refRange);
    prompt := prompt + "\n";
    LineRegroup(current, "  - ", paramName, ": ", value, " ", unit, flagIndicator, ReferenceSuffix(refRange), "\n");
  }

  lemma LineRegroup(c: string, h: string, n: string, p1: string, v: string, p2: string, u: string,
                    f: string, r: string, nl: string)
    ensures c + h + n + p1 + v + p2 + u + f + r + nl == c + (h + n + (p1 + v + p2 + u) + (f + r + nl))
  {
  }

  /** The body of the outer loop of `_create_prompt`: a test's heading and
      then, by the inner loop, its parameter lines. */
  method AppendTestBlock(current: string, testName: string, parameters: seq<Param>) returns (prompt: string)
    ensures prompt == current + TestBlock(testName, parameters)
  {
    ghost var heading := "\n" + testName + ":\n";
    prompt := current + "\n" + testName + ":\n";
    Assoc(current, "\n" + testName, ":\n");
    Assoc(current, "\n", testName);
    assert parameters[..0] == [];
    var j := 0;
    while j < |parameters|
      invariant 0 <= j <= |parameters|
      invariant prompt == current + heading + ParamLines(parameters[..j])
    {
      ghost var lines := ParamLines(parameters[..j]);
      prompt := AppendParamLine(prompt, parameters[j]);
      assert parameters[..j + 1][..j] == parameters[..j];
      assert ParamLines(parameters[..j + 1]) == lines + ParamLine(parameters[j]);
      Assoc(current + heading, lines, ParamLine(parameters[j]));
      j := j + 1;
    }
    assert parameters[..j] == parameters;
    Assoc(current, heading, ParamLines(parameters));
  }

  /** `_create_prompt`: the prompt accumulated test by test, line by line. */
  method CreatePrompt(patientData: map<string, string>, testResults: TestResults) returns (prompt: string)
    ensures prompt == PromptText(patientData, testResults)
  {
    prompt := Header(patientData);
    var i := 0;
    while i < |testResults|
      invariant 0 <= i <= |testResults|
      invariant prompt == Header(patientData) + TestBlocks(testResults[..i])
    {
      var (testName, parameters) := testResults[i];
      ghost var blocks := TestBlocks(testResults[..i]);
      prompt := AppendTestBlock(prompt, testName, parameters);
      assert testResults[..i + 1][..i] == testResults[..i];
      assert TestBlocks(testResults[..i + 1]) == blocks + TestBlock(testName, parameters);
      Assoc(Header(patientData), blocks, TestBlock(testName, parameters));
      i := i + 1;
    }
    assert testResults[..i] == testResults;
    prompt := prompt + Footer;
  }

  lemma Assoc(a: string, b: string, c: string)
    ensures a + b + c == a + (b + c)
  {
  }

  // ----- what the prompt contains -----

  /** The patient's name, age and gender are in the prompt (`N/A` when missing). */
  lemma PromptHasPatient(patientData: map<string, string>, testResults: TestResults)
    ensures IsSubstring(Get(patientData, "name", "N/A"), PromptText(patientData, testResults))
    ensures IsSubstring(Get(patientData, "age", "N/A"), PromptText(patientData, testResults))
    ensures IsSubstring(Get(patientData, "gender", "N/A"), PromptText(patientData, testResults))
  {
    var name, age, gender := Get(patientData, "name", "N/A"), Get(patientData, "age", "N/A"), Get(patientData, "gender", "N/A");
    PromptShape(patientData, testResults);
    PatientParts(Opening, name, AgeLabel, age, GenderLabel, gender, ResultsHeading + TestBlocks(testResults) + Footer);
  }

  lemma PromptShape(patientData: map<string, string>, testResults: TestResults)
    ensures PromptText(patientData, testResults)
      == Opening + Get(patientData, "name", "N/A") + AgeLabel + Get(patientData, "age", "N/A") + GenderLabel
         + Get(patientData, "gender", "N/A") + (ResultsHeading + TestBlocks(testResults) + Footer)
  {
    var name, age, gender := Get(patientData, "name", "N/A"), Get(patientData, "age", "N/A"), Get(patientData, "gender", "N/A");
    var h := Header(patientData);
    assert h == Opening + name + AgeLabel + age + GenderLabel + gender + ResultsHeading;
    Regroup(Opening + name + AgeLabel + age + GenderLabel + gender, ResultsHeading, TestBlocks(testResults), Footer);
  }

  lemma Regroup(a: string, b: string, c: string, d: string)
    ensures a + b + c + d == a + (b + c + d)
  {
  }

  lemma PatientParts(a: string, x: string, b: string, y: string, c: string, z: string, d: string)
    ensures var s := a + x + b + y + c + z + d;
      IsSubstring(x, s) && IsSubstring(y, s) && IsSubstring(z, s)
  {
    var s := a + x + b + y + c + z + d;
    InFiveParts(a, x, b, y, c + z + d);
    assert s == a + x + b + y + (c + z + d);
    InFiveParts(a + x + b + y + c, z, d, "", "");
    assert s == (a + x + b + y + c) + z + d + "" + "";
  }

  lemma {:induction false} LineInLines(params: seq<Param>, j: int)
    requires 0 <= j < |params|
    ensures IsSubstring(ParamLine(params[j]), ParamLines(params))
    decreases |params|
  {
    var front := params[..|params| - 1];
    var last := ParamLine(params[|params| - 1]);
    assert ParamLines(params) == ParamLines(front) + last;
    if j == |params| - 1 {
      InTail(ParamLines(front), last);
    } else {
      assert front[j] == params[j];
      LineInLines(front, j);
      InHead(ParamLines(front), last);
      SubstringTrans(ParamLine(params[j]), ParamLines(front), ParamLines(params));
    }
  }

  lemma {:induction false} BlockInBlocks(testResults: TestResults, i: int)
    requires 0 <= i < |testResults|
    ensures IsSubstring(TestBlock(testResults[i].0, testResults[i].1), TestBlocks(testResults))
    decreases |testResults|
  {
    var front := testResults[..|testResults| - 1];
    var last := testResults[|testResults| - 1];
    var block := TestBlock(last.0, last.1);
    assert TestBlocks(testResults) == TestBlocks(front) + block;
    if i == |testResults| - 1 {
      InTail(TestBlocks(front), block);
    } else {
      assert front[i] == testResults[i];
      BlockInBlocks(front, i);
      InHead(TestBlocks(front), block);
      SubstringTrans(TestBlock(testResults[i].0, testResults[i].1), TestBlocks(front), TestBlocks(testResults));
    }
  }

  /** A test's block is in the prompt. */
  lemma BlockInPrompt(patientData: map<string, string>, testResults: TestResults, i: int)
    requires 0 <= i < |testResults|
    ensures IsSubstring(TestBlock(testResults[i].0, testResults[i].1), PromptText(patientData, testResults))
  {
    BlockInBlocks(testResults, i);
    SubstringOfConcat(Header(patientData), TestBlocks(testResults), Footer);
    SubstringTrans(TestBlock(testResults[i].0, testResults[i].1), TestBlocks(testResults), PromptText(patientData, testResults));
  }

  /** A test's name and each of its parameter lines are in its block. */
  lemma LineInBlock(name: string, params: seq<Param>, j: int)
    requires 0 <= j < |params|
    ensures IsSubstring(name, TestBlock(name, params))
    ensures IsSubstring(ParamLine(params[j]), TestBlock(name, params))
  {
    InFiveParts("\n", name, ":\n", ParamLines(params), "");
    assert "\n" + name + ":\n" + ParamLines(params) + "" == TestBlock(name, params);
    LineInLines(params, j);
    SubstringTrans(ParamLine(params[j]), ParamLines(params), TestBlock(name, params));
  }

  /** Every test name and every parameter line, hence every parameter name,
      flag marker and reference range, is in the prompt. */
  lemma PromptHasEveryParameter(patientData: map<string, string>, testResults: TestResults, i: int, j: int)
    requires 0 <= i < |testResults| && 0 <= j < |testResults[i].1|
    ensures IsSubstring(testResults[i].0, PromptText(patientData, testResults))
    ensures IsSubstring(ParamLine(testResults[i].1[j]), PromptText(patientData, testResults))
    ensures IsSubstring(Get(testResults[i].1[j], "name", "Unknown"), PromptText(patientData, testResults))
  {
    var name, params := testResults[i].0, testResults[i].1;
    var p := PromptText(patientData, testResults);
    var block := TestBlock(name, params);
    BlockInPrompt(patientData, testResults, i);
    LineInBlock(name, params, j);
    SubstringTrans(name, block, p);
    SubstringTrans(ParamLine(params[j]), block, p);
    SubstringTrans(Get(params[j], "name", "Unknown"), ParamLine(params[j]), p);
  }

  // ----- the client -----

  /** The service object: `model` is set once, from the API key. */
  class AIService {
    const model: Option<string>

    /** `__init__`: no model without a (non-empty) API key. */
    constructor (apiKey: Option<string>)
      ensures (apiKey == None || apiKey == Some("")) ==> model == None
      ensures apiKey.Some? && apiKey.value != "" ==> model == Some(ModelName)
    {
      if apiKey == None || apiKey == Some("") {
        model := None;
      } else {
        model := Some(ModelName);
      }
    }

    /** `analyze_lab_results`: the fixed text without a model, the generated
        text, or the fixed apology when generation raises; it never raises. */
    function AnalyzeLabResults(patientData: map<string, string>, testResults: TestResults,
                               generate: (string, string) -> Generation): (text: string)
      ensures model.None? ==> text == NotAvailable
      ensures model.Some? && generate(model.value, PromptText(patientData, testResults)).Raised? ==> text == Unavailable
      ensures model.Some? && generate(model.value, PromptText(patientData, testResults)).Generated? ==>
        text == generate(model.value, PromptText(patientData, testResults)).text
    {
      if model.None? then NotAvailable
      else
        match generate(model.value, PromptText(patientData, testResults))
        case Generated(t) => t
        case Raised => Unavailable
    }

    /** A call of `analyze_lab_results` that passes both arguments by position
        and then the given keyword arguments. A keyword the method does not
        declare is unexpected, and one it declares gives that parameter a
        second value, so Python raises `TypeError` (here `None`) at the call
        for any keyword at all. */
    function AnalyzeWithKeywords(keywords: set<string>, patientData: map<string, string>, testResults: TestResults,
                                 generate: (string, string) -> Generation): (r: Option<string>)
      ensures r.None? <==> keywords != {}
      ensures r.Some? ==> r.value == AnalyzeLabResults(patientData, testResults, generate)
    {
      if keywords == {} then Some(AnalyzeLabResults(patientData, testResults, generate)) else None
    }
  }

  /** Without an API key, whatever the results, the answer is the fixed text. */
  lemma NoKeyNotAvailable(ai: AIService, patientData: map<string, string>, testResults: TestResults,
                          generate: (string, string) -> Generation)
    requires ai.model == None
    ensures ai.AnalyzeLabResults(patientData, testResults, generate) == NotAvailable
  {
  }

  /** The `request_id` keyword is not a parameter, so such a call never returns. */
  lemma RequestIdKeywordRaises(ai: AIService, patientData: map<string, string>, testResults: TestResults,
                               generate: (string, string) -> Generation)
    ensures ai.AnalyzeWithKeywords({"request_id"}, patientData, testResults, generate) == None
  {
    assert "request_id" !in AnalyzeParameters;
  }

  /** Naming a declared parameter again by keyword raises as well. */
  lemma RepeatedKeywordRaises(ai: AIService, k: string, patientData: map<string, string>, testResults: TestResults,
                              generate: (string, string) -> Generation)
    requires k in AnalyzeParameters
    ensures ai.AnalyzeWithKeywords({k}, patientData, testResults, generate) == None
  {
    assert k in {k};
  }
}
