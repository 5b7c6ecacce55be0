/** The lab-request API: the workflow actions on one request (collect,
    update results, verify, comment, interpret), request creation and the
    patient upsert, over a database of patients, requests and the catalog. */
module Views {
  import opened Common
  import opened Models
  import opened Signals
  import opened Serializers
  import AI = AiService

  /** Why an action answers 400. */
  datatype Rejection =
    | WrongStatus(current: Status)          // collect on a request that is not REGISTERED
    | InvalidBody                           // the request body fails its serializer
    | MissingSamples(missing: set<string>)  // required sample types not collected
    | EditAfterVerification                 // results of a VERIFIED request
    | TestNotInRequest(testId: string)
    | InvalidTests(invalid: set<string>)    // result keys that are not tests of the request
    | AlreadyVerified
    | MissingResults(missing: set<string>)  // result keys differ from the tests (these are the absent ones)
    | EmptyResults(testId: string)          // a test whose result list is empty

  /** The answer of an action: the stored row, a 400, a 404 or a 500. */
  datatype Outcome<T> = Ok(value: T) | BadRequest(why: Rejection) | NotFound | ServerError

  function Elements(s: seq<string>): set<string> {
    set x | x in s
  }

  // ----- collect -----

  /** `required_sample_types`: the sample types of the request's tests. */
  function RequiredSamples(catalog: Catalog, tests: set<string>): (required: set<string>)
    ensures forall s :: s in required <==> exists t :: t in catalog && t.id in tests && t.sampleTypeId == s
  {
    set t | t in catalog && t.id in tests :: t.sampleTypeId
  }

  /** The loop of views.py:115-117 over `tests.all()`. */
  method RequiredSampleTypes(tests: seq<LabTest>) returns (required: set<string>)
    ensures forall s :: s in required <==> exists t :: t in tests && t.sampleTypeId == s
    ensures required == set t | t in tests :: t.sampleTypeId
  {
    required := {};
    for i := 0 to |tests|
      invariant forall s :: s in required <==> exists k :: 0 <= k < i && tests[k].sampleTypeId == s
    {
      required := required + {tests[i].sampleTypeId};
    }
  }

  /** The sample types of `tests.all()` are those of the request's tests. */
  lemma RequiredSamplesOfTests(catalog: Catalog, tests: set<string>)
    ensures RequiredSamples(catalog, tests) == set t | t in TestsOf(catalog, tests) :: t.sampleTypeId
  {
  }

  /** `collect` on a stored row: only a REGISTERED request with every
      required sample type collected moves on, to COLLECTED, with the
      samples and comments stored and nothing else changed. */
  function CollectOn(catalog: Catalog, row: LabRequestRow, body: CollectBody): (r: Outcome<LabRequestRow>)
    ensures row.status != Registered ==> r == BadRequest(WrongStatus(row.status))
    ensures row.status == Registered && ValidateCollect(body).None? ==> r == BadRequest(InvalidBody)
    ensures r.Ok? <==>
      && row.status == Registered && ValidateCollect(body).Some?
      && RequiredSamples(catalog, row.tests) <= Elements(ValidateCollect(body).value.0)
    ensures row.status == Registered && ValidateCollect(body).Some?
            && !(RequiredSamples(catalog, row.tests) <= Elements(ValidateCollect(body).value.0)) ==>
      r.BadRequest? && r.why.MissingSamples?
    ensures r.BadRequest? && r.why.MissingSamples? ==>
      && ValidateCollect(body).Some?
      && r.why.missing == RequiredSamples(catalog, row.tests) - Elements(ValidateCollect(body).value.0)
      && r.why.missing != {}
    ensures r.Ok? ==> r.value == row.(collectedSamples := ValidateCollect(body).value.0,
                                      phlebotomyComments := ValidateCollect(body).value.1,
                                      status := Collected)
    ensures r.Ok? ==> Rank(r.value.status) == Rank(row.status) + 1
  {
    if row.status != Registered then BadRequest(WrongStatus(row.status))
    else
      match ValidateCollect(body)
      case None => BadRequest(InvalidBody)
      case Some((samples, comments)) =>
        var missing := RequiredSamples(catalog, row.tests) - Elements(samples);
        if missing != {} then
          assert !(RequiredSamples(catalog, row.tests) <= Elements(samples)) by {
            var s :| s in missing;
          }
          BadRequest(MissingSamples(missing))
        else
          assert RequiredSamples(catalog, row.tests) <= Elements(samples) by {
            forall s | s in RequiredSamples(catalog, row.tests)
              ensures s in Elements(samples)
            {
              assert s !in missing;
            }
          }
          Ok(row.(collectedSamples := samples, phlebotomyComments := comments, status := Collected))
  }

  /** The comments play no part in the sample check: any two comments the
      serializer accepts lead to the same refusal or to none. */
  lemma CollectIgnoresComments(catalog: Catalog, row: LabRequestRow, samples: Field<seq<string>>, c1: string, c2: string)
    requires CharField(c1, true).Some? && CharField(c2, true).Some?
    ensures CollectOn(catalog, row, CollectBody(samples, Given(c1))).Ok?
        <==> CollectOn(catalog, row, CollectBody(samples, Given(c2))).Ok?
    ensures CollectOn(catalog, row, CollectBody(samples, Given(c1))).BadRequest?
        ==> CollectOn(catalog, row, CollectBody(samples, Given(c2))) == CollectOn(catalog, row, CollectBody(samples, Given(c1)))
  {
  }

  // ----- update_results and update_all_results -----

  /** The status after results are written: REGISTERED and COLLECTED
      advance to ANALYZED; anything else stays. */
  function AfterResults(s: Status): (t: Status)
    ensures s != Verified ==> t == Analyzed
    ensures s == Verified ==> t == Verified
    ensures Rank(t) >= Rank(s)
  {
    match s
    case Registered => Analyzed
    case Collected => Analyzed
    case Analyzed => Analyzed
    case Verified => Verified
  }

  /** `update_results` on a stored row: refused after verification or for a
      test outside the request; otherwise only that test's list is replaced. */
  function UpdateResultsOn(row: LabRequestRow, body: UpdateResultsBody): (r: Outcome<LabRequestRow>)
    ensures row.status == Verified ==> r == BadRequest(EditAfterVerification)
    ensures row.status != Verified && ValidateUpdateResults(body).None? ==> r == BadRequest(InvalidBody)
    ensures r.Ok? <==>
      row.status != Verified && ValidateUpdateResults(body).Some? && ValidateUpdateResults(body).value.0 in row.tests
    ensures r.BadRequest? && r.why.TestNotInRequest? ==>
      ValidateUpdateResults(body).Some? && r.why.testId == ValidateUpdateResults(body).value.0 && r.why.testId !in row.tests
    ensures r.Ok? ==>
      var (testId, results) := ValidateUpdateResults(body).value;
      && r.value.results.Keys == row.results.Keys + {testId}
      && r.value.results[testId] == results
      && (forall k :: k in row.results && k != testId ==> r.value.results[k] == row.results[k])
      && r.value == row.(results := r.value.results, status := Analyzed)
  {
    if row.status == Verified then BadRequest(EditAfterVerification)
    else
      match ValidateUpdateResults(body)
      case None => BadRequest(InvalidBody)
      case Some((testId, results)) =>
        if testId !in row.tests then BadRequest(TestNotInRequest(testId))
        else Ok(row.(results := row.results[testId := results], status := AfterResults(row.status)))
  }

  /** `update_all_results` on a stored row: refused after verification or for
      any key outside the request's tests; otherwise the whole map is replaced. */
  function UpdateAllResultsOn(row: LabRequestRow, results: Field<Results>): (r: Outcome<LabRequestRow>)
    ensures row.status == Verified ==> r == BadRequest(EditAfterVerification)
    ensures row.status != Verified && !results.Given? ==> r == BadRequest(InvalidBody)
    ensures r.Ok? <==> row.status != Verified && results.Given? && results.value.Keys <= row.tests
    ensures r.BadRequest? && r.why.InvalidTests? ==>
      results.Given? && r.why.invalid == results.value.Keys - row.tests && r.why.invalid != {}
    ensures r.Ok? ==> r.value == row.(results := results.value, status := Analyzed)
  {
    if row.status == Verified then BadRequest(EditAfterVerification)
    else if !results.Given? then BadRequest(InvalidBody)
    else if !(results.value.Keys <= row.tests) then
      NonEmptyDifference(results.value.Keys, row.tests);
      BadRequest(InvalidTests(results.value.Keys - row.tests))
    else Ok(row.(results := results.value, status := AfterResults(row.status)))
  }

  lemma NonEmptyDifference(a: set<string>, b: set<string>)
    requires !(a <= b)
    ensures a - b != {}
  {
    var x :| x in a && x !in b;
    assert x in a - b;
  }

  /** Sending the same full results twice stores what sending them once does. */
  lemma UpdateAllResultsIdempotent(row: LabRequestRow, results: Field<Results>)
    requires UpdateAllResultsOn(row, results).Ok?
    ensures UpdateAllResultsOn(UpdateAllResultsOn(row, results).value, results) == UpdateAllResultsOn(row, results)
  {
  }

  /** Writing results can take a REGISTERED request straight to ANALYZED,
      a move the transition table and `clean()` do not allow. */
  lemma ResultsSkipCollection(row: LabRequestRow, body: UpdateResultsBody)
    requires row.status == Registered && UpdateResultsOn(row, body).Ok?
    ensures UpdateResultsOn(row, body).value.status == Analyzed
    ensures Analyzed !in AllowedNext(Registered)
    ensures CleanStatus(Some(row.status), UpdateResultsOn(row, body).value.status).TransitionError?
  {
  }

  // ----- verify -----

  /** The first test, in the order given, whose result list is missing or
      empty (`not results.get(test_id)`). */
  function FirstEmpty(tests: seq<LabTest>, results: Results): (r: Option<string>)
    ensures r.None? <==> forall t :: t in tests ==> Get(results, t.id, []) != []
    ensures r.Some? ==> exists t :: t in tests && t.id == r.value && Get(results, r.value, []) == []
  {
    if tests == [] then None
    else if Get(results, tests[0].id, []) == [] then Some(tests[0].id)
    else FirstEmpty(tests[1..], results)
  }

  /** `verify` on a stored row: refused when already verified, when the
      result keys are not exactly the request's tests, or when a test has no
      result; otherwise the results are stored and the status is VERIFIED,
      from any earlier status. */
  function VerifyOn(catalog: Catalog, row: LabRequestRow, results: Field<Results>): (r: Outcome<LabRequestRow>)
    requires row.tests <= CatalogIds(catalog)
    ensures row.status == Verified ==> r == BadRequest(AlreadyVerified)
    ensures row.status != Verified && !results.Given? ==> r == BadRequest(InvalidBody)
    ensures r.Ok? <==>
      && row.status != Verified && results.Given? && results.value.Keys == row.tests
      && forall t :: t in row.tests ==> results.value[t] != []
    ensures r.BadRequest? && r.why.MissingResults? ==>
      results.Given? && results.value.Keys != row.tests && r.why.missing == row.tests - results.value.Keys
    ensures r.BadRequest? && r.why.EmptyResults? ==>
      results.Given? && results.value.Keys == row.tests && r.why.testId in row.tests && results.value[r.why.testId] == []
    ensures r.Ok? ==> r.value == row.(results := results.value, status := Verified)
  {
    if row.status == Verified then BadRequest(AlreadyVerified)
    else if !results.Given? then BadRequest(InvalidBody)
    else if row.tests != results.value.Keys then BadRequest(MissingResults(row.tests - results.value.Keys))
    else
      var tests := TestsOf(catalog, row.tests);
      match FirstEmpty(tests, results.value)
      case Some(testId) => BadRequest(EmptyResults(testId))
      case None =>
        assert forall t :: t in row.tests ==> results.value[t] != [] by {
          forall id | id in row.tests
            ensures results.value[id] != []
          {
            var t :| t in catalog && t.id == id;
            assert t in tests;
          }
        }
        Ok(row.(results := results.value, status := Verified))
  }

  /** `verify` needs no ANALYZED step: a REGISTERED request with complete
      results is verified at once. */
  lemma VerifyFromRegistered(catalog: Catalog, row: LabRequestRow, results: Results)
    requires row.tests <= CatalogIds(catalog) && row.status == Registered
    requires results.Keys == row.tests && forall t :: t in results ==> results[t] != []
    ensures VerifyOn(catalog, row, Given(results)).Ok?
    ensures VerifyOn(catalog, row, Given(results)).value.status == Verified
    ensures CleanStatus(Some(row.status), Verified).TransitionError?
  {
  }

  /** An extra result key is refused with an empty list of missing tests. */
  lemma VerifyExtraKeyNamesNoTest(catalog: Catalog, row: LabRequestRow, results: Results, extra: string)
    requires row.tests <= CatalogIds(catalog) && row.status != Verified
    requires row.tests <= results.Keys && extra in results && extra !in row.tests
    ensures VerifyOn(catalog, row, Given(results)) == BadRequest(MissingResults({}))
  {
  }

  // ----- update_comment -----

  /** `update_comment`: the comment is stored whatever the status. */
  function UpdateCommentOn(row: LabRequestRow, comments: Field<string>): (r: Outcome<LabRequestRow>)
    ensures r.Ok? <==> comments.Given? && NoNullCharacters(Strip(comments.value))
    ensures !r.Ok? ==> r == BadRequest(InvalidBody)
    ensures r.Ok? ==> r.value == row.(comments := Strip(comments.value))
  {
    match ValidateComment(comments)
    case None => BadRequest(InvalidBody)
    case Some(c) => Ok(row.(comments := c))
  }

  /** A verified request still takes comments, and stays verified. */
  lemma CommentAfterVerification(row: LabRequestRow, comment: string)
    requires row.status == Verified && NoNullCharacters(Strip(comment))
    ensures UpdateCommentOn(row, Given(comment)).Ok?
    ensures UpdateCommentOn(row, Given(comment)).value.status == Verified
  {
  }

  // ----- the enrichment inside interpret -----

  /** `param_details.get(param_id)`: the test's parameter with that id (the
      dict comprehension keeps the last one of an id). */
  function FindParameter(params: seq<TestParameter>, id: Option<string>): (p: Option<TestParameter>)
    ensures p.Some? <==> id.Some? && exists k :: 0 <= k < |params| && params[k].id == id.value
    ensures p.Some? ==> p.value in params && p.value.id == id.value
  {
    if id.None? || params == [] then None
    else if params[|params| - 1].id == id.value then Some(params[|params| - 1])
    else FindParameter(params[..|params| - 1], id)
  }

  const EnrichedKeys: set<string> := {"name", "value", "unit", "referenceRange", "flag"}

  /** One enriched result: the parameter's metadata with the result's value
      (`''` when absent) and flag (`'N'` when absent). */
  function Enriched(p: TestParameter, result: ResultEntry): (e: AI.Param)
    ensures e.Keys == EnrichedKeys
    ensures e["name"] == p.name && e["unit"] == p.unit && e["referenceRange"] == p.referenceRange
    ensures e["value"] == result.value.GetOr("") && e["flag"] == result.flag.GetOr("N")
  {
    map["name" := p.name, "value" := result.value.GetOr(""), "unit" := p.unit,
        "referenceRange" := p.referenceRange, "flag" := result.flag.GetOr("N")]
  }

  /** The enriched results of one test: results whose `parameterId` is not a
      parameter of the test are dropped. */
  function EnrichedList(params: seq<TestParameter>, results: seq<ResultEntry>): (es: seq<AI.Param>)
    ensures |es| <= |results|
    ensures (forall j :: 0 <= j < |results| ==> FindParameter(params, results[j].parameterId).Some?) ==> |es| == |results|
    ensures (forall j :: 0 <= j < |results| ==> FindParameter(params, results[j].parameterId).None?) ==> es == []
    ensures forall e :: e in es ==> e.Keys == EnrichedKeys && exists p :: p in params && e["name"] == p.name
  {
    if results == [] then []
    else
      var front := EnrichedList(params, results[..|results| - 1]);
      var last := results[|results| - 1];
      assert forall j :: 0 <= j < |results| - 1 ==> results[..|results| - 1][j] == results[j];
      match FindParameter(params, last.parameterId)
      case None => front
      case Some(p) => front + [Enriched(p, last)]
  }

  /** The result's parameter is a parameter of the test. */
  predicate Known(params: seq<TestParameter>, result: ResultEntry) {
    FindParameter(params, result.parameterId).Some?
  }

  /** The enriched form of a result whose parameter is known. */
  function EnrichedEntry(params: seq<TestParameter>, result: ResultEntry): AI.Param
    requires Known(params, result)
  {
    Enriched(FindParameter(params, result.parameterId).value, result)
  }

  /** The last result is enriched after the others. */
  lemma EnrichedListStep(params: seq<TestParameter>, results: seq<ResultEntry>)
    requires results != []
    ensures var last := results[|results| - 1];
      EnrichedList(params, results) ==
        EnrichedList(params, results[..|results| - 1]) + (if Known(params, last) then [EnrichedEntry(params, last)] else [])
  {
  }

  /** Every result with a known parameter is kept, enriched. */
  lemma EnrichedListKeeps(params: seq<TestParameter>, results: seq<ResultEntry>)
    ensures forall j :: 0 <= j < |results| && Known(params, results[j]) ==>
      EnrichedEntry(params, results[j]) in EnrichedList(params, results)
  {
    forall j | 0 <= j < |results| && Known(params, results[j])
      ensures EnrichedEntry(params, results[j]) in EnrichedList(params, results)
    {
      EnrichedListKeepsAt(params, results, j);
    }
  }

  lemma {:induction false} EnrichedListKeepsAt(params: seq<TestParameter>, results: seq<ResultEntry>, j: int)
    requires 0 <= j < |results| && Known(params, results[j])
    ensures EnrichedEntry(params, results[j]) in EnrichedList(params, results)
    decreases |results|
  {
    var n := |results| - 1;
    if j < n {
      var front := results[..n];
      assert front[j] == results[j];
      EnrichedListKeepsAt(params, front, j);
      EnrichedListStep(params, results);
      InConcat(EnrichedEntry(params, front[j]), EnrichedList(params, front),
               if Known(params, results[n]) then [EnrichedEntry(params, results[n])] else []);
    } else {
      assert j == n;
      EnrichedListKeepsLast(params, results);
    }
  }

  lemma EnrichedListKeepsLast(params: seq<TestParameter>, results: seq<ResultEntry>)
    requires results != [] && Known(params, results[|results| - 1])
    ensures EnrichedEntry(params, results[|results| - 1]) in EnrichedList(params, results)
  {
    var n := |results| - 1;
    EnrichedListStep(params, results);
    InConcat(EnrichedEntry(params, results[n]), EnrichedList(params, results[..n]), [EnrichedEntry(params, results[n])]);
  }

  lemma InConcat<T>(x: T, a: seq<T>, b: seq<T>)
    requires x in a || x in b
    ensures x in a + b
  {
    if x in b {
      var k :| 0 <= k < |b| && b[k] == x;
      assert (a + b)[|a| + k] == x;
    } else {
      var k :| 0 <= k < |a| && a[k] == x;
      assert (a + b)[k] == x;
    }
  }

  /** Every entry is the enrichment of a result with a known parameter. */
  lemma {:induction false} EnrichedListOrigin(params: seq<TestParameter>, results: seq<ResultEntry>)
    ensures forall e :: e in EnrichedList(params, results) ==>
      exists j :: 0 <= j < |results| && Known(params, results[j]) && e == EnrichedEntry(params, results[j])
    decreases |results|
  {
    if results != [] {
      var n := |results| - 1;
      var front := results[..n];
      EnrichedListOrigin(params, front);
      EnrichedListStep(params, results);
      forall e | e in EnrichedList(params, results)
        ensures exists j :: 0 <= j < |results| && Known(params, results[j]) && e == EnrichedEntry(params, results[j])
      {
        if e in EnrichedList(params, front) {
          var j :| 0 <= j < n && Known(params, front[j]) && e == EnrichedEntry(params, front[j]);
          assert front[j] == results[j];
        } else {
          assert Known(params, results[n]) && e == EnrichedEntry(params, results[n]);
        }
      }
    }
  }

  /** Enriching a concatenation enriches each part, in order. */
  lemma {:induction false} EnrichedListAppend(params: seq<TestParameter>, a: seq<ResultEntry>, b: seq<ResultEntry>)
    ensures EnrichedList(params, a + b) == EnrichedList(params, a) + EnrichedList(params, b)
    decreases |b|
  {
    if b == [] {
      assert a + b == a;
    } else {
      var b' := b[..|b| - 1];
      assert (a + b)[..|a + b| - 1] == a + b';
      assert (a + b)[|a + b| - 1] == b[|b| - 1];
      EnrichedListAppend(params, a, b');
    }
  }

  /** A single result is kept, enriched, exactly when its parameter is known. */
  lemma EnrichedListSingle(params: seq<TestParameter>, result: ResultEntry)
    ensures FindParameter(params, result.parameterId).None? ==> EnrichedList(params, [result]) == []
    ensures FindParameter(params, result.parameterId).Some? ==>
      EnrichedList(params, [result]) == [Enriched(FindParameter(params, result.parameterId).value, result)]
  {
    assert [result][..0] == [];
  }

  /** The line the prompt shows for an enriched result names the parameter
      and carries the result's flag marker, and no marker without a flag. */
  lemma EnrichedLine(p: TestParameter, result: ResultEntry)
    ensures IsSubstring(p.name, AI.ParamLine(Enriched(p, result)))
    ensures result.flag == Some("H") ==> IsSubstring(" [HIGH]", AI.ParamLine(Enriched(p, result)))
    ensures result.flag == Some("L") ==> IsSubstring(" [LOW]", AI.ParamLine(Enriched(p, result)))
    ensures result.flag.None? ==> AI.FlagMarker(Get(Enriched(p, result), "flag", "N")) == ""
  {
    var e := Enriched(p, result);
    var tail := AI.FlagMarker(Get(e, "flag", "N")) + AI.ReferenceSuffix(Get(e, "referenceRange", "")) + "\n";
    assert Get(e, "name", "Unknown") == p.name;
    if result.flag == Some("H") || result.flag == Some("L") {
      SubstringOfConcat("", AI.FlagMarker(Get(e, "flag", "N")), AI.ReferenceSuffix(Get(e, "referenceRange", "")) + "\n");
      assert "" + AI.FlagMarker(Get(e, "flag", "N")) + (AI.ReferenceSuffix(Get(e, "referenceRange", "")) + "\n") == tail;
      SubstringTrans(AI.FlagMarker(Get(e, "flag", "N")), tail, AI.ParamLine(e));
    }
  }

  /** The test names in a `test_results` dict, in insertion order. */
  predicate HasKey(trs: AI.TestResults, name: string) {
    exists k :: 0 <= k < |trs| && trs[k].0 == name
  }

  predicate DistinctKeys(trs: AI.TestResults) {
    forall i, j :: 0 <= i < j < |trs| ==> trs[i].0 != trs[j].0
  }

  /** `d[name]` of a dict given by its items. */
  function Lookup(trs: AI.TestResults, name: string): (v: Option<seq<AI.Param>>)
    ensures v.Some? <==> HasKey(trs, name)
  {
    if trs == [] then None
    else if trs[0].0 == name then Some(trs[0].1)
    else
      assert forall k :: 1 <= k < |trs| ==> trs[k] == trs[1..][k - 1];
      Lookup(trs[1..], name)
  }

  /** `d[name] = v` on a dict: an existing key keeps its place, a new key is
      appended. */
  function Put(trs: AI.TestResults, name: string, v: seq<AI.Param>): (r: AI.TestResults)
    ensures forall n :: HasKey(r, n) <==> HasKey(trs, n) || n == name
    ensures Lookup(r, name) == Some(v)
    ensures forall n :: n != name ==> Lookup(r, n) == Lookup(trs, n)
    ensures DistinctKeys(trs) ==> DistinctKeys(r)
    ensures |r| == if HasKey(trs, name) then |trs| else |trs| + 1
  {
    if trs == [] then
      ItemsCons((name, v), []);
      assert [(name, v)] + [] == [(name, v)];
      [(name, v)]
    else
      assert trs == [trs[0]] + trs[1..];
      ItemsCons(trs[0], trs[1..]);
      if trs[0].0 == name then
        ItemsCons((name, v), trs[1..]);
        [(name, v)] + trs[1..]
      else
        var rest := Put(trs[1..], name, v);
        ItemsCons(trs[0], rest);
        [trs[0]] + rest
  }

  /** The keys, lookups and distinctness of items with one more in front. */
  lemma ItemsCons(x: (string, seq<AI.Param>), rest: AI.TestResults)
    ensures forall n :: HasKey([x] + rest, n) <==> x.0 == n || HasKey(rest, n)
    ensures DistinctKeys([x] + rest) <==> !HasKey(rest, x.0) && DistinctKeys(rest)
    ensures Lookup([x] + rest, x.0) == Some(x.1)
    ensures forall n :: n != x.0 ==> Lookup([x] + rest, n) == Lookup(rest, n)
  {
    var r := [x] + rest;
    assert forall k :: 1 <= k < |r| ==> r[k] == rest[k - 1];
    assert r[1..] == rest;
    forall n
      ensures HasKey(r, n) <==> x.0 == n || HasKey(rest, n)
    {
      if HasKey(rest, n) {
        var k :| 0 <= k < |rest| && rest[k].0 == n;
        assert r[k + 1].0 == n;
      }
      if HasKey(r, n) && x.0 != n {
        var k :| 0 <= k < |r| && r[k].0 == n;
        assert rest[k - 1].0 == n;
      }
      if x.0 == n {
        assert r[0].0 == n;
      }
    }
    if DistinctKeys(r) {
      forall k | 0 <= k < |rest|
        ensures rest[k].0 != x.0
      {
        assert r[k + 1] == rest[k] && r[0] == x;
      }
      forall i, j | 0 <= i < j < |rest|
        ensures rest[i].0 != rest[j].0
      {
        assert r[i + 1] == rest[i] && r[j + 1] == rest[j];
      }
    }
    if !HasKey(rest, x.0) && DistinctKeys(rest) {
      forall i, j | 0 <= i < j < |r|
        ensures r[i].0 != r[j].0
      {
        if i == 0 {
          assert rest[j - 1].0 == r[j].0;
        } else {
          assert r[i] == rest[i - 1] && r[j] == rest[j - 1];
        }
      }
    }
  }

  /** `test_results` as the loop of views.py:288-309 builds it: one entry per
      test that has results, keyed by test name. */
  function EnrichedResults(tests: seq<LabTest>, results: Results): (trs: AI.TestResults)
    ensures DistinctKeys(trs) && |trs| <= |tests|
    ensures forall n :: HasKey(trs, n) <==> exists t :: t in tests && t.id in results && t.name == n
  {
    if tests == [] then []
    else
      var front := EnrichedResults(tests[..|tests| - 1], results);
      var t := tests[|tests| - 1];
      assert forall u :: u in tests <==> u in tests[..|tests| - 1] || u == t;
      if t.id in results then Put(front, t.name, EnrichedList(t.parameters, results[t.id])) else front
  }

  /** With distinct test names, each test that has results appears under its
      own name with its enriched list. */
  lemma {:induction false} EnrichedByName(tests: seq<LabTest>, results: Results, i: int)
    requires 0 <= i < |tests| && tests[i].id in results
    requires forall a, b :: 0 <= a < b < |tests| ==> tests[a].name != tests[b].name
    ensures Lookup(EnrichedResults(tests, results), tests[i].name)
      == Some(EnrichedList(tests[i].parameters, results[tests[i].id]))
    decreases |tests|
  {
    var front := tests[..|tests| - 1];
    if i < |tests| - 1 {
      assert front[i] == tests[i];
      EnrichedByName(front, results, i);
    }
  }

  /** The dict `interpret` builds from the patient. */
  function PatientInfo(p: Patient): (info: map<string, string>)
    ensures info.Keys == {"name", "age", "gender"}
    ensures info["name"] == p.name && info["age"] == IntToDecimal(p.age) && info["gender"] == p.gender
  {
    map["name" := p.name, "age" := IntToDecimal(p.age), "gender" := p.gender]
  }

  /** The inner loop: one test's results enriched in order. */
  method EnrichList(params: seq<TestParameter>, results: seq<ResultEntry>) returns (enriched: seq<AI.Param>)
    ensures enriched == EnrichedList(params, results)
  {
    enriched := [];
    for k := 0 to |results|
      invariant enriched == EnrichedList(params, results[..k])
    {
      var result := results[k];
      var param := FindParameter(params, result.parameterId);
      assert results[..k + 1][..k] == results[..k];
      if param.Some? {
        enriched := enriched + [Enriched(param.value, result)];
      }
    }
    assert results[..|results|] == results;
  }

  /** The outer loop over the request's tests. */
  method EnrichResults(tests: seq<LabTest>, results: Results) returns (testResults: AI.TestResults)
    ensures testResults == EnrichedResults(tests, results)
  {
    testResults := [];
    for i := 0 to |tests|
      invariant testResults == EnrichedResults(tests[..i], results)
    {
      var test := tests[i];
      assert tests[..i + 1][..i] == tests[..i];
      if test.id in results {
        var enriched := EnrichList(test.parameters, results[test.id]);
        testResults := Put(testResults, test.name, enriched);
      }
    }
    assert tests[..|tests|] == tests;
  }

  // ----- request creation -----

  /** The row `LabRequestCreateSerializer.create` leaves: numbered, saved
      through the pre-save hooks, then given the selected tests. */
  function CreatedRow(catalog: Catalog, patients: map<string, Patient>, requests: map<string, LabRequestRow>,
                      data: CreateData, today: int, stamp: string): (row: LabRequestRow)
    requires data.patient != "" && data.patient in patients
    ensures row.status == Registered && row.results == map[] && row.createdDay == today
    ensures row.tests == SelectedTests(catalog, data.testIds)
    ensures row.labNo == LabNumber(stamp, TodayCount(requests, today))
    ensures row.patientId == data.patient && row.patientName == patients[data.patient].name
    ensures row.payment == RecalculatedPayment(data.payment)
    ensures row.referredBy == data.referredBy
    ensures row.comments == "" && row.aiInterpretation == "" && row.collectedSamples == [] && row.phlebotomyComments == ""
  {
    var initial := RegisteredRow(data, today);
    var numbered := initial.(labNo := AssignLabNo(initial.labNo, stamp, TodayCount(requests, today)));
    SavedRow(numbered, patients).(tests := SelectedTests(catalog, data.testIds))
  }

  // ----- the database -----

  /** What every save keeps of a row: it refers to a stored patient and to
      catalog tests, carries a lab number, its patient's current name and a
      recomputed payment; its result keys are tests of the request; a
      VERIFIED request has a non-empty result list for every test. */
  ghost predicate RowValid(catalog: Catalog, patients: map<string, Patient>, row: LabRequestRow) {
    && row.labNo != ""
    && row.patientId in patients && row.patientName == patients[row.patientId].name
    && row.tests <= CatalogIds(catalog)
    && row.results.Keys <= row.tests
    && RecalculatedPayment(row.payment) == row.payment
    && (row.status == Verified ==> row.results.Keys == row.tests && forall t :: t in row.tests ==> row.results[t] != [])
  }

  /** The tables together: patients are stored under their (non-empty) ids,
      every row is valid and lab numbers are unique. */
  ghost predicate Consistent(catalog: Catalog, patients: map<string, Patient>, requests: map<string, LabRequestRow>) {
    && (forall pid :: pid in patients ==> pid != "" && patients[pid].id == pid)
    && (forall id :: id in requests ==> RowValid(catalog, patients, requests[id]))
    && (forall a, b :: a in requests && b in requests && a != b ==> requests[a].labNo != requests[b].labNo)
  }

  /** The pre-save hooks leave a valid row as it is. */
  lemma ValidRowResaved(catalog: Catalog, patients: map<string, Patient>, row: LabRequestRow)
    requires RowValid(catalog, patients, row)
    requires forall pid :: pid in patients ==> pid != ""
    ensures SavedRow(row, patients) == row
  {
  }

  /** Replacing a row by a valid one with the same lab number keeps the tables consistent. */
  lemma ReplacePreservesConsistency(catalog: Catalog, patients: map<string, Patient>,
                                    requests: map<string, LabRequestRow>, pk: string, row: LabRequestRow)
    requires Consistent(catalog, patients, requests) && pk in requests
    requires RowValid(catalog, patients, row) && row.labNo == requests[pk].labNo
    ensures Consistent(catalog, patients, requests[pk := row])
  {
  }

  /** Adding a valid row under a new key and an unused lab number keeps the tables consistent. */
  lemma InsertPreservesConsistency(catalog: Catalog, patients: map<string, Patient>,
                                   requests: map<string, LabRequestRow>, newId: string, row: LabRequestRow)
    requires Consistent(catalog, patients, requests) && newId !in requests
    requires RowValid(catalog, patients, row)
    requires forall id :: id in requests ==> requests[id].labNo != row.labNo
    ensures Consistent(catalog, patients, requests[newId := row])
  {
  }

  /** One row after its patient is saved: renamed if it is that patient's. */
  lemma RenamedRowValid(catalog: Catalog, patients: map<string, Patient>, row: LabRequestRow, p: Patient,
                        renamed: LabRequestRow)
    requires RowValid(catalog, patients, row)
    requires renamed == if row.patientId == p.id then row.(patientName := p.name) else row
    ensures RowValid(catalog, patients[p.id := p], renamed)
  {
  }

  /** Saving a patient and renaming its requests keeps the tables
      consistent. A new patient has no requests yet. */
  lemma PatientSavePreservesConsistency(catalog: Catalog, patients: map<string, Patient>,
                                        requests: map<string, LabRequestRow>, p: Patient)
    requires Consistent(catalog, patients, requests) && p.id != ""
    ensures Consistent(catalog, patients[p.id := p], RenamedRequests(requests, p.id, p.name))
  {
    var patients' := patients[p.id := p];
    var requests' := RenamedRequests(requests, p.id, p.name);
    forall id | id in requests'
      ensures RowValid(catalog, patients', requests'[id])
    {
      RenamedRowValid(catalog, patients, requests[id], p, requests'[id]);
    }
    forall a, b | a in requests' && b in requests' && a != b
      ensures requests'[a].labNo != requests'[b].labNo
    {
      assert requests'[a].labNo == requests[a].labNo && requests'[b].labNo == requests[b].labNo;
    }
  }

  /** A newly created request is a valid row. */
  lemma CreatedRowValid(catalog: Catalog, patients: map<string, Patient>, requests: map<string, LabRequestRow>,
                        data: CreateData, today: int, stamp: string)
    requires data.patient != "" && data.patient in patients
    ensures RowValid(catalog, patients, CreatedRow(catalog, patients, requests, data, today, stamp))
  {
    RecalculationIdempotent(data.payment);
  }

  /** The tables the API works on. Rows are values; an action loads one,
      changes fields and saves it back through the pre-save hooks. */
  class Backend {
    const catalog: Catalog
    var patients: map<string, Patient>
    var requests: map<string, LabRequestRow>

    ghost predicate Valid()
      reads this
    {
      Consistent(catalog, patients, requests)
    }

    constructor (catalog: Catalog)
      ensures this.catalog == catalog && patients == map[] && requests == map[]
      ensures Valid()
    {
      this.catalog := catalog;
      patients := map[];
      requests := map[];
    }

    /** `lab_request.save()` of a stored row: its lab number is kept and the
        pre-save hooks leave a valid row as it is. */
    method Save(pk: string, row: LabRequestRow) returns (saved: LabRequestRow)
      requires Valid() && pk in requests && RowValid(catalog, patients, row) && row.labNo == requests[pk].labNo
      modifies this
      ensures saved == row && requests == old(requests)[pk := row] && patients == old(patients)
      ensures Valid()
    {
      ValidRowResaved(catalog, patients, row);
      ReplacePreservesConsistency(catalog, patients, requests, pk, row);
      saved := PreSave(row, patients);
      requests := requests[pk := saved];
    }

    /** The `tests.all()` ids of a valid row are its tests. */
    lemma TestIdsOfRow(row: LabRequestRow)
      requires RowValid(catalog, patients, row)
      ensures (set t | t in TestsOf(catalog, row.tests) :: t.id) == row.tests
    {
      TestIdsOf(catalog, row.tests);
    }

    method Collect(pk: string, body: CollectBody) returns (r: Outcome<LabRequestRow>)
      requires Valid()
      modifies this
      ensures Valid() && patients == old(patients)
      ensures pk !in old(requests) ==> r == NotFound
      ensures pk in old(requests) ==> r == CollectOn(catalog, old(requests)[pk], body)
      ensures r.Ok? ==> requests == old(requests)[pk := r.value]
      ensures !r.Ok? ==> requests == old(requests)
    {
      if pk !in requests {
        return NotFound;
      }
      var labRequest := requests[pk];
      if labRequest.status != Registered {
        return BadRequest(WrongStatus(labRequest.status));
      }
      var validated := ValidateCollect(body);
      if validated.None? {
        return BadRequest(InvalidBody);
      }
      var collectedSamples := validated.value.0;
      var requiredSampleTypes := RequiredSampleTypes(TestsOf(catalog, labRequest.tests));
      RequiredSamplesOfTests(catalog, labRequest.tests);
      var missingSamples := requiredSampleTypes - Elements(collectedSamples);
      if missingSamples != {} {
        return BadRequest(MissingSamples(missingSamples));
      }
      labRequest := labRequest.(collectedSamples := collectedSamples,
                                phlebotomyComments := validated.value.1,
                                status := Collected);
      labRequest := Save(pk, labRequest);
      r := Ok(labRequest);
    }

    method UpdateResults(pk: string, body: UpdateResultsBody) returns (r: Outcome<LabRequestRow>)
      requires Valid()
      modifies this
      ensures Valid() && patients == old(patients)
      ensures pk !in old(requests) ==> r == NotFound
      ensures pk in old(requests) ==> r == UpdateResultsOn(old(requests)[pk], body)
      ensures r.Ok? ==> requests == old(requests)[pk := r.value]
      ensures !r.Ok? ==> requests == old(requests)
    {
      if pk !in requests {
        return NotFound;
      }
      var labRequest := requests[pk];
      if labRequest.status == Verified {
        return BadRequest(EditAfterVerification);
      }
      var validated := ValidateUpdateResults(body);
      if validated.None? {
        return BadRequest(InvalidBody);
      }
      var (testId, results) := validated.value;
      var testIds := set t | t in TestsOf(catalog, labRequest.tests) :: t.id;
      TestIdsOfRow(labRequest);
      if testId !in testIds {
        return BadRequest(TestNotInRequest(testId));
      }
      var currentResults := labRequest.results;
      currentResults := currentResults[testId := results];
      labRequest := labRequest.(results := currentResults);
      if labRequest.status == Registered || labRequest.status == Collected {
        labRequest := labRequest.(status := Analyzed);
      }
      labRequest := Save(pk, labRequest);
      r := Ok(labRequest);
    }

    method UpdateAllResults(pk: string, body: Field<Results>) returns (r: Outcome<LabRequestRow>)
      requires Valid()
      modifies this
      ensures Valid() && patients == old(patients)
      ensures pk !in old(requests) ==> r == NotFound
      ensures pk in old(requests) ==> r == UpdateAllResultsOn(old(requests)[pk], body)
      ensures r.Ok? ==> requests == old(requests)[pk := r.value]
      ensures !r.Ok? ==> requests == old(requests)
    {
      if pk !in requests {
        return NotFound;
      }
      var labRequest := requests[pk];
      if labRequest.status == Verified {
        return BadRequest(EditAfterVerification);
      }
      var validated := Required(body);
      if validated.None? {
        return BadRequest(InvalidBody);
      }
      var results := validated.value;
      var testIds := set t | t in TestsOf(catalog, labRequest.tests) :: t.id;
      TestIdsOfRow(labRequest);
      var resultTestIds := results.Keys;
      if !(resultTestIds <= testIds) {
        return BadRequest(InvalidTests(resultTestIds - testIds));
      }
      labRequest := labRequest.(results := results);
      if labRequest.status == Registered || labRequest.status == Collected {
        labRequest := labRequest.(status := Analyzed);
      }
      labRequest := Save(pk, labRequest);
      r := Ok(labRequest);
    }

    method UpdateComment(pk: string, body: Field<string>) returns (r: Outcome<LabRequestRow>)
      requires Valid()
      modifies this
      ensures Valid() && patients == old(patients)
      ensures pk !in old(requests) ==> r == NotFound
      ensures pk in old(requests) ==> r == UpdateCommentOn(old(requests)[pk], body)
      ensures r.Ok? ==> requests == old(requests)[pk := r.value]
      ensures !r.Ok? ==> requests == old(requests)
    {
      if pk !in requests {
        return NotFound;
      }
      var labRequest := requests[pk];
      var validated := ValidateComment(body);
      if validated.None? {
        return BadRequest(InvalidBody);
      }
      labRequest := labRequest.(comments := validated.value);
      labRequest := Save(pk, labRequest);
      r := Ok(labRequest);
    }

    method Verify(pk: string, body: Field<Results>) returns (r: Outcome<LabRequestRow>)
      requires Valid()
      modifies this
      ensures Valid() && patients == old(patients)
      ensures pk !in old(requests) ==> r == NotFound
      ensures pk in old(requests) ==> r == VerifyOn(catalog, old(requests)[pk], body)
      ensures r.Ok? ==> requests == old(requests)[pk := r.value]
      ensures !r.Ok? ==> requests == old(requests)
    {
      if pk !in requests {
        return NotFound;
      }
      var labRequest := requests[pk];
      if labRequest.status == Verified {
        return BadRequest(AlreadyVerified);
      }
      var validated := Required(body);
      if validated.None? {
        return BadRequest(InvalidBody);
      }
      var results := validated.value;
      var testIds := set t | t in TestsOf(catalog, labRequest.tests) :: t.id;
      TestIdsOfRow(labRequest);
      var resultTestIds := results.Keys;
      if testIds != resultTestIds {
        return BadRequest(MissingResults(testIds - resultTestIds));
      }
      var tests := TestsOf(catalog, labRequest.tests);
      for i := 0 to |tests|
        invariant FirstEmpty(tests, results) == FirstEmpty(tests[i..], results)
      {
        assert tests[i..][1..] == tests[i + 1..];
        if Get(results, tests[i].id, []) == [] {
          return BadRequest(EmptyResults(tests[i].id));
        }
      }
      labRequest := labRequest.(results := results, status := Verified);
      labRequest := Save(pk, labRequest);
      r := Ok(labRequest);
    }

    /** `interpret`, with the model call made with the arguments
        `analyze_lab_results` declares: the interpretation (or the fixed
        fallback text) is stored and nothing else changes. */
    method Interpret(pk: string, ai: AI.AIService, generate: (string, string) -> AI.Generation)
      returns (r: Outcome<LabRequestRow>)
      requires Valid()
      modifies this
      ensures Valid() && patients == old(patients)
      ensures pk !in old(requests) ==> r == NotFound && requests == old(requests)
      ensures pk in old(requests) ==>
        var row := old(requests)[pk];
        && r == Ok(row.(aiInterpretation := ai.AnalyzeLabResults(
                          PatientInfo(old(patients)[row.patientId]),
                          EnrichedResults(TestsOf(catalog, row.tests), row.results), generate)))
        && requests == old(requests)[pk := r.value]
    {
      if pk !in requests {
        return NotFound;
      }
      var labRequest := requests[pk];
      var patientData := PatientInfo(patients[labRequest.patientId]);
      var testResults := EnrichResults(TestsOf(catalog, labRequest.tests), labRequest.results);
      var interpretation := ai.AnalyzeLabResults(patientData, testResults, generate);
      labRequest := labRequest.(aiInterpretation := interpretation);
      labRequest := Save(pk, labRequest);
      r := Ok(labRequest);
    }

    /** `LabRequestViewSet.create`: `newId` is the fresh UUID. A missing
        patient raises (500), and so does a lab number already in use (the
        column is unique). */
    /** `LabRequest.objects.create(...)` up to the insert: the first `save()`
        numbers the row and runs the pre-save hooks; the tests come after. */
    method NewRow(data: CreateData, today: int, stamp: string) returns (row: LabRequestRow)
      requires data.patient != "" && data.patient in patients
      ensures row.labNo == LabNumber(stamp, TodayCount(requests, today))
      ensures row.(tests := SelectedTests(catalog, data.testIds)) == CreatedRow(catalog, patients, requests, data, today, stamp)
    {
      row := RegisteredRow(data, today);
      row := row.(labNo := AssignLabNo(row.labNo, stamp, TodayCount(requests, today)));
      row := PreSave(row, patients);
    }

    method CreateRequest(newId: string, body: CreateBody, today: int, stamp: string)
      returns (r: Outcome<LabRequestRow>)
      requires Valid() && newId !in requests
      modifies this
      ensures Valid() && patients == old(patients)
      ensures ValidateCreate(body).None? ==> r == BadRequest(InvalidBody)
      ensures ValidateCreate(body).Some? && ValidateCreate(body).value.patient !in old(patients) ==> r == ServerError
      ensures ValidateCreate(body).Some? && ValidateCreate(body).value.patient in old(patients) ==>
        var row := CreatedRow(catalog, old(patients), old(requests), ValidateCreate(body).value, today, stamp);
        && ((exists id :: id in old(requests) && old(requests)[id].labNo == row.labNo) ==> r == ServerError)
        && ((forall id :: id in old(requests) ==> old(requests)[id].labNo != row.labNo) ==> r == Ok(row))
      ensures r.Ok? ==> requests == old(requests)[newId := r.value]
      ensures !r.Ok? ==> requests == old(requests)
    {
      var validated := ValidateCreate(body);
      if validated.None? {
        return BadRequest(InvalidBody);
      }
      var data := validated.value;
      if data.patient !in patients {
        return ServerError;
      }
      var labRequest := NewRow(data, today, stamp);
      if exists id :: id in requests && requests[id].labNo == labRequest.labNo {
        return ServerError;
      }
      // The row is inserted, then its many-to-many tests are set; only the
      // final row is observable.
      labRequest := labRequest.(tests := SelectedTests(catalog, data.testIds));
      CreatedRowValid(catalog, patients, requests, data, today, stamp);
      Insert(newId, labRequest);
      r := Ok(labRequest);
    }

    /** The INSERT of a new row under a fresh key. */
    method Insert(newId: string, row: LabRequestRow)
      requires Valid() && newId !in requests
      requires RowValid(catalog, patients, row)
      requires forall id :: id in requests ==> requests[id].labNo != row.labNo
      modifies this
      ensures Valid()
      ensures patients == old(patients) && requests == old(requests)[newId := row]
    {
      InsertPreservesConsistency(catalog, patients, requests, newId, row);
      requests := requests[newId := row];
    }

    /** `Patient.save()` followed by its post-save hook. */
    method SavePatient(p: Patient)
      requires Valid() && p.id != ""
      modifies this
      ensures patients == old(patients)[p.id := p]
      ensures requests == RenamedRequests(old(requests), p.id, p.name)
      ensures Valid()
    {
      PatientSavePreservesConsistency(catalog, patients, requests, p);
      patients := patients[p.id := p];
      requests := RenamedRequests(requests, p.id, p.name);
    }

    /** `PatientViewSet.create`: with a (non-empty) id, a partial update of
        that patient; without one, a new patient under the next free number.
        The id of a stored patient is never rewritten. */
    method UpsertPatient(id: Option<string>, body: PatientBody) returns (r: Outcome<Patient>)
      requires Valid()
      modifies this
      ensures Valid()
      ensures r.Ok? ==> patients == old(patients)[r.value.id := r.value]
      ensures r.Ok? ==> requests == RenamedRequests(old(requests), r.value.id, r.value.name)
      ensures !r.Ok? ==> patients == old(patients) && requests == old(requests)
      ensures id.Some? && id.value != "" && id.value !in old(patients) ==> r == NotFound
      ensures id.Some? && id.value != "" && id.value in old(patients) ==>
        && (r.Ok? <==> ValidatePatient(body, true).Some?)
        && (r.Ok? ==> r.value == UpdatedPatient(old(patients)[id.value], ValidatePatient(body, true).value))
      ensures (id.None? || id == Some("")) ==>
        && (r.Ok? <==> ValidatePatient(body, false).Some?)
        && (r.Ok? ==> IsNextPatientId(old(patients).Keys, r.value.id)
                      && r.value == NewPatient(r.value.id, ValidatePatient(body, false).value))
      ensures !r.Ok? ==> r == NotFound || r == BadRequest(InvalidBody)
    {
      if id.Some? && id.value != "" {
        if id.value !in patients {
          return NotFound;
        }
        var validated := ValidatePatient(body, true);
        if validated.None? {
          return BadRequest(InvalidBody);
        }
        var patient := UpdatedPatient(patients[id.value], validated.value);
        SavePatient(patient);
        r := Ok(patient);
      } else {
        var validated := ValidatePatient(body, false);
        if validated.None? {
          return BadRequest(InvalidBody);
        }
        var patient := CreatePatient(validated.value);
        r := Ok(patient);
      }
    }

    /** The create path of `PatientViewSet.create` after validation: the new
        patient under the next free number, with the numbering corrected. */
    method CreatePatient(d: PatientData) returns (p: Patient)
      requires Valid()
      requires d.name.Some? && d.age.Some? && d.gender.Some? && d.phone.Some?
      modifies this
      ensures Valid()
      ensures patients == old(patients)[p.id := p]
      ensures requests == RenamedRequests(old(requests), p.id, p.name)
      ensures IsNextPatientId(old(patients).Keys, p.id)
      ensures p == NewPatient(p.id, d)
    {
      var n := NextPatientNumber(patients.Keys);
      p := NewPatient(PatientIdFor(n), d);
      SavePatient(p);
    }
  }
}
