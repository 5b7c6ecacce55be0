# Lab-request workflow of the medical laboratory backend

This project models the core of a Django REST backend for a medical laboratory.
Each lab request (an order of catalog tests for one patient) is registered and
then moves through `REGISTERED → COLLECTED → ANALYZED → VERIFIED` by a small set
of guarded API actions:

- **collect** stores the collected samples and refuses the action while any sample type the tests need is missing;
- **update_results** and **update_all_results** store parameter results;
- **verify** finalises a complete set of results;
- **update_comment** stores a comment;
- **interpret** enriches the results with parameter metadata and asks an AI model for a narrative interpretation.

Around the workflow the model covers:

- patient ids (`P001`, `P002`, …) and lab numbers (`LAB-<date>-NNN`);
- the status transition table and `clean()`;
- the pre-save hooks that recompute the payment on the server and fill in the denormalised patient name;
- the post-save hook that renames a patient's requests;
- request creation from the catalog;
- the read-only fields and the camelCase response shape;
- the prompt construction and the never-raising fallbacks of the AI client.

The model is split into modules:

- `Common`: Python's `str.strip`, string order, `dict.get`, decimal formatting and `:03d`, substring search.
- `Models`: statuses and the transition table, the records, patient ids, lab numbers.
- `Signals`: the payment recomputation, the name population and the rename hook.
- `Serializers`: the request-body validation, request creation, the read-only fields, the response renaming.
- `AiService`: the prompt text, the accumulating loops that build it, and the client with its fallbacks.
- `Views`: the per-action semantics on a stored row, the enrichment loops of `interpret`, and the `Backend` class.

`Backend` holds the catalog, the patient table and the request table. Its methods:

- load a row;
- apply an action;
- save the row back through the pre-save hooks;
- keep a table invariant (`Valid`). Under it, rows refer to stored patients and catalog tests, carry a unique lab number, their patient's current name and a recomputed payment, and a VERIFIED request has a non-empty result list for each of its tests.

The inputs that come from outside are parameters:

- the request UUID;
- the date stamp and the calendar day;
- the API key;
- the model call, a function from (model name, prompt) to generated text or a raised error.

Where the code and its test-suite disagree, the model follows the code:

- Request ids are UUIDs, not `REQ…` strings (backend/api/models.py:108), although backend/api/tests.py:316 expects the prefix.
- `save()` never calls `clean()`. An invalid transition or an edit after verification is therefore stored without error (backend/api/models.py:145-157), although backend/api/tests.py:89-128 expects errors. The actions enforce their own guards, and `update_results` can take a REGISTERED request straight to ANALYZED (`Views.ResultsSkipCollection`).
- An empty `test_ids` list is accepted (`Serializers.EmptyTestListAccepted`), and unknown test ids are dropped silently (`Serializers.UnknownTestIdsDropped`). backend/api/tests/test_serializers.py:77-90 and 111-124 expect both to be refused.
- Result flags are stored as the client sends them. Nothing derives High/Low from the reference range.
- backend/api/views.py:9-15 imports `SampleTypeSerializer` and `TestParameterSerializer`, which backend/api/serializers.py does not define. The read-only catalog viewsets that use them are not part of this model.
- backend/api/tests/test_serializers.py:92-109 expects the validated payment to carry `netPayable`, `balanceDue` and `discountPercent`. backend/api/serializers.py:60-64 computes nothing during validation; only the pre-save hook does (`Signals.RecalculatedPayment`).
- A `verify` body whose result keys are a strict superset of the request's tests is refused with an empty list of missing tests (`Views.VerifyExtraKeyNamesNoTest`).

## Model

| member | source | states |
|---|---|---|
| Models.AllowedNext | backend/api/models.py:101-106 | a status may move only to the one after it in workflow order; VERIFIED has no successor |
| Models.CleanStatus | backend/api/models.py:125-143 | `clean()` fails exactly when a stored row's status changes to one that is not the next status, reporting the old and new statuses and the allowed set; a new row or an unchanged status passes; a backward move always fails |
| Models.TestsOf | backend/api/models.py:113 | `tests.all()` holds exactly the catalog tests whose id is in the request's test set |
| Models.TestIdsOf | backend/api/models.py:113 | for test ids drawn from the catalog, the ids of `tests.all()` are exactly those ids |
| Models.PatientIdFor | backend/api/models.py:51 | `P` followed by the number padded to three digits: four characters below 1000, and its suffix parses back to the number |
| Models.ParseSuffix | backend/api/models.py:45-48 | `int(id[1:])` succeeds exactly when at least one character follows the first and all of them are digits, and then yields their decimal value |
| Models.PatientIdInjective | backend/api/models.py:51 | distinct numbers give distinct patient ids |
| Models.NumberAfter | backend/api/models.py:43-50 | one past the last id's numeric suffix, or 1 when there is no patient or the suffix does not parse |
| Models.LastIdUnique | backend/api/models.py:42 | the first id in descending string order is unique |
| Models.AsWrittenPatientId | backend/api/models.py:38-51 | as written, the new id is P001 for an empty table or an unparsable last id, otherwise one past the suffix of the greatest id in string order |
| Models.PatientIdOrder | backend/api/models.py:42 | below 1000, string order on patient ids is numeric order |
| Models.LastOfFirstIds | backend/api/models.py:42 | with P001…Pn stored (n ≤ 999), Pn is the first id in descending string order |
| Models.ConsecutivePatientIds | backend/api/tests/test_models.py:23-41 | up to P999, each creation gets the next consecutive id, and that id is not yet taken |
| Models.PatientId999And1000 | backend/api/models.py:51 | 999 gives `P999` and 1000 gives `P1000`: padding does not cut longer numbers |
| Models.P999IsLastOfFirstThousand | backend/api/models.py:42 | with P001…P1000 stored, P999 sorts last |
| Models.P1000BeforeP999 | backend/api/models.py:42 | in the string order of the descending `-id` query, P1000 comes before P999 |
| Models.AsWrittenPatientIdRepeats | backend/api/models.py:38-51 | as written, the 1001st patient is given `P1000`, an id already taken |
| Models.NextPatientNumber | backend/api/models.py:38-51 | the intended number: at least 1, above every parsable suffix, one past some suffix unless it is 1, and its id is not stored |
| Models.IsNextPatientIdUnique | backend/api/models.py:42-51 | with the numbering corrected, the id of a new patient is determined by the stored ids |
| Models.LabNumber | backend/api/models.py:151-155 | `LAB-` + date stamp + `-` + at least three digits whose value is today's count plus one |
| Models.LabNumberInjective | backend/api/models.py:155 | lab numbers with stamps of equal length are equal only for the same stamp and count |
| Models.AssignLabNo | backend/api/models.py:147-155 | a lab number is assigned only when the row has none; an existing one is kept; the result is never empty |
| Models.FirstLabNumberOfTheDay | backend/api/tests/test_models.py:63-75 | the first request of a day is numbered `-001`: the counter restarts each day |
| Models.TodayCountGrows | backend/api/models.py:154 | storing one more request of the day raises the count by one, so the next lab number differs |
| Common.ZeroPad3 | backend/api/models.py:51 | `:03d`: all digits, at least three, exactly three below 1000, the plain decimal at and above 1000, and it parses back to the number |
| Common.StrLessTotal | backend/api/models.py:42 | string order is total and asymmetric, so `order_by('-id').first()` is determined |
| Signals.Max0 | backend/api/signals.py:29 | `max(0, x)` is at least 0 and at least x, and is one of them |
| Signals.RecalculatedPayment | backend/api/signals.py:18-43 | an empty payment is kept; otherwise netPayable = max(0, total − discount) and balanceDue = max(0, netPayable − paid), with missing amounts counted as 0; both are ≥ 0; other keys are kept; a missing discountPercent becomes discount/total·100, or 0 when total ≤ 0 |
| Signals.RecalculatePayment | backend/api/signals.py:19-43 | the step-by-step copy-and-write computes exactly the recalculated payment |
| Signals.RecalculationIdempotent | backend/api/signals.py:21-43 | recomputing a recomputed payment changes nothing |
| Signals.ClientTotalsIgnored | backend/api/signals.py:29-34 | whatever netPayable and balanceDue the client sends, the stored payment is the same |
| Signals.PaymentExamples | backend/api/tests/test_models.py:91-136 | 1000/100/800 gives 900/100, an overpayment leaves balance 0, and by the formula the discount is 10 % |
| Signals.ServerSidePaymentExample | backend/api/tests.py:319-343 | 1000/100/500 sent with client totals 0/0 is stored as 900/400 |
| Signals.PopulatedName | backend/api/signals.py:7-15 | the name is filled from the patient only when the row has none and its patient exists; otherwise it is kept |
| Signals.PreSave | backend/api/signals.py:7-43 | the two pre-save receivers give the row its populated name and recalculated payment and change nothing else |
| Signals.ResaveUnchanged | backend/api/signals.py:7-43 | a row with a name and an already recalculated payment is saved unchanged |
| Signals.RenamedRequests | backend/api/signals.py:46-49 | every request of the patient gets the patient's name; other requests and the set of requests are unchanged |
| Serializers.CharField | backend/api/serializers.py:62 | the value is trimmed, and refused when blank unless blank is allowed, or when it holds a NUL character |
| Serializers.CharFieldRefusesNul | backend/api/serializers.py:62 | a NUL character anywhere in the raw value is refused, since trimming only removes whitespace |
| Serializers.CharFieldIdempotent | backend/api/serializers.py:62 | a value that passed the field passes again unchanged |
| Serializers.CharList | backend/api/serializers.py:63 | a list passes exactly when every element is non-blank after trimming and holds no NUL character, and then holds the trimmed elements in order |
| Serializers.Required | backend/api/serializers.py:102 | a required field passes exactly when it is present and not null |
| Serializers.ValidateCollect | backend/api/serializers.py:88-91 | the samples must be a list of non-blank strings without NUL characters; the comments may be blank or absent (`''`) but not null and hold no NUL character |
| Serializers.ValidateUpdateResults | backend/api/serializers.py:94-97 | a non-blank test id without NUL characters (trimmed) and a result list are both required |
| Serializers.ValidateComment | backend/api/serializers.py:105-107 | the comment is required, may be blank and may not hold a NUL character; it is stored trimmed |
| Serializers.ValidateCreate | backend/api/serializers.py:60-71 | patient, test ids and payment are required, and no string among them holds a NUL character; `referred_by` defaults to `''`, may not be null and holds no NUL character |
| Serializers.EmptyTestListAccepted | backend/api/tests/test_serializers.py:77-90 | a body with no tests is accepted, and a missing `referred_by` becomes `''` |
| Serializers.SelectedTests | backend/api/serializers.py:82-83 | a test id is selected exactly when it is in the catalog and in the list; an empty list selects nothing |
| Serializers.UnknownTestIdsDropped | backend/api/tests/test_serializers.py:111-124 | ids unknown to the catalog change nothing in the selection |
| Serializers.RegisteredRow | backend/api/serializers.py:75-79 | the new row is REGISTERED with no tests, no results, no lab number and no name yet, and the given patient, payment and referrer |
| Serializers.WritableInput | backend/api/serializers.py:30-35 | the `Meta` settings of a model serializer: exactly the declared, non-read-only keys of a body are taken for writing, with their values |
| Serializers.ReadOnlyNeverWritten | backend/api/serializers.py:35 | client values for id, lab_no, patient_name, date and the timestamps of a request, and the id of a patient, are never written |
| Serializers.BoundedCharField | backend/api/models.py:29-32 | a model `CharField(max_length=n)`: trimmed, non-blank, at most n characters, no NUL character; absent stays unset; null is refused |
| Serializers.ValidatePatient | backend/api/serializers.py:5-11 | a create body without name, age, gender or phone, or with a gender outside the choices, is refused; an accepted name is non-blank and ≤ 200, a phone non-blank and ≤ 20, a gender one of the choices, and an age present exactly when given |
| Serializers.PatientValidation | backend/api/serializers.py:5-11 | accepted exactly when name (≤ 200) and phone (≤ 20) are absent, or non-blank without a NUL character, gender is absent or one of the choices, age is not null, a given email trims to at most 254 characters without a NUL character, and a create body carries name, age, gender and phone; the accepted values are the trimmed strings, and an email maps absent to not supplied, null to null and a given one to its trimmed text |
| Serializers.UpdatedPatient | backend/api/views.py:37-38 | a partial update replaces the supplied fields only and never the id |
| Serializers.NewPatient | backend/api/views.py:43-48 | a created patient has the validated fields under the given id, and a null email when none was supplied |
| Serializers.ToRepresentation | backend/api/serializers.py:37-57 | the response has exactly the fourteen camelCase keys, each holding its field's value; referredBy, comments, aiInterpretation and phlebotomyComments default to `''`, and collectedSamples to `[]` |
| Serializers.FromRepresentation | backend/api/serializers.py:41-56 | the inverse renaming yields exactly the fourteen field names |
| Serializers.RepresentationRoundTrip | backend/api/serializers.py:41-56 | renaming and renaming back recovers every field of a full serialization |
| AiService.FlagMarker | backend/api/services/ai_service.py:77-81 | ` [HIGH]` exactly for flag `H`, ` [LOW]` exactly for `L`, and nothing otherwise |
| AiService.ReferenceSuffix | backend/api/services/ai_service.py:84-85 | the reference text is appended exactly when the range is non-empty, and then contains the range |
| AiService.ParamLine | backend/api/services/ai_service.py:71-86 | a parameter's line starts with `  - ` and its name (`Unknown` when missing), and ends with its flag marker, its reference suffix and a newline |
| AiService.AppendParamLine | backend/api/services/ai_service.py:71-86 | the inner loop body appends exactly the parameter's line to the prompt |
| AiService.AppendTestBlock | backend/api/services/ai_service.py:68-86 | one pass of the outer loop appends exactly the test's heading and one line per parameter, in order |
| AiService.CreatePrompt | backend/api/services/ai_service.py:53-98 | the nested accumulating loops build exactly the header, one block per test in insertion order, and the footer |
| AiService.PromptHasPatient | backend/api/tests/test_ai_service.py:75-99 | the prompt contains the patient's name, age and gender, each `N/A` when missing |
| AiService.LineInLines | backend/api/services/ai_service.py:70-86 | every parameter's line appears in its test's lines |
| AiService.BlockInBlocks | backend/api/services/ai_service.py:68-86 | every test's block appears in the prompt body |
| AiService.BlockInPrompt | backend/api/services/ai_service.py:53-98 | every test's block appears in the prompt |
| AiService.LineInBlock | backend/api/services/ai_service.py:69-86 | a test's block contains its name and every one of its parameter lines |
| AiService.PromptHasEveryParameter | backend/api/services/ai_service.py:68-86 | the prompt contains every test name, every parameter line and every parameter name |
| AiService.AIService.constructor | backend/api/services/ai_service.py:12-20 | no model without an API key (missing or empty); otherwise the `gemini-pro` model |
| AiService.AIService.AnalyzeLabResults | backend/api/services/ai_service.py:22-51 | without a model the fixed "not available" text; a raised generation gives the fixed "unable to generate" text; otherwise the generated text for exactly this prompt; it never raises |
| AiService.AIService.AnalyzeWithKeywords | backend/api/services/ai_service.py:22 | both arguments go by position, so a call with any keyword raises: an undeclared one is unexpected, a declared one gets a second value; without keywords it is the plain call |
| AiService.RepeatedKeywordRaises | backend/api/services/ai_service.py:22 | repeating `patient_data` or `test_results` as a keyword raises too |
| AiService.NoKeyNotAvailable | backend/api/tests/test_ai_service.py:49-58 | with no model the answer is the "not available" text |
| AiService.RequestIdKeywordRaises | backend/api/views.py:313-317 | the call with `request_id=` raises before analysing anything |
| Views.RequiredSamples | backend/api/views.py:114-117 | the required sample types are exactly those of the request's tests |
| Views.RequiredSampleTypes | backend/api/views.py:115-117 | the loop collects exactly the sample types of the given tests |
| Views.RequiredSamplesOfTests | backend/api/views.py:116 | the sample types of `tests.all()` are the required sample types of the request |
| Views.CollectOn | backend/api/views.py:97-135 | refused unless the status is exactly REGISTERED, then for a bad body, then when a required sample type is missing (all missing types named); accepted exactly otherwise, storing the samples and comments, moving to COLLECTED (one step forward) and changing nothing else |
| Views.CollectIgnoresComments | backend/api/tests/test_views.py:166-180 | among comments the serializer accepts, whether collect is refused, and why, does not depend on the phlebotomy comments |
| Views.AfterResults | backend/api/views.py:168-170 | writing results moves any unverified status to ANALYZED and never backwards |
| Views.UpdateResultsOn | backend/api/views.py:137-175 | refused after verification, for a bad body, or for a test outside the request; otherwise only that test's list is set, other lists are kept, the status becomes ANALYZED and nothing else changes |
| Views.UpdateAllResultsOn | backend/api/views.py:177-215 | refused after verification, without results, or when a key is not a test of the request (all such keys named); otherwise the whole map is replaced and the status becomes ANALYZED |
| Views.UpdateAllResultsIdempotent | backend/api/views.py:206-210 | sending the same results twice stores what sending them once does |
| Views.ResultsSkipCollection | backend/api/views.py:168-170 | a REGISTERED request can be taken straight to ANALYZED, a move the transition table and `clean()` refuse |
| Views.FirstEmpty | backend/api/views.py:259-264 | finds a test with a missing or empty result list exactly when one exists, and only such a test |
| Views.VerifyOn | backend/api/views.py:230-272 | refused when already verified, without results, when the result keys differ from the tests (the absent ones named), or when a test's list is empty; otherwise the results are stored and the status is VERIFIED |
| Views.VerifyFromRegistered | backend/api/views.py:234-240 | VERIFIED is the only status refused: a REGISTERED request with complete results is verified at once, with no ANALYZED step, a move `clean()` would refuse |
| Views.VerifyExtraKeyNamesNoTest | backend/api/views.py:248-256 | an extra result key is refused although no test is missing |
| Views.UpdateCommentOn | backend/api/views.py:217-228 | the comment is stored whatever the status; only a missing or null comment, or one holding a NUL character, is refused |
| Views.CommentAfterVerification | backend/api/views.py:217-228 | a verified request still takes a comment without NUL characters and stays verified |
| Views.FindParameter | backend/api/views.py:293-300 | finds a parameter exactly when the result's `parameterId` is the id of one of the test's parameters |
| Views.Enriched | backend/api/views.py:301-307 | an enriched entry has the parameter's name, unit and range, the result's value (`''` when absent) and flag (`N` when absent) |
| Views.EnrichedList | backend/api/views.py:296-307 | at most one entry per result; all kept when every parameter is known, none when none is; each entry names a parameter of the test |
| Views.EnrichedListKeeps | backend/api/views.py:296-307 | every result whose parameter is a parameter of the test is kept, enriched with that parameter's metadata |
| Views.EnrichedListOrigin | backend/api/views.py:296-307 | every entry is the enrichment of a result whose parameter is known |
| Views.EnrichedListAppend | backend/api/views.py:296-307 | the loop enriches a list piecewise: the entries of a concatenation are those of each part, in order |
| Views.EnrichedListSingle | backend/api/views.py:298-307 | one result gives one entry when its parameter is known and none otherwise |
| Views.EnrichedLine | backend/api/views.py:301-307 | the prompt line of an enriched result names the parameter, carries ` [HIGH]`/` [LOW]` for flags H/L, and no marker when the flag was absent |
| Views.Lookup | backend/api/views.py:309 | a dict lookup finds exactly the keys present |
| Views.Put | backend/api/views.py:309 | `test_results[name] = …` adds the key if new, sets its value, keeps every other key and value, and keeps keys distinct |
| Views.EnrichedResults | backend/api/views.py:288-309 | `test_results` has distinct keys, and holds exactly the names of the request's tests that have a results entry |
| Views.EnrichedByName | backend/api/views.py:309 | with distinct test names, each test with results shows its enriched list under its name |
| Views.PatientInfo | backend/api/views.py:281-285 | the patient data holds the name, the age in decimal and the gender |
| Views.EnrichList | backend/api/views.py:296-307 | the inner enrichment loop builds exactly the enriched list |
| Views.EnrichResults | backend/api/views.py:288-309 | the outer enrichment loop builds exactly the enriched test results |
| Views.CreatedRow | backend/api/serializers.py:67-85 | a created request is REGISTERED with no results, today's lab number, the patient's name, the selected tests, the recalculated payment and the given referrer |
| Views.ValidRowResaved | backend/api/signals.py:7-43 | the pre-save hooks leave a valid row unchanged |
| Views.ReplacePreservesConsistency | backend/api/models.py:145-157 | saving a valid row over a stored one with the same lab number keeps the tables consistent |
| Views.InsertPreservesConsistency | backend/api/models.py:109 | inserting a valid row under a new key and an unused (unique) lab number keeps the tables consistent |
| Views.PatientSavePreservesConsistency | backend/api/signals.py:46-49 | saving a patient and renaming its requests keeps the tables consistent |
| Views.CreatedRowValid | backend/api/serializers.py:67-85 | a newly created request is a valid row |
| Views.Backend.Save | backend/api/models.py:145-157 | saving a valid stored row keeps its lab number, changes only that row, and keeps the invariant |
| Views.Backend.TestIdsOfRow | backend/api/views.py:156 | the ids of a valid row's `tests.all()` are its tests |
| Views.Backend.Collect | backend/api/views.py:97-135 | an unknown request gives 404; otherwise the outcome is the collect semantics, only an accepted row is stored, and the invariant holds |
| Views.Backend.UpdateResults | backend/api/views.py:137-175 | an unknown request gives 404; otherwise the outcome is the update-results semantics, only an accepted row is stored, and the invariant holds |
| Views.Backend.UpdateAllResults | backend/api/views.py:177-215 | an unknown request gives 404; otherwise the outcome is the update-all semantics, only an accepted row is stored, and the invariant holds |
| Views.Backend.UpdateComment | backend/api/views.py:217-228 | an unknown request gives 404; otherwise the outcome is the comment semantics, only an accepted row is stored, and the invariant holds |
| Views.Backend.Verify | backend/api/views.py:230-272 | an unknown request gives 404; otherwise the outcome is the verify semantics (the empty-list check in catalog order), only an accepted row is stored, and the invariant holds |
| Views.Backend.Interpret | backend/api/views.py:274-324 | with the call made as `analyze_lab_results` declares it: the interpretation or fallback text for the patient data and enriched results is stored, nothing else changes, and the invariant holds |
| Views.Backend.CreateRequest | backend/api/views.py:87-95 | a bad body gives 400; a missing patient or a lab number already in use gives 500; otherwise the created row is stored under the new UUID and the invariant holds |
| Views.Backend.NewRow | backend/api/serializers.py:75-79 | the first `save()` of a new request gives it today's next lab number and the pre-save hooks' name and payment; with its tests set it is the created row |
| Views.Backend.Insert | backend/api/serializers.py:75-79 | inserting a valid row with an unused lab number under a new key stores it and keeps the invariant |
| Views.Backend.SavePatient | backend/api/models.py:37-52 | the patient is stored and all of its requests are renamed, keeping the invariant |
| Views.Backend.UpsertPatient | backend/api/views.py:26-51 | with a non-empty id: 404 for an unknown patient, else a partial update of that patient; without one, and with the numbering corrected: the patient built from the validated body under one past the greatest numeric suffix (P001 when none), an id not yet taken; either way its requests carry its name and the invariant holds |
| Views.Backend.CreatePatient | backend/api/views.py:44-51 | with the numbering corrected, a new patient is built from the validated fields under the next free id and saved, keeping the invariant |

## Findings

| source | as written | input that shows it | evidently intended | confidence | as-written member | corrected member |
|---|---|---|---|---|---|---|
| backend/api/models.py:42-51 | the next patient number is one past the suffix of the greatest id in descending string order | P001 … P1000 stored: `P999` sorts last, so the 1001st patient is given `P1000` again and the insert fails on the primary key | one past the greatest numeric suffix | high; not executed | Models.AsWrittenPatientIdRepeats | Models.NextPatientNumber |
| backend/api/views.py:313-317 | `interpret` passes `request_id=` to `analyze_lab_results`, whose signature (backend/api/services/ai_service.py:22) has no such parameter | any existing request: the call raises `TypeError` before any analysis, the view answers 500 and nothing is stored; backend/api/tests/test_ai_service.py:72 makes the same call | call with the patient data and test results only, and store the interpretation | high; not executed | AiService.RequestIdKeywordRaises | Views.Backend.Interpret |

## Left out

- HTTP and DRF framing: routing, response bodies, messages and status codes. The outcomes are `Ok`, `BadRequest` with a reason, `NotFound` and `ServerError`.
- The ORM: querysets, prefetching and transactions. The tables are maps held by `Backend`, and rows are values loaded and saved whole.
- Concurrency: the races around patient-id and lab-number generation.
- `timezone.now()`: the date stamp and the calendar day are parameters.
- UUID generation: the new request's key is a parameter.
- The Gemini client: `genai.configure` and `generate_content` are a function from (model name, prompt) to generated text or a raised error.
- Logging.
- Signals.RecalculatedPayment: amounts are exact reals, so `discountPercent` is an exact quotient, where Python computes a float or an int. Non-numeric amounts, which raise in Python, are not modelled.
- JSON values are typed: payments are maps from keys to numbers; results are maps from test ids to lists of entries with string fields. A non-dict payment or results body, or a non-dict result entry, makes the source raise (500); the model does not represent such bodies. A `value` that is present but null is the same as an absent one.
- Views.Backend.Verify: the source checks empty result lists by iterating a Python set, whose order is not fixed. The model checks them in catalog order, so the test it names may differ from the source's.
- Views.EnrichedByName: stated for distinct test names. With repeated names the source keeps the last test's list under that name, which `Views.Put` models but no lemma states.
- Models.ParseSuffix: Python's `int()` also accepts surrounding whitespace, a sign and underscores; the model parses digits only.
- Serializers.ValidatePatient: email format validation and a non-integer age are not modelled; an age is taken as given.
- LabTest price (a Decimal), the nested test serialization in responses, `date`, `created_at` and `updated_at` are not modelled.
- The default `update`, `partial_update`, `destroy`, `list` and `retrieve` actions of the viewsets are not modelled, and neither is `PatientViewSet.update`. Writing results or payment through the default update path is therefore not covered by the table invariant.
- Deletion is not modelled. After a deletion the day's count can repeat a lab number; `CreateRequest` answers that case with 500.
- The failing import: backend/api/views.py:9-15 imports `SampleTypeSerializer` and `TestParameterSerializer`, which backend/api/serializers.py (classes at lines 5-110) does not define. As written, importing the views module raises `ImportError`, so backend/api/urls.py:3 fails and no action is reachable. The model assumes the import succeeds.
- Views.Backend.UpsertPatient: a new patient is numbered with the corrected `Models.NextPatientNumber`, not the as-written string maximum (`Models.AsWrittenPatientId`). With P001 … P1000 stored, the source gives P1000 again and the insert fails (500), where the model answers Ok with P1001.
- The catalog viewsets, the seeding command, `constants.py`, the admin and the project settings are not part of this model.
