/** The REST serializers of the lab-request API: validation of the request
    bodies of the workflow actions, creation of a lab request, the read-only
    fields of the model serializers, and the camelCase response shape. */
module Serializers {
  import opened Common
  import opened Models

  // ----- input fields -----

  /** One key of a JSON request body: missing, `null`, or a value. */
  datatype Field<T> = Absent | Null | Given(value: T)

  /** DRF's `ProhibitNullCharactersValidator`, which every `CharField` runs:
      the value holds no NUL character. */
  predicate NoNullCharacters(s: string) {
    '\0' !in s
  }

  /** A DRF `CharField`: surrounding whitespace is trimmed, a blank value
      is refused unless blank values are allowed, and a value holding a NUL
      character is refused (DRF adds `ProhibitNullCharactersValidator` to
      every `CharField`). */
  function CharField(raw: string, allowBlank: bool): (v: Option<string>)
    ensures v.Some? <==> (allowBlank || Strip(raw) != "") && NoNullCharacters(Strip(raw))
    ensures v.Some? ==> v.value == Strip(raw)
  {
    var s := Strip(raw);
    if s == "" && !allowBlank then None
    else if !NoNullCharacters(s) then None
    else Some(s)
  }

  /** A NUL anywhere in the raw value is refused: trimming never removes it. */
  lemma CharFieldRefusesNul(raw: string, allowBlank: bool)
    requires '\0' in raw
    ensures CharField(raw, allowBlank).None?
  {
    StripKeeps(raw, '\0');
  }

  /** A value that passed a `CharField` passes it again unchanged. */
  lemma CharFieldIdempotent(raw: string, allowBlank: bool)
    requires CharField(raw, allowBlank).Some?
    ensures CharField(CharField(raw, allowBlank).value, allowBlank) == CharField(raw, allowBlank)
  {
  }

  /** A `ListField(child=CharField())`: the list passes exactly when every
      element passes the child, that is, is non-blank and free of NUL
      characters once trimmed; it then holds the trimmed elements in order. */
  function CharList(raws: seq<string>): (v: Option<seq<string>>)
    ensures v.Some? <==> forall i :: 0 <= i < |raws| ==> Strip(raws[i]) != "" && NoNullCharacters(Strip(raws[i]))
    ensures v.Some? ==> |v.value| == |raws| && forall i :: 0 <= i < |raws| ==> v.value[i] == Strip(raws[i])
  {
    if forall i :: 0 <= i < |raws| ==> CharField(raws[i], false).Some? then
      Some(seq(|raws|, i requires 0 <= i < |raws| => Strip(raws[i])))
    else None
  }

  /** A required field that may not be null. */
  function Required<T>(f: Field<T>): (v: Option<T>)
    ensures v.Some? <==> f.Given?
    ensures v.Some? ==> v.value == f.value
  {
    if f.Given? then Some(f.value) else None
  }

  // ----- request bodies of the workflow actions -----

  datatype CollectBody = CollectBody(collectedSamples: Field<seq<string>>, phlebotomyComments: Field<string>)

  /** `CollectSamplesSerializer`, with the view's `''` default for a missing
      `phlebotomy_comments`: the samples and the comments to store. */
  function ValidateCollect(body: CollectBody): (v: Option<(seq<string>, string)>)
    ensures v.Some? <==>
      && body.collectedSamples.Given? && CharList(body.collectedSamples.value).Some?
      && !body.phlebotomyComments.Null?
      && (body.phlebotomyComments.Given? ==> NoNullCharacters(Strip(body.phlebotomyComments.value)))
    ensures v.Some? ==> v.value.0 == CharList(body.collectedSamples.value).value
    ensures v.Some? && body.phlebotomyComments.Absent? ==> v.value.1 == ""
    ensures v.Some? && body.phlebotomyComments.Given? ==> v.value.1 == Strip(body.phlebotomyComments.value)
  {
    if !body.collectedSamples.Given? || body.phlebotomyComments.Null? then None
    else
      match (CharList(body.collectedSamples.value),
             if body.phlebotomyComments.Given? then CharField(body.phlebotomyComments.value, true) else Some(""))
      case (Some(samples), Some(comments)) => Some((samples, comments))
      case _ => None
  }

  datatype UpdateResultsBody = UpdateResultsBody(testId: Field<string>, results: Field<seq<ResultEntry>>)

  /** `UpdateResultsSerializer`: the (trimmed) test id and its result list. */
  function ValidateUpdateResults(body: UpdateResultsBody): (v: Option<(string, seq<ResultEntry>)>)
    ensures v.Some? <==>
      && body.testId.Given? && Strip(body.testId.value) != "" && NoNullCharacters(Strip(body.testId.value))
      && body.results.Given?
    ensures v.Some? ==> v.value == (Strip(body.testId.value), body.results.value)
  {
    if body.testId.Given? && body.results.Given? then
      match CharField(body.testId.value, false)
      case None => None
      case Some(id) => Some((id, body.results.value))
    else None
  }

  /** `UpdateCommentSerializer`: a required comment; blank is allowed, a NUL
      character is not. */
  function ValidateComment(comments: Field<string>): (v: Option<string>)
    ensures v.Some? <==> comments.Given? && NoNullCharacters(Strip(comments.value))
    ensures v.Some? ==> v.value == Strip(comments.value)
  {
    if comments.Given? then CharField(comments.value, true) else None
  }

  // `UpdateAllResultsSerializer` and `VerifyRequestSerializer` hold one
  // required JSON field each and are `Required` on the `results` field.

  // ----- creating a lab request -----

  datatype CreateBody = CreateBody(
    patient: Field<string>, testIds: Field<seq<string>>, payment: Field<Payment>, referredBy: Field<string>)

  /** What `LabRequestCreateSerializer.create` reads from its validated data. */
  datatype CreateData = CreateData(patient: string, testIds: seq<string>, payment: Payment, referredBy: string)

  /** `LabRequestCreateSerializer` validation, with `create`'s `''` default
      for a missing `referred_by`. An empty `test_ids` list is accepted. */
  function ValidateCreate(body: CreateBody): (v: Option<CreateData>)
    ensures v.Some? <==>
      && body.patient.Given? && Strip(body.patient.value) != "" && NoNullCharacters(Strip(body.patient.value))
      && body.testIds.Given? && CharList(body.testIds.value).Some?
      && body.payment.Given? && !body.referredBy.Null?
      && (body.referredBy.Given? ==> NoNullCharacters(Strip(body.referredBy.value)))
    ensures v.Some? ==>
      && v.value.patient == Strip(body.patient.value)
      && v.value.testIds == CharList(body.testIds.value).value
      && v.value.payment == body.payment.value
      && v.value.referredBy == (if body.referredBy.Given? then Strip(body.referredBy.value) else "")
  {
    if !body.patient.Given? || !body.testIds.Given? || !body.payment.Given? || body.referredBy.Null? then None
    else
      match (CharField(body.patient.value, false), CharList(body.testIds.value),
             if body.referredBy.Given? then CharField(body.referredBy.value, true) else Some(""))
      case (Some(patient), Some(ids), Some(referredBy)) =>
        Some(CreateData(patient, ids, body.payment.value, referredBy))
      case _ => None
  }

  /** Nothing rejects a request for no tests, and unknown test ids are no
      reason to refuse one either. */
  lemma EmptyTestListAccepted(patient: string, payment: Payment)
    requires Strip(patient) != "" && NoNullCharacters(Strip(patient))
    ensures ValidateCreate(CreateBody(Given(patient), Given([]), Given(payment), Absent)).Some?
    ensures ValidateCreate(CreateBody(Given(patient), Given([]), Given(payment), Absent)).value.referredBy == ""
  {
  }

  /** `LabTest.objects.filter(id__in=test_ids)`, by id: the catalog tests
      named in the list. Unknown ids and repetitions are dropped silently. */
  function SelectedTests(catalog: Catalog, testIds: seq<string>): (tests: set<string>)
    ensures forall id :: id in tests <==> id in CatalogIds(catalog) && id in testIds
    ensures tests <= CatalogIds(catalog)
    ensures testIds == [] ==> tests == {}
  {
    set t | t in catalog && t.id in testIds :: t.id
  }

  /** The catalog's tests are selected whatever ids come with them. */
  lemma UnknownTestIdsDropped(catalog: Catalog, known: seq<string>, unknown: seq<string>)
    requires forall i :: 0 <= i < |unknown| ==> unknown[i] !in CatalogIds(catalog)
    ensures SelectedTests(catalog, known + unknown) == SelectedTests(catalog, known)
  {
  }

  /** The row `LabRequest.objects.create(patient=..., payment=..., referred_by=...)`
      builds before it is first saved: every other field has its model default. */
  function RegisteredRow(data: CreateData, today: int): (row: LabRequestRow)
    ensures row.status == Registered && row.tests == {} && row.results == map[]
    ensures row.labNo == "" && row.patientName == ""
    ensures row.patientId == data.patient && row.payment == data.payment && row.referredBy == data.referredBy
  {
    LabRequestRow(
      labNo := "", patientId := data.patient, patientName := "", createdDay := today,
      tests := {}, status := Registered, results := map[], payment := data.payment,
      referredBy := data.referredBy, comments := "", aiInterpretation := "",
      collectedSamples := [], phlebotomyComments := "")
  }

  // ----- read-only fields -----

  const LabRequestFields: set<string> := {
    "id", "lab_no", "patient", "patient_name", "date", "tests", "status",
    "results", "payment", "referred_by", "comments", "ai_interpretation",
    "collected_samples", "phlebotomy_comments", "created_at", "updated_at"}

  /** `read_only_fields`, plus `tests` (a read-only nested serializer). */
  const LabRequestReadOnly: set<string> := {
    "id", "lab_no", "patient_name", "date", "created_at", "updated_at", "tests"}

  const PatientFields: set<string> := {"id", "name", "age", "gender", "phone", "email", "created_at", "updated_at"}

  const PatientReadOnly: set<string> := {"id", "created_at", "updated_at"}

  /** The part of a request body a model serializer accepts for writing:
      its declared fields other than the read-only ones; other keys are ignored. */
  function WritableInput<V>(body: map<string, V>, fields: set<string>, readOnly: set<string>): (w: map<string, V>)
    ensures w.Keys <= body.Keys && w.Keys <= fields
    ensures forall k :: k in readOnly ==> k !in w
    ensures forall k :: k in body && k in fields && k !in readOnly ==> k in w && w[k] == body[k]
  {
    map k | k in body && k in fields && k !in readOnly :: body[k]
  }

  /** Client values for identifiers, the lab number, the denormalised name or
      the timestamps never reach a lab request or a patient. */
  lemma ReadOnlyNeverWritten<V>(body: map<string, V>)
    ensures forall k :: k in {"id", "lab_no", "patient_name", "date", "created_at", "updated_at"} ==>
      k !in WritableInput(body, LabRequestFields, LabRequestReadOnly)
    ensures "id" !in WritableInput(body, PatientFields, PatientReadOnly)
  {
  }

  // ----- the patient serializer -----

  /** A patient request body; `id` is read-only and only selects the row. */
  datatype PatientBody = PatientBody(
    name: Field<string>, age: Field<int>, gender: Field<string>, phone: Field<string>, email: Field<string>)

  /** The validated writable fields; `None` means not supplied. */
  datatype PatientData = PatientData(
    name: Option<string>, age: Option<int>, gender: Option<string>, phone: Option<string>, email: Option<Option<string>>)

  const GenderChoices: set<string> := {"Male", "Female", "Other"}

  /** A `CharField(max_length=n)` of the model serializer: trimmed, non-blank,
      at most `n` characters, no NUL character; `Some(None)` when it is not
      supplied. */
  function BoundedCharField(f: Field<string>, maxLength: nat): (v: Option<Option<string>>)
    ensures v.Some? <==>
      f.Absent? || (f.Given? && Strip(f.value) != "" && |Strip(f.value)| <= maxLength && NoNullCharacters(Strip(f.value)))
    ensures v.Some? && f.Given? ==> v.value == Some(Strip(f.value))
    ensures v.Some? && f.Absent? ==> v.value == None
  {
    match f
    case Absent => Some(None)
    case Null => None
    case Given(raw) =>
      var s := Strip(raw);
      if s != "" && |s| <= maxLength && NoNullCharacters(s) then Some(Some(s)) else None
  }

  /** `PatientSerializer` validation. A full (create) body needs name, age,
      gender and phone; a partial (update) body validates only what it
      carries. Gender must be one of the choices; email may be blank or null. */
  function ValidatePatient(body: PatientBody, partial: bool): (v: Option<PatientData>)
    ensures v.Some? && !partial ==> v.value.name.Some? && v.value.age.Some? && v.value.gender.Some? && v.value.phone.Some?
    ensures v.Some? && v.value.name.Some? ==> v.value.name.value != "" && |v.value.name.value| <= 200
    ensures v.Some? && v.value.gender.Some? ==> v.value.gender.value in GenderChoices
    ensures v.Some? && v.value.phone.Some? ==> v.value.phone.value != "" && |v.value.phone.value| <= 20
    ensures v.Some? ==> (v.value.age.Some? <==> body.age.Given?)
    ensures !partial && (body.name.Absent? || body.age.Absent? || body.gender.Absent? || body.phone.Absent?) ==> v.None?
    ensures body.gender.Given? && body.gender.value !in GenderChoices ==> v.None?
  {
    var name := BoundedCharField(body.name, 200);
    var phone := BoundedCharField(body.phone, 20);
    var gender := match body.gender
      case Absent => Some(None)
      case Null => None
      case Given(g) => if g in GenderChoices then Some(Some(g)) else None;
    var age := match body.age
      case Absent => Some(None)
      case Null => None
      case Given(n) => Some(Some(n));
    var email := match body.email
      case Absent => Some(None)
      case Null => Some(Some(None))
      case Given(e) => if |Strip(e)| <= 254 && NoNullCharacters(Strip(e)) then Some(Some(Some(Strip(e)))) else None;
    if name.None? || phone.None? || gender.None? || age.None? || email.None? then None
    else if !partial && (name.value.None? || age.value.None? || gender.value.None? || phone.value.None?) then None
    else Some(PatientData(name.value, age.value, gender.value, phone.value, email.value))
  }

  /** Exactly which patient bodies validate, and what they give: trimmed
      strings, the chosen gender, the age, and an email that is not supplied,
      null, or trimmed. */
  lemma PatientValidation(body: PatientBody, partial: bool)
    ensures ValidatePatient(body, partial).Some? <==>
      && BoundedCharField(body.name, 200).Some? && BoundedCharField(body.phone, 20).Some?
      && (body.gender.Absent? || (body.gender.Given? && body.gender.value in GenderChoices))
      && !body.age.Null?
      && (body.email.Given? ==> |Strip(body.email.value)| <= 254 && NoNullCharacters(Strip(body.email.value)))
      && (!partial ==> body.name.Given? && body.age.Given? && body.gender.Given? && body.phone.Given?)
    ensures ValidatePatient(body, partial).Some? ==>
      && ValidatePatient(body, partial).value.name == (if body.name.Given? then Some(Strip(body.name.value)) else None)
      && ValidatePatient(body, partial).value.phone == (if body.phone.Given? then Some(Strip(body.phone.value)) else None)
      && ValidatePatient(body, partial).value.gender == (if body.gender.Given? then Some(body.gender.value) else None)
      && ValidatePatient(body, partial).value.age == (if body.age.Given? then Some(body.age.value) else None)
    ensures ValidatePatient(body, partial).Some? && body.email.Absent? ==> ValidatePatient(body, partial).value.email == None
    ensures ValidatePatient(body, partial).Some? && body.email.Null? ==> ValidatePatient(body, partial).value.email == Some(None)
    ensures ValidatePatient(body, partial).Some? && body.email.Given? ==> ValidatePatient(body, partial).value.email == Some(Some(Strip(body.email.value)))
  {
  }

  /** `serializer.save()` on an existing patient: the supplied fields replace
      the stored ones; the id is never rewritten. */
  function UpdatedPatient(p: Patient, d: PatientData): (q: Patient)
    ensures q.id == p.id
    ensures q.name == d.name.GetOr(p.name) && q.age == d.age.GetOr(p.age)
    ensures q.gender == d.gender.GetOr(p.gender) && q.phone == d.phone.GetOr(p.phone)
    ensures q.email == d.email.GetOr(p.email)
    ensures d == PatientData(None, None, None, None, None) ==> q == p
  {
    Patient(p.id, d.name.GetOr(p.name), d.age.GetOr(p.age), d.gender.GetOr(p.gender),
            d.phone.GetOr(p.phone), d.email.GetOr(p.email))
  }

  /** `serializer.save()` of a new patient stored under `id`; an email that
      was not supplied is null. */
  function NewPatient(id: string, d: PatientData): (p: Patient)
    requires d.name.Some? && d.age.Some? && d.gender.Some? && d.phone.Some?
    ensures p.id == id
    ensures d.name == Some(p.name) && d.age == Some(p.age) && d.gender == Some(p.gender) && d.phone == Some(p.phone)
    ensures p.email == d.email.GetOr(None)
  {
    Patient(id, d.name.value, d.age.value, d.gender.value, d.phone.value, d.email.GetOr(None))
  }

  // ----- the response shape -----

  datatype Json = JNull | JBool(b: bool) | JNum(n: real) | JStr(s: string) | JArr(items: seq<Json>) | JObj(fields: map<string, Json>)

  /** The (model field, response key) pairs of `to_representation`. */
  const Renames: seq<(string, string)> := [
    ("id", "id"), ("lab_no", "labNo"), ("patient", "patient"), ("patient_name", "patientName"),
    ("date", "date"), ("tests", "tests"), ("status", "status"), ("results", "results"),
    ("payment", "payment"), ("referred_by", "referredBy"), ("comments", "comments"),
    ("ai_interpretation", "aiInterpretation"), ("collected_samples", "collectedSamples"),
    ("phlebotomy_comments", "phlebotomyComments")]

  /** The fields `to_representation` reads by indexing (a missing one raises). */
  const IndexedKeys: set<string> := {"id", "lab_no", "patient", "patient_name", "date", "tests", "status", "results", "payment"}

  const SnakeKeys: set<string> := IndexedKeys + {"referred_by", "comments", "ai_interpretation", "collected_samples", "phlebotomy_comments"}

  const CamelKeys: set<string> := {
    "id", "labNo", "patient", "patientName", "date", "tests", "status", "results", "payment",
    "referredBy", "comments", "aiInterpretation", "collectedSamples", "phlebotomyComments"}

  /** The value used for a field read with `.get` when it is missing. */
  function DefaultFor(field: string): Json {
    if field == "collected_samples" then JArr([]) else JStr("")
  }

  lemma RenamesCases(i: int)
    requires 0 <= i < |Renames|
    ensures Renames[i].0 in SnakeKeys && Renames[i].1 in CamelKeys
    ensures Renames[i].0 !in IndexedKeys ==> Renames[i].0 in {"referred_by", "comments", "ai_interpretation", "collected_samples", "phlebotomy_comments"}
  {
  }

  /** `LabRequestSerializer.to_representation`: the serialized fields renamed
      onto camelCase keys; `created_at` and `updated_at` are dropped, and the
      five fields read with `.get` fall back to `''` (or `[]`). */
  function ToRepresentation(data: map<string, Json>): (rep: map<string, Json>)
    requires IndexedKeys <= data.Keys
    ensures rep.Keys == CamelKeys
    ensures forall i :: 0 <= i < |Renames| ==> rep[Renames[i].1] == Get(data, Renames[i].0, DefaultFor(Renames[i].0))
  {
    map[
      "id" := data["id"], "labNo" := data["lab_no"], "patient" := data["patient"],
      "patientName" := data["patient_name"], "date" := data["date"], "tests" := data["tests"],
      "status" := data["status"], "results" := data["results"], "payment" := data["payment"],
      "referredBy" := Get(data, "referred_by", JStr("")), "comments" := Get(data, "comments", JStr("")),
      "aiInterpretation" := Get(data, "ai_interpretation", JStr("")),
      "collectedSamples" := Get(data, "collected_samples", JArr([])),
      "phlebotomyComments" := Get(data, "phlebotomy_comments", JStr(""))]
  }

  /** The renaming back: camelCase keys onto model field names. */
  function FromRepresentation(rep: map<string, Json>): (data: map<string, Json>)
    requires CamelKeys <= rep.Keys
    ensures data.Keys == SnakeKeys
    ensures forall i :: 0 <= i < |Renames| ==> data[Renames[i].0] == rep[Renames[i].1]
  {
    map[
      "id" := rep["id"], "lab_no" := rep["labNo"], "patient" := rep["patient"],
      "patient_name" := rep["patientName"], "date" := rep["date"], "tests" := rep["tests"],
      "status" := rep["status"], "results" := rep["results"], "payment" := rep["payment"],
      "referred_by" := rep["referredBy"], "comments" := rep["comments"],
      "ai_interpretation" := rep["aiInterpretation"], "collected_samples" := rep["collectedSamples"],
      "phlebotomy_comments" := rep["phlebotomyComments"]]
  }

  /** The renaming loses nothing but the timestamps: every field of a full
      serialization is recovered from the response. */
  lemma RepresentationRoundTrip(data: map<string, Json>, i: int)
    requires SnakeKeys <= data.Keys && 0 <= i < |Renames|
    ensures Renames[i].0 in SnakeKeys
    ensures FromRepresentation(ToRepresentation(data)).Keys == SnakeKeys
    ensures FromRepresentation(ToRepresentation(data))[Renames[i].0] == data[Renames[i].0]
  {
    RenamesCases(i);
    var rep := ToRepresentation(data);
    var back := FromRepresentation(rep);
    assert back[Renames[i].0] == rep[Renames[i].1];
    assert rep[Renames[i].1] == Get(data, Renames[i].0, DefaultFor(Renames[i].0));
  }
}
