/** The records of the laboratory system (sample types, patients, tests and
    their parameters, lab requests), the status table of a lab request, the
    `clean()` transition check, and the two identifier generators: patient ids
    `P001, P002, ...` and lab numbers `LAB-YYYYMMDD-NNN`. */
module Models {
  import opened Common

  // ----- status of a lab request -----

  datatype Status = Registered | Collected | Analyzed | Verified

  /** Position of a status in the workflow order. */
  function Rank(s: Status): nat {
    match s
    case Registered => 0
    case Collected => 1
    case Analyzed => 2
    case Verified => 3
  }

  /** `LabRequest.STATUS_TRANSITIONS`: the statuses a status may change to. */
  function AllowedNext(s: Status): (next: set<Status>)
    ensures forall t :: t in next <==> Rank(t) == Rank(s) + 1
    ensures next == {} <==> s == Verified
  {
    match s
    case Registered => {Collected}
    case Collected => {Analyzed}
    case Analyzed => {Verified}
    case Verified => {}
  }

  datatype CleanOutcome = Passes | TransitionError(from: Status, to: Status, allowed: set<Status>)

  /** `LabRequest.clean()`. `stored` is the status of the row in the database
      with the same primary key, `None` when there is no such row. */
  function CleanStatus(stored: Option<Status>, status: Status): (r: CleanOutcome)
    ensures r.TransitionError? <==> stored.Some? && stored.value != status && Rank(status) != Rank(stored.value) + 1
    ensures r.TransitionError? ==> r == TransitionError(stored.value, status, AllowedNext(stored.value))
    ensures stored.Some? && Rank(status) < Rank(stored.value) ==> r.TransitionError?
  {
    match stored
    case None => Passes
    case Some(prev) =>
      if prev != status && status !in AllowedNext(prev) then TransitionError(prev, status, AllowedNext(prev))
      else Passes
  }

  // ----- records -----

  datatype SampleType = SampleType(id: string, name: string, tubeColor: string)

  datatype TestParameter = TestParameter(id: string, name: string, unit: string, referenceRange: string)

  /** A catalog test; `parameters` is the reverse relation of `TestParameter.test`. */
  datatype LabTest = LabTest(
    id: string, name: string, price: real, category: string,
    sampleTypeId: string, parameters: seq<TestParameter>)

  datatype Patient = Patient(
    id: string, name: string, age: int, gender: string, phone: string, email: Option<string>)

  /** One element of a `results[test_id]` list as the client sent it. */
  datatype ResultEntry = ResultEntry(parameterId: Option<string>, value: Option<string>, flag: Option<string>)

  type Results = map<string, seq<ResultEntry>>

  /** The `payment` JSON object: amounts by key (`totalAmount`, `discountAmount`, ...). */
  type Payment = map<string, real>

  /** A stored `LabRequest` row other than its UUID primary key (the key of the
      table map). `tests` is the many-to-many relation, by test id;
      `createdDay` is the calendar day of `created_at`. */
  datatype LabRequestRow = LabRequestRow(
    labNo: string,
    patientId: string,
    patientName: string,
    createdDay: int,
    tests: set<string>,
    status: Status,
    results: Results,
    payment: Payment,
    referredBy: string,
    comments: string,
    aiInterpretation: string,
    collectedSamples: seq<string>,
    phlebotomyComments: string)

  // ----- the catalog -----

  /** The LabTest table in its default ordering (category, name). */
  type Catalog = seq<LabTest>

  function CatalogIds(catalog: Catalog): set<string> {
    set t | t in catalog :: t.id
  }

  /** Primary keys are unique: test ids, and parameter ids within a test. */
  ghost predicate CatalogValid(catalog: Catalog) {
    (forall i, j :: 0 <= i < j < |catalog| ==> catalog[i].id != catalog[j].id)
    && (forall t, i, j :: t in catalog && 0 <= i < j < |t.parameters| ==>
          t.parameters[i].id != t.parameters[j].id)
  }

  /** `request.tests.all()`: the catalog tests whose id is in `ids`, in catalog order. */
  function TestsOf(catalog: Catalog, ids: set<string>): (ts: seq<LabTest>)
    ensures forall t :: t in ts <==> t in catalog && t.id in ids
    ensures |ts| <= |catalog|
  {
    if catalog == [] then []
    else (if catalog[0].id in ids then [catalog[0]] else []) + TestsOf(catalog[1..], ids)
  }

  /** The ids of `tests.all()` are the request's tests when they all exist in the catalog. */
  lemma TestIdsOf(catalog: Catalog, ids: set<string>)
    requires ids <= CatalogIds(catalog)
    ensures (set t | t in TestsOf(catalog, ids) :: t.id) == ids
  {
    forall x | x in ids
      ensures x in (set t | t in TestsOf(catalog, ids) :: t.id)
    {
      var t :| t in catalog && t.id == x;
      assert t in TestsOf(catalog, ids);
    }
  }

  // ----- patient ids -----

  /** `f'P{n:03d}'`. */
  function PatientIdFor(n: nat): (id: string)
    ensures |id| >= 4 && id[0] == 'P'
    ensures n < 1000 ==> |id| == 4
    ensures ParseSuffix(id) == Some(n)
  {
    var digits := ZeroPad3(n);
    assert ("P" + digits)[1..] == digits;
    "P" + digits
  }

  /** `int(id[1:])`, `None` where Python raises `ValueError`. */
  function ParseSuffix(id: string): (r: Option<nat>)
    ensures r.Some? <==> |id| >= 2 && AllDigits(id[1..])
    ensures r.Some? ==> r.value == ParseDecimal(id[1..])
  {
    var rest := if id == [] then [] else id[1..];
    if rest != [] && AllDigits(rest) then Some(ParseDecimal(rest)) else None
  }

  lemma PatientIdInjective(a: nat, b: nat)
    requires PatientIdFor(a) == PatientIdFor(b)
    ensures a == b
  {
    assert ParseSuffix(PatientIdFor(a)) == Some(a);
  }

  /** The number `Patient.save` derives from the last patient id: one past
      its numeric suffix, or 1 when there is no patient or the suffix does not
      parse. */
  function NumberAfter(last: Option<string>): (n: nat)
    ensures n >= 1
    ensures last.Some? && ParseSuffix(last.value).Some? ==> n == ParseSuffix(last.value).value + 1
    ensures last.None? || ParseSuffix(last.value).None? ==> n == 1
  {
    match last
    case None => 1
    case Some(id) =>
      match ParseSuffix(id)
      case Some(k) => k + 1
      case None => 1
  }

  /** `last` is `Patient.objects.order_by('-id').first()`: the greatest id in string order. */
  ghost predicate IsLastId(ids: set<string>, last: string) {
    last in ids && forall x :: x in ids ==> !StrLess(last, x)
  }

  /** What the query returns: nothing for an empty table, else the last id. */
  ghost predicate IsQueryResult(ids: set<string>, last: Option<string>) {
    match last
    case None => ids == {}
    case Some(id) => IsLastId(ids, id)
  }

  lemma LastIdUnique(ids: set<string>, a: string, b: string)
    requires IsLastId(ids, a) && IsLastId(ids, b)
    ensures a == b
  {
    StrLessTotal(a, b);
  }

  /** The id `Patient.save` gives a new patient, as written: derived from the
      greatest existing id in string order. */
  ghost function AsWrittenPatientId(ids: set<string>, last: Option<string>): (id: string)
    requires IsQueryResult(ids, last)
    ensures ids == {} ==> id == PatientIdFor(1)
    ensures last.Some? && ParseSuffix(last.value).Some? ==> id == PatientIdFor(ParseSuffix(last.value).value + 1)
    ensures last.Some? && ParseSuffix(last.value).None? ==> id == PatientIdFor(1)
  {
    PatientIdFor(NumberAfter(last))
  }

  /** The ids of the first `n` patients. */
  ghost function FirstIds(n: nat): set<string> {
    set k | 1 <= k <= n :: PatientIdFor(k)
  }

  /** String order on three characters, spelled out. */
  lemma StrLess3(x: string, y: string)
    requires |x| == 3 && |y| == 3
    ensures StrLess(x, y) <==>
      x[0] < y[0] || (x[0] == y[0] && (x[1] < y[1] || (x[1] == y[1] && x[2] < y[2])))
  {
    var x1, y1 := x[1..], y[1..];
    var x2, y2 := x1[1..], y1[1..];
    assert x2[1..] == [] && y2[1..] == [];
    assert StrLess(x2, y2) <==> x[2] < y[2];
    assert StrLess(x1, y1) <==> x[1] < y[1] || (x[1] == y[1] && x[2] < y[2]);
  }

  /** Comparing the digits of two numbers below a thousand left to right compares the numbers. */
  lemma DigitOrder(a: nat, b: nat)
    requires a < 1000 && b < 1000
    ensures a < b <==>
      a / 100 < b / 100 || (a / 100 == b / 100 &&
        (a / 10 % 10 < b / 10 % 10 || (a / 10 % 10 == b / 10 % 10 && a % 10 < b % 10)))
  {
    assert a == 100 * (a / 100) + 10 * (a / 10 % 10) + a % 10;
    assert b == 100 * (b / 100) + 10 * (b / 10 % 10) + b % 10;
  }

  /** Below a thousand, string order on patient ids is numeric order. */
  lemma PatientIdOrder(a: nat, b: nat)
    requires a < 1000 && b < 1000
    ensures StrLess(PatientIdFor(a), PatientIdFor(b)) <==> a < b
  {
    StrLessCommonHead('P', ZeroPad3(a), ZeroPad3(b));
    assert PatientIdFor(a) == ['P'] + ZeroPad3(a) && PatientIdFor(b) == ['P'] + ZeroPad3(b);
    ZeroPad3Digits(a);
    ZeroPad3Digits(b);
    StrLess3(ZeroPad3(a), ZeroPad3(b));
    DigitOrder(a, b);
  }

  lemma LastOfFirstIds(n: nat)
    requires 1 <= n <= 999
    ensures IsLastId(FirstIds(n), PatientIdFor(n))
  {
    forall x | x in FirstIds(n)
      ensures !StrLess(PatientIdFor(n), x)
    {
      var k :| 1 <= k <= n && x == PatientIdFor(k);
      PatientIdOrder(n, k);
    }
  }

  /** Up to P999, consecutive creations get consecutive numbers, whatever id
      the query returns among equals. */
  lemma ConsecutivePatientIds(n: nat, last: Option<string>)
    requires n <= 999
    requires IsQueryResult(FirstIds(n), last)
    ensures AsWrittenPatientId(FirstIds(n), last) == PatientIdFor(n + 1)
    ensures PatientIdFor(n + 1) !in FirstIds(n)
  {
    if n == 0 {
      assert FirstIds(0) == {};
    } else {
      assert PatientIdFor(n) in FirstIds(n);
      LastOfFirstIds(n);
      LastIdUnique(FirstIds(n), last.value, PatientIdFor(n));
    }
    forall k | 1 <= k <= n
      ensures PatientIdFor(k) != PatientIdFor(n + 1)
    {
      assert ParseSuffix(PatientIdFor(k)) == Some(k);
    }
  }

  lemma PatientId999And1000()
    ensures PatientIdFor(999) == "P999"
    ensures PatientIdFor(1000) == "P1000"
  {
    ZeroPad3Digits(999);
    assert NatToDecimal(1) == "1";
    assert NatToDecimal(10) == "10";
    assert NatToDecimal(100) == "100";
    assert NatToDecimal(1000) == "1000";
  }

  /** With P001 ... P1000 stored, the greatest id in string order is P999. */
  lemma P999IsLastOfFirstThousand()
    ensures IsLastId(FirstIds(1000), "P999")
  {
    PatientId999And1000();
    assert PatientIdFor(999) in FirstIds(1000);
    forall x | x in FirstIds(1000)
      ensures !StrLess("P999", x)
    {
      var k :| 1 <= k <= 1000 && x == PatientIdFor(k);
      if k < 1000 {
        PatientIdOrder(999, k);
      } else {
        P1000BeforeP999();
      }
    }
  }

  /** In string order P1000 sorts before P999. */
  lemma P1000BeforeP999()
    ensures !StrLess("P999", "P1000")
  {
    StrLessCommonHead('P', "999", "1000");
    assert "P999" == ['P'] + "999" && "P1000" == ['P'] + "1000";
  }

  /** As written, the 1001st patient is given P1000 again: the new id is
      already taken, so the insert fails on the primary key. */
  lemma AsWrittenPatientIdRepeats(last: Option<string>)
    requires IsQueryResult(FirstIds(1000), last)
    ensures last == Some("P999")
    ensures AsWrittenPatientId(FirstIds(1000), last) == "P1000"
    ensures "P1000" in FirstIds(1000)
  {
    PatientId999And1000();
    assert PatientIdFor(1000) in FirstIds(1000);
    P999IsLastOfFirstThousand();
    LastIdUnique(FirstIds(1000), last.value, "P999");
    assert ParseSuffix("P999") == ParseSuffix(PatientIdFor(999));
  }

  /** `id` is the corrected id for a new patient given the stored `ids`: not
      taken, numbered one past the greatest numeric suffix (1 when none). */
  ghost predicate IsNextPatientId(ids: set<string>, id: string) {
    && id !in ids && ParseSuffix(id).Some?
    && (forall pid :: pid in ids && ParseSuffix(pid).Some? ==> ParseSuffix(pid).value < ParseSuffix(id).value)
    && id == PatientIdFor(ParseSuffix(id).value)
    && (ParseSuffix(id).value == 1 || exists pid :: pid in ids && ParseSuffix(pid) == Some(ParseSuffix(id).value - 1))
  }

  /** The corrected id is determined by the stored ids. */
  lemma IsNextPatientIdUnique(ids: set<string>, a: string, b: string)
    requires IsNextPatientId(ids, a) && IsNextPatientId(ids, b)
    ensures a == b
  {
    var na, nb := ParseSuffix(a).value, ParseSuffix(b).value;
    if na != 1 {
      var pid :| pid in ids && ParseSuffix(pid) == Some(na - 1);
      assert na - 1 < nb;
    }
    if nb != 1 {
      var pid :| pid in ids && ParseSuffix(pid) == Some(nb - 1);
      assert nb - 1 < na;
    }
    assert na == nb;
  }

  /** The intended number for a new patient: one past the greatest numeric
      suffix among the existing ids (1 when none parses). */
  method NextPatientNumber(ids: set<string>) returns (n: nat)
    ensures n >= 1
    ensures forall id :: id in ids && ParseSuffix(id).Some? ==> ParseSuffix(id).value < n
    ensures n == 1 || exists id :: id in ids && ParseSuffix(id) == Some(n - 1)
    ensures PatientIdFor(n) !in ids
  {
    n := 1;
    var rest := ids;
    while rest != {}
      invariant rest <= ids && n >= 1
      invariant forall id :: id in ids - rest && ParseSuffix(id).Some? ==> ParseSuffix(id).value < n
      invariant n == 1 || exists id :: id in ids - rest && ParseSuffix(id) == Some(n - 1)
      decreases rest
    {
      var id :| id in rest;
      var parsed := ParseSuffix(id);
      if parsed.Some? && parsed.value + 1 > n {
        n := parsed.value + 1;
      }
      rest := rest - {id};
    }
    assert ParseSuffix(PatientIdFor(n)) == Some(n);
  }

  // ----- lab numbers -----

  /** `f'LAB-{today}-{count:03d}'` where `count` is `todayCount + 1`. */
  function LabNumber(stamp: string, todayCount: nat): (labNo: string)
    ensures |labNo| >= 8 + |stamp|
    ensures labNo[..4] == "LAB-" && labNo[4..4 + |stamp|] == stamp && labNo[4 + |stamp|] == '-'
    ensures AllDigits(labNo[5 + |stamp|..]) && ParseDecimal(labNo[5 + |stamp|..]) == todayCount + 1
  {
    var pad := ZeroPad3(todayCount + 1);
    FourParts("LAB-", stamp, "-", pad);
    "LAB-" + stamp + "-" + pad
  }

  /** Lab numbers with date stamps of one length never collide unless they
      agree on the date and on the count. */
  lemma LabNumberInjective(s1: string, c1: nat, s2: string, c2: nat)
    requires |s1| == |s2|
    requires LabNumber(s1, c1) == LabNumber(s2, c2)
    ensures s1 == s2 && c1 == c2
  {
  }

  /** `LabRequest.save`: a lab number is assigned only to a row without one. */
  function AssignLabNo(current: string, stamp: string, todayCount: nat): (labNo: string)
    ensures labNo != ""
    ensures current != "" ==> labNo == current
    ensures current == "" ==> labNo == LabNumber(stamp, todayCount)
  {
    if current == "" then LabNumber(stamp, todayCount) else current
  }

  /** `LabRequest.objects.filter(created_at__gte=today_start).count()`. */
  function TodayCount(requests: map<string, LabRequestRow>, today: int): nat {
    |set id | id in requests && requests[id].createdDay >= today|
  }

  /** The counter restarts each day: the first request of a day gets 001. */
  lemma FirstLabNumberOfTheDay(requests: map<string, LabRequestRow>, today: int, stamp: string)
    requires forall id :: id in requests ==> requests[id].createdDay < today
    ensures LabNumber(stamp, TodayCount(requests, today)) == "LAB-" + stamp + "-001"
  {
    assert (set id | id in requests && requests[id].createdDay >= today) == {};
    assert ZeroPad3(1) == "001" by {
      ZeroPad3Digits(1);
    }
  }

  /** Storing one more request created today moves the counter on by one, so
      two requests created on the same day get different lab numbers. */
  lemma TodayCountGrows(requests: map<string, LabRequestRow>, id: string, row: LabRequestRow, today: int, stamp: string)
    requires id !in requests && row.createdDay >= today
    ensures TodayCount(requests[id := row], today) == TodayCount(requests, today) + 1
    ensures LabNumber(stamp, TodayCount(requests[id := row], today)) != LabNumber(stamp, TodayCount(requests, today))
  {
    var m := requests[id := row];
    var before := set k | k in requests && requests[k].createdDay >= today;
    var after := set k | k in m && m[k].createdDay >= today;
    assert after == before + {id};
    var a, b := LabNumber(stamp, |after|), LabNumber(stamp, |before|);
    assert ParseDecimal(a[5 + |stamp|..]) != ParseDecimal(b[5 + |stamp|..]);
  }
}
