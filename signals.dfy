/** The model signal receivers: before a lab request is saved its payment is
    recomputed on the server and its denormalised patient name is filled in;
    after a patient is saved the name is copied onto all of that patient's
    requests. */
module Signals {
  import opened Common
  import opened Models

  /** Python's `max(0, x)`. */
  function Max0(x: real): (r: real)
    ensures r >= 0.0 && r >= x
    ensures r == 0.0 || r == x
  {
    if x > 0.0 then x else 0.0
  }

  /** The payment `validate_and_recalculate_payment` stores: an empty payment
      is left alone; otherwise `netPayable` and `balanceDue` are recomputed
      from the amounts (missing amounts count as 0) and clamped at zero,
      whatever the client sent, and `discountPercent` is added when absent. */
  function RecalculatedPayment(p: Payment): (q: Payment)
    ensures p == map[] ==> q == p
    ensures p != map[] ==>
      && q.Keys == p.Keys + {"netPayable", "balanceDue", "discountPercent"}
      && q["netPayable"] == Max0(Get(p, "totalAmount", 0.0) - Get(p, "discountAmount", 0.0))
      && q["balanceDue"] == Max0(q["netPayable"] - Get(p, "paidAmount", 0.0))
      && q["netPayable"] >= 0.0 && q["balanceDue"] >= 0.0
      && (forall k :: k in p && k != "netPayable" && k != "balanceDue" ==> q[k] == p[k])
      && ("discountPercent" !in p && Get(p, "totalAmount", 0.0) <= 0.0 ==> q["discountPercent"] == 0.0)
      && ("discountPercent" !in p && Get(p, "totalAmount", 0.0) > 0.0 ==>
            q["discountPercent"] == Get(p, "discountAmount", 0.0) / Get(p, "totalAmount", 0.0) * 100.0)
  {
    if p == map[] then p
    else
      var total := Get(p, "totalAmount", 0.0);
      var discount := Get(p, "discountAmount", 0.0);
      var paid := Get(p, "paidAmount", 0.0);
      var net := Max0(total - discount);
      var q := p["netPayable" := net]["balanceDue" := Max0(net - paid)];
      if "discountPercent" in q then q
      else q["discountPercent" := if total > 0.0 then discount / total * 100.0 else 0.0]
  }

  /** signals.py:19-43, step by step on a copy of the payment. */
  method RecalculatePayment(current: Payment) returns (result: Payment)
    ensures result == RecalculatedPayment(current)
  {
    result := current;
    if current != map[] {
      var payment := current;
      var totalAmount := Get(payment, "totalAmount", 0.0);
      var discountAmount := Get(payment, "discountAmount", 0.0);
      var paidAmount := Get(payment, "paidAmount", 0.0);
      var netPayable := Max0(totalAmount - discountAmount);
      payment := payment["netPayable" := netPayable];
      var balanceDue := Max0(netPayable - paidAmount);
      payment := payment["balanceDue" := balanceDue];
      if "discountPercent" !in payment {
        if totalAmount > 0.0 {
          payment := payment["discountPercent" := discountAmount / totalAmount * 100.0];
        } else {
          payment := payment["discountPercent" := 0.0];
        }
      }
      result := payment;
    }
  }

  /** Recomputing a recomputed payment changes nothing. */
  lemma RecalculationIdempotent(p: Payment)
    ensures RecalculatedPayment(RecalculatedPayment(p)) == RecalculatedPayment(p)
  {
    if p != map[] {
      var q := RecalculatedPayment(p);
      assert Get(q, "totalAmount", 0.0) == Get(p, "totalAmount", 0.0);
      assert Get(q, "discountAmount", 0.0) == Get(p, "discountAmount", 0.0);
      assert Get(q, "paidAmount", 0.0) == Get(p, "paidAmount", 0.0);
    }
  }

  /** Client-supplied `netPayable` and `balanceDue` never reach the record. */
  lemma ClientTotalsIgnored(p: Payment, net: real, balance: real)
    requires p != map[]
    ensures RecalculatedPayment(p["netPayable" := net]["balanceDue" := balance]) == RecalculatedPayment(p)
  {
    var p' := p["netPayable" := net]["balanceDue" := balance];
    assert Get(p', "totalAmount", 0.0) == Get(p, "totalAmount", 0.0);
    assert Get(p', "discountAmount", 0.0) == Get(p, "discountAmount", 0.0);
    assert Get(p', "paidAmount", 0.0) == Get(p, "paidAmount", 0.0);
    var n := Max0(Get(p, "totalAmount", 0.0) - Get(p, "discountAmount", 0.0));
    var b := Max0(n - Get(p, "paidAmount", 0.0));
    assert p'["netPayable" := n]["balanceDue" := b] == p["netPayable" := n]["balanceDue" := b];
  }

  /** The figures of the model tests: 1000/100/800 gives 900/100 (and, by
      the formula, a 10 % discount), and an overpayment leaves no balance. */
  lemma PaymentExamples()
    ensures var q := RecalculatedPayment(map["totalAmount" := 1000.0, "discountAmount" := 100.0, "paidAmount" := 800.0]);
      Get(q, "netPayable", 0.0) == 900.0 && Get(q, "balanceDue", 0.0) == 100.0 && Get(q, "discountPercent", 0.0) == 10.0
    ensures Get(RecalculatedPayment(map["totalAmount" := 1000.0, "discountAmount" := 100.0, "paidAmount" := 1000.0]), "balanceDue", -1.0) == 0.0
  {
    var p1 := map["totalAmount" := 1000.0, "discountAmount" := 100.0, "paidAmount" := 800.0];
    assert Get(p1, "totalAmount", 0.0) == 1000.0 && Get(p1, "discountAmount", 0.0) == 100.0;
    assert Get(p1, "paidAmount", 0.0) == 800.0 && "discountPercent" !in p1;
    var p2 := map["totalAmount" := 1000.0, "discountAmount" := 100.0, "paidAmount" := 1000.0];
    assert Get(p2, "totalAmount", 0.0) == 1000.0 && Get(p2, "discountAmount", 0.0) == 100.0;
    assert Get(p2, "paidAmount", 0.0) == 1000.0;
  }

  /** The figure of the server-side payment test: client totals of 0/0 are
      replaced by 900/400. */
  lemma ServerSidePaymentExample()
    ensures var q := RecalculatedPayment(map["totalAmount" := 1000.0, "discountAmount" := 100.0, "paidAmount" := 500.0,
                                             "netPayable" := 0.0, "balanceDue" := 0.0]);
      Get(q, "netPayable", 0.0) == 900.0 && Get(q, "balanceDue", 0.0) == 400.0
  {
    var p3 := map["totalAmount" := 1000.0, "discountAmount" := 100.0, "paidAmount" := 500.0,
                  "netPayable" := 0.0, "balanceDue" := 0.0];
    assert Get(p3, "totalAmount", 0.0) == 1000.0 && Get(p3, "discountAmount", 0.0) == 100.0;
    assert Get(p3, "paidAmount", 0.0) == 500.0;
  }


  /** The name `populate_patient_name` leaves on a row about to be saved:
      filled from the patient only when the row has none. */
  function PopulatedName(row: LabRequestRow, patients: map<string, Patient>): (name: string)
    ensures row.patientName != "" ==> name == row.patientName
    ensures row.patientName == "" && row.patientId != "" && row.patientId in patients ==>
      name == patients[row.patientId].name
    ensures row.patientName == "" && (row.patientId == "" || row.patientId !in patients) ==> name == ""
  {
    if row.patientId != "" && row.patientName == "" && row.patientId in patients then patients[row.patientId].name
    else row.patientName
  }

  /** A row as the two `pre_save` receivers leave it. */
  function SavedRow(row: LabRequestRow, patients: map<string, Patient>): LabRequestRow {
    row.(patientName := PopulatedName(row, patients), payment := RecalculatedPayment(row.payment))
  }

  /** The two `pre_save` receivers of LabRequest, in the order they are registered. */
  method PreSave(row: LabRequestRow, patients: map<string, Patient>) returns (saved: LabRequestRow)
    ensures saved == SavedRow(row, patients)
    ensures saved.payment == RecalculatedPayment(row.payment)
    ensures row.patientName != "" ==> saved == row.(payment := saved.payment)
  {
    saved := row;
    if saved.patientId != "" && saved.patientName == "" && saved.patientId in patients {
      saved := saved.(patientName := patients[saved.patientId].name);
    }
    var payment := RecalculatePayment(saved.payment);
    saved := saved.(payment := payment);
  }

  /** Saving again a row that was saved before changes nothing. */
  lemma ResaveUnchanged(row: LabRequestRow, patients: map<string, Patient>)
    requires row.patientName != ""
    requires RecalculatedPayment(row.payment) == row.payment
    ensures SavedRow(row, patients) == row
  {
  }

  /** `update_related_lab_request_names`: a bulk update of `patient_name` on
      every request of the patient (a queryset update: no save hooks run). */
  function RenamedRequests(requests: map<string, LabRequestRow>, patientId: string, name: string): (r: map<string, LabRequestRow>)
    ensures r.Keys == requests.Keys
    ensures forall id :: id in requests && requests[id].patientId == patientId ==> r[id] == requests[id].(patientName := name)
    ensures forall id :: id in requests && requests[id].patientId != patientId ==> r[id] == requests[id]
  {
    map id | id in requests :: if requests[id].patientId == patientId then requests[id].(patientName := name) else requests[id]
  }
}
