/** The payment ledger: tithes and funeral dues, appended in the order they
    are recorded. */
module Payments {

  import opened JsValue
  import opened Seqs

  datatype Payment = Payment(id: int, memberId: int, amount: string, kind: string, date: string)

  /** A payment body: `id` and `date` are present only when the body carries them. */
  datatype PaymentData = PaymentData(
    id: Option<int>,
    memberId: int,
    amount: string,
    kind: string,
    date: Option<string>)

  function PaymentId(p: Payment): int {
    p.id
  }

  /** `{ id, ...data, date: now }`: the computed id (1 on an empty ledger,
      otherwise one more than the largest id) unless the body has one, and
      always the recording time, whatever date the body carries. */
  function NewPayment(ps: seq<Payment>, data: PaymentData, now: string): (p: Payment)
    ensures data.id.None? ==> forall i :: 0 <= i < |ps| ==> ps[i].id < p.id
    ensures data.id.None? && ps == [] ==> p.id == 1
    ensures data.id.None? && ps != [] ==> exists i :: 0 <= i < |ps| && ps[i].id == p.id - 1
    ensures data.id.Some? ==> p.id == data.id.value
    ensures p.date == now
    ensures p.memberId == data.memberId && p.amount == data.amount && p.kind == data.kind
  {
    Payment(
      if data.id.Some? then data.id.value else NextId(Ids(ps, PaymentId)),
      data.memberId,
      data.amount,
      data.kind,
      now)
  }

  /** `getPaymentsForMember(memberId)` as a filter on the ledger. */
  function PaymentsFor(ps: seq<Payment>, memberId: int): (r: seq<Payment>)
    ensures |r| <= |ps|
    ensures forall i :: 0 <= i < |r| ==> r[i].memberId == memberId
  {
    FilterExactly(ps, (p: Payment) => p.memberId == memberId);
    Filter(ps, (p: Payment) => p.memberId == memberId)
  }

  /** Exactly the member's payments: everything returned is theirs, and
      each of their payments is returned. */
  lemma PaymentsForExactly(ps: seq<Payment>, memberId: int)
    ensures forall i :: 0 <= i < |PaymentsFor(ps, memberId)| ==> PaymentsFor(ps, memberId)[i].memberId == memberId
    ensures forall i :: 0 <= i < |ps| && ps[i].memberId == memberId ==> ps[i] in PaymentsFor(ps, memberId)
  {
    FilterExactly(ps, (p: Payment) => p.memberId == memberId);
  }

  /** Recording a payment extends its member's history at the end and leaves
      every other member's history as it was. */
  lemma RecordExtendsHistory(ps: seq<Payment>, p: Payment, memberId: int)
    ensures PaymentsFor(ps + [p], memberId)
         == PaymentsFor(ps, memberId) + (if p.memberId == memberId then [p] else [])
  {
    FilterAppend(ps, [p], (q: Payment) => q.memberId == memberId);
  }

  /** The module-level `payments` array. */
  class PaymentStore {
    var payments: seq<Payment>

    /** The ledger as loaded from disk. */
    constructor (loaded: seq<Payment>)
      ensures payments == loaded
    {
      payments := loaded;
    }

    /** `recordPayment(data)` at time `now`: appends exactly one payment at
        the end and returns it; earlier payments are untouched. */
    method RecordPayment(data: PaymentData, now: string) returns (p: Payment)
      modifies this
      ensures p == NewPayment(old(payments), data, now)
      ensures payments == old(payments) + [p]
    {
      p := NewPayment(payments, data, now);
      payments := payments + [p];
    }

    /** `getAllPayments()`: the ledger itself, in insertion order. */
    method GetAllPayments() returns (ps: seq<Payment>)
      ensures ps == payments
    {
      ps := payments;
    }

    /** `getPaymentsForMember(memberId)`: that member's payments in ledger order. */
    method GetPaymentsForMember(memberId: int) returns (ps: seq<Payment>)
      ensures ps == PaymentsFor(payments, memberId)
    {
      ps := PaymentsFor(payments, memberId);
    }
  }
}
