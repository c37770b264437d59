/** A payment made against a lease. */
module Payments {
  import opened Wrappers
  import opened Primitives
  import opened Errors
  import opened MoneyValues
  import opened PaymentStatuses
  import opened BaseEntities

  datatype Payment = Payment(leaseId: Guid, amount: Money, date: Ticks, status: PaymentStatus)

  /** The constructor. `now` stands for the clock read (`DateTime.UtcNow`) and
      `id` for the freshly generated GUID. A date after now is rejected; the
      amount is not validated; the new payment is Completed. */
  function NewPayment(id: Guid, leaseId: Guid, amount: Money, date: Ticks, now: Ticks): (r: Result<Entity<Payment>, Error>)
    ensures r.Err? <==> date > now
    ensures r.Err? ==> r.error == OverduePayment(None)
    ensures r.Ok? ==> r.value.env == Fresh(id)
    ensures r.Ok? ==> r.value.data.leaseId == leaseId && r.value.data.amount == amount && r.value.data.date == date
    ensures r.Ok? ==> r.value.data.status == Completed
  {
    if date > now then Err(OverduePayment(None))
    else Ok(Entity(Fresh(id), Payment(leaseId, amount, date, Completed)))
  }

  /** A new payment is never Pending, and it may carry an amount that
      `EnsureValid` would reject. */
  lemma NewPaymentSkipsMoneyValidation(id: Guid, leaseId: Guid, amount: Money, date: Ticks, now: Ticks)
    requires date <= now && amount.amount < 0
    ensures NewPayment(id, leaseId, amount, date, now).Ok?
    ensures NewPayment(id, leaseId, amount, date, now).value.data.status != Pending
    ensures EnsureValid(NewPayment(id, leaseId, amount, date, now).value.data.amount).Err?
  {
  }
}
