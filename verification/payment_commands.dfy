/** The payment command handler: delete. */
module PaymentCommands {
  import opened Wrappers
  import opened Primitives
  import opened Errors
  import opened BaseEntities
  import opened Repository
  import opened Payments
  import opened REPMContext
  import opened Store

  const PaymentTypeName: string := "Payment"

  /** `DeletePaymentCommand`: soft-deletes the payment and, unlike the other
      delete handlers, answers what the commit answers. Payments do not
      derive `BaseEntity`, so nothing is stamped. */
  function DeletePayment(db: Db, ctx: CommitContext, paymentId: Guid): (r: Result<Saved<bool>, Error>)
    ensures GetById(db.payments, paymentId).None? ==> r == Err(NotFound(PaymentTypeName, paymentId))
    ensures r.Ok? <==> GetById(db.payments, paymentId).Some? && Actor(ctx).Ok?
    ensures r.Ok? ==>
      r.value == Saved(db.(payments := Repository.Delete(db.payments, FindActive(db.payments, paymentId).value)), ctx.answer)
  {
    var k :- Load(db.payments, PaymentTypeName, paymentId);
    var saved :- SaveUpdate(db.payments, k, Repository.Delete(db.payments, k)[k], PaymentKind, ctx);
    Ok(Saved(db.(payments := saved.table), ctx.answer))
  }

  /** A deleted payment moves to the deleted view and is no longer found, when
      no other live payment shares its id. */
  lemma DeletePaymentMovesToDeleted(db: Db, ctx: CommitContext, paymentId: Guid)
    requires DeletePayment(db, ctx, paymentId).Ok? && LiveIdUnique(db.payments, paymentId)
    ensures var t := DeletePayment(db, ctx, paymentId).value.db.payments;
      && GetById(t, paymentId).None?
      && t[FindActive(db.payments, paymentId).value] in QueryDeleted(t)
  {
    var k := FindActive(db.payments, paymentId).value;
    var t := DeletePayment(db, ctx, paymentId).value.db.payments;
    assert forall i :: 0 <= i < |t| ==> t[i].env.id != paymentId || t[i].env.isDeleted;
    ViewsPartition(t, t[k]);
  }
}
