/** The lease command handlers: activate, expire, cancel and delete a lease by
    id. Leases do not derive `BaseEntity`, so their commits stamp nothing. */
module LeaseCommands {
  import opened Wrappers
  import opened Primitives
  import opened Errors
  import opened BaseEntities
  import opened Repository
  import opened Leases
  import opened REPMContext
  import opened Store

  const LeaseTypeName: string := "Lease"

  /** Load the lease, apply one status mutator, commit; the result is what
      the commit answers. */
  function Transition(db: Db, ctx: CommitContext, leaseId: Guid, change: Lease -> Result<Lease, Error>): (r: Result<Saved<bool>, Error>)
    ensures GetById(db.leases, leaseId).None? ==> r == Err(NotFound(LeaseTypeName, leaseId))
    ensures GetById(db.leases, leaseId).Some? && change(GetById(db.leases, leaseId).value.data).Err? ==>
      r == Err(change(GetById(db.leases, leaseId).value.data).error)
    ensures r.Ok? <==> GetById(db.leases, leaseId).Some? && change(GetById(db.leases, leaseId).value.data).Ok? && Actor(ctx).Ok?
    ensures r.Ok? ==>
      var k := FindActive(db.leases, leaseId).value;
      var l := db.leases[k];
      var l' := change(l.data).value;
      && r.value.db == db.(leases := db.leases[k := l.(data := l')])
      && r.value.value == ctx.answer
  {
    var k :- Load(db.leases, LeaseTypeName, leaseId);
    var l := db.leases[k];
    var data :- change(l.data);
    var c :- SaveUpdate(db.leases, k, l.(data := data), LeaseKind, ctx);
    Ok(Saved(db.(leases := c.table), ctx.answer))
  }

  /** `ActivateLeaseCommand`: only a Pending lease becomes Active. */
  function ActivateLease(db: Db, ctx: CommitContext, leaseId: Guid): (r: Result<Saved<bool>, Error>)
    ensures GetById(db.leases, leaseId).None? ==> r == Err(NotFound(LeaseTypeName, leaseId))
    ensures GetById(db.leases, leaseId).Some? && GetById(db.leases, leaseId).value.data.status != Pending ==>
      r == Err(InvalidOperation(OnlyPendingCanActivate))
    ensures r.Ok? <==> GetById(db.leases, leaseId).Some? && GetById(db.leases, leaseId).value.data.status == Pending
                       && Actor(ctx).Ok?
    ensures r.Ok? ==>
      var k := FindActive(db.leases, leaseId).value;
      r.value == Saved(db.(leases := db.leases[k := db.leases[k].(data := db.leases[k].data.(status := Active))]), ctx.answer)
  {
    Transition(db, ctx, leaseId, Activate)
  }

  /** `ExpireLeaseCommand`: only an Active lease becomes Expired. */
  function ExpireLease(db: Db, ctx: CommitContext, leaseId: Guid): (r: Result<Saved<bool>, Error>)
    ensures GetById(db.leases, leaseId).None? ==> r == Err(NotFound(LeaseTypeName, leaseId))
    ensures GetById(db.leases, leaseId).Some? && GetById(db.leases, leaseId).value.data.status != Active ==>
      r == Err(InvalidOperation(OnlyActiveCanExpire))
    ensures r.Ok? <==> GetById(db.leases, leaseId).Some? && GetById(db.leases, leaseId).value.data.status == Active
                       && Actor(ctx).Ok?
    ensures r.Ok? ==>
      var k := FindActive(db.leases, leaseId).value;
      r.value == Saved(db.(leases := db.leases[k := db.leases[k].(data := db.leases[k].data.(status := Expired))]), ctx.answer)
  {
    Transition(db, ctx, leaseId, Expire)
  }

  /** `CancelLeaseCommand`: any lease but an Expired one becomes Canceled,
      an already Canceled one included. */
  function CancelLease(db: Db, ctx: CommitContext, leaseId: Guid): (r: Result<Saved<bool>, Error>)
    ensures GetById(db.leases, leaseId).None? ==> r == Err(NotFound(LeaseTypeName, leaseId))
    ensures GetById(db.leases, leaseId).Some? && GetById(db.leases, leaseId).value.data.status == Expired ==>
      r == Err(InvalidOperation(ExpiredCannotBeCanceled))
    ensures r.Ok? <==> GetById(db.leases, leaseId).Some? && GetById(db.leases, leaseId).value.data.status != Expired
                       && Actor(ctx).Ok?
    ensures r.Ok? ==>
      var k := FindActive(db.leases, leaseId).value;
      && r.value.db == db.(leases := db.leases[k := db.leases[k].(data := db.leases[k].data.(status := Canceled))])
      && r.value.value == ctx.answer
  {
    Transition(db, ctx, leaseId, Cancel)
  }

  /** `DeleteLeaseCommand`: soft-deletes the lease and answers true; its
      payments are left as they are. */
  function DeleteLease(db: Db, ctx: CommitContext, leaseId: Guid): (r: Result<Saved<bool>, Error>)
    ensures GetById(db.leases, leaseId).None? ==> r == Err(NotFound(LeaseTypeName, leaseId))
    ensures r.Ok? <==> GetById(db.leases, leaseId).Some? && Actor(ctx).Ok?
    ensures r.Ok? ==> r.value == Saved(db.(leases := Repository.Delete(db.leases, FindActive(db.leases, leaseId).value)), true)
  {
    var k :- Load(db.leases, LeaseTypeName, leaseId);
    var c :- SaveUpdate(db.leases, k, Repository.Delete(db.leases, k)[k], LeaseKind, ctx);
    Ok(Saved(db.(leases := c.table), true))
  }

  /** Each successful status handler moves the lease along one step of the
      status table and leaves every other row and set untouched. */
  lemma StatusHandlersFollowSteps(db: Db, ctx: CommitContext, leaseId: Guid)
    ensures forall r :: r in [ActivateLease(db, ctx, leaseId), ExpireLease(db, ctx, leaseId), CancelLease(db, ctx, leaseId)] && r.Ok? ==>
      var k := FindActive(db.leases, leaseId).value;
      && (db.leases[k].data.status, r.value.db.leases[k].data.status) in Steps
      && r.value.db.users == db.users && r.value.db.properties == db.properties && r.value.db.payments == db.payments
      && |r.value.db.leases| == |db.leases|
      && forall i :: 0 <= i < |db.leases| && i != k ==> r.value.db.leases[i] == db.leases[i]
  {
  }

  /** Deleting a lease twice fails the second time, when no other live lease
      shares its id. */
  lemma DeleteTwiceNotFound(db: Db, ctx: CommitContext, leaseId: Guid)
    requires DeleteLease(db, ctx, leaseId).Ok? && LiveIdUnique(db.leases, leaseId)
    ensures DeleteLease(DeleteLease(db, ctx, leaseId).value.db, ctx, leaseId) == Err(NotFound(LeaseTypeName, leaseId))
  {
    var k := FindActive(db.leases, leaseId).value;
    var t' := DeleteLease(db, ctx, leaseId).value.db.leases;
    assert forall i :: 0 <= i < |t'| ==> t'[i].env.id != leaseId || t'[i].env.isDeleted;
  }

  /** Activation is the only way out of Pending that keeps the lease going:
      an activated lease can then be expired. */
  lemma ActivateThenExpire(db: Db, ctx: CommitContext, leaseId: Guid)
    requires ActivateLease(db, ctx, leaseId).Ok?
    ensures ExpireLease(ActivateLease(db, ctx, leaseId).value.db, ctx, leaseId).Ok?
  {
    var k := FindActive(db.leases, leaseId).value;
    var t' := ActivateLease(db, ctx, leaseId).value.db.leases;
    assert FindActive(t', leaseId) == Some(k) by {
      FindActiveUnchangedPrefix(db.leases, t', leaseId, k);
    }
  }
}
