/** A lease of a property to a tenant, and its status machine. */
module Leases {
  import opened Wrappers
  import opened Primitives
  import opened Errors
  import opened DateRanges
  import opened MoneyValues
  import opened BaseEntities

  datatype LeaseStatus = Pending | Active | Expired | Canceled

  datatype Lease = Lease(propertyId: Guid, tenantId: Guid, leasePeriod: DateRange, rentAmount: Money, status: LeaseStatus)

  /** The status changes the three mutators can make, written out as data. */
  const Steps: set<(LeaseStatus, LeaseStatus)> :=
    {(Pending, Active), (Active, Expired), (Pending, Canceled), (Active, Canceled), (Canceled, Canceled)}

  /** The constructor, with `id` standing for the freshly generated GUID: the
      period must be valid, and the new lease is Active. */
  function NewLease(id: Guid, propertyId: Guid, tenantId: Guid, period: DateRange, rent: Money): (r: Result<Entity<Lease>, Error>)
    ensures r.Ok? <==> IsValid(period)
    ensures r.Err? ==> r.error == InvalidLeasePeriod
    ensures r.Ok? ==> r.value.env == Fresh(id)
    ensures r.Ok? ==> r.value.data == Lease(propertyId, tenantId, period, rent, Active)
  {
    if period.start >= period.end then Err(InvalidLeasePeriod)
    else Ok(Entity(Fresh(id), Lease(propertyId, tenantId, period, rent, Active)))
  }

  /** Whether the lease period overlaps `other`, as half-open intervals. */
  predicate IsOverlapping(l: Lease, other: DateRange) {
    Overlaps(l.leasePeriod, other)
  }

  function Activate(l: Lease): (r: Result<Lease, Error>)
    ensures r.Ok? <==> l.status == Pending
    ensures r.Ok? ==> r.value == l.(status := Active)
    ensures r.Err? ==> r.error == InvalidOperation(OnlyPendingCanActivate)
  {
    if l.status != Pending then Err(InvalidOperation(OnlyPendingCanActivate))
    else Ok(l.(status := Active))
  }

  function Expire(l: Lease): (r: Result<Lease, Error>)
    ensures r.Ok? <==> l.status == Active
    ensures r.Ok? ==> r.value == l.(status := Expired)
    ensures r.Err? ==> r.error == InvalidOperation(OnlyActiveCanExpire)
  {
    if l.status != Active then Err(InvalidOperation(OnlyActiveCanExpire))
    else Ok(l.(status := Expired))
  }

  function Cancel(l: Lease): (r: Result<Lease, Error>)
    ensures r.Ok? <==> l.status != Expired
    ensures r.Ok? ==> r.value == l.(status := Canceled)
    ensures r.Err? ==> r.error == InvalidOperation(ExpiredCannotBeCanceled)
  {
    if l.status == Expired then Err(InvalidOperation(ExpiredCannotBeCanceled))
    else Ok(l.(status := Canceled))
  }

  /** Every successful mutator call makes a step of the table and changes
      nothing but the status; every step of the table is made by one of them. */
  lemma MutatorsFollowSteps(l: Lease)
    ensures forall r :: r in [Activate(l), Expire(l), Cancel(l)] && r.Ok? ==>
      (l.status, r.value.status) in Steps && r.value == l.(status := r.value.status)
    ensures forall t :: (l.status, t) in Steps ==>
      exists r :: r in [Activate(l), Expire(l), Cancel(l)] && r.Ok? && r.value.status == t
  {
    forall t | (l.status, t) in Steps
      ensures exists r :: r in [Activate(l), Expire(l), Cancel(l)] && r.Ok? && r.value.status == t
    {
      if t == Active {
        assert Activate(l) in [Activate(l), Expire(l), Cancel(l)];
      } else if t == Expired {
        assert Expire(l) in [Activate(l), Expire(l), Cancel(l)];
      } else {
        assert Cancel(l) in [Activate(l), Expire(l), Cancel(l)];
      }
    }
  }

  /** No mutator leaves Expired. */
  lemma ExpiredIsAbsorbing(l: Lease)
    requires l.status == Expired
    ensures Activate(l).Err? && Expire(l).Err? && Cancel(l).Err?
  {
  }

  lemma CancelIdempotent(l: Lease)
    requires Cancel(l).Ok?
    ensures Cancel(Cancel(l).value) == Cancel(l)
  {
  }

  /** A freshly constructed lease is Active, so it cannot be activated. */
  lemma FreshLeaseCannotActivate(id: Guid, propertyId: Guid, tenantId: Guid, period: DateRange, rent: Money)
    requires NewLease(id, propertyId, tenantId, period, rent).Ok?
    ensures Activate(NewLease(id, propertyId, tenantId, period, rent).value.data).Err?
  {
  }
}
