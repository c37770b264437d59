/** The orchestrator that decides whether a tenant may lease a property. */
module LeaseDomainService {
  import opened Wrappers
  import opened Primitives
  import opened Errors
  import opened DateRanges
  import opened MoneyValues
  import opened PaymentStatuses
  import opened BaseEntities
  import opened Payments
  import opened Leases
  import opened Users
  import opened Properties

  /** A lease of the tenant together with its loaded `Payments` collection. */
  datatype LeaseWithPayments = LeaseWithPayments(lease: Entity<Lease>, payments: seq<Payment>)

  /** Some supplied lease, whatever its status, has a Pending payment. */
  predicate HasPendingPayment(leases: seq<LeaseWithPayments>) {
    exists i, j :: 0 <= i < |leases| && 0 <= j < |leases[i].payments| && leases[i].payments[j].status == PaymentStatus.Pending
  }

  /** `CreateLease`. A null renter or property (None) is dereferenced where
      the source dereferences it. `propertyLeases` is the property's loaded
      `Leases` collection; `id` stands for the GUID the Lease constructor
      generates. The checks run in a fixed order and the first failure wins:
      availability, then the period, then pending payments. */
  function CreateLease(id: Guid, renter: Option<Entity<User>>, property: Option<Entity<Property>>,
                       propertyLeases: seq<Lease>, period: DateRange, rent: Money,
                       activeLeases: seq<LeaseWithPayments>): (r: Result<Entity<Lease>, Error>)
    ensures property.None? ==> r == Err(NullReference)
    ensures property.Some? && !IsAvailable(property.value.data, propertyLeases) ==>
      r == Err(PropertyNotAvailable(Unavailable(property.value.env.id)))
    ensures property.Some? && IsAvailable(property.value.data, propertyLeases) && !IsValid(period) ==>
      r == Err(InvalidLeasePeriod)
    ensures property.Some? && IsAvailable(property.value.data, propertyLeases) && IsValid(period)
            && HasPendingPayment(activeLeases) && renter.Some? ==>
      r == Err(OverduePayment(Some(renter.value.env.id)))
    ensures property.Some? && IsValid(period) && renter.None? ==> r.Err?
    ensures property.Some? && IsAvailable(property.value.data, propertyLeases) && IsValid(period) && renter.None? ==>
      r == Err(NullReference)
    ensures r.Ok? <==>
      && property.Some? && renter.Some?
      && IsAvailable(property.value.data, propertyLeases)
      && IsValid(period)
      && !HasPendingPayment(activeLeases)
    ensures r.Ok? ==> r.value.env == Fresh(id)
    ensures r.Ok? ==>
      r.value.data == Lease(property.value.env.id, renter.value.env.id, period, rent, Active)
  {
    match property
    case None => Err(NullReference)
    case Some(p) =>
      if !IsAvailable(p.data, propertyLeases) then Err(PropertyNotAvailable(Unavailable(p.env.id)))
      else if !IsValid(period) then Err(InvalidLeasePeriod)
      else if HasPendingPayment(activeLeases) then
        (match renter
         case None => Err(NullReference)
         case Some(u) => Err(OverduePayment(Some(u.env.id))))
      else
        match renter
        case None => Err(NullReference)
        case Some(u) =>
          // The constructor's own period check cannot fail here.
          NewLease(id, p.env.id, u.env.id, period, rent)
  }

  /** An unavailable property is refused whatever the period, rent and leases. */
  lemma UnavailableAlwaysRefused(id: Guid, renter: Option<Entity<User>>, p: Entity<Property>, propertyLeases: seq<Lease>,
                                 period: DateRange, rent: Money, activeLeases: seq<LeaseWithPayments>,
                                 period': DateRange, rent': Money, activeLeases': seq<LeaseWithPayments>)
    requires !IsAvailable(p.data, propertyLeases)
    ensures CreateLease(id, renter, Some(p), propertyLeases, period, rent, activeLeases)
         == CreateLease(id, renter, Some(p), propertyLeases, period', rent', activeLeases')
         == Err(PropertyNotAvailable(Unavailable(p.env.id)))
  {
  }

  /** A tenant with no supplied leases never meets the overdue-payment error. */
  lemma NoLeasesNoOverdue(id: Guid, renter: Option<Entity<User>>, property: Option<Entity<Property>>,
                          propertyLeases: seq<Lease>, period: DateRange, rent: Money)
    ensures !CreateLease(id, renter, property, propertyLeases, period, rent, []).Err?
         || !CreateLease(id, renter, property, propertyLeases, period, rent, []).error.OverduePayment?
  {
  }

  /** The lease's own status does not matter: a pending payment blocks even
      when it belongs to an expired or canceled lease. */
  lemma PendingPaymentBlocksWhateverLeaseStatus(id: Guid, u: Entity<User>, p: Entity<Property>, propertyLeases: seq<Lease>,
                                                period: DateRange, rent: Money,
                                                l: Entity<Lease>, pay: Payment, s: LeaseStatus)
    requires IsAvailable(p.data, propertyLeases) && IsValid(period) && pay.status == PaymentStatus.Pending
    ensures CreateLease(id, Some(u), Some(p), propertyLeases, period, rent,
                        [LeaseWithPayments(l.(data := l.data.(status := s)), [pay])])
         == Err(OverduePayment(Some(u.env.id)))
  {
    var ls := [LeaseWithPayments(l.(data := l.data.(status := s)), [pay])];
    assert ls[0].payments[0].status == PaymentStatus.Pending;
  }
}
