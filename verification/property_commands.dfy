/** The property command handlers: create, lease, list, unlist and delete. */
module PropertyCommands {
  import opened Wrappers
  import opened Primitives
  import opened Errors
  import opened Addresses
  import opened DateRanges
  import opened MoneyValues
  import opened PaymentStatuses
  import opened BaseEntities
  import opened Repository
  import opened Users
  import opened Properties
  import opened Leases
  import opened Payments
  import opened LeaseDomainService
  import opened REPMContext
  import opened Guards
  import opened Store
  import Seqs

  const PropertyTypeName: string := "Property"

  /** The command's address is the mapped `AddressDto`; rents and prices are
      integers. `isActive` is carried but never read. */
  datatype CreatePropertyCommand = CreatePropertyCommand(
    name: NString, address: Option<Address>, description: NString,
    price: int, beds: int, baths: int, squareFeet: int, isActive: bool, ownerId: Guid)

  /** Every guard of `CreatePropertyCommand` passes. */
  predicate GuardsPass(c: CreatePropertyCommand) {
    && !IsNullOrEmpty(c.name) && c.address.Some? && !IsNullOrEmpty(c.description)
    && c.price > 0 && c.beds > 0 && c.baths > 0 && c.squareFeet > 0
  }

  /** `CreatePropertyCommand`, with `id` standing for the generated GUID: the
      guards in order, then the new unlisted property is inserted and stamped. */
  function CreateProperty(db: Db, ctx: CommitContext, id: Guid, c: CreatePropertyCommand): (r: Result<Saved<Guid>, Error>)
    ensures c.name.None? ==> r == Err(ArgumentNull("Name"))
    ensures c.name == Some("") ==> r == Err(ArgumentEmpty("Name"))
    ensures !IsNullOrEmpty(c.name) && c.address.None? ==> r == Err(ArgumentNull("Address"))
    ensures !IsNullOrEmpty(c.name) && c.address.Some? && c.description.None? ==> r == Err(ArgumentNull("Description"))
    ensures !IsNullOrEmpty(c.name) && c.address.Some? && c.description == Some("") ==> r == Err(ArgumentEmpty("Description"))
    ensures !IsNullOrEmpty(c.name) && c.address.Some? && !IsNullOrEmpty(c.description) && c.price <= 0 ==>
      r == Err(NotPositive("Price"))
    ensures !IsNullOrEmpty(c.name) && c.address.Some? && !IsNullOrEmpty(c.description) && c.price > 0 && c.beds <= 0 ==>
      r == Err(NotPositive("Beds"))
    ensures !IsNullOrEmpty(c.name) && c.address.Some? && !IsNullOrEmpty(c.description) && c.price > 0 && c.beds > 0
            && c.baths <= 0 ==>
      r == Err(NotPositive("Baths"))
    ensures !IsNullOrEmpty(c.name) && c.address.Some? && !IsNullOrEmpty(c.description) && c.price > 0 && c.beds > 0
            && c.baths > 0 && c.squareFeet <= 0 ==>
      r == Err(NotPositive("SquareFeet"))
    ensures r.Ok? <==> GuardsPass(c) && Actor(ctx).Ok?
    ensures r.Ok? ==> r.value.value == id
    ensures r.Ok? ==>
      var a := Actor(ctx).value;
      r.value.db == db.(properties := db.properties + [Entity(
        Envelope(id, ctx.now, Some(ctx.now), false, Some(a), Some(a)),
        Property(c.name, c.address.value, c.ownerId, false, c.description, c.price, c.beds, c.baths, c.squareFeet))])
  {
    var name :- NotNullOrEmpty(c.name, "Name");
    var address :- NotNull(c.address, "Address");
    var description :- NotNullOrEmpty(c.description, "Description");
    :- Positive(c.price, "Price");
    :- Positive(c.beds, "Beds");
    :- Positive(c.baths, "Baths");
    :- Positive(c.squareFeet, "SquareFeet");
    var property := NewProperty(id, c.name, Some(address), c.ownerId, c.description, c.price, c.beds, c.baths, c.squareFeet).value;
    var saved :- SaveInsert(db.properties, property, PropertyKind, ctx);
    Ok(Saved(db.(properties := saved.table), property.env.id))
  }

  /** The payments of a lease: every stored payment row naming it, soft-deleted
      ones included, since loading a navigation applies no deletion filter. */
  function PaymentsOf(payments: Table<Payment>, leaseId: Guid): (r: seq<Payment>)
    ensures forall q :: q in r ==> q.leaseId == leaseId
    ensures forall q :: q in r ==> exists i :: 0 <= i < |payments| && payments[i].data == q
    ensures forall i :: 0 <= i < |payments| && payments[i].data.leaseId == leaseId ==> payments[i].data in r
    ensures (forall i :: 0 <= i < |payments| ==> payments[i].data.leaseId != leaseId) ==> r == []
    decreases |payments|
  {
    if |payments| == 0 then []
    else
      var rest := PaymentsOf(payments[1..], leaseId);
      assert forall i :: 1 <= i < |payments| ==> payments[i] == payments[1..][i - 1];
      if payments[0].data.leaseId == leaseId then [payments[0].data] + rest else rest
  }

  /** The tenant's leases as the lease handler loads them: live leases of the
      tenant, each with its payments. */
  function RenterLeases(db: Db, tenantId: Guid): (r: seq<LeaseWithPayments>)
    ensures forall i :: 0 <= i < |r| ==> r[i].lease.data.tenantId == tenantId && !r[i].lease.env.isDeleted
    ensures forall i :: 0 <= i < |r| ==> r[i].payments == PaymentsOf(db.payments, r[i].lease.env.id)
    ensures forall i :: 0 <= i < |r| ==> r[i].lease in db.leases
    ensures forall k :: 0 <= k < |db.leases| && !db.leases[k].env.isDeleted && db.leases[k].data.tenantId == tenantId ==>
      exists i :: 0 <= i < |r| && r[i].lease == db.leases[k]
  {
    var ofTenant := (l: Entity<Lease>) => l.data.tenantId == tenantId;
    var ls := Seqs.Filter(ofTenant, QueryToRead(db.leases));
    forall i | 0 <= i < |ls| ensures !ls[i].env.isDeleted && ls[i] in db.leases {
      Seqs.FilterMembership(ofTenant, QueryToRead(db.leases), ls[i]);
      ViewsPartition(db.leases, ls[i]);
    }
    var r := seq(|ls|, i requires 0 <= i < |ls| => LeaseWithPayments(ls[i], PaymentsOf(db.payments, ls[i].env.id)));
    forall k | 0 <= k < |db.leases| && !db.leases[k].env.isDeleted && db.leases[k].data.tenantId == tenantId
      ensures exists i :: 0 <= i < |r| && r[i].lease == db.leases[k]
    {
      ViewsPartition(db.leases, db.leases[k]);
      Seqs.FilterMembership(ofTenant, QueryToRead(db.leases), db.leases[k]);
      var i :| 0 <= i < |ls| && ls[i] == db.leases[k];
      assert r[i].lease == db.leases[k];
    }
    r
  }

  /** The tenant owes a Pending payment in the loader's sense exactly when
      some live lease of the tenant has a stored Pending payment, whether or
      not that payment row is soft-deleted. */
  predicate OwesPending(db: Db, tenantId: Guid) {
    exists k, j :: 0 <= k < |db.leases| && 0 <= j < |db.payments|
      && !db.leases[k].env.isDeleted && db.leases[k].data.tenantId == tenantId
      && db.payments[j].data.leaseId == db.leases[k].env.id && db.payments[j].data.status == PaymentStatus.Pending
  }

  /** The candidate leases hold a Pending payment if and only if the tenant
      owes one among all of its live leases: nothing is missed, nothing is
      invented. */
  lemma RenterLeasesPendingIff(db: Db, tenantId: Guid)
    ensures HasPendingPayment(RenterLeases(db, tenantId)) <==> OwesPending(db, tenantId)
  {
    var r := RenterLeases(db, tenantId);
    if HasPendingPayment(r) {
      LoadedPendingIsOwed(db, tenantId, r);
    }
    if OwesPending(db, tenantId) {
      OwedPendingIsLoaded(db, tenantId, r);
    }
  }

  lemma LoadedPendingIsOwed(db: Db, tenantId: Guid, r: seq<LeaseWithPayments>)
    requires r == RenterLeases(db, tenantId) && HasPendingPayment(r)
    ensures OwesPending(db, tenantId)
  {
    var i, j :| 0 <= i < |r| && 0 <= j < |r[i].payments| && r[i].payments[j].status == PaymentStatus.Pending;
    var l := r[i].lease;
    assert l.data.tenantId == tenantId && !l.env.isDeleted;
    assert l in db.leases;
    var k :| 0 <= k < |db.leases| && db.leases[k] == l;
    var ps := PaymentsOf(db.payments, l.env.id);
    assert r[i].payments == ps;
    var q := ps[j];
    assert q in ps;
    var jj :| 0 <= jj < |db.payments| && db.payments[jj].data == q;
    assert db.payments[jj].data.leaseId == db.leases[k].env.id;
  }

  lemma OwedPendingIsLoaded(db: Db, tenantId: Guid, r: seq<LeaseWithPayments>)
    requires r == RenterLeases(db, tenantId) && OwesPending(db, tenantId)
    ensures HasPendingPayment(r)
  {
    var k, j :| 0 <= k < |db.leases| && 0 <= j < |db.payments|
      && !db.leases[k].env.isDeleted && db.leases[k].data.tenantId == tenantId
      && db.payments[j].data.leaseId == db.leases[k].env.id && db.payments[j].data.status == PaymentStatus.Pending;
    var i :| 0 <= i < |r| && r[i].lease == db.leases[k];
    var ps := PaymentsOf(db.payments, db.leases[k].env.id);
    assert r[i].payments == ps;
    assert db.payments[j].data in ps;
    var jj :| 0 <= jj < |ps| && ps[jj] == db.payments[j].data;
    assert r[i].payments[jj].status == PaymentStatus.Pending;
  }

  /** `LeasePropertyCommand`, with `id` standing for the new lease's GUID. The
      property and tenant are read without their navigations, so the
      orchestrator sees the property with no leases. */
  function LeaseProperty(db: Db, ctx: CommitContext, id: Guid, propertyId: Guid, tenantId: Guid,
                         dateRange: Option<DateRange>, price: Option<Money>): (r: Result<Saved<Guid>, Error>)
    ensures dateRange.None? ==> r == Err(ArgumentNull("DateRange"))
    ensures dateRange.Some? && price.None? ==> r == Err(ArgumentNull("Price"))
    ensures dateRange.Some? && price.Some? && GetById(db.properties, propertyId).None? ==> r == Err(NullReference)
    ensures dateRange.Some? && price.Some? && GetById(db.properties, propertyId).Some? && !IsValid(dateRange.value) ==>
      r == Err(InvalidLeasePeriod)
    ensures dateRange.Some? && price.Some? && GetById(db.properties, propertyId).Some? && IsValid(dateRange.value)
            && GetById(db.users, tenantId).Some? && HasPendingPayment(RenterLeases(db, tenantId)) ==>
      r == Err(OverduePayment(Some(tenantId)))
    ensures dateRange.Some? && price.Some? && GetById(db.properties, propertyId).Some? && IsValid(dateRange.value)
            && GetById(db.users, tenantId).Some? && OwesPending(db, tenantId) ==>
      r == Err(OverduePayment(Some(tenantId)))
    ensures dateRange.Some? && price.Some? && GetById(db.properties, propertyId).Some? && IsValid(dateRange.value)
            && GetById(db.users, tenantId).None? ==>
      r == Err(NullReference)
    ensures r.Ok? <==>
      && dateRange.Some? && price.Some?
      && GetById(db.properties, propertyId).Some? && GetById(db.users, tenantId).Some?
      && IsValid(dateRange.value) && !OwesPending(db, tenantId)
      && Actor(ctx).Ok?
    ensures r.Ok? <==>
      && dateRange.Some? && price.Some?
      && GetById(db.properties, propertyId).Some? && GetById(db.users, tenantId).Some?
      && IsValid(dateRange.value) && !HasPendingPayment(RenterLeases(db, tenantId))
      && Actor(ctx).Ok?
    ensures r.Ok? ==> r.value.value == id
    ensures r.Ok? ==>
      r.value.db == db.(leases := db.leases + [Entity(Fresh(id), Lease(propertyId, tenantId, dateRange.value, price.value, Active))])
  {
    RenterLeasesPendingIff(db, tenantId);
    var period :- NotNull(dateRange, "DateRange");
    var rent :- NotNull(price, "Price");
    var property := GetById(db.properties, propertyId);
    var tenant := GetById(db.users, tenantId);
    var lease :- CreateLease(id, tenant, property, [], period, rent, RenterLeases(db, tenantId));
    var saved :- SaveInsert(db.leases, lease, LeaseKind, ctx);
    Ok(Saved(db.(leases := saved.table), lease.env.id))
  }

  /** The handler decides nothing itself once its two guards pass: an error
      of the orchestrator comes back unchanged and nothing is inserted; its
      lease is inserted as it is. */
  lemma LeasePropertyDelegates(db: Db, ctx: CommitContext, id: Guid, propertyId: Guid, tenantId: Guid,
                               period: DateRange, rent: Money)
    ensures var c := CreateLease(id, GetById(db.users, tenantId), GetById(db.properties, propertyId), [],
                                 period, rent, RenterLeases(db, tenantId));
      var r := LeaseProperty(db, ctx, id, propertyId, tenantId, Some(period), Some(rent));
      && (c.Err? ==> r == Err(c.error))
      && (c.Ok? && Actor(ctx).Ok? ==> r == Ok(Saved(db.(leases := db.leases + [c.value]), id)))
  {
  }

  /** The leases of a property as `Include(x => x.Leases)` loads them: every
      lease row naming it, soft-deleted ones included. */
  function LeasesOf(leases: Table<Lease>, propertyId: Guid): (r: seq<Lease>)
    ensures forall l :: l in r ==> l.propertyId == propertyId
    ensures forall l :: l in r ==> exists i :: 0 <= i < |leases| && leases[i].data == l
    ensures forall i :: 0 <= i < |leases| && leases[i].data.propertyId == propertyId ==> leases[i].data in r
    decreases |leases|
  {
    if |leases| == 0 then []
    else
      var rest := LeasesOf(leases[1..], propertyId);
      assert forall i :: 1 <= i < |leases| ==> leases[i] == leases[1..][i - 1];
      if leases[0].data.propertyId == propertyId then [leases[0].data] + rest else rest
  }

  /** `ListPropertyForRentCommand`: the live property with its leases loaded
      is listed, unless already listed or leased; the result is what the
      commit answers. */
  function ListPropertyForRent(db: Db, ctx: CommitContext, propertyId: Guid): (r: Result<Saved<bool>, Error>)
    ensures GetById(db.properties, propertyId).None? ==> r == Err(NotFound(PropertyTypeName, propertyId))
    ensures GetById(db.properties, propertyId).Some? && GetById(db.properties, propertyId).value.data.isListedForRent ==>
      r == Err(PropertyNotAvailable(AlreadyListed))
    ensures GetById(db.properties, propertyId).Some? && !GetById(db.properties, propertyId).value.data.isListedForRent
            && AnyActive(LeasesOf(db.leases, propertyId)) ==>
      r == Err(PropertyNotAvailable(HasActiveLeases))
    ensures r.Ok? <==>
      && GetById(db.properties, propertyId).Some? && !GetById(db.properties, propertyId).value.data.isListedForRent
      && !AnyActive(LeasesOf(db.leases, propertyId)) && Actor(ctx).Ok?
    ensures r.Ok? ==>
      var k := FindActive(db.properties, propertyId).value;
      var p := db.properties[k];
      && r.value.value == ctx.answer
      && r.value.db == db.(properties := db.properties[k := Entity(Stamp(p.env, Modified, Actor(ctx).value, ctx.now),
                                                                   p.data.(isListedForRent := true))])
  {
    var k :- Load(db.properties, PropertyTypeName, propertyId);
    var p := db.properties[k];
    var listed :- ListForRent(p.data, LeasesOf(db.leases, propertyId));
    var saved :- SaveUpdate(db.properties, k, p.(data := listed), PropertyKind, ctx);
    Ok(Saved(db.(properties := saved.table), ctx.answer))
  }

  /** `UnlistPropertyForRentCommand`: the live property is unlisted, whatever
      its state, and the result is what the commit answers. Unlisting an
      unlisted property leaves the entry unchanged, so not even its audit
      fields move. */
  function UnlistPropertyForRent(db: Db, ctx: CommitContext, propertyId: Guid): (r: Result<Saved<bool>, Error>)
    ensures GetById(db.properties, propertyId).None? ==> r == Err(NotFound(PropertyTypeName, propertyId))
    ensures r.Ok? <==> GetById(db.properties, propertyId).Some? && Actor(ctx).Ok?
    ensures r.Ok? ==>
      var k := FindActive(db.properties, propertyId).value;
      var p := db.properties[k];
      && r.value.value == ctx.answer
      && (p.data.isListedForRent ==>
            r.value.db == db.(properties := db.properties[k := Entity(Stamp(p.env, Modified, Actor(ctx).value, ctx.now),
                                                                       p.data.(isListedForRent := false))]))
      && (!p.data.isListedForRent ==> r.value.db == db)
  {
    var k :- Load(db.properties, PropertyTypeName, propertyId);
    var p := db.properties[k];
    var saved :- SaveUpdate(db.properties, k, p.(data := UnlistForRent(p.data)), PropertyKind, ctx);
    Ok(Saved(db.(properties := saved.table), ctx.answer))
  }

  /** `DeletePropertyCommand`: soft-deletes the property, stamping it as
      modified, and answers true; its leases are left as they are. */
  function DeleteProperty(db: Db, ctx: CommitContext, propertyId: Guid): (r: Result<Saved<bool>, Error>)
    ensures GetById(db.properties, propertyId).None? ==> r == Err(NotFound(PropertyTypeName, propertyId))
    ensures r.Ok? <==> GetById(db.properties, propertyId).Some? && Actor(ctx).Ok?
    ensures r.Ok? ==>
      var k := FindActive(db.properties, propertyId).value;
      var p := db.properties[k];
      && r.value.value
      && r.value.db == db.(properties := db.properties[k := Entity(Stamp(BaseEntities.Delete(p.env), Modified, Actor(ctx).value, ctx.now), p.data)])
  {
    var k :- Load(db.properties, PropertyTypeName, propertyId);
    var saved :- SaveUpdate(db.properties, k, Repository.Delete(db.properties, k)[k], PropertyKind, ctx);
    Ok(Saved(db.(properties := saved.table), true))
  }

  /** `IsActive` has no effect on the created property. */
  lemma CreatePropertyIgnoresIsActive(db: Db, ctx: CommitContext, id: Guid, c: CreatePropertyCommand, b: bool)
    ensures CreateProperty(db, ctx, id, c.(isActive := b)) == CreateProperty(db, ctx, id, c)
  {
  }

  /** A created property, under a GUID no live property has, is found by its
      id, unlisted and owned as the command says. */
  lemma CreatedPropertyFound(db: Db, ctx: CommitContext, id: Guid, c: CreatePropertyCommand)
    requires CreateProperty(db, ctx, id, c).Ok? && NoLiveRow(db.properties, id)
    ensures var t := CreateProperty(db, ctx, id, c).value.db.properties;
      && GetById(t, id).Some?
      && !GetById(t, id).value.data.isListedForRent
      && GetById(t, id).value.data.ownerId == c.ownerId
  {
    var t := CreateProperty(db, ctx, id, c).value.db.properties;
    assert t[|db.properties|].env.id == id;
    assert FindActive(t, id) == Some(|db.properties|) by {
      assert forall i :: 0 <= i < |db.properties| ==> t[i] == db.properties[i];
    }
  }

  /** The property reaches the orchestrator without its leases, so leasing
      never fails for lack of availability, whatever the property's listing
      and leases. */
  lemma LeasePropertyNeverUnavailable(db: Db, ctx: CommitContext, id: Guid, propertyId: Guid, tenantId: Guid,
                                      dateRange: Option<DateRange>, price: Option<Money>)
    ensures var r := LeaseProperty(db, ctx, id, propertyId, tenantId, dateRange, price);
      !(r.Err? && r.error.PropertyNotAvailable?)
  {
  }

  /** No period check guards a property against double booking: once a lease
      is created, the same tenant can lease the same property for the same
      period again, provided no payment names the first lease. */
  lemma {:induction false} DoubleBookingAllowed(db: Db, ctx: CommitContext, id: Guid, id': Guid, propertyId: Guid,
                                               tenantId: Guid, period: DateRange, rent: Money)
    requires LeaseProperty(db, ctx, id, propertyId, tenantId, Some(period), Some(rent)).Ok?
    requires forall i :: 0 <= i < |db.payments| ==> db.payments[i].data.leaseId != id
    ensures var db' := LeaseProperty(db, ctx, id, propertyId, tenantId, Some(period), Some(rent)).value.db;
      && LeaseProperty(db', ctx, id', propertyId, tenantId, Some(period), Some(rent)).Ok?
      && Overlaps(period, period)
  {
    var db' := LeaseProperty(db, ctx, id, propertyId, tenantId, Some(period), Some(rent)).value.db;
    var added := Entity(Fresh(id), Lease(propertyId, tenantId, period, rent, Active));
    assert db'.leases == db.leases + [added];
    RenterLeasesAfterInsert(db, tenantId, added);
    var rl, rl' := RenterLeases(db, tenantId), RenterLeases(db', tenantId);
    assert !HasPendingPayment(rl');
  }

  /** Inserting a live lease of the tenant appends it, with its payments, to
      the tenant's loaded leases. */
  lemma RenterLeasesAfterInsert(db: Db, tenantId: Guid, l: Entity<Lease>)
    requires !l.env.isDeleted && l.data.tenantId == tenantId
    ensures RenterLeases(db.(leases := db.leases + [l]), tenantId)
         == RenterLeases(db, tenantId) + [LeaseWithPayments(l, PaymentsOf(db.payments, l.env.id))]
  {
    var ofTenant := (x: Entity<Lease>) => x.data.tenantId == tenantId;
    QueryOfAppend(db.leases, [l]);
    assert QueryToRead([l]) == [l];
    Seqs.FilterAppend(ofTenant, QueryToRead(db.leases), [l]);
    assert Seqs.Filter(ofTenant, [l]) == [l];
  }

  /** Listing twice fails the second time: the property is then listed. */
  lemma ListTwiceAlreadyListed(db: Db, ctx: CommitContext, propertyId: Guid)
    requires ListPropertyForRent(db, ctx, propertyId).Ok?
    ensures ListPropertyForRent(ListPropertyForRent(db, ctx, propertyId).value.db, ctx, propertyId)
         == Err(PropertyNotAvailable(AlreadyListed))
  {
    var k := FindActive(db.properties, propertyId).value;
    var t' := ListPropertyForRent(db, ctx, propertyId).value.db.properties;
    FindActiveUnchangedPrefix(db.properties, t', propertyId, k);
  }

  /** Listing then unlisting gives back the property's own fields; only its
      audit fields record the two changes. */
  lemma ListThenUnlist(db: Db, ctx: CommitContext, propertyId: Guid)
    requires ListPropertyForRent(db, ctx, propertyId).Ok?
    ensures var db1 := ListPropertyForRent(db, ctx, propertyId).value.db;
      && UnlistPropertyForRent(db1, ctx, propertyId).Ok?
      && var db2 := UnlistPropertyForRent(db1, ctx, propertyId).value.db;
         var k := FindActive(db.properties, propertyId).value;
         && db2.properties[k].data == db.properties[k].data
         && db2.properties[k].env.updatedAt == Some(ctx.now)
         && db2.(properties := db.properties) == db
  {
    var k := FindActive(db.properties, propertyId).value;
    var db1 := ListPropertyForRent(db, ctx, propertyId).value.db;
    FindActiveUnchangedPrefix(db.properties, db1.properties, propertyId, k);
  }

  /** Unlisting is idempotent at the handler level: the second call changes
      nothing. */
  lemma UnlistTwiceNoChange(db: Db, ctx: CommitContext, propertyId: Guid)
    requires UnlistPropertyForRent(db, ctx, propertyId).Ok?
    ensures var db1 := UnlistPropertyForRent(db, ctx, propertyId).value.db;
      UnlistPropertyForRent(db1, ctx, propertyId) == Ok(Saved(db1, ctx.answer))
  {
    var k := FindActive(db.properties, propertyId).value;
    var db1 := UnlistPropertyForRent(db, ctx, propertyId).value.db;
    FindActiveUnchangedPrefix(db.properties, db1.properties, propertyId, k);
  }

  /** Deleting a property twice fails the second time, when no other live
      property shares its id; its leases stay as they were. */
  lemma DeletePropertyTwiceNotFound(db: Db, ctx: CommitContext, propertyId: Guid)
    requires DeleteProperty(db, ctx, propertyId).Ok? && LiveIdUnique(db.properties, propertyId)
    ensures var db1 := DeleteProperty(db, ctx, propertyId).value.db;
      && db1.leases == db.leases && db1.users == db.users && db1.payments == db.payments
      && DeleteProperty(db1, ctx, propertyId) == Err(NotFound(PropertyTypeName, propertyId))
  {
    var t' := DeleteProperty(db, ctx, propertyId).value.db.properties;
    assert forall i :: 0 <= i < |t'| ==> t'[i].env.id != propertyId || t'[i].env.isDeleted;
  }
}
