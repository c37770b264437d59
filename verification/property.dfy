/** A property, its rent listing and its availability rules. The property's
    leases (the `Leases` navigation collection) are passed in as loaded. */
module Properties {
  import opened Wrappers
  import opened Primitives
  import opened Errors
  import opened Addresses
  import opened DateRanges
  import opened BaseEntities
  import opened Leases

  /** `Price` is a C# `decimal`, modelled as an integer. */
  datatype Property = Property(
    name: NString,
    address: Address,
    ownerId: Guid,
    isListedForRent: bool,
    description: NString,
    price: int,
    beds: int,
    baths: int,
    squareFeet: int)

  /** The constructor, with `id` standing for the freshly generated GUID: a
      null address is rejected; the new property is not listed. */
  function NewProperty(id: Guid, name: NString, address: Option<Address>, ownerId: Guid, description: NString,
                       price: int, beds: int, baths: int, squareFeet: int): (r: Result<Entity<Property>, Error>)
    ensures r.Ok? <==> address.Some?
    ensures r.Err? ==> r.error == Argument(AddressRequired)
    ensures r.Ok? ==> r.value.env == Fresh(id) && !r.value.data.isListedForRent
    ensures r.Ok? ==> r.value.data == Property(name, address.value, ownerId, false, description, price, beds, baths, squareFeet)
  {
    match address
    case None => Err(Argument(AddressRequired))
    case Some(a) => Ok(Entity(Fresh(id), Property(name, a, ownerId, false, description, price, beds, baths, squareFeet)))
  }

  predicate AllExpired(leases: seq<Lease>) {
    forall i :: 0 <= i < |leases| ==> leases[i].status == Expired
  }

  predicate AnyActive(leases: seq<Lease>) {
    exists i :: 0 <= i < |leases| && leases[i].status == Active
  }

  /** `IsAvailable`: not listed, or every lease has expired. */
  predicate IsAvailable(p: Property, leases: seq<Lease>) {
    !p.isListedForRent || AllExpired(leases)
  }

  function ChangeAddress(p: Property, newAddress: Option<Address>): (r: Result<Property, Error>)
    ensures r.Ok? <==> newAddress.Some?
    ensures r.Err? ==> r.error == Argument(NewAddressRequired)
    ensures r.Ok? ==> r.value.address == newAddress.value && r.value.(address := p.address) == p
  {
    match newAddress
    case None => Err(Argument(NewAddressRequired))
    case Some(a) => Ok(p.(address := a))
  }

  /** Lists the property unless it is already listed (checked first) or has an
      Active lease. */
  function ListForRent(p: Property, leases: seq<Lease>): (r: Result<Property, Error>)
    ensures r.Ok? <==> !p.isListedForRent && !AnyActive(leases)
    ensures p.isListedForRent ==> r == Err(PropertyNotAvailable(AlreadyListed))
    ensures !p.isListedForRent && AnyActive(leases) ==> r == Err(PropertyNotAvailable(HasActiveLeases))
    ensures r.Ok? ==> r.value == p.(isListedForRent := true)
  {
    if p.isListedForRent then Err(PropertyNotAvailable(AlreadyListed))
    else if exists i :: 0 <= i < |leases| && leases[i].status == Active then Err(PropertyNotAvailable(HasActiveLeases))
    else Ok(p.(isListedForRent := true))
  }

  function UnlistForRent(p: Property): (r: Property)
    ensures !r.isListedForRent && r.(isListedForRent := p.isListedForRent) == p
  {
    p.(isListedForRent := false)
  }

  /** No lease's period overlaps `period`, whatever the lease's status. */
  predicate IsAvailableForRent(leases: seq<Lease>, period: DateRange) {
    forall i :: 0 <= i < |leases| ==> !IsOverlapping(leases[i], period)
  }

  lemma UnlistedIsAvailable(p: Property, leases: seq<Lease>)
    requires !p.isListedForRent
    ensures IsAvailable(p, leases)
  {
  }

  /** Unlisting is idempotent and always leaves the property available. */
  lemma UnlistIdempotent(p: Property, leases: seq<Lease>)
    ensures UnlistForRent(UnlistForRent(p)) == UnlistForRent(p)
    ensures IsAvailable(UnlistForRent(p), leases)
  {
  }

  /** A Pending or Canceled lease does not block listing, but once listed the
      property is unavailable while such a lease exists. */
  lemma NonActiveLeaseBlocksAvailabilityNotListing(p: Property, leases: seq<Lease>, k: nat)
    requires !p.isListedForRent && !AnyActive(leases)
    requires k < |leases| && leases[k].status in {Pending, Canceled}
    ensures ListForRent(p, leases).Ok?
    ensures !IsAvailable(ListForRent(p, leases).value, leases)
  {
  }

  /** A successfully listed property is available exactly when all its leases
      have expired. */
  lemma ListedAvailability(p: Property, leases: seq<Lease>)
    requires ListForRent(p, leases).Ok?
    ensures IsAvailable(ListForRent(p, leases).value, leases) <==> AllExpired(leases)
  {
  }

  /** Date availability ignores lease status: a canceled or expired lease still
      blocks an overlapping period. */
  lemma AvailableForRentIgnoresStatus(leases: seq<Lease>, period: DateRange, k: nat, s: LeaseStatus)
    requires k < |leases|
    ensures IsAvailableForRent(leases, period) <==> IsAvailableForRent(leases[k := leases[k].(status := s)], period)
  {
    var leases' := leases[k := leases[k].(status := s)];
    assert forall i :: 0 <= i < |leases| ==> leases'[i].leasePeriod == leases[i].leasePeriod;
  }
}
