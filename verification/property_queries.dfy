/** The two property queries: listed properties, and one owner's unlisted
    properties, each narrowed by an optional `PropertyFilters`. */
module PropertyQueries {
  import opened Wrappers
  import opened Primitives
  import opened BaseEntities
  import opened Repository
  import opened Properties
  import opened PropertyFilters
  import opened Store
  import Seqs

  predicate Listed(e: Entity<Property>) {
    e.data.isListedForRent
  }

  predicate UnlistedOf(userId: Guid, e: Entity<Property>) {
    e.data.ownerId == userId && !e.data.isListedForRent
  }

  /** A null filter passes everything; otherwise the address must match. */
  predicate Passes(filters: Option<PropertyFilters>, e: Entity<Property>) {
    filters.None? || AddressMatches(filters.value, e.data.address)
  }

  /** `GetPropertiesForRentQuery`: live listed properties, then the filters. */
  function GetPropertiesForRent(db: Db, filters: Option<PropertyFilters>): (r: seq<Entity<Property>>)
    ensures r == Seqs.Filter((e: Entity<Property>) => !e.env.isDeleted && e.data.isListedForRent && Passes(filters, e), db.properties)
  {
    QueryAs(db, Listed, filters, (e: Entity<Property>) => !e.env.isDeleted && e.data.isListedForRent && Passes(filters, e));
    ApplyPropertyFilters(Seqs.Filter(Listed, QueryToRead(db.properties)), filters)
  }

  /** `GetPropertiesUnlistedByUserIdQuery`: the owner's live unlisted
      properties, then the filters. */
  function GetPropertiesUnlistedByUserId(db: Db, userId: Guid, filters: Option<PropertyFilters>): (r: seq<Entity<Property>>)
    ensures r == Seqs.Filter((e: Entity<Property>) => !e.env.isDeleted && e.data.ownerId == userId && !e.data.isListedForRent && Passes(filters, e),
                             db.properties)
  {
    var unlisted := e => UnlistedOf(userId, e);
    QueryAs(db, unlisted, filters,
            (e: Entity<Property>) => !e.env.isDeleted && e.data.ownerId == userId && !e.data.isListedForRent && Passes(filters, e));
    ApplyPropertyFilters(Seqs.Filter(unlisted, QueryToRead(db.properties)), filters)
  }

  /** Each query, whatever `base` selects, is one filter over the stored rows. */
  lemma QueryIsOneFilter(db: Db, base: Entity<Property> -> bool, filters: Option<PropertyFilters>)
    ensures ApplyPropertyFilters(Seqs.Filter(base, QueryToRead(db.properties)), filters)
         == Seqs.Filter(e => Live(e) && base(e) && Passes(filters, e), db.properties)
  {
    var t := db.properties;
    Seqs.FilterFilter(Live, base, e => Live(e) && base(e), t);
    var s := Seqs.Filter(base, QueryToRead(t));
    match filters
    case None =>
      Seqs.FilterExt(e => Live(e) && base(e), e => Live(e) && base(e) && Passes(filters, e), t);
    case Some(f) =>
      PropertyFiltersSemantics(s, f);
      Seqs.FilterFilter(e => Live(e) && base(e), (e: Entity<Property>) => AddressMatches(f, e.data.address),
                        e => Live(e) && base(e) && Passes(filters, e), t);
  }

  /** The same, for any predicate that agrees pointwise with the fused one. */
  lemma QueryAs(db: Db, base: Entity<Property> -> bool, filters: Option<PropertyFilters>, keep: Entity<Property> -> bool)
    requires forall e :: keep(e) == (!e.env.isDeleted && base(e) && Passes(filters, e))
    ensures ApplyPropertyFilters(Seqs.Filter(base, QueryToRead(db.properties)), filters) == Seqs.Filter(keep, db.properties)
  {
    QueryIsOneFilter(db, base, filters);
    Seqs.FilterExt(e => Live(e) && base(e) && Passes(filters, e), keep, db.properties);
  }

  /** Membership and order for a query built on any base predicate. */
  lemma QuerySelects(db: Db, base: Entity<Property> -> bool, filters: Option<PropertyFilters>, e: Entity<Property>)
    ensures e in ApplyPropertyFilters(Seqs.Filter(base, QueryToRead(db.properties)), filters) <==>
      e in db.properties && !e.env.isDeleted && base(e) && Passes(filters, e)
    ensures Seqs.IsSubseq(ApplyPropertyFilters(Seqs.Filter(base, QueryToRead(db.properties)), filters), db.properties)
  {
    var keep := e => Live(e) && base(e) && Passes(filters, e);
    QueryIsOneFilter(db, base, filters);
    assert ApplyPropertyFilters(Seqs.Filter(base, QueryToRead(db.properties)), filters) == Seqs.Filter(keep, db.properties);
    Seqs.FilterMembership(keep, db.properties, e);
    Seqs.FilterIsSubseq(keep, db.properties);
  }

  /** The listed query selects exactly the live listed properties that pass
      the filters, in store order. */
  lemma ForRentSelects(db: Db, filters: Option<PropertyFilters>, e: Entity<Property>)
    ensures e in GetPropertiesForRent(db, filters) <==>
      e in db.properties && !e.env.isDeleted && e.data.isListedForRent && Passes(filters, e)
    ensures Seqs.IsSubseq(GetPropertiesForRent(db, filters), db.properties)
  {
    QuerySelects(db, Listed, filters, e);
  }

  /** The unlisted query selects exactly the owner's live unlisted properties
      that pass the filters, in store order. */
  lemma UnlistedSelects(db: Db, userId: Guid, filters: Option<PropertyFilters>, e: Entity<Property>)
    ensures e in GetPropertiesUnlistedByUserId(db, userId, filters) <==>
      e in db.properties && !e.env.isDeleted && e.data.ownerId == userId && !e.data.isListedForRent && Passes(filters, e)
    ensures Seqs.IsSubseq(GetPropertiesUnlistedByUserId(db, userId, filters), db.properties)
  {
    QuerySelects(db, e => UnlistedOf(userId, e), filters, e);
  }

  /** No property is in both results. */
  lemma QueriesDisjoint(db: Db, userId: Guid, f: Option<PropertyFilters>, g: Option<PropertyFilters>, e: Entity<Property>)
    ensures !(e in GetPropertiesForRent(db, f) && e in GetPropertiesUnlistedByUserId(db, userId, g))
  {
    ForRentSelects(db, f, e);
    UnlistedSelects(db, userId, g, e);
  }

  /** A filter with every field null selects what no filter selects. */
  lemma AllNullIsNoFilter(db: Db, userId: Guid)
    ensures GetPropertiesForRent(db, Some(AllNull)) == GetPropertiesForRent(db, None)
    ensures GetPropertiesUnlistedByUserId(db, userId, Some(AllNull)) == GetPropertiesUnlistedByUserId(db, userId, None)
  {
    AllNullLeavesQuery(Seqs.Filter(Listed, QueryToRead(db.properties)));
    AllNullLeavesQuery(Seqs.Filter(e => UnlistedOf(userId, e), QueryToRead(db.properties)));
  }
}
