/** The database the handlers work on: the four entity sets, and the
    not-found check every by-id handler makes. */
module Store {
  import opened Wrappers
  import opened Primitives
  import opened Errors
  import opened BaseEntities
  import opened Repository
  import opened Users
  import opened Properties
  import opened Leases
  import opened Payments

  datatype Db = Db(users: Table<User>, properties: Table<Property>, leases: Table<Lease>, payments: Table<Payment>)

  /** A handler's success: the database after the commit and the value returned. */
  datatype Saved<R> = Saved(db: Db, value: R)

  /** `GetByIdAsync` followed by the handler's null check: the position of the
      first live row with this id, or `NotFoundException(typeName, id)`. */
  function Load<T>(t: Table<T>, typeName: string, id: Guid): (r: Result<nat, Error>)
    ensures r.Ok? <==> GetById(t, id).Some?
    ensures r.Err? ==> r.error == NotFound(typeName, id)
    ensures r.Ok? ==> r.value < |t| && t[r.value] == GetById(t, id).value
  {
    match FindActive(t, id)
    case None => Err(NotFound(typeName, id))
    case Some(k) => Ok(k)
  }

  /** Every row of the set that has this id is soft-deleted (or there is none). */
  predicate NoLiveRow<T>(t: Table<T>, id: Guid) {
    forall i :: 0 <= i < |t| ==> t[i].env.id != id || t[i].env.isDeleted
  }

  /** At most one live row has this id. */
  predicate LiveIdUnique<T>(t: Table<T>, id: Guid) {
    forall i, j ::
      (0 <= i < |t| && 0 <= j < |t| && t[i].env.id == id && t[j].env.id == id
       && !t[i].env.isDeleted && !t[j].env.isDeleted) ==> i == j
  }
}
