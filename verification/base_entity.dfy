/** The audit envelope every stored entity carries, and its mutators. */
module BaseEntities {
  import opened Wrappers
  import opened Primitives

  /** `BaseEntity`'s fields. `UpdatedAt`, `CreatedBy` and `UpdatedBy` are nullable. */
  datatype Envelope = Envelope(
    id: Guid,
    createdAt: Ticks,
    updatedAt: Option<Ticks>,
    isDeleted: bool,
    createdBy: Option<Guid>,
    updatedBy: Option<Guid>)

  /** An entity: its envelope and the fields of its own class. */
  datatype Entity<+T> = Entity(env: Envelope, data: T)

  /** The envelope of a newly constructed entity: the given id, every other
      field at its default. */
  function Fresh(id: Guid): (e: Envelope)
    ensures e.id == id && !e.isDeleted
    ensures e.createdAt == DefaultTicks && e.updatedAt == None
    ensures e.createdBy == None && e.updatedBy == None
  {
    Envelope(id, DefaultTicks, None, false, None, None)
  }

  /** The fields other than the soft-delete flag agree. */
  predicate SameAudit(a: Envelope, b: Envelope) {
    && a.id == b.id
    && a.createdAt == b.createdAt && a.updatedAt == b.updatedAt
    && a.createdBy == b.createdBy && a.updatedBy == b.updatedBy
  }

  function SetUpdatedAt(e: Envelope, t: Ticks): (r: Envelope)
    ensures r.updatedAt == Some(t)
    ensures r.id == e.id && r.createdAt == e.createdAt && r.isDeleted == e.isDeleted
    ensures r.createdBy == e.createdBy && r.updatedBy == e.updatedBy
  {
    e.(updatedAt := Some(t))
  }

  function SetCreatedAt(e: Envelope, t: Ticks): (r: Envelope)
    ensures r.createdAt == t
    ensures r.id == e.id && r.updatedAt == e.updatedAt && r.isDeleted == e.isDeleted
    ensures r.createdBy == e.createdBy && r.updatedBy == e.updatedBy
  {
    e.(createdAt := t)
  }

  /** Soft delete: raises the flag and touches nothing else. */
  function Delete(e: Envelope): (r: Envelope)
    ensures r.isDeleted && SameAudit(e, r)
  {
    e.(isDeleted := true)
  }

  /** Clears the flag and touches nothing else. */
  function Restore(e: Envelope): (r: Envelope)
    ensures !r.isDeleted && SameAudit(e, r)
  {
    e.(isDeleted := false)
  }

  lemma DeleteIdempotent(e: Envelope)
    ensures Delete(Delete(e)) == Delete(e)
  {
  }

  /** Restoring a deleted entity brings back the envelope it had before the
      delete, if it was not deleted then. */
  lemma RestoreUndoesDelete(e: Envelope)
    ensures !Restore(Delete(e)).isDeleted
    ensures !e.isDeleted ==> Restore(Delete(e)) == e
  {
  }
}
