/** A user: an owner of properties and a tenant of leases. */
module Users {
  import opened Primitives
  import opened BaseEntities

  datatype User = User(name: NString, email: NString)

  /** The constructor, with `id` standing for the freshly generated GUID. */
  function NewUser(id: Guid, name: NString, email: NString): (u: Entity<User>)
    ensures u.env == Fresh(id) && u.data.name == name && u.data.email == email
  {
    Entity(Fresh(id), User(name, email))
  }
}
