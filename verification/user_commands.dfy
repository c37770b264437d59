/** The user command handlers: create and delete. */
module UserCommands {
  import opened Wrappers
  import opened Primitives
  import opened Errors
  import opened BaseEntities
  import opened Repository
  import opened Users
  import opened REPMContext
  import opened Guards
  import opened Store

  const UserTypeName: string := "User"

  /** `string.Concat(first, " ", last)`. */
  function FullName(first: string, last: string): (r: string)
    ensures |r| == |first| + 1 + |last|
  {
    first + " " + last
  }

  /** `CreateUserCommand`, with `id` standing for the generated GUID: the
      three guards in order, then the user named "first last" is inserted
      and stamped. */
  function CreateUser(db: Db, ctx: CommitContext, id: Guid, firstName: NString, lastName: NString, email: NString): (r: Result<Saved<Guid>, Error>)
    ensures firstName.None? ==> r == Err(ArgumentNull("FirstName"))
    ensures firstName == Some("") ==> r == Err(ArgumentEmpty("FirstName"))
    ensures !IsNullOrEmpty(firstName) && lastName.None? ==> r == Err(ArgumentNull("LastName"))
    ensures !IsNullOrEmpty(firstName) && lastName == Some("") ==> r == Err(ArgumentEmpty("LastName"))
    ensures !IsNullOrEmpty(firstName) && !IsNullOrEmpty(lastName) && email.None? ==> r == Err(ArgumentNull("Email"))
    ensures !IsNullOrEmpty(firstName) && !IsNullOrEmpty(lastName) && email == Some("") ==> r == Err(ArgumentEmpty("Email"))
    ensures r.Ok? <==> !IsNullOrEmpty(firstName) && !IsNullOrEmpty(lastName) && !IsNullOrEmpty(email) && Actor(ctx).Ok?
    ensures r.Ok? ==> r.value.value == id
    ensures r.Ok? ==>
      var a := Actor(ctx).value;
      r.value.db == db.(users := db.users + [Entity(
        Envelope(id, ctx.now, Some(ctx.now), false, Some(a), Some(a)),
        User(Some(FullName(firstName.value, lastName.value)), email))])
  {
    var first :- NotNullOrEmpty(firstName, "FirstName");
    var last :- NotNullOrEmpty(lastName, "LastName");
    var _ :- NotNullOrEmpty(email, "Email");
    var user := NewUser(id, Some(FullName(first, last)), email);
    var saved :- SaveInsert(db.users, user, UserKind, ctx);
    Ok(Saved(db.(users := saved.table), user.env.id))
  }

  /** The stored name gives back both parts: the first name, a space at its
      end, then the last name. */
  lemma FullNameSplits(first: string, last: string)
    ensures FullName(first, last)[..|first|] == first
    ensures FullName(first, last)[|first|] == ' '
    ensures FullName(first, last)[|first| + 1..] == last
  {
  }

  /** A created user, under a GUID no live user has, is found by its id with
      the name and email the command gave. */
  lemma CreatedUserFound(db: Db, ctx: CommitContext, id: Guid, firstName: string, lastName: string, email: string)
    requires CreateUser(db, ctx, id, Some(firstName), Some(lastName), Some(email)).Ok? && NoLiveRow(db.users, id)
    ensures var t := CreateUser(db, ctx, id, Some(firstName), Some(lastName), Some(email)).value.db.users;
      && GetById(t, id).Some?
      && GetById(t, id).value.data == User(Some(firstName + " " + lastName), Some(email))
  {
    var t := CreateUser(db, ctx, id, Some(firstName), Some(lastName), Some(email)).value.db.users;
    assert FindActive(t, id) == Some(|db.users|) by {
      assert forall i :: 0 <= i < |db.users| ==> t[i] == db.users[i];
    }
  }

  /** `DeleteUserCommand`: soft-deletes the user, stamping it as modified, and
      answers true; the user's properties and leases are left as they are. */
  function DeleteUser(db: Db, ctx: CommitContext, userId: Guid): (r: Result<Saved<bool>, Error>)
    ensures GetById(db.users, userId).None? ==> r == Err(NotFound(UserTypeName, userId))
    ensures r.Ok? <==> GetById(db.users, userId).Some? && Actor(ctx).Ok?
    ensures r.Ok? ==>
      var k := FindActive(db.users, userId).value;
      var u := db.users[k];
      && r.value.value
      && r.value.db == db.(users := db.users[k := Entity(Stamp(BaseEntities.Delete(u.env), Modified, Actor(ctx).value, ctx.now), u.data)])
  {
    var k :- Load(db.users, UserTypeName, userId);
    var saved :- SaveUpdate(db.users, k, Repository.Delete(db.users, k)[k], UserKind, ctx);
    Ok(Saved(db.(users := saved.table), true))
  }

  /** A deleted user can no longer be found, when no other live user shares
      the id; what they own or rent is untouched. */
  lemma DeleteUserTwiceNotFound(db: Db, ctx: CommitContext, userId: Guid)
    requires DeleteUser(db, ctx, userId).Ok? && LiveIdUnique(db.users, userId)
    ensures var db1 := DeleteUser(db, ctx, userId).value.db;
      && db1.properties == db.properties && db1.leases == db.leases && db1.payments == db.payments
      && DeleteUser(db1, ctx, userId) == Err(NotFound(UserTypeName, userId))
  {
    var t' := DeleteUser(db, ctx, userId).value.db.users;
    assert forall i :: 0 <= i < |t'| ==> t'[i].env.id != userId || t'[i].env.isDeleted;
  }
}
