/** The unit-of-work commit: audit stamping of the tracked entries. */
module REPMContext {
  import opened Wrappers
  import opened Primitives
  import opened Errors
  import opened BaseEntities
  import opened ClaimsPrincipalExtensions
  import opened Repository

  /** The four entity sets. Only User and Property derive from `BaseEntity`. */
  datatype EntityKind = UserKind | PropertyKind | LeaseKind | PaymentKind

  predicate DerivesBaseEntity(k: EntityKind) {
    k == UserKind || k == PropertyKind
  }

  /** The change tracker's state of an entry. */
  datatype EntityState = Detached | Unchanged | Deleted | Modified | Added

  /** What a commit depends on beyond the tracked entries: the clock, the
      current HTTP user (None: no HTTP context or no user), `Guid.Parse`, and
      the boolean the handlers read from the commit, which carries no
      row-count meaning. */
  datatype CommitContext = CommitContext(
    now: Ticks,
    principal: Option<seq<Claim>>,
    parseGuid: string -> Option<Guid>,
    answer: bool)

  /** The actor: the principal's user id when there is one, `Guid.Empty` otherwise. */
  function Actor(ctx: CommitContext): (r: Result<Guid, Error>)
    ensures ctx.principal.None? ==> r == Ok(EmptyGuid)
    ensures ctx.principal.Some? ==> r == GetUserId(ctx.principal.value, ctx.parseGuid)
  {
    match ctx.principal
    case None => Ok(EmptyGuid)
    case Some(claims) => GetUserId(claims, ctx.parseGuid)
  }

  /** Stamps one `BaseEntity` entry. An Added entry gets the actor and `now`
      in each audit field that is still at its default; a Modified entry has
      its update actor and time overwritten; other states are left alone. */
  function Stamp(e: Envelope, state: EntityState, actor: Guid, now: Ticks): (r: Envelope)
    ensures r.id == e.id && r.isDeleted == e.isDeleted
    ensures state == Added ==>
      && r.createdBy == (if e.createdBy.None? then Some(actor) else e.createdBy)
      && r.updatedBy == (if e.updatedBy.None? then Some(actor) else e.updatedBy)
      && r.createdAt == (if e.createdAt == DefaultTicks then now else e.createdAt)
      && r.updatedAt == (if e.updatedAt.None? then Some(now) else e.updatedAt)
    ensures state == Modified ==>
      && r.updatedBy == Some(actor) && r.updatedAt == Some(now)
      && r.createdBy == e.createdBy && r.createdAt == e.createdAt
    ensures state !in {Added, Modified} ==> r == e
  {
    match state
    case Added =>
      var e1 := if e.createdBy.None? then e.(createdBy := Some(actor)) else e;
      var e2 := if e1.updatedBy.None? then e1.(updatedBy := Some(actor)) else e1;
      var e3 := if e2.createdAt == DefaultTicks then SetCreatedAt(e2, now) else e2;
      if e3.updatedAt.None? then SetUpdatedAt(e3, now) else e3
    case Modified =>
      SetUpdatedAt(e.(updatedBy := Some(actor)), now)
    case _ => e
  }

  /** A tracked entry. */
  datatype Entry<+T> = Entry(state: EntityState, entity: Entity<T>)

  /** The entities after the stamping pass of `SaveChangesAsync`: entries of a
      kind that derives `BaseEntity` are stamped, all others are untouched. */
  function StampEntries<T>(entries: seq<Entry<T>>, kind: EntityKind, actor: Guid, now: Ticks): (r: seq<Entity<T>>)
    ensures |r| == |entries|
    ensures forall i :: 0 <= i < |r| ==> r[i].data == entries[i].entity.data
    ensures forall i :: 0 <= i < |r| ==>
      r[i].env == (if DerivesBaseEntity(kind) then Stamp(entries[i].entity.env, entries[i].state, actor, now)
                   else entries[i].entity.env)
  {
    seq(|entries|, i requires 0 <= i < |entries| =>
      var en := entries[i].entity;
      if DerivesBaseEntity(kind) then en.(env := Stamp(en.env, entries[i].state, actor, now)) else en)
  }

  /** Preset audit fields win: stamping an Added entry a second time changes
      nothing, unless the clock read the default instant. */
  lemma AddedStampKeepsPresets(e: Envelope, actor: Guid, actor': Guid, now: Ticks, now': Ticks)
    requires now != DefaultTicks
    ensures Stamp(Stamp(e, Added, actor, now), Added, actor', now') == Stamp(e, Added, actor, now)
  {
  }

  /** Lease and Payment entries are never stamped. */
  lemma LeaseAndPaymentNeverStamped<T>(entries: seq<Entry<T>>, kind: EntityKind, actor: Guid, now: Ticks)
    requires kind in {LeaseKind, PaymentKind}
    ensures forall i :: 0 <= i < |entries| ==> StampEntries(entries, kind, actor, now)[i] == entries[i].entity
  {
  }

  /** An entity set after a commit, and whether the change tracker saw the
      entry as Modified or Added. */
  datatype Committed<T> = Committed(table: Table<T>, changed: bool)

  /** Change detection: a tracked entity whose values differ from the loaded
      ones is Modified, otherwise Unchanged. */
  function StateOf<T(==)>(loaded: Entity<T>, current: Entity<T>): (s: EntityState)
    ensures s == Modified <==> loaded != current
    ensures s == Unchanged <==> loaded == current
  {
    if loaded == current then Unchanged else Modified
  }

  /** `SaveChangesAsync` with one tracked entity, the row at position `k`,
      whose current values are `current`. The actor is resolved first, and
      its failure fails the commit. */
  function SaveUpdate<T(==)>(t: Table<T>, k: nat, current: Entity<T>, kind: EntityKind, ctx: CommitContext): (r: Result<Committed<T>, Error>)
    requires k < |t|
    ensures r.Ok? <==> Actor(ctx).Ok?
    ensures r.Err? ==> r.error == Actor(ctx).error
    ensures r.Ok? ==> |r.value.table| == |t| && forall i :: 0 <= i < |t| && i != k ==> r.value.table[i] == t[i]
    ensures r.Ok? ==> (r.value.changed <==> current != t[k])
    ensures r.Ok? && current == t[k] ==> r.value.table == t
    ensures r.Ok? && !DerivesBaseEntity(kind) ==> r.value.table[k] == current
    ensures r.Ok? && DerivesBaseEntity(kind) && current != t[k] ==>
      var e := r.value.table[k];
      && e.data == current.data
      && e.env.id == current.env.id && e.env.isDeleted == current.env.isDeleted
      && e.env.createdAt == current.env.createdAt && e.env.createdBy == current.env.createdBy
      && e.env.updatedBy == Some(Actor(ctx).value) && e.env.updatedAt == Some(ctx.now)
  {
    var actor :- Actor(ctx);
    var state := StateOf(t[k], current);
    var stamped := StampEntries([Entry(state, current)], kind, actor, ctx.now);
    Ok(Committed(t[k := stamped[0]], state != Unchanged))
  }

  /** `SaveChangesAsync` with one tracked entity, the inserted `e`. */
  function SaveInsert<T>(t: Table<T>, e: Entity<T>, kind: EntityKind, ctx: CommitContext): (r: Result<Committed<T>, Error>)
    ensures r.Ok? <==> Actor(ctx).Ok?
    ensures r.Err? ==> r.error == Actor(ctx).error
    ensures r.Ok? ==> r.value.changed
    ensures r.Ok? ==> |r.value.table| == |t| + 1 && r.value.table[..|t|] == t
    ensures r.Ok? ==> r.value.table[|t|].data == e.data
    ensures r.Ok? && !DerivesBaseEntity(kind) ==> r.value.table[|t|] == e
    ensures r.Ok? && DerivesBaseEntity(kind) ==>
      r.value.table[|t|].env == Stamp(e.env, Added, Actor(ctx).value, ctx.now)
  {
    var actor :- Actor(ctx);
    var stamped := StampEntries([Entry(Added, e)], kind, actor, ctx.now);
    Ok(Committed(Insert(t, stamped[0]), true))
  }

  /** A freshly constructed `BaseEntity` that is inserted gets the actor as
      creator and updater and the commit time as both timestamps. */
  lemma InsertStampsFresh<T>(t: Table<T>, id: Guid, data: T, kind: EntityKind, ctx: CommitContext)
    requires Actor(ctx).Ok? && DerivesBaseEntity(kind)
    ensures SaveInsert(t, Entity(Fresh(id), data), kind, ctx).Ok?
    ensures var e := SaveInsert(t, Entity(Fresh(id), data), kind, ctx).value.table[|t|];
      e.env == Envelope(id, ctx.now, Some(ctx.now), false, Some(Actor(ctx).value), Some(Actor(ctx).value))
  {
  }
}
