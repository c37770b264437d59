# REPM core in Dafny

A functional model of the core of REPM, a real-estate property-management backend written in C#
(UltimateBackendStack). The model covers the following parts.

- **Domain layer.**
  - The payment-status transition table.
  - The value objects `DateRange`, `Money` and `Address`, with their validations.
  - The `BaseEntity` audit envelope.
  - The entities `Lease`, `Payment`, `User` and `Property`: their constructors, the lease status machine, and the property's listing and availability rules.
  - The `LeaseDomainService.CreateLease` orchestrator.
- **Generic repository** (`Repository<TEntity>`).
  - Its three query views, the by-id lookups, inserts, soft and hard deletes.
- **Unit-of-work commit** (`REPMContext.SaveChangesAsync`).
  - Its audit stamping of `BaseEntity` entries, with the actor read from the `UserId` claim (`ClaimsPrincipalExtensions.GetUserId`).
- **Dynamic filter compiler** (`QueryFilterHelper.ApplyFilters`).
  - Stated over an explicit entity shape instead of reflection.
  - Applied to the one concrete filter, `PropertyFilters`.
- **Command and query handlers** built on all of the above:
  - create, lease, list, unlist and delete a property;
  - activate, expire, cancel and delete a lease;
  - create and delete a user;
  - delete a payment;
  - the two property-listing queries.

## How the system is represented

- **Scalars.**
  - A GUID is a `nat`, and `Guid.Empty` is 0.
  - A `DateTime` is an `int` tick count, and `default(DateTime)` is 0.
  - A C# `decimal` is an `int`.
  - A nullable .NET string is `Option<string>`.
- **Exceptions** are variants of one `Error` datatype. A method that throws returns `Result`/`Outcome`.
- **Stored rows.**
  - Every stored row is `Entity<T>(env, data)`.
  - `env` carries `BaseEntity`'s fields: Id, CreatedAt, UpdatedAt, IsDeleted, CreatedBy, UpdatedBy.
  - `data` carries the class's own fields.
  - An entity set is a sequence of rows. A row's position stands for object identity.
  - The database `Db` holds the four entity sets. A handler maps a `Db` to a new `Db` and a returned value.
- **`Lease` and `Payment`** do not derive from `BaseEntity`, yet `Repository<TEntity>` constrains `TEntity` to `BaseEntity` (Repository.cs:9-10).
  - They are stored under the same envelope.
  - The commit keys stamping on an `EntityKind`, so their rows are never stamped.
- **Navigation collections** (`Property.Leases`, `Lease.Payments`) are not part of the payloads.
  - A handler loads them from the lease and payment sets, and passes them explicitly to the domain rules.
  - `Include` applies no soft-delete filter, because the context configures no global query filter. So loaded navigations contain soft-deleted rows too.
- **Everything the source reads from its environment is a parameter:**
  - the clock;
  - freshly generated GUIDs;
  - the current principal;
  - `Guid.Parse`;
  - the boolean the handlers take from the commit.
- **Lookups and commit that do not exist in the repository.**
  - The handlers call `GetByIdAsync(id, ct)`, `GetByIdReadOnlyAsync` and a `bool`-returning `SaveChangesAsync(ct)`, none of which `IRepository` declares.
  - Both lookups are modelled as `Repository.GetByIdAsync`: the first non-deleted row with that id.
  - The read-only lookup loads no navigation, so the property reaches `CreateLease` with no leases. `PropertyCommands.LeasePropertyNeverUnavailable` states the consequence.
  - The commit's boolean is an uninterpreted field `answer` of the commit context. It carries no row-count meaning.
- **Range filters.** `PropertyFilters` declares eight Min/Max fields, but no member of `Property`, nor of any member's type, has those names.
  - So they never constrain a query: the filter helper skips a field it cannot resolve.
  - The model follows the code. `PropertyFilters.RangeFieldUnresolved` and `PropertyFilters.PropertyFiltersSemantics` state it.

## Model

| member | source | states |
|---|---|---|
| PaymentStatuses.CanTransitionTo | UltimateBackendStack/REPM.Domain/Enums/PaymentStatus.cs:17-34 | a transition is permitted exactly when the pair is in the eight-pair table |
| PaymentStatuses.TransitionCount | UltimateBackendStack/REPM.Domain/Enums/PaymentStatus.cs:19-33 | the permitted pairs over all statuses are exactly the table, which has eight elements |
| PaymentStatuses.NoSelfTransition | UltimateBackendStack/REPM.Domain/Enums/PaymentStatus.cs:19-33 | no status may transition to itself |
| PaymentStatuses.FinalIffNoOutgoing | UltimateBackendStack/REPM.Domain/Enums/PaymentStatus.cs:19-42 | IsFinal holds exactly for Completed and Canceled, and exactly for the statuses with no permitted outgoing transition |
| PaymentStatuses.IsFinal | UltimateBackendStack/REPM.Domain/Enums/PaymentStatus.cs:39-42 | defined as Completed or Canceled; FinalIffNoOutgoing proves these are exactly the statuses without an outgoing transition |
| PaymentStatuses.CancelReachable | UltimateBackendStack/REPM.Domain/Enums/PaymentStatus.cs:24-30 | Canceled is one step from every non-final status |
| PaymentStatuses.EntryPoints | UltimateBackendStack/REPM.Domain/Enums/PaymentStatus.cs:21-29 | Completed is entered only from Pending or Overdue, and Failed only from Pending |
| PaymentStatuses.GetDescription | UltimateBackendStack/REPM.Domain/Enums/PaymentStatus.cs:47-58 | every status has a non-empty description |
| PaymentStatuses.DescriptionsDistinct | UltimateBackendStack/REPM.Domain/Enums/PaymentStatus.cs:47-58 | two statuses share a description only if they are the same status |
| DateRanges.Validate | UltimateBackendStack/REPM.Domain/ValueObjects/DateRange.cs:10-14 | fails with InvalidLeasePeriod exactly when IsValid (start before end) is false, and otherwise passes |
| DateRanges.IsValid | UltimateBackendStack/REPM.Domain/ValueObjects/DateRange.cs:16-19 | defined as start strictly before end; Validate fails exactly when it is false, and SelfOverlapIffValid ties it to Overlaps |
| DateRanges.Overlaps | UltimateBackendStack/REPM.Domain/ValueObjects/DateRange.cs:7-8 | defined by the strict comparisons; OverlapsMeansSharedInstant proves it holds exactly when the two half-open ranges share an instant |
| DateRanges.OverlapsSymmetric | UltimateBackendStack/REPM.Domain/ValueObjects/DateRange.cs:7-8 | overlap is symmetric |
| DateRanges.TouchingDoNotOverlap | UltimateBackendStack/REPM.Domain/ValueObjects/DateRange.cs:7-8 | ranges where one ends as the other starts do not overlap, in either order |
| DateRanges.SelfOverlapIffValid | UltimateBackendStack/REPM.Domain/ValueObjects/DateRange.cs:7-8 | a range overlaps itself exactly when it is valid |
| DateRanges.OverlapsMeansSharedInstant | UltimateBackendStack/REPM.Domain/ValueObjects/DateRange.cs:7-8 | two valid ranges overlap exactly when some instant lies in both as half-open intervals |
| MoneyValues.EnsureValid | UltimateBackendStack/REPM.Domain/ValueObjects/Money.cs:5-12 | succeeds exactly for a non-negative amount with a non-blank currency, returning the value itself; a negative amount is reported before a blank currency |
| MoneyValues.EnsureValidIdempotent | UltimateBackendStack/REPM.Domain/ValueObjects/Money.cs:5-12 | validating an already validated value gives the same result |
| MoneyValues.ZeroAccepted | UltimateBackendStack/REPM.Domain/ValueObjects/Money.cs:7-11 | a zero amount with a non-blank currency is accepted unchanged |
| Addresses.Validate | UltimateBackendStack/REPM.Domain/ValueObjects/Address.cs:5-18 | passes exactly when all five fields are non-blank and the zip code has at least three characters; a blank field is reported before a short zip |
| Addresses.BlankZipReportsBlankField | UltimateBackendStack/REPM.Domain/ValueObjects/Address.cs:7-17 | a whitespace-only zip code gets the blank-field error, whatever its length |
| BaseEntities.Fresh | UltimateBackendStack/REPM.Domain/BaseEntity.cs:5-10 | a new entity has the given id and every audit field at its default, and is not deleted |
| BaseEntities.SetUpdatedAt | UltimateBackendStack/REPM.Domain/BaseEntity.cs:12-15 | only UpdatedAt changes, to the given instant |
| BaseEntities.SetCreatedAt | UltimateBackendStack/REPM.Domain/BaseEntity.cs:17-20 | only CreatedAt changes, to the given instant |
| BaseEntities.Delete | UltimateBackendStack/REPM.Domain/BaseEntity.cs:22-25 | the flag is raised and the id, timestamps and actors are untouched |
| BaseEntities.Restore | UltimateBackendStack/REPM.Domain/BaseEntity.cs:27-30 | the flag is cleared and the id, timestamps and actors are untouched |
| BaseEntities.DeleteIdempotent | UltimateBackendStack/REPM.Domain/BaseEntity.cs:22-25 | deleting twice is deleting once |
| BaseEntities.RestoreUndoesDelete | UltimateBackendStack/REPM.Domain/BaseEntity.cs:22-30 | restore after delete clears the flag, and gives back the original envelope when it was not deleted |
| Leases.NewLease | UltimateBackendStack/REPM.Domain/Entities/Lease.cs:21-34 | construction fails with InvalidLeasePeriod exactly when start is not before end; a new lease is Active with the given property, tenant, period and rent and a fresh envelope |
| Leases.IsOverlapping | UltimateBackendStack/REPM.Domain/Entities/Lease.cs:36 | defined as the lease period overlapping the other range; AvailableForRentIgnoresStatus shows it reads only the period |
| Leases.Activate | UltimateBackendStack/REPM.Domain/Entities/Lease.cs:38-44 | succeeds exactly from Pending, giving Active with nothing else changed; otherwise the only-pending error |
| Leases.Expire | UltimateBackendStack/REPM.Domain/Entities/Lease.cs:46-52 | succeeds exactly from Active, giving Expired with nothing else changed; otherwise the only-active error |
| Leases.Cancel | UltimateBackendStack/REPM.Domain/Entities/Lease.cs:54-60 | succeeds from every status but Expired, giving Canceled with nothing else changed |
| Leases.MutatorsFollowSteps | UltimateBackendStack/REPM.Domain/Entities/Lease.cs:38-60 | the successful mutator calls are exactly the steps of the status table, and change only the status |
| Leases.ExpiredIsAbsorbing | UltimateBackendStack/REPM.Domain/Entities/Lease.cs:38-60 | no mutator succeeds on an Expired lease |
| Leases.CancelIdempotent | UltimateBackendStack/REPM.Domain/Entities/Lease.cs:54-60 | canceling a canceled lease gives the same lease |
| Leases.FreshLeaseCannotActivate | UltimateBackendStack/REPM.Domain/Entities/Lease.cs:21-44 | a freshly constructed lease can never be activated |
| Payments.NewPayment | UltimateBackendStack/REPM.Domain/Entities/Payment.cs:19-31 | fails with OverduePayment exactly when the date is after now; a new payment is Completed and keeps the given lease id, amount and date |
| Payments.NewPaymentSkipsMoneyValidation | UltimateBackendStack/REPM.Domain/Entities/Payment.cs:19-28 | a negative amount is accepted although EnsureValid rejects it, and the payment is not Pending |
| Users.NewUser | UltimateBackendStack/REPM.Domain/Entities/User.cs:17-22 | a new user has a fresh envelope and keeps the given name and email |
| Properties.NewProperty | UltimateBackendStack/REPM.Domain/Entities/Property.cs:32-44 | a null address is rejected; otherwise the new property is unlisted, has a fresh envelope and keeps every given field |
| Properties.ChangeAddress | UltimateBackendStack/REPM.Domain/Entities/Property.cs:46-52 | a null address is rejected; otherwise only the address changes |
| Properties.ListForRent | UltimateBackendStack/REPM.Domain/Entities/Property.cs:54-65 | a listed property fails with AlreadyListed; then any Active lease fails with HasActiveLeases; otherwise only the flag is set |
| Properties.UnlistForRent | UltimateBackendStack/REPM.Domain/Entities/Property.cs:67 | the flag is cleared and nothing else changes |
| Properties.UnlistedIsAvailable | UltimateBackendStack/REPM.Domain/Entities/Property.cs:27 | an unlisted property is available whatever its leases |
| Properties.UnlistIdempotent | UltimateBackendStack/REPM.Domain/Entities/Property.cs:27-67 | unlisting twice is unlisting once, and leaves the property available |
| Properties.NonActiveLeaseBlocksAvailabilityNotListing | UltimateBackendStack/REPM.Domain/Entities/Property.cs:27-63 | a Pending or Canceled lease does not block listing, but makes the listed property unavailable |
| Properties.ListedAvailability | UltimateBackendStack/REPM.Domain/Entities/Property.cs:27-63 | a freshly listed property is available exactly when every lease has expired |
| Properties.IsAvailable | UltimateBackendStack/REPM.Domain/Entities/Property.cs:27 | defined as unlisted or every lease expired; UnlistedIsAvailable, ListedAvailability and NonActiveLeaseBlocksAvailabilityNotListing state its cases |
| Properties.IsAvailableForRent | UltimateBackendStack/REPM.Domain/Entities/Property.cs:69-70 | defined as no lease overlapping the period; AvailableForRentIgnoresStatus proves lease status never matters |
| Properties.AvailableForRentIgnoresStatus | UltimateBackendStack/REPM.Domain/Entities/Property.cs:69-70 | date availability does not depend on any lease's status |
| LeaseDomainService.CreateLease | UltimateBackendStack/REPM.Domain/DomainServices/LeaseDomainService.cs:10-32 | checks run in order: a null property, then unavailability, then the period, then a pending payment of any supplied lease; a null renter that is reached is dereferenced; success exactly when all pass and the renter exists, giving an Active lease of that property and renter |
| LeaseDomainService.UnavailableAlwaysRefused | UltimateBackendStack/REPM.Domain/DomainServices/LeaseDomainService.cs:13-16 | an unavailable property is refused with its id whatever the period, rent and leases |
| LeaseDomainService.NoLeasesNoOverdue | UltimateBackendStack/REPM.Domain/DomainServices/LeaseDomainService.cs:25-28 | an empty lease list never gives the overdue-payment error |
| LeaseDomainService.PendingPaymentBlocksWhateverLeaseStatus | UltimateBackendStack/REPM.Domain/DomainServices/LeaseDomainService.cs:25-28 | a pending payment blocks the new lease whatever the status of the lease it belongs to |
| ClaimsPrincipalExtensions.FirstValueOf | UltimateBackendStack/REPM.Infrastructure/Security/ClaimsPrincipalExtensions.cs:13 | the value of the first claim of the type, and null exactly when there is none |
| ClaimsPrincipalExtensions.GetUserId | UltimateBackendStack/REPM.Infrastructure/Security/ClaimsPrincipalExtensions.cs:11-15 | a missing or blank first UserId claim gives Guid.Empty; otherwise the parsed value, or a format error when it does not parse |
| ClaimsPrincipalExtensions.OtherClaimsIgnored | UltimateBackendStack/REPM.Infrastructure/Security/ClaimsPrincipalExtensions.cs:13 | inserting a claim of another type anywhere does not change the result |
| ClaimsPrincipalExtensions.LaterUserIdClaimsIgnored | UltimateBackendStack/REPM.Infrastructure/Security/ClaimsPrincipalExtensions.cs:13-14 | claims after the first UserId claim do not change the result |
| Repository.Query | UltimateBackendStack/REPM.Infrastructure/Repositories/Repository.cs:26 | the view holds exactly the stored live rows: each returned row is stored and live, and every stored live row appears |
| Repository.QueryToRead | UltimateBackendStack/REPM.Infrastructure/Repositories/Repository.cs:25 | the untracked view is the tracked view, so it inherits Query's contract; its membership is characterised in ViewsPartition |
| Repository.QueryDeleted | UltimateBackendStack/REPM.Infrastructure/Repositories/Repository.cs:27 | the view holds exactly the stored deleted rows: each returned row is stored and deleted, and every stored deleted row appears |
| Repository.ViewsPartition | UltimateBackendStack/REPM.Infrastructure/Repositories/Repository.cs:25-27 | an entity is in Query exactly when stored and live, and in QueryDeleted exactly when stored and deleted; the two sizes add up to the set's |
| Repository.PartitionSize | UltimateBackendStack/REPM.Infrastructure/Repositories/Repository.cs:25-27 | the live and deleted views together are as large as the set |
| Repository.FindActive | UltimateBackendStack/REPM.Infrastructure/Repositories/Repository.cs:28-31 | the position of a live row with the id such that no earlier row is a live one with that id, or none when no live row has it |
| Repository.GetById | UltimateBackendStack/REPM.Infrastructure/Repositories/Repository.cs:28-31 | a result exactly when some live row has the id; the result is then the stored row itself, the first live one with that id in store order; soft-deleted matches are not found |
| Repository.GetByIdRange | UltimateBackendStack/REPM.Infrastructure/Repositories/Repository.cs:33-36 | every result row is live and has a requested id |
| Repository.GetByIdRangeSpec | UltimateBackendStack/REPM.Infrastructure/Repositories/Repository.cs:33-36 | an entity is in the result exactly when it is stored, live and requested, in stored order |
| Repository.GetByIdRangeOmitsMissing | UltimateBackendStack/REPM.Infrastructure/Repositories/Repository.cs:33-36 | an id with no live row is silently omitted, so the result can be shorter than the request |
| Repository.AddRange | UltimateBackendStack/REPM.Infrastructure/Repositories/Repository.cs:43-46 | the stored rows are kept and exactly the given entities follow them |
| Repository.Insert | UltimateBackendStack/REPM.Infrastructure/Repositories/Repository.cs:38-41 | inserting one entity is adding a range of one, so the stored rows are kept and the entity follows them; the effect on the live view is InsertAddsOne |
| Repository.InsertAddsOne | UltimateBackendStack/REPM.Infrastructure/Repositories/Repository.cs:38-41 | inserting a live entity makes the live view one larger and the entity findable |
| Repository.Delete | UltimateBackendStack/REPM.Infrastructure/Repositories/Repository.cs:53-56 | only the given row is flagged; it stays stored with its data and audit fields |
| Repository.DeleteMovesToDeleted | UltimateBackendStack/REPM.Infrastructure/Repositories/Repository.cs:53-56 | the deleted row leaves Query, enters QueryDeleted and is no longer found, when its id is unique |
| Repository.DeleteRange | UltimateBackendStack/REPM.Infrastructure/Repositories/Repository.cs:58-64 | the table keeps its length; each listed row is flagged deleted with its audit fields and data kept; every other row is unchanged |
| Repository.DeleteRangeIsDeleteEach | UltimateBackendStack/REPM.Infrastructure/Repositories/Repository.cs:58-64 | deleting a range is deleting each element in turn |
| Repository.DeletePermanently | UltimateBackendStack/REPM.Infrastructure/Repositories/Repository.cs:48-51 | the table shrinks by one: its multiset loses exactly that row, every other row stays stored, and the result is an order-preserving subsequence of the table |
| Repository.DeletePermanentlyRemoves | UltimateBackendStack/REPM.Infrastructure/Repositories/Repository.cs:48-51 | afterwards the id is in neither view and is not found, when it was unique |
| REPMContext.Actor | UltimateBackendStack/REPM.Infrastructure/Persistence/REPMContext.cs:28 | the principal's user id when there is a principal, Guid.Empty otherwise |
| REPMContext.Stamp | UltimateBackendStack/REPM.Infrastructure/Persistence/REPMContext.cs:32-56 | Added fills each audit field only when it is at its default; Modified always overwrites UpdatedBy and UpdatedAt and keeps the creation fields; other states are untouched; id and flag never change |
| REPMContext.StampEntries | UltimateBackendStack/REPM.Infrastructure/Persistence/REPMContext.cs:30-57 | entries of a BaseEntity kind are stamped by state, and all others are left as they are |
| REPMContext.AddedStampKeepsPresets | UltimateBackendStack/REPM.Infrastructure/Persistence/REPMContext.cs:34-49 | values already set on an Added entry win, so stamping again changes nothing |
| REPMContext.LeaseAndPaymentNeverStamped | UltimateBackendStack/REPM.Infrastructure/Persistence/REPMContext.cs:30 | Lease and Payment entries are never stamped |
| REPMContext.StateOf | UltimateBackendStack/REPM.Infrastructure/Persistence/REPMContext.cs:32 | a tracked entity is Modified exactly when it differs from what was loaded, and Unchanged otherwise |
| REPMContext.SaveUpdate | UltimateBackendStack/REPM.Infrastructure/Persistence/REPMContext.cs:25-60 | fails exactly when the actor cannot be read; only the tracked row changes; an unchanged entity leaves the set as it was; a changed BaseEntity is stamped as modified |
| REPMContext.SaveInsert | UltimateBackendStack/REPM.Infrastructure/Persistence/REPMContext.cs:25-60 | fails exactly when the actor cannot be read; the new row is appended, stamped as Added when its kind is a BaseEntity |
| REPMContext.InsertStampsFresh | UltimateBackendStack/REPM.Infrastructure/Persistence/REPMContext.cs:34-49 | a new BaseEntity gets the actor as creator and updater and the commit time as both timestamps |
| QueryFilterHelper.FirstNavWith | UltimateBackendStack/REPM.Application/Helpers/QueryFilterHelper.cs:32-42 | the first member in order whose type has the name, or none exactly when no member's type has it |
| QueryFilterHelper.Resolve | UltimateBackendStack/REPM.Application/Helpers/QueryFilterHelper.cs:21-45 | a direct member wins; otherwise the first navigation whose type has the name, one level deep; otherwise nothing |
| QueryFilterHelper.NumericOp | UltimateBackendStack/REPM.Application/Helpers/QueryFilterHelper.cs:54-68 | at least when the name starts with Min, at most when it starts with Max and not Min, equality otherwise |
| QueryFilterHelper.ConditionFor | UltimateBackendStack/REPM.Application/Helpers/QueryFilterHelper.cs:17-73 | no condition for a null value, an unresolved name or a value that is neither string nor number; equality for a string; the name's comparison for a number |
| QueryFilterHelper.ApplyFilters | UltimateBackendStack/REPM.Application/Helpers/QueryFilterHelper.cs:8-82 | a null filter or no conditions returns the query itself; the result is the rows passing the filter, in order |
| QueryFilterHelper.ApplyFiltersSelects | UltimateBackendStack/REPM.Application/Helpers/QueryFilterHelper.cs:76-81 | the result is an order-preserving subsequence of the query holding exactly the rows that satisfy every condition |
| QueryFilterHelper.ApplyFiltersSubseq | UltimateBackendStack/REPM.Application/Helpers/QueryFilterHelper.cs:8-81 | the filtered query is an order-preserving subsequence of the query |
| QueryFilterHelper.ApplyFiltersAs | UltimateBackendStack/REPM.Application/Helpers/QueryFilterHelper.cs:78-81 | any predicate that agrees with the conjunction selects the same rows |
| QueryFilterHelper.ConditionsAppend | UltimateBackendStack/REPM.Application/Helpers/QueryFilterHelper.cs:15-74 | conditions are produced field by field, in field order |
| QueryFilterHelper.NullFieldContributesNothing | UltimateBackendStack/REPM.Application/Helpers/QueryFilterHelper.cs:17-18 | a null field can be removed without changing the conditions |
| QueryFilterHelper.UnresolvedFieldSkipped | UltimateBackendStack/REPM.Application/Helpers/QueryFilterHelper.cs:45 | a field whose name resolves to nothing is skipped without error |
| PropertyFilters.Fields | UltimateBackendStack/REPM.Application/Filters/PropertyFilters.cs:3-14 | the filter has twelve fields: the four address names, then the eight range names, in declaration order, each carrying its own nullable value (a string for the address fields, a number for the range fields) |
| PropertyFilters.ApplyPropertyFilters | UltimateBackendStack/REPM.Application/Helpers/QueryFilterHelper.cs:8-10 | a null filter returns the query itself; any filter returns an order-preserving subsequence of it, with the exact selection in PropertyFiltersSemantics |
| PropertyFilters.RangeFields | UltimateBackendStack/REPM.Application/Filters/PropertyFilters.cs:7-14 | the eight range fields come in declaration order, MinRent to MaxSquareFootage |
| PropertyFilters.NotDeclared | UltimateBackendStack/REPM.Application/Filters/PropertyFilters.cs:3-14 | none of the twelve names is a direct member of Property |
| PropertyFilters.AddressFieldResolves | UltimateBackendStack/REPM.Application/Filters/PropertyFilters.cs:3-6 | Street, City, State and ZipCode resolve through Property.Address |
| PropertyFilters.RangeFieldUnresolved | UltimateBackendStack/REPM.Application/Filters/PropertyFilters.cs:7-14 | no range field name resolves against Property |
| PropertyFilters.RangeFieldsSkipped | UltimateBackendStack/REPM.Application/Filters/PropertyFilters.cs:7-14 | range fields contribute no condition, whatever their values |
| PropertyFilters.PropertySchemaAddressResolves | UltimateBackendStack/REPM.Application/Filters/PropertyFilters.cs:3-6 | Property's member list resolves all four address fields through Address |
| PropertyFilters.AddressFieldsConditions | UltimateBackendStack/REPM.Application/Filters/PropertyFilters.cs:3-6 | the address fields give one equality on Address per non-null field, in field order |
| PropertyFilters.StrFieldCondition | UltimateBackendStack/REPM.Application/Helpers/QueryFilterHelper.cs:50-53 | a string address field gives an equality test on the address member |
| PropertyFilters.PropertyConditions | UltimateBackendStack/REPM.Application/Filters/PropertyFilters.cs:3-14 | the conditions of a PropertyFilters are exactly the address equalities of its non-null address fields |
| PropertyFilters.AddressConditionHolds | UltimateBackendStack/REPM.Application/Helpers/QueryFilterHelper.cs:50-53 | an address equality holds exactly when the stored string equals the filter's |
| PropertyFilters.AddressConditionsHold | UltimateBackendStack/REPM.Application/Filters/PropertyFilters.cs:3-6 | a property satisfies the address equalities exactly when its address matches every non-null address field |
| PropertyFilters.HoldsAllAppend | UltimateBackendStack/REPM.Application/Helpers/QueryFilterHelper.cs:78 | the conjunction of two condition lists holds exactly when both hold |
| PropertyFilters.PropertyFiltersSemantics | UltimateBackendStack/REPM.Application/Filters/PropertyFilters.cs:3-14 | filtering properties keeps exactly, in order, those whose address matches the non-null address fields; range fields never constrain |
| PropertyFilters.SelectsByAddress | UltimateBackendStack/REPM.Application/Helpers/QueryFilterHelper.cs:76-81 | when the conditions are the address equalities, the filter selects by address match |
| PropertyFilters.AllNullLeavesQuery | UltimateBackendStack/REPM.Application/Filters/PropertyFilters.cs:3-14 | an all-null filter leaves a property query unchanged |
| PropertyQueries.GetPropertiesForRent | UltimateBackendStack/REPM.Application/CQRS/Queries/GetPropertiesForRentQuery.cs:28-42 | the result is the stored properties, in store order, that are live, listed and pass the filter |
| PropertyQueries.GetPropertiesUnlistedByUserId | UltimateBackendStack/REPM.Application/CQRS/Queries/GetPropertiesUnlistedByUserIdQuery.cs:29-44 | the result is the stored properties, in store order, that are live, owned by the user, unlisted and pass the filter |
| PropertyQueries.QueryIsOneFilter | UltimateBackendStack/REPM.Application/CQRS/Queries/GetPropertiesForRentQuery.cs:33-38 | a base predicate on the live view followed by the filter is one pass over the stored properties |
| PropertyQueries.QueryAs | UltimateBackendStack/REPM.Application/CQRS/Queries/GetPropertiesForRentQuery.cs:33-38 | any predicate agreeing pointwise with live, base and filter selects the same rows as the query |
| PropertyQueries.QuerySelects | UltimateBackendStack/REPM.Application/CQRS/Queries/GetPropertiesForRentQuery.cs:33-38 | a property is in the result exactly when it is stored, live, meets the base predicate and passes the filter; the result keeps stored order |
| PropertyQueries.ForRentSelects | UltimateBackendStack/REPM.Application/CQRS/Queries/GetPropertiesForRentQuery.cs:33-38 | the for-rent result holds exactly the live, listed properties that pass the filter, so filters only narrow |
| PropertyQueries.UnlistedSelects | UltimateBackendStack/REPM.Application/CQRS/Queries/GetPropertiesUnlistedByUserIdQuery.cs:35-40 | the unlisted result holds exactly the live, unlisted properties of the user that pass the filter |
| PropertyQueries.QueriesDisjoint | UltimateBackendStack/REPM.Application/CQRS/Queries/GetPropertiesUnlistedByUserIdQuery.cs:36 | for any filters, no property is in both query results |
| PropertyQueries.AllNullIsNoFilter | UltimateBackendStack/REPM.Application/CQRS/Queries/GetPropertiesForRentQuery.cs:33-38 | an all-null filter returns what no filter returns, for both queries |
| Guards.NotNull | UltimateBackendStack/REPM.Application/CQRS/Commands/Property/CreatePropertyCommand.cs:30 | passes the value exactly when it is not null, and otherwise reports the parameter |
| Guards.NotNullOrEmpty | UltimateBackendStack/REPM.Application/CQRS/Commands/Property/CreatePropertyCommand.cs:29 | gives back the string exactly when it is neither null nor empty; null and empty are reported differently |
| Guards.Positive | UltimateBackendStack/REPM.Application/CQRS/Commands/Property/CreatePropertyCommand.cs:32-35 | passes exactly when the number is above zero |
| Store.Load | UltimateBackendStack/REPM.Application/CQRS/Commands/Lease/ActivateLeaseCommand.cs:24-25 | the position of the row the lookup finds, or NotFound with the type name and id exactly when there is none |
| LeaseCommands.Transition | UltimateBackendStack/REPM.Application/CQRS/Commands/Lease/ActivateLeaseCommand.cs:24-28 | not found, then the mutator's error; on success only that lease's row changes and the commit's answer is returned |
| LeaseCommands.ActivateLease | UltimateBackendStack/REPM.Application/CQRS/Commands/Lease/ActivateLeaseCommand.cs:19-29 | NotFound("Lease", id) for an absent or deleted lease; the only-pending error; otherwise that lease becomes Active and the commit's answer is returned |
| LeaseCommands.ExpireLease | UltimateBackendStack/REPM.Application/CQRS/Commands/Lease/ExpireLeaseCommand.cs:18-28 | NotFound("Lease", id); the only-active error; otherwise that lease becomes Expired and the commit's answer is returned |
| LeaseCommands.CancelLease | UltimateBackendStack/REPM.Application/CQRS/Commands/Lease/CancelLeaseCommand.cs:19-29 | NotFound("Lease", id); an Expired lease is refused; any other lease ends Canceled and the commit's answer is returned |
| LeaseCommands.DeleteLease | UltimateBackendStack/REPM.Application/CQRS/Commands/Lease/DeleteLeaseCommand.cs:19-31 | NotFound("Lease", id); otherwise only that lease is flagged, it stays stored, its payments are untouched, and the answer is true |
| LeaseCommands.StatusHandlersFollowSteps | UltimateBackendStack/REPM.Application/CQRS/Commands/Lease/ActivateLeaseCommand.cs:24-28 | every successful status handler makes one step of the lease status table on the target and changes no other row or set |
| LeaseCommands.DeleteTwiceNotFound | UltimateBackendStack/REPM.Application/CQRS/Commands/Lease/DeleteLeaseCommand.cs:24-27 | a second delete of the same lease is NotFound |
| LeaseCommands.ActivateThenExpire | UltimateBackendStack/REPM.Application/CQRS/Commands/Lease/ExpireLeaseCommand.cs:23-27 | a lease the activate handler accepted is then accepted by the expire handler |
| PropertyCommands.CreateProperty | UltimateBackendStack/REPM.Application/CQRS/Commands/Property/CreatePropertyCommand.cs:26-47 | the guards run in source order and the first failure is reported, naming Name, Address, Description, Price, Beds, Baths or SquareFeet; on success exactly one unlisted, stamped property is appended and its id is returned |
| PropertyCommands.CreatePropertyIgnoresIsActive | UltimateBackendStack/REPM.Application/CQRS/Commands/Property/CreatePropertyCommand.cs:11-41 | the command's IsActive has no effect |
| PropertyCommands.CreatedPropertyFound | UltimateBackendStack/REPM.Application/CQRS/Commands/Property/CreatePropertyCommand.cs:38-46 | the created property is found by its id, unlisted, with the command's owner, whether or not that owner exists |
| PropertyCommands.PaymentsOf | UltimateBackendStack/REPM.Application/CQRS/Commands/Property/LeasePropertyCommand.cs:46 | the loaded payments of a lease are exactly the stored payment rows naming it, deleted ones included: each stored one appears and each loaded one is stored |
| PropertyCommands.RenterLeases | UltimateBackendStack/REPM.Application/CQRS/Commands/Property/LeasePropertyCommand.cs:45-48 | the candidate leases are exactly the live leases of the tenant, whatever their status: each is a stored live lease of the tenant, every such lease appears, and each carries its payments |
| PropertyCommands.RenterLeasesAfterInsert | UltimateBackendStack/REPM.Application/CQRS/Commands/Property/LeasePropertyCommand.cs:45-48 | a new live lease of the tenant joins the end of the candidate list |
| PropertyCommands.RenterLeasesPendingIff | UltimateBackendStack/REPM.Application/CQRS/Commands/Property/LeasePropertyCommand.cs:45-48 | the candidate leases hold a Pending payment exactly when some live lease of the tenant has a stored Pending payment, so the orchestrator's overdue check sees every live lease |
| PropertyCommands.LeaseProperty | UltimateBackendStack/REPM.Application/CQRS/Commands/Property/LeasePropertyCommand.cs:30-59 | null period or price is refused; a missing property, and after a valid period a missing tenant, is dereferenced rather than reported as not found; then the period check; a stored Pending payment on any live lease of the tenant refuses with OverduePayment; success exactly when none of these fires and the actor resolves, appending one Active lease and returning its id |
| PropertyCommands.LeasePropertyDelegates | UltimateBackendStack/REPM.Application/CQRS/Commands/Property/LeasePropertyCommand.cs:50-58 | an orchestrator error comes back unchanged with nothing inserted; otherwise its lease is inserted as is |
| PropertyCommands.LeasePropertyNeverUnavailable | UltimateBackendStack/REPM.Application/CQRS/Commands/Property/LeasePropertyCommand.cs:39 | leasing never fails for property unavailability, because the property is read without its leases |
| PropertyCommands.DoubleBookingAllowed | UltimateBackendStack/REPM.Application/CQRS/Commands/Property/LeasePropertyCommand.cs:39-58 | after a successful lease, the same tenant can lease the same property for the same, overlapping period again |
| PropertyCommands.LeasesOf | UltimateBackendStack/REPM.Application/CQRS/Commands/Property/ListPropertyForRentCommand.cs:25-27 | the loaded leases of a property are exactly the stored lease rows naming it, deleted ones included: each stored one appears and each loaded one is stored |
| PropertyCommands.ListPropertyForRent | UltimateBackendStack/REPM.Application/CQRS/Commands/Property/ListPropertyForRentCommand.cs:20-35 | NotFound("Property", id); AlreadyListed; HasActiveLeases from the loaded leases; otherwise only that property becomes listed, stamped as modified, and the commit's answer is returned |
| PropertyCommands.UnlistPropertyForRent | UltimateBackendStack/REPM.Application/CQRS/Commands/Property/UnlistPropertyForRentCommand.cs:20-35 | NotFound("Property", id); no other failure; the property ends unlisted, and an already unlisted one is left untouched; the commit's answer is returned |
| PropertyCommands.DeleteProperty | UltimateBackendStack/REPM.Application/CQRS/Commands/Property/DeletePropertyCommand.cs:19-31 | NotFound("Property", id); otherwise only that property is flagged and stamped, its leases are untouched, and the answer is true |
| PropertyCommands.ListTwiceAlreadyListed | UltimateBackendStack/REPM.Application/CQRS/Commands/Property/ListPropertyForRentCommand.cs:25-32 | listing the same property again fails with AlreadyListed |
| PropertyCommands.ListThenUnlist | UltimateBackendStack/REPM.Application/CQRS/Commands/Property/UnlistPropertyForRentCommand.cs:25-32 | listing then unlisting restores the property's own fields; only its update stamp moves and nothing else changes |
| PropertyCommands.UnlistTwiceNoChange | UltimateBackendStack/REPM.Application/CQRS/Commands/Property/UnlistPropertyForRentCommand.cs:25-32 | a second unlist leaves the database exactly as it was |
| PropertyCommands.DeletePropertyTwiceNotFound | UltimateBackendStack/REPM.Application/CQRS/Commands/Property/DeletePropertyCommand.cs:24-28 | a second delete is NotFound, and the leases, users and payments were never touched |
| UserCommands.FullName | UltimateBackendStack/REPM.Application/CQRS/Commands/User/CreateUserCommand.cs:30 | the stored name is one character longer than the two parts together |
| UserCommands.FullNameSplits | UltimateBackendStack/REPM.Application/CQRS/Commands/User/CreateUserCommand.cs:30 | the stored name is the first name, one space, then the last name |
| UserCommands.CreateUser | UltimateBackendStack/REPM.Application/CQRS/Commands/User/CreateUserCommand.cs:23-35 | first name, last name and email are checked for null or empty in that order; on success one stamped user with the joined name and the email as given is appended and its id is returned |
| UserCommands.CreatedUserFound | UltimateBackendStack/REPM.Application/CQRS/Commands/User/CreateUserCommand.cs:30-34 | the created user is found by its id with the joined name and the given email |
| UserCommands.DeleteUser | UltimateBackendStack/REPM.Application/CQRS/Commands/User/DeleteUserCommand.cs:19-31 | NotFound("User", id); otherwise only that user is flagged and stamped, its properties and leases are untouched, and the answer is true |
| UserCommands.DeleteUserTwiceNotFound | UltimateBackendStack/REPM.Application/CQRS/Commands/User/DeleteUserCommand.cs:24-28 | a second delete is NotFound, and the other sets are untouched |
| PaymentCommands.DeletePayment | UltimateBackendStack/REPM.Application/CQRS/Commands/Payment/DeletePaymentCommand.cs:19-29 | NotFound("Payment", id); otherwise only that payment is flagged, keeping its status, and the commit's answer is returned |
| PaymentCommands.DeletePaymentMovesToDeleted | UltimateBackendStack/REPM.Application/CQRS/Commands/Payment/DeletePaymentCommand.cs:24-28 | the deleted payment moves to the deleted view and is no longer found |

## Left out

- **The MCP adapter**, **the GraphQL API**, **dependency-injection wiring** and **seed data**. These are transport, wiring and fixed data. They hold no rule of the core.
- **EF mapping and cascading deletes** (`REPMContext.OnModelCreating`, REPMContext.cs:62-133): the column mappings are not modelled, and neither are the `DeleteBehavior.Cascade` relations. They are Property to Owner, Lease to Property, Lease to Tenant and Payment to Lease. A committed `DeletePermenantly` would also remove dependent rows, while `Repository.DeletePermanently` removes one row. No modelled handler hard-deletes; soft deletes do not cascade.
- **Domain events.** Raising an event is treated as having no effect on entity state. The dispatcher is process-global and is not awaited.
- **AutoMapper-based code**:
  - the DTOs and the `AddressDto`/`DateRangeDto`/`MoneyDto` mappings;
  - the Update* command handlers;
  - the by-id and list queries other than the two modelled.

  Their outputs are projections. Their selection is the repository's, already modelled. A command's address, period and price are taken as already mapped.
- **`CompletePaymentCommand`, `CancelPaymentCommand` and `MakePaymentCommand`.**
  - The first two call `Payment` methods that do not exist in `Payment.cs`.
  - The third never assigns its fields.
- **Async execution, cancellation tokens, and EF change tracking and query translation.** A handler is one function from a database to a result.
- **`Repository.SaveChangesAsync`** only forwards to the context commit, so it has no member of its own.
- **Persistence failures** are not modelled: a commit fails only when the actor's id cannot be parsed.
- **The guards against a null request and a null `Guid`.** A `Guid` is a value type, so those guards never fire.
- **Exceptions from expression construction** when a filter value's type does not match the member's type. `PropertyFilters` never reaches such a case against `Property`.
- **`DateTime.UtcNow` is read once per stamped entry in the source** (twice for an Added entry). The model uses one instant per commit.
- **The `_ => "Unknown status."` arm of `GetDescription`** (PaymentStatus.cs:56) is not modelled. The payment status is a closed datatype, so no value outside the five named statuses exists.
- **Fractional money.** A C# `decimal` (prices, rents, filter bounds, payment amounts) is modelled as an `int`, so fractional values cannot be represented. The rules modelled use only the sign of an amount and comparisons, so no proof depends on this.
- **Exception messages** are not modelled. Each error variant keeps only the data the exception carries.
- **Culture and encoding details.**
  - `string.StartsWith` is the culture-sensitive overload in the source. It is modelled as an ordinal prefix test.
  - String length counts characters, not UTF-16 code units.
- **GUID generation and the clock** are parameters. Uniqueness of generated GUIDs is assumed where a lemma needs it, as a `requires` that no live row has the id.
- **Commits of several tracked entities at once** are not modelled. Every modelled handler tracks exactly one changed entity.
- UserCommands.FullName: its own contract states only the length. The exact content is stated by `UserCommands.FullNameSplits`.
- Repository.GetByIdRange: its own contract states one direction only. `Repository.GetByIdRangeSpec` states both directions and the order.
- Repository.DeleteMovesToDeleted: stated for a row whose id no other row shares. A duplicate live id would still be found through the other row.
- Repository.DeletePermanentlyRemoves: stated for a row whose id no other row shares, for the same reason.
