/** The one concrete filter, `PropertyFilters`, and what it does to a query of
    properties. */
module PropertyFilters {
  import opened Wrappers
  import opened Primitives
  import opened Addresses
  import opened BaseEntities
  import opened Properties
  import opened QueryFilterHelper
  import Seqs

  /** Twelve nullable fields; rents are C# `decimal`, modelled as integers. */
  datatype PropertyFilters = PropertyFilters(
    street: NString, city: NString, state: NString, zipCode: NString,
    minRent: Option<int>, maxRent: Option<int>,
    minBedrooms: Option<int>, maxBedrooms: Option<int>,
    minBathrooms: Option<int>, maxBathrooms: Option<int>,
    minSquareFootage: Option<int>, maxSquareFootage: Option<int>)

  const AllNull: PropertyFilters := PropertyFilters(None, None, None, None, None, None, None, None, None, None, None, None)

  /** The boxed value a nullable string or number field holds; None is null. */
  function StrOperand(v: NString): Option<Value> {
    match v case Some(s) => Some(Str(s)) case None => None
  }

  function NumOperand(v: Option<int>): Option<Value> {
    match v case Some(n) => Some(Num(n)) case None => None
  }

  function StrField(name: string, v: NString): FilterField {
    FilterField(name, StrOperand(v))
  }

  function NumField(name: string, v: Option<int>): FilterField {
    FilterField(name, NumOperand(v))
  }

  /** The filter's public properties in declaration order: the four address
      fields, then the eight range bounds. */
  function Fields(f: PropertyFilters): (r: seq<FilterField>)
    ensures |r| == 12
    ensures forall i :: 0 <= i < 12 ==> r[i].name == (AddressFieldNames + RangeFieldNames)[i]
    ensures r[0].value == StrOperand(f.street) && r[1].value == StrOperand(f.city)
         && r[2].value == StrOperand(f.state) && r[3].value == StrOperand(f.zipCode)
    ensures r[4].value == NumOperand(f.minRent) && r[5].value == NumOperand(f.maxRent)
         && r[6].value == NumOperand(f.minBedrooms) && r[7].value == NumOperand(f.maxBedrooms)
         && r[8].value == NumOperand(f.minBathrooms) && r[9].value == NumOperand(f.maxBathrooms)
         && r[10].value == NumOperand(f.minSquareFootage) && r[11].value == NumOperand(f.maxSquareFootage)
  {
    AddressFields(f) + RangeFields(f)
  }

  function AddressFields(f: PropertyFilters): seq<FilterField> {
    [StrField("Street", f.street), StrField("City", f.city), StrField("State", f.state), StrField("ZipCode", f.zipCode)]
  }

  function RangeFields(f: PropertyFilters): (r: seq<FilterField>)
    ensures |r| == |RangeFieldNames|
    ensures forall i :: 0 <= i < |r| ==> r[i].name == RangeFieldNames[i]
  {
    [ NumField("MinRent", f.minRent), NumField("MaxRent", f.maxRent),
      NumField("MinBedrooms", f.minBedrooms), NumField("MaxBedrooms", f.maxBedrooms),
      NumField("MinBathrooms", f.minBathrooms), NumField("MaxBathrooms", f.maxBathrooms),
      NumField("MinSquareFootage", f.minSquareFootage), NumField("MaxSquareFootage", f.maxSquareFootage) ]
  }

  const AddressMembers: seq<string> := ["Street", "City", "State", "ZipCode", "Country"]

  /** The filter's address field names, and its range field names. */
  const AddressFieldNames: seq<string> := ["Street", "City", "State", "ZipCode"]
  const RangeFieldNames: seq<string> := ["MinRent", "MaxRent", "MinBedrooms", "MaxBedrooms", "MinBathrooms",
                                         "MaxBathrooms", "MinSquareFootage", "MaxSquareFootage"]

  /** `Property`'s public properties, its own first and then `BaseEntity`'s.
      Only `Address` has a type with members of interest here. */
  const PropertySchema: Schema := [
    MemberDecl("Name", []), MemberDecl("Address", AddressMembers), MemberDecl("OwnerId", []),
    MemberDecl("IsListedForRent", []), MemberDecl("Description", []), MemberDecl("Price", []),
    MemberDecl("Beds", []), MemberDecl("Baths", []), MemberDecl("SquareFeet", []),
    MemberDecl("Leases", []), MemberDecl("IsAvailable", []),
    MemberDecl("Id", []), MemberDecl("CreatedAt", []), MemberDecl("UpdatedAt", []),
    MemberDecl("IsDeleted", []), MemberDecl("CreatedBy", []), MemberDecl("UpdatedBy", []) ]

  function StrValue(s: NString): Value {
    match s case Some(v) => Str(v) case None => Null
  }

  /** A stored property read as a row of named members. */
  function PropertyView(e: Entity<Property>): Row {
    var p := e.data;
    [ Member("Name", StrValue(p.name)),
      Member("Address", Nested([
        Member("Street", StrValue(p.address.street)), Member("City", StrValue(p.address.city)),
        Member("State", StrValue(p.address.state)), Member("ZipCode", StrValue(p.address.zipCode)),
        Member("Country", StrValue(p.address.country))])),
      Member("OwnerId", Other), Member("IsListedForRent", Other), Member("Description", StrValue(p.description)),
      Member("Price", Num(p.price)), Member("Beds", Num(p.beds)), Member("Baths", Num(p.baths)),
      Member("SquareFeet", Num(p.squareFeet)), Member("Leases", Other), Member("IsAvailable", Other),
      Member("Id", Other), Member("CreatedAt", Other), Member("UpdatedAt", Other),
      Member("IsDeleted", Other), Member("CreatedBy", Other), Member("UpdatedBy", Other) ]
  }

  /** `ApplyFilters` on a property query; a null filter is None. */
  function ApplyPropertyFilters(query: seq<Entity<Property>>, filters: Option<PropertyFilters>): (r: seq<Entity<Property>>)
    ensures filters.None? ==> r == query
    ensures Seqs.IsSubseq(r, query)
  {
    var fields := match filters case Some(f) => Some(Fields(f)) case None => None;
    ApplyFiltersSubseq(PropertySchema, PropertyView, query, fields);
    ApplyFilters(PropertySchema, PropertyView, query, fields)
  }

  /** A nullable filter string and the stored string agree, or the filter is null. */
  predicate FieldMatches(wanted: NString, actual: NString) {
    wanted.Some? ==> actual == Some(wanted.value)
  }

  /** What a `PropertyFilters` value actually asks of a property: its four
      address fields, each equal to the filter's when the filter's is set. */
  predicate AddressMatches(f: PropertyFilters, a: Address) {
    && FieldMatches(f.street, a.street) && FieldMatches(f.city, a.city)
    && FieldMatches(f.state, a.state) && FieldMatches(f.zipCode, a.zipCode)
  }

  function AddressCondition(name: string, v: NString): seq<Condition> {
    match v
    case Some(s) => [Condition(Via("Address", name), Eq, Str(s))]
    case None => []
  }

  /** None of the filter's field names is a direct member of `Property`. */
  lemma NotDeclared(n: string)
    requires n in AddressFieldNames + RangeFieldNames
    ensures !Declares(PropertySchema, n)
  {
  }

  /** An address field name resolves to `p.Address.<name>`: `Property` has no
      member of that name and `Address` is its first member whose type does. */
  lemma AddressFieldResolves(n: string)
    requires n in AddressFieldNames
    ensures Resolve(PropertySchema, n) == Some(Via("Address", n))
  {
    NotDeclared(n);
    assert n in PropertySchema[1].typeMembers;
    assert n !in PropertySchema[0].typeMembers;
  }

  /** A range field name (`MinRent`, `MaxBedrooms`, ...) resolves to nothing:
      neither `Property` nor any of its members' types has such a member. */
  lemma RangeFieldUnresolved(n: string)
    requires n in RangeFieldNames
    ensures Resolve(PropertySchema, n) == None
  {
    NotDeclared(n);
    assert forall i :: 0 <= i < |PropertySchema| ==> n !in PropertySchema[i].typeMembers;
  }

  lemma {:induction false} RangeFieldsSkipped(fs: seq<FilterField>)
    requires forall i :: 0 <= i < |fs| ==> fs[i].name in RangeFieldNames
    ensures Conditions(PropertySchema, fs) == []
    decreases |fs|
  {
    if |fs| > 0 {
      RangeFieldUnresolved(fs[0].name);
      RangeFieldsSkipped(fs[1..]);
    }
  }

  /** Address field names resolve through `Address` in this schema. */
  predicate AddressResolves(schema: Schema) {
    forall n :: n in AddressFieldNames ==> Resolve(schema, n) == Some(Via("Address", n))
  }

  lemma PropertySchemaAddressResolves()
    ensures AddressResolves(PropertySchema)
  {
    forall n | n in AddressFieldNames ensures Resolve(PropertySchema, n) == Some(Via("Address", n)) {
      AddressFieldResolves(n);
    }
  }

  lemma AddressFieldsConditions(schema: Schema, f: PropertyFilters)
    requires AddressResolves(schema)
    ensures Conditions(schema, AddressFields(f))
         == AddressCondition("Street", f.street) + AddressCondition("City", f.city)
          + AddressCondition("State", f.state) + AddressCondition("ZipCode", f.zipCode)
  {
    var a := AddressFields(f);
    ConditionsOfFour(schema, a);
    StrFieldCondition(schema, "Street", f.street);
    StrFieldCondition(schema, "City", f.city);
    StrFieldCondition(schema, "State", f.state);
    StrFieldCondition(schema, "ZipCode", f.zipCode);
  }

  /** A string field whose name resolves through `Address` compiles to one
      equality when set and to nothing when null. */
  lemma StrFieldCondition(schema: Schema, n: string, v: NString)
    requires n in AddressFieldNames && AddressResolves(schema)
    ensures FieldConditions(schema, StrField(n, v)) == AddressCondition(n, v)
  {
  }

  /** The conditions a `PropertyFilters` value compiles to against `Property`:
      one equality on an address field per non-null address field, in order;
      the eight range fields contribute nothing. */
  lemma PropertyConditions(f: PropertyFilters)
    ensures Conditions(PropertySchema, Fields(f))
         == AddressCondition("Street", f.street) + AddressCondition("City", f.city)
          + AddressCondition("State", f.state) + AddressCondition("ZipCode", f.zipCode)
  {
    ConditionsAppend(PropertySchema, AddressFields(f), RangeFields(f));
    RangeFieldsSkipped(RangeFields(f));
    PropertySchemaAddressResolves();
    AddressFieldsConditions(PropertySchema, f);
  }

  /** The value `p.Address.<name>` reads from a stored property. */
  lemma AddressFieldRead(e: Entity<Property>, i: nat)
    requires i < 4
    ensures Get(PropertyView(e), Via("Address", AddressFieldNames[i]))
         == Some(StrValue([e.data.address.street, e.data.address.city, e.data.address.state, e.data.address.zipCode][i]))
  {
    var row := PropertyView(e);
    LookupFirst(row, "Address", 1);
    LookupFirst(row[1].value.members, AddressFieldNames[i], i);
  }

  /** One address condition holds exactly when the field matches. */
  lemma AddressConditionHolds(row: Row, n: string, v: NString, actual: NString)
    requires Get(row, Via("Address", n)) == Some(StrValue(actual))
    ensures HoldsAll(row, AddressCondition(n, v)) <==> FieldMatches(v, actual)
  {
    if v.Some? {
      assert HoldsAll(row, AddressCondition(n, v)) <==> Holds(row, AddressCondition(n, v)[0]);
    }
  }

  lemma AddressConditionsHold(f: PropertyFilters, e: Entity<Property>)
    ensures HoldsAll(PropertyView(e), AddressCondition("Street", f.street) + AddressCondition("City", f.city)
                                     + AddressCondition("State", f.state) + AddressCondition("ZipCode", f.zipCode))
        <==> AddressMatches(f, e.data.address)
  {
    var row := PropertyView(e);
    var a := e.data.address;
    AddressFieldRead(e, 0);
    AddressFieldRead(e, 1);
    AddressFieldRead(e, 2);
    AddressFieldRead(e, 3);
    AddressConditionHolds(row, "Street", f.street, a.street);
    AddressConditionHolds(row, "City", f.city, a.city);
    AddressConditionHolds(row, "State", f.state, a.state);
    AddressConditionHolds(row, "ZipCode", f.zipCode, a.zipCode);
    var c1, c2, c3, c4 := AddressCondition("Street", f.street), AddressCondition("City", f.city),
                          AddressCondition("State", f.state), AddressCondition("ZipCode", f.zipCode);
    HoldsAllAppend(row, c1 + c2 + c3, c4);
    HoldsAllAppend(row, c1 + c2, c3);
    HoldsAllAppend(row, c1, c2);
  }

  lemma HoldsAllAppend(row: Row, a: seq<Condition>, b: seq<Condition>)
    ensures HoldsAll(row, a + b) <==> HoldsAll(row, a) && HoldsAll(row, b)
  {
    if HoldsAll(row, a) && HoldsAll(row, b) {
      forall i | 0 <= i < |a + b| ensures Holds(row, (a + b)[i]) {
        if i >= |a| { assert (a + b)[i] == b[i - |a|]; }
      }
    }
    if HoldsAll(row, a + b) {
      forall i | 0 <= i < |a| ensures Holds(row, a[i]) {
        assert (a + b)[i] == a[i];
      }
      forall i | 0 <= i < |b| ensures Holds(row, b[i]) {
        assert (a + b)[|a| + i] == b[i];
      }
    }
  }

  /** Against `Property`, a `PropertyFilters` value selects exactly the
      properties whose address matches its non-null address fields, in order;
      the rent, bedroom, bathroom and area bounds never constrain the result. */
  lemma PropertyFiltersSemantics(query: seq<Entity<Property>>, f: PropertyFilters)
    ensures ApplyPropertyFilters(query, Some(f)) == Seqs.Filter((e: Entity<Property>) => AddressMatches(f, e.data.address), query)
  {
    PropertyConditions(f);
    SelectsByAddress(PropertySchema, query, f);
  }

  lemma SelectsByAddress(schema: Schema, query: seq<Entity<Property>>, f: PropertyFilters)
    requires Conditions(schema, Fields(f))
          == AddressCondition("Street", f.street) + AddressCondition("City", f.city)
           + AddressCondition("State", f.state) + AddressCondition("ZipCode", f.zipCode)
    ensures ApplyFilters(schema, PropertyView, query, Some(Fields(f)))
         == Seqs.Filter((e: Entity<Property>) => AddressMatches(f, e.data.address), query)
  {
    var q := (e: Entity<Property>) => AddressMatches(f, e.data.address);
    forall e: Entity<Property> ensures Matches(schema, Some(Fields(f)), PropertyView(e)) == q(e) {
      AddressConditionsHold(f, e);
    }
    ApplyFiltersAs(schema, PropertyView, query, Some(Fields(f)), q);
  }

  /** An all-null filter leaves a property query unchanged. */
  lemma AllNullLeavesQuery(query: seq<Entity<Property>>)
    ensures ApplyPropertyFilters(query, Some(AllNull)) == query
  {
    PropertyConditions(AllNull);
  }
}
