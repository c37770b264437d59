/** The dynamic filter compiler. Reflection is replaced by an explicit shape:
    an entity type is its ordered list of members, each with the names of its
    own type's members; an entity value is its ordered list of named member
    values; a filter is its ordered list of named, nullable field values. */
module QueryFilterHelper {
  import opened Wrappers
  import opened Primitives
  import Seqs

  datatype Value = Str(s: string) | Num(n: int) | Nested(members: seq<Member>) | Null | Other
  datatype Member = Member(name: string, value: Value)
  type Row = seq<Member>

  /** A public property of an entity type: its name and the names of the
      public properties of its type, in declaration order. */
  datatype MemberDecl = MemberDecl(name: string, typeMembers: seq<string>)
  type Schema = seq<MemberDecl>

  /** The member expression a filter field resolves to: `p.Name` or `p.Nav.Name`. */
  datatype Path = Direct(name: string) | Via(nav: string, name: string)

  datatype Op = Eq | Ge | Le

  datatype Condition = Condition(target: Path, op: Op, operand: Value)

  /** A public property of the filter object; `value` None is null. */
  datatype FilterField = FilterField(name: string, value: Option<Value>)

  const MinPrefix: string := "Min"
  const MaxPrefix: string := "Max"

  predicate Declares(schema: Schema, name: string) {
    exists i :: 0 <= i < |schema| && schema[i].name == name
  }

  /** The first member, in declaration order, whose type has a member `name`. */
  function FirstNavWith(schema: Schema, name: string): (r: Option<string>)
    ensures r.None? <==> forall i :: 0 <= i < |schema| ==> name !in schema[i].typeMembers
    ensures r.Some? ==> exists i :: 0 <= i < |schema| && schema[i].name == r.value && name in schema[i].typeMembers
                                   && forall j :: 0 <= j < i ==> name !in schema[j].typeMembers
    decreases |schema|
  {
    if |schema| == 0 then None
    else if name in schema[0].typeMembers then Some(schema[0].name)
    else
      var r := FirstNavWith(schema[1..], name);
      assert r.Some? ==> exists i :: 1 <= i < |schema| && schema[i].name == r.value && name in schema[i].typeMembers
                                   && forall j :: 0 <= j < i ==> name !in schema[j].typeMembers by {
        if r.Some? {
          var i :| 0 <= i < |schema[1..]| && schema[1..][i].name == r.value && name in schema[1..][i].typeMembers
                   && forall j :: 0 <= j < i ==> name !in schema[1..][j].typeMembers;
          assert forall j :: 1 <= j < i + 1 ==> schema[j] == schema[1..][j - 1];
        }
      }
      r
  }

  /** Name resolution: a direct member wins; otherwise the first member whose
      type has a member of that name; one level deep only. */
  function Resolve(schema: Schema, name: string): (r: Option<Path>)
    ensures Declares(schema, name) ==> r == Some(Direct(name))
    ensures !Declares(schema, name) ==>
      r == (match FirstNavWith(schema, name) case Some(nav) => Some(Via(nav, name)) case None => None)
  {
    if exists i :: 0 <= i < |schema| && schema[i].name == name then Some(Direct(name))
    else
      match FirstNavWith(schema, name)
      case Some(nav) => Some(Via(nav, name))
      case None => None
  }

  /** The comparison a numeric filter field asks for, by its name. */
  function NumericOp(fieldName: string): (op: Op)
    ensures op == Ge <==> StartsWith(fieldName, MinPrefix)
    ensures op == Le <==> !StartsWith(fieldName, MinPrefix) && StartsWith(fieldName, MaxPrefix)
  {
    if StartsWith(fieldName, MinPrefix) then Ge
    else if StartsWith(fieldName, MaxPrefix) then Le
    else Eq
  }

  /** The condition one filter field contributes, if any: none for a null
      value, an unresolved name or a value that is neither a string nor a
      number; equality for a string; for a number, by the field's name. */
  function ConditionFor(schema: Schema, f: FilterField): (r: Option<Condition>)
    ensures f.value.None? ==> r.None?
    ensures Resolve(schema, f.name).None? ==> r.None?
    ensures f.value.Some? && !(f.value.value.Str? || f.value.value.Num?) ==> r.None?
    ensures f.value.Some? && f.value.value.Str? && Resolve(schema, f.name).Some? ==>
      r == Some(Condition(Resolve(schema, f.name).value, Eq, f.value.value))
    ensures f.value.Some? && f.value.value.Num? && Resolve(schema, f.name).Some? ==>
      r == Some(Condition(Resolve(schema, f.name).value, NumericOp(f.name), f.value.value))
  {
    match f.value
    case None => None
    case Some(v) =>
      match Resolve(schema, f.name)
      case None => None
      case Some(path) =>
        match v
        case Str(_) => Some(Condition(path, Eq, v))
        case Num(_) => Some(Condition(path, NumericOp(f.name), v))
        case _ => None
  }

  /** The condition of one field as a list of zero or one. */
  function FieldConditions(schema: Schema, f: FilterField): (cs: seq<Condition>)
    ensures |cs| <= 1
  {
    match ConditionFor(schema, f)
    case Some(c) => [c]
    case None => []
  }

  /** The conditions of all fields, in field order. */
  function Conditions(schema: Schema, fields: seq<FilterField>): (cs: seq<Condition>)
    ensures |cs| <= |fields|
    decreases |fields|
  {
    if |fields| == 0 then []
    else FieldConditions(schema, fields[0]) + Conditions(schema, fields[1..])
  }

  /** The value of the first member with this name. */
  function Lookup(members: seq<Member>, name: string): (r: Option<Value>)
    ensures r.Some? <==> exists i :: 0 <= i < |members| && members[i].name == name
    decreases |members|
  {
    if |members| == 0 then None
    else if members[0].name == name then Some(members[0].value)
    else Lookup(members[1..], name)
  }

  /** The value a member expression reads from a row; None where a navigation
      is null or is not a nested value. */
  function Get(row: Row, path: Path): Option<Value> {
    match path
    case Direct(name) => Lookup(row, name)
    case Via(nav, name) =>
      match Lookup(row, nav)
      case Some(Nested(members)) => Lookup(members, name)
      case _ => None
  }

  /** A condition holds when the target and the operand are both strings or
      both numbers and compare as asked; null targets compare false. */
  predicate Holds(row: Row, c: Condition) {
    match (Get(row, c.target), c.operand)
    case (Some(Str(a)), Str(b)) => c.op == Eq && a == b
    case (Some(Num(a)), Num(b)) =>
      (match c.op
       case Eq => a == b
       case Ge => a >= b
       case Le => a <= b)
    case _ => false
  }

  predicate HoldsAll(row: Row, cs: seq<Condition>) {
    forall i :: 0 <= i < |cs| ==> Holds(row, cs[i])
  }

  /** Whether a row passes the filter: always with a null filter, otherwise
      when it satisfies every condition the filter's fields resolve to. */
  predicate Matches(schema: Schema, filters: Option<seq<FilterField>>, row: Row) {
    filters.None? || HoldsAll(row, Conditions(schema, filters.value))
  }

  /** `ApplyFilters` over a query of values of some entity type, read through
      `view`: with a null filter, or no conditions, the query itself;
      otherwise the rows satisfying the conjunction, in order. */
  function ApplyFilters<T>(schema: Schema, view: T -> Row, query: seq<T>, filters: Option<seq<FilterField>>): (r: seq<T>)
    ensures filters.None? ==> r == query
    ensures filters.Some? && |Conditions(schema, filters.value)| == 0 ==> r == query
    ensures r == Seqs.Filter(x => Matches(schema, filters, view(x)), query)
  {
    match filters
    case None =>
      Seqs.FilterAll(x => Matches(schema, filters, view(x)), query);
      query
    case Some(fields) =>
      var cs := Conditions(schema, fields);
      if |cs| == 0 then
        Seqs.FilterAll(x => Matches(schema, filters, view(x)), query);
        query
      else
        Seqs.FilterExt(x => HoldsAll(view(x), cs), x => Matches(schema, filters, view(x)), query);
        Seqs.Filter(x => HoldsAll(view(x), cs), query)
  }

  /** The result is an order-preserving subsequence of the query holding
      exactly the rows that pass the filter. */
  lemma ApplyFiltersSelects<T>(schema: Schema, view: T -> Row, query: seq<T>, filters: Option<seq<FilterField>>, x: T)
    ensures Seqs.IsSubseq(ApplyFilters(schema, view, query, filters), query)
    ensures x in ApplyFilters(schema, view, query, filters) <==> x in query && Matches(schema, filters, view(x))
  {
    Seqs.FilterIsSubseq(x => Matches(schema, filters, view(x)), query);
    Seqs.FilterMembership(x => Matches(schema, filters, view(x)), query, x);
  }

  /** The result keeps the query's order and drops rows only. */
  lemma ApplyFiltersSubseq<T>(schema: Schema, view: T -> Row, query: seq<T>, filters: Option<seq<FilterField>>)
    ensures Seqs.IsSubseq(ApplyFilters(schema, view, query, filters), query)
  {
    Seqs.FilterIsSubseq(x => Matches(schema, filters, view(x)), query);
  }

  /** Any predicate that agrees with the filter on every value selects the
      same subsequence. */
  lemma ApplyFiltersAs<T>(schema: Schema, view: T -> Row, query: seq<T>, filters: Option<seq<FilterField>>, q: T -> bool)
    requires forall x :: Matches(schema, filters, view(x)) == q(x)
    ensures ApplyFilters(schema, view, query, filters) == Seqs.Filter(q, query)
  {
    Seqs.FilterExt(x => Matches(schema, filters, view(x)), q, query);
  }

  lemma {:induction false} ConditionsAppend(schema: Schema, a: seq<FilterField>, b: seq<FilterField>)
    ensures Conditions(schema, a + b) == Conditions(schema, a) + Conditions(schema, b)
    decreases |a|
  {
    if |a| == 0 {
      assert a + b == b;
    } else {
      var ab := a + b;
      assert ab[0] == a[0] && ab[1..] == a[1..] + b;
      ConditionsAppend(schema, a[1..], b);
      calc {
        Conditions(schema, ab);
        FieldConditions(schema, a[0]) + Conditions(schema, a[1..] + b);
        FieldConditions(schema, a[0]) + (Conditions(schema, a[1..]) + Conditions(schema, b));
        Conditions(schema, a) + Conditions(schema, b);
      }
    }
  }

  /** The conditions of four fields are theirs, in order. */
  lemma ConditionsOfFour(schema: Schema, a: seq<FilterField>)
    requires |a| == 4
    ensures Conditions(schema, a)
         == FieldConditions(schema, a[0]) + FieldConditions(schema, a[1])
          + FieldConditions(schema, a[2]) + FieldConditions(schema, a[3])
  {
    assert a[1..][0] == a[1] && a[2..][0] == a[2] && a[3..][0] == a[3];
    assert a[1..][1..] == a[2..] && a[2..][1..] == a[3..] && |a[3..][1..]| == 0;
    var c0, c1, c2, c3 := FieldConditions(schema, a[0]), FieldConditions(schema, a[1]),
                          FieldConditions(schema, a[2]), FieldConditions(schema, a[3]);
    assert Conditions(schema, a[3..]) == c3;
    assert Conditions(schema, a[2..]) == c2 + c3;
    assert Conditions(schema, a[1..]) == c1 + (c2 + c3);
    assert Conditions(schema, a) == c0 + (c1 + (c2 + c3));
  }

  /** `Lookup` finds the first member of that name. */
  lemma {:induction false} LookupFirst(members: seq<Member>, name: string, i: nat)
    requires i < |members| && members[i].name == name
    requires forall j :: 0 <= j < i ==> members[j].name != name
    ensures Lookup(members, name) == Some(members[i].value)
    decreases i
  {
    if i > 0 {
      LookupFirst(members[1..], name, i - 1);
    }
  }

  /** A field whose value is null can be dropped without changing anything. */
  lemma NullFieldContributesNothing(schema: Schema, a: seq<FilterField>, name: string, b: seq<FilterField>)
    ensures Conditions(schema, a + [FilterField(name, None)] + b) == Conditions(schema, a + b)
  {
    ConditionsAppend(schema, a + [FilterField(name, None)], b);
    ConditionsAppend(schema, a, [FilterField(name, None)]);
    ConditionsAppend(schema, a, b);
  }

  /** A field whose name resolves to nothing is skipped silently. */
  lemma UnresolvedFieldSkipped(schema: Schema, a: seq<FilterField>, f: FilterField, b: seq<FilterField>)
    requires Resolve(schema, f.name).None?
    ensures Conditions(schema, a + [f] + b) == Conditions(schema, a + b)
  {
    ConditionsAppend(schema, a + [f], b);
    ConditionsAppend(schema, a, [f]);
    ConditionsAppend(schema, a, b);
  }
}
