/**
 * The field translation of the annotation processor
 * (processor/PropertyProcessor.java).
 *
 * A field annotated `@Id`, `@Version` or `@Column` becomes a column of the
 * table being built; the first of those annotations present wins. The Java
 * element API is replaced by `FieldElement`: the field's simple name, its
 * type as `typeToString` renders it, whether that type's element is an
 * `@Entity`, and the annotation values with their declared defaults.
 */
module PropertyProcessor {
  import opened Text
  import opened Outcomes
  import opened SchemaKinds
  import opened DefinitionUtils
  import opened Definitions
  import CB = ConstraintBuilder
  import PB = PropertyBuilder
  import IB = IndexBuilder
  import TB = TypeBuilder
  import PU = ProcessorUtils

  // ---------------------------------------------------------------- inputs

  /** A field's type: an array with its component, or any other type by its rendered name. */
  datatype FieldType =
    | ArrayType(componentIsPrimitive: bool, componentName: string)
    | NamedType(name: string)

  /** annotation/Id.java. */
  datatype IdAnnotation = IdAnnotation(name: string, sort: Sort, autoIncrement: bool, onConflict: Conflict)
  const DefaultId: IdAnnotation := IdAnnotation("_id", NONE, true, ROLLBACK)

  /** annotation/Version.java. */
  datatype VersionAnnotation = VersionAnnotation(name: string)
  const DefaultVersion: VersionAnnotation := VersionAnnotation("_version")

  /** annotation/Column.java; its `dateType` is never read. */
  datatype ColumnAnnotation = ColumnAnnotation(
    name: string, notNull: bool, unique: bool, indexed: bool, defaultValue: string,
    collate: string, check: string, dateFormat: string, insertable: bool, updatable: bool)
  const DefaultColumn: ColumnAnnotation :=
    ColumnAnnotation("", false, false, false, "", "", "", "yyyy-MM-dd'T'HH:mm:ss.SSSZ", true, true)

  /** annotation/Unique.java. */
  datatype UniqueAnnotation = UniqueAnnotation(name: string, columns: seq<string>, onConflict: Conflict)

  /** The field-level `@NotNull`: only its conflict clause is read. */
  datatype NotNullAnnotation = NotNullAnnotation(onConflict: Conflict)

  /** annotation/Check.java. */
  datatype CheckAnnotation = CheckAnnotation(name: string, exp: string)

  /** annotation/Index.java. */
  datatype IndexAnnotation = IndexAnnotation(name: string, columns: seq<string>, unique: bool, where: string)

  /** A field of an entity class. */
  datatype FieldElement = FieldElement(
    simpleName: string, fieldType: FieldType, foreignIsEntity: bool,
    id: Option<IdAnnotation>, version: Option<VersionAnnotation>, column: Option<ColumnAnnotation>,
    unique: Option<UniqueAnnotation>, notNull: Option<NotNullAnnotation>,
    check: Option<CheckAnnotation>, index: Option<IndexAnnotation>)

  const IdNotLong: string := "@Id column must be of type long"
  const VersionNotInteger: string := "@Version annotated column must be of type long or int"
  const OnlyByteArrays: string := "Only array of byte are handled"
  const NotAnEntity: string := ""

  // ---------------------------------------------------------------- field types

  /** The lookup `initTypeLookup` fills: each kind and the canonical name of its Java type. */
  const TypeLookup: seq<(PropertyType, string)> := [
    (BOOLEAN, "java.lang.Boolean"), (CHARACTER, "java.lang.Character"), (BYTE, "java.lang.Byte"),
    (SHORT, "java.lang.Short"), (INTEGER, "java.lang.Integer"), (LONG, "java.lang.Long"),
    (FLOAT, "java.lang.Float"), (DOUBLE, "java.lang.Double"), (DATE_LONG, "java.util.Date"),
    (STRING, "java.lang.String"), (BYTE_ARRAY, "byte[]")]

  /** The lookup as a partial function; DATE_STRING has no entry. */
  function LookupName(t: PropertyType): Option<string> {
    match t
    case BOOLEAN => Some("java.lang.Boolean")
    case CHARACTER => Some("java.lang.Character")
    case BYTE => Some("java.lang.Byte")
    case SHORT => Some("java.lang.Short")
    case INTEGER => Some("java.lang.Integer")
    case LONG => Some("java.lang.Long")
    case FLOAT => Some("java.lang.Float")
    case DOUBLE => Some("java.lang.Double")
    case DATE_LONG => Some("java.util.Date")
    case DATE_STRING => None
    case STRING => Some("java.lang.String")
    case BYTE_ARRAY => Some("byte[]")
  }

  /** The first entry whose name is `name`. */
  function FindType(entries: seq<(PropertyType, string)>, name: string): Option<PropertyType>
    decreases |entries|
  {
    if entries == [] then None
    else if entries[0].1 == name then Some(entries[0].0)
    else FindType(entries[1..], name)
  }

  /** `getFieldType`: a byte array, a kind found by name, no kind, or the array exception. */
  function FieldTypeOf(t: FieldType): Result<Option<PropertyType>> {
    match t
    case ArrayType(primitive, component) =>
      if primitive && component == "java.lang.Byte" then Success(Some(BYTE_ARRAY))
      else Failure(MappingError(OnlyByteArrays))
    case NamedType(name) => Success(FindType(TypeLookup, name))
  }

  /** Every entry has the name the partial function gives its kind. */
  lemma {:induction false} FindTypeSound(entries: seq<(PropertyType, string)>, name: string)
    requires forall i :: 0 <= i < |entries| ==> LookupName(entries[i].0) == Some(entries[i].1)
    ensures FindType(entries, name).Some? ==> LookupName(FindType(entries, name).value) == Some(name)
    decreases |entries|
  {
    if entries != [] && entries[0].1 != name {
      FindTypeSound(entries[1..], name);
    }
  }

  /** A kind whose entry is in the list is found by its name. */
  lemma {:induction false} FindTypeComplete(entries: seq<(PropertyType, string)>, t: PropertyType, k: nat)
    requires k < |entries| && entries[k].0 == t
    requires forall i :: 0 <= i < |entries| ==> LookupName(entries[i].0) == Some(entries[i].1)
    ensures FindType(entries, entries[k].1).Some?
    decreases |entries|
  {
    if k > 0 && entries[0].1 != entries[k].1 {
      FindTypeComplete(entries[1..], t, k - 1);
    }
  }

  /** Where a kind sits in the lookup. */
  function LookupIndex(t: PropertyType): nat {
    match t
    case BOOLEAN => 0 case CHARACTER => 1 case BYTE => 2 case SHORT => 3 case INTEGER => 4
    case LONG => 5 case FLOAT => 6 case DOUBLE => 7 case DATE_LONG => 8 case STRING => 9
    case BYTE_ARRAY => 10 case DATE_STRING => 0
  }

  /** The lookup holds exactly the kinds the partial function names. */
  lemma LookupEntries()
    ensures forall i :: 0 <= i < |TypeLookup| ==> LookupName(TypeLookup[i].0) == Some(TypeLookup[i].1)
    ensures forall t: PropertyType :: t != DATE_STRING ==>
              LookupIndex(t) < |TypeLookup| && TypeLookup[LookupIndex(t)].0 == t
  {
  }

  /** The names of distinct kinds differ. */
  lemma LookupNamesDistinct(a: PropertyType, b: PropertyType)
    requires LookupName(a).Some? && LookupName(a) == LookupName(b)
    ensures a == b
  {
  }

  /**
   * The kind found for a name is the one kind whose canonical name it is,
   * so the map's iteration order does not matter; DATE_STRING is never found.
   */
  lemma FieldTypeByName(name: string, t: PropertyType)
    ensures FieldTypeOf(NamedType(name)) == Success(Some(t)) <==> LookupName(t) == Some(name)
    ensures FieldTypeOf(NamedType(name)) != Success(Some(DATE_STRING))
  {
    LookupEntries();
    FindTypeExact(TypeLookup, name, t, LookupIndex(t));
  }

  /** In a list that agrees with the partial function and holds `t`, the name finds `t` exactly when it is `t`'s name. */
  lemma FindTypeExact(entries: seq<(PropertyType, string)>, name: string, t: PropertyType, k: nat)
    requires forall i :: 0 <= i < |entries| ==> LookupName(entries[i].0) == Some(entries[i].1)
    requires t != DATE_STRING ==> k < |entries| && entries[k].0 == t
    ensures FindType(entries, name) == Some(t) <==> LookupName(t) == Some(name)
    ensures FindType(entries, name) != Some(DATE_STRING)
  {
    FindTypeSound(entries, name);
    var f := FindType(entries, name);
    if f.Some? && LookupName(t) == Some(name) {
      LookupNamesDistinct(f.value, t);
    }
    if LookupName(t) == Some(name) {
      FindTypeComplete(entries, t, k);
    }
  }

  /** A `java.util.Date` field is stored as DATE_LONG. */
  lemma DateIsDateLong()
    ensures FieldTypeOf(NamedType("java.util.Date")) == Success(Some(DATE_LONG))
  {
    FieldTypeByName("java.util.Date", DATE_LONG);
  }

  /** `getFieldType`, scanning the lookup's entries. */
  method GetFieldType(t: FieldType) returns (r: Result<Option<PropertyType>>)
    ensures r == FieldTypeOf(t)
  {
    if t.ArrayType? {
      if t.componentIsPrimitive && t.componentName == "java.lang.Byte" {
        return Success(Some(BYTE_ARRAY));
      }
      return Failure(MappingError(OnlyByteArrays));
    }
    for i := 0 to |TypeLookup|
      invariant FindType(TypeLookup[i..], t.name) == FindType(TypeLookup, t.name)
    {
      assert TypeLookup[i..][1..] == TypeLookup[i + 1..];
      if t.name == TypeLookup[i].1 {
        return Success(Some(TypeLookup[i].0));
      }
    }
    r := Success(None);
  }

  // ---------------------------------------------------------------- constraints

  /** A fresh column constraint of a kind under a name, as `newColumnConstraint().setType(k).setName(n)`. */
  function ColumnConstraint(kind: Constraints, name: string): (s: CB.ConstraintSpec)
    ensures s.columnConstraint && s.kind == Some(kind) && s.name == Some(name)
  {
    CB.InitialSpec(true).(kind := Some(kind), name := Some(name))
  }

  /** Build a constraint and add it to a column, as `addConstraints(... .build())`. */
  function AddConstraintTo(ps: PB.PropertySpec, spec: CB.ConstraintSpec): (r: Result<PB.PropertySpec>)
    ensures r.Success? ==> CB.BuildConstraint(spec).Success?
    ensures r.Success? ==> r.value == ps.(constraints := ps.constraints + [CB.BuildConstraint(spec).value])
    ensures !CB.Complete(spec) ==> r == Failure(CB.Validate(spec).error)
  {
    var c := CB.BuildConstraint(spec);
    if c.Failure? then Failure(c.error)
    else
      var added := AddOrThrowIfExist(ps.constraints, c.value, ConstraintEquals, PB.ConstraintExists);
      if added.Failure? then Failure(added.error) else Success(ps.(constraints := added.value))
  }

  /** Build and add each constraint in turn; the first exception ends the walk. */
  function AddEach(ps: PB.PropertySpec, specs: seq<CB.ConstraintSpec>): Result<PB.PropertySpec>
    decreases |specs|
  {
    if specs == [] then Success(ps)
    else
      var next := AddConstraintTo(ps, specs[0]);
      if next.Failure? then next else AddEach(next.value, specs[1..])
  }

  /** Walking two lists is walking the first, then, unless it threw, the second. */
  lemma {:induction false} AddEachAppend(ps: PB.PropertySpec, a: seq<CB.ConstraintSpec>, b: seq<CB.ConstraintSpec>)
    ensures AddEach(ps, a + b) == if AddEach(ps, a).Failure? then AddEach(ps, a) else AddEach(AddEach(ps, a).value, b)
    decreases |a|
  {
    if a == [] {
      assert a + b == b;
    } else {
      assert (a + b)[0] == a[0] && (a + b)[1..] == a[1..] + b;
      var next := AddConstraintTo(ps, a[0]);
      if next.Success? {
        AddEachAppend(next.value, a[1..], b);
      }
    }
  }

  /** Every constraint of the list is complete, so each builds. */
  predicate AllComplete(specs: seq<CB.ConstraintSpec>) {
    forall i :: 0 <= i < |specs| ==> CB.Complete(specs[i])
  }

  /** The definitions the constraints build into, in order. */
  function Built(specs: seq<CB.ConstraintSpec>): seq<ConstraintDefinition>
    requires AllComplete(specs)
    decreases |specs|
  {
    if specs == [] then []
    else
      CompleteTail(specs);
      [CB.BuildConstraint(specs[0]).value] + Built(specs[1..])
  }

  /** One definition per constraint, each of its constraint's kind. */
  lemma {:induction false} BuiltKinds(specs: seq<CB.ConstraintSpec>)
    requires AllComplete(specs)
    ensures |Built(specs)| == |specs|
    ensures forall i :: 0 <= i < |specs| ==> Built(specs)[i].kind == specs[i].kind.value
    decreases |specs|
  {
    if specs != [] {
      CompleteTail(specs);
      var head, rest := CB.BuildConstraint(specs[0]).value, Built(specs[1..]);
      BuiltKinds(specs[1..]);
      assert Built(specs) == [head] + rest;
      forall i | 0 <= i < |specs| ensures ([head] + rest)[i].kind == specs[i].kind.value {
        if i > 0 {
          assert ([head] + rest)[i] == rest[i - 1];
          assert specs[1..][i - 1] == specs[i];
        }
      }
    }
  }

  /** The column has no constraint of this kind yet. */
  predicate KindAbsent(cs: seq<ConstraintDefinition>, kind: Constraints) {
    forall i :: 0 <= i < |cs| ==> cs[i].kind != kind
  }

  /** A complete constraint of a kind the column lacks is added. */
  lemma AddFresh(ps: PB.PropertySpec, spec: CB.ConstraintSpec)
    requires CB.Complete(spec) && KindAbsent(ps.constraints, spec.kind.value)
    ensures AddConstraintTo(ps, spec) == Success(ps.(constraints := ps.constraints + [CB.BuildConstraint(spec).value]))
  {
    var c := CB.BuildConstraint(spec);
    assert !Holds(ps.constraints, c.value, ConstraintEquals);
  }

  /** The kinds of the list: each differs from every later one and from the column's. */
  predicate FreshKinds(cs: seq<ConstraintDefinition>, specs: seq<CB.ConstraintSpec>)
    requires forall i :: 0 <= i < |specs| ==> specs[i].kind.Some?
  {
    && (forall i :: 0 <= i < |specs| ==> KindAbsent(cs, specs[i].kind.value))
    && (forall i, j :: 0 <= i < j < |specs| ==> specs[i].kind != specs[j].kind)
  }

  /**
   * Complete constraints of pairwise distinct kinds, none of a kind the
   * column already has, never clash: the walk succeeds and appends one
   * definition per constraint, in order.
   */
  lemma {:induction false} AddEachDistinct(ps: PB.PropertySpec, specs: seq<CB.ConstraintSpec>)
    requires AllComplete(specs) && FreshKinds(ps.constraints, specs)
    ensures AddEach(ps, specs) == Success(ps.(constraints := ps.constraints + Built(specs)))
    decreases |specs|
  {
    if specs == [] {
      assert ps.constraints + Built(specs) == ps.constraints;
    } else {
      var d := CB.BuildConstraint(specs[0]).value;
      AddFresh(ps, specs[0]);
      CompleteTail(specs);
      FreshTail(ps.constraints, d, specs);
      AddEachDistinct(ps.(constraints := ps.constraints + [d]), specs[1..]);
      AppendSeqAssociates(ps.constraints, [d], Built(specs[1..]));
    }
  }

  lemma CompleteTail(specs: seq<CB.ConstraintSpec>)
    requires AllComplete(specs) && specs != []
    ensures AllComplete(specs[1..])
  {
    forall i | 0 <= i < |specs| - 1 ensures CB.Complete(specs[1..][i]) {
      assert specs[1..][i] == specs[i + 1];
    }
  }

  lemma FreshTail(cs: seq<ConstraintDefinition>, d: ConstraintDefinition, specs: seq<CB.ConstraintSpec>)
    requires AllComplete(specs) && specs != [] && FreshKinds(cs, specs) && d.kind == specs[0].kind.value
    ensures AllComplete(specs[1..]) && FreshKinds(cs + [d], specs[1..])
  {
    CompleteTail(specs);
    var rest := specs[1..];
    forall i | 0 <= i < |rest| ensures KindAbsent(cs + [d], rest[i].kind.value) {
      assert rest[i] == specs[i + 1];
    }
    forall i, j | 0 <= i < j < |rest| ensures rest[i].kind != rest[j].kind {
      assert rest[i] == specs[i + 1] && rest[j] == specs[j + 1];
    }
  }

  /** Setting up a column, adding constraints to it, then `build`. */
  function WithConstraints(ps: PB.PropertySpec, specs: seq<CB.ConstraintSpec>): Result<PropertyDefinition> {
    var added := AddEach(ps, specs);
    if added.Failure? then Failure(added.error) else PB.BuildProperty(added.value)
  }

  /** With fresh, complete constraints, only `build` can fail. */
  lemma WithFreshConstraints(ps: PB.PropertySpec, specs: seq<CB.ConstraintSpec>)
    requires AllComplete(specs) && FreshKinds(ps.constraints, specs)
    ensures WithConstraints(ps, specs) == PB.BuildProperty(ps.(constraints := ps.constraints + Built(specs)))
  {
    AddEachDistinct(ps, specs);
  }

  lemma AppendSeqAssociates<T>(a: seq<T>, b: seq<T>, c: seq<T>)
    ensures a + b + c == a + (b + c)
  {
  }

  // ---------------------------------------------------------------- @Id and @Version

  /** The primary key `processId` attaches, from the `@Id` values. */
  function IdConstraint(id: IdAnnotation): CB.ConstraintSpec {
    ColumnConstraint(PRIMARY_KEY, id.name).(autoincrement := id.autoIncrement,
                                           conflictClause := Some(id.onConflict), sort := Some(id.sort))
  }

  /** The one constraint list `processId` adds. */
  function IdConstraints(id: IdAnnotation): seq<CB.ConstraintSpec> {
    [IdConstraint(id)]
  }

  /** The id column before its constraint: named as `@Id` says, not resolved nor upper-cased. */
  function IdSpec(e: FieldElement, id: IdAnnotation): PB.PropertySpec {
    PB.EmptyProperty.(columnName := Some(id.name), fieldName := Some(e.simpleName), propertyType := Some(LONG))
  }

  /** `processId`: the id column, or the exception that stops it. */
  function IdProperty(e: FieldElement, id: IdAnnotation): Result<PropertyDefinition> {
    IdPropertyOf(e, id, FieldTypeOf(e.fieldType))
  }

  /** `processId` once `getFieldType` has given `t`. */
  function IdPropertyOf(e: FieldElement, id: IdAnnotation, t: Result<Option<PropertyType>>): Result<PropertyDefinition> {
    if t.Failure? then Failure(t.error)
    else if t.value != Some(LONG) then Failure(MappingError(IdNotLong))
    else WithConstraints(IdSpec(e, id), IdConstraints(id))
  }

  /** The id column handed to `build`: the spec with its one primary key. */
  function IdColumn(e: FieldElement, id: IdAnnotation): PB.PropertySpec {
    PB.EmptyProperty.(columnName := Some(id.name), fieldName := Some(e.simpleName), propertyType := Some(LONG),
                      constraints := Built(IdConstraints(id)))
  }

  /**
   * Only a `long` field can be the id; it then yields the column built from
   * the annotation's name, the field's name and exactly one primary key.
   */
  lemma IdPropertyFacts(e: FieldElement, id: IdAnnotation, t: Result<Option<PropertyType>>)
    ensures t.Success? && t.value != Some(LONG) ==> IdPropertyOf(e, id, t) == Failure(MappingError(IdNotLong))
    ensures t == Success(Some(LONG)) ==> IdPropertyOf(e, id, t) == PB.BuildProperty(IdColumn(e, id))
  {
    if t == Success(Some(LONG)) {
      var specs := IdConstraints(id);
      assert AllComplete(specs);
      WithFreshConstraints(IdSpec(e, id), specs);
      assert [] + Built(specs) == Built(specs);
    }
  }

  /** The id column builds exactly when the annotation's name and the field name are non-empty. */
  lemma IdColumnBuilds(e: FieldElement, id: IdAnnotation)
    ensures PB.BuildProperty(IdColumn(e, id)).Success? <==> id.name != "" && e.simpleName != ""
    ensures PB.BuildProperty(IdColumn(e, id)).Success? ==>
              && PB.BuildProperty(IdColumn(e, id)).value.columnName == id.name
              && PB.BuildProperty(IdColumn(e, id)).value.propertyType == LONG
  {
  }

  /** The DEFAULT 0 and NOT NULL ON CONFLICT ROLLBACK constraints of a version column. */
  function VersionConstraints(v: VersionAnnotation): seq<CB.ConstraintSpec> {
    [ColumnConstraint(DEFAULT, v.name).(exp := Some("0")),
     ColumnConstraint(NOT_NULL, v.name).(conflictClause := Some(ROLLBACK))]
  }

  function VersionSpec(e: FieldElement, v: VersionAnnotation, t: PropertyType): PB.PropertySpec {
    PB.EmptyProperty.(columnName := Some(v.name), fieldName := Some(e.simpleName), propertyType := Some(t))
  }

  /** The version column handed to `build`. */
  function VersionColumn(e: FieldElement, v: VersionAnnotation, t: PropertyType): PB.PropertySpec {
    VersionSpec(e, v, t).(constraints := Built(VersionConstraints(v)))
  }

  /** `processVersion`: the version column, or the exception that stops it. */
  function VersionProperty(e: FieldElement, v: VersionAnnotation): Result<PropertyDefinition> {
    VersionPropertyOf(e, v, FieldTypeOf(e.fieldType))
  }

  /** `processVersion` once `getFieldType` has given `t`. */
  function VersionPropertyOf(e: FieldElement, v: VersionAnnotation, t: Result<Option<PropertyType>>): Result<PropertyDefinition> {
    if t.Failure? then Failure(t.error)
    else if t.value.None? || (t.value.value != LONG && t.value.value != INTEGER) then
      Failure(MappingError(VersionNotInteger))
    else
      WithConstraints(VersionSpec(e, v, t.value.value), VersionConstraints(v))
  }

  /**
   * Only a `long` or `int` field can be the version (a field of no kind, such
   * as an entity, is refused too); it then yields the column with a DEFAULT
   * and a NOT NULL constraint, in that order.
   */
  lemma VersionPropertyFacts(e: FieldElement, v: VersionAnnotation, t: Result<Option<PropertyType>>)
    ensures t.Success? && (t.value.None? || t.value.value !in {LONG, INTEGER}) ==>
              VersionPropertyOf(e, v, t) == Failure(MappingError(VersionNotInteger))
    ensures t.Success? && t.value.Some? && t.value.value in {LONG, INTEGER} ==>
              VersionPropertyOf(e, v, t) == PB.BuildProperty(VersionColumn(e, v, t.value.value))
  {
    if t.Success? && t.value.Some? && t.value.value in {LONG, INTEGER} {
      var specs := VersionConstraints(v);
      assert AllComplete(specs);
      WithFreshConstraints(VersionSpec(e, v, t.value.value), specs);
      assert [] + Built(specs) == Built(specs);
    }
  }

  /** The version column builds exactly when the annotation's name and the field name are non-empty. */
  lemma VersionColumnBuilds(e: FieldElement, v: VersionAnnotation, t: PropertyType)
    requires t in {LONG, INTEGER}
    ensures PB.BuildProperty(VersionColumn(e, v, t)).Success? <==> v.name != "" && e.simpleName != ""
    ensures |VersionColumn(e, v, t).constraints| == 2
    ensures VersionColumn(e, v, t).constraints[0].kind == DEFAULT
    ensures VersionColumn(e, v, t).constraints[1].kind == NOT_NULL
  {
    assert AllComplete(VersionConstraints(v));
    BuiltKinds(VersionConstraints(v));
  }

  // ---------------------------------------------------------------- @Column

  /** `processDefault`: a DEFAULT constraint only when a default value is declared. */
  function DefaultSpecs(columnName: string, c: ColumnAnnotation): seq<CB.ConstraintSpec> {
    if c.defaultValue != "" then [ColumnConstraint(DEFAULT, columnName).(exp := Some(c.defaultValue))] else []
  }

  /** `processCollate`: a COLLATE constraint only when a collation is declared. */
  function CollateSpecs(columnName: string, c: ColumnAnnotation): seq<CB.ConstraintSpec> {
    if c.collate != "" then [ColumnConstraint(COLLATE, columnName).(exp := Some(c.collate))] else []
  }

  /**
   * `processUnique`: a field `@Unique` wins, named by `resolveUniqueName`
   * and with its own conflict clause; otherwise the `unique` flag adds one
   * named after the column, rolling back on conflict.
   */
  function UniqueSpecs(columnName: string, c: ColumnAnnotation, unique: Option<UniqueAnnotation>): seq<CB.ConstraintSpec> {
    if unique.None? && c.unique then [ColumnConstraint(UNIQUE, columnName).(conflictClause := Some(ROLLBACK))]
    else if unique.Some? then
      [ColumnConstraint(UNIQUE, PU.ResolvedName(unique.value.name, [columnName])).(conflictClause := Some(unique.value.onConflict))]
    else []
  }

  /** `processNotNull`: a field `@NotNull` wins with its conflict clause; otherwise the `notNull` flag rolls back. */
  function NotNullSpecs(columnName: string, c: ColumnAnnotation, notNull: Option<NotNullAnnotation>): seq<CB.ConstraintSpec> {
    if notNull.None? && c.notNull then [ColumnConstraint(NOT_NULL, columnName).(conflictClause := Some(ROLLBACK))]
    else if notNull.Some? then [ColumnConstraint(NOT_NULL, columnName).(conflictClause := Some(notNull.value.onConflict))]
    else []
  }

  /** `processCheck`: a field `@Check` wins, even with an empty expression; otherwise a non-empty `check` value. */
  function CheckSpecs(columnName: string, c: ColumnAnnotation, check: Option<CheckAnnotation>): seq<CB.ConstraintSpec> {
    if check.None? && c.check != "" then [ColumnConstraint(CHECK, columnName).(exp := Some(c.check))]
    else if check.Some? then [ColumnConstraint(CHECK, columnName).(exp := Some(check.value.exp))]
    else []
  }

  /** The column's constraints, in the order `processColumn` adds them. */
  function ColumnConstraintSpecs(columnName: string, c: ColumnAnnotation, e: FieldElement): seq<CB.ConstraintSpec> {
    LeadSpecs(columnName, c, e) + CheckSpecs(columnName, c, e.check)
  }

  /** The constraints before the CHECK. */
  function LeadSpecs(columnName: string, c: ColumnAnnotation, e: FieldElement): seq<CB.ConstraintSpec> {
    DefaultSpecs(columnName, c) + CollateSpecs(columnName, c) + UniqueSpecs(columnName, c, e.unique) +
    NotNullSpecs(columnName, c, e.notNull)
  }

  /**
   * `processIndexed`: a field `@Index`, or else the `indexed` flag, asks for
   * a one-column index named after the column. Only the annotation sets a
   * `where`; its own name, columns and unique flag are never read.
   */
  function IndexSpecFor(columnName: string, tableName: string, c: ColumnAnnotation, index: Option<IndexAnnotation>): Option<IB.IndexSpec> {
    var shorthand := IB.IndexSpec(Some(columnName), Some(tableName), false, Some([columnName]), None);
    if index.None? && c.indexed then Some(shorthand)
    else if index.Some? then Some(shorthand.(where := Some(index.value.where)))
    else None
  }

  /** What a step of the processor leaves: its outcome and the table builder's fields. */
  datatype Effect = Effect(outcome: Outcome, table: TB.TypeSpec)

  /** `tableBuilder.addIndex(... .build())`, when an index is asked for. */
  function IndexEffect(table: TB.TypeSpec, index: Option<IB.IndexSpec>): Effect {
    if index.None? then Effect(Pass, table)
    else
      var built := IB.BuildIndex(index.value);
      if built.Failure? then Effect(Fail(built.error), table)
      else
        var added := AddOrThrowIfExist(table.indexes, built.value, IndexEquals, TB.IndexExists(built.value));
        if added.Failure? then Effect(Fail(added.error), table) else Effect(Pass, table.(indexes := added.value))
  }

  /** `tableBuilder.addColumn(columnBuilder.build())`. */
  function AddColumnEffect(table: TB.TypeSpec, column: PB.PropertySpec): Effect {
    var built := PB.BuildProperty(column);
    if built.Failure? then Effect(Fail(built.error), table)
    else
      var added := AddOrThrowIfExist(table.columns, built.value, PropertyEquals, TB.ColumnExists(built.value));
      if added.Failure? then Effect(Fail(added.error), table) else Effect(Pass, table.(columns := added.value))
  }

  /** The column builder before its constraints: names, flags and, for a basic type, its kind. */
  function ColumnBase(e: FieldElement, c: ColumnAnnotation, columnName: string, t: Option<PropertyType>): PB.PropertySpec {
    var named := PB.EmptyProperty.(columnName := Some(columnName), fieldName := Some(e.simpleName),
                                   insertable := c.insertable, updateable := c.updatable);
    if t.None? then named
    else if t.value == DATE_STRING then named.(propertyType := Some(DATE_STRING), dateFormat := Some(c.dateFormat))
    else named.(propertyType := t)
  }

  /**
   * `processColumn` once `getFieldType` has given `t`: a type that is no
   * basic kind must be an entity; then the constraints, the index and the
   * column itself, the first exception ending the walk.
   */
  function ColumnEffectOf(table: TB.TypeSpec, e: FieldElement, c: ColumnAnnotation, tableName: string,
                          t: Result<Option<PropertyType>>): Effect {
    var columnName := PU.ResolveColumnName(e.simpleName, c.name);
    if t.Failure? then Effect(Fail(t.error), table)
    else if t.value.None? && !e.foreignIsEntity then Effect(Fail(MappingError(NotAnEntity)), table)
    else
      ColumnSteps(table, AddEach(ColumnBase(e, c, columnName, t.value), ColumnConstraintSpecs(columnName, c, e)),
                  IndexSpecFor(columnName, tableName, c, e.index))
  }

  /** After the constraints: the index, then the column itself. */
  function ColumnSteps(table: TB.TypeSpec, column: Result<PB.PropertySpec>, index: Option<IB.IndexSpec>): Effect {
    if column.Failure? then Effect(Fail(column.error), table)
    else
      var indexed := IndexEffect(table, index);
      if indexed.outcome.Fail? then indexed else AddColumnEffect(indexed.table, column.value)
  }

  /** `processColumn`. */
  function ColumnEffect(table: TB.TypeSpec, e: FieldElement, c: ColumnAnnotation, tableName: string): Effect {
    ColumnEffectOf(table, e, c, tableName, FieldTypeOf(e.fieldType))
  }

  /** `processId`: the id column replaces whatever the table held. */
  function IdEffect(table: TB.TypeSpec, e: FieldElement, id: IdAnnotation): Effect {
    var p := IdProperty(e, id);
    if p.Failure? then Effect(Fail(p.error), table) else Effect(Pass, table.(idColumn := Some(p.value)))
  }

  /** `processVersion`: the version column replaces whatever the table held. */
  function VersionEffect(table: TB.TypeSpec, e: FieldElement, v: VersionAnnotation): Effect {
    var p := VersionProperty(e, v);
    if p.Failure? then Effect(Fail(p.error), table) else Effect(Pass, table.(versionColumn := Some(p.value)))
  }

  /** `process`: `@Id` first, then `@Version`, then `@Column`; a field with none adds nothing. */
  function FieldEffect(table: TB.TypeSpec, e: FieldElement, tableName: string): Effect {
    if e.id.Some? then IdEffect(table, e, e.id.value)
    else if e.version.Some? then VersionEffect(table, e, e.version.value)
    else if e.column.Some? then ColumnEffect(table, e, e.column.value, tableName)
    else Effect(Pass, table)
  }

  // ---------------------------------------------------------------- what @Column adds

  /**
   * For UNIQUE an explicit `@Unique` beats the `unique` flag: at most one
   * constraint results, the flag alone gives one under the column's
   * name that rolls back, the annotation one under its resolved name with
   * its own conflict clause.
   */
  lemma UniquePrecedence(columnName: string, c: ColumnAnnotation, u: Option<UniqueAnnotation>)
    ensures |UniqueSpecs(columnName, c, u)| == if u.Some? || c.unique then 1 else 0
    ensures u.Some? ==> UniqueSpecs(columnName, c, u) == UniqueSpecs(columnName, c.(unique := !c.unique), u)
    ensures u.None? && c.unique ==> UniqueSpecs(columnName, c, u)[0].name == Some(columnName)
                                     && UniqueSpecs(columnName, c, u)[0].conflictClause == Some(ROLLBACK)
    ensures u.Some? ==> UniqueSpecs(columnName, c, u)[0].name == Some(PU.ResolvedName(u.value.name, [columnName]))
                        && UniqueSpecs(columnName, c, u)[0].conflictClause == Some(u.value.onConflict)
    ensures forall i :: 0 <= i < |UniqueSpecs(columnName, c, u)| ==> UniqueSpecs(columnName, c, u)[i].kind == Some(UNIQUE)
  {
  }

  /** For NOT NULL likewise, except that the name is always the column's. */
  lemma NotNullPrecedence(columnName: string, c: ColumnAnnotation, n: Option<NotNullAnnotation>)
    ensures |NotNullSpecs(columnName, c, n)| == if n.Some? || c.notNull then 1 else 0
    ensures n.Some? ==> NotNullSpecs(columnName, c, n) == NotNullSpecs(columnName, c.(notNull := !c.notNull), n)
    ensures n.None? && c.notNull ==> NotNullSpecs(columnName, c, n)[0].conflictClause == Some(ROLLBACK)
    ensures n.Some? ==> NotNullSpecs(columnName, c, n)[0].conflictClause == Some(n.value.onConflict)
    ensures forall i :: 0 <= i < |NotNullSpecs(columnName, c, n)| ==>
              NotNullSpecs(columnName, c, n)[i].kind == Some(NOT_NULL) && NotNullSpecs(columnName, c, n)[i].name == Some(columnName)
  {
  }

  /** An explicit `@Check` expression wins, even an empty one; the `check` value counts only when non-empty. */
  lemma CheckPrecedence(columnName: string, c: ColumnAnnotation, k: Option<CheckAnnotation>)
    ensures |CheckSpecs(columnName, c, k)| == if k.Some? || c.check != "" then 1 else 0
    ensures k.Some? ==> CheckSpecs(columnName, c, k)[0].exp == Some(k.value.exp)
    ensures k.None? && c.check != "" ==> CheckSpecs(columnName, c, k)[0].exp == Some(c.check)
    ensures forall i :: 0 <= i < |CheckSpecs(columnName, c, k)| ==>
              CheckSpecs(columnName, c, k)[i].kind == Some(CHECK) && CheckSpecs(columnName, c, k)[i].name == Some(columnName)
  {
  }

  /** DEFAULT and COLLATE are added only for a non-empty value, which becomes the expression. */
  lemma DefaultCollateWhenDeclared(columnName: string, c: ColumnAnnotation)
    ensures |DefaultSpecs(columnName, c)| == if c.defaultValue != "" then 1 else 0
    ensures |CollateSpecs(columnName, c)| == if c.collate != "" then 1 else 0
    ensures forall i :: 0 <= i < |DefaultSpecs(columnName, c)| ==>
              DefaultSpecs(columnName, c)[i].kind == Some(DEFAULT) && DefaultSpecs(columnName, c)[i].exp == Some(c.defaultValue)
    ensures forall i :: 0 <= i < |CollateSpecs(columnName, c)| ==>
              CollateSpecs(columnName, c)[i].kind == Some(COLLATE) && CollateSpecs(columnName, c)[i].exp == Some(c.collate)
  {
  }

  /** The order in which `processColumn` adds column constraints, by kind; 0 for the kinds it never adds. */
  function Rank(k: Constraints): nat {
    match k
    case DEFAULT => 1
    case COLLATE => 2
    case UNIQUE => 3
    case NOT_NULL => 4
    case CHECK => 5
    case _ => 0
  }

  /** Every constraint of the list comes before rank `r`. */
  predicate KindsBelow(cs: seq<ConstraintDefinition>, r: nat) {
    forall i :: 0 <= i < |cs| ==> Rank(cs[i].kind) < r
  }

  /** Building the constraints of two lists is building each. */
  lemma {:induction false} BuiltAppend(a: seq<CB.ConstraintSpec>, b: seq<CB.ConstraintSpec>)
    requires AllComplete(a) && AllComplete(b)
    ensures AllComplete(a + b) && Built(a + b) == Built(a) + Built(b)
    decreases |a|
  {
    assert AllComplete(a + b) by {
      forall i | 0 <= i < |a + b| ensures CB.Complete((a + b)[i]) {
        if i >= |a| {
          assert (a + b)[i] == b[i - |a|];
        }
      }
    }
    if a != [] {
      CompleteTail(a);
      assert (a + b)[0] == a[0] && (a + b)[1..] == a[1..] + b;
      BuiltAppend(a[1..], b);
      CompleteTail(a + b);
      AppendSeqAssociates([CB.BuildConstraint(a[0]).value], Built(a[1..]), Built(b));
    } else {
      assert a + b == b;
    }
  }

  /**
   * One step of `processColumn`'s constraint walk: a list of at most one
   * complete constraint whose kind the column lacks adds it.
   */
  lemma AddSegment(ps: PB.PropertySpec, seg: seq<CB.ConstraintSpec>, kind: Constraints, r: nat)
    requires |seg| <= 1 && AllComplete(seg) && (forall i :: 0 <= i < |seg| ==> seg[i].kind == Some(kind))
    requires KindsBelow(ps.constraints, r) && 0 < r <= Rank(kind)
    ensures AddEach(ps, seg) == Success(ps.(constraints := ps.constraints + Built(seg)))
    ensures KindsBelow(ps.constraints + Built(seg), Rank(kind) + 1)
  {
    if seg == [] {
      assert Built(seg) == [];
      assert ps.constraints + [] == ps.constraints;
    } else {
      var d := CB.BuildConstraint(seg[0]).value;
      var next := ps.(constraints := ps.constraints + [d]);
      AddFresh(ps, seg[0]);
      assert seg[1..] == [];
      assert AddEach(ps, seg) == AddEach(next, []);
      CompleteTail(seg);
      assert Built(seg) == [d] + Built([]);
      assert Built([]) == [] && [d] + [] == [d];
      assert AddEach(next, []) == Success(next);
    }
  }

  /** The walk over a list that built cleanly goes on cleanly over one more step. */
  lemma AddSegmentAfter(ps: PB.PropertySpec, pre: seq<CB.ConstraintSpec>, seg: seq<CB.ConstraintSpec>, kind: Constraints, r: nat)
    requires AllComplete(pre) && AddEach(ps, pre) == Success(ps.(constraints := ps.constraints + Built(pre)))
    requires KindsBelow(ps.constraints + Built(pre), r) && 0 < r <= Rank(kind)
    requires |seg| <= 1 && AllComplete(seg) && (forall i :: 0 <= i < |seg| ==> seg[i].kind == Some(kind))
    ensures AllComplete(pre + seg)
    ensures AddEach(ps, pre + seg) == Success(ps.(constraints := ps.constraints + Built(pre + seg)))
    ensures KindsBelow(ps.constraints + Built(pre + seg), Rank(kind) + 1)
  {
    var mid := ps.(constraints := ps.constraints + Built(pre));
    AddSegment(mid, seg, kind, r);
    AddEachAppend(ps, pre, seg);
    BuiltAppend(pre, seg);
    AppendSeqAssociates(ps.constraints, Built(pre), Built(seg));
  }

  /** A list of at most one constraint, all of kind `kind` and complete. */
  predicate Segment(seg: seq<CB.ConstraintSpec>, kind: Constraints) {
    |seg| <= 1 && AllComplete(seg) && forall i :: 0 <= i < |seg| ==> seg[i].kind == Some(kind)
  }

  /** Four segments of increasing rank walk cleanly after constraints of lower rank. */
  lemma FourSegments(ps: PB.PropertySpec, a: seq<CB.ConstraintSpec>, b: seq<CB.ConstraintSpec>,
                     c: seq<CB.ConstraintSpec>, d: seq<CB.ConstraintSpec>, ka: Constraints, kb: Constraints, kc: Constraints, kd: Constraints)
    requires Segment(a, ka) && Segment(b, kb) && Segment(c, kc) && Segment(d, kd)
    requires 0 < Rank(ka) < Rank(kb) < Rank(kc) < Rank(kd) && KindsBelow(ps.constraints, Rank(ka))
    ensures AllComplete(a + b + c + d)
    ensures AddEach(ps, a + b + c + d) == Success(ps.(constraints := ps.constraints + Built(a + b + c + d)))
    ensures KindsBelow(ps.constraints + Built(a + b + c + d), Rank(kd) + 1)
  {
    AddSegment(ps, a, ka, Rank(ka));
    AddSegmentAfter(ps, a, b, kb, Rank(ka) + 1);
    AddSegmentAfter(ps, a + b, c, kc, Rank(kb) + 1);
    AddSegmentAfter(ps, a + b + c, d, kd, Rank(kc) + 1);
  }

  /** The constraints before the CHECK never clash with each other nor with a column that has none of their kinds. */
  lemma LeadSpecsAdd(ps: PB.PropertySpec, columnName: string, c: ColumnAnnotation, e: FieldElement)
    requires KindsBelow(ps.constraints, Rank(DEFAULT))
    ensures AllComplete(LeadSpecs(columnName, c, e))
    ensures AddEach(ps, LeadSpecs(columnName, c, e)) == Success(ps.(constraints := ps.constraints + Built(LeadSpecs(columnName, c, e))))
    ensures KindsBelow(ps.constraints + Built(LeadSpecs(columnName, c, e)), Rank(CHECK))
  {
    var d, o := DefaultSpecs(columnName, c), CollateSpecs(columnName, c);
    var u, n := UniqueSpecs(columnName, c, e.unique), NotNullSpecs(columnName, c, e.notNull);
    DefaultCollateWhenDeclared(columnName, c);
    UniquePrecedence(columnName, c, e.unique);
    NotNullPrecedence(columnName, c, e.notNull);
    assert Segment(d, DEFAULT) && Segment(o, COLLATE) && Segment(u, UNIQUE) && Segment(n, NOT_NULL);
    FourSegments(ps, d, o, u, n, DEFAULT, COLLATE, UNIQUE, NOT_NULL);
  }

  /**
   * `processColumn`'s constraints never clash: they all join the column, in
   * order, unless an explicit `@Check` has an empty expression, which is
   * the only way the walk throws.
   */
  lemma ColumnConstraintsAdd(ps: PB.PropertySpec, columnName: string, c: ColumnAnnotation, e: FieldElement)
    requires KindsBelow(ps.constraints, Rank(DEFAULT))
    ensures var bad := e.check.Some? && e.check.value.exp == "";
            && (bad ==> AddEach(ps, ColumnConstraintSpecs(columnName, c, e)) == Failure(MappingError("Check expression cannot be empty")))
            && (!bad ==> AllComplete(ColumnConstraintSpecs(columnName, c, e)) &&
                         AddEach(ps, ColumnConstraintSpecs(columnName, c, e)) ==
                           Success(ps.(constraints := ps.constraints + Built(ColumnConstraintSpecs(columnName, c, e)))))
  {
    var lead, k := LeadSpecs(columnName, c, e), CheckSpecs(columnName, c, e.check);
    LeadSpecsAdd(ps, columnName, c, e);
    CheckPrecedence(columnName, c, e.check);
    AddEachAppend(ps, lead, k);
    if e.check.Some? && e.check.value.exp == "" {
      var ps4 := ps.(constraints := ps.constraints + Built(lead));
      assert !CB.Complete(k[0]);
      assert AddEach(ps4, k) == AddConstraintTo(ps4, k[0]);
    } else {
      assert AllComplete(k);
      AddSegmentAfter(ps, lead, k, CHECK, Rank(CHECK));
    }
  }


  // ---------------------------------------------------------------- what a field does to the table

  /**
   * `@Id` beats `@Version`, which beats `@Column`: the losing annotations
   * are ignored, and a field with none of the three adds nothing.
   */
  lemma FieldPrecedence(table: TB.TypeSpec, e: FieldElement, tableName: string)
    ensures e.id.Some? ==> FieldEffect(table, e, tableName) == FieldEffect(table, e.(version := None, column := None), tableName)
    ensures e.id.None? && e.version.Some? ==> FieldEffect(table, e, tableName) == FieldEffect(table, e.(column := None), tableName)
    ensures e.id.None? && e.version.None? && e.column.None? ==> FieldEffect(table, e, tableName) == Effect(Pass, table)
  {
    var f := e.(version := None, column := None);
    assert IdProperty(f, f.id.GetOr(DefaultId)) == IdProperty(e, e.id.GetOr(DefaultId)) by {
      assert f.fieldType == e.fieldType && IdSpec(f, DefaultId) == IdSpec(e, DefaultId);
      assert forall id :: IdSpec(f, id) == IdSpec(e, id);
    }
    var g := e.(column := None);
    assert VersionProperty(g, g.version.GetOr(DefaultVersion)) == VersionProperty(e, e.version.GetOr(DefaultVersion)) by {
      assert g.fieldType == e.fieldType;
      assert forall v, t :: VersionSpec(g, v, t) == VersionSpec(e, v, t);
    }
  }

  /** Walking the constraints changes nothing but the constraint set. */
  lemma {:induction false} AddEachKeeps(ps: PB.PropertySpec, specs: seq<CB.ConstraintSpec>)
    ensures AddEach(ps, specs).Success? ==> AddEach(ps, specs).value.(constraints := ps.constraints) == ps
    decreases |specs|
  {
    if specs != [] {
      var next := AddConstraintTo(ps, specs[0]);
      if next.Success? {
        AddEachKeeps(next.value, specs[1..]);
      }
    }
  }

  /**
   * The type rules of `processColumn`: a field whose type is no basic kind
   * throws unless that type is an entity, and even then the column cannot
   * build, since it has no type: such a field always throws.
   */
  lemma ColumnTypeRules(table: TB.TypeSpec, e: FieldElement, c: ColumnAnnotation, tableName: string, t: Result<Option<PropertyType>>)
    ensures t == Success(None) && !e.foreignIsEntity ==>
              ColumnEffectOf(table, e, c, tableName, t) == Effect(Fail(MappingError(NotAnEntity)), table)
    ensures t == Success(None) ==> ColumnEffectOf(table, e, c, tableName, t).outcome.Fail?
  {
    if t == Success(None) && e.foreignIsEntity {
      var columnName := PU.ResolveColumnName(e.simpleName, c.name);
      var base := ColumnBase(e, c, columnName, None);
      AddEachKeeps(base, ColumnConstraintSpecs(columnName, c, e));
    }
  }

  /**
   * `processIndexed` asks for an index exactly when the field has `@Index`
   * or the `indexed` flag: never unique, over the one column, named after
   * it, on the table being built, with a `where` only from the annotation.
   */
  lemma IndexRules(columnName: string, tableName: string, c: ColumnAnnotation, index: Option<IndexAnnotation>)
    ensures IndexSpecFor(columnName, tableName, c, index).Some? <==> index.Some? || c.indexed
    ensures var s := IndexSpecFor(columnName, tableName, c, index);
            s.Some? ==> && s.value.name == Some(columnName) && s.value.tableName == Some(tableName)
                        && s.value.columns == Some([columnName]) && !s.value.unique
                        && (s.value.where.Some? <==> index.Some?)
                        && (index.Some? ==> s.value.where == Some(index.value.where))
  {
  }

  /** Nothing of the `@Index` annotation but its `where` reaches the index, and the `indexed` flag is then ignored. */
  lemma IndexIgnoresAnnotation(columnName: string, tableName: string, c: ColumnAnnotation, i: IndexAnnotation, name: string,
                               columns: seq<string>, unique: bool, indexed: bool)
    ensures IndexSpecFor(columnName, tableName, c, Some(i)) ==
            IndexSpecFor(columnName, tableName, c.(indexed := indexed), Some(i.(name := name, columns := columns, unique := unique)))
  {
  }

  /** Adding an index touches only the indexes, by one index at most, and none on failure. */
  lemma IndexEffectFrame(table: TB.TypeSpec, index: Option<IB.IndexSpec>)
    ensures var r := IndexEffect(table, index);
            && (r.outcome.Fail? ==> r.table == table)
            && (r.outcome.Pass? && index.None? ==> r.table == table)
            && (r.outcome.Pass? && index.Some? ==>
                  IB.BuildIndex(index.value).Success? &&
                  r.table == table.(indexes := table.indexes + [IB.BuildIndex(index.value).value]))
  {
  }

  /** Adding the column touches only the columns: one column joins exactly on success. */
  lemma AddColumnEffectFrame(table: TB.TypeSpec, column: PB.PropertySpec)
    ensures var r := AddColumnEffect(table, column);
            && (r.outcome.Fail? ==> r.table == table)
            && (r.outcome.Pass? <==> PB.BuildProperty(column).Success? && !Holds(table.columns, PB.BuildProperty(column).value, PropertyEquals))
            && (r.outcome.Pass? ==> r.table == table.(columns := table.columns + [PB.BuildProperty(column).value]))
  {
  }

  /** What the last two steps may change. */
  predicate FramedBy(before: TB.TypeSpec, r: Effect) {
    && r.table.(columns := before.columns, indexes := before.indexes) == before
    && |r.table.columns| == |before.columns| + (if r.outcome.Pass? then 1 else 0)
    && r.table.columns[..|before.columns|] == before.columns
    && |before.indexes| <= |r.table.indexes| <= |before.indexes| + 1
    && r.table.indexes[..|before.indexes|] == before.indexes
  }

  lemma ColumnStepsFrame(table: TB.TypeSpec, column: Result<PB.PropertySpec>, index: Option<IB.IndexSpec>)
    ensures FramedBy(table, ColumnSteps(table, column, index))
  {
    if column.Success? {
      IndexEffectFrame(table, index);
      var indexed := IndexEffect(table, index);
      if indexed.outcome.Pass? {
        AddColumnEffectFrame(indexed.table, column.value);
      }
    }
  }

  /**
   * `processColumn` touches only the table's columns and indexes: it adds
   * at most one index, and one column exactly when it succeeds.
   */
  lemma ColumnEffectFrame(table: TB.TypeSpec, e: FieldElement, c: ColumnAnnotation, tableName: string, t: Result<Option<PropertyType>>)
    ensures FramedBy(table, ColumnEffectOf(table, e, c, tableName, t))
  {
    var columnName := PU.ResolveColumnName(e.simpleName, c.name);
    if t.Success? && (t.value.Some? || e.foreignIsEntity) {
      var column := AddEach(ColumnBase(e, c, columnName, t.value), ColumnConstraintSpecs(columnName, c, e));
      ColumnStepsFrame(table, column, IndexSpecFor(columnName, tableName, c, e.index));
    }
  }

  /** The column `processColumn` adds: the base with the annotations' constraints. */
  function AddedColumn(e: FieldElement, c: ColumnAnnotation, t: Option<PropertyType>): PB.PropertySpec
    requires AllComplete(ColumnConstraintSpecs(PU.ResolveColumnName(e.simpleName, c.name), c, e))
  {
    var columnName := PU.ResolveColumnName(e.simpleName, c.name);
    ColumnBase(e, c, columnName, t).(constraints := Built(ColumnConstraintSpecs(columnName, c, e)))
  }

  /**
   * When `processColumn` succeeds, the new column is named by
   * `resolveColumnName`, no column equal to it was there before, and it
   * carries the constraints the annotations ask for.
   */
  lemma ColumnEffectAdds(table: TB.TypeSpec, e: FieldElement, c: ColumnAnnotation, tableName: string, t: Result<Option<PropertyType>>)
    requires ColumnEffectOf(table, e, c, tableName, t).outcome.Pass?
    ensures t.Success? && t.value.Some?
    ensures AllComplete(ColumnConstraintSpecs(PU.ResolveColumnName(e.simpleName, c.name), c, e))
    ensures PB.BuildProperty(AddedColumn(e, c, t.value)).Success?
    ensures var built := PB.BuildProperty(AddedColumn(e, c, t.value)).value;
            && built.columnName == PU.ResolveColumnName(e.simpleName, c.name)
            && ColumnEffectOf(table, e, c, tableName, t).table.columns == table.columns + [built]
            && !Holds(table.columns, built, PropertyEquals)
  {
    var columnName := PU.ResolveColumnName(e.simpleName, c.name);
    ColumnTypeRules(table, e, c, tableName, t);
    var base := ColumnBase(e, c, columnName, t.value);
    var specs := ColumnConstraintSpecs(columnName, c, e);
    var index := IndexSpecFor(columnName, tableName, c, e.index);
    ColumnWalk(e, c, t.value);
    ColumnWalkAdds(table, base, specs, index, AddedColumn(e, c, t.value));
  }

  /** When the constraint walk of `processColumn` passes, it has added every constraint the annotations ask for. */
  lemma ColumnWalk(e: FieldElement, c: ColumnAnnotation, t: Option<PropertyType>)
    ensures var columnName := PU.ResolveColumnName(e.simpleName, c.name);
            var walked := AddEach(ColumnBase(e, c, columnName, t), ColumnConstraintSpecs(columnName, c, e));
            walked.Success? ==> AllComplete(ColumnConstraintSpecs(columnName, c, e)) && walked == Success(AddedColumn(e, c, t))
  {
    var columnName := PU.ResolveColumnName(e.simpleName, c.name);
    var specs := ColumnConstraintSpecs(columnName, c, e);
    ColumnConstraintsAdd(ColumnBase(e, c, columnName, t), columnName, c, e);
    if AllComplete(specs) {
      assert [] + Built(specs) == Built(specs);
    }
  }

  /** A `@Check` with an empty expression makes `processColumn` throw. */
  lemma ColumnCheckEmptyFails(table: TB.TypeSpec, e: FieldElement, c: ColumnAnnotation, tableName: string,
                              t: Result<Option<PropertyType>>)
    ensures e.check.Some? && e.check.value.exp == "" ==> ColumnEffectOf(table, e, c, tableName, t).outcome.Fail?
  {
    var columnName := PU.ResolveColumnName(e.simpleName, c.name);
    if t.Success? && (t.value.Some? || e.foreignIsEntity) {
      ColumnConstraintsAdd(ColumnBase(e, c, columnName, t.value), columnName, c, e);
    }
  }

  /** The walk over complete constraints, then the last two steps, add the walked column. */
  lemma ColumnWalkAdds(table: TB.TypeSpec, base: PB.PropertySpec, specs: seq<CB.ConstraintSpec>, index: Option<IB.IndexSpec>,
                       column: PB.PropertySpec)
    requires ColumnSteps(table, AddEach(base, specs), index).outcome.Pass?
    requires AddEach(base, specs).Failure? || AddEach(base, specs) == Success(column)
    requires column.columnName == base.columnName
    ensures PB.BuildProperty(column).Success?
    ensures var built := PB.BuildProperty(column).value;
            && Some(built.columnName) == base.columnName
            && ColumnSteps(table, AddEach(base, specs), index).table.columns == table.columns + [built]
            && !Holds(table.columns, built, PropertyEquals)
  {
    ColumnStepsAdds(table, AddEach(base, specs), index);
  }

  /** When the last two steps pass, the built column joins the table's columns, which held no equal one. */
  lemma ColumnStepsAdds(table: TB.TypeSpec, column: Result<PB.PropertySpec>, index: Option<IB.IndexSpec>)
    requires ColumnSteps(table, column, index).outcome.Pass?
    ensures column.Success? && PB.BuildProperty(column.value).Success?
    ensures var built := PB.BuildProperty(column.value).value;
            && ColumnSteps(table, column, index).table.columns == table.columns + [built]
            && !Holds(table.columns, built, PropertyEquals)
  {
    IndexEffectFrame(table, index);
    AddColumnEffectFrame(IndexEffect(table, index).table, column.value);
  }

  // ---------------------------------------------------------------- the processor, step by step

  /** A walk over `specs` from `before`: it passes with the builder at its end, or throws its exception. */
  predicate Walked(before: PB.PropertySpec, specs: seq<CB.ConstraintSpec>, r: Outcome, after: PB.PropertySpec) {
    var walked := AddEach(before, specs);
    if walked.Success? then r == Pass && after == walked.value else r == Fail(walked.error)
  }

  /** A `processX` call on the column builder: a walk over its list that leaves the builder unchanged on an exception. */
  predicate Stepped(before: PB.PropertySpec, specs: seq<CB.ConstraintSpec>, r: Outcome, after: PB.PropertySpec) {
    Walked(before, specs, r, after) && (r.Fail? ==> after == before)
  }

  /** `builder.addConstraints(built)`, where `built` is what `build` returned for `spec`. */
  method AddBuiltConstraint(builder: PB.PropertyDefinitionBuilder, ghost spec: CB.ConstraintSpec,
                            built: Result<ConstraintDefinition>) returns (r: Outcome)
    requires builder.Valid() && built == CB.BuildConstraint(spec)
    modifies builder
    ensures builder.Valid()
    ensures Stepped(old(builder.Spec()), [spec], r, builder.Spec())
  {
    ghost var before := builder.Spec();
    assert [spec][1..] == [];
    if built.Failure? {
      return Fail(built.error);
    }
    r := builder.AddConstraints(built.value);
    assert r.Pass? ==> AddEach(before, [spec]) == AddEach(builder.Spec(), []);
  }

  /** `processDefault`. */
  method ProcessDefault(columnName: string, builder: PB.PropertyDefinitionBuilder, column: ColumnAnnotation) returns (r: Outcome)
    requires builder.Valid()
    modifies builder
    ensures builder.Valid()
    ensures Stepped(old(builder.Spec()), DefaultSpecs(columnName, column), r, builder.Spec())
  {
    if column.defaultValue != "" {
      var cb := new CB.ConstraintDefinitionBuilder.NewColumnConstraint();
      cb.SetType(Some(DEFAULT));
      cb.SetName(Some(columnName));
      cb.SetExp(Some(column.defaultValue));
      var built := cb.Build();
      r := AddBuiltConstraint(builder, cb.Spec(), built);
    } else {
      r := Pass;
    }
  }

  /** `processCollate`. */
  method ProcessCollate(columnName: string, builder: PB.PropertyDefinitionBuilder, column: ColumnAnnotation) returns (r: Outcome)
    requires builder.Valid()
    modifies builder
    ensures builder.Valid()
    ensures Stepped(old(builder.Spec()), CollateSpecs(columnName, column), r, builder.Spec())
  {
    if column.collate != "" {
      var cb := new CB.ConstraintDefinitionBuilder.NewColumnConstraint();
      cb.SetType(Some(COLLATE));
      cb.SetName(Some(columnName));
      cb.SetExp(Some(column.collate));
      var built := cb.Build();
      r := AddBuiltConstraint(builder, cb.Spec(), built);
    } else {
      r := Pass;
    }
  }

  /** `processUnique`. */
  method ProcessUnique(columnName: string, builder: PB.PropertyDefinitionBuilder, column: ColumnAnnotation,
                       unique: Option<UniqueAnnotation>) returns (r: Outcome)
    requires builder.Valid()
    modifies builder
    ensures builder.Valid()
    ensures Stepped(old(builder.Spec()), UniqueSpecs(columnName, column, unique), r, builder.Spec())
  {
    if unique.None? && column.unique {
      var cb := new CB.ConstraintDefinitionBuilder.NewColumnConstraint();
      cb.SetType(Some(UNIQUE));
      cb.SetName(Some(columnName));
      cb.SetConflictClause(Some(ROLLBACK));
      var built := cb.Build();
      r := AddBuiltConstraint(builder, cb.Spec(), built);
    } else if unique.Some? {
      var name := PU.ResolveUniqueName(unique.value.name, [columnName]);
      var cb := new CB.ConstraintDefinitionBuilder.NewColumnConstraint();
      cb.SetType(Some(UNIQUE));
      cb.SetName(Some(name));
      cb.SetConflictClause(Some(unique.value.onConflict));
      var built := cb.Build();
      r := AddBuiltConstraint(builder, cb.Spec(), built);
    } else {
      r := Pass;
    }
  }

  /** `processNotNull`. */
  method ProcessNotNull(columnName: string, builder: PB.PropertyDefinitionBuilder, column: ColumnAnnotation,
                        notNull: Option<NotNullAnnotation>) returns (r: Outcome)
    requires builder.Valid()
    modifies builder
    ensures builder.Valid()
    ensures Stepped(old(builder.Spec()), NotNullSpecs(columnName, column, notNull), r, builder.Spec())
  {
    if notNull.None? && column.notNull {
      var cb := new CB.ConstraintDefinitionBuilder.NewColumnConstraint();
      cb.SetType(Some(NOT_NULL));
      cb.SetName(Some(columnName));
      cb.SetConflictClause(Some(ROLLBACK));
      var built := cb.Build();
      r := AddBuiltConstraint(builder, cb.Spec(), built);
    } else if notNull.Some? {
      var cb := new CB.ConstraintDefinitionBuilder.NewColumnConstraint();
      cb.SetType(Some(NOT_NULL));
      cb.SetName(Some(columnName));
      cb.SetConflictClause(Some(notNull.value.onConflict));
      var built := cb.Build();
      r := AddBuiltConstraint(builder, cb.Spec(), built);
    } else {
      r := Pass;
    }
  }

  /** `processCheck`. */
  method ProcessCheck(columnName: string, builder: PB.PropertyDefinitionBuilder, column: ColumnAnnotation,
                      check: Option<CheckAnnotation>) returns (r: Outcome)
    requires builder.Valid()
    modifies builder
    ensures builder.Valid()
    ensures Stepped(old(builder.Spec()), CheckSpecs(columnName, column, check), r, builder.Spec())
  {
    if check.None? && column.check != "" {
      var cb := new CB.ConstraintDefinitionBuilder.NewColumnConstraint();
      cb.SetType(Some(CHECK));
      cb.SetName(Some(columnName));
      cb.SetExp(Some(column.check));
      var built := cb.Build();
      r := AddBuiltConstraint(builder, cb.Spec(), built);
    } else if check.Some? {
      var cb := new CB.ConstraintDefinitionBuilder.NewColumnConstraint();
      cb.SetType(Some(CHECK));
      cb.SetName(Some(columnName));
      cb.SetExp(Some(check.value.exp));
      var built := cb.Build();
      r := AddBuiltConstraint(builder, cb.Spec(), built);
    } else {
      r := Pass;
    }
  }

  /** `processIndexed`: build the index the field asks for and add it to the table. */
  method ProcessIndexed(columnName: string, tableBuilder: TB.TypeDefinitionBuilder, tableName: string,
                        column: ColumnAnnotation, index: Option<IndexAnnotation>) returns (r: Outcome)
    requires tableBuilder.Valid()
    modifies tableBuilder
    ensures tableBuilder.Valid()
    ensures Effect(r, tableBuilder.Spec()) == IndexEffect(old(tableBuilder.Spec()), IndexSpecFor(columnName, tableName, column, index))
  {
    if (index.None? && column.indexed) || index.Some? {
      var ib := new IB.IndexDefinitionBuilder();
      ib.SetName(Some(columnName));
      ib.SetTableName(Some(tableName));
      ib.SetColumns(Some([columnName]));
      if index.Some? {
        ib.SetWhere(Some(index.value.where));
      }
      var built := ib.Build();
      if built.Failure? {
        return Fail(built.error);
      }
      r := tableBuilder.AddIndex(built.value);
    } else {
      r := Pass;
    }
  }

  /** A `processX` step inside `processColumn`: the walk over what is left goes on from the new builder, or has thrown. */
  lemma WalkOn(before: PB.PropertySpec, step: seq<CB.ConstraintSpec>, rest: seq<CB.ConstraintSpec>, r: Outcome, after: PB.PropertySpec)
    requires Stepped(before, step, r, after)
    ensures r.Pass? ==> AddEach(before, step + rest) == AddEach(after, rest)
    ensures r.Fail? ==> AddEach(before, step + rest) == Failure(r.error)
  {
    AddEachAppend(before, step, rest);
  }

  lemma RightNested<T>(a: seq<T>, b: seq<T>, c: seq<T>, d: seq<T>, e: seq<T>)
    ensures a + b + c + d + e == a + (b + (c + (d + e)))
  {
  }

  /** The constraint steps of `processColumn`, on the column builder. */
  method ProcessColumnConstraints(columnName: string, builder: PB.PropertyDefinitionBuilder, column: ColumnAnnotation,
                                  e: FieldElement) returns (r: Outcome)
    requires builder.Valid()
    modifies builder
    ensures builder.Valid()
    ensures Walked(old(builder.Spec()), ColumnConstraintSpecs(columnName, column, e), r, builder.Spec())
  {
    ghost var d, o := DefaultSpecs(columnName, column), CollateSpecs(columnName, column);
    ghost var u, n := UniqueSpecs(columnName, column, e.unique), NotNullSpecs(columnName, column, e.notNull);
    ghost var k := CheckSpecs(columnName, column, e.check);
    RightNested(d, o, u, n, k);
    ghost var before := builder.Spec();
    r := ProcessDefault(columnName, builder, column);
    WalkOn(before, d, o + (u + (n + k)), r, builder.Spec());
    if r.Fail? {
      return;
    }
    before := builder.Spec();
    r := ProcessCollate(columnName, builder, column);
    WalkOn(before, o, u + (n + k), r, builder.Spec());
    if r.Fail? {
      return;
    }
    before := builder.Spec();
    r := ProcessUnique(columnName, builder, column, e.unique);
    WalkOn(before, u, n + k, r, builder.Spec());
    if r.Fail? {
      return;
    }
    before := builder.Spec();
    r := ProcessNotNull(columnName, builder, column, e.notNull);
    WalkOn(before, n, k, r, builder.Spec());
    if r.Fail? {
      return;
    }
    before := builder.Spec();
    r := ProcessCheck(columnName, builder, column, e.check);
    WalkOn(before, k, [], r, builder.Spec());
    assert k + [] == k;
  }

  /** `processColumn`. */
  method ProcessColumn(e: FieldElement, tableBuilder: TB.TypeDefinitionBuilder, tableName: string,
                       column: ColumnAnnotation) returns (r: Outcome)
    requires tableBuilder.Valid()
    modifies tableBuilder
    ensures tableBuilder.Valid()
    ensures Effect(r, tableBuilder.Spec()) == ColumnEffect(old(tableBuilder.Spec()), e, column, tableName)
  {
    var columnName := PU.ResolveColumnName(e.simpleName, column.name);
    var builder := new PB.PropertyDefinitionBuilder();
    builder.SetColumnName(Some(columnName));
    builder.SetFieldName(Some(e.simpleName));
    builder.SetInsertable(column.insertable);
    builder.SetUpdateable(column.updatable);
    var t := GetFieldType(e.fieldType);
    if t.Failure? {
      return Fail(t.error);
    }
    if t.value.None? {
      if !e.foreignIsEntity {
        return Fail(MappingError(NotAnEntity));
      }
    } else {
      builder.SetPropertyType(t.value);
      if t.value.value == DATE_STRING {
        builder.SetPropertyType(Some(DATE_STRING));
        builder.SetDateFormat(Some(column.dateFormat));
      }
    }
    assert builder.Spec() == ColumnBase(e, column, columnName, t.value);
    ghost var walked := AddEach(builder.Spec(), ColumnConstraintSpecs(columnName, column, e));
    assert ColumnEffect(tableBuilder.Spec(), e, column, tableName) ==
           ColumnSteps(tableBuilder.Spec(), walked, IndexSpecFor(columnName, tableName, column, e.index));
    r := ProcessColumnConstraints(columnName, builder, column, e);
    if r.Fail? {
      return;
    }
    r := FinishColumn(columnName, builder, tableBuilder, tableName, column, e.index);
  }

  /** The end of `processColumn`: the index, then `tableBuilder.addColumn(columnBuilder.build())`. */
  method FinishColumn(columnName: string, builder: PB.PropertyDefinitionBuilder, tableBuilder: TB.TypeDefinitionBuilder,
                      tableName: string, column: ColumnAnnotation, index: Option<IndexAnnotation>) returns (r: Outcome)
    requires tableBuilder.Valid()
    modifies tableBuilder
    ensures tableBuilder.Valid()
    ensures Effect(r, tableBuilder.Spec()) ==
            ColumnSteps(old(tableBuilder.Spec()), Success(builder.Spec()), IndexSpecFor(columnName, tableName, column, index))
  {
    r := ProcessIndexed(columnName, tableBuilder, tableName, column, index);
    if r.Fail? {
      return;
    }
    var built := builder.Build();
    if built.Failure? {
      return Fail(built.error);
    }
    r := tableBuilder.AddColumn(built.value);
  }

  /** The walk that `WithConstraints` ends with `build`, once the builder holds what the walk gave. */
  method BuildWalked(builder: PB.PropertyDefinitionBuilder, ghost start: PB.PropertySpec, ghost specs: seq<CB.ConstraintSpec>)
    returns (r: Result<PropertyDefinition>)
    requires AddEach(start, specs) == Success(builder.Spec())
    ensures r == WithConstraints(start, specs)
  {
    r := builder.Build();
  }

  /** The chain of builder calls in `processId` once the field is known to be a `long`. */
  method BuildIdColumn(e: FieldElement, id: IdAnnotation) returns (p: Result<PropertyDefinition>)
    ensures p == WithConstraints(IdSpec(e, id), IdConstraints(id))
  {
    var builder := new PB.PropertyDefinitionBuilder();
    builder.SetColumnName(Some(id.name));
    builder.SetFieldName(Some(e.simpleName));
    builder.SetPropertyType(Some(LONG));
    assert builder.Spec() == IdSpec(e, id);
    var cb := new CB.ConstraintDefinitionBuilder.NewColumnConstraint();
    cb.SetType(Some(PRIMARY_KEY));
    cb.SetName(Some(id.name));
    cb.SetAutoincrement(id.autoIncrement);
    cb.SetConflictClause(Some(id.onConflict));
    cb.SetSort(Some(id.sort));
    assert cb.Spec() == IdConstraint(id);
    var built := cb.Build();
    var r := AddBuiltConstraint(builder, cb.Spec(), built);
    assert [cb.Spec()] == IdConstraints(id);
    if r.Fail? {
      return Failure(r.error);
    }
    p := BuildWalked(builder, IdSpec(e, id), IdConstraints(id));
  }

  /** `processId`. */
  method ProcessId(e: FieldElement, tableBuilder: TB.TypeDefinitionBuilder, id: IdAnnotation) returns (r: Outcome)
    requires tableBuilder.Valid()
    modifies tableBuilder
    ensures tableBuilder.Valid()
    ensures Effect(r, tableBuilder.Spec()) == IdEffect(old(tableBuilder.Spec()), e, id)
  {
    var t := GetFieldType(e.fieldType);
    if t.Failure? {
      return Fail(t.error);
    }
    if t.value != Some(LONG) {
      return Fail(MappingError(IdNotLong));
    }
    var p := BuildIdColumn(e, id);
    assert p == IdProperty(e, id);
    if p.Failure? {
      return Fail(p.error);
    }
    tableBuilder.SetIdColumn(Some(p.value));
    r := Pass;
  }

  /** Two walks in a row are the walk over both lists. */
  lemma StepTwice(before: PB.PropertySpec, x: seq<CB.ConstraintSpec>, y: seq<CB.ConstraintSpec>, r1: Outcome,
                  mid: PB.PropertySpec, r2: Outcome, after: PB.PropertySpec)
    requires Walked(before, x, r1, mid)
    requires r1.Pass? ==> Walked(mid, y, r2, after)
    ensures r1.Fail? ==> Walked(before, x + y, r1, mid)
    ensures r1.Pass? ==> Walked(before, x + y, r2, after)
  {
    AddEachAppend(before, x, y);
  }

  /** The two `addConstraints` calls of `processVersion`. */
  method AddVersionConstraints(builder: PB.PropertyDefinitionBuilder, version: VersionAnnotation) returns (r: Outcome)
    requires builder.Valid()
    modifies builder
    ensures builder.Valid()
    ensures Walked(old(builder.Spec()), VersionConstraints(version), r, builder.Spec())
  {
    ghost var specs := VersionConstraints(version);
    assert specs == [specs[0]] + [specs[1]];
    ghost var before := builder.Spec();
    var cb := new CB.ConstraintDefinitionBuilder.NewColumnConstraint();
    cb.SetType(Some(DEFAULT));
    cb.SetName(Some(version.name));
    cb.SetExp(Some("0"));
    assert cb.Spec() == specs[0];
    var built := cb.Build();
    var r1 := AddBuiltConstraint(builder, cb.Spec(), built);
    ghost var mid := builder.Spec();
    if r1.Fail? {
      StepTwice(before, [specs[0]], [specs[1]], r1, mid, r1, mid);
      return r1;
    }
    cb := new CB.ConstraintDefinitionBuilder.NewColumnConstraint();
    cb.SetType(Some(NOT_NULL));
    cb.SetName(Some(version.name));
    cb.SetConflictClause(Some(ROLLBACK));
    assert cb.Spec() == specs[1];
    built := cb.Build();
    r := AddBuiltConstraint(builder, cb.Spec(), built);
    StepTwice(before, [specs[0]], [specs[1]], r1, mid, r, builder.Spec());
  }

  /** `processVersion`. */
  method ProcessVersion(e: FieldElement, tableBuilder: TB.TypeDefinitionBuilder, version: VersionAnnotation) returns (r: Outcome)
    requires tableBuilder.Valid()
    modifies tableBuilder
    ensures tableBuilder.Valid()
    ensures Effect(r, tableBuilder.Spec()) == VersionEffect(old(tableBuilder.Spec()), e, version)
  {
    var t := GetFieldType(e.fieldType);
    if t.Failure? {
      return Fail(t.error);
    }
    if t.value.None? || (t.value.value != LONG && t.value.value != INTEGER) {
      return Fail(MappingError(VersionNotInteger));
    }
    var builder := new PB.PropertyDefinitionBuilder();
    builder.SetColumnName(Some(version.name));
    builder.SetFieldName(Some(e.simpleName));
    builder.SetPropertyType(t.value);
    ghost var start := builder.Spec();
    assert start == VersionSpec(e, version, t.value.value);
    r := AddVersionConstraints(builder, version);
    if r.Fail? {
      return;
    }
    var p := BuildWalked(builder, start, VersionConstraints(version));
    if p.Failure? {
      return Fail(p.error);
    }
    tableBuilder.SetVersionColumn(Some(p.value));
  }

  /** `process`: `@Id` wins over `@Version`, which wins over `@Column`. */
  method Process(e: FieldElement, tableBuilder: TB.TypeDefinitionBuilder, tableName: string) returns (r: Outcome)
    requires tableBuilder.Valid()
    modifies tableBuilder
    ensures tableBuilder.Valid()
    ensures Effect(r, tableBuilder.Spec()) == FieldEffect(old(tableBuilder.Spec()), e, tableName)
  {
    if e.id.Some? {
      r := ProcessId(e, tableBuilder, e.id.value);
    } else if e.version.Some? {
      r := ProcessVersion(e, tableBuilder, e.version.value);
    } else if e.column.Some? {
      r := ProcessColumn(e, tableBuilder, tableName, e.column.value);
    } else {
      r := Pass;
    }
  }
}
