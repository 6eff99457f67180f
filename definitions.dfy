/**
 * The immutable schema definitions the builders produce
 * (processor/dll/{Constraint,Property,Index,Trigger,Type}Definition.java),
 * their `equals`, and their `hashCode` as written and as corrected.
 *
 * Every `equals` compares names ignoring case while every `hashCode` hashes
 * the names as written. A `java.util.HashSet` treats an element as present
 * only when a member has the same hash code AND equals it, so two
 * definitions that differ only in the case of a name both get in. The
 * corrected hash codes hash the upper-cased names; with them the set's
 * duplicate check is exactly the `equals` check, which is the check the
 * builders in this model use.
 */
module Definitions {
  import opened Text
  import opened Outcomes
  import opened SchemaKinds
  import opened DefinitionUtils

  // ---------------------------------------------------------------- values

  /** A column or table constraint; a column constraint may have no name. */
  datatype ConstraintDefinition = ConstraintDefinition(kind: Constraints, name: Option<string>, statement: string)

  /** A mapped column. */
  datatype PropertyDefinition = PropertyDefinition(
    columnName: string, fieldName: string, propertyType: PropertyType,
    dateFormat: Option<string>, statement: string, insertable: bool, updateable: bool)

  datatype IndexDefinition = IndexDefinition(name: string, tableName: string, statement: string)

  datatype TriggerDefinition = TriggerDefinition(name: string, tableName: string, statement: string)

  /** A mapped table; the collections are in insertion order. */
  datatype TypeDefinition = TypeDefinition(
    tableName: string, typeSimpleName: string, typeQualifiedName: string, packageName: string,
    beforeInsertMethod: Option<string>, beforeUpdateMethod: Option<string>, beforeDeleteMethod: Option<string>,
    idColumn: PropertyDefinition, versionColumn: Option<PropertyDefinition>, statement: string,
    properties: seq<PropertyDefinition>, constraints: seq<ConstraintDefinition>,
    triggers: seq<TriggerDefinition>, indexes: seq<IndexDefinition>)

  // ---------------------------------------------------------------- toString

  /** A column's `toString`. */
  function PropertyText(p: PropertyDefinition): string {
    "ColumnModel{columnName='" + p.columnName + "'" + ", type=" + PropertyTypeName(p.propertyType) +
    ", statement=" + p.statement + "}"
  }

  /** An index's `toString`. */
  function IndexText(i: IndexDefinition): string {
    "IndexModel{tableName=" + i.tableName + ", name='" + i.name + "'" + ", statement=" + i.statement + "}"
  }

  /** A trigger's `toString`. */
  function TriggerText(t: TriggerDefinition): string {
    "TriggerModel{name='" + t.name + "'" + ", tableName=" + t.tableName + ", statement=" + t.statement + "}"
  }

  // ---------------------------------------------------------------- equals

  /**
   * Same kind, names equal ignoring case. Java's `equals` dereferences the
   * receiver's name, so a nameless constraint equals nothing here.
   */
  predicate ConstraintEquals(a: ConstraintDefinition, b: ConstraintDefinition) {
    a.name.Some? && b.name.Some? && EqualsIgnoreCase(a.name.value, b.name.value) && a.kind == b.kind
  }

  /** Only the column name counts, ignoring case. */
  predicate PropertyEquals(a: PropertyDefinition, b: PropertyDefinition) {
    EqualsIgnoreCase(a.columnName, b.columnName)
  }

  predicate IndexEquals(a: IndexDefinition, b: IndexDefinition) {
    EqualsIgnoreCase(a.name, b.name) && EqualsIgnoreCase(a.tableName, b.tableName)
  }

  predicate TriggerEquals(a: TriggerDefinition, b: TriggerDefinition) {
    EqualsIgnoreCase(a.name, b.name) && EqualsIgnoreCase(a.tableName, b.tableName)
  }

  predicate TypeEquals(a: TypeDefinition, b: TypeDefinition) {
    EqualsIgnoreCase(a.tableName, b.tableName)
  }

  /** Constraint equality is an equivalence on named constraints and ignores the statement. */
  lemma ConstraintEqualsProperties(a: ConstraintDefinition, b: ConstraintDefinition, c: ConstraintDefinition, s: string)
    ensures a.name.Some? ==> ConstraintEquals(a, a)
    ensures ConstraintEquals(a, b) ==> ConstraintEquals(b, a)
    ensures ConstraintEquals(a, b) && ConstraintEquals(b, c) ==> ConstraintEquals(a, c)
    ensures ConstraintEquals(a, b) <==> ConstraintEquals(a.(statement := s), b)
    ensures a.name.Some? ==> ConstraintEquals(a, a.(name := Some(Upper(a.name.value))))
    ensures a.kind != b.kind ==> !ConstraintEquals(a, b)
  {
    if a.name.Some? {
      UpperIdempotent(a.name.value);
    }
  }

  /** Property equality is an equivalence that looks only at the column name, ignoring case. */
  lemma PropertyEqualsProperties(a: PropertyDefinition, b: PropertyDefinition, c: PropertyDefinition)
    ensures PropertyEquals(a, a)
    ensures PropertyEquals(a, b) ==> PropertyEquals(b, a)
    ensures PropertyEquals(a, b) && PropertyEquals(b, c) ==> PropertyEquals(a, c)
    ensures PropertyEquals(a, a.(columnName := Upper(a.columnName)))
    ensures a.columnName == b.columnName ==> PropertyEquals(a, b)
  {
    UpperIdempotent(a.columnName);
  }

  lemma IndexEqualsProperties(a: IndexDefinition, b: IndexDefinition, c: IndexDefinition)
    ensures IndexEquals(a, a)
    ensures IndexEquals(a, b) ==> IndexEquals(b, a)
    ensures IndexEquals(a, b) && IndexEquals(b, c) ==> IndexEquals(a, c)
    ensures a.name == b.name && a.tableName == b.tableName ==> IndexEquals(a, b)
  {
  }

  lemma TriggerEqualsProperties(a: TriggerDefinition, b: TriggerDefinition, c: TriggerDefinition)
    ensures TriggerEquals(a, a)
    ensures TriggerEquals(a, b) ==> TriggerEquals(b, a)
    ensures TriggerEquals(a, b) && TriggerEquals(b, c) ==> TriggerEquals(a, c)
    ensures a.name == b.name && a.tableName == b.tableName ==> TriggerEquals(a, b)
  {
  }

  lemma TypeEqualsProperties(a: TypeDefinition, b: TypeDefinition, c: TypeDefinition)
    ensures TypeEquals(a, a)
    ensures TypeEquals(a, b) ==> TypeEquals(b, a)
    ensures TypeEquals(a, b) && TypeEquals(b, c) ==> TypeEquals(a, c)
  {
  }

  // ---------------------------------------------------------------- hashCode, as written

  /**
   * `31 * type.hashCode() + name.hashCode()`. An enum constant's hash code is
   * its identity hash, so it is a parameter; a nameless constraint throws.
   */
  function ConstraintHashCode(c: ConstraintDefinition, kindHash: int): (r: Result<int>)
    ensures r.Failure? <==> c.name.None?
    ensures r.Failure? ==> r.error == NullPointer
  {
    if c.name.None? then Failure(NullPointer) else Success(Int32(31 * kindHash + StringHashCode(c.name.value)))
  }

  function PropertyHashCode(p: PropertyDefinition): int {
    StringHashCode(p.columnName)
  }

  function IndexHashCode(i: IndexDefinition): int {
    Int32(31 * StringHashCode(i.tableName) + StringHashCode(i.name))
  }

  function TriggerHashCode(t: TriggerDefinition): int {
    Int32(31 * StringHashCode(t.name) + StringHashCode(t.tableName))
  }

  function TypeHashCode(t: TypeDefinition): int {
    StringHashCode(t.tableName)
  }

  // ---------------------------------------------------------------- hashCode, corrected

  function ConstraintHashCodeCorrected(c: ConstraintDefinition, kindHash: int): (r: Result<int>)
    ensures r.Failure? <==> c.name.None?
  {
    if c.name.None? then Failure(NullPointer) else Success(Int32(31 * kindHash + StringHashCode(Upper(c.name.value))))
  }

  function PropertyHashCodeCorrected(p: PropertyDefinition): int {
    StringHashCode(Upper(p.columnName))
  }

  function IndexHashCodeCorrected(i: IndexDefinition): int {
    Int32(31 * StringHashCode(Upper(i.tableName)) + StringHashCode(Upper(i.name)))
  }

  function TriggerHashCodeCorrected(t: TriggerDefinition): int {
    Int32(31 * StringHashCode(Upper(t.name)) + StringHashCode(Upper(t.tableName)))
  }

  function TypeHashCodeCorrected(t: TypeDefinition): int {
    StringHashCode(Upper(t.tableName))
  }

  /** The corrected hash codes agree with `equals`. */
  lemma CorrectedHashCodesAgreeWithEquals(
    c1: ConstraintDefinition, c2: ConstraintDefinition, kindHash: int,
    p1: PropertyDefinition, p2: PropertyDefinition,
    i1: IndexDefinition, i2: IndexDefinition,
    t1: TriggerDefinition, t2: TriggerDefinition,
    d1: TypeDefinition, d2: TypeDefinition)
    ensures ConstraintEquals(c1, c2) ==> ConstraintHashCodeCorrected(c1, kindHash) == ConstraintHashCodeCorrected(c2, kindHash)
    ensures PropertyEquals(p1, p2) ==> PropertyHashCodeCorrected(p1) == PropertyHashCodeCorrected(p2)
    ensures IndexEquals(i1, i2) ==> IndexHashCodeCorrected(i1) == IndexHashCodeCorrected(i2)
    ensures TriggerEquals(t1, t2) ==> TriggerHashCodeCorrected(t1) == TriggerHashCodeCorrected(t2)
    ensures TypeEquals(d1, d2) ==> TypeHashCodeCorrected(d1) == TypeHashCodeCorrected(d2)
  {
  }

  // ---------------------------------------------------------------- java.util.HashSet

  /**
   * `HashSet.add`: the element goes in unless a member has the same hash
   * code and equals it (HashMap compares the stored hash before it calls
   * `equals`, and its bit spreading is one-to-one).
   */
  function HashSetAdd<E>(members: seq<E>, element: E, hash: E -> int, equals: (E, E) -> bool): (added: bool)
  {
    !exists i :: 0 <= i < |members| && hash(members[i]) == hash(element) && equals(element, members[i])
  }

  /** With a hash code that agrees with `equals`, the set's check is the `equals` check. */
  lemma ConsistentHashSetAdd<E>(members: seq<E>, element: E, hash: E -> int, equals: (E, E) -> bool)
    requires forall a, b :: equals(a, b) ==> hash(a) == hash(b)
    ensures HashSetAdd(members, element, hash, equals) <==> !Holds(members, element, equals)
  {
    if Holds(members, element, equals) {
      var i :| 0 <= i < |members| && equals(element, members[i]);
      assert hash(element) == hash(members[i]);
    }
  }

  /** With the corrected hash code, a column set rejects exactly the columns `equals` rejects. */
  lemma CorrectedColumnSetAdd(members: seq<PropertyDefinition>, column: PropertyDefinition)
    ensures HashSetAdd(members, column, PropertyHashCodeCorrected, PropertyEquals) <==> !Holds(members, column, PropertyEquals)
  {
    ConsistentHashSetAdd(members, column, PropertyHashCodeCorrected, PropertyEquals);
  }

  lemma CorrectedIndexSetAdd(members: seq<IndexDefinition>, index: IndexDefinition)
    ensures HashSetAdd(members, index, IndexHashCodeCorrected, IndexEquals) <==> !Holds(members, index, IndexEquals)
  {
    ConsistentHashSetAdd(members, index, IndexHashCodeCorrected, IndexEquals);
  }

  lemma CorrectedTriggerSetAdd(members: seq<TriggerDefinition>, trigger: TriggerDefinition)
    ensures HashSetAdd(members, trigger, TriggerHashCodeCorrected, TriggerEquals) <==> !Holds(members, trigger, TriggerEquals)
  {
    ConsistentHashSetAdd(members, trigger, TriggerHashCodeCorrected, TriggerEquals);
  }

  // ---------------------------------------------------------------- the divergence, exhibited

  lemma HashOfOneLetter(c: char)
    ensures StringHashCode([c]) == c as int
  {
    assert [c][..0] == [];
  }

  /** Wrapping never identifies two values closer than 2^32. */
  lemma Int32Separates(x: int, d: int)
    requires 0 < d < TWO_32
    ensures Int32(x + d) != Int32(x)
  {
  }

  /**
   * A table that already has column "A" accepts a second column "a": the two
   * are equal, but their hash codes (65 and 97) differ, so `addColumn`
   * does not throw.
   */
  lemma AsWrittenColumnSetAcceptsCaseVariant(p: PropertyDefinition)
    requires p.columnName == "A"
    ensures PropertyEquals(p.(columnName := "a"), p)
    ensures HashSetAdd([p], p.(columnName := "a"), PropertyHashCode, PropertyEquals)
  {
    HashOfOneLetter('A');
    HashOfOneLetter('a');
  }

  /** With the corrected hash code the same column is refused. */
  lemma CorrectedColumnSetRefusesCaseVariant(p: PropertyDefinition)
    requires p.columnName == "A"
    ensures !HashSetAdd([p], p.(columnName := "a"), PropertyHashCodeCorrected, PropertyEquals)
  {
    CorrectedColumnSetAdd([p], p.(columnName := "a"));
    assert PropertyEquals(p.(columnName := "a"), [p][0]);
  }

  /** Likewise two constraints "a" and "A" of one kind are equal with different hash codes. */
  lemma AsWrittenConstraintHashDiverges(c: ConstraintDefinition, kindHash: int)
    requires c.name == Some("A")
    ensures ConstraintEquals(c.(name := Some("a")), c)
    ensures ConstraintHashCode(c.(name := Some("a")), kindHash) != ConstraintHashCode(c, kindHash)
  {
    HashOfOneLetter('A');
    HashOfOneLetter('a');
    Int32Separates(31 * kindHash + 65, 32);
  }

  /** Two equal indexes on table "T" named "a" and "A". */
  lemma AsWrittenIndexHashDiverges(i: IndexDefinition)
    requires i.name == "A" && i.tableName == "T"
    ensures IndexEquals(i.(name := "a"), i)
    ensures IndexHashCode(i.(name := "a")) != IndexHashCode(i)
  {
    HashOfOneLetter('A');
    HashOfOneLetter('a');
    HashOfOneLetter('T');
  }

  /** Two equal triggers on table "T" named "a" and "A". */
  lemma AsWrittenTriggerHashDiverges(t: TriggerDefinition)
    requires t.name == "A" && t.tableName == "T"
    ensures TriggerEquals(t.(name := "a"), t)
    ensures TriggerHashCode(t.(name := "a")) != TriggerHashCode(t)
  {
    HashOfOneLetter('A');
    HashOfOneLetter('a');
    HashOfOneLetter('T');
  }

  /** Two equal tables "a" and "A". */
  lemma AsWrittenTypeHashDiverges(d: TypeDefinition)
    requires d.tableName == "A"
    ensures TypeEquals(d.(tableName := "a"), d)
    ensures TypeHashCode(d.(tableName := "a")) != TypeHashCode(d)
  {
    HashOfOneLetter('A');
    HashOfOneLetter('a');
  }
}
