/**
 * The column builder (processor/dll/PropertyDefinitionBuilder.java).
 *
 * The builder's setters record one field each and `addConstraints` grows
 * its constraint set in place. `build` validates the fields, then renders
 * the column definition with the schema compiler's statement builder: the
 * upper-cased column name, the storage class of the field kind, then the
 * statement of every constraint, each appended as a word. `PropertySpec` is
 * the value of all the fields together; the class methods are proved to
 * compute what the functions over it say.
 */
module PropertyBuilder {
  import opened Text
  import opened Outcomes
  import opened SchemaKinds
  import opened DefinitionUtils
  import opened StatementText
  import opened Definitions
  import DllStatementBuilder

  /** The builder's fields; a null reference is `None`. The constraint set is in insertion order. */
  datatype PropertySpec = PropertySpec(
    fieldName: Option<string>, columnName: Option<string>, propertyType: Option<PropertyType>,
    dateFormat: Option<string>, insertable: bool, updateable: bool,
    constraints: seq<ConstraintDefinition>)

  /** A fresh builder: nothing set, neither insertable nor updateable, no constraint. */
  const EmptyProperty: PropertySpec := PropertySpec(None, None, None, None, false, false, [])

  const ColumnNameEmpty: string := "Column's name is empty for property "
  const FieldNameEmpty: string := "Column's field is empty for property "
  const TypeNull: string := "Column's type is null  for property "
  const DateFormatRequired: string := "Date format is required for DATE_STRING format for property "
  const ConstraintExists: string := "Constraint already exist for property"

  /** What a column needs in order to build. */
  predicate Complete(s: PropertySpec) {
    && Present(s.columnName) && Present(s.fieldName) && s.propertyType.Some?
    && (s.propertyType.value == DATE_STRING ==> Present(s.dateFormat))
  }

  /** `validate`: the checks in source order; the first that fails is thrown. */
  function Validate(s: PropertySpec): (r: Outcome)
    ensures r.Pass? <==> Complete(s)
    ensures r.Fail? ==> r.error.MappingError?
    ensures !Present(s.columnName) ==> r == Fail(MappingError(ColumnNameEmpty))
    ensures Present(s.columnName) && !Present(s.fieldName) ==> r == Fail(MappingError(FieldNameEmpty))
    ensures Present(s.columnName) && Present(s.fieldName) && s.propertyType.None? ==> r == Fail(MappingError(TypeNull))
    ensures s.propertyType == Some(DATE_STRING) && !Present(s.dateFormat) ==> r.Fail?
  {
    NotEmpty(s.columnName, ColumnNameEmpty)
      .Then(NotEmpty(s.fieldName, FieldNameEmpty))
      .Then(NotNull(s.propertyType, TypeNull))
      .Then(if s.propertyType == Some(DATE_STRING) then NotEmpty(s.dateFormat, DateFormatRequired) else Pass)
  }

  /** The storage class word; a null kind appends nothing. */
  function TypeWords(t: Option<PropertyType>): seq<string> {
    if t.Some? then [MappedType(t.value)] else []
  }

  /** The statements of the constraints, in the set's order. */
  function ConstraintStatements(cs: seq<ConstraintDefinition>): seq<string>
    decreases |cs|
  {
    if cs == [] then [] else ConstraintStatements(cs[..|cs| - 1]) + [cs[|cs| - 1].statement]
  }

  /** The words `getStatement` appends, in order. */
  function StatementWords(s: PropertySpec): seq<string> {
    [Upper(s.columnName.GetOr(""))] + TypeWords(s.propertyType) + ConstraintStatements(s.constraints)
  }

  /** `getStatement`: the builder's trimmed buffer. */
  function Statement(s: PropertySpec): string {
    Trim(Words(StatementWords(s)))
  }

  /** `build`: validate, then construct the definition around the rendered statement. */
  function BuildProperty(s: PropertySpec): (r: Result<PropertyDefinition>)
    ensures r.Success? <==> Complete(s)
    ensures r.Failure? ==> r.error == Validate(s).error
    ensures r.Success? ==> && r.value.columnName == s.columnName.value && r.value.fieldName == s.fieldName.value
                           && r.value.propertyType == s.propertyType.value && r.value.dateFormat == s.dateFormat
                           && r.value.statement == Statement(s)
                           && r.value.insertable == s.insertable && r.value.updateable == s.updateable
  {
    var v := Validate(s);
    if v.Fail? then Failure(v.error)
    else Success(PropertyDefinition(s.columnName.value, s.fieldName.value, s.propertyType.value, s.dateFormat,
                                    Statement(s), s.insertable, s.updateable))
  }

  // ---------------------------------------------------------------- the statement, in closed form

  /** One statement per constraint, each in its place. */
  lemma {:induction false} ConstraintStatementsAt(cs: seq<ConstraintDefinition>)
    ensures |ConstraintStatements(cs)| == |cs|
    ensures forall i :: 0 <= i < |cs| ==> ConstraintStatements(cs)[i] == cs[i].statement
    decreases |cs|
  {
    if cs != [] {
      ConstraintStatementsAt(cs[..|cs| - 1]);
    }
  }

  /**
   * The statement is the upper-cased column name, the storage class and the
   * constraint statements joined by blanks, with trailing blanks trimmed; when
   * the last word ends visibly nothing is trimmed.
   */
  lemma StatementJoined(s: PropertySpec)
    requires Present(s.columnName) && !IsTrimmable(s.columnName.value[0])
    ensures Statement(s) == TrimEnd(Join(StatementWords(s), " "))
    ensures var j := Join(StatementWords(s), " "); !IsTrimmable(j[|j| - 1]) ==> Statement(s) == j
  {
    var ws := StatementWords(s);
    assert ws[0] == Upper(s.columnName.value);
    TrimWords(ws, "");
    assert Words(ws) + "" == Words(ws);
    assert Join(ws, " ") + "" == Join(ws, " ");
    JoinStart(ws, " ");
    var j := Join(ws, " ");
    if !IsTrimmable(j[|j| - 1]) {
      TrimEndVisible(j);
    }
  }

  /** A column "name" of kind STRING with a NOT NULL constraint renders `NAME TEXT NOT NULL`. */
  lemma NotNullColumnExample(s: PropertySpec, c: ConstraintDefinition)
    requires s.columnName == Some("name") && s.propertyType == Some(STRING)
    requires c.statement == "NOT NULL" && s.constraints == [c]
    ensures Statement(s) == "NAME TEXT NOT NULL"
  {
    assert Upper("name") == "NAME";
    assert ConstraintStatements([c]) == ["NOT NULL"] by {
      assert [c][..0] == [];
    }
    assert StatementWords(s) == ["NAME", "TEXT", "NOT NULL"];
    ExampleJoin();
    StatementJoined(s);
  }

  lemma ExampleJoin()
    ensures Join(["NAME", "TEXT", "NOT NULL"], " ") == "NAME TEXT NOT NULL"
  {
    JoinThree("NAME", "TEXT", "NOT NULL", " ");
    assert "NAME" + " " + "TEXT" + " " + "NOT NULL" == "NAME TEXT NOT NULL";
  }

  // ---------------------------------------------------------------- the builder object

  class PropertyDefinitionBuilder {
    var fieldName: Option<string>
    var columnName: Option<string>
    var propertyType: Option<PropertyType>
    var dateFormat: Option<string>
    var insertable: bool
    var updateable: bool
    var constraintDefinitions: seq<ConstraintDefinition>

    function Spec(): PropertySpec
      reads this
    {
      PropertySpec(fieldName, columnName, propertyType, dateFormat, insertable, updateable, constraintDefinitions)
    }

    /** The constraint set holds no two equal constraints. */
    predicate Valid()
      reads this
    {
      Distinct(constraintDefinitions, ConstraintEquals)
    }

    constructor ()
      ensures Spec() == EmptyProperty && Valid()
    {
      fieldName, columnName, propertyType, dateFormat := None, None, None, None;
      insertable, updateable := false, false;
      constraintDefinitions := [];
    }

    method SetFieldName(fieldName: Option<string>)
      modifies this
      ensures Spec() == old(Spec()).(fieldName := fieldName)
    {
      this.fieldName := fieldName;
    }

    method SetColumnName(columnName: Option<string>)
      modifies this
      ensures Spec() == old(Spec()).(columnName := columnName)
    {
      this.columnName := columnName;
    }

    method SetPropertyType(propertyType: Option<PropertyType>)
      modifies this
      ensures Spec() == old(Spec()).(propertyType := propertyType)
    {
      this.propertyType := propertyType;
    }

    method SetDateFormat(dateFormat: Option<string>)
      modifies this
      ensures Spec() == old(Spec()).(dateFormat := dateFormat)
    {
      this.dateFormat := dateFormat;
    }

    method SetInsertable(insertable: bool)
      modifies this
      ensures Spec() == old(Spec()).(insertable := insertable)
    {
      this.insertable := insertable;
    }

    method SetUpdateable(updateable: bool)
      modifies this
      ensures Spec() == old(Spec()).(updateable := updateable)
    {
      this.updateable := updateable;
    }

    /**
     * `addConstraints`: the constraint joins the set, or the call throws
     * and the set is unchanged when an equal constraint is already there.
     */
    method AddConstraints(constraintDefinition: ConstraintDefinition) returns (r: Outcome)
      requires Valid()
      modifies this
      ensures Valid()
      ensures Holds(old(constraintDefinitions), constraintDefinition, ConstraintEquals) ==>
                r == Fail(MappingError(ConstraintExists)) && Spec() == old(Spec())
      ensures !Holds(old(constraintDefinitions), constraintDefinition, ConstraintEquals) ==>
                r.Pass? && Spec() == old(Spec()).(constraints := old(constraintDefinitions) + [constraintDefinition])
    {
      AddKeepsDistinct(constraintDefinitions, constraintDefinition, ConstraintEquals, ConstraintExists);
      var added := AddOrThrowIfExist(constraintDefinitions, constraintDefinition, ConstraintEquals, ConstraintExists);
      if added.Failure? {
        return Fail(added.error);
      }
      constraintDefinitions := added.value;
      r := Pass;
    }

    /** `build`: the definition, or the exception `validate` throws. */
    method Build() returns (r: Result<PropertyDefinition>)
      ensures r == BuildProperty(Spec())
    {
      var v := Validate(Spec());
      if v.Fail? {
        return Failure(v.error);
      }
      var statement := GetStatement();
      r := Success(PropertyDefinition(columnName.value, fieldName.value, propertyType.value, dateFormat,
                                      statement, insertable, updateable));
    }

    /** `getStatement`, appending word by word to a fresh statement builder. */
    method GetStatement() returns (statement: string)
      requires columnName.Some?
      ensures statement == Statement(Spec())
    {
      var builder := new DllStatementBuilder.StatementBuilder();
      var column := Upper(columnName.value);
      builder.AppendWord(column);
      ghost var head := [column];
      WordsSnoc([], column);
      assert [] + [column] == head;
      if propertyType.Some? {
        var mapped := MappedType(propertyType.value);
        builder.AppendWord(mapped);
        WordsSnoc(head, mapped);
        head := head + [mapped];
      }
      assert head == [column] + TypeWords(propertyType);
      AppendConstraintWords(builder, head);
      statement := builder.ToString();
    }

    /** The loop of `getStatement`: each constraint statement appended as a word. */
    method AppendConstraintWords(builder: DllStatementBuilder.StatementBuilder, ghost head: seq<string>)
      requires builder.buffer == Words(head)
      modifies builder
      ensures builder.buffer == Words(head + ConstraintStatements(constraintDefinitions))
    {
      assert constraintDefinitions[..0] == [];
      assert head + ConstraintStatements([]) == head;
      for i := 0 to |constraintDefinitions|
        invariant builder.buffer == Words(head + ConstraintStatements(constraintDefinitions[..i]))
      {
        ghost var before := head + ConstraintStatements(constraintDefinitions[..i]);
        var word := constraintDefinitions[i].statement;
        builder.AppendWord(word);
        WordsSnoc(before, word);
        assert constraintDefinitions[..i + 1][..i] == constraintDefinitions[..i];
        assert head + ConstraintStatements(constraintDefinitions[..i + 1]) == before + [word];
      }
      assert constraintDefinitions[..|constraintDefinitions|] == constraintDefinitions;
    }
  }
}
