/**
 * The table builder (processor/dll/TypeDefinitionBuilder.java).
 *
 * The setters record one field each; `addColumn`, `addConstraint`,
 * `addTrigger` and `addIndex` grow the table's four sets in place and throw
 * when an equal element is already there. `build` checks the type's names
 * and its id column, then renders `CREATE [TEMPORARY] TABLE <TABLE> [AS <stmt>]`
 * with the runtime's statement builder. The table name is not validated: a
 * null one makes `createStatement` throw a null pointer exception.
 */
module TypeBuilder {
  import opened Text
  import opened Outcomes
  import opened DefinitionUtils
  import opened StatementText
  import opened Definitions
  import InternalStatementBuilder

  /** The builder's fields; a null reference is `None`. The sets are in insertion order. */
  datatype TypeSpec = TypeSpec(
    tableName: Option<string>, typeSimpleName: Option<string>, typeQualifiedName: Option<string>,
    packageName: Option<string>, beforeInsertMethod: Option<string>, beforeUpdateMethod: Option<string>,
    beforeDeleteMethod: Option<string>, temporary: bool, asStatement: Option<string>,
    idColumn: Option<PropertyDefinition>, versionColumn: Option<PropertyDefinition>,
    columns: seq<PropertyDefinition>, constraints: seq<ConstraintDefinition>,
    triggers: seq<TriggerDefinition>, indexes: seq<IndexDefinition>)

  /** A fresh builder: nothing set, not temporary, four empty sets. */
  const EmptyType: TypeSpec := TypeSpec(None, None, None, None, None, None, None, false, None, None, None, [], [], [], [])

  const QualifiedNameEmpty: string := "Type's qualified name cannot be empty"
  const SimpleNameEmpty: string := "Type's simple name cannot be empty"
  const PackageEmpty: string := "Type's package cannot be empty"
  const IdColumnNull: string := "Type's id column cannot be null"

  /** The messages of the four duplicate checks; a constraint has no `toString` of its own. */
  function ColumnExists(c: PropertyDefinition): string {
    "Column " + PropertyText(c) + " already exist in table"
  }

  function ConstraintExists(identity: string): string {
    "Constraint " + identity + " already exist in table"
  }

  function TriggerExists(t: TriggerDefinition): string {
    "Trigger " + TriggerText(t) + " already exist in table"
  }

  function IndexExists(i: IndexDefinition): string {
    "Index " + IndexText(i) + " already exist in table"
  }

  /** What `validate` demands. */
  predicate Complete(s: TypeSpec) {
    Present(s.typeQualifiedName) && Present(s.typeSimpleName) && Present(s.packageName) && s.idColumn.Some?
  }

  /** `validate`: the checks in source order; the first that fails is thrown. */
  function Validate(s: TypeSpec): (r: Outcome)
    ensures r.Pass? <==> Complete(s)
    ensures !Present(s.typeQualifiedName) ==> r == Fail(MappingError(QualifiedNameEmpty))
    ensures Present(s.typeQualifiedName) && !Present(s.typeSimpleName) ==> r == Fail(MappingError(SimpleNameEmpty))
    ensures Present(s.typeQualifiedName) && Present(s.typeSimpleName) && !Present(s.packageName) ==>
              r == Fail(MappingError(PackageEmpty))
    ensures Present(s.typeQualifiedName) && Present(s.typeSimpleName) && Present(s.packageName) && s.idColumn.None? ==>
              r == Fail(MappingError(IdColumnNull))
  {
    NotEmpty(s.typeQualifiedName, QualifiedNameEmpty)
      .Then(NotEmpty(s.typeSimpleName, SimpleNameEmpty))
      .Then(NotEmpty(s.packageName, PackageEmpty))
      .Then(NotNull(s.idColumn, IdColumnNull))
  }

  /** `CREATE [TEMPORARY] TABLE <TABLE>`. */
  function LeadWords(s: TypeSpec): seq<string> {
    ["CREATE"] + (if s.temporary then ["TEMPORARY"] else []) + ["TABLE", Upper(s.tableName.GetOr(""))]
  }

  /** `AS <stmt>`, only for a statement that is neither null nor empty. */
  function AsWords(s: TypeSpec): seq<string> {
    if Present(s.asStatement) then ["AS", s.asStatement.value] else []
  }

  /** The words `createStatement` appends, in order. */
  function TableWords(s: TypeSpec): seq<string> {
    LeadWords(s) + AsWords(s)
  }

  /** `createStatement`: the builder's trimmed buffer. */
  function Statement(s: TypeSpec): string {
    Trim(Words(TableWords(s)))
  }

  /**
   * `build`: validate, then construct the definition around the rendered
   * statement; rendering a null table name throws.
   */
  function BuildType(s: TypeSpec): (r: Result<TypeDefinition>)
    ensures r.Success? <==> Complete(s) && s.tableName.Some?
    ensures !Complete(s) ==> r.Failure? && r.error == Validate(s).error
    ensures Complete(s) && s.tableName.None? ==> r == Failure(NullPointer)
    ensures r.Success? ==>
              && r.value.tableName == s.tableName.value && r.value.typeSimpleName == s.typeSimpleName.value
              && r.value.typeQualifiedName == s.typeQualifiedName.value && r.value.packageName == s.packageName.value
              && r.value.beforeInsertMethod == s.beforeInsertMethod && r.value.beforeUpdateMethod == s.beforeUpdateMethod
              && r.value.beforeDeleteMethod == s.beforeDeleteMethod
              && r.value.idColumn == s.idColumn.value && r.value.versionColumn == s.versionColumn
              && r.value.statement == Statement(s)
              && r.value.properties == s.columns && r.value.constraints == s.constraints
              && r.value.triggers == s.triggers && r.value.indexes == s.indexes
  {
    var v := Validate(s);
    if v.Fail? then Failure(v.error)
    else if s.tableName.None? then Failure(NullPointer)
    else Success(TypeDefinition(s.tableName.value, s.typeSimpleName.value, s.typeQualifiedName.value,
                                s.packageName.value, s.beforeInsertMethod, s.beforeUpdateMethod,
                                s.beforeDeleteMethod, s.idColumn.value, s.versionColumn, Statement(s),
                                s.columns, s.constraints, s.triggers, s.indexes))
  }

  // ---------------------------------------------------------------- the statement, in closed form

  /**
   * The statement is the words joined by blanks with trailing blanks
   * trimmed. `TEMPORARY` is the second word iff the table is temporary, and
   * the words end with `AS` and the statement iff that statement is neither
   * null nor empty.
   */
  lemma TableStatement(s: TypeSpec)
    ensures Statement(s) == TrimEnd(Join(TableWords(s), " "))
    ensures TableWords(s)[1] == "TEMPORARY" <==> s.temporary
    ensures |TableWords(s)| == 3 + (if s.temporary then 1 else 0) + (if Present(s.asStatement) then 2 else 0)
    ensures var ws := TableWords(s);
            Present(s.asStatement) ==> ws[|ws| - 2] == "AS" && ws[|ws| - 1] == s.asStatement.value
  {
    var ws := TableWords(s);
    assert ws[0] == "CREATE";
    TrimWords(ws, "");
    assert Words(ws) + "" == Words(ws);
    assert Join(ws, " ") + "" == Join(ws, " ");
  }

  /** A temporary table "t" without an AS statement. */
  lemma TemporaryTableExample(s: TypeSpec)
    requires s.tableName == Some("t") && s.temporary && s.asStatement.None?
    ensures Statement(s) == "CREATE TEMPORARY TABLE T"
  {
    assert Upper("t") == "T";
    assert TableWords(s) == ["CREATE", "TEMPORARY", "TABLE", "T"];
    TableStatement(s);
    ExampleJoin();
    TrimEndVisible("CREATE TEMPORARY TABLE T");
  }

  lemma ExampleJoin()
    ensures Join(["CREATE", "TEMPORARY", "TABLE", "T"], " ") == "CREATE TEMPORARY TABLE T"
  {
    JoinThree("CREATE", "TEMPORARY", "TABLE", " ");
    JoinOne(["CREATE", "TEMPORARY", "TABLE"], " ", "T");
    assert ["CREATE", "TEMPORARY", "TABLE"] + ["T"] == ["CREATE", "TEMPORARY", "TABLE", "T"];
    assert "CREATE" + " " + "TEMPORARY" + " " + "TABLE" + " " + "T" == "CREATE TEMPORARY TABLE T";
  }

  // ---------------------------------------------------------------- the builder object

  class TypeDefinitionBuilder {
    var tableName: Option<string>
    var typeSimpleName: Option<string>
    var typeQualifiedName: Option<string>
    var packageName: Option<string>
    var beforeInsertMethod: Option<string>
    var beforeUpdateMethod: Option<string>
    var beforeDeleteMethod: Option<string>
    var temporary: bool
    var asStatement: Option<string>
    var idColumn: Option<PropertyDefinition>
    var versionColumn: Option<PropertyDefinition>
    var columns: seq<PropertyDefinition>
    var constraintDefinitions: seq<ConstraintDefinition>
    var triggers: seq<TriggerDefinition>
    var indexes: seq<IndexDefinition>

    function Spec(): TypeSpec
      reads this
    {
      TypeSpec(tableName, typeSimpleName, typeQualifiedName, packageName, beforeInsertMethod, beforeUpdateMethod,
               beforeDeleteMethod, temporary, asStatement, idColumn, versionColumn,
               columns, constraintDefinitions, triggers, indexes)
    }

    /** None of the four sets holds two equal elements. */
    predicate Valid()
      reads this
    {
      && Distinct(columns, PropertyEquals) && Distinct(constraintDefinitions, ConstraintEquals)
      && Distinct(triggers, TriggerEquals) && Distinct(indexes, IndexEquals)
    }

    constructor ()
      ensures Spec() == EmptyType && Valid()
    {
      tableName, typeSimpleName, typeQualifiedName, packageName := None, None, None, None;
      beforeInsertMethod, beforeUpdateMethod, beforeDeleteMethod := None, None, None;
      temporary, asStatement, idColumn, versionColumn := false, None, None, None;
      columns, constraintDefinitions, triggers, indexes := [], [], [], [];
    }

    method SetTableName(tableName: Option<string>)
      modifies this
      ensures Spec() == old(Spec()).(tableName := tableName)
    {
      this.tableName := tableName;
    }

    method SetTypeSimpleName(typeSimpleName: Option<string>)
      modifies this
      ensures Spec() == old(Spec()).(typeSimpleName := typeSimpleName)
    {
      this.typeSimpleName := typeSimpleName;
    }

    method SetTypeQualifiedName(typeQualifiedName: Option<string>)
      modifies this
      ensures Spec() == old(Spec()).(typeQualifiedName := typeQualifiedName)
    {
      this.typeQualifiedName := typeQualifiedName;
    }

    method SetPackageName(packageName: Option<string>)
      modifies this
      ensures Spec() == old(Spec()).(packageName := packageName)
    {
      this.packageName := packageName;
    }

    method SetBeforeInsertMethod(beforeInsertMethod: Option<string>)
      modifies this
      ensures Spec() == old(Spec()).(beforeInsertMethod := beforeInsertMethod)
    {
      this.beforeInsertMethod := beforeInsertMethod;
    }

    method SetBeforeUpdateMethod(beforeUpdateMethod: Option<string>)
      modifies this
      ensures Spec() == old(Spec()).(beforeUpdateMethod := beforeUpdateMethod)
    {
      this.beforeUpdateMethod := beforeUpdateMethod;
    }

    method SetBeforeDeleteMethod(beforeDeleteMethod: Option<string>)
      modifies this
      ensures Spec() == old(Spec()).(beforeDeleteMethod := beforeDeleteMethod)
    {
      this.beforeDeleteMethod := beforeDeleteMethod;
    }

    method SetTemporary(temporary: bool)
      modifies this
      ensures Spec() == old(Spec()).(temporary := temporary)
    {
      this.temporary := temporary;
    }

    method SetAsStatement(asStatement: Option<string>)
      modifies this
      ensures Spec() == old(Spec()).(asStatement := asStatement)
    {
      this.asStatement := asStatement;
    }

    method SetIdColumn(idColumn: Option<PropertyDefinition>)
      modifies this
      ensures Spec() == old(Spec()).(idColumn := idColumn)
    {
      this.idColumn := idColumn;
    }

    method SetVersionColumn(versionColumn: Option<PropertyDefinition>)
      modifies this
      ensures Spec() == old(Spec()).(versionColumn := versionColumn)
    {
      this.versionColumn := versionColumn;
    }

    /**
     * `addColumn`: the column joins the set, or the call throws and the set
     * is unchanged. The second `add` after the check finds the column there
     * and changes nothing.
     */
    method AddColumn(column: PropertyDefinition) returns (r: Outcome)
      requires Valid()
      modifies this
      ensures Valid()
      ensures Holds(old(columns), column, PropertyEquals) ==>
                r == Fail(MappingError(ColumnExists(column))) && Spec() == old(Spec())
      ensures !Holds(old(columns), column, PropertyEquals) ==>
                r.Pass? && Spec() == old(Spec()).(columns := old(columns) + [column])
    {
      AddKeepsDistinct(columns, column, PropertyEquals, ColumnExists(column));
      var added := AddOrThrowIfExist(columns, column, PropertyEquals, ColumnExists(column));
      if added.Failure? {
        return Fail(added.error);
      }
      PropertyEqualsProperties(column, column, column);
      SetAddAgain(columns, column, PropertyEquals);
      columns := SetAdd(added.value, column, PropertyEquals);
      r := Pass;
    }

    /**
     * `addConstraint`: as `addColumn`. The message renders the constraint
     * with `Object.toString`, which the runtime decides; it is the
     * `identity` parameter.
     */
    method AddConstraint(constraintDefinition: ConstraintDefinition, identity: string) returns (r: Outcome)
      requires Valid()
      modifies this
      ensures Valid()
      ensures Holds(old(constraintDefinitions), constraintDefinition, ConstraintEquals) ==>
                r == Fail(MappingError(ConstraintExists(identity))) && Spec() == old(Spec())
      ensures !Holds(old(constraintDefinitions), constraintDefinition, ConstraintEquals) ==>
                r.Pass? && Spec() == old(Spec()).(constraints := old(constraintDefinitions) + [constraintDefinition])
    {
      var message := ConstraintExists(identity);
      AddKeepsDistinct(constraintDefinitions, constraintDefinition, ConstraintEquals, message);
      var added := AddOrThrowIfExist(constraintDefinitions, constraintDefinition, ConstraintEquals, message);
      if added.Failure? {
        return Fail(added.error);
      }
      constraintDefinitions := added.value;
      r := Pass;
    }

    /** `addTrigger`: as `addColumn`. */
    method AddTrigger(trigger: TriggerDefinition) returns (r: Outcome)
      requires Valid()
      modifies this
      ensures Valid()
      ensures Holds(old(triggers), trigger, TriggerEquals) ==>
                r == Fail(MappingError(TriggerExists(trigger))) && Spec() == old(Spec())
      ensures !Holds(old(triggers), trigger, TriggerEquals) ==>
                r.Pass? && Spec() == old(Spec()).(triggers := old(triggers) + [trigger])
    {
      AddKeepsDistinct(triggers, trigger, TriggerEquals, TriggerExists(trigger));
      var added := AddOrThrowIfExist(triggers, trigger, TriggerEquals, TriggerExists(trigger));
      if added.Failure? {
        return Fail(added.error);
      }
      triggers := added.value;
      r := Pass;
    }

    /** `addIndex`: as `addColumn`. */
    method AddIndex(index: IndexDefinition) returns (r: Outcome)
      requires Valid()
      modifies this
      ensures Valid()
      ensures Holds(old(indexes), index, IndexEquals) ==>
                r == Fail(MappingError(IndexExists(index))) && Spec() == old(Spec())
      ensures !Holds(old(indexes), index, IndexEquals) ==>
                r.Pass? && Spec() == old(Spec()).(indexes := old(indexes) + [index])
    {
      AddKeepsDistinct(indexes, index, IndexEquals, IndexExists(index));
      var added := AddOrThrowIfExist(indexes, index, IndexEquals, IndexExists(index));
      if added.Failure? {
        return Fail(added.error);
      }
      indexes := added.value;
      r := Pass;
    }

    /** `build`: the definition, or the exception `validate` or `createStatement` throws. */
    method Build() returns (r: Result<TypeDefinition>)
      ensures r == BuildType(Spec())
    {
      var v := Validate(Spec());
      if v.Fail? {
        return Failure(v.error);
      }
      if tableName.None? {
        return Failure(NullPointer);
      }
      var statement := CreateStatement();
      r := Success(TypeDefinition(tableName.value, typeSimpleName.value, typeQualifiedName.value, packageName.value,
                                  beforeInsertMethod, beforeUpdateMethod, beforeDeleteMethod, idColumn.value,
                                  versionColumn, statement, columns, constraintDefinitions, triggers, indexes));
    }

    /** `createStatement`, appending word by word to a fresh statement builder. */
    method CreateStatement() returns (statement: string)
      requires tableName.Some?
      ensures statement == Statement(Spec())
    {
      var builder := new InternalStatementBuilder.StatementBuilder();
      AppendLead(builder);
      AppendAs(builder);
      WordsAppend(LeadWords(Spec()), AsWords(Spec()));
      statement := builder.ToString();
    }

    method AppendLead(builder: InternalStatementBuilder.StatementBuilder)
      requires tableName.Some? && builder.buffer == ""
      modifies builder
      ensures builder.buffer == Words(LeadWords(Spec()))
    {
      ghost var ws: seq<string> := [];
      builder.AppendWord("CREATE");
      WordsSnoc(ws, "CREATE");
      ws := ws + ["CREATE"];
      if temporary {
        builder.AppendWord("TEMPORARY");
        WordsSnoc(ws, "TEMPORARY");
        ws := ws + ["TEMPORARY"];
      }
      var t := Upper(tableName.value);
      builder.AppendWord("TABLE");
      WordsSnoc(ws, "TABLE");
      ws := ws + ["TABLE"];
      builder.AppendWord(t);
      WordsSnoc(ws, t);
      ws := ws + [t];
      assert ws == LeadWords(Spec());
    }

    method AppendAs(builder: InternalStatementBuilder.StatementBuilder)
      modifies builder
      ensures builder.buffer == old(builder.buffer) + Words(AsWords(Spec()))
    {
      if asStatement.Some? && asStatement.value != "" {
        var a := asStatement.value;
        builder.AppendWord("AS");
        builder.AppendWord(a);
        assert Words(["AS", a]) == WordText("AS") + WordText(a) by {
          assert ["AS", a][..1] == ["AS"];
          assert ["AS"][..0] == [];
        }
        AppendAssociates2(old(builder.buffer), WordText("AS"), WordText(a));
      } else {
        assert old(builder.buffer) + Words([]) == old(builder.buffer);
      }
    }
  }
}
