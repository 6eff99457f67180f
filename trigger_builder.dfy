/**
 * The trigger builder (processor/dll/TriggerDefinitionBuilder.java).
 *
 * `build` checks the name, the trigger type, the table and the statement
 * list, then renders
 * `CREATE [TEMPORARY] TRIGGER TRI_<NAME> <type> ON <TABLE> [FOR EACH ROW] [WHERE (when)] BEGIN... END`
 * with the schema compiler's statement builder. The separator list follows
 * `BEGIN` without a blank, so the body reads `BEGINs1 ;s2 END`, and the
 * condition is introduced by `WHERE`, not `WHEN`.
 */
module TriggerBuilder {
  import opened Text
  import opened Outcomes
  import opened SchemaKinds
  import opened DefinitionUtils
  import opened StatementText
  import opened Definitions
  import DllStatementBuilder

  /** The builder's fields; a null reference is `None`. */
  datatype TriggerSpec = TriggerSpec(
    name: Option<string>, tableName: Option<string>, temporary: bool,
    triggerType: Option<TriggerType>, forEachRow: bool, when: Option<string>,
    statements: Option<seq<string>>)

  const EmptyTrigger: TriggerSpec := TriggerSpec(None, None, false, None, false, None, None)

  const NameEmpty: string := "Trigger's name cannot be empty"
  const TypeNull: string := "Trigger's type cannot be null"
  const TableEmpty: string := "Trigger's table cannot be empty"
  const StatementsNull: string := "Trigger's statement(s) cannot be empty"

  predicate Complete(s: TriggerSpec) {
    Present(s.name) && s.triggerType.Some? && Present(s.tableName) && s.statements.Some?
  }

  /** `validate`: the checks in source order; the first that fails is thrown. */
  function Validate(s: TriggerSpec): (r: Outcome)
    ensures r.Pass? <==> Complete(s)
    ensures !Present(s.name) ==> r == Fail(MappingError(NameEmpty))
    ensures Present(s.name) && s.triggerType.None? ==> r == Fail(MappingError(TypeNull))
    ensures Present(s.name) && s.triggerType.Some? && !Present(s.tableName) ==> r == Fail(MappingError(TableEmpty))
    ensures Present(s.name) && s.triggerType.Some? && Present(s.tableName) && s.statements.None? ==>
              r == Fail(MappingError(StatementsNull))
  {
    NotEmpty(s.name, NameEmpty)
      .Then(NotNull(s.triggerType, TypeNull))
      .Then(NotEmpty(s.tableName, TableEmpty))
      .Then(NotNull(s.statements, StatementsNull))
  }

  /** The words `createStatement` appends before the condition. */
  function HeadWords(s: TriggerSpec): seq<string> {
    LeadWords(s) + TargetWords(s)
  }

  /** `CREATE [TEMPORARY] TRIGGER TRI_<NAME>`. */
  function LeadWords(s: TriggerSpec): seq<string> {
    ["CREATE"] + (if s.temporary then ["TEMPORARY"] else []) + ["TRIGGER", "TRI_" + Upper(s.name.GetOr(""))]
  }

  /** `[<type>] ON <TABLE> [FOR EACH ROW]`. */
  function TargetWords(s: TriggerSpec): seq<string> {
    TypeWords(s) + TableWords(s) + RowWords(s)
  }

  function TypeWords(s: TriggerSpec): seq<string> {
    if s.triggerType.Some? then [TriggerTypeSql(s.triggerType.value)] else []
  }

  function TableWords(s: TriggerSpec): seq<string> {
    ["ON", Upper(s.tableName.GetOr(""))]
  }

  function RowWords(s: TriggerSpec): seq<string> {
    if s.forEachRow then ["FOR", "EACH", "ROW"] else []
  }

  /** The condition: the word WHERE, then the condition between brackets. */
  function WhenBuffer(s: TriggerSpec): string {
    if s.when.Some? then WordText("WHERE") + BetweenBracketText(s.when.value) else ""
  }

  /** The body: BEGIN, the statements separated by `;`, END. */
  function BodyBuffer(s: TriggerSpec): string {
    WordText("BEGIN") + SeparatedText(s.statements.GetOr([]), ';') + WordText("END")
  }

  /** The statement builder's buffer when `createStatement` calls `toString`. */
  function Buffer(s: TriggerSpec): string {
    Words(HeadWords(s)) + WhenBuffer(s) + BodyBuffer(s)
  }

  /** `createStatement`: the trimmed buffer. */
  function Statement(s: TriggerSpec): string {
    Trim(Buffer(s))
  }

  /** `build`: validate, then construct the definition around the rendered statement. */
  function BuildTrigger(s: TriggerSpec): (r: Result<TriggerDefinition>)
    ensures r.Success? <==> Complete(s)
    ensures r.Failure? ==> r.error == Validate(s).error
    ensures r.Success? ==> r.value.name == s.name.value && r.value.tableName == s.tableName.value
                           && r.value.statement == Statement(s)
  {
    var v := Validate(s);
    if v.Fail? then Failure(v.error) else Success(TriggerDefinition(s.name.value, s.tableName.value, Statement(s)))
  }

  // ---------------------------------------------------------------- the statement, in closed form

  /**
   * The statement is the head words joined by blanks, then ` WHERE (when) `
   * iff a condition is set, then ` BEGIN` directly followed by the
   * statements separated by ` ;`, then ` END`. Nothing is trimmed but the
   * first blank, and there is no semicolon after the last statement.
   */
  lemma TriggerStatement(s: TriggerSpec)
    ensures Statement(s) ==
              Join(HeadWords(s), " ") +
              (if s.when.Some? then " WHERE (" + s.when.value + ") " else "") +
              " BEGIN" + SeparatedText(s.statements.GetOr([]), ';') + " END"
  {
    var ws, w, sep := HeadWords(s), WhenBuffer(s), SeparatedText(s.statements.GetOr([]), ';');
    var W, j := Words(ws), Join(ws, " ");
    var body := " BEGIN" + sep + " END";
    assert BodyBuffer(s) == body;
    AppendAssociates2(W, w, body);
    TrimWords(ws, w + body);
    var b := j + (w + body);
    assert b[|b| - 1] == 'D';
    TrimEndVisible(b);
    AppendAssociates4(j, w, " BEGIN", sep, " END");
    AppendAssociates(w, " BEGIN", sep, " END");
    if s.when.Some? {
      WhenText(s.when.value);
    }
  }

  lemma WhenText(e: string)
    ensures WordText("WHERE") + BetweenBracketText(e) == " WHERE (" + e + ") "
  {
  }

  /** Statements free of `;` give one separator fewer than there are statements. */
  lemma BodySeparators(s: TriggerSpec)
    requires s.statements.Some? && s.statements.value != [] && NoChar(s.statements.value, ';')
    ensures CountChar(SeparatedText(s.statements.value, ';'), ';') == |s.statements.value| - 1
  {
    SeparatorCount(s.statements.value, ';');
  }

  /** Statements `a` and `b` without a condition give the body `BEGINa ;b END`. */
  lemma BodyExample(s: TriggerSpec)
    requires s.statements == Some(["a", "b"]) && s.when.None?
    ensures Statement(s) == Join(HeadWords(s), " ") + " BEGINa ;b END"
  {
    TriggerStatement(s);
    JoinOne(["a"], [' ', ';'], "b");
    assert ["a"] + ["b"] == ["a", "b"];
    var j := Join(HeadWords(s), " ");
    AppendAssociates(j, "", " BEGIN", "a ;b");
    AppendAssociates2(j, " BEGIN" + "a ;b", " END");
    assert " BEGIN" + "a ;b" + " END" == " BEGINa ;b END";
  }

  /** A trigger "t" after insert on "x", for each row, opens with these words. */
  lemma HeadExample(s: TriggerSpec)
    requires s.name == Some("t") && s.tableName == Some("x") && !s.temporary
    requires s.triggerType == Some(AFTER_INSERT) && s.forEachRow
    ensures HeadWords(s) == ["CREATE", "TRIGGER", "TRI_T", "AFTER INSERT", "ON", "X", "FOR", "EACH", "ROW"]
  {
    assert Upper("t") == "T";
    assert Upper("x") == "X";
    assert "TRI_" + "T" == "TRI_T";
    assert LeadWords(s) == ["CREATE", "TRIGGER", "TRI_T"];
    assert TargetWords(s) == ["AFTER INSERT", "ON", "X", "FOR", "EACH", "ROW"];
  }

  // ---------------------------------------------------------------- the builder object

  class TriggerDefinitionBuilder {
    var name: Option<string>
    var tableName: Option<string>
    var temporary: bool
    var triggerType: Option<TriggerType>
    var forEachRow: bool
    var when: Option<string>
    var statements: Option<seq<string>>

    function Spec(): TriggerSpec
      reads this
    {
      TriggerSpec(name, tableName, temporary, triggerType, forEachRow, when, statements)
    }

    constructor ()
      ensures Spec() == EmptyTrigger
    {
      name, tableName, temporary, triggerType := None, None, false, None;
      forEachRow, when, statements := false, None, None;
    }

    method SetName(name: Option<string>)
      modifies this
      ensures Spec() == old(Spec()).(name := name)
    {
      this.name := name;
    }

    method SetTableName(tableName: Option<string>)
      modifies this
      ensures Spec() == old(Spec()).(tableName := tableName)
    {
      this.tableName := tableName;
    }

    method SetTemporary(temporary: bool)
      modifies this
      ensures Spec() == old(Spec()).(temporary := temporary)
    {
      this.temporary := temporary;
    }

    method SetTriggerType(triggerType: Option<TriggerType>)
      modifies this
      ensures Spec() == old(Spec()).(triggerType := triggerType)
    {
      this.triggerType := triggerType;
    }

    method SetForEachRow(forEachRow: bool)
      modifies this
      ensures Spec() == old(Spec()).(forEachRow := forEachRow)
    {
      this.forEachRow := forEachRow;
    }

    method SetWhen(when: Option<string>)
      modifies this
      ensures Spec() == old(Spec()).(when := when)
    {
      this.when := when;
    }

    method SetStatements(statements: Option<seq<string>>)
      modifies this
      ensures Spec() == old(Spec()).(statements := statements)
    {
      this.statements := statements;
    }

    /** `build`: the definition, or the exception `validate` throws. */
    method Build() returns (r: Result<TriggerDefinition>)
      ensures r == BuildTrigger(Spec())
    {
      var v := Validate(Spec());
      if v.Fail? {
        return Failure(v.error);
      }
      var statement := CreateStatement();
      r := Success(TriggerDefinition(name.value, tableName.value, statement));
    }

    /** `createStatement`, appending fragment by fragment to a fresh statement builder. */
    method CreateStatement() returns (statement: string)
      requires name.Some? && tableName.Some? && statements.Some?
      ensures statement == Statement(Spec())
    {
      var builder := new DllStatementBuilder.StatementBuilder();
      AppendHead(builder);
      ghost var head := builder.buffer;
      if when.Some? {
        builder.AppendWord("WHERE");
        builder.AppendBetweenBracket(when.value);
        AppendAssociates2(head, WordText("WHERE"), BetweenBracketText(when.value));
      } else {
        assert head + "" == head;
      }
      ghost var conditioned := builder.buffer;
      builder.AppendWord("BEGIN");
      builder.AppendWithSeparator(statements.value, ';');
      builder.AppendWord("END");
      AppendAssociates(conditioned, WordText("BEGIN"), SeparatedText(statements.value, ';'), WordText("END"));
      statement := builder.ToString();
    }

    /** The words before the condition. */
    method AppendHead(builder: DllStatementBuilder.StatementBuilder)
      requires name.Some? && tableName.Some? && builder.buffer == ""
      modifies builder
      ensures builder.buffer == Words(HeadWords(Spec()))
    {
      AppendLead(builder);
      AppendTarget(builder);
      WordsAppend(LeadWords(Spec()), TargetWords(Spec()));
    }

    method AppendLead(builder: DllStatementBuilder.StatementBuilder)
      requires name.Some? && builder.buffer == ""
      modifies builder
      ensures builder.buffer == Words(LeadWords(Spec()))
    {
      ghost var ws: seq<string> := [];
      builder.AppendWord("CREATE");
      WordsSnoc(ws, "CREATE");
      ws := ws + ["CREATE"];
      if temporary {
        builder.AppendWord("TEMPORARY");
        WordsSnoc(ws, "TEMPORARY");
        ws := ws + ["TEMPORARY"];
      }
      var tag := "TRI_" + Upper(name.value);
      builder.AppendWord("TRIGGER");
      WordsSnoc(ws, "TRIGGER");
      ws := ws + ["TRIGGER"];
      builder.AppendWord(tag);
      WordsSnoc(ws, tag);
      ws := ws + [tag];
      assert ws == LeadWords(Spec());
    }

    method AppendTarget(builder: DllStatementBuilder.StatementBuilder)
      requires tableName.Some?
      modifies builder
      ensures builder.buffer == old(builder.buffer) + Words(TargetWords(Spec()))
    {
      ghost var start := builder.buffer;
      AppendType(builder);
      AppendTable(builder);
      AppendRows(builder);
      var s := Spec();
      WordsAppend(TypeWords(s), TableWords(s));
      WordsAppend(TypeWords(s) + TableWords(s), RowWords(s));
      AppendAssociates(start, Words(TypeWords(s)), Words(TableWords(s)), Words(RowWords(s)));
    }

    method AppendType(builder: DllStatementBuilder.StatementBuilder)
      modifies builder
      ensures builder.buffer == old(builder.buffer) + Words(TypeWords(Spec()))
    {
      if triggerType.Some? {
        var sql := TriggerTypeSql(triggerType.value);
        builder.AppendWord(sql);
        assert Words([sql]) == WordText(sql) by {
          WordsSnoc([], sql);
          assert [] + [sql] == [sql];
        }
      } else {
        assert old(builder.buffer) + Words([]) == old(builder.buffer);
      }
    }

    method AppendTable(builder: DllStatementBuilder.StatementBuilder)
      requires tableName.Some?
      modifies builder
      ensures builder.buffer == old(builder.buffer) + Words(TableWords(Spec()))
    {
      var t := Upper(tableName.value);
      builder.AppendWord("ON");
      builder.AppendWord(t);
      assert ["ON", t][..1] == ["ON"];
      assert ["ON"][..0] == [];
      assert Words(["ON", t]) == WordText("ON") + WordText(t);
      AppendAssociates2(old(builder.buffer), WordText("ON"), WordText(t));
    }

    method AppendRows(builder: DllStatementBuilder.StatementBuilder)
      modifies builder
      ensures builder.buffer == old(builder.buffer) + Words(RowWords(Spec()))
    {
      if forEachRow {
        ghost var start := builder.buffer;
        builder.AppendWord("FOR");
        builder.AppendWord("EACH");
        builder.AppendWord("ROW");
        assert ["FOR", "EACH", "ROW"][..2] == ["FOR", "EACH"];
        assert ["FOR", "EACH"][..1] == ["FOR"];
        assert ["FOR"][..0] == [];
        assert Words(["FOR", "EACH", "ROW"]) == WordText("FOR") + WordText("EACH") + WordText("ROW");
        AppendAssociates(start, WordText("FOR"), WordText("EACH"), WordText("ROW"));
      } else {
        assert old(builder.buffer) + Words([]) == old(builder.buffer);
      }
    }
  }
}
