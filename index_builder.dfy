/**
 * The index builder (processor/dll/IndexDefinitionBuilder.java).
 *
 * `build` checks the name, the table and the column list, then renders
 * `CREATE [UNIQUE] INDEX <NAME> ON <TABLE> ( c1 ,c2 )` with the schema
 * compiler's statement builder. A `where` clause, when set, appends `WHERE`
 * followed by the index name as given: the `where` text itself is never
 * rendered. The definition keeps the name and table as given.
 */
module IndexBuilder {
  import opened Text
  import opened Outcomes
  import opened DefinitionUtils
  import opened StatementText
  import opened Definitions
  import DllStatementBuilder

  /** The builder's fields; a null reference is `None`. */
  datatype IndexSpec = IndexSpec(
    name: Option<string>, tableName: Option<string>, unique: bool,
    columns: Option<seq<string>>, where: Option<string>)

  const EmptyIndex: IndexSpec := IndexSpec(None, None, false, None, None)

  const NameEmpty: string := "Index's name cannot be empty"
  const TableEmpty: string := "Index's table cannot be empty"
  const ColumnsNull: string := "Index's columns cannot be null"

  predicate Complete(s: IndexSpec) {
    Present(s.name) && Present(s.tableName) && s.columns.Some?
  }

  /** `validate`: the checks in source order; the first that fails is thrown. */
  function Validate(s: IndexSpec): (r: Outcome)
    ensures r.Pass? <==> Complete(s)
    ensures !Present(s.name) ==> r == Fail(MappingError(NameEmpty))
    ensures Present(s.name) && !Present(s.tableName) ==> r == Fail(MappingError(TableEmpty))
    ensures Present(s.name) && Present(s.tableName) && s.columns.None? ==> r == Fail(MappingError(ColumnsNull))
  {
    NotEmpty(s.name, NameEmpty).Then(NotEmpty(s.tableName, TableEmpty)).Then(NotNull(s.columns, ColumnsNull))
  }

  /** The words `createStatement` appends before the column list. */
  function HeadWords(s: IndexSpec): seq<string> {
    ["CREATE"] + (if s.unique then ["UNIQUE"] else []) +
    ["INDEX", Upper(s.name.GetOr("")), "ON", Upper(s.tableName.GetOr(""))]
  }

  /** The words appended after the column list: `WHERE` and the index name. */
  function WhereWords(s: IndexSpec): seq<string> {
    if s.where.Some? then ["WHERE", s.name.GetOr("")] else []
  }

  /** The column list between its brackets. */
  function ColumnsText(s: IndexSpec): string {
    OpenBracketText + SeparatedText(s.columns.GetOr([]), ',') + CloseBracketText
  }

  /** The statement builder's buffer when `createStatement` calls `toString`. */
  function Buffer(s: IndexSpec): string {
    Words(HeadWords(s)) + ColumnsText(s) + Words(WhereWords(s))
  }

  /** `createStatement`: the trimmed buffer. */
  function Statement(s: IndexSpec): string {
    Trim(Buffer(s))
  }

  /** `build`: validate, then construct the definition around the rendered statement. */
  function BuildIndex(s: IndexSpec): (r: Result<IndexDefinition>)
    ensures r.Success? <==> Complete(s)
    ensures r.Failure? ==> r.error == Validate(s).error
    ensures r.Success? ==> r.value.name == s.name.value && r.value.tableName == s.tableName.value
                           && r.value.statement == Statement(s)
  {
    var v := Validate(s);
    if v.Fail? then Failure(v.error) else Success(IndexDefinition(s.name.value, s.tableName.value, Statement(s)))
  }

  // ---------------------------------------------------------------- the statement, in closed form

  /** After the column list's closing bracket, only the WHERE words remain, with their end trimmed. */
  lemma StatementShape(s: IndexSpec)
    ensures Statement(s) == Join(HeadWords(s), " ") + ColumnsText(s) + TrimEnd(Words(WhereWords(s)))
  {
    var ws, c, w := HeadWords(s), ColumnsText(s), Words(WhereWords(s));
    var j := Join(ws, " ");
    TrimWords(ws, c + w);
    AppendAssociates2(Words(ws), c, w);
    AppendAssociates2(j, c, w);
    var p := j + c;
    assert c[|c| - 1] == ')';
    assert p[|p| - 1] == c[|c| - 1];
    TrimEndAfterVisible(p, w);
  }

  /** A WHERE clause renders the keyword and the index name with its end trimmed. */
  lemma WhereText(name: string)
    ensures TrimEnd(Words(["WHERE", name])) == " WHERE" + TrimEnd(" " + name)
  {
    assert ["WHERE", name][..1] == ["WHERE"];
    assert ["WHERE"][..0] == [];
    assert Words(["WHERE", name]) == " WHERE" + (" " + name);
    TrimEndAfterVisible(" WHERE", " " + name);
  }

  /**
   * The statement is the words `CREATE [UNIQUE] INDEX <NAME> ON <TABLE>`
   * joined by blanks, with `UNIQUE` iff the flag is set, then the column list
   * `( c1 ,c2 )`, then `WHERE <name>` iff a where clause is set.
   */
  lemma IndexStatement(s: IndexSpec)
    ensures Statement(s) ==
              Join(HeadWords(s), " ") + (" ( " + SeparatedText(s.columns.GetOr([]), ',') + " )") +
              (if s.where.Some? then " WHERE" + TrimEnd(" " + s.name.GetOr("")) else "")
    ensures HeadWords(s)[1] == "UNIQUE" <==> s.unique
  {
    StatementShape(s);
    if s.where.Some? {
      WhereText(s.name.GetOr(""));
    } else {
      assert TrimEnd(Words([])) == "";
    }
  }

  /** A unique index "i" on table "t" over columns "a" and "b". */
  lemma UniqueIndexExample(s: IndexSpec)
    requires s == IndexSpec(Some("i"), Some("t"), true, Some(["a", "b"]), None)
    ensures Statement(s) == "CREATE UNIQUE INDEX I ON T ( a ,b )"
  {
    IndexStatement(s);
    ExampleHead(s);
    JoinOne(["a"], [' ', ','], "b");
    assert ["a"] + ["b"] == ["a", "b"];
    ExampleText();
  }

  lemma ExampleHead(s: IndexSpec)
    requires s.unique && s.name == Some("i") && s.tableName == Some("t")
    ensures Join(HeadWords(s), " ") == "CREATE UNIQUE INDEX I ON T"
  {
    assert Upper("i") == "I";
    assert Upper("t") == "T";
    assert HeadWords(s) == ["CREATE", "UNIQUE", "INDEX", "I", "ON", "T"];
    JoinSix("CREATE", "UNIQUE", "INDEX", "I", "ON", "T", " ");
    HeadLiteral();
  }

  lemma HeadLiteral()
    ensures "CREATE" + " " + "UNIQUE" + " " + "INDEX" + " " + "I" + " " + "ON" + " " + "T" == "CREATE UNIQUE INDEX I ON T"
  {
  }

  lemma ExampleText()
    ensures "CREATE UNIQUE INDEX I ON T" + (" ( " + "a" + [' ', ','] + "b" + " )") + ""
            == "CREATE UNIQUE INDEX I ON T ( a ,b )"
  {
    assert " ( " + "a" + [' ', ','] + "b" + " )" == " ( a ,b )";
  }

  // ---------------------------------------------------------------- the builder object

  class IndexDefinitionBuilder {
    var name: Option<string>
    var tableName: Option<string>
    var unique: bool
    var columns: Option<seq<string>>
    var where: Option<string>

    function Spec(): IndexSpec
      reads this
    {
      IndexSpec(name, tableName, unique, columns, where)
    }

    constructor ()
      ensures Spec() == EmptyIndex
    {
      name, tableName, unique, columns, where := None, None, false, None, None;
    }

    method SetName(name: Option<string>)
      modifies this
      ensures Spec() == old(Spec()).(name := name)
    {
      this.name := name;
    }

    method SetTableName(tableName: Option<string>)
      modifies this
      ensures Spec() == old(Spec()).(tableName := tableName)
    {
      this.tableName := tableName;
    }

    method SetUnique(unique: bool)
      modifies this
      ensures Spec() == old(Spec()).(unique := unique)
    {
      this.unique := unique;
    }

    method SetColumns(columns: Option<seq<string>>)
      modifies this
      ensures Spec() == old(Spec()).(columns := columns)
    {
      this.columns := columns;
    }

    method SetWhere(where: Option<string>)
      modifies this
      ensures Spec() == old(Spec()).(where := where)
    {
      this.where := where;
    }

    /** `build`: the definition, or the exception `validate` throws. */
    method Build() returns (r: Result<IndexDefinition>)
      ensures r == BuildIndex(Spec())
    {
      var v := Validate(Spec());
      if v.Fail? {
        return Failure(v.error);
      }
      var statement := CreateStatement();
      r := Success(IndexDefinition(name.value, tableName.value, statement));
    }

    /** `createStatement`, appending fragment by fragment to a fresh statement builder. */
    method CreateStatement() returns (statement: string)
      requires name.Some? && tableName.Some? && columns.Some?
      ensures statement == Statement(Spec())
    {
      var builder := new DllStatementBuilder.StatementBuilder();
      AppendHead(builder);
      ghost var head := builder.buffer;
      builder.OpenBracket();
      builder.AppendWithSeparator(columns.value, ',');
      builder.CloseBracket();
      AppendAssociates(head, OpenBracketText, SeparatedText(columns.value, ','), CloseBracketText);
      ghost var body := builder.buffer;
      if where.Some? {
        builder.AppendWord("WHERE");
        builder.AppendWord(name.value);
        assert ["WHERE", name.value][..1] == ["WHERE"];
        assert ["WHERE"][..0] == [];
        assert Words(WhereWords(Spec())) == WordText("WHERE") + WordText(name.value);
        AppendAssociates2(body, WordText("WHERE"), WordText(name.value));
      } else {
        assert Words(WhereWords(Spec())) == "";
        assert body + "" == body;
      }
      statement := builder.ToString();
    }

    /** The words before the column list. */
    method AppendHead(builder: DllStatementBuilder.StatementBuilder)
      requires name.Some? && tableName.Some? && builder.buffer == ""
      modifies builder
      ensures builder.buffer == Words(HeadWords(Spec()))
    {
      ghost var ws: seq<string> := [];
      builder.AppendWord("CREATE");
      WordsSnoc(ws, "CREATE");
      ws := ws + ["CREATE"];
      if unique {
        builder.AppendWord("UNIQUE");
        WordsSnoc(ws, "UNIQUE");
        ws := ws + ["UNIQUE"];
      }
      var n, t := Upper(name.value), Upper(tableName.value);
      builder.AppendWord("INDEX");
      WordsSnoc(ws, "INDEX");
      ws := ws + ["INDEX"];
      builder.AppendWord(n);
      WordsSnoc(ws, n);
      ws := ws + [n];
      builder.AppendWord("ON");
      WordsSnoc(ws, "ON");
      ws := ws + ["ON"];
      builder.AppendWord(t);
      WordsSnoc(ws, t);
      ws := ws + [t];
      assert ws == HeadWords(Spec());
    }
  }
}
