/**
 * The column and table constraint builder
 * (processor/dll/ConstraintDefinitionBuilder.java).
 *
 * The builder is a mutable object whose setters record one field each;
 * `build` validates the fields and renders the SQL fragment with the
 * internal statement builder. `ConstraintSpec` is the value of all the
 * fields together, `Validate` and `Statement` are what `validate` and
 * `getStatement` compute from it, and the class methods are proved to
 * compute exactly that.
 */
module ConstraintBuilder {
  import opened Text
  import opened Outcomes
  import opened SchemaKinds
  import opened DefinitionUtils
  import opened StatementText
  import opened Definitions
  import InternalStatementBuilder

  /** The builder's fields; a null reference is `None`. */
  datatype ConstraintSpec = ConstraintSpec(
    kind: Option<Constraints>, name: Option<string>, columnNames: Option<seq<string>>,
    exp: Option<string>, conflictClause: Option<Conflict>, sort: Option<Sort>,
    autoincrement: bool, columnConstraint: bool,
    onUpdateAction: Option<Action>, onDeleteAction: Option<Action>,
    referenceTable: Option<string>, referenceColumn: Option<string>)

  /** A fresh builder: only the table/column flag is set. */
  function InitialSpec(columnConstraint: bool): (s: ConstraintSpec)
    ensures s.columnConstraint == columnConstraint && s.kind.None? && s.name.None?
  {
    ConstraintSpec(None, None, None, None, None, None, false, columnConstraint, None, None, None, None)
  }

  /**
   * What a constraint needs in order to build: a table constraint needs a
   * name, every constraint a kind other than FOREIGN KEY, and each kind the
   * fields its SQL uses (NOT NULL also needs a conflict clause it never prints).
   */
  predicate Complete(s: ConstraintSpec) {
    (s.columnConstraint || Present(s.name)) && KindComplete(s)
  }

  predicate KindComplete(s: ConstraintSpec) {
    && s.kind.Some?
    && match s.kind.value
       case CHECK => Present(s.exp)
       case COLLATE => Present(s.exp)
       case DEFAULT => Present(s.exp)
       case PRIMARY_KEY => (s.columnConstraint || s.columnNames.Some?) && s.conflictClause.Some?
       case UNIQUE => (s.columnConstraint || s.columnNames.Some?) && s.conflictClause.Some?
       case NOT_NULL => s.conflictClause.Some?
       case REFERENCES => Present(s.referenceTable) && Present(s.referenceColumn)
       case FOREIGN_KEY => false
  }

  const UnhandledForeignKey: string := "unhandled type FOREIGN_KEY"

  /** `validate`: the checks in source order; the first that fails is thrown. */
  function Validate(s: ConstraintSpec): (r: Outcome)
    ensures r.Pass? <==> Complete(s)
    ensures !s.columnConstraint && !Present(s.name) ==> r == Fail(MappingError("Constraint's  name is empty"))
    ensures r.Fail? ==> r.error.MappingError? || r.error == IllegalArgument(UnhandledForeignKey)
    ensures (r.Fail? && r.error.IllegalArgument?) <==> (s.columnConstraint || Present(s.name)) && s.kind == Some(FOREIGN_KEY)
  {
    var named := if !s.columnConstraint then NotEmpty(s.name, "Constraint's  name is empty") else Pass;
    named.Then(ValidateKind(s))
  }

  /** The checks of `validate` after the name check, by kind. */
  function ValidateKind(s: ConstraintSpec): (r: Outcome)
    ensures r.Pass? <==> KindComplete(s)
    ensures r.Fail? ==> r.error.MappingError? || r.error == IllegalArgument(UnhandledForeignKey)
    ensures (r.Fail? && r.error.IllegalArgument?) <==> s.kind == Some(FOREIGN_KEY)
  {
    if s.kind.None? then NotNull(s.kind, "Constraint's type cannot be null")
    else match s.kind.value
      case CHECK => NotEmpty(s.exp, "Check expression cannot be empty")
      case COLLATE => NotEmpty(s.exp, "Collation name cannot be empty")
      case DEFAULT => NotEmpty(s.exp, "Default value cannot be empty")
      case PRIMARY_KEY =>
        (if !s.columnConstraint then NotNull(s.columnNames, "Primary key columns cannot be null") else Pass)
          .Then(NotNull(s.conflictClause, "Primary key on conflict clause cannot be null"))
      case UNIQUE =>
        (if !s.columnConstraint then NotNull(s.columnNames, "Unique columns cannot be null") else Pass)
          .Then(NotNull(s.conflictClause, "Unique on conflict clause cannot be null"))
      case NOT_NULL => NotNull(s.conflictClause, "Not null on conflict clause cannot be null")
      case REFERENCES =>
        NotEmpty(s.referenceTable, "references table's name cannot be empty")
          .Then(NotEmpty(s.referenceColumn, "references column's name cannot be empty"))
      case FOREIGN_KEY => Fail(IllegalArgument(UnhandledForeignKey))
  }

  /** The prefix of a table constraint's generated name; REFERENCES and FOREIGN KEY have none. */
  function NamePrefix(k: Constraints): string {
    match k
    case CHECK => "CHK_"
    case UNIQUE => "UNI_"
    case PRIMARY_KEY => "PK_"
    case DEFAULT => "DEF_"
    case COLLATE => "COL_"
    case NOT_NULL => "NNL_"
    case REFERENCES => ""
    case FOREIGN_KEY => ""
  }

  /*
   * The rendering functions below follow `getStatement` case by case. They
   * are total so that they can be stated and unfolded cheaply: a null field
   * reads as empty (`GetOr`), which only happens for builders that
   * `validate` rejects before `getStatement` runs.
   */

  /** The CONSTRAINT word that opens a table constraint. */
  function ConstraintWord(s: ConstraintSpec): string {
    if s.columnConstraint then "" else WordText("CONSTRAINT")
  }

  /** The generated name of a table constraint, as a word: the kind's prefix and the upper-cased name. */
  function NameWord(s: ConstraintSpec, prefix: string): string {
    if s.columnConstraint then "" else WordText(prefix + Upper(s.name.GetOr("")))
  }

  function SortBuffer(sort: Option<Sort>): string {
    if sort.Some? then WordText(SortSql(sort.value)) else ""
  }

  function AutoincrementBuffer(autoincrement: bool): string {
    if autoincrement then WordText("AUTOINCREMENT") else ""
  }

  /** An `ON DELETE` or `ON UPDATE` clause and its action, when the action is set. */
  function ActionBuffer(clause: string, action: Option<Action>): string {
    if action.Some? then WordText(clause) + WordText(ActionSql(action.value)) else ""
  }

  function ConflictBuffer(s: ConstraintSpec): string {
    if s.conflictClause.Some? then WordText(ConflictSql(s.conflictClause.value)) else ""
  }

  /** The column list and conflict clause of a table PRIMARY KEY or UNIQUE. */
  function ColumnsBuffer(s: ConstraintSpec): string {
    OpenBracketText + SeparatedText(s.columnNames.GetOr([]), ',') + CloseBracketText + ConflictBuffer(s)
  }

  function CheckBuffer(s: ConstraintSpec): string {
    NameWord(s, "CHK_") + WordText(ConstraintSql(CHECK)) + BetweenBracketText(s.exp.GetOr(""))
  }

  /** A column UNIQUE appends nothing. */
  function UniqueBuffer(s: ConstraintSpec): string {
    if s.columnConstraint then "" else NameWord(s, "UNI_") + WordText(ConstraintSql(UNIQUE)) + ColumnsBuffer(s)
  }

  /** A column PRIMARY KEY takes the sort order and AUTOINCREMENT, a table one the columns. */
  function PrimaryKeyTail(s: ConstraintSpec): string {
    if s.columnConstraint then SortBuffer(s.sort) + AutoincrementBuffer(s.autoincrement) else ColumnsBuffer(s)
  }

  function PrimaryKeyBuffer(s: ConstraintSpec): string {
    NameWord(s, "PK_") + WordText(ConstraintSql(PRIMARY_KEY)) + PrimaryKeyTail(s)
  }

  /** The referenced table and column of a column REFERENCES. */
  function TargetBuffer(s: ConstraintSpec): string {
    WordText(ConstraintSql(REFERENCES)) + WordText(s.referenceTable.GetOr("")) + BetweenBracketText(s.referenceColumn.GetOr(""))
  }

  /** A table REFERENCES appends nothing. */
  function ReferencesBuffer(s: ConstraintSpec): string {
    if s.columnConstraint then
      TargetBuffer(s) + ActionBuffer("ON DELETE", s.onDeleteAction) + ActionBuffer("ON UPDATE", s.onUpdateAction)
    else ""
  }

  /** DEFAULT and COLLATE: the kind, then the expression as a word. */
  function ValueBuffer(s: ConstraintSpec, k: Constraints, prefix: string): string {
    NameWord(s, prefix) + WordText(ConstraintSql(k)) + WordText(s.exp.GetOr(""))
  }

  function NotNullBuffer(s: ConstraintSpec): string {
    NameWord(s, "NNL_") + WordText(ConstraintSql(NOT_NULL))
  }

  /** What `getStatement` appends after the CONSTRAINT word, kind by kind. */
  function KindBuffer(s: ConstraintSpec): string {
    match s.kind
    case None => ""
    case Some(k) =>
      match k
      case CHECK => CheckBuffer(s)
      case UNIQUE => UniqueBuffer(s)
      case PRIMARY_KEY => PrimaryKeyBuffer(s)
      case REFERENCES => ReferencesBuffer(s)
      case DEFAULT => ValueBuffer(s, DEFAULT, "DEF_")
      case COLLATE => ValueBuffer(s, COLLATE, "COL_")
      case NOT_NULL => NotNullBuffer(s)
      case FOREIGN_KEY => ""
  }

  /** The statement builder's buffer when `getStatement` calls `toString`. */
  function Buffer(s: ConstraintSpec): string {
    ConstraintWord(s) + KindBuffer(s)
  }

  /** `getStatement`: the builder's trimmed buffer. */
  function Statement(s: ConstraintSpec): string {
    Trim(Buffer(s))
  }

  /** `build`: validate, then render. */
  function BuildConstraint(s: ConstraintSpec): (r: Result<ConstraintDefinition>)
    ensures r.Success? <==> Complete(s)
    ensures r.Failure? ==> r.error == Validate(s).error
    ensures r.Success? ==> r.value.kind == s.kind.value && r.value.name == s.name && r.value.statement == Statement(s)
  {
    var v := Validate(s);
    if v.Fail? then Failure(v.error) else Success(ConstraintDefinition(s.kind.value, s.name, Statement(s)))
  }

  // ---------------------------------------------------------------- the statements, in closed form

  /** The generated name of a table constraint of a kind that has a prefix. */
  function Tag(s: ConstraintSpec): string {
    if s.kind.Some? then NamePrefix(s.kind.value) + Upper(s.name.GetOr("")) else ""
  }

  /** The words a statement starts with: `CONSTRAINT <tag> ` for a table constraint. */
  function Lead(s: ConstraintSpec): string {
    if s.columnConstraint then "" else "CONSTRAINT " + Tag(s) + " "
  }

  lemma ConflictSqlVisible(c: Conflict)
    ensures Visible(ConflictSql(c))
  {
  }

  lemma ActionSqlVisible(a: Action)
    ensures Visible(ActionSql(a))
  {
  }

  lemma ConstraintSqlVisible(k: Constraints)
    ensures Visible(ConstraintSql(k))
  {
  }

  /**
   * A buffer holding the CONSTRAINT word and a name (or neither), a blank,
   * visible text `y`, then `z` trims to the lead words, `y`, and `z` with its
   * trailing blanks trimmed.
   */
  lemma RenderedText(word: string, name: string, lead: string, tag: string, y: string, z: string)
    requires (word == "" && name == "" && lead == "")
          || (word == WordText("CONSTRAINT") && name == WordText(tag) && lead == "CONSTRAINT " + tag + " ")
    requires Visible(y)
    ensures Trim(word + (name + WordText(y) + z)) == lead + y + TrimEnd(z)
  {
    var b := word + (name + WordText(y) + z);
    assert b == " " + (lead + y) + z;
    var x := lead + y;
    assert x[0] == if lead == "" then y[0] else 'C';
    assert x[|x| - 1] == y[|y| - 1];
    TrimVisibleThen(b, x, z);
  }

  /** The shape of the buffer shared by every kind with a prefix, in the form `RenderedText` takes. */
  lemma Rendered(s: ConstraintSpec, prefix: string, k: Constraints, z: string)
    requires s.kind == Some(k) && prefix == NamePrefix(k)
    ensures Trim(ConstraintWord(s) + (NameWord(s, prefix) + WordText(ConstraintSql(k)) + z)) == Lead(s) + ConstraintSql(k) + TrimEnd(z)
  {
    ConstraintSqlVisible(k);
    RenderedText(ConstraintWord(s), NameWord(s, prefix), Lead(s), Tag(s), ConstraintSql(k), z);
  }

  /** CHECK: `[CONSTRAINT CHK_<NAME> ]CHECK (<exp>)`. */
  lemma CheckStatement(s: ConstraintSpec)
    requires Complete(s) && s.kind == Some(CHECK)
    ensures Statement(s) == Lead(s) + "CHECK (" + s.exp.value + ")"
  {
    var e := s.exp.value;
    assert Buffer(s) == ConstraintWord(s) + CheckBuffer(s);
    Rendered(s, "CHK_", CHECK, BetweenBracketText(e));
    CheckText(Lead(s), e);
  }

  lemma CheckText(lead: string, e: string)
    ensures lead + ConstraintSql(CHECK) + TrimEnd(BetweenBracketText(e)) == lead + "CHECK (" + e + ")"
  {
    var t := " (" + e + ")";
    assert BetweenBracketText(e) == t + " ";
    TrimEndBlank(t);
    TrimEndVisible(t);
  }

  /** NOT NULL: `[CONSTRAINT NNL_<NAME> ]NOT NULL`; the conflict clause is required but not printed. */
  lemma NotNullStatement(s: ConstraintSpec)
    requires Complete(s) && s.kind == Some(NOT_NULL)
    ensures Statement(s) == Lead(s) + "NOT NULL"
  {
    assert Buffer(s) == ConstraintWord(s) + (NameWord(s, "NNL_") + WordText(ConstraintSql(NOT_NULL)) + "");
    Rendered(s, "NNL_", NOT_NULL, "");
  }

  /**
   * DEFAULT and COLLATE: `[CONSTRAINT <PFX>_<NAME> ]<KIND> <exp>`, where
   * the expression loses its trailing blanks (and so does the blank before
   * it, if nothing else is left).
   */
  lemma ValueStatement(s: ConstraintSpec)
    requires (s.kind == Some(DEFAULT) || s.kind == Some(COLLATE)) && Present(s.exp)
    ensures Statement(s) == Lead(s) + ConstraintSql(s.kind.value) + TrimEnd(" " + s.exp.value)
  {
    var k := s.kind.value;
    if k == DEFAULT {
      assert Buffer(s) == ConstraintWord(s) + ValueBuffer(s, DEFAULT, "DEF_");
    } else {
      assert Buffer(s) == ConstraintWord(s) + ValueBuffer(s, COLLATE, "COL_");
    }
    Rendered(s, NamePrefix(k), k, WordText(s.exp.value));
  }

  /** An expression that does not end in a blank is kept whole, one blank after the kind. */
  lemma VisibleValueStatement(s: ConstraintSpec)
    requires (s.kind == Some(DEFAULT) || s.kind == Some(COLLATE)) && Present(s.exp)
    requires !IsTrimmable(s.exp.value[|s.exp.value| - 1])
    ensures Statement(s) == Lead(s) + ConstraintSql(s.kind.value) + " " + s.exp.value
  {
    var p, e := Lead(s) + ConstraintSql(s.kind.value), s.exp.value;
    ValueStatement(s);
    assert Statement(s) == p + TrimEnd(" " + e);
    WordKept(p, e);
  }

  lemma WordKept(p: string, e: string)
    requires e != [] && !IsTrimmable(e[|e| - 1])
    ensures p + TrimEnd(" " + e) == p + " " + e
  {
    assert (" " + e)[|" " + e| - 1] == e[|e| - 1];
    TrimEndVisible(" " + e);
  }

  lemma ColumnsText(pre: string, cols: string, c: string)
    requires Visible(c)
    ensures pre + TrimEnd(OpenBracketText + cols + CloseBracketText + WordText(c)) == pre + " ( " + cols + " ) " + c
  {
    var t := OpenBracketText + cols + CloseBracketText + WordText(c);
    assert t == " ( " + cols + " ) " + c;
    assert t[|t| - 1] == c[|c| - 1];
    TrimEndVisible(t);
  }

  /** Table PRIMARY KEY and UNIQUE: `CONSTRAINT <PFX>_<NAME> <KIND> ( <c1> ,<c2> ) ON CONFLICT <X>`. */
  lemma TableKeyStatement(s: ConstraintSpec)
    requires Complete(s) && (s.kind == Some(PRIMARY_KEY) || s.kind == Some(UNIQUE)) && !s.columnConstraint
    ensures Statement(s) == Lead(s) + ConstraintSql(s.kind.value) + " ( " + SeparatedText(s.columnNames.value, ',')
                              + " ) " + ConflictSql(s.conflictClause.value)
  {
    var k := s.kind.value;
    var cols := SeparatedText(s.columnNames.value, ',');
    var c := ConflictSql(s.conflictClause.value);
    assert ColumnsBuffer(s) == OpenBracketText + cols + CloseBracketText + WordText(c);
    if k == PRIMARY_KEY {
      assert Buffer(s) == ConstraintWord(s) + (NameWord(s, "PK_") + WordText(ConstraintSql(k)) + ColumnsBuffer(s));
    } else {
      assert Buffer(s) == ConstraintWord(s) + (NameWord(s, "UNI_") + WordText(ConstraintSql(k)) + ColumnsBuffer(s));
    }
    Rendered(s, NamePrefix(k), k, ColumnsBuffer(s));
    ConflictSqlVisible(s.conflictClause.value);
    ColumnsText(Lead(s) + ConstraintSql(k), cols, c);
  }

  lemma AutoincrementText(t: string)
    ensures "" + "PRIMARY KEY" + TrimEnd(WordText(t) + WordText("AUTOINCREMENT")) == "PRIMARY KEY " + t + " AUTOINCREMENT"
    ensures "" + "PRIMARY KEY" + TrimEnd("" + WordText("AUTOINCREMENT")) == "PRIMARY KEY AUTOINCREMENT"
  {
    TrimEndVisible(WordText(t) + WordText("AUTOINCREMENT"));
    TrimEndVisible("" + WordText("AUTOINCREMENT"));
  }

  /** Column PRIMARY KEY with AUTOINCREMENT, after the sort order when one is given. */
  lemma ColumnAutoincrementStatement(s: ConstraintSpec)
    requires Complete(s) && s.kind == Some(PRIMARY_KEY) && s.columnConstraint && s.autoincrement
    ensures s.sort.None? ==> Statement(s) == "PRIMARY KEY AUTOINCREMENT"
    ensures s.sort.Some? ==> Statement(s) == "PRIMARY KEY " + SortSql(s.sort.value) + " AUTOINCREMENT"
  {
    assert Buffer(s) == ConstraintWord(s) + (NameWord(s, "PK_") + WordText(ConstraintSql(PRIMARY_KEY)) + PrimaryKeyTail(s));
    Rendered(s, "PK_", PRIMARY_KEY, PrimaryKeyTail(s));
    if s.sort.Some? {
      AutoincrementText(SortSql(s.sort.value));
    } else {
      AutoincrementText("");
    }
  }

  lemma SortText(t: string)
    ensures "" + "PRIMARY KEY" + TrimEnd("" + "") == "PRIMARY KEY"
    ensures "" + "PRIMARY KEY" + TrimEnd(WordText("") + "") == "PRIMARY KEY"
    ensures t != "" && !IsTrimmable(t[|t| - 1]) ==> "" + "PRIMARY KEY" + TrimEnd(WordText(t) + "") == "PRIMARY KEY " + t
  {
    if t != "" && !IsTrimmable(t[|t| - 1]) {
      assert (WordText(t) + "")[|WordText(t) + ""| - 1] == t[|t| - 1];
      TrimEndVisible(WordText(t) + "");
    }
  }

  /**
   * Column PRIMARY KEY without AUTOINCREMENT: the sort order when one is
   * given; the empty sort order (NONE) adds nothing.
   */
  lemma ColumnPrimaryKeyStatement(s: ConstraintSpec)
    requires Complete(s) && s.kind == Some(PRIMARY_KEY) && s.columnConstraint && !s.autoincrement
    ensures s.sort.None? || s.sort == Some(NONE) ==> Statement(s) == "PRIMARY KEY"
    ensures s.sort.Some? && s.sort.value != NONE ==> Statement(s) == "PRIMARY KEY " + SortSql(s.sort.value)
  {
    assert Buffer(s) == ConstraintWord(s) + (NameWord(s, "PK_") + WordText(ConstraintSql(PRIMARY_KEY)) + PrimaryKeyTail(s));
    Rendered(s, "PK_", PRIMARY_KEY, PrimaryKeyTail(s));
    if s.sort.Some? {
      SortText(SortSql(s.sort.value));
    } else {
      SortText("");
    }
  }

  /** The referenced table and column, as the statement shows them. */
  function Target(s: ConstraintSpec): string {
    s.referenceTable.GetOr("") + (" (" + s.referenceColumn.GetOr("") + ")")
  }

  /** The action clauses in words. */
  lemma ActionWords(clause: string, action: Option<Action>)
    ensures action.Some? ==> ActionBuffer(clause, action) == " " + clause + " " + ActionSql(action.value)
    ensures action.None? ==> ActionBuffer(clause, action) == ""
  {
  }

  /** The statement of a column REFERENCES, from the pieces of its buffer. */
  lemma ReferencesText(r: string, tbl: string, col: string, z: string)
    requires Visible(r)
    ensures Trim("" + (WordText(r) + WordText(tbl) + BetweenBracketText(col) + z))
              == r + " " + (tbl + (" (" + col + ")")) + TrimEnd(" " + z)
  {
    var b := "" + (WordText(r) + WordText(tbl) + BetweenBracketText(col) + z);
    var y := r + " " + (tbl + (" (" + col + ")"));
    BracketSplit(col);
    Regroup(r, tbl, " (" + col + ")", z);
    assert b == " " + y + (" " + z);
    assert y[0] == r[0] && y[|y| - 1] == ')';
    TrimVisibleThen(b, y, " " + z);
  }

  lemma ReferencesWord()
    ensures ConstraintSql(REFERENCES) + " " == "REFERENCES "
  {
  }

  /** The action clauses after the reference: nothing, or a blank and the clauses. */
  lemma ActionsText(p: string, del: string, upd: string)
    requires del == "" || !IsTrimmable(del[|del| - 1])
    requires upd == "" || !IsTrimmable(upd[|upd| - 1])
    ensures p + TrimEnd(" " + (del + upd)) == p + (if del == "" && upd == "" then "" else " " + del + upd)
  {
    var z := " " + (del + upd);
    if del == "" && upd == "" {
      assert z == " " + "";
      TrimEndBlank("");
    } else {
      assert z[|z| - 1] == if upd == "" then del[|del| - 1] else upd[|upd| - 1];
      TrimEndVisible(z);
    }
  }

  /**
   * Column REFERENCES: `REFERENCES <table> (<column>)`, then the ON DELETE
   * and ON UPDATE actions when given; the first action follows two blanks.
   */
  lemma ColumnReferencesStatement(s: ConstraintSpec)
    requires Complete(s) && s.kind == Some(REFERENCES) && s.columnConstraint
    ensures var del, upd := ActionBuffer("ON DELETE", s.onDeleteAction), ActionBuffer("ON UPDATE", s.onUpdateAction);
            Statement(s) == "REFERENCES " + Target(s) + (if del == "" && upd == "" then "" else " " + del + upd)
  {
    var del, upd := ActionBuffer("ON DELETE", s.onDeleteAction), ActionBuffer("ON UPDATE", s.onUpdateAction);
    assert Buffer(s) == "" + (TargetBuffer(s) + del + upd);
    ActionEnd("ON DELETE", s.onDeleteAction);
    ActionEnd("ON UPDATE", s.onUpdateAction);
    ReferencesStatementText(s.referenceTable.GetOr(""), s.referenceColumn.GetOr(""), del, upd);
  }

  /** An action buffer is empty or ends in its visible action text. */
  lemma ActionEnd(clause: string, action: Option<Action>)
    ensures var t := ActionBuffer(clause, action); t == "" || !IsTrimmable(t[|t| - 1])
  {
    if action.Some? {
      ActionSqlVisible(action.value);
    }
  }

  /** The trimmed text of a column REFERENCES buffer, for any action texts ending visibly. */
  lemma ReferencesStatementText(tbl: string, col: string, del: string, upd: string)
    requires del == "" || !IsTrimmable(del[|del| - 1])
    requires upd == "" || !IsTrimmable(upd[|upd| - 1])
    ensures Trim("" + (WordText(ConstraintSql(REFERENCES)) + WordText(tbl) + BetweenBracketText(col) + del + upd))
              == "REFERENCES " + (tbl + (" (" + col + ")")) + (if del == "" && upd == "" then "" else " " + del + upd)
  {
    var r := ConstraintSql(REFERENCES);
    var b := "" + (WordText(r) + WordText(tbl) + BetweenBracketText(col) + del + upd);
    AppendAssociates(WordText(r) + WordText(tbl), BetweenBracketText(col), del, upd);
    assert b == "" + (WordText(r) + WordText(tbl) + BetweenBracketText(col) + (del + upd));
    ConstraintSqlVisible(REFERENCES);
    ReferencesText(r, tbl, col, del + upd);
    ReferencesWord();
    ActionsText("REFERENCES " + (tbl + (" (" + col + ")")), del, upd);
  }

  /** A column UNIQUE renders nothing. */
  lemma ColumnUniqueStatement(s: ConstraintSpec)
    requires Complete(s) && s.kind == Some(UNIQUE) && s.columnConstraint
    ensures Statement(s) == ""
  {
    assert Buffer(s) == "";
  }

  /** A table REFERENCES renders only its CONSTRAINT word. */
  lemma TableReferencesStatement(s: ConstraintSpec)
    requires Complete(s) && s.kind == Some(REFERENCES) && !s.columnConstraint
    ensures Statement(s) == "CONSTRAINT"
  {
    assert Buffer(s) == " " + "CONSTRAINT" + "";
    TrimVisibleThen(Buffer(s), "CONSTRAINT", "");
  }

  /** A table primary key over columns A and B, rolled back on conflict. */
  lemma TablePrimaryKeyExample(s: ConstraintSpec)
    requires s == ConstraintSpec(Some(PRIMARY_KEY), Some("id"), Some(["A", "B"]), None, Some(ROLLBACK), None,
                                 false, false, None, None, None, None)
    ensures BuildConstraint(s) == Success(ConstraintDefinition(PRIMARY_KEY, Some("id"),
                                    "CONSTRAINT PK_ID PRIMARY KEY ( A ,B ) ON CONFLICT ROLLBACK"))
  {
    assert Complete(s);
    ExampleStatement(s);
  }

  lemma ExampleStatement(s: ConstraintSpec)
    requires s == ConstraintSpec(Some(PRIMARY_KEY), Some("id"), Some(["A", "B"]), None, Some(ROLLBACK), None,
                                 false, false, None, None, None, None)
    ensures Statement(s) == "CONSTRAINT PK_ID PRIMARY KEY ( A ,B ) ON CONFLICT ROLLBACK"
  {
    TableKeyStatement(s);
    assert Tag(s) == "PK_" + Upper("id");
    ExampleWords();
    ExampleText();
  }

  lemma ExampleWords()
    ensures Upper("id") == "ID"
    ensures SeparatedText(["A", "B"], ',') == "A ,B"
  {
    assert ["A", "B"][..1] == ["A"];
  }

  lemma ExampleText()
    ensures "CONSTRAINT " + ("PK_" + "ID") + " " + "PRIMARY KEY" + " ( " + "A ,B" + " ) " + "ON CONFLICT ROLLBACK"
            == "CONSTRAINT PK_ID PRIMARY KEY ( A ,B ) ON CONFLICT ROLLBACK"
  {
    assert "PK_" + "ID" == "PK_ID";
    assert "CONSTRAINT " + "PK_ID" == "CONSTRAINT PK_ID";
    assert "CONSTRAINT PK_ID" + " " == "CONSTRAINT PK_ID ";
    assert "CONSTRAINT PK_ID " + "PRIMARY KEY" == "CONSTRAINT PK_ID PRIMARY KEY";
    assert "CONSTRAINT PK_ID PRIMARY KEY" + " ( " == "CONSTRAINT PK_ID PRIMARY KEY ( ";
    assert "CONSTRAINT PK_ID PRIMARY KEY ( " + "A ,B" == "CONSTRAINT PK_ID PRIMARY KEY ( A ,B";
    assert "CONSTRAINT PK_ID PRIMARY KEY ( A ,B" + " ) " == "CONSTRAINT PK_ID PRIMARY KEY ( A ,B ) ";
  }

  // ---------------------------------------------------------------- the builder object

  class ConstraintDefinitionBuilder {
    var kind: Option<Constraints>
    var name: Option<string>
    var columnNames: Option<seq<string>>
    var exp: Option<string>
    var conflictClause: Option<Conflict>
    var sort: Option<Sort>
    var autoincrement: bool
    var columnConstraint: bool
    var onUpdateAction: Option<Action>
    var onDeleteAction: Option<Action>
    var referenceTable: Option<string>
    var referenceColumn: Option<string>

    function Spec(): ConstraintSpec
      reads this
    {
      ConstraintSpec(kind, name, columnNames, exp, conflictClause, sort, autoincrement, columnConstraint,
                     onUpdateAction, onDeleteAction, referenceTable, referenceColumn)
    }

    /** `newTableConstraint`. */
    constructor NewTableConstraint()
      ensures Spec() == InitialSpec(false)
    {
      kind, name, columnNames, exp, conflictClause, sort := None, None, None, None, None, None;
      autoincrement, columnConstraint := false, false;
      onUpdateAction, onDeleteAction, referenceTable, referenceColumn := None, None, None, None;
    }

    /** `newColumnConstraint`. */
    constructor NewColumnConstraint()
      ensures Spec() == InitialSpec(true)
    {
      kind, name, columnNames, exp, conflictClause, sort := None, None, None, None, None, None;
      autoincrement, columnConstraint := false, true;
      onUpdateAction, onDeleteAction, referenceTable, referenceColumn := None, None, None, None;
    }

    method SetOnDeleteAction(onDeleteAction: Option<Action>)
      modifies this
      ensures Spec() == old(Spec()).(onDeleteAction := onDeleteAction)
    {
      this.onDeleteAction := onDeleteAction;
    }

    method SetOnUpdateAction(onUpdateAction: Option<Action>)
      modifies this
      ensures Spec() == old(Spec()).(onUpdateAction := onUpdateAction)
    {
      this.onUpdateAction := onUpdateAction;
    }

    method SetReferenceColumn(referenceColumn: Option<string>)
      modifies this
      ensures Spec() == old(Spec()).(referenceColumn := referenceColumn)
    {
      this.referenceColumn := referenceColumn;
    }

    method SetReferenceTable(referenceTable: Option<string>)
      modifies this
      ensures Spec() == old(Spec()).(referenceTable := referenceTable)
    {
      this.referenceTable := referenceTable;
    }

    method SetType(kind: Option<Constraints>)
      modifies this
      ensures Spec() == old(Spec()).(kind := kind)
    {
      this.kind := kind;
    }

    method SetName(name: Option<string>)
      modifies this
      ensures Spec() == old(Spec()).(name := name)
    {
      this.name := name;
    }

    method SetColumnNames(columnNames: Option<seq<string>>)
      modifies this
      ensures Spec() == old(Spec()).(columnNames := columnNames)
    {
      this.columnNames := columnNames;
    }

    method SetExp(exp: Option<string>)
      modifies this
      ensures Spec() == old(Spec()).(exp := exp)
    {
      this.exp := exp;
    }

    method SetConflictClause(conflictClause: Option<Conflict>)
      modifies this
      ensures Spec() == old(Spec()).(conflictClause := conflictClause)
    {
      this.conflictClause := conflictClause;
    }

    method SetSort(sort: Option<Sort>)
      modifies this
      ensures Spec() == old(Spec()).(sort := sort)
    {
      this.sort := sort;
    }

    method SetAutoincrement(autoincrement: bool)
      modifies this
      ensures Spec() == old(Spec()).(autoincrement := autoincrement)
    {
      this.autoincrement := autoincrement;
    }

    /** `build`: the built definition, or the exception `validate` throws. */
    method Build() returns (r: Result<ConstraintDefinition>)
      ensures r == BuildConstraint(Spec())
    {
      var v := Validate(Spec());
      if v.Fail? {
        return Failure(v.error);
      }
      var statement := GetStatement();
      r := Success(ConstraintDefinition(kind.value, name, statement));
    }

    /** `getStatement`, appending fragment by fragment to a fresh statement builder. */
    method GetStatement() returns (statement: string)
      requires Complete(Spec())
      ensures statement == Statement(Spec())
    {
      var builder := new InternalStatementBuilder.StatementBuilder();
      Render(builder);
      statement := builder.ToString();
    }

    /** The body of `getStatement` up to `toString`. */
    method Render(builder: InternalStatementBuilder.StatementBuilder)
      requires Complete(Spec()) && builder.buffer == ""
      modifies builder
      ensures builder.buffer == Buffer(Spec())
    {
      if !columnConstraint {
        builder.AppendWord("CONSTRAINT");
      }
      assert builder.buffer == ConstraintWord(Spec());
      var k := kind.value;
      match k {
      case CHECK => RenderCheck(builder);
      case UNIQUE => RenderUnique(builder);
      case PRIMARY_KEY => RenderPrimaryKey(builder);
      case REFERENCES => RenderReferences(builder);
      case DEFAULT => RenderValue(builder, DEFAULT, "DEF_");
      case COLLATE => RenderValue(builder, COLLATE, "COL_");
      case NOT_NULL => RenderNotNull(builder);
      case FOREIGN_KEY => assert false;
      }
    }

    /*
     * One method per case of the `getStatement` switch, each appending what
     * its case appends.
     */

    /** The generated name of a table constraint. */
    method AppendName(builder: InternalStatementBuilder.StatementBuilder, prefix: string)
      modifies builder
      ensures builder.buffer == old(builder.buffer) + NameWord(Spec(), prefix)
    {
      if !columnConstraint {
        builder.AppendWord(prefix + Upper(name.GetOr("")));
      }
    }

    method RenderCheck(builder: InternalStatementBuilder.StatementBuilder)
      requires kind == Some(CHECK) && exp.Some?
      modifies builder
      ensures builder.buffer == old(builder.buffer) + CheckBuffer(Spec())
    {
      ghost var start := builder.buffer;
      AppendName(builder, "CHK_");
      builder.AppendWord(ConstraintSql(kind.value));
      builder.AppendBetweenBracket(exp.value);
      AppendAssociates(start, NameWord(Spec(), "CHK_"), WordText(ConstraintSql(CHECK)), BetweenBracketText(exp.value));
    }

    /** The column list and conflict clause of a table PRIMARY KEY or UNIQUE. */
    method AppendColumns(builder: InternalStatementBuilder.StatementBuilder)
      requires columnNames.Some? && conflictClause.Some?
      modifies builder
      ensures builder.buffer == old(builder.buffer) + ColumnsBuffer(Spec())
    {
      ghost var start := builder.buffer;
      builder.OpenBracket();
      builder.AppendWithSeparator(columnNames.value, ',');
      builder.CloseBracket();
      builder.AppendWord(ConflictSql(conflictClause.value));
      AppendAssociates4(start, OpenBracketText, SeparatedText(columnNames.value, ','), CloseBracketText,
                        WordText(ConflictSql(conflictClause.value)));
    }

    method RenderUnique(builder: InternalStatementBuilder.StatementBuilder)
      requires Complete(Spec()) && kind == Some(UNIQUE)
      modifies builder
      ensures builder.buffer == old(builder.buffer) + UniqueBuffer(Spec())
    {
      ghost var start := builder.buffer;
      if !columnConstraint {
        builder.AppendWord("UNI_" + Upper(name.value));
        builder.AppendWord(ConstraintSql(kind.value));
        AppendColumns(builder);
        AppendAssociates(start, NameWord(Spec(), "UNI_"), WordText(ConstraintSql(UNIQUE)), ColumnsBuffer(Spec()));
      }
    }

    method RenderPrimaryKey(builder: InternalStatementBuilder.StatementBuilder)
      requires kind == Some(PRIMARY_KEY) && (columnConstraint || (columnNames.Some? && conflictClause.Some?))
      modifies builder
      ensures builder.buffer == old(builder.buffer) + PrimaryKeyBuffer(Spec())
    {
      ghost var start := builder.buffer;
      AppendName(builder, "PK_");
      builder.AppendWord(ConstraintSql(kind.value));
      AppendPrimaryKeyTail(builder);
      AppendAssociates(start, NameWord(Spec(), "PK_"), WordText(ConstraintSql(PRIMARY_KEY)), PrimaryKeyTail(Spec()));
    }

    /** What follows the PRIMARY KEY word: sort and AUTOINCREMENT on a column, the column list on a table. */
    method AppendPrimaryKeyTail(builder: InternalStatementBuilder.StatementBuilder)
      requires columnConstraint || (columnNames.Some? && conflictClause.Some?)
      modifies builder
      ensures builder.buffer == old(builder.buffer) + PrimaryKeyTail(Spec())
    {
      ghost var start := builder.buffer;
      if columnConstraint {
        AppendSort(builder, sort);
        AppendAutoincrement(builder, autoincrement);
        AppendAssociates2(start, SortBuffer(sort), AutoincrementBuffer(autoincrement));
      } else {
        AppendColumns(builder);
      }
    }

    /** The sort order of a column PRIMARY KEY, when set. */
    method AppendSort(builder: InternalStatementBuilder.StatementBuilder, sort: Option<Sort>)
      modifies builder
      ensures builder.buffer == old(builder.buffer) + SortBuffer(sort)
    {
      if sort.Some? {
        builder.AppendWord(SortSql(sort.value));
      }
    }

    method AppendAutoincrement(builder: InternalStatementBuilder.StatementBuilder, autoincrement: bool)
      modifies builder
      ensures builder.buffer == old(builder.buffer) + AutoincrementBuffer(autoincrement)
    {
      if autoincrement {
        builder.AppendWord("AUTOINCREMENT");
      }
    }

    method RenderReferences(builder: InternalStatementBuilder.StatementBuilder)
      requires Complete(Spec()) && kind == Some(REFERENCES)
      modifies builder
      ensures builder.buffer == old(builder.buffer) + ReferencesBuffer(Spec())
    {
      ghost var start := builder.buffer;
      if columnConstraint {
        builder.AppendWord(ConstraintSql(kind.value));
        builder.AppendWord(referenceTable.value);
        builder.AppendBetweenBracket(referenceColumn.value);
        AppendAssociates(start, WordText(ConstraintSql(REFERENCES)), WordText(referenceTable.value),
                         BetweenBracketText(referenceColumn.value));
        AppendAction(builder, "ON DELETE", onDeleteAction);
        AppendAction(builder, "ON UPDATE", onUpdateAction);
        AppendAssociates(start, TargetBuffer(Spec()), ActionBuffer("ON DELETE", onDeleteAction),
                         ActionBuffer("ON UPDATE", onUpdateAction));
      }
    }

    /** One action clause of a column REFERENCES, when its action is set. */
    method AppendAction(builder: InternalStatementBuilder.StatementBuilder, clause: string, action: Option<Action>)
      modifies builder
      ensures builder.buffer == old(builder.buffer) + ActionBuffer(clause, action)
    {
      if action.Some? {
        builder.AppendWord(clause);
        builder.AppendWord(ActionSql(action.value));
      }
    }

    /** DEFAULT and COLLATE: the name with the given prefix, the kind, then the expression as a word. */
    method RenderValue(builder: InternalStatementBuilder.StatementBuilder, k: Constraints, prefix: string)
      requires kind == Some(k) && exp.Some?
      modifies builder
      ensures builder.buffer == old(builder.buffer) + ValueBuffer(Spec(), k, prefix)
    {
      ghost var start := builder.buffer;
      AppendName(builder, prefix);
      builder.AppendWord(ConstraintSql(kind.value));
      builder.AppendWord(exp.value);
      AppendAssociates(start, NameWord(Spec(), prefix), WordText(ConstraintSql(k)), WordText(exp.value));
    }

    method RenderNotNull(builder: InternalStatementBuilder.StatementBuilder)
      requires kind == Some(NOT_NULL)
      modifies builder
      ensures builder.buffer == old(builder.buffer) + NotNullBuffer(Spec())
    {
      AppendName(builder, "NNL_");
      builder.AppendWord(ConstraintSql(kind.value));
    }
  }
}
