# orm — a Dafny model of the mapping core

This project models the core of the `org.medimob.orm` Android object–relational
mapper: the code that turns annotated entity classes into SQLite schema
statements at compile time, and the code that, at run time, writes the
insert/update/delete statements, keeps the per-model entity cache and renders
query criteria into `WHERE` text.

The model follows the Java code module by module:

- `Text`: the `java.lang.String` operations the mapper relies on: `trim`,
  ASCII upper-casing, joining, character counting, decimal rendering and
  `String.hashCode` with 32-bit wrap-around.
- `Outcomes`: `null` as `Option`, a thrown exception as `Failure`/`Fail`
  carrying a `Fault` (`MappingException`, `IllegalArgumentException`,
  `OrmException`, `NullPointerException`, …).
- `StatementText`, `InternalStatementBuilder`, `DllStatementBuilder`: the two copies of
  the SQL text builder. Each is a class whose `buffer` field its methods extend,
  and each is specified by the text functions of `StatementText`.
- `SqlText`, `SqlAppend`, `InternalSqlUtils`, `LegacySqlUtils`: the runtime
  `INSERT`/`UPDATE`/`DELETE` writers, in both copies. They are proved equal to
  text functions, and those functions are proved to carry exactly as many
  `?` placeholders as the statement binds.
- `DefinitionUtils`, `SchemaKinds`, `Definitions`: the validation helpers,
  the enumerations with their SQL text, and the five immutable schema definitions
  with their `equals`/`hashCode`.
- `ConstraintBuilder`, `PropertyBuilder`, `IndexBuilder`, `TriggerBuilder`,
  `TypeBuilder`: the five definition builders. Each is a class with one field per
  setter. `build()` validates and renders the DDL statement, and is specified
  by a pure `Build…` function with the statement text worked out.
- `ProcessorUtils`, `PropertyProcessor`, `EntityProcessor`: the annotation
  processor. It resolves names, chooses the field kind, turns field and class
  annotations into column, constraint, index and trigger definitions, and
  collects one table definition per entity.
- `Session`: the entity cache of a model. A map from id to a cache slot that
  the collector may clear.
- `EntityModel`: `Model`, which inserts, updates, deletes and loads entities
  through a database it is given, using the cache.
- `Criteria`, `Restrictions`: the query criteria. Each is specified by what it
  collects (`collectArgs`), what it renders (`toSql`) and how many
  arguments it claims (`getArgsCount`), together with the static factories
  that build them.

The database, the Android `Cursor`, the compiler's element and type mirrors,
and the property resolver of the criteria are parameters of the model, not
code inside it.

Where the code and its documentation disagree, the model follows the code:

- The runtime `DELETE` statement qualifies its columns with the table name
  and quotes them (`DELETE FROM T WHERE T.'ID'=?`).
- The version column of a versioned `INSERT` is written unquoted
  (`INSERT INTO T ('A','B',V) VALUES (?,?,0)`).
- `OperatorCriterion.toSql` writes the property name where its operator
  should be and never writes the operator itself. `Restrictions.ComparisonFactories`
  states this outright: `eq`, `ne`, `lt`, `le`, `gt` and `ge` render the same text.
- `IndexDefinitionBuilder` writes the index name, not the `where` text, after
  `WHERE` (`IndexBuilder.IndexStatement`).
- A table's `CREATE TABLE` statement lists no columns; `TypeDefinitionBuilder`
  never appends them (`TypeBuilder.TableStatement`).
- A trigger body starts right after `BEGIN`, with no blank before the first
  statement (`TriggerBuilder.BodyExample`).
- A table-level `REFERENCES` constraint renders as the bare word `CONSTRAINT`, and
  a column-level `UNIQUE` renders as nothing (`ConstraintBuilder.TableReferencesStatement`,
  `ConstraintBuilder.ColumnUniqueStatement`).

## Model

| member | source | states |
|---|---|---|
| StatementText.WordsAppend | orm/src/main/java/org/medimob/orm/internal/StatementBuilder.java:23-27 | the text of successive `appendWord` calls splits at any point: the words of `a + b` are the words of `a` followed by those of `b` |
| StatementText.WordsJoin | orm/src/main/java/org/medimob/orm/internal/StatementBuilder.java:23-27 | a non-empty run of `appendWord` calls adds one blank followed by the words joined with single blanks |
| StatementText.SeparatorCount | orm/src/main/java/org/medimob/orm/internal/StatementBuilder.java:60-69 | `appendWithSeparator` writes exactly one separator fewer than it has expressions, when no expression holds the separator |
| StatementText.SeparatedSmall | orm/src/main/java/org/medimob/orm/internal/StatementBuilder.java:60-69 | no expression writes nothing, and a single expression is written with no separator |
| StatementText.ToStringHasNoOuterBlanks | orm/src/main/java/org/medimob/orm/internal/StatementBuilder.java:81-84 | the built statement neither starts nor ends with a blank or control character |
| StatementText.TrimWords | orm/src/main/java/org/medimob/orm/internal/StatementBuilder.java:81-84 | a statement that opens with a word loses only its leading blank to `toString`'s trim, and is trimmed at its end |
| InternalStatementBuilder.StatementBuilder.constructor | orm/src/main/java/org/medimob/orm/internal/StatementBuilder.java:12-14 | a new builder holds no text |
| InternalStatementBuilder.StatementBuilder.AppendWord | orm/src/main/java/org/medimob/orm/internal/StatementBuilder.java:23-27 | the buffer grows by one blank and the word, and by nothing else |
| InternalStatementBuilder.StatementBuilder.AppendBetweenBracket | orm/src/main/java/org/medimob/orm/internal/StatementBuilder.java:36-41 | the buffer grows by ` (`, the expression and `) ` |
| InternalStatementBuilder.StatementBuilder.OpenBracket | orm/src/main/java/org/medimob/orm/internal/StatementBuilder.java:49-52 | the buffer grows by ` ( ` |
| InternalStatementBuilder.StatementBuilder.AppendWithSeparator | orm/src/main/java/org/medimob/orm/internal/StatementBuilder.java:60-69 | the buffer grows by the expressions joined with a blank and the separator, which the loop's invariant tracks expression by expression |
| InternalStatementBuilder.StatementBuilder.CloseBracket | orm/src/main/java/org/medimob/orm/internal/StatementBuilder.java:76-79 | the buffer grows by ` )` |
| InternalStatementBuilder.StatementBuilder.ToString | orm/src/main/java/org/medimob/orm/internal/StatementBuilder.java:81-84 | the result is the buffer trimmed, so it has no blank at either end |
| DllStatementBuilder.StatementBuilder.constructor | orm/src/main/java/org/medimob/orm/processor/dll/StatementBuilder.java:10-12 | a new builder holds no text |
| DllStatementBuilder.StatementBuilder.AppendWord | orm/src/main/java/org/medimob/orm/processor/dll/StatementBuilder.java:14-18 | the buffer grows by one blank and the word |
| DllStatementBuilder.StatementBuilder.AppendBetweenBracket | orm/src/main/java/org/medimob/orm/processor/dll/StatementBuilder.java:20-25 | the buffer grows by ` (`, the expression and `) ` |
| DllStatementBuilder.StatementBuilder.OpenBracket | orm/src/main/java/org/medimob/orm/processor/dll/StatementBuilder.java:27-30 | the buffer grows by ` ( ` |
| DllStatementBuilder.StatementBuilder.AppendWithSeparator | orm/src/main/java/org/medimob/orm/processor/dll/StatementBuilder.java:32-41 | the buffer grows by the strings joined with a blank and the separator |
| DllStatementBuilder.StatementBuilder.CloseBracket | orm/src/main/java/org/medimob/orm/processor/dll/StatementBuilder.java:43-46 | the buffer grows by ` )` |
| DllStatementBuilder.StatementBuilder.ToString | orm/src/main/java/org/medimob/orm/processor/dll/StatementBuilder.java:48-51 | the result is the buffer trimmed, with no blank at either end |
| SqlText.PlaceholdersCount | orm/src/main/java/org/medimob/orm/internal/SqlUtils.java:149-158 | `appendPlaceholders(n)` writes exactly `n` question marks |
| SqlText.QuotedListCount | orm/src/main/java/org/medimob/orm/internal/SqlUtils.java:139-147 | the quoted column list holds no question mark when no column name does |
| SqlText.EqualPlaceholderListCount | orm/src/main/java/org/medimob/orm/internal/SqlUtils.java:106-115 | the `SET` list binds one parameter per column |
| SqlText.EqValueListCount | orm/src/main/java/org/medimob/orm/internal/SqlUtils.java:117-126 | the aliased `WHERE` list binds one parameter per column |
| SqlText.InsertParameterCount | orm/src/main/java/org/medimob/orm/internal/SqlUtils.java:51-67 | an `INSERT` binds exactly one parameter per column, whether or not it is versioned (the version is written as the literal `0`) |
| SqlText.UpdateParameterCount | orm/src/main/java/org/medimob/orm/internal/SqlUtils.java:82-104 | an `UPDATE` binds one parameter per updated column, one for the id, and one more for the version when there is one |
| SqlText.UpdateEndsWithKeyParameters | orm/src/main/java/org/medimob/orm/internal/SqlUtils.java:69-104 | the id parameter, then the version parameter, are the last ones of an `UPDATE`, as its documentation promises |
| SqlText.DeleteParameterCount | orm/src/main/java/org/medimob/orm/internal/SqlUtils.java:23-36 | a `DELETE` binds one parameter per selection column |
| SqlText.InsertListExamples | orm/src/main/java/org/medimob/orm/internal/SqlUtils.java:139-158 | `'A','B'` and `?,?` for two columns |
| SqlText.InsertExample | orm/src/main/java/org/medimob/orm/internal/SqlUtils.java:51-67 | `INSERT INTO T ('A','B') VALUES (?,?)` |
| SqlText.InsertVersionedExample | orm/src/main/java/org/medimob/orm/internal/SqlUtils.java:51-67 | `INSERT INTO T ('A','B',V) VALUES (?,?,0)`: the version column starts at 0 and is not bound |
| SqlText.UpdateExample | orm/src/main/java/org/medimob/orm/internal/SqlUtils.java:82-104 | `UPDATE T SET 'A'=?,'B'=? WHERE ID=?` |
| SqlText.UpdateVersionedExample | orm/src/main/java/org/medimob/orm/internal/SqlUtils.java:82-104 | `UPDATE T SET 'A'=?,V=V + 1 WHERE ID=?,V=?` |
| SqlText.SetListExamples | orm/src/main/java/org/medimob/orm/internal/SqlUtils.java:106-115 | the `SET` list for one and for two columns |
| SqlText.EqValueListExamples | orm/src/main/java/org/medimob/orm/internal/SqlUtils.java:117-132 | the aliased list for one and for two columns |
| SqlText.DeleteExamples | orm/src/main/java/org/medimob/orm/internal/SqlUtils.java:23-36 | `DELETE FROM T WHERE T.'ID'=?`, and with a version `DELETE FROM T WHERE T.'ID'=?,T.'V'=?` |
| SqlAppend.AppendColumns | orm/src/main/java/org/medimob/orm/internal/SqlUtils.java:139-147 | appends the quoted columns separated by commas |
| SqlAppend.AppendPlaceholders | orm/src/main/java/org/medimob/orm/internal/SqlUtils.java:149-158 | appends `count` question marks separated by commas |
| SqlAppend.AppendColumnsEqualPlaceholders | orm/src/main/java/org/medimob/orm/internal/SqlUtils.java:106-115 | appends `'c'=?` for each column, separated by commas |
| SqlAppend.AppendColumnsEqValue | orm/src/main/java/org/medimob/orm/internal/SqlUtils.java:117-126 | appends `alias.'c'=?` for each column, separated by commas |
| SqlAppend.AppendAliasedColumn | orm/src/main/java/org/medimob/orm/internal/SqlUtils.java:128-132 | appends `alias.'column'` |
| SqlAppend.AppendColumn | orm/src/main/java/org/medimob/orm/internal/SqlUtils.java:134-137 | appends `'column'` |
| InternalSqlUtils.CreateSqlDelete | orm/src/main/java/org/medimob/orm/internal/SqlUtils.java:23-36 | the statement deletes where the id, and the version when there is one, equal their parameters |
| InternalSqlUtils.CreateSqlInsert | orm/src/main/java/org/medimob/orm/internal/SqlUtils.java:51-67 | the statement is the `INSERT` text, whose parameter count `SqlText.InsertParameterCount` gives |
| InternalSqlUtils.CreateSqlUpdate | orm/src/main/java/org/medimob/orm/internal/SqlUtils.java:82-104 | the statement is the `UPDATE` text, whose parameters `SqlText.UpdateParameterCount` counts |
| LegacySqlUtils.CreateSqlDelete | orm/src/main/java/org/medimob/orm/SqlUtils.java:14-22 | with no column (null or empty) the statement is the bare `DELETE FROM table`; otherwise it selects on every column |
| LegacySqlUtils.CreateSqlInsert | orm/src/main/java/org/medimob/orm/SqlUtils.java:24-40 | the statement starts with the caller's `insertInto` text and is otherwise the internal copy's `INSERT` |
| LegacySqlUtils.CreateSqlUpdate | orm/src/main/java/org/medimob/orm/SqlUtils.java:42-64 | the same `UPDATE` text as the internal copy |
| LegacySqlUtils.LegacyDeleteWithoutColumns | orm/src/main/java/org/medimob/orm/SqlUtils.java:14-22 | without columns the statement has no `WHERE` clause and deletes every row |
| LegacySqlUtils.DeleteCopiesAgree | orm/src/main/java/org/medimob/orm/SqlUtils.java:14-22 | on the id/version selection both copies write the same `DELETE` |
| LegacySqlUtils.LegacyDeleteExample | orm/src/main/java/org/medimob/orm/SqlUtils.java:14-22 | `DELETE FROM T WHERE T.'A'=?,T.'B'=?` |
| DefinitionUtils.NotNull | orm/src/main/java/org/medimob/orm/processor/dll/DefinitionUtils.java:16-20 | throws a `MappingException` with the caller's message exactly when the value is null |
| DefinitionUtils.NotEmpty | orm/src/main/java/org/medimob/orm/processor/dll/DefinitionUtils.java:22-26 | throws exactly when the string is null or empty |
| DefinitionUtils.NotEmptyCollection | orm/src/main/java/org/medimob/orm/processor/dll/DefinitionUtils.java:28-32 | throws exactly when the collection is null or empty |
| DefinitionUtils.AddOrThrowIfExist | orm/src/main/java/org/medimob/orm/processor/dll/DefinitionUtils.java:34-38 | throws exactly when the set holds an equal element; otherwise the set grows by the element |
| DefinitionUtils.SetAddAgain | orm/src/main/java/org/medimob/orm/processor/dll/DefinitionUtils.java:34-38 | adding an element that equals itself a second time leaves the set as it was |
| DefinitionUtils.AddKeepsDistinct | orm/src/main/java/org/medimob/orm/processor/dll/DefinitionUtils.java:34-38 | a successful add keeps the set free of equal pairs and grows it by exactly that element |
| SchemaKinds.MappedTypeClasses | orm/src/main/java/org/medimob/orm/processor/PropertyType.java:7-18 | which field kinds are stored as `NUMERIC`, `TEXT`, `INTEGER` and `REAL`, in both directions, and that only `BYTE_ARRAY` has no storage class |
| SchemaKinds.ConstraintScopes | orm/src/main/java/org/medimob/orm/processor/dll/Constraints.java:7-13 | which constraint kinds apply to tables only, to columns only, or to both; every kind applies to one of them |
| SchemaKinds.ConstraintSqlInjective | orm/src/main/java/org/medimob/orm/processor/dll/Constraints.java:7-13 | no two constraint kinds share their SQL text |
| Definitions.ConstraintEqualsProperties | orm/src/main/java/org/medimob/orm/processor/dll/ConstraintDefinition.java:31-43 | constraint equality is symmetric and transitive, and reflexive for named constraints; it ignores the statement and the case of the name, and never equates two kinds |
| Definitions.PropertyEqualsProperties | orm/src/main/java/org/medimob/orm/processor/dll/PropertyDefinition.java:65-75 | column equality is an equivalence that compares column names without regard to case |
| Definitions.IndexEqualsProperties | orm/src/main/java/org/medimob/orm/processor/dll/IndexDefinition.java:33-45 | index equality is an equivalence on the name and table name |
| Definitions.TriggerEqualsProperties | orm/src/main/java/org/medimob/orm/processor/dll/TriggerDefinition.java:33-46 | trigger equality is an equivalence on the name and table name |
| Definitions.TypeEqualsProperties | orm/src/main/java/org/medimob/orm/processor/dll/TypeDefinition.java:110-122 | table equality is an equivalence on the table name |
| Definitions.ConstraintHashCode | orm/src/main/java/org/medimob/orm/processor/dll/ConstraintDefinition.java:45-50 | the hash throws a `NullPointerException` exactly when the constraint has no name |
| Definitions.ConsistentHashSetAdd | orm/src/main/java/org/medimob/orm/processor/dll/DefinitionUtils.java:34-38 | when equal elements have equal hashes, `HashSet.add` refuses exactly the elements that `equals` finds in the set |
| Definitions.AsWrittenColumnSetAcceptsCaseVariant | orm/src/main/java/org/medimob/orm/processor/dll/PropertyDefinition.java:65-80 | a column `a` equals a column `A`, yet the column set of a table accepts both |
| Definitions.AsWrittenConstraintHashDiverges | orm/src/main/java/org/medimob/orm/processor/dll/ConstraintDefinition.java:31-50 | constraints named `a` and `A` are equal but hash differently |
| Definitions.AsWrittenIndexHashDiverges | orm/src/main/java/org/medimob/orm/processor/dll/IndexDefinition.java:33-52 | indexes named `a` and `A` on one table are equal but hash differently |
| Definitions.AsWrittenTriggerHashDiverges | orm/src/main/java/org/medimob/orm/processor/dll/TriggerDefinition.java:33-53 | triggers named `a` and `A` on one table are equal but hash differently |
| Definitions.AsWrittenTypeHashDiverges | orm/src/main/java/org/medimob/orm/processor/dll/TypeDefinition.java:110-127 | tables named `a` and `A` are equal but hash differently |
| Definitions.ConstraintHashCodeCorrected | orm/src/main/java/org/medimob/orm/processor/dll/ConstraintDefinition.java:45-50 | the corrected hash, on the upper-cased name, still throws exactly when the name is null |
| Definitions.CorrectedHashCodesAgreeWithEquals | orm/src/main/java/org/medimob/orm/processor/dll/ConstraintDefinition.java:31-50 | with names hashed upper-cased, equal constraints, columns, indexes, triggers and tables always hash alike |
| Definitions.CorrectedColumnSetAdd | orm/src/main/java/org/medimob/orm/processor/dll/PropertyDefinition.java:65-80 | with the corrected hash, the column set refuses exactly the columns equal to a member |
| Definitions.CorrectedIndexSetAdd | orm/src/main/java/org/medimob/orm/processor/dll/IndexDefinition.java:33-52 | with the corrected hash, the index set refuses exactly the indexes equal to a member |
| Definitions.CorrectedTriggerSetAdd | orm/src/main/java/org/medimob/orm/processor/dll/TriggerDefinition.java:33-53 | with the corrected hash, the trigger set refuses exactly the triggers equal to a member |
| Definitions.CorrectedColumnSetRefusesCaseVariant | orm/src/main/java/org/medimob/orm/processor/dll/PropertyDefinition.java:65-80 | with the corrected hash, the set holding column `A` refuses column `a` |
| ConstraintBuilder.InitialSpec | orm/src/main/java/org/medimob/orm/processor/dll/ConstraintDefinitionBuilder.java:30-40 | a new builder records only whether it builds a column constraint; the kind and the name are unset |
| ConstraintBuilder.Validate | orm/src/main/java/org/medimob/orm/processor/dll/ConstraintDefinitionBuilder.java:102-139 | validation passes exactly when the definition is complete; a table constraint without a name fails first with its own message; a `FOREIGN_KEY` fails with an `IllegalArgumentException`, and every other failure is a `MappingException` |
| ConstraintBuilder.ValidateKind | orm/src/main/java/org/medimob/orm/processor/dll/ConstraintDefinitionBuilder.java:106-138 | the per-kind checks: an expression for `CHECK`, `COLLATE` and `DEFAULT`; columns (for tables) and a conflict clause for keys; a conflict clause for `NOT NULL`; table and column for `REFERENCES`; `FOREIGN_KEY` is refused |
| ConstraintBuilder.BuildConstraint | orm/src/main/java/org/medimob/orm/processor/dll/ConstraintDefinitionBuilder.java:97-100 | `build()` succeeds exactly when validation passes, then keeps the kind and name and carries the rendered statement; otherwise it throws the validation error |
| ConstraintBuilder.CheckStatement | orm/src/main/java/org/medimob/orm/processor/dll/ConstraintDefinitionBuilder.java:147-153 | a `CHECK` renders as `[CONSTRAINT CHK_<NAME> ]CHECK (<exp>)` |
| ConstraintBuilder.NotNullStatement | orm/src/main/java/org/medimob/orm/processor/dll/ConstraintDefinitionBuilder.java:214-219 | a `NOT NULL` renders as `[CONSTRAINT NNL_<NAME> ]NOT NULL`; its conflict clause is validated but never written |
| ConstraintBuilder.ValueStatement | orm/src/main/java/org/medimob/orm/processor/dll/ConstraintDefinitionBuilder.java:200-213 | a `DEFAULT` or `COLLATE` renders as the lead, the keyword and the expression, trimmed at its end |
| ConstraintBuilder.VisibleValueStatement | orm/src/main/java/org/medimob/orm/processor/dll/ConstraintDefinitionBuilder.java:200-213 | with an expression that ends in a visible character, it is written in full after one blank |
| ConstraintBuilder.TableKeyStatement | orm/src/main/java/org/medimob/orm/processor/dll/ConstraintDefinitionBuilder.java:154-183 | a table `PRIMARY KEY` or `UNIQUE` renders as `CONSTRAINT <P><NAME> <KIND> ( <c1> ,<c2> ) ON CONFLICT <clause>` |
| ConstraintBuilder.ColumnAutoincrementStatement | orm/src/main/java/org/medimob/orm/processor/dll/ConstraintDefinitionBuilder.java:165-176 | a column primary key with autoincrement renders as `PRIMARY KEY[ <sort>] AUTOINCREMENT` |
| ConstraintBuilder.ColumnPrimaryKeyStatement | orm/src/main/java/org/medimob/orm/processor/dll/ConstraintDefinitionBuilder.java:165-176 | a column primary key without autoincrement renders as `PRIMARY KEY` followed by its sort order, if that order writes anything |
| ConstraintBuilder.ColumnReferencesStatement | orm/src/main/java/org/medimob/orm/processor/dll/ConstraintDefinitionBuilder.java:184-197 | a column reference renders as `REFERENCES <table> (<column>)` followed by the `ON DELETE` and `ON UPDATE` actions that are set |
| ConstraintBuilder.ColumnUniqueStatement | orm/src/main/java/org/medimob/orm/processor/dll/ConstraintDefinitionBuilder.java:154-164 | a column `UNIQUE` renders as the empty statement |
| ConstraintBuilder.TableReferencesStatement | orm/src/main/java/org/medimob/orm/processor/dll/ConstraintDefinitionBuilder.java:143-145 | a table `REFERENCES` renders as the bare word `CONSTRAINT` |
| ConstraintBuilder.TablePrimaryKeyExample | orm/src/main/java/org/medimob/orm/processor/dll/ConstraintDefinitionBuilder.java:97-183 | a table primary key `id` on `A`, `B` builds `CONSTRAINT PK_ID PRIMARY KEY ( A ,B ) ON CONFLICT ROLLBACK` |
| ConstraintBuilder.ConstraintDefinitionBuilder.NewTableConstraint | orm/src/main/java/org/medimob/orm/processor/dll/ConstraintDefinitionBuilder.java:30-36 | a table constraint builder starts with every field unset |
| ConstraintBuilder.ConstraintDefinitionBuilder.NewColumnConstraint | orm/src/main/java/org/medimob/orm/processor/dll/ConstraintDefinitionBuilder.java:30-40 | a column constraint builder starts with every field unset and the column flag on |
| ConstraintBuilder.ConstraintDefinitionBuilder.SetOnDeleteAction | orm/src/main/java/org/medimob/orm/processor/dll/ConstraintDefinitionBuilder.java:42-45 | sets the `ON DELETE` action and nothing else |
| ConstraintBuilder.ConstraintDefinitionBuilder.SetOnUpdateAction | orm/src/main/java/org/medimob/orm/processor/dll/ConstraintDefinitionBuilder.java:47-50 | sets the `ON UPDATE` action and nothing else |
| ConstraintBuilder.ConstraintDefinitionBuilder.SetReferenceColumn | orm/src/main/java/org/medimob/orm/processor/dll/ConstraintDefinitionBuilder.java:52-55 | sets the referenced column and nothing else |
| ConstraintBuilder.ConstraintDefinitionBuilder.SetReferenceTable | orm/src/main/java/org/medimob/orm/processor/dll/ConstraintDefinitionBuilder.java:57-60 | sets the referenced table and nothing else |
| ConstraintBuilder.ConstraintDefinitionBuilder.SetType | orm/src/main/java/org/medimob/orm/processor/dll/ConstraintDefinitionBuilder.java:62-65 | sets the kind and nothing else |
| ConstraintBuilder.ConstraintDefinitionBuilder.SetName | orm/src/main/java/org/medimob/orm/processor/dll/ConstraintDefinitionBuilder.java:67-70 | sets the name and nothing else |
| ConstraintBuilder.ConstraintDefinitionBuilder.SetColumnNames | orm/src/main/java/org/medimob/orm/processor/dll/ConstraintDefinitionBuilder.java:72-75 | sets the columns and nothing else |
| ConstraintBuilder.ConstraintDefinitionBuilder.SetExp | orm/src/main/java/org/medimob/orm/processor/dll/ConstraintDefinitionBuilder.java:77-80 | sets the expression and nothing else |
| ConstraintBuilder.ConstraintDefinitionBuilder.SetConflictClause | orm/src/main/java/org/medimob/orm/processor/dll/ConstraintDefinitionBuilder.java:82-85 | sets the conflict clause and nothing else |
| ConstraintBuilder.ConstraintDefinitionBuilder.SetSort | orm/src/main/java/org/medimob/orm/processor/dll/ConstraintDefinitionBuilder.java:87-90 | sets the sort order and nothing else |
| ConstraintBuilder.ConstraintDefinitionBuilder.SetAutoincrement | orm/src/main/java/org/medimob/orm/processor/dll/ConstraintDefinitionBuilder.java:92-95 | sets the autoincrement flag and nothing else |
| ConstraintBuilder.ConstraintDefinitionBuilder.Build | orm/src/main/java/org/medimob/orm/processor/dll/ConstraintDefinitionBuilder.java:97-100 | returns what `BuildConstraint` gives for the builder's fields |
| ConstraintBuilder.ConstraintDefinitionBuilder.GetStatement | orm/src/main/java/org/medimob/orm/processor/dll/ConstraintDefinitionBuilder.java:141-224 | the statement is the rendered text trimmed |
| ConstraintBuilder.ConstraintDefinitionBuilder.Render | orm/src/main/java/org/medimob/orm/processor/dll/ConstraintDefinitionBuilder.java:142-222 | the builder receives `CONSTRAINT` (for tables) and then the text of the constraint's kind |
| ConstraintBuilder.ConstraintDefinitionBuilder.RenderCheck | orm/src/main/java/org/medimob/orm/processor/dll/ConstraintDefinitionBuilder.java:147-153 | appends the name, `CHECK` and the bracketed expression |
| ConstraintBuilder.ConstraintDefinitionBuilder.RenderUnique | orm/src/main/java/org/medimob/orm/processor/dll/ConstraintDefinitionBuilder.java:154-164 | appends the name, `UNIQUE`, the column list and the conflict clause for a table, and nothing for a column |
| ConstraintBuilder.ConstraintDefinitionBuilder.RenderPrimaryKey | orm/src/main/java/org/medimob/orm/processor/dll/ConstraintDefinitionBuilder.java:165-183 | appends the name, `PRIMARY KEY`, then the sort and autoincrement (column) or the column list and conflict clause (table) |
| ConstraintBuilder.ConstraintDefinitionBuilder.RenderReferences | orm/src/main/java/org/medimob/orm/processor/dll/ConstraintDefinitionBuilder.java:184-199 | appends the target and the actions that are set for a column, and nothing for a table |
| ConstraintBuilder.ConstraintDefinitionBuilder.RenderValue | orm/src/main/java/org/medimob/orm/processor/dll/ConstraintDefinitionBuilder.java:200-213 | appends the name, the keyword and the expression |
| ConstraintBuilder.ConstraintDefinitionBuilder.RenderNotNull | orm/src/main/java/org/medimob/orm/processor/dll/ConstraintDefinitionBuilder.java:214-219 | appends the name and `NOT NULL` |
| PropertyBuilder.Validate | orm/src/main/java/org/medimob/orm/processor/dll/PropertyDefinitionBuilder.java:60-67 | validation passes exactly when the column name and field name are non-empty, the kind is set, and a `DATE_STRING` column has a date format; the checks fail in that order, each with its own message |
| PropertyBuilder.BuildProperty | orm/src/main/java/org/medimob/orm/processor/dll/PropertyDefinitionBuilder.java:55-58 | `build()` succeeds exactly when validation passes and then copies every field and the rendered statement; otherwise it throws the validation error |
| PropertyBuilder.ConstraintStatementsAt | orm/src/main/java/org/medimob/orm/processor/dll/PropertyDefinitionBuilder.java:75-77 | the constraint words are the constraints' statements, one each, in order |
| PropertyBuilder.StatementJoined | orm/src/main/java/org/medimob/orm/processor/dll/PropertyDefinitionBuilder.java:69-79 | the column statement is the upper-cased column name, the storage class and the constraint statements joined by blanks, trimmed at its end |
| PropertyBuilder.NotNullColumnExample | orm/src/main/java/org/medimob/orm/processor/dll/PropertyDefinitionBuilder.java:69-79 | a `STRING` column `name` with one `NOT NULL` constraint renders `NAME TEXT NOT NULL` |
| PropertyBuilder.PropertyDefinitionBuilder.constructor | orm/src/main/java/org/medimob/orm/processor/dll/PropertyDefinitionBuilder.java:10-18 | a new builder has no field set and no constraint |
| PropertyBuilder.PropertyDefinitionBuilder.SetFieldName | orm/src/main/java/org/medimob/orm/processor/dll/PropertyDefinitionBuilder.java:20-23 | sets the field name and nothing else |
| PropertyBuilder.PropertyDefinitionBuilder.SetColumnName | orm/src/main/java/org/medimob/orm/processor/dll/PropertyDefinitionBuilder.java:25-28 | sets the column name and nothing else |
| PropertyBuilder.PropertyDefinitionBuilder.SetPropertyType | orm/src/main/java/org/medimob/orm/processor/dll/PropertyDefinitionBuilder.java:30-33 | sets the kind and nothing else |
| PropertyBuilder.PropertyDefinitionBuilder.SetDateFormat | orm/src/main/java/org/medimob/orm/processor/dll/PropertyDefinitionBuilder.java:35-38 | sets the date format and nothing else |
| PropertyBuilder.PropertyDefinitionBuilder.AddConstraints | orm/src/main/java/org/medimob/orm/processor/dll/PropertyDefinitionBuilder.java:40-43 | a constraint equal to one already held is refused with a `MappingException` and changes nothing; any other constraint joins the set; the set never holds two equal constraints |
| PropertyBuilder.PropertyDefinitionBuilder.SetInsertable | orm/src/main/java/org/medimob/orm/processor/dll/PropertyDefinitionBuilder.java:45-48 | sets the insertable flag and nothing else |
| PropertyBuilder.PropertyDefinitionBuilder.SetUpdateable | orm/src/main/java/org/medimob/orm/processor/dll/PropertyDefinitionBuilder.java:50-53 | sets the updateable flag and nothing else |
| PropertyBuilder.PropertyDefinitionBuilder.Build | orm/src/main/java/org/medimob/orm/processor/dll/PropertyDefinitionBuilder.java:55-58 | returns what `BuildProperty` gives for the builder's fields |
| PropertyBuilder.PropertyDefinitionBuilder.GetStatement | orm/src/main/java/org/medimob/orm/processor/dll/PropertyDefinitionBuilder.java:69-79 | the statement is the column words, trimmed |
| PropertyBuilder.PropertyDefinitionBuilder.AppendConstraintWords | orm/src/main/java/org/medimob/orm/processor/dll/PropertyDefinitionBuilder.java:75-77 | the loop appends every constraint statement as one word, in the set's order |
| IndexBuilder.Validate | orm/src/main/java/org/medimob/orm/processor/dll/IndexDefinitionBuilder.java:42-46 | validation passes exactly when the name and table are non-empty and the columns are set; the checks fail in that order, each with its own message |
| IndexBuilder.BuildIndex | orm/src/main/java/org/medimob/orm/processor/dll/IndexDefinitionBuilder.java:37-40 | `build()` succeeds exactly when validation passes and then keeps the name and table with the rendered statement; otherwise it throws the validation error |
| IndexBuilder.StatementShape | orm/src/main/java/org/medimob/orm/processor/dll/IndexDefinitionBuilder.java:48-66 | the statement is the head words joined by blanks, the bracketed column list, and the `WHERE` words trimmed at the end |
| IndexBuilder.IndexStatement | orm/src/main/java/org/medimob/orm/processor/dll/IndexDefinitionBuilder.java:48-66 | the statement is `CREATE [UNIQUE ]INDEX <NAME> ON <TABLE> ( <c1> ,<c2> )` followed, when a where clause is set, by `WHERE` and the index's own name; `UNIQUE` appears exactly for unique indexes |
| IndexBuilder.UniqueIndexExample | orm/src/main/java/org/medimob/orm/processor/dll/IndexDefinitionBuilder.java:48-66 | a unique index `i` on `t` over `a`, `b` renders `CREATE UNIQUE INDEX I ON T ( a ,b )` |
| IndexBuilder.IndexDefinitionBuilder.constructor | orm/src/main/java/org/medimob/orm/processor/dll/IndexDefinitionBuilder.java:5-10 | a new builder has no field set and is not unique |
| IndexBuilder.IndexDefinitionBuilder.SetName | orm/src/main/java/org/medimob/orm/processor/dll/IndexDefinitionBuilder.java:12-15 | sets the name and nothing else |
| IndexBuilder.IndexDefinitionBuilder.SetTableName | orm/src/main/java/org/medimob/orm/processor/dll/IndexDefinitionBuilder.java:17-20 | sets the table and nothing else |
| IndexBuilder.IndexDefinitionBuilder.SetUnique | orm/src/main/java/org/medimob/orm/processor/dll/IndexDefinitionBuilder.java:22-25 | sets the unique flag and nothing else |
| IndexBuilder.IndexDefinitionBuilder.SetColumns | orm/src/main/java/org/medimob/orm/processor/dll/IndexDefinitionBuilder.java:27-30 | sets the columns and nothing else |
| IndexBuilder.IndexDefinitionBuilder.SetWhere | orm/src/main/java/org/medimob/orm/processor/dll/IndexDefinitionBuilder.java:32-35 | sets the where clause and nothing else |
| IndexBuilder.IndexDefinitionBuilder.Build | orm/src/main/java/org/medimob/orm/processor/dll/IndexDefinitionBuilder.java:37-40 | returns what `BuildIndex` gives for the builder's fields |
| IndexBuilder.IndexDefinitionBuilder.CreateStatement | orm/src/main/java/org/medimob/orm/processor/dll/IndexDefinitionBuilder.java:48-66 | the statement is the rendered text trimmed |
| IndexBuilder.IndexDefinitionBuilder.AppendHead | orm/src/main/java/org/medimob/orm/processor/dll/IndexDefinitionBuilder.java:49-57 | the builder receives the head words, with `UNIQUE` only for unique indexes |
| TriggerBuilder.Validate | orm/src/main/java/org/medimob/orm/processor/dll/TriggerDefinitionBuilder.java:56-61 | validation passes exactly when the name is non-empty, the type is set, the table is non-empty and the statements are set; the checks fail in that order, each with its own message |
| TriggerBuilder.BuildTrigger | orm/src/main/java/org/medimob/orm/processor/dll/TriggerDefinitionBuilder.java:51-54 | `build()` succeeds exactly when validation passes and then keeps the name and table with the rendered statement; otherwise it throws the validation error |
| TriggerBuilder.TriggerStatement | orm/src/main/java/org/medimob/orm/processor/dll/TriggerDefinitionBuilder.java:63-89 | the statement is the head words joined by blanks, then ` WHERE (<when>) ` when a condition is set, then ` BEGIN`, the statements separated by ` ;`, and ` END` |
| TriggerBuilder.BodySeparators | orm/src/main/java/org/medimob/orm/processor/dll/TriggerDefinitionBuilder.java:85-87 | a body of `n` statements that hold no `;` carries exactly `n - 1` separators |
| TriggerBuilder.BodyExample | orm/src/main/java/org/medimob/orm/processor/dll/TriggerDefinitionBuilder.java:85-87 | the statements `a`, `b` render as `BEGINa ;b END`: no blank follows `BEGIN` |
| TriggerBuilder.HeadExample | orm/src/main/java/org/medimob/orm/processor/dll/TriggerDefinitionBuilder.java:65-80 | an `AFTER INSERT` trigger `t` on `x` for each row has the head words `CREATE TRIGGER TRI_T AFTER INSERT ON X FOR EACH ROW` |
| TriggerBuilder.TriggerDefinitionBuilder.constructor | orm/src/main/java/org/medimob/orm/processor/dll/TriggerDefinitionBuilder.java:6-14 | a new builder has no field set and every flag off |
| TriggerBuilder.TriggerDefinitionBuilder.SetName | orm/src/main/java/org/medimob/orm/processor/dll/TriggerDefinitionBuilder.java:16-19 | sets the name and nothing else |
| TriggerBuilder.TriggerDefinitionBuilder.SetTableName | orm/src/main/java/org/medimob/orm/processor/dll/TriggerDefinitionBuilder.java:21-24 | sets the table and nothing else |
| TriggerBuilder.TriggerDefinitionBuilder.SetTemporary | orm/src/main/java/org/medimob/orm/processor/dll/TriggerDefinitionBuilder.java:26-29 | sets the temporary flag and nothing else |
| TriggerBuilder.TriggerDefinitionBuilder.SetTriggerType | orm/src/main/java/org/medimob/orm/processor/dll/TriggerDefinitionBuilder.java:31-34 | sets the type and nothing else |
| TriggerBuilder.TriggerDefinitionBuilder.SetForEachRow | orm/src/main/java/org/medimob/orm/processor/dll/TriggerDefinitionBuilder.java:36-39 | sets the row flag and nothing else |
| TriggerBuilder.TriggerDefinitionBuilder.SetWhen | orm/src/main/java/org/medimob/orm/processor/dll/TriggerDefinitionBuilder.java:41-44 | sets the condition and nothing else |
| TriggerBuilder.TriggerDefinitionBuilder.SetStatements | orm/src/main/java/org/medimob/orm/processor/dll/TriggerDefinitionBuilder.java:46-49 | sets the statements and nothing else |
| TriggerBuilder.TriggerDefinitionBuilder.Build | orm/src/main/java/org/medimob/orm/processor/dll/TriggerDefinitionBuilder.java:51-54 | returns what `BuildTrigger` gives for the builder's fields |
| TriggerBuilder.TriggerDefinitionBuilder.CreateStatement | orm/src/main/java/org/medimob/orm/processor/dll/TriggerDefinitionBuilder.java:63-89 | the statement is the rendered text trimmed |
| TriggerBuilder.TriggerDefinitionBuilder.AppendHead | orm/src/main/java/org/medimob/orm/processor/dll/TriggerDefinitionBuilder.java:65-80 | the builder receives the lead and the target words |
| TriggerBuilder.TriggerDefinitionBuilder.AppendLead | orm/src/main/java/org/medimob/orm/processor/dll/TriggerDefinitionBuilder.java:65-70 | appends `CREATE`, `TEMPORARY` for temporary triggers, `TRIGGER` and `TRI_<NAME>` |
| TriggerBuilder.TriggerDefinitionBuilder.AppendTarget | orm/src/main/java/org/medimob/orm/processor/dll/TriggerDefinitionBuilder.java:71-80 | appends the type, the table and the row clause |
| TriggerBuilder.TriggerDefinitionBuilder.AppendType | orm/src/main/java/org/medimob/orm/processor/dll/TriggerDefinitionBuilder.java:71-73 | appends the type's SQL when a type is set |
| TriggerBuilder.TriggerDefinitionBuilder.AppendTable | orm/src/main/java/org/medimob/orm/processor/dll/TriggerDefinitionBuilder.java:74-75 | appends `ON` and the upper-cased table |
| TriggerBuilder.TriggerDefinitionBuilder.AppendRows | orm/src/main/java/org/medimob/orm/processor/dll/TriggerDefinitionBuilder.java:76-80 | appends `FOR EACH ROW` exactly for row triggers |
| TypeBuilder.Validate | orm/src/main/java/org/medimob/orm/processor/dll/TypeDefinitionBuilder.java:156-161 | validation passes exactly when the qualified name, simple name and package are non-empty and the id column is set; the checks fail in that order, each with its own message |
| TypeBuilder.BuildType | orm/src/main/java/org/medimob/orm/processor/dll/TypeDefinitionBuilder.java:143-154 | `build()` throws the validation error when validation fails, a `NullPointerException` when it passes without a table name, and otherwise copies every field, every collection and the rendered statement |
| TypeBuilder.TableStatement | orm/src/main/java/org/medimob/orm/processor/dll/TypeDefinitionBuilder.java:163-176 | the statement is `CREATE [TEMPORARY ]TABLE <TABLE>` followed by `AS <statement>` exactly when a non-empty `AS` statement is set, with its words counted; it lists no column |
| TypeBuilder.TemporaryTableExample | orm/src/main/java/org/medimob/orm/processor/dll/TypeDefinitionBuilder.java:163-176 | a temporary table `t` renders `CREATE TEMPORARY TABLE T` |
| TypeBuilder.TypeDefinitionBuilder.constructor | orm/src/main/java/org/medimob/orm/processor/dll/TypeDefinitionBuilder.java:13-29 | a new builder has no field set and four empty sets |
| TypeBuilder.TypeDefinitionBuilder.SetTableName | orm/src/main/java/org/medimob/orm/processor/dll/TypeDefinitionBuilder.java:31-34 | sets the table name and nothing else |
| TypeBuilder.TypeDefinitionBuilder.SetTypeSimpleName | orm/src/main/java/org/medimob/orm/processor/dll/TypeDefinitionBuilder.java:36-39 | sets the simple name and nothing else |
| TypeBuilder.TypeDefinitionBuilder.SetTypeQualifiedName | orm/src/main/java/org/medimob/orm/processor/dll/TypeDefinitionBuilder.java:41-44 | sets the qualified name and nothing else |
| TypeBuilder.TypeDefinitionBuilder.SetPackageName | orm/src/main/java/org/medimob/orm/processor/dll/TypeDefinitionBuilder.java:46-49 | sets the package and nothing else |
| TypeBuilder.TypeDefinitionBuilder.SetBeforeInsertMethod | orm/src/main/java/org/medimob/orm/processor/dll/TypeDefinitionBuilder.java:51-54 | sets the before-insert hook and nothing else |
| TypeBuilder.TypeDefinitionBuilder.SetBeforeUpdateMethod | orm/src/main/java/org/medimob/orm/processor/dll/TypeDefinitionBuilder.java:56-59 | sets the before-update hook and nothing else |
| TypeBuilder.TypeDefinitionBuilder.SetBeforeDeleteMethod | orm/src/main/java/org/medimob/orm/processor/dll/TypeDefinitionBuilder.java:61-64 | sets the before-delete hook and nothing else |
| TypeBuilder.TypeDefinitionBuilder.SetTemporary | orm/src/main/java/org/medimob/orm/processor/dll/TypeDefinitionBuilder.java:66-69 | sets the temporary flag and nothing else |
| TypeBuilder.TypeDefinitionBuilder.SetAsStatement | orm/src/main/java/org/medimob/orm/processor/dll/TypeDefinitionBuilder.java:71-74 | sets the `AS` statement and nothing else |
| TypeBuilder.TypeDefinitionBuilder.SetIdColumn | orm/src/main/java/org/medimob/orm/processor/dll/TypeDefinitionBuilder.java:76-79 | sets the id column and nothing else |
| TypeBuilder.TypeDefinitionBuilder.SetVersionColumn | orm/src/main/java/org/medimob/orm/processor/dll/TypeDefinitionBuilder.java:81-84 | sets the version column and nothing else |
| TypeBuilder.TypeDefinitionBuilder.AddColumn | orm/src/main/java/org/medimob/orm/processor/dll/TypeDefinitionBuilder.java:93-97 | a column equal to one already held is refused with a message naming it, changing nothing; any other column joins the set (the second `add` finds it there); no set holds two equal members |
| TypeBuilder.TypeDefinitionBuilder.AddConstraint | orm/src/main/java/org/medimob/orm/processor/dll/TypeDefinitionBuilder.java:106-111 | a constraint equal to one already held is refused and changes nothing; any other joins the set |
| TypeBuilder.TypeDefinitionBuilder.AddTrigger | orm/src/main/java/org/medimob/orm/processor/dll/TypeDefinitionBuilder.java:120-123 | a trigger equal to one already held is refused with a message naming it, changing nothing; any other joins the set |
| TypeBuilder.TypeDefinitionBuilder.AddIndex | orm/src/main/java/org/medimob/orm/processor/dll/TypeDefinitionBuilder.java:132-135 | an index equal to one already held is refused with a message naming it, changing nothing; any other joins the set |
| TypeBuilder.TypeDefinitionBuilder.Build | orm/src/main/java/org/medimob/orm/processor/dll/TypeDefinitionBuilder.java:143-154 | returns what `BuildType` gives for the builder's fields |
| TypeBuilder.TypeDefinitionBuilder.CreateStatement | orm/src/main/java/org/medimob/orm/processor/dll/TypeDefinitionBuilder.java:163-176 | the statement is the table words, trimmed |
| TypeBuilder.TypeDefinitionBuilder.AppendLead | orm/src/main/java/org/medimob/orm/processor/dll/TypeDefinitionBuilder.java:164-170 | appends `CREATE`, `TEMPORARY` for temporary tables, `TABLE` and the upper-cased table name |
| TypeBuilder.TypeDefinitionBuilder.AppendAs | orm/src/main/java/org/medimob/orm/processor/dll/TypeDefinitionBuilder.java:171-174 | appends `AS` and the statement exactly when the statement is non-empty |
| ProcessorUtils.ResolveTableName | orm/src/main/java/org/medimob/orm/processor/ProcessorUtils.java:42-50 | with no declared name the table is the class's simple name, kept as it is; otherwise it is the declared name upper-cased |
| ProcessorUtils.ResolveColumnName | orm/src/main/java/org/medimob/orm/processor/ProcessorUtils.java:59-69 | the column name is always upper case, and equals the declared name, or the field name when none is declared, up to case |
| ProcessorUtils.UnderscoreNameUpper | orm/src/main/java/org/medimob/orm/processor/ProcessorUtils.java:93-103 | a generated constraint or index name is upper case |
| ProcessorUtils.UnderscoreNameCount | orm/src/main/java/org/medimob/orm/processor/ProcessorUtils.java:93-103 | a generated name holds at least one underscore per column, and exactly one per column when no column name holds one |
| ProcessorUtils.ResolvedNameCases | orm/src/main/java/org/medimob/orm/processor/ProcessorUtils.java:93-103 | a declared name is kept as it is; with none, the generated name is empty exactly when there is no column, and is upper case |
| ProcessorUtils.TwoColumnNameExample | orm/src/main/java/org/medimob/orm/processor/ProcessorUtils.java:93-103 | columns `a`, `b` give the name `_A_B` |
| ProcessorUtils.ResolveName | orm/src/main/java/org/medimob/orm/processor/ProcessorUtils.java:93-103 | the loop builds `_<COL1>_<COL2>…` when no name is declared, and the declared name otherwise |
| ProcessorUtils.ResolveUniqueName | orm/src/main/java/org/medimob/orm/processor/ProcessorUtils.java:78-80 | a `@Unique` constraint is named by the same rule |
| ProcessorUtils.ResolveIndexName | orm/src/main/java/org/medimob/orm/processor/ProcessorUtils.java:89-91 | an `@Index` is named by the same rule |
| ProcessorUtils.RawTypeText | orm/src/main/java/org/medimob/orm/processor/ProcessorUtils.java:204-216 | a class outside any package is its qualified name with every `.` replaced by the separator; inside a package, a qualified name too short for the package throws `StringIndexOutOfBoundsException` |
| ProcessorUtils.RawTypeShape | orm/src/main/java/org/medimob/orm/processor/ProcessorUtils.java:204-216 | inside a package the text keeps the package and its dot, then replaces every later `.` by the separator, and keeps the length |
| ProcessorUtils.NestedTypeExample | orm/src/main/java/org/medimob/orm/processor/ProcessorUtils.java:204-216 | class `a.b.C.D` in package `a.b` is written `a.b.C$D` with the `$` separator |
| ProcessorUtils.BoxIsInjective | orm/src/main/java/org/medimob/orm/processor/ProcessorUtils.java:218-241 | every primitive kind boxes to a different `java.lang` class |
| PropertyProcessor.FindTypeSound | orm/src/main/java/org/medimob/orm/processor/PropertyProcessor.java:283-287 | a kind the lookup finds for a name is a kind whose Java type has that name |
| PropertyProcessor.FindTypeComplete | orm/src/main/java/org/medimob/orm/processor/PropertyProcessor.java:283-287 | every name in the lookup is found |
| PropertyProcessor.LookupEntries | orm/src/main/java/org/medimob/orm/processor/PropertyProcessor.java:35-54 | the lookup holds every kind except `DATE_STRING`, each with the canonical name of its Java type |
| PropertyProcessor.LookupNamesDistinct | orm/src/main/java/org/medimob/orm/processor/PropertyProcessor.java:35-54 | no two kinds share a type name, so the map's iteration order cannot change what `getFieldType` finds |
| PropertyProcessor.FieldTypeByName | orm/src/main/java/org/medimob/orm/processor/PropertyProcessor.java:281-289 | a non-array field has kind `t` exactly when its type's name is `t`'s Java type; no field is ever typed `DATE_STRING` |
| PropertyProcessor.FindTypeExact | orm/src/main/java/org/medimob/orm/processor/PropertyProcessor.java:283-287 | the search over the entries finds kind `t` exactly for `t`'s name |
| PropertyProcessor.DateIsDateLong | orm/src/main/java/org/medimob/orm/processor/PropertyProcessor.java:49 | a `java.util.Date` field is stored as `DATE_LONG` |
| PropertyProcessor.GetFieldType | orm/src/main/java/org/medimob/orm/processor/PropertyProcessor.java:270-290 | a primitive `byte` array is `BYTE_ARRAY`, any other array throws `Only array of byte are handled`, and any other type is looked up by name, with null when it is not found |
| PropertyProcessor.ColumnConstraint | orm/src/main/java/org/medimob/orm/processor/PropertyProcessor.java:85-87 | a column constraint builder of the given kind and name |
| PropertyProcessor.AddConstraintTo | orm/src/main/java/org/medimob/orm/processor/PropertyProcessor.java:40-43 | adding a built constraint to a column: the constraint must build, and it then joins the column's constraints; a constraint that cannot be built throws its validation error |
| PropertyProcessor.AddEachAppend | orm/src/main/java/org/medimob/orm/processor/PropertyProcessor.java:161-165 | adding two runs of constraints is adding the first, then, unless that threw, the second |
| PropertyProcessor.BuiltKinds | orm/src/main/java/org/medimob/orm/processor/PropertyProcessor.java:161-165 | building a run of complete constraints keeps their number and their kinds |
| PropertyProcessor.AddFresh | orm/src/main/java/org/medimob/orm/processor/PropertyProcessor.java:40-43 | a complete constraint whose kind the column does not yet have is always added |
| PropertyProcessor.AddEachDistinct | orm/src/main/java/org/medimob/orm/processor/PropertyProcessor.java:161-165 | a run of complete constraints of kinds the column lacks, no two alike, is added in full and in order |
| PropertyProcessor.WithFreshConstraints | orm/src/main/java/org/medimob/orm/processor/PropertyProcessor.java:80-92 | building a column after such a run is building it with those constraints appended |
| PropertyProcessor.IdPropertyFacts | orm/src/main/java/org/medimob/orm/processor/PropertyProcessor.java:73-96 | an `@Id` field not of type `Long` throws `@Id column must be of type long`; a `Long` one builds its column with a primary key |
| PropertyProcessor.IdColumnBuilds | orm/src/main/java/org/medimob/orm/processor/PropertyProcessor.java:80-92 | the id column builds exactly when the id name and the field name are non-empty, and is then a `LONG` column of that name |
| PropertyProcessor.VersionPropertyFacts | orm/src/main/java/org/medimob/orm/processor/PropertyProcessor.java:98-122 | a `@Version` field that is not a `Long` or `Integer` throws; otherwise it builds its column with the two version constraints |
| PropertyProcessor.VersionColumnBuilds | orm/src/main/java/org/medimob/orm/processor/PropertyProcessor.java:105-119 | the version column builds exactly when its names are non-empty, and carries `DEFAULT 0` and then `NOT NULL` |
| PropertyProcessor.UniquePrecedence | orm/src/main/java/org/medimob/orm/processor/PropertyProcessor.java:172-188 | a field has one `UNIQUE` constraint when it has `@Unique` or `unique = true`, and `@Unique` then decides its name and conflict clause, whatever the flag says |
| PropertyProcessor.NotNullPrecedence | orm/src/main/java/org/medimob/orm/processor/PropertyProcessor.java:190-207 | a field has one `NOT NULL` constraint when it has `@NotNull` or `notNull = true`; `@NotNull` decides the conflict clause, which is otherwise `ROLLBACK` |
| PropertyProcessor.CheckPrecedence | orm/src/main/java/org/medimob/orm/processor/PropertyProcessor.java:232-248 | a field has one `CHECK` when it has `@Check` or a non-empty `check`; `@Check`'s expression wins |
| PropertyProcessor.DefaultCollateWhenDeclared | orm/src/main/java/org/medimob/orm/processor/PropertyProcessor.java:250-268 | `DEFAULT` and `COLLATE` are added exactly when their values are non-empty, with those values |
| PropertyProcessor.LeadSpecsAdd | orm/src/main/java/org/medimob/orm/processor/PropertyProcessor.java:161-164 | the `DEFAULT`, `COLLATE`, `UNIQUE` and `NOT NULL` constraints of a field are always accepted, because their kinds differ |
| PropertyProcessor.ColumnConstraintsAdd | orm/src/main/java/org/medimob/orm/processor/PropertyProcessor.java:161-165 | a field's constraints are all added, in that order, except that an empty `@Check` expression throws `Check expression cannot be empty` |
| PropertyProcessor.FieldPrecedence | orm/src/main/java/org/medimob/orm/processor/PropertyProcessor.java:56-71 | `@Id` wins over `@Version`, which wins over `@Column`; a field with none of them changes nothing |
| PropertyProcessor.AddEachKeeps | orm/src/main/java/org/medimob/orm/processor/PropertyProcessor.java:161-165 | adding constraints changes nothing about a column but its constraints |
| PropertyProcessor.ColumnTypeRules | orm/src/main/java/org/medimob/orm/processor/PropertyProcessor.java:139-147 | a field of no known type whose type is not an `@Entity` throws; a field of no known type never becomes a column |
| PropertyProcessor.IndexRules | orm/src/main/java/org/medimob/orm/processor/PropertyProcessor.java:209-230 | a field gets an index exactly when it has `@Index` or `indexed = true`; the index is named after the column, covers that one column, is never unique, and carries a where clause exactly when `@Index` is present |
| PropertyProcessor.IndexIgnoresAnnotation | orm/src/main/java/org/medimob/orm/processor/PropertyProcessor.java:220-229 | of `@Index`, only `where` is read: its name, columns and unique flag change nothing |
| PropertyProcessor.IndexEffectFrame | orm/src/main/java/org/medimob/orm/processor/PropertyProcessor.java:209-230 | an index that fails to build, or equals one the table has, leaves the table as it was; otherwise it is appended to the table's indexes |
| PropertyProcessor.AddColumnEffectFrame | orm/src/main/java/org/medimob/orm/processor/PropertyProcessor.java:169 | `addColumn` succeeds exactly when the column builds and equals no column of the table, and then appends it |
| PropertyProcessor.ColumnEffectFrame | orm/src/main/java/org/medimob/orm/processor/PropertyProcessor.java:124-170 | a `@Column` field changes nothing of the table but its columns and indexes; it adds one column exactly when it succeeds, and at most one index |
| PropertyProcessor.ColumnEffectAdds | orm/src/main/java/org/medimob/orm/processor/PropertyProcessor.java:124-170 | a `@Column` field that succeeds had a known type, and adds one new column under its resolved name, equal to none already there |
| PropertyProcessor.ColumnCheckEmptyFails | orm/src/main/java/org/medimob/orm/processor/PropertyProcessor.java:241-246 | a field whose `@Check` expression is empty never becomes a column |
| PropertyProcessor.AddBuiltConstraint | orm/src/main/java/org/medimob/orm/processor/PropertyProcessor.java:40-43 | the builder's constraints grow by the built constraint, or the step throws and changes nothing |
| PropertyProcessor.ProcessDefault | orm/src/main/java/org/medimob/orm/processor/PropertyProcessor.java:250-258 | the column builder receives the field's `DEFAULT` constraint, if any |
| PropertyProcessor.ProcessCollate | orm/src/main/java/org/medimob/orm/processor/PropertyProcessor.java:260-268 | the column builder receives the field's `COLLATE` constraint, if any |
| PropertyProcessor.ProcessUnique | orm/src/main/java/org/medimob/orm/processor/PropertyProcessor.java:172-188 | the column builder receives the field's `UNIQUE` constraint, if any |
| PropertyProcessor.ProcessNotNull | orm/src/main/java/org/medimob/orm/processor/PropertyProcessor.java:190-207 | the column builder receives the field's `NOT NULL` constraint, if any |
| PropertyProcessor.ProcessCheck | orm/src/main/java/org/medimob/orm/processor/PropertyProcessor.java:232-248 | the column builder receives the field's `CHECK` constraint, if any |
| PropertyProcessor.ProcessIndexed | orm/src/main/java/org/medimob/orm/processor/PropertyProcessor.java:209-230 | the table builder's state after the step is the one `IndexEffect` gives |
| PropertyProcessor.ProcessColumnConstraints | orm/src/main/java/org/medimob/orm/processor/PropertyProcessor.java:161-165 | the five steps add the field's constraints in order, stopping at the first that throws |
| PropertyProcessor.ProcessColumn | orm/src/main/java/org/medimob/orm/processor/PropertyProcessor.java:124-170 | the table builder's state and the outcome are those `ColumnEffect` gives |
| PropertyProcessor.FinishColumn | orm/src/main/java/org/medimob/orm/processor/PropertyProcessor.java:166-169 | the index step, then `addColumn` with the built column |
| PropertyProcessor.BuildIdColumn | orm/src/main/java/org/medimob/orm/processor/PropertyProcessor.java:80-92 | the id column is built with its primary key |
| PropertyProcessor.ProcessId | orm/src/main/java/org/medimob/orm/processor/PropertyProcessor.java:73-96 | the table builder's id column and the outcome are those `IdEffect` gives |
| PropertyProcessor.AddVersionConstraints | orm/src/main/java/org/medimob/orm/processor/PropertyProcessor.java:109-118 | the version column receives `DEFAULT 0` and then `NOT NULL ON CONFLICT ROLLBACK` |
| PropertyProcessor.ProcessVersion | orm/src/main/java/org/medimob/orm/processor/PropertyProcessor.java:98-122 | the table builder's version column and the outcome are those `VersionEffect` gives |
| PropertyProcessor.Process | orm/src/main/java/org/medimob/orm/processor/PropertyProcessor.java:56-71 | the table builder's state and the outcome are those `FieldEffect` gives |
| EntityProcessor.ValidateClass | orm/src/main/java/org/medimob/orm/processor/EntityProcessor.java:167-187 | an element passes exactly when it is a class, not private, not nested and has a no-arg constructor; otherwise the first failing test, in that order, throws its message followed by the simple name |
| EntityProcessor.UniqueAsWrittenFails | orm/src/main/java/org/medimob/orm/processor/EntityProcessor.java:200-211 | as written, every `@Unique` fails: with no name and no columns because the name is empty, otherwise because the builder never received the columns; the table is left as it was |
| EntityProcessor.UniqueBuilds | orm/src/main/java/org/medimob/orm/processor/EntityProcessor.java:200-211 | with the columns passed on, a `@Unique` builds exactly when it has a name or columns; it builds a `UNIQUE` constraint named after the resolved name, listing the columns and the conflict clause |
| EntityProcessor.CheckBuilds | orm/src/main/java/org/medimob/orm/processor/EntityProcessor.java:245-256 | a `@Check` builds exactly when name and expression are non-empty, failing on the name first; it builds a `CHECK` constraint named `CHK_<NAME>` around the expression |
| EntityProcessor.IndexBuilds | orm/src/main/java/org/medimob/orm/processor/EntityProcessor.java:230-243 | an `@Index` builds exactly when its name and the table name are non-empty, failing on the name first; the index names the table, lists the columns and is `UNIQUE` exactly when the annotation says so |
| EntityProcessor.TriggerBuilds | orm/src/main/java/org/medimob/orm/processor/EntityProcessor.java:213-228 | a `@Trigger` builds exactly when its name and the table name are non-empty, failing on the name first; the statement ends with `WHERE (<when>)` and the `;`-separated body between `BEGIN` and `END` |
| EntityProcessor.ConstraintStepShape | orm/src/main/java/org/medimob/orm/processor/EntityProcessor.java:204-208 | adding one built constraint either appends it to the table's constraints and passes, or fails and leaves the table unchanged |
| EntityProcessor.IndexStepShape | orm/src/main/java/org/medimob/orm/processor/EntityProcessor.java:234-240 | adding one built index either appends it and passes, or fails and leaves the table unchanged |
| EntityProcessor.TriggerStepShape | orm/src/main/java/org/medimob/orm/processor/EntityProcessor.java:217-225 | adding one built trigger either appends it and passes, or fails and leaves the table unchanged |
| EntityProcessor.AddChecksAppends | orm/src/main/java/org/medimob/orm/processor/EntityProcessor.java:245-256 | the checks loop changes only the constraints: it keeps the old ones as a prefix and appends, in order, one `CHECK` named after each annotation it got through, all of them when it passes |
| EntityProcessor.AddUniquesAsWrittenFails | orm/src/main/java/org/medimob/orm/processor/EntityProcessor.java:200-211 | as written, the uniques loop fails at the first `@Unique` with the builder's empty-name or null-columns message and leaves the table unchanged; it passes only when there is no `@Unique` |
| EntityProcessor.AddUniquesAppends | orm/src/main/java/org/medimob/orm/processor/EntityProcessor.java:200-211 | the uniques loop changes only the constraints, appending in order one `UNIQUE` per annotation it got through, all of them when it passes (with the columns passed, as corrected) |
| EntityProcessor.AddIndexesAppends | orm/src/main/java/org/medimob/orm/processor/EntityProcessor.java:230-243 | the indexes loop changes only the indexes, appending in order one index on the table per annotation it got through, all of them when it passes |
| EntityProcessor.AddTriggersAppends | orm/src/main/java/org/medimob/orm/processor/EntityProcessor.java:213-228 | the triggers loop changes only the triggers, appending in order one trigger on the table per annotation it got through, all of them when it passes |
| EntityProcessor.TableEffectFrame | orm/src/main/java/org/medimob/orm/processor/EntityProcessor.java:189-198 | with no `@Table` nothing changes; otherwise only the temporary flag (set from the annotation), constraints, indexes and triggers change |
| EntityProcessor.TableEffectAdds | orm/src/main/java/org/medimob/orm/processor/EntityProcessor.java:189-198 | when `@Table` processing passes, the constraints gain the checks and then the uniques, and the indexes and triggers gain one entry per annotation, in order |
| EntityProcessor.FieldEffectKeeps | orm/src/main/java/org/medimob/orm/processor/PropertyProcessor.java:56-71 | mapping one field changes only the columns, indexes, id column and version column, and a field without `@Id` keeps the id column |
| EntityProcessor.FieldsEffectKeeps | orm/src/main/java/org/medimob/orm/processor/EntityProcessor.java:130-133 | the fields loop changes only the columns, indexes, id column and version column, and keeps the id column when no field carries `@Id` |
| EntityProcessor.EntityResultNames | orm/src/main/java/org/medimob/orm/processor/EntityProcessor.java:109-137 | a class that fails validation fails with that error; a built type carries the resolved table name and the element's qualified, simple and package names; an entity with no `@Id` field never builds |
| EntityProcessor.EntityResultTable | orm/src/main/java/org/medimob/orm/processor/EntityProcessor.java:135-137 | a built type without `@Table` has no constraints and no triggers; with `@Table` its constraints are the checks then the uniques, and its triggers one per annotation, in order |
| EntityProcessor.RoundAbortsOnlyUncaught | orm/src/main/java/org/medimob/orm/processor/EntityProcessor.java:104-147 | a round completes exactly when every failing entity failed with a `MappingException`; an aborted round aborts with an exception that is not one |
| EntityProcessor.RoundAppends | orm/src/main/java/org/medimob/orm/processor/EntityProcessor.java:104-147 | a round only appends to the proceeded names, the written types and the reported errors, and writes exactly one type per proceeded name |
| EntityProcessor.RoundAccounts | orm/src/main/java/org/medimob/orm/processor/EntityProcessor.java:104-147 | a completed round proceeds exactly the entities that built, in order, and reports one error for each of the others |
| EntityProcessor.MapEntityNames | orm/src/main/java/org/medimob/orm/processor/EntityProcessor.java:111-138 | every type built for an element carries that element's qualified name |
| EntityProcessor.RoundPairs | orm/src/main/java/org/medimob/orm/processor/EntityProcessor.java:137-138 | the k-th written type is the one for the k-th proceeded name, before and after any round |
| EntityProcessor.EntityProcessor.constructor | orm/src/main/java/org/medimob/orm/processor/EntityProcessor.java:78-85 | a new processor has proceeded nothing, written nothing and reported nothing |
| EntityProcessor.EntityProcessor.Process | orm/src/main/java/org/medimob/orm/processor/EntityProcessor.java:103-165 | the outcome and the new log are those `Round` gives for the old log and the elements |
| EntityProcessor.EntityProcessor.ProcessEntity | orm/src/main/java/org/medimob/orm/processor/EntityProcessor.java:109-137 | the result is `EntityResult` of the element |
| EntityProcessor.EntityProcessor.ProcessFields | orm/src/main/java/org/medimob/orm/processor/EntityProcessor.java:130-133 | the table builder's state and the outcome are those `FieldsEffect` gives |
| EntityProcessor.EntityProcessor.ProcessTable | orm/src/main/java/org/medimob/orm/processor/EntityProcessor.java:189-198 | the table builder's state and the outcome are those `TableEffect` gives |
| EntityProcessor.EntityProcessor.ProcessUniqueConstraints | orm/src/main/java/org/medimob/orm/processor/EntityProcessor.java:200-211 | the table builder's state and the outcome are those the corrected `AddUniques` gives, the columns being passed to the builder |
| EntityProcessor.EntityProcessor.ProcessTriggers | orm/src/main/java/org/medimob/orm/processor/EntityProcessor.java:213-228 | the table builder's state and the outcome are those `AddTriggers` gives |
| EntityProcessor.EntityProcessor.ProcessIndexes | orm/src/main/java/org/medimob/orm/processor/EntityProcessor.java:230-243 | the table builder's state and the outcome are those `AddIndexes` gives |
| EntityProcessor.EntityProcessor.BuildTableTrigger | orm/src/main/java/org/medimob/orm/processor/EntityProcessor.java:217-225 | the trigger built is the one the annotation's settings give |
| EntityProcessor.EntityProcessor.BuildTableIndex | orm/src/main/java/org/medimob/orm/processor/EntityProcessor.java:234-240 | the index built is the one the annotation's settings give |
| EntityProcessor.EntityProcessor.ProcessChecksConstraints | orm/src/main/java/org/medimob/orm/processor/EntityProcessor.java:245-256 | the table builder's state and the outcome are those `AddChecks` gives |
| Session.Cached | orm/src/main/java/org/medimob/orm/internal/Session.java:32-45 | a hit returns the entity the entry still refers to; a key never stored is a miss |
| Session.Leading | orm/src/main/java/org/medimob/orm/internal/Session.java:107-116 | the keys removed before a null key unboxes: the longest prefix free of nulls, in order, ending just before the first null |
| Session.PutThenGet | orm/src/main/java/org/medimob/orm/internal/Session.java:69-76 | after `put(k, e)`, `get(k)` is `e` and every other key reads as before |
| Session.PutThenGetAfterCollection | orm/src/main/java/org/medimob/orm/internal/Session.java:32-45 | after `put(k, e)` the entity stays readable until its weak reference is cleared, then `get` misses |
| Session.CollectionOnlyClears | orm/src/main/java/org/medimob/orm/internal/Session.java:17 | clearing weak references keeps every key and turns exactly the cleared ones into misses |
| Session.PutReplaces | orm/src/main/java/org/medimob/orm/internal/Session.java:69-76 | a second `put` under the same key replaces the first |
| Session.RemoveThenGet | orm/src/main/java/org/medimob/orm/internal/Session.java:93-100 | after `remove(k)`, `get(k)` misses and every other key reads as before |
| Session.RemoveEachOutcome | orm/src/main/java/org/medimob/orm/internal/Session.java:107-116 | removing a list of keys completes exactly when it holds no null, and otherwise throws `NullPointerException` |
| Session.RemoveEachEntries | orm/src/main/java/org/medimob/orm/internal/Session.java:107-116 | the entries left are the old ones minus the keys before the first null |
| Session.LeadingAll | orm/src/main/java/org/medimob/orm/internal/Session.java:110-112 | with no null key, every key is removed |
| Session.RemoveEachThenGet | orm/src/main/java/org/medimob/orm/internal/Session.java:107-116 | after removing a list of keys, each listed key misses and every other key reads as before |
| Session.ClearThenGet | orm/src/main/java/org/medimob/orm/internal/Session.java:121-128 | after `clear`, every key misses |
| Session.Session.constructor | orm/src/main/java/org/medimob/orm/internal/Session.java:20-23 | a new session caches nothing |
| Session.Session.Get | orm/src/main/java/org/medimob/orm/internal/Session.java:32-45 | returns what `Cached` gives for the key, changing nothing |
| Session.Session.GetNoLock | orm/src/main/java/org/medimob/orm/internal/Session.java:54-61 | returns what `Cached` gives for the key, changing nothing |
| Session.Session.Put | orm/src/main/java/org/medimob/orm/internal/Session.java:69-76 | the key now holds a live reference to the entity and nothing else changes |
| Session.Session.PutNoLock | orm/src/main/java/org/medimob/orm/internal/Session.java:84-86 | the key now holds a live reference to the entity and nothing else changes |
| Session.Session.Remove | orm/src/main/java/org/medimob/orm/internal/Session.java:93-100 | the key's entry is gone and nothing else changes |
| Session.Session.RemoveAll | orm/src/main/java/org/medimob/orm/internal/Session.java:107-116 | the outcome and the new entries are those `RemovedEach` gives |
| Session.Session.Clear | orm/src/main/java/org/medimob/orm/internal/Session.java:121-128 | the session holds no entries |
| Session.Session.Reclaim | orm/src/main/java/org/medimob/orm/internal/Session.java:17 | the collector clears the key's weak reference, if the key has an entry, and nothing else changes |
| EntityModel.InsertRow | orm/src/main/java/org/medimob/orm/Model.java:306-307 | executing the insert stores the values under a fresh row id, at least 1 and not yet in use, and keeps the store's ids below its next id |
| EntityModel.UpdateRow | orm/src/main/java/org/medimob/orm/Model.java:407-408 | the update changes one row exactly when the id is stored, replacing its values, and otherwise leaves the store as it was |
| EntityModel.DeleteRow | orm/src/main/java/org/medimob/orm/Model.java:567-568 | the delete changes one row exactly when the id is stored, and the id is no longer stored afterwards |
| EntityModel.Compile | orm/src/main/java/org/medimob/orm/Model.java:303-305 | a statement is compiled once: an empty slot receives its SQL and is recorded as compiled, a filled slot is kept, and the other slots never change |
| EntityModel.CompilePrepares | orm/src/main/java/org/medimob/orm/Model.java:42-45 | compiling keeps every slot holding its own SQL, recorded once, and keeps every statement already compiled |
| EntityModel.Database | orm/src/main/java/org/medimob/orm/Model.java:72-84 | the database is reachable exactly when a helper is attached; otherwise `IllegalStateException` with the helper message |
| EntityModel.Instances | orm/src/main/java/org/medimob/orm/Model.java:157-164 | a query answer becomes one new instance per row, in order, each read from its row |
| EntityModel.VersionEnabled | orm/src/main/java/org/medimob/orm/Model.java:591-593 | versioning is enabled exactly when the model has a version column |
| EntityModel.InsertRefusesEntityWithId | orm/src/main/java/org/medimob/orm/Model.java:299-302 | an entity that already has a positive id is refused with `OrmException("Entity is not new")`, after the database check, and nothing changes |
| EntityModel.InsertStoresUnderFreshId | orm/src/main/java/org/medimob/orm/Model.java:292-308 | inserting a new entity returns a fresh id under which the values are stored, leaves the cache alone and compiles the insert statement |
| EntityModel.LoadByIdHit | orm/src/main/java/org/medimob/orm/Model.java:180-184 | a cached entity is returned as it is, without touching the database |
| EntityModel.LoadByIdMiss | orm/src/main/java/org/medimob/orm/Model.java:185-199 | on a miss the entity is found exactly when the id is stored; a found entity is a new instance that is then cached, and a missing one changes nothing |
| EntityModel.RawQueriesBypassSession | orm/src/main/java/org/medimob/orm/Model.java:106-172 | raw queries only create instances: they never touch the cache, an empty answer gives nothing and the single query returns the first row's instance |
| EntityModel.UpdateOutcome | orm/src/main/java/org/medimob/orm/Model.java:402-413 | an update answers whether the id was stored; a hit stores the new values and evicts the id from the cache, a miss changes neither |
| EntityModel.DeleteOutcome | orm/src/main/java/org/medimob/orm/Model.java:563-573 | a delete answers whether the id was stored, removes it from the store, and on a hit evicts it from the cache |
| EntityModel.DeletedIsNotLoaded | orm/src/main/java/org/medimob/orm/Model.java:563-573 | after a successful delete, loading the id finds nothing |
| EntityModel.UpdatedIsReloaded | orm/src/main/java/org/medimob/orm/Model.java:402-413 | after a successful update, loading the id reads the new values into a fresh instance |
| EntityModel.InsertEachIds | orm/src/main/java/org/medimob/orm/Model.java:227-255 | inserting several entities succeeds exactly when none has an id; the ids are consecutive fresh ids in iteration order, each storing its entity's values, and no stored row changes |
| EntityModel.UpdateEachEvicts | orm/src/main/java/org/medimob/orm/Model.java:326-356 | updating several entities evicts exactly the listed ids that were stored and keeps the set of stored ids |
| EntityModel.DeleteEachEvicts | orm/src/main/java/org/medimob/orm/Model.java:487-517 | deleting several entities removes the listed ids from the store and evicts the ones that were stored |
| EntityModel.DeleteByIdEachEvicts | orm/src/main/java/org/medimob/orm/Model.java:421-469 | deleting by ids, with the corrected binding, removes the ids from the store and evicts the ones that were stored |
| EntityModel.DeleteByIdAsWrittenThrows | orm/src/main/java/org/medimob/orm/Model.java:575-586 | as written, deleting by id before any entity delete throws `NullPointerException` and leaves the store and cache unchanged |
| EntityModel.DeleteByIdFindingExample | orm/src/main/java/org/medimob/orm/Model.java:575-586 | on a store holding row 1 and no compiled delete, the code as written throws and keeps the row, while the corrected version deletes it |
| EntityModel.DeleteByIdEachAsWrittenOutcome | orm/src/main/java/org/medimob/orm/Model.java:421-469 | as written, deleting several ids before any entity delete throws `NullPointerException` at the first id and changes neither store nor cache; once the entity delete is compiled, it counts every id and ends in the corrected loop's state |
| EntityModel.DeleteByIdAsWrittenAgreesOnceCompiled | orm/src/main/java/org/medimob/orm/Model.java:575-586 | once the entity delete statement is compiled, the code as written behaves like the corrected version |
| EntityModel.DeleteByIdOutcome | orm/src/main/java/org/medimob/orm/Model.java:575-586 | the corrected delete by id answers whether the id was stored, compiles `DELETE FROM T WHERE T.'id'=?`, removes the id and evicts it on a hit |
| EntityModel.OperationEvolves | orm/src/main/java/org/medimob/orm/Model.java:180-586 | every public operation keeps the model valid, keeps every compiled statement, never destroys instances and never attaches or detaches |
| EntityModel.StatementsCompiledOnce | orm/src/main/java/org/medimob/orm/Model.java:42-45 | along any sequence of operations each statement is compiled at most once and, once compiled, kept |
| EntityModel.Model.constructor | orm/src/main/java/org/medimob/orm/Model.java:48-58 | a new model is detached, has an empty cache and no compiled statement, and selects by `<idColumn>=?` |
| EntityModel.Model.Attach | orm/src/main/java/org/medimob/orm/Model.java:68-70 | the model is attached to the database and nothing else changes |
| EntityModel.Model.IsVersionEnabled | orm/src/main/java/org/medimob/orm/Model.java:591-593 | returns `VersionEnabled` of the configuration |
| EntityModel.Model.Read | orm/src/main/java/org/medimob/orm/Model.java:601-603 | a new instance holding the row's id and values |
| EntityModel.Model.CompileIfNull | orm/src/main/java/org/medimob/orm/Model.java:303-305 | the statements become those `Compile` gives and nothing else changes |
| EntityModel.Model.RawQuerySingle | orm/src/main/java/org/medimob/orm/Model.java:106-121 | the result and new state are those `RawQuerySingleEffect` gives |
| EntityModel.Model.RawQuery | orm/src/main/java/org/medimob/orm/Model.java:149-172 | the result and new state are those `RawQueryEffect` gives |
| EntityModel.Model.LoadById | orm/src/main/java/org/medimob/orm/Model.java:180-200 | the result and new state are those `LoadByIdEffect` gives |
| EntityModel.Model.InsertInside | orm/src/main/java/org/medimob/orm/Model.java:299-308 | the result and new state are those `InsertOne` gives |
| EntityModel.Model.Insert | orm/src/main/java/org/medimob/orm/Model.java:263-297 | the result and new state are those `InsertEffect` gives |
| EntityModel.Model.InsertAll | orm/src/main/java/org/medimob/orm/Model.java:227-255 | the result and new state are those `InsertAllEffect` gives |
| EntityModel.Model.UpdateInside | orm/src/main/java/org/medimob/orm/Model.java:402-413 | the answer and new state are those `UpdateOne` gives |
| EntityModel.Model.Update | orm/src/main/java/org/medimob/orm/Model.java:395-400 | the result and new state are those `UpdateEffect` gives |
| EntityModel.Model.UpdateWith | orm/src/main/java/org/medimob/orm/Model.java:365-387 | the answer and new state are those `UpdateOne` gives |
| EntityModel.Model.UpdateAll | orm/src/main/java/org/medimob/orm/Model.java:326-356 | the result and new state are those `UpdateAllEffect` gives |
| EntityModel.Model.DeleteInside | orm/src/main/java/org/medimob/orm/Model.java:563-573 | the answer and new state are those `DeleteOne` gives |
| EntityModel.Model.Delete | orm/src/main/java/org/medimob/orm/Model.java:525-561 | the result and new state are those `DeleteEffect` gives |
| EntityModel.Model.DeleteAll | orm/src/main/java/org/medimob/orm/Model.java:487-517 | the result and new state are those `DeleteAllEffect` gives |
| EntityModel.Model.DeleteByIdInside | orm/src/main/java/org/medimob/orm/Model.java:575-586 | the answer and new state are those the corrected `DeleteByIdOne` gives: the by-id statement it compiles is the one it runs |
| EntityModel.Model.DeleteById | orm/src/main/java/org/medimob/orm/Model.java:421-469 | the result and new state are those `DeleteByIdEffect` gives, over the corrected by-id delete |
| Criteria.Not | orm/src/main/java/org/medimob/orm/query/OperatorCriterion.java:50-54 | `not()` marks the criterion negated and keeps it negatable; it applies to the operator, between and in criteria alike |
| Criteria.NotIdempotent | orm/src/main/java/org/medimob/orm/query/InCriterion.java:51-55 | negating twice is negating once, and negation changes neither the arguments collected nor their count |
| Criteria.NotRendersNot | orm/src/main/java/org/medimob/orm/query/BetweenCriterion.java:33-43 | a negated criterion renders as the plain one with `NOT` inserted right after the column |
| Criteria.ArgsAppend | orm/src/main/java/org/medimob/orm/query/Criterion.java:10-20 | collecting arguments only appends to the list it is given, the same arguments whatever the list holds, and when it completes it appends exactly `getArgsCount` of them |
| Criteria.ArgsInAppend | orm/src/main/java/org/medimob/orm/query/InCriterion.java:23-28 | an in-criterion appends its values in order, as many as it holds when none is null |
| Criteria.ArgsEachAppend | orm/src/main/java/org/medimob/orm/query/CompositeCriterion.java:19-24 | a composite appends its children's arguments, as many as their counts add up to when it completes |
| Criteria.NullValueLeavesList | orm/src/main/java/org/medimob/orm/query/OperatorCriterion.java:25-31 | a null operator value throws `OrmException` naming the operator and the upper-cased property, a missing between value throws "Missing between value", and neither touches the list |
| Criteria.BetweenArgsInOrder | orm/src/main/java/org/medimob/orm/query/BetweenCriterion.java:25-31 | a between criterion collects its start and then its end |
| Criteria.InArgsInOrder | orm/src/main/java/org/medimob/orm/query/InCriterion.java:23-28 | an in-criterion with no null value collects all its values, in order |
| Criteria.ArgsEachSplit | orm/src/main/java/org/medimob/orm/query/CompositeCriterion.java:19-24 | the children's arguments are collected one child after the other, stopping at the first that throws |
| Criteria.CountEachSplit | orm/src/main/java/org/medimob/orm/query/CompositeCriterion.java:33-40 | the composite's count adds up over any split of its children |
| Criteria.RenderEachSplit | orm/src/main/java/org/medimob/orm/query/CompositeCriterion.java:26-31 | the children render one after the other, stopping at the first that throws |
| Criteria.EmptyComposite | orm/src/main/java/org/medimob/orm/query/CompositeCriterion.java:15-40 | a composite without children collects nothing, renders nothing and counts no argument |
| Criteria.OperatorText | orm/src/main/java/org/medimob/orm/query/OperatorCriterion.java:33-43 | an operator criterion renders `<column> [NOT] <property> ? )`, whatever its operator |
| Criteria.BetweenText | orm/src/main/java/org/medimob/orm/query/BetweenCriterion.java:33-43 | a between criterion renders `<column> [NOT] BETWEEN <start> AND <end>` with the values written in; a null start or end throws after the words before it |
| Criteria.ConstantText | orm/src/main/java/org/medimob/orm/query/ConstantCriterion.java:20-35 | a constant criterion renders the column and the constant and collects nothing |
| Criteria.SqlText | orm/src/main/java/org/medimob/orm/query/SqlCriterion.java:21-34 | a SQL criterion renders its SQL as one word, whatever the resolver |
| Criteria.IdText | orm/src/main/java/org/medimob/orm/query/IdCriterion.java:18-33 | an id criterion renders `<idColumn> == <id>`, and distinct ids render differently |
| Criteria.PlaceholdersMatchArgs | orm/src/main/java/org/medimob/orm/query/Criterion.java:10-20 | when no column or name holds a `?` and each SQL criterion's marks match its arguments, rendering completes and writes exactly `getArgsCount` placeholders |
| Criteria.BetweenRendersNoPlaceholder | orm/src/main/java/org/medimob/orm/query/BetweenCriterion.java:33-48 | a between criterion writes its values into the text and no placeholder, although it counts two arguments |
| Criteria.CollectArgs | orm/src/main/java/org/medimob/orm/query/Criterion.java:10-20 | dispatches `collectArgs`: the outcome and the list are those `Args` gives |
| Criteria.GetArgsCount | orm/src/main/java/org/medimob/orm/query/Criterion.java:10-20 | dispatches `getArgsCount`: returns `ArgsCount` |
| Criteria.CountChildren | orm/src/main/java/org/medimob/orm/query/CompositeCriterion.java:33-40 | the loop over the children returns the sum of their counts |
| Criteria.ToSql | orm/src/main/java/org/medimob/orm/query/Criterion.java:10-20 | dispatches `toSql`: appends to the builder the text `Render` gives and returns its outcome |
| Criteria.CollectIn | orm/src/main/java/org/medimob/orm/query/InCriterion.java:23-28 | the loop over the values leaves the outcome and list `ArgsIn` gives |
| Criteria.CollectEach | orm/src/main/java/org/medimob/orm/query/CompositeCriterion.java:19-24 | the loop over the children leaves the outcome and list `ArgsEach` gives |
| Criteria.OperatorToSql | orm/src/main/java/org/medimob/orm/query/OperatorCriterion.java:33-43 | appends the column, `NOT` when negated, the property, `?` and the closing bracket |
| Criteria.InToSql | orm/src/main/java/org/medimob/orm/query/InCriterion.java:30-44 | appends the column, `NOT` when negated, `IN` and a bracketed list of one `?` per value |
| Criteria.BetweenToSql | orm/src/main/java/org/medimob/orm/query/BetweenCriterion.java:33-43 | appends the column, `NOT` when negated and `BETWEEN <start> AND <end>`, throwing at the first null value after the words before it |
| Criteria.ToSqlEach | orm/src/main/java/org/medimob/orm/query/CompositeCriterion.java:26-31 | the loop over the children appends the text `RenderEach` gives and returns its outcome |
| Criteria.CompositeCriterion.constructor | orm/src/main/java/org/medimob/orm/query/CompositeCriterion.java:13 | a new composite has no children |
| Criteria.CompositeCriterion.Add | orm/src/main/java/org/medimob/orm/query/CompositeCriterion.java:15-17 | the criterion is appended to the children |
| Criteria.CompositeCriterion.CollectArgs | orm/src/main/java/org/medimob/orm/query/CompositeCriterion.java:19-24 | the outcome and the list are those `Args` gives for the composite |
| Criteria.CompositeCriterion.ToSql | orm/src/main/java/org/medimob/orm/query/CompositeCriterion.java:26-31 | appends the text `Render` gives for the composite and returns its outcome |
| Criteria.CompositeCriterion.GetArgsCount | orm/src/main/java/org/medimob/orm/query/CompositeCriterion.java:33-40 | returns `ArgsCount` of the composite |
| Criteria.AddAppends | orm/src/main/java/org/medimob/orm/query/CompositeCriterion.java:15-40 | after `add(c)` the count grows by c's count, c's arguments follow the others', and c's text follows the others' |
| Restrictions.ComparisonFactories | orm/src/main/java/org/medimob/orm/query/Restrictions.java:12-34 | `eq` … `ge` each collect just the value, or throw naming their operator when it is null, and all render the same `<column> <property> ? )` |
| Restrictions.PatternFactories | orm/src/main/java/org/medimob/orm/query/Restrictions.java:36-46 | `like`, `glob` and `regexp` collect just the value, or throw naming their operator, and render as the comparisons do |
| Restrictions.NegatableFactories | orm/src/main/java/org/medimob/orm/query/Restrictions.java:36-70 | the factories that return a `NotCriterion` build a negatable criterion not yet negated |
| Restrictions.BetweenFactory | orm/src/main/java/org/medimob/orm/query/Restrictions.java:48-50 | `between` collects the start before the end and writes them into the text in that order |
| Restrictions.NullFactories | orm/src/main/java/org/medimob/orm/query/Restrictions.java:52-58 | `isNull` and `isNotNull` render `<column> ISNULL` and `<column> NOTNULL` and collect nothing |
| Restrictions.IdEqualFactory | orm/src/main/java/org/medimob/orm/query/Restrictions.java:60-62 | `idEqual` renders the id column, `==` and the id in decimal, and collects nothing |
| Restrictions.InFactory | orm/src/main/java/org/medimob/orm/query/Restrictions.java:64-70 | `in` keeps the values in the caller's order, collecting them all, and renders one placeholder per value |
| Restrictions.SqlRestrictionFactory | orm/src/main/java/org/medimob/orm/query/Restrictions.java:72-74 | `sqlRestriction` collects the objects in order and renders the SQL as one word |

## Left out

- Concurrency: the `synchronized` blocks and statement locks of `Model`, the `ReentrantLock` of `Session` with its `lock`/`unlock`, and the `ThreadLocal` argument buffer. Every operation is modelled as running alone.
- Transactions: `beginTransaction`, `setTransactionSuccessful`, `endTransaction` and `isDbLockedByCurrentThread`. Each operation is modelled as completing on its own, so `insertInTx`, `updateInTx` and `deleteInTx` are modelled as their non-transactional counterparts, and a rolled-back transaction is not modelled.
- The SQLite database, its compiled statements and the `Cursor`: the store is an abstract map from row id to row values, a query's answer is a parameter, and `newInstance`/`readCursor`/`bindInsert`/`bindUpdate`/`bindDelete` are reduced to reading and writing those values. `OrmLog` is not modelled.
- Weak references: the garbage collector is the `Session.Session.Reclaim` step, which the caller may take at any point; when it runs is not modelled.
- `long` ids and `int` counts are unbounded integers; 64-bit and 32-bit overflow of ids and counters is not modelled. The 32-bit wrap-around of `String.hashCode` is modelled.
- Strings: `toUpperCase` and `equalsIgnoreCase` are modelled on ASCII letters only; Unicode case mapping and locale rules are not modelled.
- `HashSet` iteration order: the column, constraint, index and trigger sets of the builders are insertion-ordered sequences holding no two equal members, so the order in which `build()` writes them is the insertion order, not Java's hash order.
- Set membership follows each definition's `equals`. The `HashSet` behaviour produced by the case-sensitive `hashCode` is modelled separately, as a finding.
- The compiler's `Element`, `TypeMirror` and `Types` API: `TypeElement` and `FieldElement` are records holding the annotation values with their declared defaults, the element's names, a type tag and the flags `isClass`, `isPrivate`, `isNested` and `hasNoArgConstructor`. So `ProcessorUtils.typeToString`, `getPackage` and `getNoArgsConstructor` are not modelled; the last becomes the `hasNoArgConstructor` flag.
- `EntityProcessor.init`, `getSupportedAnnotationTypes`, `getSupportedSourceVersion`, `Messager` diagnostics and the write of the entity list file: the model records proceeded names, written types and reported errors instead. `TypeWriter.writeType` is represented by recording the built type, and its `IOException` is not modelled.
- `Object.toString`: the constraint text in `TypeDefinitionBuilder`'s duplicate message is the `identity` parameter, since `ConstraintDefinition` has no `toString` of its own. `PropertyDefinitionBuilder`'s duplicate-constraint message keeps only its constant text.
- PropertyBuilder.Validate: the four messages end at `for property `; the builder's `toString` that the code appends is not modelled.
- PropertyBuilder.PropertyDefinitionBuilder.AddConstraints: a constraint without a name is appended to the set, whereas the code's `HashSet.add` would call its `hashCode` and throw `NullPointerException`; no caller in the model passes one.
- `Constraints` lacks the `REFERENCES` kind that `ConstraintDefinitionBuilder` switches on; the model adds it, with the text `REFERENCES`.
- `Criteria.Not`: `not()` sets a field of the criterion and returns the same object; the model returns a negated copy, so aliasing between the criterion and its negation is not modelled.
- `Restrictions.conjunction` and `Restrictions.disjunction` have empty bodies and return nothing; they are not modelled.
- `Criterion.collectArgs` writes `value.toString()`; argument values are modelled as strings already converted.
- `Orm`, both `OpenHelper` copies, `TypeWriter`, `TypeUtils`, `Query` and `Property` are not part of this model: they are Android lifecycle, reflection, Java source emission, `Cursor` wrappers and unfinished stubs.
- `PropertyResolver` and `MappingException` are not shown in the sources; the resolver is a record of two functions and the exception is the `MappingError` fault.
- EntityProcessor.AddUniquesAppends: follows the corrected `@Unique` loop, which passes the columns to the builder (and so do `Round`, `MapEntity`, `EntityResult` and `TableEffect` through it). As written every `@Unique` fails its class with a `MappingException`: see `EntityProcessor.AddUniquesAsWrittenFails`.
- EntityProcessor.TableEffectAdds: follows the corrected `@Unique` loop, which passes the columns to the builder (and so do `Round`, `MapEntity`, `EntityResult` and `TableEffect` through it). As written every `@Unique` fails its class with a `MappingException`: see `EntityProcessor.AddUniquesAsWrittenFails`.
- EntityProcessor.EntityResultTable: follows the corrected `@Unique` loop, which passes the columns to the builder (and so do `Round`, `MapEntity`, `EntityResult` and `TableEffect` through it). As written every `@Unique` fails its class with a `MappingException`: see `EntityProcessor.AddUniquesAsWrittenFails`.
- EntityProcessor.EntityProcessor.Process: follows the corrected `@Unique` loop, which passes the columns to the builder (and so do `Round`, `MapEntity`, `EntityResult` and `TableEffect` through it). As written every `@Unique` fails its class with a `MappingException`: see `EntityProcessor.AddUniquesAsWrittenFails`.
- EntityProcessor.EntityProcessor.ProcessEntity: follows the corrected `@Unique` loop, which passes the columns to the builder (and so do `Round`, `MapEntity`, `EntityResult` and `TableEffect` through it). As written every `@Unique` fails its class with a `MappingException`: see `EntityProcessor.AddUniquesAsWrittenFails`.
- EntityProcessor.EntityProcessor.ProcessTable: follows the corrected `@Unique` loop, which passes the columns to the builder (and so do `Round`, `MapEntity`, `EntityResult` and `TableEffect` through it). As written every `@Unique` fails its class with a `MappingException`: see `EntityProcessor.AddUniquesAsWrittenFails`.
- EntityProcessor.EntityProcessor.ProcessUniqueConstraints: follows the corrected `@Unique` loop, which passes the columns to the builder (and so do `Round`, `MapEntity`, `EntityResult` and `TableEffect` through it). As written every `@Unique` fails its class with a `MappingException`: see `EntityProcessor.AddUniquesAsWrittenFails`.
- EntityModel.DeleteByIdEach: follows the corrected by-id delete, which runs the statement it compiled. As written the first id throws `NullPointerException` until an entity delete has compiled `deleteStatement`: see `EntityModel.DeleteByIdEachAsWrittenOutcome`.
- EntityModel.DeleteByIdEffect: follows the corrected by-id delete, which runs the statement it compiled. As written the first id throws `NullPointerException` until an entity delete has compiled `deleteStatement`: see `EntityModel.DeleteByIdEachAsWrittenOutcome`.
- EntityModel.DeleteByIdEachEvicts: follows the corrected by-id delete, which runs the statement it compiled. As written the first id throws `NullPointerException` until an entity delete has compiled `deleteStatement`: see `EntityModel.DeleteByIdEachAsWrittenOutcome`.
- EntityModel.Model.DeleteByIdInside: follows the corrected by-id delete, which runs the statement it compiled. As written the first id throws `NullPointerException` until an entity delete has compiled `deleteStatement`: see `EntityModel.DeleteByIdEachAsWrittenOutcome`.
- EntityModel.Model.DeleteById: follows the corrected by-id delete, which runs the statement it compiled. As written the first id throws `NullPointerException` until an entity delete has compiled `deleteStatement`: see `EntityModel.DeleteByIdEachAsWrittenOutcome`.
- EntityModel.UpdateRow: does not model version conflicts; the store step matches on the id alone, so a stale version counts as a hit. With a version column the update and delete statements join the id and version predicates with `,` (internal/SqlUtils.java:95-102, and the delete through `appendColumnsEqValue`), and what SQLite makes of that text is not modelled.
- EntityModel.DeleteRow: does not model version conflicts; the store step matches on the id alone, so a stale version counts as a hit. With a version column the update and delete statements join the id and version predicates with `,` (internal/SqlUtils.java:95-102, and the delete through `appendColumnsEqValue`), and what SQLite makes of that text is not modelled.
- EntityModel.UpdateOutcome: does not model version conflicts; the store step matches on the id alone, so a stale version counts as a hit. With a version column the update and delete statements join the id and version predicates with `,` (internal/SqlUtils.java:95-102, and the delete through `appendColumnsEqValue`), and what SQLite makes of that text is not modelled.
- EntityModel.DeleteOutcome: does not model version conflicts; the store step matches on the id alone, so a stale version counts as a hit. With a version column the update and delete statements join the id and version predicates with `,` (internal/SqlUtils.java:95-102, and the delete through `appendColumnsEqValue`), and what SQLite makes of that text is not modelled.
- EntityModel.UpdateEachEvicts: does not model version conflicts; the store step matches on the id alone, so a stale version counts as a hit. With a version column the update and delete statements join the id and version predicates with `,` (internal/SqlUtils.java:95-102, and the delete through `appendColumnsEqValue`), and what SQLite makes of that text is not modelled.
- EntityModel.DeleteEachEvicts: does not model version conflicts; the store step matches on the id alone, so a stale version counts as a hit. With a version column the update and delete statements join the id and version predicates with `,` (internal/SqlUtils.java:95-102, and the delete through `appendColumnsEqValue`), and what SQLite makes of that text is not modelled.
- EntityModel.DeleteByIdAsWrittenAgreesOnceCompiled: does not model version conflicts; the store step matches on the id alone, so a stale version counts as a hit. With a version column the update and delete statements join the id and version predicates with `,` (internal/SqlUtils.java:95-102, and the delete through `appendColumnsEqValue`), and what SQLite makes of that text is not modelled.

## Findings

| source | as written | input that shows it | evidently intended | confidence | as-written member | corrected member |
|---|---|---|---|---|---|---|
| orm/src/main/java/org/medimob/orm/processor/dll/PropertyDefinition.java:65-80 | `equals` compares names with `equalsIgnoreCase`, but `hashCode` hashes the name as written; the same holds for constraints, indexes, triggers and tables | columns `a` and `A`: equal, yet their hashes differ, so a `HashSet` holding `A` also accepts `a` | equal definitions hash alike (hash the upper-cased name), so the set refuses `a` | not executed | Definitions.AsWrittenColumnSetAcceptsCaseVariant | Definitions.CorrectedColumnSetRefusesCaseVariant |
| orm/src/main/java/org/medimob/orm/Model.java:575-586 | the by-id delete compiles `deleteByIdStatement` but binds and executes `deleteStatement` | `deleteById(1)` on a store holding row 1, before any entity delete: `deleteStatement` is null, so it throws `NullPointerException` and row 1 stays | bind and execute the by-id statement it compiled, deleting row 1 | not executed | EntityModel.DeleteByIdFindingExample | EntityModel.DeleteByIdOutcome |
| orm/src/main/java/org/medimob/orm/processor/EntityProcessor.java:200-211 | the `@Unique` loop sets the type, name and conflict clause but never the columns | any `@Table(uniques = @Unique(columns = {"a"}))`: the builder refuses the constraint because its columns are null, and the class is reported as failing | pass `unique.columns()` to the builder, so the constraint builds | not executed | EntityProcessor.UniqueAsWrittenFails | EntityProcessor.UniqueBuilds |
