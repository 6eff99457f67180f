/**
 * The enumerations of the schema compiler and their SQL text: field kinds
 * and their SQLite storage classes (processor/PropertyType.java), the
 * constraint kinds (processor/dll/Constraints.java) and the annotation
 * enums Conflict, Action, Sort and TriggerType.
 */
module SchemaKinds {

  /** processor/PropertyType.java. */
  datatype PropertyType =
    | BOOLEAN | CHARACTER | BYTE | SHORT | INTEGER | LONG
    | FLOAT | DOUBLE | DATE_LONG | DATE_STRING | STRING | BYTE_ARRAY

  /** The SQLite storage class a column of this kind is declared with. */
  function MappedType(t: PropertyType): string {
    match t
    case BOOLEAN => "NUMERIC"
    case CHARACTER => "TEXT"
    case BYTE => "INTEGER"
    case SHORT => "INTEGER"
    case INTEGER => "INTEGER"
    case LONG => "INTEGER"
    case FLOAT => "REAL"
    case DOUBLE => "REAL"
    case DATE_LONG => "NUMERIC"
    case DATE_STRING => "TEXT"
    case STRING => "TEXT"
    case BYTE_ARRAY => ""
  }

  /** The constant's name, as Java renders an enum constant in a string. */
  function PropertyTypeName(t: PropertyType): string {
    match t
    case BOOLEAN => "BOOLEAN"
    case CHARACTER => "CHARACTER"
    case BYTE => "BYTE"
    case SHORT => "SHORT"
    case INTEGER => "INTEGER"
    case LONG => "LONG"
    case FLOAT => "FLOAT"
    case DOUBLE => "DOUBLE"
    case DATE_LONG => "DATE_LONG"
    case DATE_STRING => "DATE_STRING"
    case STRING => "STRING"
    case BYTE_ARRAY => "BYTE_ARRAY"
  }

  /** Each storage class, and the empty text, is chosen by exactly these kinds. */
  lemma MappedTypeClasses(t: PropertyType)
    ensures MappedType(t) == "NUMERIC" <==> t in {BOOLEAN, DATE_LONG}
    ensures MappedType(t) == "TEXT" <==> t in {CHARACTER, DATE_STRING, STRING}
    ensures MappedType(t) == "INTEGER" <==> t in {BYTE, SHORT, INTEGER, LONG}
    ensures MappedType(t) == "REAL" <==> t in {FLOAT, DOUBLE}
    ensures MappedType(t) == "" <==> t == BYTE_ARRAY
  {
  }

  /**
   * processor/dll/Constraints.java, plus REFERENCES: the constraint builder
   * switches on a REFERENCES kind that the enum does not declare.
   */
  datatype Constraints =
    | UNIQUE | CHECK | PRIMARY_KEY | NOT_NULL | DEFAULT | COLLATE | FOREIGN_KEY | REFERENCES

  function ConstraintSql(c: Constraints): string {
    match c
    case UNIQUE => "UNIQUE"
    case CHECK => "CHECK"
    case PRIMARY_KEY => "PRIMARY KEY"
    case NOT_NULL => "NOT NULL"
    case DEFAULT => "DEFAULT"
    case COLLATE => "COLLATE"
    case FOREIGN_KEY => "FOREIGN KEY"
    case REFERENCES => "REFERENCES"
  }

  function ForTable(c: Constraints): bool {
    c in {UNIQUE, CHECK, PRIMARY_KEY, FOREIGN_KEY, REFERENCES}
  }

  function ForColumn(c: Constraints): bool {
    c != FOREIGN_KEY
  }

  /** Which declared kinds apply to tables, to columns, or to both. */
  lemma ConstraintScopes(c: Constraints)
    requires c != REFERENCES
    ensures ForTable(c) && ForColumn(c) <==> c in {UNIQUE, CHECK, PRIMARY_KEY}
    ensures !ForTable(c) && ForColumn(c) <==> c in {NOT_NULL, DEFAULT, COLLATE}
    ensures ForTable(c) && !ForColumn(c) <==> c == FOREIGN_KEY
    ensures ForTable(c) || ForColumn(c)
  {
  }

  /** No two kinds share their SQL text. */
  lemma ConstraintSqlInjective(a: Constraints, b: Constraints)
    ensures ConstraintSql(a) == ConstraintSql(b) ==> a == b
  {
  }

  /** annotation/Conflict.java. */
  datatype Conflict = ROLLBACK | ABORT | FAIL | IGNORE | REPLACE

  function ConflictSql(c: Conflict): string {
    match c
    case ROLLBACK => "ON CONFLICT ROLLBACK"
    case ABORT => "ON CONFLICT ABORT"
    case FAIL => "ON CONFLICT FAIL"
    case IGNORE => "ON CONFLICT IGNORE"
    case REPLACE => "ON CONFLICT REPLACE"
  }

  /** annotation/Action.java. */
  datatype Action = NO_ACTION | RESTRICT | SET_NULL | SET_DEFAULT | CASCADE

  function ActionSql(a: Action): string {
    match a
    case NO_ACTION => "NO ACTION"
    case RESTRICT => "RESTRICT"
    case SET_NULL => "SET NULL"
    case SET_DEFAULT => "SET DEFAULT"
    case CASCADE => "CASCADE"
  }

  /** annotation/Sort.java. */
  datatype Sort = ASC | DESC | NONE

  function SortSql(s: Sort): string {
    match s
    case ASC => "ASC"
    case DESC => "DESC"
    case NONE => ""
  }

  /** annotation/TriggerType.java. */
  datatype TriggerType =
    | INSERT | UPDATE | DELETE
    | BEFORE_INSERT | BEFORE_UPDATE | BEFORE_DELETE
    | AFTER_INSERT | AFTER_UPDATE | AFTER_DELETE
    | INSTEAD_OF_INSERT | INSTEAD_OF_UPDATE | INSTEAD_OF_DELETE

  function TriggerTypeSql(t: TriggerType): string {
    match t
    case INSERT => "INSERT"
    case UPDATE => "UPDATE"
    case DELETE => "DELETE"
    case BEFORE_INSERT => "BEFORE INSERT"
    case BEFORE_UPDATE => "BEFORE UPDATE"
    case BEFORE_DELETE => "BEFORE DELETE"
    case AFTER_INSERT => "AFTER INSERT"
    case AFTER_UPDATE => "AFTER UPDATE"
    case AFTER_DELETE => "AFTER DELETE"
    case INSTEAD_OF_INSERT => "INSTEAD OF INSERT"
    case INSTEAD_OF_UPDATE => "INSTEAD OF UPDATE"
    case INSTEAD_OF_DELETE => "INSTEAD OF DELETE"
  }
}
