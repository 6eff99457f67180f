/**
 * Parameterized INSERT, UPDATE and DELETE text for one mapped table
 * (orm/internal/SqlUtils.java and its older copy orm/SqlUtils.java).
 *
 * The text is a function of the arguments alone; `SqlText` gives it, the two
 * `SqlUtils` modules build it with the source's loops and are proved to
 * produce exactly it.
 */
module SqlText {
  import opened Text
  import opened Outcomes

  /** `'c'`. */
  function Quoted(column: string): string { "'" + column + "'" }

  /** `'c1','c2',...`, as `appendColumns` writes the column list. */
  function QuotedList(columns: seq<string>): string {
    Join(seq(|columns|, i requires 0 <= i < |columns| => Quoted(columns[i])), ",")
  }

  /** `?,?,...` with `count` marks. */
  function Placeholders(count: nat): string {
    Join(seq(count, i => "?"), ",")
  }

  /** `'c1'=?,'c2'=?,...`, the SET list of an UPDATE. */
  function EqualPlaceholderList(columns: seq<string>): string {
    Join(seq(|columns|, i requires 0 <= i < |columns| => Quoted(columns[i]) + "=?"), ",")
  }

  /** `T.'c'`. */
  function AliasedColumn(alias: string, column: string): string { alias + ".'" + column + "'" }

  /** `T.'c'=?`. */
  function EqValue(alias: string, column: string): string { AliasedColumn(alias, column) + "=?" }

  /** `T.'c1'=?,T.'c2'=?,...`, the WHERE list of a DELETE. */
  function EqValueList(alias: string, columns: seq<string>): string {
    Join(seq(|columns|, i requires 0 <= i < |columns| => EqValue(alias, columns[i])), ",")
  }

  /**
   * The INSERT text after its leading keyword: the quoted columns, the
   * version column unquoted, the placeholders, and the literal 0 that
   * initialises the version.
   */
  function InsertText(insertInto: string, table: string, columns: seq<string>, version: Option<string>): string {
    insertInto + table + " (" + QuotedList(columns)
    + (if version.Some? then "," + version.value else "")
    + ") VALUES (" + Placeholders(|columns|)
    + (if version.Some? then ",0" else "")
    + ")"
  }

  /** The SET list increments the version; the WHERE list is joined with a comma. */
  function UpdateText(table: string, columns: seq<string>, id: string, version: Option<string>): string {
    "UPDATE " + table + " SET " + EqualPlaceholderList(columns)
    + (if version.Some? then "," + version.value + "=" + version.value + " + 1" else "")
    + " WHERE " + id + "=?"
    + (if version.Some? then "," + version.value + "=?" else "")
  }

  /** The columns the by-id DELETE selects on: the id, then the version if there is one. */
  function Selection(id: string, version: Option<string>): seq<string> {
    if version.Some? then [id, version.value] else [id]
  }

  function DeleteWhere(table: string, columns: seq<string>): string {
    "DELETE FROM " + table + " WHERE " + EqValueList(table, columns)
  }

  // ---------------------------------------------------------------- lemmas

  lemma QuotedListCount(columns: seq<string>)
    requires forall i :: 0 <= i < |columns| ==> Lacks(columns[i], '?')
    ensures CountChar(QuotedList(columns), '?') == 0
  {
    var items := seq(|columns|, i requires 0 <= i < |columns| => Quoted(columns[i]));
    if items != [] {
      forall i | 0 <= i < |items| ensures CountChar(items[i], '?') == 0 {
        assert Lacks(items[i], '?');
        CountCharLacks(items[i], '?');
      }
      SumCountConst(items, '?', 0);
      CountCharLacks(",", '?');
      JoinCount(items, ",", '?');
    }
  }

  lemma PlaceholdersCount(count: nat)
    ensures CountChar(Placeholders(count), '?') == count
  {
    var items := seq(count, i => "?");
    if count > 0 {
      SumCountConst(items, '?', 1);
      CountCharLacks(",", '?');
      JoinCount(items, ",", '?');
    }
  }

  lemma EqualPlaceholderListCount(columns: seq<string>)
    requires forall i :: 0 <= i < |columns| ==> Lacks(columns[i], '?')
    ensures CountChar(EqualPlaceholderList(columns), '?') == |columns|
  {
    var items := seq(|columns|, i requires 0 <= i < |columns| => Quoted(columns[i]) + "=?");
    if items != [] {
      forall i | 0 <= i < |items| ensures CountChar(items[i], '?') == 1 {
        assert Lacks(Quoted(columns[i]) + "=", '?');
        CountCharLacks(Quoted(columns[i]) + "=", '?');
        assert items[i] == (Quoted(columns[i]) + "=") + "?";
        CountCharAppend(Quoted(columns[i]) + "=", "?", '?');
      }
      SumCountConst(items, '?', 1);
      CountCharLacks(",", '?');
      JoinCount(items, ",", '?');
    }
  }

  lemma EqValueListCount(alias: string, columns: seq<string>)
    requires Lacks(alias, '?')
    requires forall i :: 0 <= i < |columns| ==> Lacks(columns[i], '?')
    ensures CountChar(EqValueList(alias, columns), '?') == |columns|
  {
    var items := seq(|columns|, i requires 0 <= i < |columns| => EqValue(alias, columns[i]));
    if items != [] {
      forall i | 0 <= i < |items| ensures CountChar(items[i], '?') == 1 {
        var head := alias + ".'" + columns[i] + "'=";
        assert Lacks(head, '?');
        CountCharLacks(head, '?');
        assert items[i] == head + "?";
        CountCharAppend(head, "?", '?');
      }
      SumCountConst(items, '?', 1);
      CountCharLacks(",", '?');
      JoinCount(items, ",", '?');
    }
  }

  /** No piece of the text but the column and version names can hold `?`. */
  predicate NamesLackMark(names: seq<string>, version: Option<string>) {
    (forall i :: 0 <= i < |names| ==> Lacks(names[i], '?'))
    && (version.Some? ==> Lacks(version.value, '?'))
  }

  /**
   * An INSERT binds exactly one parameter per column: the version column is
   * initialised with the literal 0 and is never a parameter.
   */
  lemma InsertParameterCount(insertInto: string, table: string, columns: seq<string>, version: Option<string>)
    requires Lacks(insertInto, '?') && Lacks(table, '?') && NamesLackMark(columns, version)
    ensures CountChar(InsertText(insertInto, table, columns, version), '?') == |columns|
  {
    var v1 := if version.Some? then "," + version.value else "";
    var v2 := if version.Some? then ",0" else "";
    if version.Some? {
      LacksAppend(",", version.value, '?');
    }
    CountCharLacks(v1, '?');
    CountCharLacks(insertInto, '?');
    CountCharLacks(table, '?');
    InsertWordCounts();
    QuotedListCount(columns);
    PlaceholdersCount(|columns|);
    var head := insertInto + table + " (" + QuotedList(columns) + v1;
    CountConcat5(insertInto, table, " (", QuotedList(columns), v1, '?');
    CountConcat5(head, ") VALUES (", Placeholders(|columns|), v2, ")", '?');
  }

  lemma InsertWordCounts()
    ensures CountChar(" (", '?') == 0 && CountChar(") VALUES (", '?') == 0
    ensures CountChar(",0", '?') == 0 && CountChar(")", '?') == 0 && CountChar("", '?') == 0
  {
    CountCharLacks(" (", '?');
    CountCharLacks(") VALUES (", '?');
    CountCharLacks(",0", '?');
    CountCharLacks(")", '?');
  }

  /** The version increment holds no mark; the version test holds one. */
  lemma VersionCounts(v: string)
    requires Lacks(v, '?')
    ensures Lacks("," + v + "=" + v + " + 1", '?')
    ensures CountChar("," + v + "=?", '?') == 1
  {
    LacksAppend(",", v, '?');
    LacksAppend("," + v, "=", '?');
    LacksAppend("," + v + "=", v, '?');
    LacksAppend("," + v + "=" + v, " + 1", '?');
    CountCharLacks("," + v + "=", '?');
    CountCharAppend("," + v + "=", "?", '?');
    assert "," + v + "=?" == "," + v + "=" + "?";
  }

  /**
   * An UPDATE binds one parameter per SET column, then the id, then the
   * expected version when there is one.
   */
  lemma UpdateParameterCount(table: string, columns: seq<string>, id: string, version: Option<string>)
    requires Lacks(table, '?') && Lacks(id, '?') && NamesLackMark(columns, version)
    ensures CountChar(UpdateText(table, columns, id, version), '?')
            == |columns| + 1 + (if version.Some? then 1 else 0)
  {
    UpdateSetCount(table, columns, version);
    var head := "UPDATE " + table + " SET " + EqualPlaceholderList(columns)
      + (if version.Some? then "," + version.value + "=" + version.value + " + 1" else "");
    UpdateWhereCount(head, id, version);
  }

  /** The SET part of an UPDATE binds one parameter per column; the version increment binds none. */
  lemma UpdateSetCount(table: string, columns: seq<string>, version: Option<string>)
    requires Lacks(table, '?') && NamesLackMark(columns, version)
    ensures CountChar("UPDATE " + table + " SET " + EqualPlaceholderList(columns)
                      + (if version.Some? then "," + version.value + "=" + version.value + " + 1" else ""), '?')
            == |columns|
  {
    var inc := if version.Some? then "," + version.value + "=" + version.value + " + 1" else "";
    if version.Some? {
      VersionCounts(version.value);
    }
    CountCharLacks(inc, '?');
    CountCharLacks(table, '?');
    UpdateWordCounts();
    EqualPlaceholderListCount(columns);
    CountConcat5("UPDATE ", table, " SET ", EqualPlaceholderList(columns), inc, '?');
  }

  lemma UpdateWordCounts()
    ensures CountChar("UPDATE ", '?') == 0 && CountChar(" SET ", '?') == 0
    ensures CountChar(" WHERE ", '?') == 0 && CountChar("=?", '?') == 1
  {
    CountCharLacks("UPDATE ", '?');
    CountCharLacks(" SET ", '?');
    CountCharLacks(" WHERE ", '?');
    assert CountChar("=?", '?') == 1;
  }

  /** The WHERE part of an UPDATE binds the id, then the version when there is one. */
  lemma UpdateWhereCount(head: string, id: string, version: Option<string>)
    requires Lacks(id, '?') && (version.Some? ==> Lacks(version.value, '?'))
    ensures CountChar(head + " WHERE " + id + "=?" + (if version.Some? then "," + version.value + "=?" else ""), '?')
            == CountChar(head, '?') + 1 + (if version.Some? then 1 else 0)
  {
    var tail := if version.Some? then "," + version.value + "=?" else "";
    if version.Some? {
      VersionCounts(version.value);
    }
    UpdateWordCounts();
    CountCharLacks(id, '?');
    CountConcat5(head, " WHERE ", id, "=?", tail, '?');
  }

  /** The id and version marks are the last ones: the text ends with them. */
  lemma UpdateEndsWithKeyParameters(table: string, columns: seq<string>, id: string, version: Option<string>)
    ensures version.None? ==> IsSuffix(" WHERE " + id + "=?", UpdateText(table, columns, id, version))
    ensures version.Some? ==> IsSuffix(" WHERE " + id + "=?," + version.value + "=?", UpdateText(table, columns, id, version))
  {
    var head := "UPDATE " + table + " SET " + EqualPlaceholderList(columns)
      + (if version.Some? then "," + version.value + "=" + version.value + " + 1" else "");
    if version.None? {
      var s := " WHERE " + id + "=?";
      assert UpdateText(table, columns, id, version) == head + s;
      assert (head + s)[|head + s| - |s|..] == s;
    } else {
      var s := " WHERE " + id + "=?," + version.value + "=?";
      assert UpdateText(table, columns, id, version) == head + s;
      assert (head + s)[|head + s| - |s|..] == s;
    }
  }

  /** A DELETE binds one parameter per selected column. */
  lemma DeleteParameterCount(table: string, columns: seq<string>)
    requires Lacks(table, '?') && NamesLackMark(columns, None)
    ensures CountChar(DeleteWhere(table, columns), '?') == |columns|
  {
    var a := "DELETE FROM " + table + " WHERE ";
    assert Lacks(a, '?');
    CountCharLacks(a, '?');
    EqValueListCount(table, columns);
    CountCharAppend(a, EqValueList(table, columns), '?');
  }

  lemma InsertListExamples()
    ensures QuotedList(["A", "B"]) == "'A','B'"
    ensures Placeholders(2) == "?,?"
  {
    assert QuotedList(["A", "B"]) == "'A','B'" by {
      var items := seq(2, i requires 0 <= i < 2 => Quoted(["A", "B"][i]));
      assert items[0] == "'A'" && items[1] == "'B'";
      assert items == ["'A'", "'B'"];
      assert items[..1] == ["'A'"];
      assert Join(items, ",") == "'A'" + "," + "'B'";
    }
    assert Placeholders(2) == "?,?" by {
      var items := seq(2, i => "?");
      assert items == ["?", "?"];
      assert items[..1] == ["?"];
      assert Join(items, ",") == "?" + "," + "?";
    }
  }

  lemma InsertExample()
    ensures InsertText("INSERT INTO ", "T", ["A", "B"], None) == "INSERT INTO T ('A','B') VALUES (?,?)"
  {
    InsertListExamples();
  }

  lemma InsertVersionedExample()
    ensures InsertText("INSERT INTO ", "T", ["A", "B"], Some("V")) == "INSERT INTO T ('A','B',V) VALUES (?,?,0)"
  {
    InsertListExamples();
  }

  lemma UpdateExample()
    ensures UpdateText("T", ["A", "B"], "ID", None) == "UPDATE T SET 'A'=?,'B'=? WHERE ID=?"
  {
    SetListExamples();
    var setPart := "UPDATE " + "T" + " SET " + "'A'=?,'B'=?";
    assert setPart == "UPDATE T SET 'A'=?,'B'=?";
    var where := setPart + "" + " WHERE " + "ID" + "=?";
    assert where == "UPDATE T SET 'A'=?,'B'=?" + " WHERE ID=?";
    assert where + "" == where;
  }

  lemma UpdateVersionedExample()
    ensures UpdateText("T", ["A"], "ID", Some("V")) == "UPDATE T SET 'A'=?,V=V + 1 WHERE ID=?,V=?"
  {
    SetListExamples();
    var setPart := "UPDATE " + "T" + " SET " + "'A'=?";
    assert setPart == "UPDATE T SET 'A'=?";
    var inc := "," + "V" + "=" + "V" + " + 1";
    assert inc == ",V=V + 1";
    var where := setPart + inc + " WHERE " + "ID" + "=?";
    assert where == "UPDATE T SET 'A'=?,V=V + 1" + " WHERE ID=?";
    var tail := "," + "V" + "=?";
    assert tail == ",V=?";
    assert where + tail == "UPDATE T SET 'A'=?,V=V + 1 WHERE ID=?" + ",V=?";
  }

  lemma SetListExamples()
    ensures EqualPlaceholderList(["A", "B"]) == "'A'=?,'B'=?"
    ensures EqualPlaceholderList(["A"]) == "'A'=?"
  {
    assert EqualPlaceholderList(["A", "B"]) == "'A'=?,'B'=?" by {
      var items := seq(2, i requires 0 <= i < 2 => Quoted(["A", "B"][i]) + "=?");
      assert items[0] == "'A'=?" && items[1] == "'B'=?";
      assert items == ["'A'=?", "'B'=?"];
      assert items[..1] == ["'A'=?"];
      assert Join(items, ",") == "'A'=?" + "," + "'B'=?";
    }
    assert EqualPlaceholderList(["A"]) == "'A'=?" by {
      var items := seq(1, i requires 0 <= i < 1 => Quoted(["A"][i]) + "=?");
      assert items[0] == "'A'=?";
      assert items == ["'A'=?"];
      assert Join(items, ",") == "'A'=?";
    }
  }

  lemma EqValueListExamples()
    ensures EqValueList("T", ["ID"]) == "T.'ID'=?"
    ensures EqValueList("T", ["ID", "V"]) == "T.'ID'=?,T.'V'=?"
  {
    assert EqValueList("T", ["ID"]) == "T.'ID'=?" by {
      var items := seq(1, i requires 0 <= i < 1 => EqValue("T", ["ID"][i]));
      assert items[0] == "T.'ID'=?";
      assert items == ["T.'ID'=?"];
      assert Join(items, ",") == "T.'ID'=?";
    }
    assert EqValueList("T", ["ID", "V"]) == "T.'ID'=?,T.'V'=?" by {
      var items := seq(2, i requires 0 <= i < 2 => EqValue("T", ["ID", "V"][i]));
      assert items[0] == "T.'ID'=?" && items[1] == "T.'V'=?";
      assert items == ["T.'ID'=?", "T.'V'=?"];
      assert items[..1] == ["T.'ID'=?"];
      assert Join(items, ",") == "T.'ID'=?" + "," + "T.'V'=?";
    }
  }

  lemma DeleteExamples()
    ensures DeleteWhere("T", Selection("ID", None)) == "DELETE FROM T WHERE T.'ID'=?"
    ensures DeleteWhere("T", Selection("ID", Some("V"))) == "DELETE FROM T WHERE T.'ID'=?,T.'V'=?"
  {
    EqValueListExamples();
  }
}

/**
 * The private append loops. Both SqlUtils classes carry an identical copy
 * (orm/internal/SqlUtils.java:106-158, orm/SqlUtils.java:66-118); the model
 * keeps one. The StringBuilder a loop appends to is the `builder` argument
 * and the returned string is its new content.
 */
module SqlAppend {
  import opened Text
  import opened SqlText

  /** Appending item i then, unless it is the last, a comma, builds the comma-joined list. */
  lemma CommaStep(items: seq<string>, i: nat)
    requires i < |items|
    ensures Join(items[..i], ",") + (if i > 0 then "," else "") + items[i] == Join(items[..i + 1], ",")
  {
    if i > 0 {
      JoinOne(items[..i], ",", items[i]);
      assert items[..i] + [items[i]] == items[..i + 1];
    } else {
      assert items[..1] == [items[0]];
    }
  }

  /** What the loop has appended after `i` of `items`: the list so far and, if more follow, a comma. */
  function Progress(items: seq<string>, i: nat): string
    requires i <= |items|
  {
    Join(items[..i], ",") + (if 0 < i < |items| then "," else "")
  }

  lemma ProgressDone(items: seq<string>)
    ensures Progress(items, |items|) == Join(items, ",")
  {
    assert items[..|items|] == items;
  }

  /** One loop step: item i, then a comma unless it is the last. */
  lemma ProgressStep(builder: string, items: seq<string>, i: nat)
    requires i < |items|
    ensures builder + Progress(items, i) + items[i] + (if i < |items| - 1 then "," else "")
            == builder + Progress(items, i + 1)
  {
    CommaStep(items, i);
    AppendAssociates(builder, Progress(items, i), items[i], if i < |items| - 1 then "," else "");
  }

  method AppendColumns(builder: string, columns: seq<string>) returns (b: string)
    ensures b == builder + QuotedList(columns)
  {
    ghost var items := seq(|columns|, i requires 0 <= i < |columns| => Quoted(columns[i]));
    b := builder;
    var length := |columns|;
    for i := 0 to length
      invariant b == builder + Progress(items, i)
    {
      ghost var before := b;
      b := b + "'" + columns[i] + "'";
      AppendAssociates(before, "'", columns[i], "'");
      if i < length - 1 {
        b := b + ",";
      }
      assert b == before + items[i] + (if i < |items| - 1 then "," else "");
      ProgressStep(builder, items, i);
    }
    ProgressDone(items);
  }

  method AppendPlaceholders(builder: string, count: nat) returns (b: string)
    ensures b == builder + Placeholders(count)
  {
    ghost var items := seq(count, i => "?");
    b := builder;
    for i := 0 to count
      invariant b == builder + Progress(items, i)
    {
      ghost var before := b;
      if i < count - 1 {
        b := b + "?,";
        AppendAssociates2(before, "?", ",");
      } else {
        b := b + "?";
      }
      assert b == before + items[i] + (if i < |items| - 1 then "," else "");
      ProgressStep(builder, items, i);
    }
    ProgressDone(items);
  }

  method AppendColumnsEqualPlaceholders(builder: string, columns: seq<string>) returns (b: string)
    ensures b == builder + EqualPlaceholderList(columns)
  {
    ghost var items := seq(|columns|, i requires 0 <= i < |columns| => Quoted(columns[i]) + "=?");
    b := builder;
    for i := 0 to |columns|
      invariant b == builder + Progress(items, i)
    {
      ghost var before := b;
      b := AppendColumn(b, columns[i]);
      b := b + "=?";
      AppendAssociates2(before, Quoted(columns[i]), "=?");
      if i < |columns| - 1 {
        b := b + ",";
      }
      assert b == before + items[i] + (if i < |items| - 1 then "," else "");
      ProgressStep(builder, items, i);
    }
    ProgressDone(items);
  }

  method AppendColumnsEqValue(builder: string, alias: string, columns: seq<string>) returns (b: string)
    ensures b == builder + EqValueList(alias, columns)
  {
    ghost var items := seq(|columns|, i requires 0 <= i < |columns| => EqValue(alias, columns[i]));
    b := builder;
    for i := 0 to |columns|
      invariant b == builder + Progress(items, i)
    {
      ghost var before := b;
      b := AppendAliasedColumn(b, alias, columns[i]);
      b := b + "=?";
      AppendAssociates2(before, AliasedColumn(alias, columns[i]), "=?");
      if i < |columns| - 1 {
        b := b + ",";
      }
      assert b == before + items[i] + (if i < |items| - 1 then "," else "");
      ProgressStep(builder, items, i);
    }
    ProgressDone(items);
  }

  /** `appendColumn(builder, alias, column)`. */
  method AppendAliasedColumn(builder: string, alias: string, column: string) returns (b: string)
    ensures b == builder + AliasedColumn(alias, column)
  {
    b := builder + alias + ".'" + column + "'";
  }

  /** `appendColumn(builder, column)`. */
  method AppendColumn(builder: string, column: string) returns (b: string)
    ensures b == builder + Quoted(column)
  {
    b := builder + "'" + column + "'";
  }
}

/** orm/internal/SqlUtils.java. */
module InternalSqlUtils {
  import opened Text
  import opened Outcomes
  import opened SqlText
  import opened SqlAppend

  method CreateSqlDelete(table: string, id: string, version: Option<string>) returns (sql: string)
    ensures sql == DeleteWhere(table, Selection(id, version))
  {
    sql := "DELETE FROM " + table;
    var selection := if version.Some? then [id, version.value] else [id];
    sql := sql + " WHERE ";
    sql := AppendColumnsEqValue(sql, table, selection);
  }

  method CreateSqlInsert(table: string, columns: seq<string>, version: Option<string>) returns (sql: string)
    ensures sql == InsertText("INSERT INTO ", table, columns, version)
  {
    sql := "INSERT INTO " + table + " (";
    sql := AppendColumns(sql, columns);
    if version.Some? {
      ghost var before := sql;
      sql := sql + "," + version.value;
      AppendAssociates2(before, ",", version.value);
    }
    sql := sql + ") VALUES (";
    sql := AppendPlaceholders(sql, |columns|);
    if version.Some? {
      sql := sql + ",0";
    }
    sql := sql + ")";
  }

  method CreateSqlUpdate(table: string, columns: seq<string>, id: string, version: Option<string>) returns (sql: string)
    ensures sql == UpdateText(table, columns, id, version)
  {
    sql := "UPDATE " + table + " SET ";
    sql := AppendColumnsEqualPlaceholders(sql, columns);
    if version.Some? {
      ghost var before := sql;
      sql := sql + "," + version.value + "=" + version.value + " + 1";
      AppendAssociates4(before, ",", version.value, "=", version.value);
      AppendAssociates2(before, "," + version.value + "=" + version.value, " + 1");
    }
    sql := sql + " WHERE " + id + "=?";
    if version.Some? {
      ghost var before := sql;
      sql := sql + "," + version.value + "=?";
      AppendAssociates(before, ",", version.value, "=?");
    }
  }
}

/** orm/SqlUtils.java, the older copy. */
module LegacySqlUtils {
  import opened Text
  import opened Outcomes
  import opened SqlText
  import opened SqlAppend

  /** The older DELETE: a null or empty column list selects every row. */
  function LegacyDeleteText(table: string, columns: Option<seq<string>>): string {
    if columns.Some? && |columns.value| > 0 then DeleteWhere(table, columns.value)
    else "DELETE FROM " + table
  }

  method CreateSqlDelete(table: string, columns: Option<seq<string>>) returns (sql: string)
    ensures sql == LegacyDeleteText(table, columns)
  {
    sql := "DELETE FROM " + table;
    if columns.Some? && |columns.value| > 0 {
      sql := sql + " WHERE ";
      sql := AppendColumnsEqValue(sql, table, columns.value);
    }
  }

  /** The older INSERT starts with whatever keyword text the caller passes. */
  method CreateSqlInsert(insertInto: string, table: string, columns: seq<string>, version: Option<string>) returns (sql: string)
    ensures sql == InsertText(insertInto, table, columns, version)
    ensures IsPrefix(insertInto, sql)
  {
    sql := insertInto;
    sql := sql + table + " (";
    sql := AppendColumns(sql, columns);
    if version.Some? {
      ghost var before := sql;
      sql := sql + "," + version.value;
      AppendAssociates2(before, ",", version.value);
    }
    sql := sql + ") VALUES (";
    sql := AppendPlaceholders(sql, |columns|);
    if version.Some? {
      sql := sql + ",0";
    }
    sql := sql + ")";
    assert sql[..|insertInto|] == insertInto;
  }

  /** The same text as the current copy's UPDATE. */
  method CreateSqlUpdate(table: string, columns: seq<string>, id: string, version: Option<string>) returns (sql: string)
    ensures sql == UpdateText(table, columns, id, version)
  {
    sql := "UPDATE " + table + " SET ";
    sql := AppendColumnsEqualPlaceholders(sql, columns);
    if version.Some? {
      ghost var before := sql;
      sql := sql + "," + version.value + "=" + version.value + " + 1";
      AppendAssociates4(before, ",", version.value, "=", version.value);
      AppendAssociates2(before, "," + version.value + "=" + version.value, " + 1");
    }
    sql := sql + " WHERE " + id + "=?";
    if version.Some? {
      ghost var before := sql;
      sql := sql + "," + version.value + "=?";
      AppendAssociates(before, ",", version.value, "=?");
    }
  }

  /** With no columns the older DELETE has no WHERE clause. */
  lemma LegacyDeleteWithoutColumns(table: string, columns: Option<seq<string>>)
    requires columns.None? || columns.value == []
    ensures LegacyDeleteText(table, columns) == "DELETE FROM " + table
    ensures !IsPrefix("DELETE FROM " + table + " WHERE ", LegacyDeleteText(table, columns))
  {
  }

  /** The by-id DELETE of the current copy is the older DELETE on the selected columns. */
  lemma DeleteCopiesAgree(table: string, id: string, version: Option<string>)
    ensures DeleteWhere(table, Selection(id, version)) == LegacyDeleteText(table, Some(Selection(id, version)))
  {
  }

  lemma LegacyDeleteExample()
    ensures LegacyDeleteText("T", Some(["A", "B"])) == "DELETE FROM T WHERE T.'A'=?,T.'B'=?"
  {
    PairList();
    var head := "DELETE FROM " + "T" + " WHERE ";
    assert head == "DELETE FROM T WHERE ";
  }

  lemma PairList()
    ensures EqValueList("T", ["A", "B"]) == "T.'A'=?,T.'B'=?"
  {
    var items := seq(2, i requires 0 <= i < 2 => EqValue("T", ["A", "B"][i]));
    assert items[0] == "T.'A'=?" && items[1] == "T.'B'=?";
    assert items == ["T.'A'=?", "T.'B'=?"];
    assert items[..1] == ["T.'A'=?"];
    assert Join(items, ",") == "T.'A'=?" + "," + "T.'B'=?";
  }
}
