/**
 * The criterion factories of orm/query/Restrictions.java.
 *
 * Each factory builds one criterion, never negated. The lemmas say what the
 * criteria they build collect and render, in the terms of `Criteria.Args`
 * and `Criteria.Render`: the comparison and pattern factories differ only in
 * the operator named by the null-value message, since `toSql` never writes
 * the operator.
 */
module Restrictions {
  import opened Outcomes
  import C = Criteria
  import opened Text

  // ---------------------------------------------------------------- comparisons

  function Eq(property: string, value: Option<string>): C.Criterion { C.Operator("==", property, value, false) }
  function Ne(property: string, value: Option<string>): C.Criterion { C.Operator("!=", property, value, false) }
  function Lt(property: string, value: Option<string>): C.Criterion { C.Operator("<", property, value, false) }
  function Le(property: string, value: Option<string>): C.Criterion { C.Operator("<=", property, value, false) }
  function Gt(property: string, value: Option<string>): C.Criterion { C.Operator(">", property, value, false) }
  function Ge(property: string, value: Option<string>): C.Criterion { C.Operator(">=", property, value, false) }

  // ---------------------------------------------------------------- patterns

  function Like(property: string, value: Option<string>): C.Criterion { C.Operator("LIKE", property, value, false) }
  function Glob(property: string, value: Option<string>): C.Criterion { C.Operator("GLOB", property, value, false) }
  function Regexp(property: string, value: Option<string>): C.Criterion { C.Operator("REGEXP", property, value, false) }

  // ---------------------------------------------------------------- the others

  function Between(property: string, start: Option<string>, end: Option<string>): C.Criterion {
    C.Between(property, start, end, false)
  }

  function IsNull(property: string): C.Criterion { C.Constant("ISNULL", property) }
  function IsNotNull(property: string): C.Criterion { C.Constant("NOTNULL", property) }

  function IdEqual(value: int): C.Criterion { C.Id(value) }

  /** Both `in` overloads: the values are copied into a list in the caller's order. */
  function In(property: string, values: seq<Option<string>>): C.Criterion { C.In(property, values, false) }

  function SqlRestriction(sql: string, objects: seq<string>): C.Criterion { C.Sql(sql, objects) }

  // ---------------------------------------------------------------- what the factories build

  /**
   * What an operator criterion built by a factory does with its value: one
   * argument, the value itself, or an `OrmException` naming `operator` and
   * leaving the list as it was.
   */
  predicate CollectsValue(c: C.Criterion, operator: string, property: string, value: Option<string>, list: seq<string>) {
    C.ArgsCount(c) == 1 &&
    C.Args(c, list) ==
      (if value.None? then (Fail(OrmError(C.NullOperatorMessage(operator, property))), list)
       else (Pass, list + [value.value]))
  }

  /**
   * `eq`, `ne`, `lt`, `le`, `gt` and `ge` build operator criteria for `==`,
   * `!=`, `<`, `<=`, `>` and `>=`; every one collects the value alone and
   * renders `<column> <property> ? )`, the same text for all six.
   */
  lemma ComparisonFactories(property: string, value: Option<string>, list: seq<string>, r: C.PropertyResolver)
    ensures CollectsValue(Eq(property, value), "==", property, value, list)
    ensures CollectsValue(Ne(property, value), "!=", property, value, list)
    ensures CollectsValue(Lt(property, value), "<", property, value, list)
    ensures CollectsValue(Le(property, value), "<=", property, value, list)
    ensures CollectsValue(Gt(property, value), ">", property, value, list)
    ensures CollectsValue(Ge(property, value), ">=", property, value, list)
    ensures C.Render(Eq(property, value), r) == (Pass, " " + r.columnFor(property) + " " + property + " ? )")
    ensures C.Render(Ne(property, value), r) == C.Render(Eq(property, value), r)
    ensures C.Render(Lt(property, value), r) == C.Render(Eq(property, value), r)
    ensures C.Render(Le(property, value), r) == C.Render(Eq(property, value), r)
    ensures C.Render(Gt(property, value), r) == C.Render(Eq(property, value), r)
    ensures C.Render(Ge(property, value), r) == C.Render(Eq(property, value), r)
  {
    C.OperatorText("==", property, value, false, r, "!=");
    C.OperatorText("==", property, value, false, r, "<");
    C.OperatorText("==", property, value, false, r, "<=");
    C.OperatorText("==", property, value, false, r, ">");
    C.OperatorText("==", property, value, false, r, ">=");
    assert " " + r.columnFor(property) + C.NotText(false) == " " + r.columnFor(property);
  }

  /**
   * `like`, `glob` and `regexp` build operator criteria for `LIKE`, `GLOB`
   * and `REGEXP`, which render as the comparisons do.
   */
  lemma PatternFactories(property: string, value: Option<string>, list: seq<string>, r: C.PropertyResolver)
    ensures CollectsValue(Like(property, value), "LIKE", property, value, list)
    ensures CollectsValue(Glob(property, value), "GLOB", property, value, list)
    ensures CollectsValue(Regexp(property, value), "REGEXP", property, value, list)
    ensures C.Render(Like(property, value), r) == C.Render(Eq(property, value), r)
    ensures C.Render(Glob(property, value), r) == C.Render(Eq(property, value), r)
    ensures C.Render(Regexp(property, value), r) == C.Render(Eq(property, value), r)
  {
    C.OperatorText("==", property, value, false, r, "LIKE");
    C.OperatorText("==", property, value, false, r, "GLOB");
    C.OperatorText("==", property, value, false, r, "REGEXP");
  }

  /** Every factory that builds a `NotCriterion` builds one not yet negated. */
  lemma NegatableFactories(property: string, value: Option<string>, values: seq<Option<string>>)
    ensures C.Negatable(Like(property, value)) && !Like(property, value).negated
    ensures C.Negatable(Glob(property, value)) && !Glob(property, value).negated
    ensures C.Negatable(Regexp(property, value)) && !Regexp(property, value).negated
    ensures C.Negatable(Between(property, value, value)) && !Between(property, value, value).negated
    ensures C.Negatable(In(property, values)) && !In(property, values).negated
  {
  }

  /**
   * `between(p, start, end)` collects the start before the end and writes
   * them into the text in that order.
   */
  lemma BetweenFactory(property: string, start: string, end: string, list: seq<string>, r: C.PropertyResolver)
    ensures C.Args(Between(property, Some(start), Some(end)), list) == (Pass, list + [start, end])
    ensures C.Render(Between(property, Some(start), Some(end)), r) ==
            (Pass, " " + r.columnFor(property) + " BETWEEN " + start + " AND " + end)
  {
    C.BetweenArgsInOrder(property, start, end, false, list);
    C.BetweenText(property, start, end, false, r);
    assert " " + r.columnFor(property) + C.NotText(false) == " " + r.columnFor(property);
  }

  /** `isNull` and `isNotNull` append `ISNULL` and `NOTNULL` after the column and collect nothing. */
  lemma NullFactories(property: string, list: seq<string>, r: C.PropertyResolver)
    ensures C.Render(IsNull(property), r) == (Pass, " " + r.columnFor(property) + " ISNULL")
    ensures C.Render(IsNotNull(property), r) == (Pass, " " + r.columnFor(property) + " NOTNULL")
    ensures C.Args(IsNull(property), list) == (Pass, list) && C.ArgsCount(IsNull(property)) == 0
    ensures C.Args(IsNotNull(property), list) == (Pass, list) && C.ArgsCount(IsNotNull(property)) == 0
  {
    C.ConstantText("ISNULL", property, r, list);
    C.ConstantText("NOTNULL", property, r, list);
    AppendAssociates2(" " + r.columnFor(property), " ", "ISNULL");
    AppendAssociates2(" " + r.columnFor(property), " ", "NOTNULL");
    assert " " + "ISNULL" == " ISNULL";
    assert " " + "NOTNULL" == " NOTNULL";
  }

  /** `idEqual(id)` compares the id column with the id written in decimal, and collects nothing. */
  lemma IdEqualFactory(id: int, list: seq<string>, r: C.PropertyResolver)
    ensures C.Render(IdEqual(id), r) == (Pass, " " + r.idColumn + " == " + DecimalString(id))
    ensures C.Args(IdEqual(id), list) == (Pass, list) && C.ArgsCount(IdEqual(id)) == 0
  {
    C.IdText(id, id, r);
  }

  /**
   * `in(p, values)` keeps the values in the caller's order: with no null
   * value it collects them all, in order, and renders one placeholder each.
   */
  lemma InFactory(property: string, values: seq<string>, list: seq<string>, r: C.PropertyResolver)
    ensures var boxed := seq(|values|, i requires 0 <= i < |values| => Some(values[i]));
            C.Args(In(property, boxed), list) == (Pass, list + values) &&
            C.ArgsCount(In(property, boxed)) == |values| &&
            (Lacks(r.columnFor(property), '?') ==>
               CountChar(C.Render(In(property, boxed), r).1, '?') == |values|)
  {
    var boxed := seq(|values|, i requires 0 <= i < |values| => Some(values[i]));
    C.InArgsInOrder(property, values, false, list);
    if Lacks(r.columnFor(property), '?') {
      C.PlaceholdersMatchArgs(In(property, boxed), r);
    }
  }

  /** `sqlRestriction(sql, objects)` collects the objects in order and appends the sql as one word. */
  lemma SqlRestrictionFactory(sql: string, objects: seq<string>, list: seq<string>, r: C.PropertyResolver)
    ensures C.Args(SqlRestriction(sql, objects), list) == (Pass, list + objects)
    ensures C.ArgsCount(SqlRestriction(sql, objects)) == |objects|
    ensures C.Render(SqlRestriction(sql, objects), r) == (Pass, " " + sql)
  {
    C.SqlText(sql, objects, r, r);
  }
}
