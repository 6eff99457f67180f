/**
 * Query criteria (the criterion classes of orm/query).
 *
 * A criterion contributes two things to a query: SQL text, appended word by
 * word to a statement builder by `toSql`, and string arguments, appended to
 * the caller's list by `collectArgs`; `getArgsCount` says how many
 * arguments it contributes. The criteria are values here, one constructor
 * per class. A Java `Object` argument is either null (`None`) or the text
 * its `toString` returns. `Args` and `Render` give what the two append
 * methods add (and whether they throw), `ArgsCount` what `getArgsCount`
 * answers; the methods below perform the appends with the source's loops
 * and are proved to add exactly that.
 */
module Criteria {
  import opened Outcomes
  import opened Text
  import opened StatementText
  import Builder = InternalStatementBuilder

  /**
   * The query's property resolver: the column a property maps to and the
   * id column. Its implementation is not part of the repository's sources.
   */
  datatype PropertyResolver = PropertyResolver(columnFor: string -> string, idColumn: string)

  /** `Criterion.PLACE_HOLDER`. */
  const PlaceHolder: string := "?"

  datatype Criterion =
    | Operator(operator: string, property: string, value: Option<string>, negated: bool)
    | Between(property: string, start: Option<string>, end: Option<string>, negated: bool)
    | In(property: string, values: seq<Option<string>>, negated: bool)
    | Composite(children: seq<Criterion>)
    | Constant(constant: string, property: string)
    | Id(id: int)
    | Sql(sql: string, args: seq<string>)

  /** The classes that implement `NotCriterion`. */
  predicate Negatable(c: Criterion) {
    c.Operator? || c.Between? || c.In?
  }

  /** `not()`: sets the flag and returns the criterion. */
  function Not(c: Criterion): (r: Criterion)
    requires Negatable(c)
    ensures Negatable(r) && r.negated
  {
    match c
    case Operator(o, p, v, _) => Operator(o, p, v, true)
    case Between(p, s, e, _) => Between(p, s, e, true)
    case In(p, vs, _) => In(p, vs, true)
  }

  /** The message `OperatorCriterion.collectArgs` formats; `%S` upper-cases the property. */
  function NullOperatorMessage(operator: string, property: string): string {
    "Operator " + operator + " value is null for property " + Upper(property)
  }

  const MissingBetween: string := "Missing between value"

  // ---------------------------------------------------------------- getArgsCount

  function ArgsCount(c: Criterion): nat {
    match c
    case Operator(_, _, _, _) => 1
    case Between(_, _, _, _) => 2
    case In(_, values, _) => |values|
    case Composite(children) => CountEach(children)
    case Constant(_, _) => 0
    case Id(_) => 0
    case Sql(_, args) => |args|
  }

  /** The children's counts, summed. */
  function CountEach(cs: seq<Criterion>): nat {
    if cs == [] then 0 else ArgsCount(cs[0]) + CountEach(cs[1..])
  }

  // ---------------------------------------------------------------- collectArgs

  /** The list after `collectArgs`, and whether it threw. */
  function Args(c: Criterion, list: seq<string>): (Outcome, seq<string>) {
    match c
    case Operator(o, p, v, _) =>
      if v.None? then (Fail(OrmError(NullOperatorMessage(o, p))), list) else (Pass, list + [v.value])
    case Between(_, s, e, _) =>
      if s.None? || e.None? then (Fail(OrmError(MissingBetween)), list) else (Pass, list + [s.value, e.value])
    case In(_, values, _) => ArgsIn(values, list)
    case Composite(children) => ArgsEach(children, list)
    case Constant(_, _) => (Pass, list)
    case Id(_) => (Pass, list)
    case Sql(_, args) => (Pass, list + args)
  }

  /** The loop of `InCriterion.collectArgs`: `toString` of a null value throws, after the values before it. */
  function ArgsIn(values: seq<Option<string>>, list: seq<string>): (Outcome, seq<string>) {
    if values == [] then (Pass, list)
    else if values[0].None? then (Fail(NullPointer), list)
    else ArgsIn(values[1..], list + [values[0].value])
  }

  /** The loop of `CompositeCriterion.collectArgs`: each child in turn, until one throws. */
  function ArgsEach(cs: seq<Criterion>, list: seq<string>): (Outcome, seq<string>) {
    if cs == [] then (Pass, list)
    else
      var first := Args(cs[0], list);
      if first.0.Fail? then first else ArgsEach(cs[1..], first.1)
  }

  // ---------------------------------------------------------------- toSql

  function NotWords(negated: bool): seq<string> {
    if negated then ["NOT"] else []
  }

  /** The words a negatable criterion starts with: the resolved column, then `NOT` when negated. */
  function Subject(column: string, negated: bool): seq<string> {
    [column] + NotWords(negated)
  }

  /** `n` placeholders, as `Arrays.fill` leaves the array. */
  function Marks(n: nat): (r: seq<string>)
    ensures |r| == n && forall i :: 0 <= i < n ==> r[i] == PlaceHolder
  {
    seq(n, _ => PlaceHolder)
  }

  /** What `toSql` appends to the builder before it completes or throws, and whether it threw. */
  function Render(c: Criterion, r: PropertyResolver): (Outcome, string) {
    match c
    case Operator(_, p, _, n) =>
      (Pass, Words(Subject(r.columnFor(p), n)) + OperatorTail(p))
    case Between(p, s, e, n) =>
      var rendered := BetweenTail(s, e);
      (rendered.0, Words(Subject(r.columnFor(p), n)) + rendered.1)
    case In(p, values, n) =>
      (Pass, Words(Subject(r.columnFor(p), n)) + InTail(|values|))
    case Composite(children) => RenderEach(children, r)
    case Constant(k, p) => (Pass, Words([r.columnFor(p), k]))
    case Id(id) => (Pass, Words([r.idColumn, "==", DecimalString(id)]))
    case Sql(sql, _) => (Pass, WordText(sql))
  }

  /** After the subject, an operator criterion writes the property, a placeholder and a closing bracket; never the operator. */
  function OperatorTail(property: string): string {
    Words([property, PlaceHolder]) + CloseBracketText
  }

  /** After the subject, a between criterion writes its bounds into the text; `toString` of a null bound throws. */
  function BetweenTail(start: Option<string>, end: Option<string>): (Outcome, string) {
    if start.None? then (Fail(NullPointer), Words(["BETWEEN"]))
    else if end.None? then (Fail(NullPointer), Words(["BETWEEN", start.value, "AND"]))
    else (Pass, Words(["BETWEEN", start.value, "AND"]) + WordText(end.value))
  }

  /** After the subject, an in criterion writes `IN` and one placeholder per value. */
  function InTail(n: nat): string {
    Words(["IN"]) + PlaceholderList(n)
  }

  /** `( ? ,? ,? )`: the bracketed list of `n` placeholders. */
  function PlaceholderList(n: nat): string {
    OpenBracketText + SeparatedText(Marks(n), ',') + CloseBracketText
  }

  /** The loop of `CompositeCriterion.toSql`: the children in order, with no connector, until one throws. */
  function RenderEach(cs: seq<Criterion>, r: PropertyResolver): (Outcome, string) {
    if cs == [] then (Pass, "")
    else
      var first := Render(cs[0], r);
      if first.0.Fail? then first
      else var rest := RenderEach(cs[1..], r); (rest.0, first.1 + rest.1)
  }

  // ---------------------------------------------------------------- collectArgs and getArgsCount agree

  /**
   * `collectArgs` only appends, the same whatever the list held, and when it
   * completes it appends exactly `getArgsCount` arguments.
   */
  lemma {:induction false} ArgsAppend(c: Criterion, list: seq<string>)
    ensures Args(c, list).0 == Args(c, []).0
    ensures Args(c, list).1 == list + Args(c, []).1
    ensures Args(c, []).0.Pass? ==> |Args(c, []).1| == ArgsCount(c)
    decreases c, 1
  {
    match c
    case In(_, values, _) => ArgsInAppend(values, list);
    case Composite(children) => ArgsEachAppend(children, list);
    case Operator(_, _, _, _) =>
      assert [] + Args(c, []).1 == Args(c, []).1;
    case Between(_, _, _, _) =>
      assert [] + Args(c, []).1 == Args(c, []).1;
    case Sql(_, args) =>
      assert [] + args == args;
    case _ =>
      assert list + [] == list;
  }

  lemma {:induction false} ArgsInAppend(values: seq<Option<string>>, list: seq<string>)
    ensures ArgsIn(values, list).0 == ArgsIn(values, []).0
    ensures ArgsIn(values, list).1 == list + ArgsIn(values, []).1
    ensures ArgsIn(values, []).0.Pass? ==> |ArgsIn(values, []).1| == |values|
    decreases |values|
  {
    if values == [] {
      assert list + [] == list;
    } else if values[0].Some? {
      var v := values[0].value;
      ArgsInAppend(values[1..], list + [v]);
      ArgsInAppend(values[1..], [v]);
      ArgsInAppend(values[1..], []);
      assert [] + [v] == [v];
      assert list + [v] + ArgsIn(values[1..], []).1 == list + ([v] + ArgsIn(values[1..], []).1);
    } else {
      assert list + [] == list;
    }
  }

  lemma {:induction false} ArgsEachAppend(cs: seq<Criterion>, list: seq<string>)
    ensures ArgsEach(cs, list).0 == ArgsEach(cs, []).0
    ensures ArgsEach(cs, list).1 == list + ArgsEach(cs, []).1
    ensures ArgsEach(cs, []).0.Pass? ==> |ArgsEach(cs, []).1| == CountEach(cs)
    decreases cs, 0
  {
    if cs == [] {
      assert list + [] == list;
    } else {
      ArgsAppend(cs[0], list);
      ArgsAppend(cs[0], []);
      var head := Args(cs[0], []).1;
      if Args(cs[0], []).0.Pass? {
        ArgsEachAppend(cs[1..], list + head);
        ArgsEachAppend(cs[1..], head);
        ArgsEachAppend(cs[1..], []);
        assert [] + head == head;
        assert list + head + ArgsEach(cs[1..], []).1 == list + (head + ArgsEach(cs[1..], []).1);
      }
    }
  }

  /** A null operator value, or a missing between bound, throws and leaves the list as it was. */
  lemma NullValueLeavesList(c: Criterion, list: seq<string>)
    requires (c.Operator? && c.value.None?) || (c.Between? && (c.start.None? || c.end.None?))
    ensures Args(c, list).1 == list
    ensures Args(c, list).0 ==
            Fail(OrmError(if c.Operator? then NullOperatorMessage(c.operator, c.property) else MissingBetween))
  {
  }

  /** A between criterion with both bounds appends the start, then the end. */
  lemma BetweenArgsInOrder(property: string, start: string, end: string, negated: bool, list: seq<string>)
    ensures Args(Between(property, Some(start), Some(end), negated), list) == (Pass, list + [start, end])
  {
  }

  /** An in criterion with no null value appends every value, in order. */
  lemma {:induction false} InArgsInOrder(property: string, values: seq<string>, negated: bool, list: seq<string>)
    ensures var boxed := seq(|values|, i requires 0 <= i < |values| => Some(values[i]));
            Args(In(property, boxed, negated), list) == (Pass, list + values)
    decreases |values|
  {
    var boxed := seq(|values|, i requires 0 <= i < |values| => Some(values[i]));
    if values == [] {
      assert list + [] == list;
    } else {
      InArgsInOrder(property, values[1..], negated, list + [values[0]]);
      assert boxed[1..] == seq(|values[1..]|, i requires 0 <= i < |values[1..]| => Some(values[1..][i]));
      assert list + [values[0]] + values[1..] == list + values;
    }
  }

  /** A composite collects its children's arguments in child order: the first part, then the rest. */
  lemma {:induction false} ArgsEachSplit(cs: seq<Criterion>, more: seq<Criterion>, list: seq<string>)
    ensures ArgsEach(cs + more, list) ==
            (if ArgsEach(cs, list).0.Fail? then ArgsEach(cs, list) else ArgsEach(more, ArgsEach(cs, list).1))
    decreases |cs|
  {
    if cs == [] {
      assert cs + more == more;
    } else {
      assert (cs + more)[0] == cs[0];
      assert (cs + more)[1..] == cs[1..] + more;
      if Args(cs[0], list).0.Pass? {
        ArgsEachSplit(cs[1..], more, Args(cs[0], list).1);
      }
    }
  }

  /** `getArgsCount` of a composite is the sum of its parts' counts. */
  lemma {:induction false} CountEachSplit(cs: seq<Criterion>, more: seq<Criterion>)
    ensures CountEach(cs + more) == CountEach(cs) + CountEach(more)
    decreases |cs|
  {
    if cs == [] {
      assert cs + more == more;
    } else {
      assert (cs + more)[0] == cs[0];
      assert (cs + more)[1..] == cs[1..] + more;
      CountEachSplit(cs[1..], more);
    }
  }

  /** A composite renders its children in order: the first part, then the rest, with no connector. */
  lemma {:induction false} RenderEachSplit(cs: seq<Criterion>, more: seq<Criterion>, r: PropertyResolver)
    ensures RenderEach(cs + more, r) ==
            (if RenderEach(cs, r).0.Fail? then RenderEach(cs, r)
             else (RenderEach(more, r).0, RenderEach(cs, r).1 + RenderEach(more, r).1))
    decreases |cs|
  {
    if cs == [] {
      assert cs + more == more;
      assert "" + RenderEach(more, r).1 == RenderEach(more, r).1;
    } else {
      assert (cs + more)[0] == cs[0];
      assert (cs + more)[1..] == cs[1..] + more;
      RenderEachSplit(cs[1..], more, r);
      var first := Render(cs[0], r).1;
      if Render(cs[0], r).0.Pass? && RenderEach(cs[1..], r).0.Pass? {
        assert first + (RenderEach(cs[1..], r).1 + RenderEach(more, r).1)
            == first + RenderEach(cs[1..], r).1 + RenderEach(more, r).1;
      }
    }
  }

  /** An empty composite renders and collects nothing. */
  lemma EmptyComposite(r: PropertyResolver, list: seq<string>)
    ensures Args(Composite([]), list) == (Pass, list)
    ensures Render(Composite([]), r) == (Pass, "")
    ensures ArgsCount(Composite([])) == 0
  {
  }

  // ---------------------------------------------------------------- what toSql emits

  /** What the subject words read as. */
  function NotText(negated: bool): string {
    if negated then " NOT" else ""
  }

  lemma SubjectText(column: string, negated: bool)
    ensures Words(Subject(column, negated)) == " " + column + NotText(negated)
  {
    WordsLiteral(column, "NOT", "");
    assert Subject(column, false) == [column];
    assert Subject(column, true) == [column, "NOT"];
    assert " " + column + "" == " " + column;
  }

  /**
   * An operator criterion renders `<column> [NOT] <property> ? )`: the
   * operator itself is never emitted, so two criteria that differ only in
   * their operator render the same text.
   */
  lemma OperatorText(o: string, p: string, v: Option<string>, n: bool, r: PropertyResolver, other: string)
    ensures Render(Operator(o, p, v, n), r) == (Pass, " " + r.columnFor(p) + NotText(n) + " " + p + " ? )")
    ensures Render(Operator(o, p, v, n), r) == Render(Operator(other, p, v, n), r)
  {
    var head := " " + r.columnFor(p) + NotText(n);
    SubjectText(r.columnFor(p), n);
    WordsLiteral(p, PlaceHolder, "");
    assert OperatorTail(p) == " " + p + " ? )";
    AppendAssociates2(head, " " + p, " ? )");
    AppendAssociates2(head, " ", p);
  }

  /**
   * A between criterion renders `<column> [NOT] BETWEEN <start> AND <end>`
   * with the bounds written into the text; a null bound throws once the
   * words before it are appended.
   */
  lemma BetweenText(p: string, s: string, e: string, n: bool, r: PropertyResolver)
    ensures Render(Between(p, Some(s), Some(e), n), r) ==
            (Pass, " " + r.columnFor(p) + NotText(n) + " BETWEEN " + s + " AND " + e)
    ensures Render(Between(p, None, Some(e), n), r) == (Fail(NullPointer), " " + r.columnFor(p) + NotText(n) + " BETWEEN")
    ensures Render(Between(p, Some(s), None, n), r) ==
            (Fail(NullPointer), " " + r.columnFor(p) + NotText(n) + " BETWEEN " + s + " AND")
  {
    var head := " " + r.columnFor(p) + NotText(n);
    SubjectText(r.columnFor(p), n);
    WordsLiteral("BETWEEN", s, "AND");
    var words := " BETWEEN " + s + " AND";
    assert Words(["BETWEEN", s, "AND"]) == words;
    AppendAssociates2(head, words, " " + e);
    assert words + (" " + e) == " BETWEEN " + s + " AND " + e;
    AppendAssociates4(head, " BETWEEN ", s, " AND ", e);
    AppendAssociates(head, " BETWEEN ", s, " AND");
    assert Words(["BETWEEN"]) == " BETWEEN";
  }

  /** A constant criterion appends the resolved column, then the constant; the list is untouched. */
  lemma ConstantText(k: string, p: string, r: PropertyResolver, list: seq<string>)
    ensures Render(Constant(k, p), r) == (Pass, " " + r.columnFor(p) + " " + k)
    ensures Args(Constant(k, p), list) == (Pass, list) && ArgsCount(Constant(k, p)) == 0
  {
    WordsLiteral(r.columnFor(p), k, "");
  }

  /** A raw SQL criterion appends its text as one word, whatever the resolver. */
  lemma SqlText(sql: string, args: seq<string>, r: PropertyResolver, other: PropertyResolver)
    ensures Render(Sql(sql, args), r) == (Pass, " " + sql)
    ensures Render(Sql(sql, args), r) == Render(Sql(sql, args), other)
  {
  }

  /**
   * An id criterion appends `<id column> == <id>` with the id in decimal;
   * distinct ids render distinct texts.
   */
  lemma IdText(id: int, other: int, r: PropertyResolver)
    ensures Render(Id(id), r) == (Pass, " " + r.idColumn + " == " + DecimalString(id))
    ensures id != other ==> Render(Id(id), r) != Render(Id(other), r)
  {
    var head := " " + r.idColumn + " == ";
    IdWords(id, r);
    IdWords(other, r);
    DecimalStringInjective(id, other);
    assert (head + DecimalString(id))[|head|..] == DecimalString(id);
    assert (head + DecimalString(other))[|head|..] == DecimalString(other);
  }

  lemma IdWords(id: int, r: PropertyResolver)
    ensures Words([r.idColumn, "==", DecimalString(id)]) == " " + r.idColumn + " == " + DecimalString(id)
  {
    WordsLiteral(r.idColumn, "==", DecimalString(id));
    AppendAssociates(" " + r.idColumn, " ", "==", " ");
  }

  // ---------------------------------------------------------------- placeholders and arguments

  /**
   * The texts a criterion writes hold no `?` of their own, so every `?` it
   * renders is a placeholder; a raw SQL criterion must carry one argument per
   * `?` in its text. A between criterion never qualifies: it writes its
   * bounds into the text.
   */
  predicate OwnMarksOnly(c: Criterion, r: PropertyResolver) {
    match c
    case Operator(_, p, _, _) => Lacks(r.columnFor(p), '?') && Lacks(p, '?')
    case Between(_, _, _, _) => false
    case In(p, _, _) => Lacks(r.columnFor(p), '?')
    case Composite(children) => forall i :: 0 <= i < |children| ==> OwnMarksOnly(children[i], r)
    case Constant(k, p) => Lacks(r.columnFor(p), '?') && Lacks(k, '?')
    case Id(_) => Lacks(r.idColumn, '?')
    case Sql(sql, args) => CountChar(sql, '?') == |args|
  }

  /**
   * Outside between criteria, `toSql` emits exactly one placeholder per
   * argument `getArgsCount` announces (and so per argument `collectArgs`
   * appends).
   */
  lemma {:induction false} PlaceholdersMatchArgs(c: Criterion, r: PropertyResolver)
    requires OwnMarksOnly(c, r)
    ensures Render(c, r).0.Pass?
    ensures CountChar(Render(c, r).1, '?') == ArgsCount(c)
    decreases c, 1
  {
    match c
    case Operator(_, p, _, n) => OperatorMarks(r.columnFor(p), p, n);
    case In(p, values, n) => InMarks(r.columnFor(p), |values|, n);
    case Composite(children) => PlaceholdersMatchArgsEach(children, r);
    case Constant(k, p) =>
      WordsCount([r.columnFor(p), k], '?');
      PairCount(r.columnFor(p), k);
      CountCharLacks(r.columnFor(p), '?');
      CountCharLacks(k, '?');
    case Id(id) => IdMarks(r.idColumn, id);
    case Sql(sql, _) =>
      CountCharAppend(" ", sql, '?');
  }

  lemma IdMarks(column: string, id: int)
    requires Lacks(column, '?')
    ensures CountChar(Words([column, "==", DecimalString(id)]), '?') == 0
  {
    var ws := [column, "==", DecimalString(id)];
    WordsCount(ws, '?');
    DigitsLackMark(id);
    SumCountOf(ws, [column, "=="], [DecimalString(id)]);
    PairCount(column, "==");
    CountCharLacks(column, '?');
    assert CountChar("==", '?') == 0 by { CountCharLacks("==", '?'); }
    assert [DecimalString(id)][..0] == [];
  }

  lemma OperatorMarks(column: string, p: string, n: bool)
    requires Lacks(column, '?') && Lacks(p, '?')
    ensures CountChar(Words(Subject(column, n)) + OperatorTail(p), '?') == 1
  {
    var ws := [column] + NotWords(n) + [p, PlaceHolder];
    assert Words(Subject(column, n)) + OperatorTail(p) == Words(ws) + CloseBracketText by {
      WordsAppend(Subject(column, n), [p, PlaceHolder]);
      AppendAssociates2(Words(Subject(column, n)), Words([p, PlaceHolder]), CloseBracketText);
    }
    WordsCount(ws, '?');
    SubjectCount(column, n);
    SumCountOf(ws, [column] + NotWords(n), [p, PlaceHolder]);
    PairCount(p, PlaceHolder);
    CountCharLacks(p, '?');
    assert CountChar(PlaceHolder, '?') == 1 by { assert PlaceHolder[..0] == []; }
    CountCharAppend(Words(ws), CloseBracketText, '?');
    CountCharLacks(CloseBracketText, '?');
  }

  lemma InMarks(column: string, k: nat, n: bool)
    requires Lacks(column, '?')
    ensures CountChar(Words(Subject(column, n)) + InTail(k), '?') == k
  {
    var ws := [column] + NotWords(n) + ["IN"];
    assert Words(Subject(column, n)) + InTail(k) == Words(ws) + PlaceholderList(k) by {
      WordsAppend(Subject(column, n), ["IN"]);
      AppendAssociates2(Words(Subject(column, n)), Words(["IN"]), PlaceholderList(k));
    }
    WordsCount(ws, '?');
    SubjectCount(column, n);
    SumCountOf(ws, [column] + NotWords(n), ["IN"]);
    assert SumCount(["IN"], '?') == 0 by {
      assert ["IN"][..0] == [];
      CountCharLacks("IN", '?');
    }
    PlaceholderListCount(k);
    CountCharAppend(Words(ws), PlaceholderList(k), '?');
  }

  lemma {:induction false} PlaceholdersMatchArgsEach(cs: seq<Criterion>, r: PropertyResolver)
    requires forall i :: 0 <= i < |cs| ==> OwnMarksOnly(cs[i], r)
    ensures RenderEach(cs, r).0.Pass?
    ensures CountChar(RenderEach(cs, r).1, '?') == CountEach(cs)
    decreases cs, 0
  {
    if cs != [] {
      PlaceholdersMatchArgs(cs[0], r);
      assert forall i :: 0 <= i < |cs[1..]| ==> cs[1..][i] == cs[i + 1];
      PlaceholdersMatchArgsEach(cs[1..], r);
      CountCharAppend(Render(cs[0], r).1, RenderEach(cs[1..], r).1, '?');
    }
  }

  /** A between criterion announces two arguments but renders no placeholder. */
  lemma BetweenRendersNoPlaceholder(p: string, s: string, e: string, n: bool, r: PropertyResolver)
    requires Lacks(r.columnFor(p), '?') && Lacks(s, '?') && Lacks(e, '?')
    ensures Render(Between(p, Some(s), Some(e), n), r).0.Pass?
    ensures CountChar(Render(Between(p, Some(s), Some(e), n), r).1, '?') == 0
    ensures ArgsCount(Between(p, Some(s), Some(e), n)) == 2
  {
    var subject := Subject(r.columnFor(p), n);
    var rest := ["BETWEEN", s, "AND", e];
    assert Render(Between(p, Some(s), Some(e), n), r).1 == Words(subject + rest) by {
      WordsSnoc(["BETWEEN", s, "AND"], e);
      assert ["BETWEEN", s, "AND"] + [e] == rest;
      WordsAppend(subject, rest);
      AppendAssociates2(Words(subject), Words(["BETWEEN", s, "AND"]), WordText(e));
    }
    WordsCount(subject + rest, '?');
    SubjectCount(r.columnFor(p), n);
    SumCountOf(subject + rest, subject, rest);
    SumCountOf(rest, ["BETWEEN", s], ["AND", e]);
    PairCount("BETWEEN", s);
    PairCount("AND", e);
    CountCharLacks(s, '?');
    CountCharLacks(e, '?');
    CountCharLacks("BETWEEN", '?');
    CountCharLacks("AND", '?');
  }

  // ---------------------------------------------------------------- counting helpers

  lemma {:induction false} WordsCount(ws: seq<string>, c: char)
    requires c != ' '
    ensures CountChar(Words(ws), c) == SumCount(ws, c)
    decreases |ws|
  {
    if ws != [] {
      var init, last := ws[..|ws| - 1], ws[|ws| - 1];
      WordsCount(init, c);
      CountCharAppend(Words(init), WordText(last), c);
      CountCharAppend(" ", last, c);
    }
  }

  lemma {:induction false} SumCountOf(ws: seq<string>, a: seq<string>, b: seq<string>)
    requires ws == a + b
    ensures SumCount(ws, '?') == SumCount(a, '?') + SumCount(b, '?')
    decreases |b|
  {
    if b == [] {
      assert ws == a;
    } else {
      assert ws[..|ws| - 1] == a + b[..|b| - 1];
      SumCountOf(ws[..|ws| - 1], a, b[..|b| - 1]);
    }
  }

  /** The resolved column and, when negated, `NOT` carry no `?` beyond the column's own. */
  lemma SubjectCount(column: string, n: bool)
    requires Lacks(column, '?')
    ensures SumCount([column] + NotWords(n), '?') == 0
  {
    NotWordsLack(n);
    SumCountOf([column] + NotWords(n), [column], NotWords(n));
    assert [column][..0] == [];
    CountCharLacks(column, '?');
  }

  /** Two words hold the `?` of both. */
  lemma PairCount(a: string, b: string)
    ensures SumCount([a, b], '?') == CountChar(a, '?') + CountChar(b, '?')
  {
    assert [a, b][..1] == [a];
    assert [a][..0] == [];
    assert SumCount([a], '?') == CountChar(a, '?');
    assert SumCount([a, b], '?') == SumCount([a], '?') + CountChar(b, '?');
  }

  lemma NotWordsLack(n: bool)
    ensures SumCount(NotWords(n), '?') == 0
  {
    if n {
      assert ["NOT"][..0] == [];
      CountCharLacks("NOT", '?');
    }
  }

  lemma DigitsLackMark(id: int)
    ensures CountChar(DecimalString(id), '?') == 0
  {
    var s := DecimalString(id);
    if id < 0 {
      assert s[1..] == NatDigits(-id);
    }
    CountCharLacks(s, '?');
  }

  /** `( ? ,? ... )` holds exactly `n` question marks. */
  lemma PlaceholderListCount(n: nat)
    ensures CountChar(PlaceholderList(n), '?') == n
  {
    var items := Marks(n);
    var middle := SeparatedText(items, ',');
    if n == 0 {
      assert middle == "";
    } else {
      forall i | 0 <= i < n ensures CountChar(items[i], '?') == 1 {
        assert items[i] == "?";
        assert "?"[..0] == [];
      }
      SumCountConst(items, '?', 1);
      JoinCount(items, [' ', ','], '?');
      assert CountChar([' ', ','], '?') == 0 by {
        assert [' ', ','][..1] == [' '];
        assert [' '][..0] == [];
      }
    }
    CountConcat3(OpenBracketText, middle, CloseBracketText, '?');
    CountCharLacks(OpenBracketText, '?');
    CountCharLacks(CloseBracketText, '?');
  }

  // ---------------------------------------------------------------- not()

  /** `not()` is idempotent and changes neither the arguments nor their count. */
  lemma NotIdempotent(c: Criterion, list: seq<string>)
    requires Negatable(c)
    ensures Not(Not(c)) == Not(c)
    ensures Args(Not(c), list) == Args(c, list) && ArgsCount(Not(c)) == ArgsCount(c)
  {
  }

  /** What a negatable criterion renders after its subject words, and whether it throws. */
  function Tail(c: Criterion): (Outcome, string)
    requires Negatable(c)
  {
    match c
    case Operator(_, p, _, _) => (Pass, OperatorTail(p))
    case Between(_, s, e, _) => BetweenTail(s, e)
    case In(_, values, _) => (Pass, InTail(|values|))
  }

  /** `not()` inserts `NOT` after the resolved column and changes nothing else in the text. */
  lemma NotRendersNot(c: Criterion, r: PropertyResolver)
    requires Negatable(c) && !c.negated
    ensures Render(c, r) == (Tail(c).0, " " + r.columnFor(c.property) + Tail(c).1)
    ensures Render(Not(c), r) == (Tail(c).0, " " + r.columnFor(c.property) + " NOT" + Tail(c).1)
  {
    SubjectText(r.columnFor(c.property), false);
    SubjectText(r.columnFor(c.property), true);
    assert " " + r.columnFor(c.property) + "" == " " + r.columnFor(c.property);
  }

  // ---------------------------------------------------------------- the append methods

  /** `collectArgs`, appending to the caller's list. */
  method CollectArgs(c: Criterion, argsList: seq<string>) returns (r: Outcome, list: seq<string>)
    ensures (r, list) == Args(c, argsList)
    decreases c, 1
  {
    list := argsList;
    match c {
      case Operator(o, p, v, _) =>
        if v.None? {
          return Fail(OrmError(NullOperatorMessage(o, p))), list;
        }
        list := list + [v.value];
      case Between(_, s, e, _) =>
        if s.None? || e.None? {
          return Fail(OrmError(MissingBetween)), list;
        }
        list := list + [s.value];
        list := list + [e.value];
        assert list == argsList + [s.value, e.value];
      case In(_, values, _) =>
        r, list := CollectIn(values, list);
        return;
      case Composite(children) =>
        r, list := CollectEach(children, list);
        return;
      case Constant(_, _) =>
      case Id(_) =>
      case Sql(_, args) =>
        list := list + args;
    }
    r := Pass;
  }

  /** The loop of `InCriterion.collectArgs`. */
  method CollectIn(values: seq<Option<string>>, argsList: seq<string>) returns (r: Outcome, list: seq<string>)
    ensures (r, list) == ArgsIn(values, argsList)
  {
    list := argsList;
    var i := 0;
    while i < |values|
      invariant 0 <= i <= |values|
      invariant ArgsIn(values, argsList) == ArgsIn(values[i..], list)
    {
      assert values[i..][1..] == values[i + 1..];
      if values[i].None? {
        return Fail(NullPointer), list;
      }
      list := list + [values[i].value];
      i := i + 1;
    }
    r := Pass;
  }

  /** The loop of `CompositeCriterion.collectArgs`. */
  method CollectEach(cs: seq<Criterion>, argsList: seq<string>) returns (r: Outcome, list: seq<string>)
    ensures (r, list) == ArgsEach(cs, argsList)
    decreases cs, 0
  {
    list := argsList;
    var i := 0;
    while i < |cs|
      invariant 0 <= i <= |cs|
      invariant ArgsEach(cs, argsList) == ArgsEach(cs[i..], list)
    {
      assert cs[i..][1..] == cs[i + 1..];
      var o;
      o, list := CollectArgs(cs[i], list);
      if o.Fail? {
        return o, list;
      }
      i := i + 1;
    }
    r := Pass;
  }

  /** `getArgsCount`. */
  method GetArgsCount(c: Criterion) returns (n: nat)
    ensures n == ArgsCount(c)
    decreases c, 1
  {
    match c {
      case Operator(_, _, _, _) => n := 1;
      case Between(_, _, _, _) => n := 2;
      case In(_, values, _) => n := |values|;
      case Composite(children) => n := CountChildren(children);
      case Constant(_, _) => n := 0;
      case Id(_) => n := 0;
      case Sql(_, args) => n := |args|;
    }
  }

  /** The loop of `CompositeCriterion.getArgsCount`. */
  method CountChildren(cs: seq<Criterion>) returns (count: nat)
    ensures count == CountEach(cs)
    decreases cs, 0
  {
    count := 0;
    var i := 0;
    while i < |cs|
      invariant 0 <= i <= |cs|
      invariant count + CountEach(cs[i..]) == CountEach(cs)
    {
      assert cs[i..][1..] == cs[i + 1..];
      var k := GetArgsCount(cs[i]);
      count := count + k;
      i := i + 1;
    }
  }

  /** `toSql`, appending to the statement builder. */
  method ToSql(c: Criterion, builder: Builder.StatementBuilder, resolver: PropertyResolver) returns (r: Outcome)
    modifies builder
    ensures r == Render(c, resolver).0
    ensures builder.buffer == old(builder.buffer) + Render(c, resolver).1
    decreases c, 1
  {
    match c {
      case Operator(_, p, _, n) =>
        OperatorToSql(builder, resolver.columnFor(p), p, n);
        r := Pass;
      case Between(p, s, e, n) =>
        r := BetweenToSql(builder, resolver.columnFor(p), s, e, n);
      case In(p, values, n) =>
        InToSql(builder, resolver.columnFor(p), |values|, n);
        r := Pass;
      case Composite(children) =>
        r := ToSqlEach(children, builder, resolver);
      case Constant(k, p) =>
        AppendWords(builder, [resolver.columnFor(p), k]);
        r := Pass;
      case Id(id) =>
        AppendWords(builder, [resolver.idColumn, "==", DecimalString(id)]);
        r := Pass;
      case Sql(sql, _) =>
        builder.AppendWord(sql);
        r := Pass;
    }
  }

  /** Words appended after a subject read as the subject's words, then theirs. */
  lemma WordsAfterSubject(start: string, subject: seq<string>, rest: seq<string>)
    ensures start + Words(subject + rest) == start + Words(subject) + Words(rest)
  {
    WordsAppend(subject, rest);
    AppendAssociates2(start, Words(subject), Words(rest));
  }

  /** `OperatorCriterion.toSql`. */
  method OperatorToSql(builder: Builder.StatementBuilder, column: string, property: string, n: bool)
    modifies builder
    ensures builder.buffer == old(builder.buffer) + (Words(Subject(column, n)) + OperatorTail(property))
  {
    AppendHead(builder, column, n, [property, PlaceHolder]);
    builder.CloseBracket();
    WordsAfterSubject(old(builder.buffer), Subject(column, n), [property, PlaceHolder]);
    AppendAssociates(old(builder.buffer), Words(Subject(column, n)), Words([property, PlaceHolder]), CloseBracketText);
  }

  /** `InCriterion.toSql`: the placeholders are an array filled with `?`. */
  method InToSql(builder: Builder.StatementBuilder, column: string, k: nat, n: bool)
    modifies builder
    ensures builder.buffer == old(builder.buffer) + (Words(Subject(column, n)) + InTail(k))
  {
    AppendHead(builder, column, n, ["IN"]);
    var strings := new string[k](_ => PlaceHolder);
    assert strings[..] == Marks(k);
    ghost var head := builder.buffer;
    builder.OpenBracket();
    builder.AppendWithSeparator(strings[..], ',');
    builder.CloseBracket();
    AppendAssociates(head, OpenBracketText, SeparatedText(Marks(k), ','), CloseBracketText);
    WordsAfterSubject(old(builder.buffer), Subject(column, n), ["IN"]);
    AppendAssociates(old(builder.buffer), Words(Subject(column, n)), Words(["IN"]), PlaceholderList(k));
  }

  /** The words before a criterion's tail: the resolved column, `NOT` when negated, then `more`. */
  method AppendHead(builder: Builder.StatementBuilder, column: string, negated: bool, more: seq<string>)
    modifies builder
    ensures builder.buffer == old(builder.buffer) + Words(Subject(column, negated) + more)
  {
    ghost var ws: seq<string> := [];
    builder.AppendWord(column);
    WordsStep(old(builder.buffer), ws, column);
    ws := ws + [column];
    if negated {
      builder.AppendWord("NOT");
      WordsStep(old(builder.buffer), ws, "NOT");
      ws := ws + ["NOT"];
    }
    assert ws == Subject(column, negated);
    var i := 0;
    while i < |more|
      invariant 0 <= i <= |more|
      invariant builder.buffer == old(builder.buffer) + Words(ws + more[..i])
    {
      builder.AppendWord(more[i]);
      WordsStep(old(builder.buffer), ws + more[..i], more[i]);
      assert ws + more[..i] + [more[i]] == ws + more[..i + 1];
      i := i + 1;
    }
    assert more[..i] == more;
  }

  /** Each word in turn. */
  method AppendWords(builder: Builder.StatementBuilder, ws: seq<string>)
    modifies builder
    ensures builder.buffer == old(builder.buffer) + Words(ws)
  {
    var i := 0;
    while i < |ws|
      invariant 0 <= i <= |ws|
      invariant builder.buffer == old(builder.buffer) + Words(ws[..i])
    {
      builder.AppendWord(ws[i]);
      WordsStep(old(builder.buffer), ws[..i], ws[i]);
      assert ws[..i] + [ws[i]] == ws[..i + 1];
      i := i + 1;
    }
    assert ws[..i] == ws;
  }

  /** `BetweenCriterion.toSql`: `toString` of a null bound throws once the words before it are appended. */
  method BetweenToSql(builder: Builder.StatementBuilder, column: string, s: Option<string>, e: Option<string>, n: bool)
    returns (r: Outcome)
    modifies builder
    ensures r == BetweenTail(s, e).0
    ensures builder.buffer == old(builder.buffer) + (Words(Subject(column, n)) + BetweenTail(s, e).1)
  {
    ghost var subject := Subject(column, n);
    AppendHead(builder, column, n, ["BETWEEN"]);
    if s.None? {
      WordsAfterSubject(old(builder.buffer), subject, ["BETWEEN"]);
      AppendAssociates2(old(builder.buffer), Words(subject), Words(["BETWEEN"]));
      return Fail(NullPointer);
    }
    ghost var ws := subject + ["BETWEEN"];
    builder.AppendWord(s.value);
    WordsStep(old(builder.buffer), ws, s.value);
    builder.AppendWord("AND");
    WordsStep(old(builder.buffer), ws + [s.value], "AND");
    ghost var middle := ["BETWEEN", s.value, "AND"];
    assert ws + [s.value] + ["AND"] == subject + middle;
    WordsAfterSubject(old(builder.buffer), subject, middle);
    if e.None? {
      AppendAssociates2(old(builder.buffer), Words(subject), Words(middle));
      return Fail(NullPointer);
    }
    builder.AppendWord(e.value);
    AppendAssociates(old(builder.buffer), Words(subject), Words(middle), WordText(e.value));
    AppendAssociates2(Words(subject), Words(middle), WordText(e.value));
    r := Pass;
  }

  /** The loop of `CompositeCriterion.toSql`. */
  method ToSqlEach(cs: seq<Criterion>, builder: Builder.StatementBuilder, resolver: PropertyResolver) returns (r: Outcome)
    modifies builder
    ensures r == RenderEach(cs, resolver).0
    ensures builder.buffer == old(builder.buffer) + RenderEach(cs, resolver).1
    decreases cs, 0
  {
    var i := 0;
    while i < |cs|
      invariant 0 <= i <= |cs|
      invariant RenderEach(cs, resolver).0 == RenderEach(cs[i..], resolver).0
      invariant old(builder.buffer) + RenderEach(cs, resolver).1 == builder.buffer + RenderEach(cs[i..], resolver).1
    {
      assert cs[i..][1..] == cs[i + 1..];
      ghost var before := builder.buffer;
      var o := ToSql(cs[i], builder, resolver);
      if o.Fail? {
        assert builder.buffer + "" == builder.buffer;
        return o;
      }
      AppendAssociates2(before, Render(cs[i], resolver).1, RenderEach(cs[i + 1..], resolver).1);
      i := i + 1;
    }
    assert builder.buffer + "" == builder.buffer;
    r := Pass;
  }

  // ---------------------------------------------------------------- CompositeCriterion

  class CompositeCriterion {
    var children: seq<Criterion>

    constructor ()
      ensures children == []
    {
      children := [];
    }

    function Value(): Criterion
      reads this
    {
      Composite(children)
    }

    /** `add`: the criterion goes to the end of the child list. */
    method Add(criterion: Criterion)
      modifies this
      ensures children == old(children) + [criterion]
    {
      children := children + [criterion];
    }

    method CollectArgs(argsList: seq<string>) returns (r: Outcome, list: seq<string>)
      ensures (r, list) == Args(Value(), argsList)
    {
      r, list := CollectEach(children, argsList);
    }

    method ToSql(builder: Builder.StatementBuilder, resolver: PropertyResolver) returns (r: Outcome)
      modifies builder
      ensures r == Render(Value(), resolver).0
      ensures builder.buffer == old(builder.buffer) + Render(Value(), resolver).1
    {
      r := ToSqlEach(children, builder, resolver);
    }

    method GetArgsCount() returns (n: nat)
      ensures n == ArgsCount(Value())
    {
      n := CountChildren(children);
    }
  }

  /** Adding a criterion adds its count, its arguments after the others', and its text after the others'. */
  lemma AddAppends(cs: seq<Criterion>, c: Criterion, list: seq<string>, r: PropertyResolver)
    ensures ArgsCount(Composite(cs + [c])) == ArgsCount(Composite(cs)) + ArgsCount(c)
    ensures Args(Composite(cs + [c]), list) ==
            (if Args(Composite(cs), list).0.Fail? then Args(Composite(cs), list) else Args(c, Args(Composite(cs), list).1))
    ensures RenderEach(cs, r).0.Pass? ==>
              Render(Composite(cs + [c]), r) == (Render(c, r).0, Render(Composite(cs), r).1 + Render(c, r).1)
  {
    CountEachSplit(cs, [c]);
    ArgsEachSplit(cs, [c], list);
    RenderEachSplit(cs, [c], r);
    assert [c][1..] == [];
    assert Render(c, r).1 + "" == Render(c, r).1;
  }
}
