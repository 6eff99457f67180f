/**
 * The entity annotation processor (processor/EntityProcessor.java).
 *
 * For each class annotated as an entity, `process` checks that the class can
 * be mapped, resolves its table name, lets the property processor map every
 * field, adds what the class-level `@Table` declares (checks, indexes,
 * triggers, then uniques), builds the type definition and hands it to the
 * type writer. A MappingException ends the work on that entity only: it is
 * reported and the next entity is processed; only entities that succeed are
 * recorded. Any other exception escapes the whole round.
 *
 * The javax element API is replaced by the `TypeElement` record: its flags
 * say what `validateClassElement` asks of the element.
 */
module EntityProcessor {
  import opened Outcomes
  import opened SchemaKinds
  import opened DefinitionUtils
  import opened Definitions
  import CB = ConstraintBuilder
  import IB = IndexBuilder
  import TrB = TriggerBuilder
  import TB = TypeBuilder
  import PP = PropertyProcessor
  import PU = ProcessorUtils
  import opened Text
  import opened StatementText

  // ---------------------------------------------------------------- inputs

  /** annotation/Trigger.java. */
  datatype TriggerAnnotation = TriggerAnnotation(
    name: string, temp: bool, triggerType: TriggerType, forEach: bool, when: string, statements: seq<string>)

  /** annotation/Table.java; its four arrays have no default and are never null. */
  datatype TableAnnotation = TableAnnotation(
    temp: bool, uniques: seq<PP.UniqueAnnotation>, checks: seq<PP.CheckAnnotation>,
    indexes: seq<PP.IndexAnnotation>, triggers: seq<TriggerAnnotation>)

  /**
   * An entity class: its names, what `validateClassElement` inspects, the
   * name its entity annotation declares, its fields and its `@Table`.
   */
  datatype TypeElement = TypeElement(
    qualifiedName: string, simpleName: string, packageName: string,
    isClass: bool, isPrivate: bool, isNested: bool, hasNoArgConstructor: bool,
    modelName: string, fields: seq<PP.FieldElement>, table: Option<TableAnnotation>)

  const NotAClass: string := "The @Entity annotation can only be applied to classes"
  const PrivateClass: string := "The @Entity annotation class cannot be private "
  const NestedClass: string := "The @Entity annotation class does not support nested classes"
  const NoArgConstructor: string := "The @Entity annotated class must provide a no arg constructor"

  // ---------------------------------------------------------------- validateClassElement

  /**
   * `validateClassElement`: only a class that is not private, not nested and
   * has a no-arg constructor passes; the checks run in that order and the
   * message of the first that fails ends with the class's simple name.
   */
  function ValidateClass(e: TypeElement): (r: Outcome)
    ensures r.Pass? <==> e.isClass && !e.isPrivate && !e.isNested && e.hasNoArgConstructor
    ensures !e.isClass ==> r == Fail(MappingError(NotAClass + e.simpleName))
    ensures e.isClass && e.isPrivate ==> r == Fail(MappingError(PrivateClass + e.simpleName))
    ensures e.isClass && !e.isPrivate && e.isNested ==> r == Fail(MappingError(NestedClass + e.simpleName))
    ensures e.isClass && !e.isPrivate && !e.isNested && !e.hasNoArgConstructor ==>
              r == Fail(MappingError(NoArgConstructor + e.simpleName))
  {
    if !e.isClass then Fail(MappingError(NotAClass + e.simpleName))
    else if e.isPrivate then Fail(MappingError(PrivateClass + e.simpleName))
    else if e.isNested then Fail(MappingError(NestedClass + e.simpleName))
    else if !e.hasNoArgConstructor then Fail(MappingError(NoArgConstructor + e.simpleName))
    else Pass
  }

  // ---------------------------------------------------------------- what @Table asks the builders for

  /** The table constraint `processChecksConstraints` builds for a `@Check`. */
  function CheckSpec(check: PP.CheckAnnotation): CB.ConstraintSpec {
    CB.InitialSpec(false).(kind := Some(CHECK), name := Some(check.name), exp := Some(check.exp))
  }

  /**
   * The table constraint `processUniqueConstraints` builds, as written: the
   * annotation's columns name the constraint but are never set on it.
   */
  function UniqueSpecAsWritten(unique: PP.UniqueAnnotation): CB.ConstraintSpec {
    CB.InitialSpec(false).(kind := Some(UNIQUE), name := Some(PU.ResolvedName(unique.name, unique.columns)),
                           conflictClause := Some(unique.onConflict))
  }

  /** The table constraint `processUniqueConstraints` is meant to build: over the annotation's columns. */
  function UniqueSpec(unique: PP.UniqueAnnotation): CB.ConstraintSpec {
    UniqueSpecAsWritten(unique).(columnNames := Some(unique.columns))
  }

  /** The index `processIndexes` builds: the name is resolved against no column at all. */
  function IndexSpecOf(tableName: string, index: PP.IndexAnnotation): IB.IndexSpec {
    IB.IndexSpec(Some(PU.ResolvedName(index.name, [])), Some(tableName), index.unique, Some(index.columns),
                 Some(index.where))
  }

  /** The trigger `processTriggers` builds: the annotation's values, copied one for one. */
  function TriggerSpecOf(tableName: string, trigger: TriggerAnnotation): TrB.TriggerSpec {
    TrB.TriggerSpec(Some(trigger.name), Some(tableName), trigger.temp, Some(trigger.triggerType), trigger.forEach,
                    Some(trigger.when), Some(trigger.statements))
  }

  // ---------------------------------------------------------------- what each annotation builds

  const ConstraintNameEmpty: string := "Constraint's  name is empty"

  /**
   * As written, no table UNIQUE can be built: an unnamed one without columns
   * has no name, and every other one has no columns. The step throws and
   * leaves the table as it was.
   */
  lemma UniqueAsWrittenFails(table: TB.TypeSpec, unique: PP.UniqueAnnotation, identity: ConstraintDefinition -> string)
    ensures ConstraintStep(table, CB.BuildConstraint(UniqueSpecAsWritten(unique)), identity) ==
              PP.Effect(Fail(MappingError(if unique.name == "" && unique.columns == [] then ConstraintNameEmpty
                                          else "Unique columns cannot be null")), table)
  {
    PU.ResolvedNameCases(unique.name, unique.columns);
    var s := UniqueSpecAsWritten(unique);
    assert CB.ValidateKind(s) == Fail(MappingError("Unique columns cannot be null"));
  }

  /**
   * With its columns set, a table UNIQUE builds exactly when it has a name,
   * its own or the one made from its columns, and renders
   * `CONSTRAINT UNI_<NAME> UNIQUE ( c1 ,c2 ) <conflict>`.
   */
  lemma UniqueBuilds(unique: PP.UniqueAnnotation)
    ensures CB.BuildConstraint(UniqueSpec(unique)).Success? <==> unique.name != "" || unique.columns != []
    ensures unique.name == "" && unique.columns == [] ==>
              CB.BuildConstraint(UniqueSpec(unique)) == Failure(MappingError(ConstraintNameEmpty))
    ensures var r := CB.BuildConstraint(UniqueSpec(unique));
            var name := PU.ResolvedName(unique.name, unique.columns);
            r.Success? ==> && r.value.kind == UNIQUE && r.value.name == Some(name)
                           && r.value.statement == "CONSTRAINT " + ("UNI_" + Upper(name)) + " " + "UNIQUE" + " ( " +
                                                   SeparatedText(unique.columns, ',') + " ) " + ConflictSql(unique.onConflict)
  {
    PU.ResolvedNameCases(unique.name, unique.columns);
    var s := UniqueSpec(unique);
    if CB.Complete(s) {
      CB.TableKeyStatement(s);
    }
  }

  /**
   * A table CHECK builds exactly when both its name and its expression are
   * given, and renders `CONSTRAINT CHK_<NAME> CHECK (<exp>)`.
   */
  lemma CheckBuilds(check: PP.CheckAnnotation)
    ensures CB.BuildConstraint(CheckSpec(check)).Success? <==> check.name != "" && check.exp != ""
    ensures check.name == "" ==> CB.BuildConstraint(CheckSpec(check)) == Failure(MappingError(ConstraintNameEmpty))
    ensures check.name != "" && check.exp == "" ==>
              CB.BuildConstraint(CheckSpec(check)) == Failure(MappingError("Check expression cannot be empty"))
    ensures var r := CB.BuildConstraint(CheckSpec(check));
            r.Success? ==> && r.value.kind == CHECK && r.value.name == Some(check.name)
                           && r.value.statement == "CONSTRAINT " + ("CHK_" + Upper(check.name)) + " " + "CHECK (" + check.exp + ")"
  {
    var s := CheckSpec(check);
    if CB.Complete(s) {
      CB.CheckStatement(s);
    }
  }

  /**
   * A table index is named only by its annotation (no column is passed to
   * `resolveIndexName`), so an unnamed one throws. A built one keeps the
   * annotation's name and the table's, and always ends in `WHERE <name>`.
   */
  lemma IndexBuilds(tableName: string, index: PP.IndexAnnotation)
    ensures IB.BuildIndex(IndexSpecOf(tableName, index)).Success? <==> index.name != "" && tableName != ""
    ensures index.name == "" ==> IB.BuildIndex(IndexSpecOf(tableName, index)) == Failure(MappingError(IB.NameEmpty))
    ensures index.name != "" && tableName == "" ==>
              IB.BuildIndex(IndexSpecOf(tableName, index)) == Failure(MappingError(IB.TableEmpty))
    ensures var s := IndexSpecOf(tableName, index);
            var r := IB.BuildIndex(s);
            r.Success? ==> && r.value.name == index.name && r.value.tableName == tableName
                           && r.value.statement == Join(IB.HeadWords(s), " ") + (" ( " + SeparatedText(index.columns, ',') + " )") +
                                                   " WHERE" + TrimEnd(" " + index.name)
                           && (IB.HeadWords(s)[1] == "UNIQUE" <==> index.unique)
  {
    PU.ResolvedNameCases(index.name, []);
    IB.IndexStatement(IndexSpecOf(tableName, index));
  }

  /**
   * A table trigger builds exactly when it and its table are named; a built
   * one keeps both names and always carries a `WHERE (<when>)` condition.
   */
  lemma TriggerBuilds(tableName: string, trigger: TriggerAnnotation)
    ensures TrB.BuildTrigger(TriggerSpecOf(tableName, trigger)).Success? <==> trigger.name != "" && tableName != ""
    ensures trigger.name == "" ==> TrB.BuildTrigger(TriggerSpecOf(tableName, trigger)) == Failure(MappingError(TrB.NameEmpty))
    ensures trigger.name != "" && tableName == "" ==>
              TrB.BuildTrigger(TriggerSpecOf(tableName, trigger)) == Failure(MappingError(TrB.TableEmpty))
    ensures var s := TriggerSpecOf(tableName, trigger);
            var r := TrB.BuildTrigger(s);
            r.Success? ==> && r.value.name == trigger.name && r.value.tableName == tableName
                           && r.value.statement == Join(TrB.HeadWords(s), " ") + (" WHERE (" + trigger.when + ") ") +
                                                   " BEGIN" + SeparatedText(trigger.statements, ';') + " END"
  {
    TrB.TriggerStatement(TriggerSpecOf(tableName, trigger));
  }

  // ---------------------------------------------------------------- the table builder, step by step

  /** `tableBuilder.addConstraint(built)`, `identity` standing for the constraint's `toString`. */
  function ConstraintStep(table: TB.TypeSpec, built: Result<ConstraintDefinition>,
                          identity: ConstraintDefinition -> string): PP.Effect {
    if built.Failure? then PP.Effect(Fail(built.error), table)
    else
      var added := AddOrThrowIfExist(table.constraints, built.value, ConstraintEquals, TB.ConstraintExists(identity(built.value)));
      if added.Failure? then PP.Effect(Fail(added.error), table) else PP.Effect(Pass, table.(constraints := added.value))
  }

  /** `tableBuilder.addIndex(built)`. */
  function IndexStep(table: TB.TypeSpec, built: Result<IndexDefinition>): PP.Effect {
    if built.Failure? then PP.Effect(Fail(built.error), table)
    else
      var added := AddOrThrowIfExist(table.indexes, built.value, IndexEquals, TB.IndexExists(built.value));
      if added.Failure? then PP.Effect(Fail(added.error), table) else PP.Effect(Pass, table.(indexes := added.value))
  }

  /** `tableBuilder.addTrigger(built)`. */
  function TriggerStep(table: TB.TypeSpec, built: Result<TriggerDefinition>): PP.Effect {
    if built.Failure? then PP.Effect(Fail(built.error), table)
    else
      var added := AddOrThrowIfExist(table.triggers, built.value, TriggerEquals, TB.TriggerExists(built.value));
      if added.Failure? then PP.Effect(Fail(added.error), table) else PP.Effect(Pass, table.(triggers := added.value))
  }

  /** `processChecksConstraints`: one constraint per `@Check`, in order; the first exception ends the loop. */
  function AddChecks(table: TB.TypeSpec, checks: seq<PP.CheckAnnotation>, identity: ConstraintDefinition -> string): PP.Effect
    decreases |checks|
  {
    if checks == [] then PP.Effect(Pass, table)
    else
      var step := ConstraintStep(table, CB.BuildConstraint(CheckSpec(checks[0])), identity);
      if step.outcome.Fail? then step else AddChecks(step.table, checks[1..], identity)
  }

  /** `processUniqueConstraints`. */
  function AddUniques(table: TB.TypeSpec, uniques: seq<PP.UniqueAnnotation>, identity: ConstraintDefinition -> string): PP.Effect
    decreases |uniques|
  {
    if uniques == [] then PP.Effect(Pass, table)
    else
      var step := ConstraintStep(table, CB.BuildConstraint(UniqueSpec(uniques[0])), identity);
      if step.outcome.Fail? then step else AddUniques(step.table, uniques[1..], identity)
  }

  /** `processUniqueConstraints` as written: the columns are never passed to the constraint builder. */
  function AddUniquesAsWritten(table: TB.TypeSpec, uniques: seq<PP.UniqueAnnotation>, identity: ConstraintDefinition -> string): PP.Effect
    decreases |uniques|
  {
    if uniques == [] then PP.Effect(Pass, table)
    else
      var step := ConstraintStep(table, CB.BuildConstraint(UniqueSpecAsWritten(uniques[0])), identity);
      if step.outcome.Fail? then step else AddUniquesAsWritten(step.table, uniques[1..], identity)
  }

  /** As written, any `@Unique` fails the entity at the first one, and no constraint reaches the table. */
  lemma AddUniquesAsWrittenFails(table: TB.TypeSpec, uniques: seq<PP.UniqueAnnotation>, identity: ConstraintDefinition -> string)
    ensures AddUniquesAsWritten(table, uniques, identity).table == table
    ensures AddUniquesAsWritten(table, uniques, identity).outcome.Pass? <==> uniques == []
    ensures uniques != [] ==>
              AddUniquesAsWritten(table, uniques, identity).outcome ==
                Fail(MappingError(if uniques[0].name == "" && uniques[0].columns == [] then ConstraintNameEmpty
                                  else "Unique columns cannot be null"))
  {
    if uniques != [] {
      UniqueAsWrittenFails(table, uniques[0], identity);
    }
  }

  /** `processIndexes`. */
  function AddIndexes(table: TB.TypeSpec, tableName: string, indexes: seq<PP.IndexAnnotation>): PP.Effect
    decreases |indexes|
  {
    if indexes == [] then PP.Effect(Pass, table)
    else
      var step := IndexStep(table, IB.BuildIndex(IndexSpecOf(tableName, indexes[0])));
      if step.outcome.Fail? then step else AddIndexes(step.table, tableName, indexes[1..])
  }

  /** `processTriggers`. */
  function AddTriggers(table: TB.TypeSpec, tableName: string, triggers: seq<TriggerAnnotation>): PP.Effect
    decreases |triggers|
  {
    if triggers == [] then PP.Effect(Pass, table)
    else
      var step := TriggerStep(table, TrB.BuildTrigger(TriggerSpecOf(tableName, triggers[0])));
      if step.outcome.Fail? then step else AddTriggers(step.table, tableName, triggers[1..])
  }

  // ---------------------------------------------------------------- what the @Table loops add

  /** A constraint step appends the built constraint when it passes and changes nothing when it throws. */
  lemma ConstraintStepShape(table: TB.TypeSpec, built: Result<ConstraintDefinition>, identity: ConstraintDefinition -> string)
    ensures var step := ConstraintStep(table, built, identity);
            && (step.outcome.Pass? ==> built.Success? && step.table == table.(constraints := table.constraints + [built.value]))
            && (step.outcome.Fail? ==> step.table == table)
  {
  }

  /** An index step likewise. */
  lemma IndexStepShape(table: TB.TypeSpec, built: Result<IndexDefinition>)
    ensures var step := IndexStep(table, built);
            && (step.outcome.Pass? ==> built.Success? && step.table == table.(indexes := table.indexes + [built.value]))
            && (step.outcome.Fail? ==> step.table == table)
  {
  }

  /** A trigger step likewise. */
  lemma TriggerStepShape(table: TB.TypeSpec, built: Result<TriggerDefinition>)
    ensures var step := TriggerStep(table, built);
            && (step.outcome.Pass? ==> built.Success? && step.table == table.(triggers := table.triggers + [built.value]))
            && (step.outcome.Fail? ==> step.table == table)
  {
  }

  /**
   * What a loop of the table processor leaves, seen from the field `after`
   * it grows: the `before` elements are kept in front, at most one element
   * per annotation follows, the `j`-th new one answers annotation `j`
   * (`Answers`), and there is one per annotation when the loop passes.
   */
  ghost predicate AppendedEach<A, E>(before: seq<E>, annotations: seq<A>, outcome: Outcome, after: seq<E>, answers: (E, A) -> bool) {
    var n := |before|;
    && n <= |after| <= n + |annotations|
    && after[..n] == before
    && (forall j :: n <= j < |after| ==> answers(after[j], annotations[j - n]))
    && (outcome.Pass? ==> |after| == n + |annotations|)
  }

  /** One element answering the first annotation, then what answers the rest. */
  lemma AppendedEachStep<A, E>(before: seq<E>, annotations: seq<A>, x: E, outcome: Outcome, after: seq<E>, answers: (E, A) -> bool)
    requires annotations != [] && answers(x, annotations[0])
    requires AppendedEach(before + [x], annotations[1..], outcome, after, answers)
    ensures AppendedEach(before, annotations, outcome, after, answers)
  {
    var n := |before|;
    assert after[..n + 1][..n] == after[..n];
    forall j | n <= j < |after|
      ensures answers(after[j], annotations[j - n])
    {
      if j == n {
        assert after[j] == (before + [x])[n];
      } else {
        assert annotations[j - n] == annotations[1..][j - (n + 1)];
      }
    }
  }

  /** A failed step appends nothing. */
  lemma AppendedNone<A, E>(before: seq<E>, annotations: seq<A>, outcome: Outcome, answers: (E, A) -> bool)
    requires outcome.Fail? || annotations == []
    ensures AppendedEach(before, annotations, outcome, before, answers)
  {
    assert before[..|before|] == before;
  }

  predicate IsCheckFor(c: ConstraintDefinition, check: PP.CheckAnnotation) {
    c.kind == CHECK && c.name == Some(check.name)
  }

  predicate IsUniqueFor(c: ConstraintDefinition, unique: PP.UniqueAnnotation) {
    c.kind == UNIQUE && c.name == Some(PU.ResolvedName(unique.name, unique.columns))
  }

  predicate IsIndexFor(tableName: string, i: IndexDefinition, index: PP.IndexAnnotation) {
    i.name == index.name && i.tableName == tableName
  }

  predicate IsTriggerFor(tableName: string, t: TriggerDefinition, trigger: TriggerAnnotation) {
    t.name == trigger.name && t.tableName == tableName
  }

  /**
   * `processChecksConstraints` changes only the constraints: it appends one
   * CHECK per annotation, named by it and in its order, and all of them
   * unless one throws.
   */
  lemma {:induction false} AddChecksAppends(table: TB.TypeSpec, checks: seq<PP.CheckAnnotation>, identity: ConstraintDefinition -> string)
    ensures var r := AddChecks(table, checks, identity);
            && r.table == table.(constraints := r.table.constraints)
            && AppendedEach(table.constraints, checks, r.outcome, r.table.constraints, IsCheckFor)
    decreases |checks|
  {
    var r := AddChecks(table, checks, identity);
    if checks == [] {
      AppendedNone(table.constraints, checks, r.outcome, IsCheckFor);
    } else {
      var built := CB.BuildConstraint(CheckSpec(checks[0]));
      var step := ConstraintStep(table, built, identity);
      ConstraintStepShape(table, built, identity);
      if step.outcome.Fail? {
        assert r == step;
        AppendedNone(table.constraints, checks, r.outcome, IsCheckFor);
      } else {
        assert r == AddChecks(step.table, checks[1..], identity);
        AddChecksAppends(step.table, checks[1..], identity);
        AppendedEachStep(table.constraints, checks, built.value, r.outcome, r.table.constraints, IsCheckFor);
      }
    }
  }

  /** `processUniqueConstraints` likewise, with UNIQUE constraints named by `resolveUniqueName`. */
  lemma {:induction false} AddUniquesAppends(table: TB.TypeSpec, uniques: seq<PP.UniqueAnnotation>, identity: ConstraintDefinition -> string)
    ensures var r := AddUniques(table, uniques, identity);
            && r.table == table.(constraints := r.table.constraints)
            && AppendedEach(table.constraints, uniques, r.outcome, r.table.constraints, IsUniqueFor)
    decreases |uniques|
  {
    var r := AddUniques(table, uniques, identity);
    if uniques == [] {
      AppendedNone(table.constraints, uniques, r.outcome, IsUniqueFor);
    } else {
      var built := CB.BuildConstraint(UniqueSpec(uniques[0]));
      var step := ConstraintStep(table, built, identity);
      ConstraintStepShape(table, built, identity);
      if step.outcome.Fail? {
        assert r == step;
        AppendedNone(table.constraints, uniques, r.outcome, IsUniqueFor);
      } else {
        assert r == AddUniques(step.table, uniques[1..], identity);
        AddUniquesAppends(step.table, uniques[1..], identity);
        AppendedEachStep(table.constraints, uniques, built.value, r.outcome, r.table.constraints, IsUniqueFor);
      }
    }
  }

  /** `processIndexes` changes only the indexes: one per annotation, under its name and the table's. */
  lemma {:induction false} AddIndexesAppends(table: TB.TypeSpec, tableName: string, indexes: seq<PP.IndexAnnotation>)
    ensures var r := AddIndexes(table, tableName, indexes);
            && r.table == table.(indexes := r.table.indexes)
            && AppendedEach(table.indexes, indexes, r.outcome, r.table.indexes, (i, a) => IsIndexFor(tableName, i, a))
    decreases |indexes|
  {
    var r := AddIndexes(table, tableName, indexes);
    var answers := (i, a) => IsIndexFor(tableName, i, a);
    if indexes == [] {
      AppendedNone(table.indexes, indexes, r.outcome, answers);
    } else {
      var built := IB.BuildIndex(IndexSpecOf(tableName, indexes[0]));
      var step := IndexStep(table, built);
      IndexStepShape(table, built);
      if step.outcome.Fail? {
        assert r == step;
        AppendedNone(table.indexes, indexes, r.outcome, answers);
      } else {
        IndexBuilds(tableName, indexes[0]);
        assert r == AddIndexes(step.table, tableName, indexes[1..]);
        AddIndexesAppends(step.table, tableName, indexes[1..]);
        AppendedEachStep(table.indexes, indexes, built.value, r.outcome, r.table.indexes, answers);
      }
    }
  }

  /** `processTriggers` changes only the triggers: one per annotation, under its name and the table's. */
  lemma {:induction false} AddTriggersAppends(table: TB.TypeSpec, tableName: string, triggers: seq<TriggerAnnotation>)
    ensures var r := AddTriggers(table, tableName, triggers);
            && r.table == table.(triggers := r.table.triggers)
            && AppendedEach(table.triggers, triggers, r.outcome, r.table.triggers, (t, a) => IsTriggerFor(tableName, t, a))
    decreases |triggers|
  {
    var r := AddTriggers(table, tableName, triggers);
    var answers := (t, a) => IsTriggerFor(tableName, t, a);
    if triggers == [] {
      AppendedNone(table.triggers, triggers, r.outcome, answers);
    } else {
      var built := TrB.BuildTrigger(TriggerSpecOf(tableName, triggers[0]));
      var step := TriggerStep(table, built);
      TriggerStepShape(table, built);
      if step.outcome.Fail? {
        assert r == step;
        AppendedNone(table.triggers, triggers, r.outcome, answers);
      } else {
        assert r == AddTriggers(step.table, tableName, triggers[1..]);
        AddTriggersAppends(step.table, tableName, triggers[1..]);
        AppendedEachStep(table.triggers, triggers, built.value, r.outcome, r.table.triggers, answers);
      }
    }
  }

  // ---------------------------------------------------------------- processTable

  /** `processTable`: nothing without `@Table`; otherwise the flag, then checks, indexes, triggers and uniques. */
  function TableEffect(table: TB.TypeSpec, tableName: string, t: Option<TableAnnotation>,
                       identity: ConstraintDefinition -> string): PP.Effect {
    if t.None? then PP.Effect(Pass, table)
    else
      var checked := AddChecks(table.(temporary := t.value.temp), t.value.checks, identity);
      if checked.outcome.Fail? then checked
      else
        var indexed := AddIndexes(checked.table, tableName, t.value.indexes);
        if indexed.outcome.Fail? then indexed
        else
          var triggered := AddTriggers(indexed.table, tableName, t.value.triggers);
          if triggered.outcome.Fail? then triggered
          else AddUniques(triggered.table, t.value.uniques, identity)
  }

  /** What two loops in a row leave: the first one's elements, then the second one's. */
  ghost predicate AppendedBoth<A, B, E>(before: seq<E>, first: seq<A>, second: seq<B>, after: seq<E>,
                                      p: (E, A) -> bool, q: (E, B) -> bool) {
    && |after| == |before| + |first| + |second| && after[..|before|] == before
    && (forall j :: |before| <= j < |before| + |first| ==> p(after[j], first[j - |before|]))
    && (forall j :: |before| + |first| <= j < |after| ==> q(after[j], second[j - |before| - |first|]))
  }

  lemma AppendedTwice<A, B, E>(before: seq<E>, first: seq<A>, mid: seq<E>, second: seq<B>, after: seq<E>,
                                    p: (E, A) -> bool, q: (E, B) -> bool)
    requires AppendedEach(before, first, Pass, mid, p) && AppendedEach(mid, second, Pass, after, q)
    ensures AppendedBoth(before, first, second, after, p, q)
  {
    var n, m := |before|, |mid|;
    assert after[..m][..n] == after[..n];
    forall j | n <= j < m
      ensures p(after[j], first[j - n])
    {
      assert after[j] == after[..m][j];
    }
  }

  /**
   * `processTable` changes nothing without a `@Table`. With one, it sets the
   * temporary flag and touches only the constraints, indexes and triggers.
   */
  lemma TableEffectFrame(table: TB.TypeSpec, tableName: string, t: Option<TableAnnotation>, identity: ConstraintDefinition -> string)
    ensures t.None? ==> TableEffect(table, tableName, t, identity) == PP.Effect(Pass, table)
    ensures var r := TableEffect(table, tableName, t, identity);
            && r.table == table.(temporary := r.table.temporary, constraints := r.table.constraints,
                                 indexes := r.table.indexes, triggers := r.table.triggers)
            && (t.Some? ==> r.table.temporary == t.value.temp)
  {
    if t.Some? {
      var a := t.value;
      var start := table.(temporary := a.temp);
      var checked := AddChecks(start, a.checks, identity);
      AddChecksAppends(start, a.checks, identity);
      if checked.outcome.Pass? {
        var indexed := AddIndexes(checked.table, tableName, a.indexes);
        AddIndexesAppends(checked.table, tableName, a.indexes);
        if indexed.outcome.Pass? {
          var triggered := AddTriggers(indexed.table, tableName, a.triggers);
          AddTriggersAppends(indexed.table, tableName, a.triggers);
          if triggered.outcome.Pass? {
            AddUniquesAppends(triggered.table, a.uniques, identity);
          }
        }
      }
    }
  }

  /**
   * When `processTable` passes, the CHECKs follow the constraints already
   * there, one per annotation and in order, then the UNIQUEs; one index and
   * one trigger per annotation follow the existing ones.
   */
  lemma TableEffectAdds(table: TB.TypeSpec, tableName: string, t: TableAnnotation, identity: ConstraintDefinition -> string)
    requires TableEffect(table, tableName, Some(t), identity).outcome.Pass?
    ensures var r := TableEffect(table, tableName, Some(t), identity).table;
            && AppendedBoth(table.constraints, t.checks, t.uniques, r.constraints, IsCheckFor, IsUniqueFor)
            && AppendedEach(table.indexes, t.indexes, Pass, r.indexes, (i, a) => IsIndexFor(tableName, i, a))
            && AppendedEach(table.triggers, t.triggers, Pass, r.triggers, (x, a) => IsTriggerFor(tableName, x, a))
  {
    var start := table.(temporary := t.temp);
    var checked := AddChecks(start, t.checks, identity);
    var indexed := AddIndexes(checked.table, tableName, t.indexes);
    var triggered := AddTriggers(indexed.table, tableName, t.triggers);
    var r := AddUniques(triggered.table, t.uniques, identity);
    assert checked.outcome.Pass? && indexed.outcome.Pass? && triggered.outcome.Pass?;
    assert TableEffect(table, tableName, Some(t), identity) == r;
    AddChecksAppends(start, t.checks, identity);
    AddIndexesAppends(checked.table, tableName, t.indexes);
    AddTriggersAppends(indexed.table, tableName, t.triggers);
    AddUniquesAppends(triggered.table, t.uniques, identity);
    assert checked.table.constraints == AddChecks(start, t.checks, identity).table.constraints;
    assert checked.table.indexes == table.indexes && checked.table.triggers == table.triggers;
    assert indexed.table.constraints == checked.table.constraints && indexed.table.triggers == table.triggers;
    assert triggered.table.constraints == checked.table.constraints && triggered.table.indexes == indexed.table.indexes;
    assert r.table.indexes == indexed.table.indexes && r.table.triggers == triggered.table.triggers;
    AppendedTwice(table.constraints, t.checks, checked.table.constraints, t.uniques, r.table.constraints, IsCheckFor, IsUniqueFor);
  }

  // ---------------------------------------------------------------- the fields of one entity

  /** The table builder once its four names are set. */
  function InitialTable(e: TypeElement, tableName: string): TB.TypeSpec {
    TB.EmptyType.(tableName := Some(tableName), typeQualifiedName := Some(e.qualifiedName),
                  typeSimpleName := Some(e.simpleName), packageName := Some(e.packageName))
  }

  /** The field loop: the property processor on each field in turn; the first exception ends it. */
  function FieldsEffect(table: TB.TypeSpec, fields: seq<PP.FieldElement>, tableName: string): PP.Effect
    decreases |fields|
  {
    if fields == [] then PP.Effect(Pass, table)
    else
      var step := PP.FieldEffect(table, fields[0], tableName);
      if step.outcome.Fail? then step else FieldsEffect(step.table, fields[1..], tableName)
  }

  /** The property processor leaves the names, flags, constraints and triggers alone; only `@Id` sets the id column. */
  lemma FieldEffectKeeps(table: TB.TypeSpec, e: PP.FieldElement, tableName: string)
    ensures var r := PP.FieldEffect(table, e, tableName);
            && r.table == table.(columns := r.table.columns, indexes := r.table.indexes,
                                 idColumn := r.table.idColumn, versionColumn := r.table.versionColumn)
            && (e.id.None? ==> r.table.idColumn == table.idColumn)
  {
    if e.id.None? && e.version.None? && e.column.Some? {
      PP.ColumnEffectFrame(table, e, e.column.value, tableName, PP.FieldTypeOf(e.fieldType));
    }
  }

  /** The same for the whole field loop. */
  lemma {:induction false} FieldsEffectKeeps(table: TB.TypeSpec, fields: seq<PP.FieldElement>, tableName: string)
    ensures var r := FieldsEffect(table, fields, tableName);
            && r.table == table.(columns := r.table.columns, indexes := r.table.indexes,
                                 idColumn := r.table.idColumn, versionColumn := r.table.versionColumn)
            && ((forall i :: 0 <= i < |fields| ==> fields[i].id.None?) ==> r.table.idColumn == table.idColumn)
    decreases |fields|
  {
    if fields != [] {
      var step := PP.FieldEffect(table, fields[0], tableName);
      FieldEffectKeeps(table, fields[0], tableName);
      if step.outcome.Pass? {
        FieldsEffectKeeps(step.table, fields[1..], tableName);
        if forall i :: 0 <= i < |fields| ==> fields[i].id.None? {
          assert forall i :: 0 <= i < |fields[1..]| ==> fields[1..][i] == fields[i + 1];
        }
      }
    }
  }

  // ---------------------------------------------------------------- one entity

  /** The body of the `try` in `process`: the type definition written, or the exception thrown. */
  function EntityResult(e: TypeElement, identity: ConstraintDefinition -> string): Result<TypeDefinition> {
    var v := ValidateClass(e);
    if v.Fail? then Failure(v.error)
    else
      var tableName := PU.ResolveTableName(e.simpleName, e.modelName);
      var mapped := FieldsEffect(InitialTable(e, tableName), e.fields, tableName);
      if mapped.outcome.Fail? then Failure(mapped.outcome.error)
      else
        var tabled := TableEffect(mapped.table, tableName, e.table, identity);
        if tabled.outcome.Fail? then Failure(tabled.outcome.error)
        else TB.BuildType(tabled.table)
  }

  /**
   * A definition is written only for a class `validateClassElement` accepts;
   * it carries the resolved table name and the class's names. A class that
   * fails validation throws that failure, and a class without an `@Id`
   * field never maps: nothing else sets the id column the type builder
   * demands.
   */
  lemma EntityResultNames(e: TypeElement, identity: ConstraintDefinition -> string)
    ensures ValidateClass(e).Fail? ==> EntityResult(e, identity) == Failure(ValidateClass(e).error)
    ensures var r := EntityResult(e, identity);
            r.Success? ==> && ValidateClass(e).Pass?
                           && r.value.tableName == PU.ResolveTableName(e.simpleName, e.modelName)
                           && r.value.typeQualifiedName == e.qualifiedName && r.value.typeSimpleName == e.simpleName
                           && r.value.packageName == e.packageName
    ensures (forall i :: 0 <= i < |e.fields| ==> e.fields[i].id.None?) ==> EntityResult(e, identity).Failure?
  {
    if ValidateClass(e).Pass? {
      var tableName := PU.ResolveTableName(e.simpleName, e.modelName);
      var mapped := FieldsEffect(InitialTable(e, tableName), e.fields, tableName);
      FieldsEffectKeeps(InitialTable(e, tableName), e.fields, tableName);
      if mapped.outcome.Pass? {
        TableEffectFrame(mapped.table, tableName, e.table, identity);
      }
    }
  }

  /**
   * The constraints and triggers of a written definition are exactly those
   * of its `@Table`, checks before uniques, each in annotation order; no
   * `@Table`, none at all.
   */
  lemma EntityResultTable(e: TypeElement, identity: ConstraintDefinition -> string)
    ensures var r := EntityResult(e, identity);
            r.Success? && e.table.None? ==> r.value.constraints == [] && r.value.triggers == []
    ensures var r := EntityResult(e, identity);
            var tableName := PU.ResolveTableName(e.simpleName, e.modelName);
            r.Success? && e.table.Some? ==>
              && AppendedBoth([], e.table.value.checks, e.table.value.uniques, r.value.constraints, IsCheckFor, IsUniqueFor)
              && AppendedEach([], e.table.value.triggers, Pass, r.value.triggers, (x, a) => IsTriggerFor(tableName, x, a))
  {
    if ValidateClass(e).Pass? {
      var tableName := PU.ResolveTableName(e.simpleName, e.modelName);
      var mapped := FieldsEffect(InitialTable(e, tableName), e.fields, tableName);
      FieldsEffectKeeps(InitialTable(e, tableName), e.fields, tableName);
      assert mapped.table.constraints == [] && mapped.table.triggers == [];
      if mapped.outcome.Pass? {
        var tabled := TableEffect(mapped.table, tableName, e.table, identity);
        TableEffectFrame(mapped.table, tableName, e.table, identity);
        if tabled.outcome.Pass? {
          assert EntityResult(e, identity) == TB.BuildType(tabled.table);
          if e.table.Some? {
            TableEffectAdds(mapped.table, tableName, e.table.value, identity);
          }
        }
      }
    }
  }

  // ---------------------------------------------------------------- the round

  /** An ERROR diagnostic: the element's qualified name and the exception's message. */
  datatype Report = Report(element: string, message: string)

  /** What a round leaves: the recorded names, the definitions written and the errors reported. */
  datatype Log = Log(proceeded: seq<string>, written: seq<TypeDefinition>, errors: seq<Report>)

  datatype RoundResult = RoundResult(outcome: Outcome, log: Log)

  /** The exceptions `process` catches: MappingException (IOException comes only from the writer). */
  predicate Caught(f: Fault) {
    f.MappingError?
  }

  /** What `process` makes of one element: the definition written, or the exception thrown. */
  function MapEntity(identity: ConstraintDefinition -> string): TypeElement -> Result<TypeDefinition> {
    e => EntityResult(e, identity)
  }

  /** The loop of `process` over the annotated elements, from `log`, each element mapped by `entity`. */
  function Round(log: Log, elements: seq<TypeElement>, entity: TypeElement -> Result<TypeDefinition>): RoundResult
    decreases |elements|
  {
    if elements == [] then RoundResult(Pass, log)
    else
      var e := elements[0];
      var r := entity(e);
      if r.Success? then
        Round(log.(proceeded := log.proceeded + [e.qualifiedName], written := log.written + [r.value]), elements[1..], entity)
      else if Caught(r.error) then
        Round(log.(errors := log.errors + [Report(e.qualifiedName, r.error.message)]), elements[1..], entity)
      else RoundResult(Fail(r.error), log)
  }

  /** The qualified names of the elements whose definition is written, in order. */
  function Succeeded(elements: seq<TypeElement>, entity: TypeElement -> Result<TypeDefinition>): seq<string>
    decreases |elements|
  {
    if elements == [] then []
    else (if entity(elements[0]).Success? then [elements[0].qualifiedName] else []) + Succeeded(elements[1..], entity)
  }

  /** Every element either maps or fails with an exception `process` catches. */
  predicate AllCaught(elements: seq<TypeElement>, entity: TypeElement -> Result<TypeDefinition>) {
    forall i :: 0 <= i < |elements| && entity(elements[i]).Failure? ==> Caught(entity(elements[i]).error)
  }

  /** The first element and the rest, for `AllCaught`. */
  lemma AllCaughtSplit(elements: seq<TypeElement>, entity: TypeElement -> Result<TypeDefinition>)
    requires elements != []
    ensures AllCaught(elements, entity) <==>
              (entity(elements[0]).Failure? ==> Caught(entity(elements[0]).error))
              && AllCaught(elements[1..], entity)
  {
    assert forall i :: 0 <= i < |elements[1..]| ==> elements[1..][i] == elements[i + 1];
    if (entity(elements[0]).Failure? ==> Caught(entity(elements[0]).error))
       && AllCaught(elements[1..], entity) {
      forall i | 0 <= i < |elements| && entity(elements[i]).Failure?
        ensures Caught(entity(elements[i]).error)
      {
        if i > 0 {
          assert elements[i] == elements[1..][i - 1];
        }
      }
    }
  }

  /**
   * A round stops early exactly when some element fails with an exception
   * `process` does not catch, and it then ends with that exception.
   */
  lemma {:induction false} RoundAbortsOnlyUncaught(log: Log, elements: seq<TypeElement>, entity: TypeElement -> Result<TypeDefinition>)
    ensures Round(log, elements, entity).outcome.Pass? <==> AllCaught(elements, entity)
    ensures Round(log, elements, entity).outcome.Fail? ==> !Caught(Round(log, elements, entity).outcome.error)
    decreases |elements|
  {
    if elements != [] {
      var e := elements[0];
      var r := entity(e);
      AllCaughtSplit(elements, entity);
      if r.Success? {
        RoundAbortsOnlyUncaught(log.(proceeded := log.proceeded + [e.qualifiedName], written := log.written + [r.value]),
                                elements[1..], entity);
      } else if Caught(r.error) {
        RoundAbortsOnlyUncaught(log.(errors := log.errors + [Report(e.qualifiedName, r.error.message)]), elements[1..], entity);
      }
    }
  }

  /** What a round adds to the log: it only appends, one name for each definition written. */
  lemma {:induction false} RoundAppends(log: Log, elements: seq<TypeElement>, entity: TypeElement -> Result<TypeDefinition>)
    ensures var after := Round(log, elements, entity).log;
            && |log.proceeded| <= |after.proceeded| && after.proceeded[..|log.proceeded|] == log.proceeded
            && |log.written| <= |after.written| && after.written[..|log.written|] == log.written
            && |log.errors| <= |after.errors| && after.errors[..|log.errors|] == log.errors
            && |after.proceeded| - |log.proceeded| == |after.written| - |log.written|
    decreases |elements|
  {
    if elements != [] {
      var e := elements[0];
      var r := entity(e);
      if r.Success? {
        var next := log.(proceeded := log.proceeded + [e.qualifiedName], written := log.written + [r.value]);
        RoundAppends(next, elements[1..], entity);
        var after := Round(next, elements[1..], entity).log;
        assert after.proceeded[..|next.proceeded|][..|log.proceeded|] == after.proceeded[..|log.proceeded|];
        assert after.written[..|next.written|][..|log.written|] == after.written[..|log.written|];
      } else if Caught(r.error) {
        var next := log.(errors := log.errors + [Report(e.qualifiedName, r.error.message)]);
        RoundAppends(next, elements[1..], entity);
        var after := Round(next, elements[1..], entity).log;
        assert after.errors[..|next.errors|][..|log.errors|] == after.errors[..|log.errors|];
      } else {
        assert log.proceeded[..|log.proceeded|] == log.proceeded;
        assert log.written[..|log.written|] == log.written;
        assert log.errors[..|log.errors|] == log.errors;
      }
    } else {
      assert log.proceeded[..|log.proceeded|] == log.proceeded;
      assert log.written[..|log.written|] == log.written;
      assert log.errors[..|log.errors|] == log.errors;
    }
  }

  /**
   * A round that runs to the end records exactly the elements that map, in
   * order, and reports every other one: one entry per element.
   */
  lemma {:induction false} RoundAccounts(log: Log, elements: seq<TypeElement>, entity: TypeElement -> Result<TypeDefinition>)
    requires Round(log, elements, entity).outcome.Pass?
    ensures var after := Round(log, elements, entity).log;
            && after.proceeded == log.proceeded + Succeeded(elements, entity)
            && (|after.proceeded| - |log.proceeded|) + (|after.errors| - |log.errors|) == |elements|
    decreases |elements|
  {
    if elements != [] {
      var e := elements[0];
      var r := entity(e);
      if r.Success? {
        var next := log.(proceeded := log.proceeded + [e.qualifiedName], written := log.written + [r.value]);
        RoundAccounts(next, elements[1..], entity);
        assert log.proceeded + [e.qualifiedName] + Succeeded(elements[1..], entity)
               == log.proceeded + ([e.qualifiedName] + Succeeded(elements[1..], entity));
      } else {
        var next := log.(errors := log.errors + [Report(e.qualifiedName, r.error.message)]);
        RoundAccounts(next, elements[1..], entity);
        assert [] + Succeeded(elements[1..], entity) == Succeeded(elements[1..], entity);
      }
    }
  }

  /** The k-th recorded name is the qualified name of the k-th written definition. */
  predicate Paired(log: Log) {
    |log.proceeded| == |log.written| && forall k :: 0 <= k < |log.written| ==> log.written[k].typeQualifiedName == log.proceeded[k]
  }

  /** A definition made from an element carries the element's qualified name. */
  ghost predicate NamesTheElement(entity: TypeElement -> Result<TypeDefinition>) {
    forall e :: entity(e).Success? ==> entity(e).value.typeQualifiedName == e.qualifiedName
  }

  lemma MapEntityNames(identity: ConstraintDefinition -> string)
    ensures NamesTheElement(MapEntity(identity))
  {
    forall e | MapEntity(identity)(e).Success?
      ensures MapEntity(identity)(e).value.typeQualifiedName == e.qualifiedName
    {
      EntityResultNames(e, identity);
    }
  }

  /** A round keeps the recorded names and the written definitions in step. */
  lemma {:induction false} RoundPairs(log: Log, elements: seq<TypeElement>, entity: TypeElement -> Result<TypeDefinition>)
    requires Paired(log) && NamesTheElement(entity)
    ensures Paired(Round(log, elements, entity).log)
    decreases |elements|
  {
    if elements != [] {
      var e := elements[0];
      var r := entity(e);
      if r.Success? {
        var next := log.(proceeded := log.proceeded + [e.qualifiedName], written := log.written + [r.value]);
        assert Paired(next) by {
          forall k | 0 <= k < |next.written|
            ensures next.written[k].typeQualifiedName == next.proceeded[k]
          {
            if k < |log.written| {
              assert next.written[k] == log.written[k] && next.proceeded[k] == log.proceeded[k];
            }
          }
        }
        RoundPairs(next, elements[1..], entity);
      } else if Caught(r.error) {
        RoundPairs(log.(errors := log.errors + [Report(e.qualifiedName, r.error.message)]), elements[1..], entity);
      }
    }
  }

  // ---------------------------------------------------------------- the processor object

  /**
   * The processor's state across a round: `proceededTypeMap`, the
   * definitions handed to the type writer and the errors sent to the
   * messager.
   */
  class EntityProcessor {
    var proceeded: seq<string>
    var written: seq<TypeDefinition>
    var errors: seq<Report>

    function CurrentLog(): Log
      reads this
    {
      Log(proceeded, written, errors)
    }

    /** `init`: an empty list of proceeded types. */
    constructor ()
      ensures CurrentLog() == Log([], [], [])
    {
      proceeded, written, errors := [], [], [];
    }

    /**
     * `process`: each element in turn; a caught exception is reported and
     * the loop goes on, any other one ends the round.
     */
    method Process(elements: seq<TypeElement>, identity: ConstraintDefinition -> string) returns (r: Outcome)
      modifies this
      ensures RoundResult(r, CurrentLog()) == Round(old(CurrentLog()), elements, MapEntity(identity))
    {
      var i := 0;
      while i < |elements|
        invariant 0 <= i <= |elements|
        invariant Round(old(CurrentLog()), elements, MapEntity(identity)) == Round(CurrentLog(), elements[i..], MapEntity(identity))
      {
        var e := elements[i];
        assert elements[i..][0] == e && elements[i..][1..] == elements[i + 1..];
        var built := ProcessEntity(e, identity);
        assert MapEntity(identity)(e) == built;
        if built.Success? {
          proceeded := proceeded + [e.qualifiedName];
          written := written + [built.value];
        } else if built.error.MappingError? {
          errors := errors + [Report(e.qualifiedName, built.error.message)];
        } else {
          return Fail(built.error);
        }
        i := i + 1;
      }
      assert elements[i..] == [];
      r := Pass;
    }

    /** The body of the `try` in `process`, for one element. */
    method ProcessEntity(e: TypeElement, identity: ConstraintDefinition -> string) returns (r: Result<TypeDefinition>)
      ensures r == EntityResult(e, identity)
    {
      var v := ValidateClass(e);
      if v.Fail? {
        return Failure(v.error);
      }
      var tableName := PU.ResolveTableName(e.simpleName, e.modelName);
      var tableBuilder := new TB.TypeDefinitionBuilder();
      tableBuilder.SetTableName(Some(tableName));
      tableBuilder.SetTypeQualifiedName(Some(e.qualifiedName));
      tableBuilder.SetTypeSimpleName(Some(e.simpleName));
      tableBuilder.SetPackageName(Some(e.packageName));
      assert tableBuilder.Spec() == InitialTable(e, tableName);
      var o := ProcessFields(tableBuilder, e.fields, tableName);
      if o.Fail? {
        return Failure(o.error);
      }
      o := ProcessTable(tableBuilder, tableName, e.table, identity);
      if o.Fail? {
        return Failure(o.error);
      }
      r := tableBuilder.Build();
    }

    /** The field loop of `process`. */
    method ProcessFields(tableBuilder: TB.TypeDefinitionBuilder, fields: seq<PP.FieldElement>, tableName: string)
      returns (r: Outcome)
      requires tableBuilder.Valid()
      modifies tableBuilder
      ensures tableBuilder.Valid()
      ensures PP.Effect(r, tableBuilder.Spec()) == FieldsEffect(old(tableBuilder.Spec()), fields, tableName)
    {
      var i := 0;
      while i < |fields|
        invariant 0 <= i <= |fields|
        invariant tableBuilder.Valid()
        invariant FieldsEffect(old(tableBuilder.Spec()), fields, tableName) == FieldsEffect(tableBuilder.Spec(), fields[i..], tableName)
      {
        assert fields[i..][0] == fields[i] && fields[i..][1..] == fields[i + 1..];
        r := PP.Process(fields[i], tableBuilder, tableName);
        if r.Fail? {
          return;
        }
        i := i + 1;
      }
      assert fields[i..] == [];
      r := Pass;
    }

    /** `processTable`. */
    method ProcessTable(tableBuilder: TB.TypeDefinitionBuilder, tableName: string, table: Option<TableAnnotation>,
                        identity: ConstraintDefinition -> string) returns (r: Outcome)
      requires tableBuilder.Valid()
      modifies tableBuilder
      ensures tableBuilder.Valid()
      ensures PP.Effect(r, tableBuilder.Spec()) == TableEffect(old(tableBuilder.Spec()), tableName, table, identity)
    {
      if table.None? {
        return Pass;
      }
      tableBuilder.SetTemporary(table.value.temp);
      r := ProcessChecksConstraints(tableBuilder, table.value.checks, identity);
      if r.Fail? {
        return;
      }
      r := ProcessIndexes(tableBuilder, tableName, table.value.indexes);
      if r.Fail? {
        return;
      }
      r := ProcessTriggers(tableBuilder, tableName, table.value.triggers);
      if r.Fail? {
        return;
      }
      r := ProcessUniqueConstraints(tableBuilder, table.value.uniques, identity);
    }

    /** `processUniqueConstraints`. */
    method ProcessUniqueConstraints(tableBuilder: TB.TypeDefinitionBuilder, uniques: seq<PP.UniqueAnnotation>,
                                    identity: ConstraintDefinition -> string) returns (r: Outcome)
      requires tableBuilder.Valid()
      modifies tableBuilder
      ensures tableBuilder.Valid()
      ensures PP.Effect(r, tableBuilder.Spec()) == AddUniques(old(tableBuilder.Spec()), uniques, identity)
    {
      var i := 0;
      while i < |uniques|
        invariant 0 <= i <= |uniques|
        invariant tableBuilder.Valid()
        invariant AddUniques(old(tableBuilder.Spec()), uniques, identity) == AddUniques(tableBuilder.Spec(), uniques[i..], identity)
      {
        var unique := uniques[i];
        assert uniques[i..][0] == unique && uniques[i..][1..] == uniques[i + 1..];
        var name := PU.ResolveUniqueName(unique.name, unique.columns);
        var cb := new CB.ConstraintDefinitionBuilder.NewTableConstraint();
        cb.SetType(Some(UNIQUE));
        cb.SetName(Some(name));
        cb.SetColumnNames(Some(unique.columns));
        cb.SetConflictClause(Some(unique.onConflict));
        assert cb.Spec() == UniqueSpec(unique);
        var built := cb.Build();
        if built.Failure? {
          return Fail(built.error);
        }
        r := tableBuilder.AddConstraint(built.value, identity(built.value));
        if r.Fail? {
          return;
        }
        i := i + 1;
      }
      assert uniques[i..] == [];
      r := Pass;
    }

    /** `processTriggers`. */
    method ProcessTriggers(tableBuilder: TB.TypeDefinitionBuilder, tableName: string, triggers: seq<TriggerAnnotation>)
      returns (r: Outcome)
      requires tableBuilder.Valid()
      modifies tableBuilder
      ensures tableBuilder.Valid()
      ensures PP.Effect(r, tableBuilder.Spec()) == AddTriggers(old(tableBuilder.Spec()), tableName, triggers)
    {
      var i := 0;
      while i < |triggers|
        invariant 0 <= i <= |triggers|
        invariant tableBuilder.Valid()
        invariant AddTriggers(old(tableBuilder.Spec()), tableName, triggers) == AddTriggers(tableBuilder.Spec(), tableName, triggers[i..])
      {
        var trigger := triggers[i];
        assert triggers[i..][0] == trigger && triggers[i..][1..] == triggers[i + 1..];
        var built := BuildTableTrigger(tableName, trigger);
        if built.Failure? {
          return Fail(built.error);
        }
        r := tableBuilder.AddTrigger(built.value);
        if r.Fail? {
          return;
        }
        i := i + 1;
      }
      assert triggers[i..] == [];
      r := Pass;
    }

    /** `processIndexes`. */
    method ProcessIndexes(tableBuilder: TB.TypeDefinitionBuilder, tableName: string, indexes: seq<PP.IndexAnnotation>)
      returns (r: Outcome)
      requires tableBuilder.Valid()
      modifies tableBuilder
      ensures tableBuilder.Valid()
      ensures PP.Effect(r, tableBuilder.Spec()) == AddIndexes(old(tableBuilder.Spec()), tableName, indexes)
    {
      var i := 0;
      while i < |indexes|
        invariant 0 <= i <= |indexes|
        invariant tableBuilder.Valid()
        invariant AddIndexes(old(tableBuilder.Spec()), tableName, indexes) == AddIndexes(tableBuilder.Spec(), tableName, indexes[i..])
      {
        var index := indexes[i];
        assert indexes[i..][0] == index && indexes[i..][1..] == indexes[i + 1..];
        var built := BuildTableIndex(tableName, index);
        if built.Failure? {
          return Fail(built.error);
        }
        r := tableBuilder.AddIndex(built.value);
        if r.Fail? {
          return;
        }
        i := i + 1;
      }
      assert indexes[i..] == [];
      r := Pass;
    }

    /** The body of the loop in `processTriggers`, up to `build`. */
    method BuildTableTrigger(tableName: string, trigger: TriggerAnnotation) returns (built: Result<TriggerDefinition>)
      ensures built == TrB.BuildTrigger(TriggerSpecOf(tableName, trigger))
    {
      var tb := new TrB.TriggerDefinitionBuilder();
      tb.SetName(Some(trigger.name));
      tb.SetTableName(Some(tableName));
      tb.SetStatements(Some(trigger.statements));
      tb.SetForEachRow(trigger.forEach);
      tb.SetTemporary(trigger.temp);
      tb.SetTriggerType(Some(trigger.triggerType));
      tb.SetWhen(Some(trigger.when));
      assert tb.Spec() == TriggerSpecOf(tableName, trigger);
      built := tb.Build();
    }

    /** The body of the loop in `processIndexes`, up to `build`. */
    method BuildTableIndex(tableName: string, index: PP.IndexAnnotation) returns (built: Result<IndexDefinition>)
      ensures built == IB.BuildIndex(IndexSpecOf(tableName, index))
    {
      var name := PU.ResolveIndexName(index.name, []);
      var ib := new IB.IndexDefinitionBuilder();
      ib.SetName(Some(name));
      ib.SetTableName(Some(tableName));
      ib.SetColumns(Some(index.columns));
      ib.SetUnique(index.unique);
      ib.SetWhere(Some(index.where));
      assert ib.Spec() == IndexSpecOf(tableName, index);
      built := ib.Build();
    }

    /** `processChecksConstraints`. */
    method ProcessChecksConstraints(tableBuilder: TB.TypeDefinitionBuilder, checks: seq<PP.CheckAnnotation>,
                                    identity: ConstraintDefinition -> string) returns (r: Outcome)
      requires tableBuilder.Valid()
      modifies tableBuilder
      ensures tableBuilder.Valid()
      ensures PP.Effect(r, tableBuilder.Spec()) == AddChecks(old(tableBuilder.Spec()), checks, identity)
    {
      var i := 0;
      while i < |checks|
        invariant 0 <= i <= |checks|
        invariant tableBuilder.Valid()
        invariant AddChecks(old(tableBuilder.Spec()), checks, identity) == AddChecks(tableBuilder.Spec(), checks[i..], identity)
      {
        var check := checks[i];
        assert checks[i..][0] == check && checks[i..][1..] == checks[i + 1..];
        var cb := new CB.ConstraintDefinitionBuilder.NewTableConstraint();
        cb.SetType(Some(CHECK));
        cb.SetName(Some(check.name));
        cb.SetExp(Some(check.exp));
        assert cb.Spec() == CheckSpec(check);
        var built := cb.Build();
        if built.Failure? {
          return Fail(built.error);
        }
        r := tableBuilder.AddConstraint(built.value, identity(built.value));
        if r.Fail? {
          return;
        }
        i := i + 1;
      }
      assert checks[i..] == [];
      r := Pass;
    }
  }
}
