/**
 * The runtime side of one entity (orm/Model.java): loading through the
 * session cache, raw queries, and insert, update and delete through four
 * statements compiled on first use.
 *
 * The SQLite database is a row store: the rows keyed by their id and the
 * id the next insert receives. The statements the generated subclass
 * supplies are given by their effect on that store: the insert statement
 * adds the entity's values under a fresh id, the update statement replaces
 * the row with the entity's id, and both delete statements remove the row
 * with the id they are bound to. Each reports how many rows it affected.
 * An instance carries a `handle` that stands for its object identity, so
 * that an instance returned from the cache can be told from a new one.
 *
 * Every operation is first a function from the model's state to its result
 * and new state; the `Model` class performs it step by step and is proved
 * to reach exactly that state.
 */
module EntityModel {
  import opened Outcomes
  import Session
  import SqlText
  import InternalSqlUtils

  /** The column values of a row, as the entity's mapped fields hold them. */
  type Row = seq<string>

  /** An instance: its identity, the id `getId` reads, and the mapped values. */
  datatype Entity = Entity(handle: nat, id: int, values: Row)

  /** The table: its rows by id, and the id the next insert receives. */
  datatype Store = Store(rows: map<int, Row>, nextRowId: int)

  /** Ids are positive, and every stored id is below the next one. */
  predicate StoreValid(s: Store) {
    s.nextRowId >= 1 && forall k :: k in s.rows ==> 1 <= k < s.nextRowId
  }

  /** The insert statement: the values under the next id. */
  function InsertRow(s: Store, values: Row): (r: (int, Store))
    ensures r.1.rows == s.rows[r.0 := values]
    ensures StoreValid(s) ==> r.0 >= 1 && r.0 !in s.rows && StoreValid(r.1)
  {
    (s.nextRowId, Store(s.rows[s.nextRowId := values], s.nextRowId + 1))
  }

  /** The update statement bound to an entity: how many rows it changed, and the table after. */
  function UpdateRow(s: Store, id: int, values: Row): (r: (nat, Store))
    ensures r.0 == 1 <==> id in s.rows
    ensures r.1 == (if id in s.rows then s.(rows := s.rows[id := values]) else s)
  {
    if id in s.rows then (1, s.(rows := s.rows[id := values])) else (0, s)
  }

  /** A delete statement bound to an id: how many rows it removed, and the table after. */
  function DeleteRow(s: Store, id: int): (r: (nat, Store))
    ensures r.0 == 1 <==> id in s.rows
    ensures r.1.rows == s.rows - {id} && r.1.nextRowId == s.nextRowId
  {
    if id in s.rows then (1, s.(rows := s.rows - {id})) else (0, s)
  }

  // ---------------------------------------------------------------- the compiled statements

  datatype StatementKind = InsertStatement | UpdateStatement | DeleteStatement | DeleteByIdStatement

  /**
   * What the subclass gives the model: the constructor's arguments and the
   * text its `getInsertStatement`, `getUpdateStatement` and
   * `getDeleteStatement` return.
   */
  datatype Config = Config(
    tableName: string, idColumn: string, versionColumn: Option<string>, queryColumns: seq<string>,
    insertSql: string, updateSql: string, deleteSql: string)

  /** The text compiled for each statement; the by-id delete is built from the table and id column. */
  function SqlOf(c: Config, k: StatementKind): string {
    match k
    case InsertStatement => c.insertSql
    case UpdateStatement => c.updateSql
    case DeleteStatement => c.deleteSql
    case DeleteByIdStatement => SqlText.DeleteWhere(c.tableName, SqlText.Selection(c.idColumn, None))
  }

  /** The four statement fields (null until compiled) and the kinds compiled so far, in order. */
  datatype Statements = Statements(
    insert: Option<string>, update: Option<string>, delete: Option<string>, deleteById: Option<string>,
    compiled: seq<StatementKind>)

  const NoStatements: Statements := Statements(None, None, None, None, [])

  function Slot(s: Statements, k: StatementKind): Option<string> {
    match k
    case InsertStatement => s.insert
    case UpdateStatement => s.update
    case DeleteStatement => s.delete
    case DeleteByIdStatement => s.deleteById
  }

  /** `if (statement == null) statement = db.compileStatement(sql)`. */
  function Compile(c: Config, s: Statements, k: StatementKind): (r: Statements)
    ensures Slot(r, k).Some?
    ensures Slot(s, k).Some? ==> r == s
    ensures Slot(s, k).None? ==> Slot(r, k) == Some(SqlOf(c, k)) && r.compiled == s.compiled + [k]
    ensures forall j :: j != k ==> Slot(r, j) == Slot(s, j)
  {
    if Slot(s, k).Some? then s
    else
      var sql, compiled := Some(SqlOf(c, k)), s.compiled + [k];
      match k
      case InsertStatement => s.(insert := sql, compiled := compiled)
      case UpdateStatement => s.(update := sql, compiled := compiled)
      case DeleteStatement => s.(delete := sql, compiled := compiled)
      case DeleteByIdStatement => s.(deleteById := sql, compiled := compiled)
  }

  /** Each statement is compiled at most once, from its own text, and a field is set iff it was compiled. */
  predicate Prepared(c: Config, s: Statements) {
    (forall k :: Slot(s, k).Some? <==> k in s.compiled) &&
    (forall k :: Slot(s, k).Some? ==> Slot(s, k).value == SqlOf(c, k)) &&
    (forall i, j :: 0 <= i < j < |s.compiled| ==> s.compiled[i] != s.compiled[j])
  }

  /** A compiled statement is reused from then on, and the compile log only grows. */
  predicate Reused(s: Statements, t: Statements) {
    (forall k :: Slot(s, k).Some? ==> Slot(t, k) == Slot(s, k)) && s.compiled <= t.compiled
  }

  lemma CompilePrepares(c: Config, s: Statements, k: StatementKind)
    requires Prepared(c, s)
    ensures Prepared(c, Compile(c, s, k)) && Reused(s, Compile(c, s, k))
  {
    var r := Compile(c, s, k);
    if Slot(s, k).None? {
      assert k !in s.compiled;
      forall i, j | 0 <= i < j < |r.compiled|
        ensures r.compiled[i] != r.compiled[j]
      {
        if j == |s.compiled| {
          assert r.compiled[i] == s.compiled[i];
        }
      }
      forall j
        ensures Slot(r, j).Some? <==> j in r.compiled
      {
        assert j in r.compiled <==> j in s.compiled || j == k;
      }
    }
  }

  // ---------------------------------------------------------------- the model's state

  /**
   * Whether a helper is attached, the database it opens, the session's
   * entries, the statements, and how many instances `newInstance` has made.
   */
  datatype State = State(
    attached: bool, store: Store, cache: Session.Entries<Entity>, statements: Statements, instances: nat)

  /** A cached instance sits under its own id and was made by this model. */
  predicate CacheValid(m: Session.Entries<Entity>, instances: nat) {
    forall k :: k in m && m[k].Some? ==> m[k].value.id == k && m[k].value.handle < instances
  }

  predicate Valid(c: Config, st: State) {
    StoreValid(st.store) && Prepared(c, st.statements) && CacheValid(st.cache, st.instances)
  }

  /** What every operation keeps: the invariant, the compiled statements, and freshness of future instances. */
  predicate Evolves(c: Config, st: State, t: State) {
    (Valid(c, st) ==> Valid(c, t)) && Reused(st.statements, t.statements) && st.instances <= t.instances &&
    t.attached == st.attached
  }

  const NotAttached: string := "Model must be get through Orm instance."
  const NotNew: string := "Entity is not new"

  /** `getReadableDatabase` / `getWritableDatabase`: they throw until a helper is attached. */
  function Database(st: State): (r: Outcome)
    ensures r.Pass? <==> st.attached
    ensures r.Fail? ==> r.error == IllegalState(NotAttached)
  {
    if st.attached then Pass else Fail(IllegalState(NotAttached))
  }

  // ---------------------------------------------------------------- queries

  /** The instances `newInstance` and `readCursor` make from the rows a cursor holds, numbered from `first`. */
  function Instances(first: nat, rows: seq<(int, Row)>): (r: seq<Entity>)
    ensures |r| == |rows|
    ensures forall i :: 0 <= i < |rows| ==> r[i].handle == first + i && r[i].id == rows[i].0 && r[i].values == rows[i].1
  {
    seq(|rows|, i requires 0 <= i < |rows| => Entity(first + i, rows[i].0, rows[i].1))
  }

  /**
   * `rawQuery`: every row the database answers, in its order, as a new
   * instance; SQL evaluation is not modelled, so the answer is a parameter.
   */
  function RawQueryEffect(st: State, answer: seq<(int, Row)>): (Result<seq<Entity>>, State) {
    if !st.attached then (Failure(Database(st).error), st)
    else (Success(Instances(st.instances, answer)), st.(instances := st.instances + |answer|))
  }

  /** `rawQuerySingle`: the first row of the answer, limited to one, as a new instance, or null. */
  function RawQuerySingleEffect(st: State, answer: seq<(int, Row)>): (Result<Option<Entity>>, State) {
    if !st.attached then (Failure(Database(st).error), st)
    else if answer == [] then (Success(None), st)
    else (Success(Some(Entity(st.instances, answer[0].0, answer[0].1))), st.(instances := st.instances + 1))
  }

  /** `loadById`: the cached instance, else a new one read from the row and cached, else null. */
  function LoadByIdEffect(st: State, id: int): (Result<Option<Entity>>, State) {
    var hit := Session.Cached(st.cache, id);
    if hit.Some? then (Success(hit), st)
    else if !st.attached then (Failure(Database(st).error), st)
    else if id in st.store.rows then
      var e := Entity(st.instances, id, st.store.rows[id]);
      (Success(Some(e)), st.(instances := st.instances + 1, cache := Session.Stored(st.cache, id, e)))
    else (Success(None), st)
  }

  // ---------------------------------------------------------------- insert

  /** `insertInsideSynchronized`: reject an entity that has an id, else compile, bind and execute. */
  function InsertOne(c: Config, st: State, e: Entity): (Result<int>, State) {
    if e.id > 0 then (Failure(OrmError(NotNew)), st)
    else
      var inserted := InsertRow(st.store, e.values);
      (Success(inserted.0), st.(store := inserted.1, statements := Compile(c, st.statements, InsertStatement)))
  }

  /** `insert` and `insertInTx` of one entity. */
  function InsertEffect(c: Config, st: State, e: Entity): (Result<int>, State) {
    if !st.attached then (Failure(Database(st).error), st) else InsertOne(c, st, e)
  }

  /** The insert loop of `insertInTx`: the ids in order, or the first exception. */
  function InsertEach(c: Config, st: State, es: seq<Entity>): (Result<seq<int>>, State)
    decreases |es|
  {
    if es == [] then (Success([]), st)
    else
      var first := InsertOne(c, st, es[0]);
      if first.0.Failure? then (Failure(first.0.error), first.1)
      else Prefixed([first.0.value], InsertEach(c, first.1, es[1..]))
  }

  /** Ids collected before the rest of a loop. */
  function Prefixed(ids: seq<int>, rest: (Result<seq<int>>, State)): (Result<seq<int>>, State) {
    (if rest.0.Success? then Success(ids + rest.0.value) else rest.0, rest.1)
  }

  /** `insertInTx` of several entities. */
  function InsertAllEffect(c: Config, st: State, es: seq<Entity>): (Result<seq<int>>, State) {
    if !st.attached then (Failure(Database(st).error), st) else InsertEach(c, st, es)
  }

  // ---------------------------------------------------------------- update and delete

  /** `updateInsideSynchronized`: true, and the id evicted, iff exactly one row changed. */
  function UpdateOne(c: Config, st: State, e: Entity): (bool, State) {
    var statements := Compile(c, st.statements, UpdateStatement);
    var updated := UpdateRow(st.store, e.id, e.values);
    if updated.0 == 1 then (true, st.(store := updated.1, statements := statements, cache := Session.Removed(st.cache, e.id)))
    else (false, st.(store := updated.1, statements := statements))
  }

  /** `update` and `updateInTx(entity)`. */
  function UpdateEffect(c: Config, st: State, e: Entity): (Result<bool>, State) {
    if !st.attached then (Failure(Database(st).error), st)
    else var u := UpdateOne(c, st, e); (Success(u.0), u.1)
  }

  /** The update loop: every entity in turn, whatever each answers. */
  function UpdateEach(c: Config, st: State, es: seq<Entity>): State
    decreases |es|
  {
    if es == [] then st else UpdateEach(c, UpdateOne(c, st, es[0]).1, es[1..])
  }

  /** `updateInTx` of several entities: the number of entities iterated. */
  function UpdateAllEffect(c: Config, st: State, es: seq<Entity>): (Result<nat>, State) {
    if !st.attached then (Failure(Database(st).error), st) else (Success(|es|), UpdateEach(c, st, es))
  }

  /** `deleteInsideSynchronized(entity)`: true, and the id evicted, iff exactly one row went. */
  function DeleteOne(c: Config, st: State, e: Entity): (bool, State) {
    var statements := Compile(c, st.statements, DeleteStatement);
    var deleted := DeleteRow(st.store, e.id);
    if deleted.0 == 1 then (true, st.(store := deleted.1, statements := statements, cache := Session.Removed(st.cache, e.id)))
    else (false, st.(store := deleted.1, statements := statements))
  }

  /** `delete` and `deleteInTx(entity)`. */
  function DeleteEffect(c: Config, st: State, e: Entity): (Result<bool>, State) {
    if !st.attached then (Failure(Database(st).error), st)
    else var d := DeleteOne(c, st, e); (Success(d.0), d.1)
  }

  function DeleteEach(c: Config, st: State, es: seq<Entity>): State
    decreases |es|
  {
    if es == [] then st else DeleteEach(c, DeleteOne(c, st, es[0]).1, es[1..])
  }

  /** `deleteInTx` of several entities: the number of entities iterated. */
  function DeleteAllEffect(c: Config, st: State, es: seq<Entity>): (Result<nat>, State) {
    if !st.attached then (Failure(Database(st).error), st) else (Success(|es|), DeleteEach(c, st, es))
  }

  /**
   * `deleteInsideSynchronized(id)` as written: it compiles the by-id
   * statement but binds and executes the entity delete statement, which is
   * null until an entity delete has compiled it. When it is compiled, it is
   * taken to delete the row whose id is bound to its first parameter.
   */
  function DeleteByIdOneAsWritten(c: Config, st: State, id: int): (Result<bool>, State) {
    var statements := Compile(c, st.statements, DeleteByIdStatement);
    if st.statements.delete.None? then (Failure(NullPointer), st.(statements := statements))
    else
      var deleted := DeleteRow(st.store, id);
      if deleted.0 == 1 then (Success(true), st.(store := deleted.1, statements := statements, cache := Session.Removed(st.cache, id)))
      else (Success(false), st.(store := deleted.1, statements := statements))
  }

  /** `deleteInsideSynchronized(id)` as intended: the by-id statement it compiles is the one it executes. */
  function DeleteByIdOne(c: Config, st: State, id: int): (bool, State) {
    var statements := Compile(c, st.statements, DeleteByIdStatement);
    var deleted := DeleteRow(st.store, id);
    if deleted.0 == 1 then (true, st.(store := deleted.1, statements := statements, cache := Session.Removed(st.cache, id)))
    else (false, st.(store := deleted.1, statements := statements))
  }

  function DeleteByIdEach(c: Config, st: State, ids: seq<int>): State
    decreases |ids|
  {
    if ids == [] then st else DeleteByIdEach(c, DeleteByIdOne(c, st, ids[0]).1, ids[1..])
  }

  /** `deleteById` and `deleteByIdInTx`: the number of ids iterated. */
  function DeleteByIdEffect(c: Config, st: State, ids: seq<int>): (Result<nat>, State) {
    if !st.attached then (Failure(Database(st).error), st) else (Success(|ids|), DeleteByIdEach(c, st, ids))
  }

  /** The `deleteById` loop over `DeleteByIdOneAsWritten`: the first exception ends the loop. */
  function DeleteByIdEachAsWritten(c: Config, st: State, ids: seq<int>): (Result<nat>, State)
    decreases |ids|
  {
    if ids == [] then (Success(0), st)
    else
      var first := DeleteByIdOneAsWritten(c, st, ids[0]);
      if first.0.Failure? then (Failure(first.0.error), first.1)
      else
        var rest := DeleteByIdEachAsWritten(c, first.1, ids[1..]);
        (if rest.0.Success? then Success(rest.0.value + 1) else rest.0, rest.1)
  }

  /** `deleteById` and `deleteByIdInTx` as written. */
  function DeleteByIdEffectAsWritten(c: Config, st: State, ids: seq<int>): (Result<nat>, State) {
    if !st.attached then (Failure(Database(st).error), st) else DeleteByIdEachAsWritten(c, st, ids)
  }

  /** `isVersionEnabled`. */
  function VersionEnabled(c: Config): (r: bool)
    ensures r <==> c.versionColumn.Some?
  {
    c.versionColumn != None
  }

  // ---------------------------------------------------------------- what a single operation promises

  /** An entity that already has an id is refused before anything is compiled, bound or executed. */
  lemma InsertRefusesEntityWithId(c: Config, st: State, e: Entity)
    requires e.id > 0
    ensures InsertEffect(c, st, e) == (Failure(if st.attached then OrmError(NotNew) else IllegalState(NotAttached)), st)
  {
  }

  /**
   * A new entity is stored under a fresh id, which `insert` returns; the
   * insert statement is compiled, if it was not already, and the session is
   * untouched.
   */
  lemma InsertStoresUnderFreshId(c: Config, st: State, e: Entity)
    requires Valid(c, st) && st.attached && e.id <= 0
    ensures var (r, t) := InsertEffect(c, st, e);
            r == Success(st.store.nextRowId) && r.value !in st.store.rows &&
            t.store.rows == st.store.rows[r.value := e.values] && t.cache == st.cache &&
            t.statements.insert == Some(c.insertSql) && Valid(c, t)
  {
    CompilePrepares(c, st.statements, InsertStatement);
  }

  /** A session hit is answered from the cache, with no query and no change. */
  lemma LoadByIdHit(st: State, id: int, e: Entity)
    requires Session.Cached(st.cache, id) == Some(e)
    ensures LoadByIdEffect(st, id) == (Success(Some(e)), st)
  {
  }

  /**
   * On a miss, a stored row becomes a new instance (distinct from every
   * cached one) that is cached under the id; with no row, the answer is null
   * and nothing changes.
   */
  lemma LoadByIdMiss(c: Config, st: State, id: int)
    requires Valid(c, st) && st.attached && Session.Cached(st.cache, id).None?
    ensures var (r, t) := LoadByIdEffect(st, id);
            r.Success? && (r.value.Some? <==> id in st.store.rows) &&
            (id in st.store.rows ==>
               r.value.value == Entity(st.instances, id, st.store.rows[id]) &&
               (forall k :: k in st.cache && st.cache[k].Some? ==> st.cache[k].value.handle != r.value.value.handle) &&
               t == st.(instances := st.instances + 1, cache := Session.Stored(st.cache, id, r.value.value)) &&
               Valid(c, t)) &&
            (id !in st.store.rows ==> t == st)
  {
  }

  /** Raw queries never read or write the session; an empty answer is an empty list or null. */
  lemma RawQueriesBypassSession(st: State, answer: seq<(int, Row)>)
    ensures RawQueryEffect(st, answer).1 == st.(instances := RawQueryEffect(st, answer).1.instances)
    ensures RawQuerySingleEffect(st, answer).1 == st.(instances := RawQuerySingleEffect(st, answer).1.instances)
    ensures st.attached && answer == [] ==> RawQueryEffect(st, answer).0 == Success([]) && RawQuerySingleEffect(st, answer).0 == Success(None)
    ensures st.attached && answer != [] ==> RawQuerySingleEffect(st, answer).0 == Success(Some(RawQueryEffect(st, answer).0.value[0]))
  {
  }

  /**
   * `update` answers true iff the entity's row exists; then the row holds
   * the entity's values and the id is evicted from the session, else
   * neither the table nor the session changes.
   */
  lemma UpdateOutcome(c: Config, st: State, e: Entity)
    requires Valid(c, st) && st.attached
    ensures var (r, t) := UpdateEffect(c, st, e);
            r == Success(e.id in st.store.rows) && t.statements.update == Some(SqlOf(c, UpdateStatement)) &&
            (r.value ==> t.store.rows == st.store.rows[e.id := e.values] && t.cache == Session.Removed(st.cache, e.id)) &&
            (!r.value ==> t.store == st.store && t.cache == st.cache)
  {
  }

  /**
   * `delete` answers true iff the entity's row exists; then the row is gone
   * and the id is evicted from the session, else neither changes.
   */
  lemma DeleteOutcome(c: Config, st: State, e: Entity)
    requires Valid(c, st) && st.attached
    ensures var (r, t) := DeleteEffect(c, st, e);
            r == Success(e.id in st.store.rows) && t.statements.delete == Some(SqlOf(c, DeleteStatement)) &&
            t.store.rows == st.store.rows - {e.id} &&
            (r.value ==> t.cache == Session.Removed(st.cache, e.id)) &&
            (!r.value ==> t.store == st.store && t.cache == st.cache)
  {
  }

  /** After a delete that answered true, loading the id finds nothing. */
  lemma DeletedIsNotLoaded(c: Config, st: State, e: Entity)
    requires Valid(c, st) && st.attached && DeleteEffect(c, st, e).0 == Success(true)
    ensures LoadByIdEffect(DeleteEffect(c, st, e).1, e.id).0 == Success(None)
  {
    DeleteOutcome(c, st, e);
  }

  /**
   * After an update that answered true, loading the id reads the updated
   * row into a new instance: the eviction keeps the stale one from being
   * answered.
   */
  lemma UpdatedIsReloaded(c: Config, st: State, e: Entity)
    requires Valid(c, st) && st.attached && UpdateEffect(c, st, e).0 == Success(true)
    ensures var t := UpdateEffect(c, st, e).1;
            LoadByIdEffect(t, e.id).0 == Success(Some(Entity(t.instances, e.id, e.values)))
  {
    UpdateOutcome(c, st, e);
  }

  // ---------------------------------------------------------------- the batch operations

  /**
   * `insertInTx` succeeds iff no entity has an id; the ids then are
   * consecutive, in iteration order, each holding its entity's values, and
   * the rows stored before are kept.
   */
  lemma {:induction false} InsertEachIds(c: Config, st: State, es: seq<Entity>)
    requires StoreValid(st.store)
    ensures var (r, t) := InsertEach(c, st, es);
            (r.Success? <==> forall i :: 0 <= i < |es| ==> es[i].id <= 0) &&
            (r.Failure? ==> r.error == OrmError(NotNew)) &&
            (r.Success? ==>
               |r.value| == |es| && t.cache == st.cache && StoreValid(t.store) &&
               t.store.nextRowId == st.store.nextRowId + |es| &&
               (forall k :: k in st.store.rows ==> k in t.store.rows && t.store.rows[k] == st.store.rows[k]) &&
               forall i :: 0 <= i < |es| ==> r.value[i] == st.store.nextRowId + i && r.value[i] in t.store.rows &&
                                             t.store.rows[r.value[i]] == es[i].values)
    decreases |es|
  {
    if es != [] {
      if es[0].id <= 0 {
        var first := InsertOne(c, st, es[0]);
        InsertEachIds(c, first.1, es[1..]);
        assert forall i :: 0 <= i < |es| - 1 ==> es[1..][i] == es[i + 1];
      } else {
        assert !(forall i :: 0 <= i < |es| ==> es[i].id <= 0);
      }
    }
  }

  /** The ids of some entities. */
  function IdsOf(es: seq<Entity>): set<int> {
    set i | 0 <= i < |es| :: es[i].id
  }

  lemma IdsOfSplit(es: seq<Entity>)
    requires es != []
    ensures IdsOf(es) == {es[0].id} + IdsOf(es[1..])
  {
    forall id | id in IdsOf(es)
      ensures id in {es[0].id} + IdsOf(es[1..])
    {
      var i :| 0 <= i < |es| && es[i].id == id;
      if i > 0 {
        assert es[1..][i - 1] == es[i];
      }
    }
    forall id | id in IdsOf(es[1..])
      ensures id in IdsOf(es)
    {
      var i :| 0 <= i < |es[1..]| && es[1..][i].id == id;
      assert es[i + 1] == es[1..][i];
    }
  }

  /** Evicting one id, then a set of ids, is evicting their union. */
  lemma EvictTwice(m: Session.Entries<Entity>, keys: set<int>, id: int, rest: set<int>)
    ensures Session.Removed(m, id) - (rest * keys) == m - (({id} + rest) * keys) <== id in keys
    ensures m - (rest * keys) == m - (({id} + rest) * keys) <== id !in keys
  {
  }

  /** `updateInTx` evicts exactly the listed ids whose row exists, and keeps the set of rows. */
  lemma {:induction false} UpdateEachEvicts(c: Config, st: State, es: seq<Entity>)
    ensures UpdateEach(c, st, es).cache == st.cache - (IdsOf(es) * st.store.rows.Keys)
    ensures UpdateEach(c, st, es).store.rows.Keys == st.store.rows.Keys
    decreases |es|
  {
    if es == [] {
      assert st.cache - {} == st.cache;
    } else {
      var next := UpdateOne(c, st, es[0]).1;
      UpdateEachEvicts(c, next, es[1..]);
      assert next.store.rows.Keys == st.store.rows.Keys;
      IdsOfSplit(es);
      EvictTwice(st.cache, st.store.rows.Keys, es[0].id, IdsOf(es[1..]));
    }
  }

  /** `deleteInTx` removes every listed entity's row, and evicts exactly the listed ids whose row existed. */
  lemma {:induction false} DeleteEachEvicts(c: Config, st: State, es: seq<Entity>)
    ensures DeleteEach(c, st, es).cache == st.cache - (IdsOf(es) * st.store.rows.Keys)
    ensures DeleteEach(c, st, es).store.rows == st.store.rows - IdsOf(es)
    decreases |es|
  {
    if es == [] {
      assert st.cache - {} == st.cache;
      assert st.store.rows - {} == st.store.rows;
    } else {
      var next := DeleteOne(c, st, es[0]).1;
      DeleteEachEvicts(c, next, es[1..]);
      IdsOfSplit(es);
      var id, rest := es[0].id, IdsOf(es[1..]);
      assert next.store.rows.Keys == st.store.rows.Keys - {id};
      assert rest * next.store.rows.Keys == rest * st.store.rows.Keys - {id};
      EvictTwice(st.cache, st.store.rows.Keys, id, rest);
      if id !in st.store.rows {
        assert rest * next.store.rows.Keys == rest * st.store.rows.Keys;
      } else {
        assert Session.Removed(st.cache, id) - (rest * next.store.rows.Keys) == Session.Removed(st.cache, id) - (rest * st.store.rows.Keys);
      }
    }
  }

  /** `deleteById` removes every listed row, and evicts exactly the listed ids whose row existed. */
  lemma {:induction false} DeleteByIdEachEvicts(c: Config, st: State, ids: seq<int>)
    ensures DeleteByIdEach(c, st, ids).cache == st.cache - ((set id | id in ids) * st.store.rows.Keys)
    ensures DeleteByIdEach(c, st, ids).store.rows == st.store.rows - set id | id in ids
    decreases |ids|
  {
    if ids == [] {
      assert st.cache - {} == st.cache;
      assert st.store.rows - {} == st.store.rows;
    } else {
      var next := DeleteByIdOne(c, st, ids[0]).1;
      DeleteByIdEachEvicts(c, next, ids[1..]);
      var id, rest := ids[0], set x | x in ids[1..];
      assert (set x | x in ids) == {id} + rest;
      assert next.store.rows.Keys == st.store.rows.Keys - {id};
      EvictTwice(st.cache, st.store.rows.Keys, id, rest);
      if id !in st.store.rows {
        assert rest * next.store.rows.Keys == rest * st.store.rows.Keys;
      } else {
        assert Session.Removed(st.cache, id) - (rest * next.store.rows.Keys) == Session.Removed(st.cache, id) - (rest * st.store.rows.Keys);
      }
    }
  }

  // ---------------------------------------------------------------- the by-id delete

  /**
   * As written, a by-id delete before any entity delete throws: the
   * statement it executes has never been compiled. The row stays.
   */
  lemma DeleteByIdAsWrittenThrows(c: Config, st: State, id: int)
    requires st.statements.delete.None?
    ensures DeleteByIdOneAsWritten(c, st, id).0 == Failure(NullPointer)
    ensures DeleteByIdOneAsWritten(c, st, id).1.store == st.store
    ensures DeleteByIdOneAsWritten(c, st, id).1.cache == st.cache
  {
  }

  /** A table holding row 1, with nothing compiled yet: as written, `deleteById(1)` throws and the row stays. */
  lemma DeleteByIdFindingExample(c: Config)
    ensures var st := State(true, Store(map[1 := []], 2), map[], NoStatements, 0);
            DeleteByIdOneAsWritten(c, st, 1).0 == Failure(NullPointer) &&
            1 in DeleteByIdOneAsWritten(c, st, 1).1.store.rows &&
            DeleteByIdOne(c, st, 1).0 && 1 !in DeleteByIdOne(c, st, 1).1.store.rows
  {
  }

  /** Once an entity delete has compiled its statement, the written code behaves as intended. */
  lemma DeleteByIdAsWrittenAgreesOnceCompiled(c: Config, st: State, id: int)
    requires st.statements.delete.Some?
    ensures DeleteByIdOneAsWritten(c, st, id) == (Success(DeleteByIdOne(c, st, id).0), DeleteByIdOne(c, st, id).1)
  {
  }

  /**
   * As written, deleting by id on a session that never deleted an entity
   * throws at the first id and changes neither rows nor cache; once the
   * entity delete is compiled, the as-written loop is the intended one.
   */
  lemma {:induction false} DeleteByIdEachAsWrittenOutcome(c: Config, st: State, ids: seq<int>)
    ensures st.statements.delete.None? && ids != [] ==>
              && DeleteByIdEachAsWritten(c, st, ids).0 == Failure(NullPointer)
              && DeleteByIdEachAsWritten(c, st, ids).1.store == st.store
              && DeleteByIdEachAsWritten(c, st, ids).1.cache == st.cache
    ensures st.statements.delete.Some? ==>
              DeleteByIdEachAsWritten(c, st, ids) == (Success(|ids|), DeleteByIdEach(c, st, ids))
    decreases |ids|
  {
    if ids != [] {
      if st.statements.delete.None? {
        DeleteByIdAsWrittenThrows(c, st, ids[0]);
      } else {
        DeleteByIdAsWrittenAgreesOnceCompiled(c, st, ids[0]);
        var next := DeleteByIdOne(c, st, ids[0]).1;
        assert Slot(next.statements, DeleteStatement) == Slot(st.statements, DeleteStatement);
        DeleteByIdEachAsWrittenOutcome(c, next, ids[1..]);
      }
    }
  }

  /**
   * The intended by-id delete compiles `DELETE FROM <table> WHERE
   * <table>.'<id>'=?` once, answers true iff the row exists, removes it, and
   * evicts the id exactly when it answers true.
   */
  lemma DeleteByIdOutcome(c: Config, st: State, id: int)
    requires Valid(c, st)
    ensures var (r, t) := DeleteByIdOne(c, st, id);
            (r <==> id in st.store.rows) &&
            t.statements.deleteById == Some(SqlText.DeleteWhere(c.tableName, [c.idColumn])) &&
            t.store.rows == st.store.rows - {id} &&
            t.cache == (if r then Session.Removed(st.cache, id) else st.cache)
  {
  }

  // ---------------------------------------------------------------- any sequence of operations

  /** The public operations of a model, with their arguments. */
  datatype Operation =
    | LoadByIdOp(id: int)
    | RawQueryOp(answer: seq<(int, Row)>)
    | RawQuerySingleOp(answer: seq<(int, Row)>)
    | InsertOp(entity: Entity)
    | InsertAllOp(entities: seq<Entity>)
    | UpdateOp(entity: Entity)
    | UpdateWithOp(entity: Entity)
    | UpdateAllOp(entities: seq<Entity>)
    | DeleteOp(entity: Entity)
    | DeleteAllOp(entities: seq<Entity>)
    | DeleteByIdOp(ids: seq<int>)

  /** The state an operation leaves behind. */
  function Apply(c: Config, st: State, op: Operation): State {
    match op
    case LoadByIdOp(id) => LoadByIdEffect(st, id).1
    case RawQueryOp(answer) => RawQueryEffect(st, answer).1
    case RawQuerySingleOp(answer) => RawQuerySingleEffect(st, answer).1
    case InsertOp(e) => InsertEffect(c, st, e).1
    case InsertAllOp(es) => InsertAllEffect(c, st, es).1
    case UpdateOp(e) => UpdateEffect(c, st, e).1
    case UpdateWithOp(e) => UpdateOne(c, st, e).1
    case UpdateAllOp(es) => UpdateAllEffect(c, st, es).1
    case DeleteOp(e) => DeleteEffect(c, st, e).1
    case DeleteAllOp(es) => DeleteAllEffect(c, st, es).1
    case DeleteByIdOp(ids) => DeleteByIdEffect(c, st, ids).1
  }

  function Run(c: Config, st: State, ops: seq<Operation>): State
    decreases |ops|
  {
    if ops == [] then st else Run(c, Apply(c, st, ops[0]), ops[1..])
  }

  lemma CompileReuses(c: Config, s: Statements, k: StatementKind)
    ensures Reused(s, Compile(c, s, k))
  {
  }

  lemma EvolvesTransitive(c: Config, a: State, b: State, d: State)
    requires Evolves(c, a, b) && Evolves(c, b, d)
    ensures Evolves(c, a, d)
  {
  }

  lemma InsertOneEvolves(c: Config, st: State, e: Entity)
    ensures Evolves(c, st, InsertOne(c, st, e).1)
  {
    CompileReuses(c, st.statements, InsertStatement);
    if Valid(c, st) {
      CompilePrepares(c, st.statements, InsertStatement);
    }
  }

  lemma UpdateOneEvolves(c: Config, st: State, e: Entity)
    ensures Evolves(c, st, UpdateOne(c, st, e).1)
  {
    CompileReuses(c, st.statements, UpdateStatement);
    if Valid(c, st) {
      CompilePrepares(c, st.statements, UpdateStatement);
    }
  }

  lemma DeleteOneEvolves(c: Config, st: State, e: Entity)
    ensures Evolves(c, st, DeleteOne(c, st, e).1)
  {
    CompileReuses(c, st.statements, DeleteStatement);
    if Valid(c, st) {
      CompilePrepares(c, st.statements, DeleteStatement);
    }
  }

  lemma DeleteByIdOneEvolves(c: Config, st: State, id: int)
    ensures Evolves(c, st, DeleteByIdOne(c, st, id).1)
  {
    CompileReuses(c, st.statements, DeleteByIdStatement);
    if Valid(c, st) {
      CompilePrepares(c, st.statements, DeleteByIdStatement);
    }
  }

  lemma {:induction false} InsertEachEvolves(c: Config, st: State, es: seq<Entity>)
    ensures Evolves(c, st, InsertEach(c, st, es).1)
    decreases |es|
  {
    if es != [] {
      var first := InsertOne(c, st, es[0]);
      InsertOneEvolves(c, st, es[0]);
      if first.0.Success? {
        InsertEachEvolves(c, first.1, es[1..]);
        EvolvesTransitive(c, st, first.1, InsertEach(c, first.1, es[1..]).1);
      }
    }
  }

  lemma {:induction false} UpdateEachEvolves(c: Config, st: State, es: seq<Entity>)
    ensures Evolves(c, st, UpdateEach(c, st, es))
    decreases |es|
  {
    if es != [] {
      var next := UpdateOne(c, st, es[0]).1;
      UpdateOneEvolves(c, st, es[0]);
      UpdateEachEvolves(c, next, es[1..]);
      EvolvesTransitive(c, st, next, UpdateEach(c, next, es[1..]));
    }
  }

  lemma {:induction false} DeleteEachEvolves(c: Config, st: State, es: seq<Entity>)
    ensures Evolves(c, st, DeleteEach(c, st, es))
    decreases |es|
  {
    if es != [] {
      var next := DeleteOne(c, st, es[0]).1;
      DeleteOneEvolves(c, st, es[0]);
      DeleteEachEvolves(c, next, es[1..]);
      EvolvesTransitive(c, st, next, DeleteEach(c, next, es[1..]));
    }
  }

  lemma {:induction false} DeleteByIdEachEvolves(c: Config, st: State, ids: seq<int>)
    ensures Evolves(c, st, DeleteByIdEach(c, st, ids))
    decreases |ids|
  {
    if ids != [] {
      var next := DeleteByIdOne(c, st, ids[0]).1;
      DeleteByIdOneEvolves(c, st, ids[0]);
      DeleteByIdEachEvolves(c, next, ids[1..]);
      EvolvesTransitive(c, st, next, DeleteByIdEach(c, next, ids[1..]));
    }
  }

  /** Every operation keeps the invariant, reuses what is compiled, and keeps future instances new. */
  lemma OperationEvolves(c: Config, st: State, op: Operation)
    ensures Evolves(c, st, Apply(c, st, op))
  {
    match op
    case InsertOp(e) => if st.attached { InsertOneEvolves(c, st, e); }
    case InsertAllOp(es) => if st.attached { InsertEachEvolves(c, st, es); }
    case UpdateOp(e) => if st.attached { UpdateOneEvolves(c, st, e); }
    case UpdateWithOp(e) => UpdateOneEvolves(c, st, e);
    case UpdateAllOp(es) => if st.attached { UpdateEachEvolves(c, st, es); }
    case DeleteOp(e) => if st.attached { DeleteOneEvolves(c, st, e); }
    case DeleteAllOp(es) => if st.attached { DeleteEachEvolves(c, st, es); }
    case DeleteByIdOp(ids) => if st.attached { DeleteByIdEachEvolves(c, st, ids); }
    case _ =>
  }

  /**
   * Whatever operations run, each statement is compiled at most once and
   * then reused: no kind appears twice in the compile log, and a statement
   * compiled before is the one still held after.
   */
  lemma {:induction false} StatementsCompiledOnce(c: Config, st: State, ops: seq<Operation>)
    requires Valid(c, st)
    ensures Valid(c, Run(c, st, ops)) && Reused(st.statements, Run(c, st, ops).statements)
    ensures forall i, j :: 0 <= i < j < |Run(c, st, ops).statements.compiled| ==>
              Run(c, st, ops).statements.compiled[i] != Run(c, st, ops).statements.compiled[j]
    decreases |ops|
  {
    if ops != [] {
      var next := Apply(c, st, ops[0]);
      OperationEvolves(c, st, ops[0]);
      StatementsCompiledOnce(c, next, ops[1..]);
    }
  }

  // ---------------------------------------------------------------- the model object

  class Model {
    const config: Config
    const idSelection: string
    const session: Session.Session<Entity>
    var attached: bool
    var store: Store
    var statements: Statements
    var instances: nat

    function Current(): State
      reads this, session
    {
      State(attached, store, session.entries, statements, instances)
    }

    ghost predicate Invariant()
      reads this, session
    {
      Valid(config, Current())
    }

    constructor (config: Config)
      ensures this.config == config && idSelection == config.idColumn + "=?"
      ensures Current() == State(false, Store(map[], 1), map[], NoStatements, 0) && Invariant()
    {
      this.config := config;
      idSelection := config.idColumn + "=?";
      session := new Session.Session();
      attached, store, statements, instances := false, Store(map[], 1), NoStatements, 0;
    }

    /** `attach`: the helper, and so the database, the model works on from now on. */
    method Attach(database: Store)
      modifies this
      ensures Current() == old(Current()).(attached := true, store := database)
      ensures old(Invariant()) && StoreValid(database) ==> Invariant()
    {
      attached, store := true, database;
    }

    /** `isVersionEnabled`. */
    method IsVersionEnabled() returns (r: bool)
      ensures r == VersionEnabled(config)
    {
      r := config.versionColumn != None;
    }

    /** `newInstance` followed by `readCursor` on a cursor positioned on `row`. */
    method Read(row: (int, Row)) returns (e: Entity)
      modifies this
      ensures e == Entity(old(instances), row.0, row.1)
      ensures Current() == old(Current()).(instances := old(instances) + 1)
    {
      e := Entity(instances, row.0, row.1);
      instances := instances + 1;
    }

    /** The `if (statement == null) statement = db.compileStatement(...)` guard of each statement. */
    method CompileIfNull(k: StatementKind)
      modifies this
      ensures Current() == old(Current()).(statements := Compile(config, old(statements), k))
    {
      if Slot(statements, k).None? {
        var sql;
        if k == DeleteByIdStatement {
          sql := InternalSqlUtils.CreateSqlDelete(config.tableName, config.idColumn, None);
        } else {
          sql := SqlOf(config, k);
        }
        var compiled := statements.compiled + [k];
        match k
        case InsertStatement => statements := statements.(insert := Some(sql), compiled := compiled);
        case UpdateStatement => statements := statements.(update := Some(sql), compiled := compiled);
        case DeleteStatement => statements := statements.(delete := Some(sql), compiled := compiled);
        case DeleteByIdStatement => statements := statements.(deleteById := Some(sql), compiled := compiled);
      }
    }

    // -------------------------------------------------------------- queries

    method RawQuerySingle(answer: seq<(int, Row)>) returns (r: Result<Option<Entity>>)
      modifies this
      ensures (r, Current()) == RawQuerySingleEffect(old(Current()), answer)
    {
      if !attached {
        return Failure(IllegalState(NotAttached));
      }
      if answer != [] {
        var e := Read(answer[0]);
        return Success(Some(e));
      }
      return Success(None);
    }

    method RawQuery(answer: seq<(int, Row)>) returns (r: Result<seq<Entity>>)
      modifies this
      ensures (r, Current()) == RawQueryEffect(old(Current()), answer)
    {
      if !attached {
        return Failure(IllegalState(NotAttached));
      }
      var results: seq<Entity> := [];
      var i := 0;
      while i < |answer|
        invariant 0 <= i <= |answer|
        invariant results == Instances(old(instances), answer[..i])
        invariant Current() == old(Current()).(instances := old(instances) + i)
      {
        var e := Read(answer[i]);
        results := results + [e];
        i := i + 1;
      }
      assert answer[..i] == answer;
      return Success(results);
    }

    method LoadById(id: int) returns (r: Result<Option<Entity>>)
      modifies this, session
      ensures (r, Current()) == LoadByIdEffect(old(Current()), id)
    {
      var entity := session.Get(id);
      if entity.Some? {
        return Success(entity);
      }
      if !attached {
        return Failure(IllegalState(NotAttached));
      }
      if id in store.rows {
        var e := Read((id, store.rows[id]));
        session.Put(id, e);
        return Success(Some(e));
      }
      return Success(None);
    }

    // -------------------------------------------------------------- insert

    method InsertInside(e: Entity) returns (r: Result<int>)
      modifies this
      ensures (r, Current()) == InsertOne(config, old(Current()), e)
    {
      if e.id > 0 {
        return Failure(OrmError(NotNew));
      }
      CompileIfNull(InsertStatement);
      var inserted := InsertRow(store, e.values);
      store := inserted.1;
      return Success(inserted.0);
    }

    /** `insert` and `insertInTx` of one entity. */
    method Insert(e: Entity) returns (r: Result<int>)
      modifies this
      ensures (r, Current()) == InsertEffect(config, old(Current()), e)
    {
      if !attached {
        return Failure(IllegalState(NotAttached));
      }
      r := InsertInside(e);
    }

    /** `insertInTx` of several entities: the ids in iteration order. */
    method InsertAll(es: seq<Entity>) returns (r: Result<seq<int>>)
      modifies this
      ensures (r, Current()) == InsertAllEffect(config, old(Current()), es)
    {
      if !attached {
        return Failure(IllegalState(NotAttached));
      }
      var ids: seq<int> := [];
      var i := 0;
      PrefixedNone(InsertEach(config, Current(), es));
      assert es[i..] == es;
      while i < |es|
        invariant 0 <= i <= |es|
        invariant InsertEach(config, old(Current()), es) == Prefixed(ids, InsertEach(config, Current(), es[i..]))
      {
        assert es[i..][1..] == es[i + 1..];
        ghost var before := Current();
        var id := InsertInside(es[i]);
        if id.Failure? {
          return Failure(id.error);
        }
        PrefixedTwice(ids, id.value, InsertEach(config, Current(), es[i + 1..]));
        ids := ids + [id.value];
        i := i + 1;
      }
      assert ids + [] == ids;
      return Success(ids);
    }

    // -------------------------------------------------------------- update

    method UpdateInside(e: Entity) returns (updated: bool)
      modifies this, session
      ensures (updated, Current()) == UpdateOne(config, old(Current()), e)
    {
      CompileIfNull(UpdateStatement);
      var execution := UpdateRow(store, e.id, e.values);
      store := execution.1;
      if execution.0 == 1 {
        session.Remove(e.id);
        return true;
      }
      return false;
    }

    /** `update` and `updateInTx(entity)`. */
    method Update(e: Entity) returns (r: Result<bool>)
      modifies this, session
      ensures (r, Current()) == UpdateEffect(config, old(Current()), e)
    {
      if !attached {
        return Failure(IllegalState(NotAttached));
      }
      var updated := UpdateInside(e);
      return Success(updated);
    }

    /** `updateInTx(db, entity)`: the caller hands in the database, so no helper is needed. */
    method UpdateWith(e: Entity) returns (updated: bool)
      modifies this, session
      ensures (updated, Current()) == UpdateOne(config, old(Current()), e)
    {
      updated := UpdateInside(e);
    }

    /** `updateInTx` of several entities: the number iterated, whatever each answered. */
    method UpdateAll(es: seq<Entity>) returns (r: Result<nat>)
      modifies this, session
      ensures (r, Current()) == UpdateAllEffect(config, old(Current()), es)
    {
      if !attached {
        return Failure(IllegalState(NotAttached));
      }
      var count := 0;
      while count < |es|
        invariant 0 <= count <= |es|
        invariant UpdateEach(config, old(Current()), es) == UpdateEach(config, Current(), es[count..])
      {
        assert es[count..][1..] == es[count + 1..];
        var _ := UpdateInside(es[count]);
        count := count + 1;
      }
      return Success(count);
    }

    // -------------------------------------------------------------- delete

    method DeleteInside(e: Entity) returns (deleted: bool)
      modifies this, session
      ensures (deleted, Current()) == DeleteOne(config, old(Current()), e)
    {
      CompileIfNull(DeleteStatement);
      var execution := DeleteRow(store, e.id);
      store := execution.1;
      if execution.0 == 1 {
        session.Remove(e.id);
        return true;
      }
      return false;
    }

    /** `delete` and `deleteInTx(entity)`. */
    method Delete(e: Entity) returns (r: Result<bool>)
      modifies this, session
      ensures (r, Current()) == DeleteEffect(config, old(Current()), e)
    {
      if !attached {
        return Failure(IllegalState(NotAttached));
      }
      var deleted := DeleteInside(e);
      return Success(deleted);
    }

    /** `deleteInTx` of several entities: the number iterated, whatever each answered. */
    method DeleteAll(es: seq<Entity>) returns (r: Result<nat>)
      modifies this, session
      ensures (r, Current()) == DeleteAllEffect(config, old(Current()), es)
    {
      if !attached {
        return Failure(IllegalState(NotAttached));
      }
      var count := 0;
      while count < |es|
        invariant 0 <= count <= |es|
        invariant DeleteEach(config, old(Current()), es) == DeleteEach(config, Current(), es[count..])
      {
        assert es[count..][1..] == es[count + 1..];
        var _ := DeleteInside(es[count]);
        count := count + 1;
      }
      return Success(count);
    }

    /** `deleteInsideSynchronized(id)`, executing the by-id statement it compiles. */
    method DeleteByIdInside(id: int) returns (deleted: bool)
      modifies this, session
      ensures (deleted, Current()) == DeleteByIdOne(config, old(Current()), id)
    {
      CompileIfNull(DeleteByIdStatement);
      var execution := DeleteRow(store, id);
      store := execution.1;
      if execution.0 == 1 {
        session.Remove(id);
        return true;
      }
      return false;
    }

    /** `deleteById` and `deleteByIdInTx`: the number of ids iterated, whatever each answered. */
    method DeleteById(ids: seq<int>) returns (r: Result<nat>)
      modifies this, session
      ensures (r, Current()) == DeleteByIdEffect(config, old(Current()), ids)
    {
      if !attached {
        return Failure(IllegalState(NotAttached));
      }
      var count := 0;
      while count < |ids|
        invariant 0 <= count <= |ids|
        invariant DeleteByIdEach(config, old(Current()), ids) == DeleteByIdEach(config, Current(), ids[count..])
      {
        assert ids[count..][1..] == ids[count + 1..];
        var _ := DeleteByIdInside(ids[count]);
        count := count + 1;
      }
      return Success(count);
    }
  }

  lemma PrefixedNone(rest: (Result<seq<int>>, State))
    ensures Prefixed([], rest) == rest
  {
    if rest.0.Success? {
      assert [] + rest.0.value == rest.0.value;
    }
  }

  lemma PrefixedTwice(ids: seq<int>, id: int, rest: (Result<seq<int>>, State))
    ensures Prefixed(ids, Prefixed([id], rest)) == Prefixed(ids + [id], rest)
  {
    if rest.0.Success? {
      assert ids + ([id] + rest.0.value) == ids + [id] + rest.0.value;
    }
  }
}
