/** The notification service's alert writer: it turns an alert payload into one
    row of the `alerts` table, classifies every outcome as True or False, and
    manages the module-global connection pool (create with retries, clear on an
    operational error, close). PostgreSQL and the pool library are not modelled:
    each database step is an input saying whether it succeeds or which error it
    raises. */
module PostgresService {
  import opened Common
  import opened Json

  // ---------------------------------------------------------------------------
  // Payload to row
  // ---------------------------------------------------------------------------

  predicate EndsWith(s: string, suffix: string)
  {
    |suffix| <= |s| && s[|s| - |suffix|..] == suffix
  }

  /** A zero UTC offset followed by a redundant `Z`, as in
      `2025-07-02T13:57:51+00:00Z`; RFC 3339 section 5.6 allows either the
      offset or the `Z`, not both. */
  predicate HasOffsetAndZ(s: string)
  {
    EndsWith(s, "+00:00Z") || EndsWith(s, "-00:00Z")
  }

  /** The timestamp repair of `insert_alert`: drop the trailing `Z` of such a
      string, leave every other string alone. */
  function NormalizeTimestamp(s: string): (r: string)
    ensures HasOffsetAndZ(s) ==> r + "Z" == s
    ensures !HasOffsetAndZ(s) ==> r == s
  {
    if HasOffsetAndZ(s) then s[..|s| - 1] else s
  }

  /** Repairing twice is repairing once: the repaired text ends in `0`. */
  lemma NormalizeIsIdempotent(s: string)
    ensures !HasOffsetAndZ(NormalizeTimestamp(s))
    ensures NormalizeTimestamp(NormalizeTimestamp(s)) == NormalizeTimestamp(s)
  {
    if HasOffsetAndZ(s) {
      var r := NormalizeTimestamp(s);
      assert r[|r| - 1] == s[|s| - 2] == '0';
    }
  }

  /** The `client_ip` value bound to the INET column: `'N/A'`, `''` and
      `None` (absent or JSON null) become NULL, anything else passes through. */
  function ClientIpValue(v: Json): (c: Json)
    ensures c == JNull <==> v == JStr("N/A") || v == JStr("") || v == JNull
    ensures c != JNull ==> c == v
  {
    if v == JStr("N/A") || v == JStr("") || v == JNull then JNull else v
  }

  /** `payload.get(name, {})` used as a dict: an absent section reads as `{}`;
      a present value that is not a dict (JSON null included) has no `.get`,
      which raises. */
  function Section(p: map<string, Json>, name: string): (r: Option<map<string, Json>>)
    ensures name !in p ==> r == Some(map[])
    ensures name in p ==> (r.Some? <==> p[name].JObj?)
    ensures name in p && r.Some? ==> r.value == p[name].fields
  {
    if name !in p then Some(map[])
    else if p[name].JObj? then Some(p[name].fields)
    else None
  }

  /** One bound parameter of the INSERT: a plain value (`JNull` is NULL), the
      timestamp text handed to `datetime.fromisoformat`, or `json.dumps` of a value. */
  datatype Cell = Param(v: Json) | Stamp(text: string) | Dumped(v: Json)

  /** The column list of the INSERT, in order. */
  const Columns: seq<string> := [
    "alert_id", "correlation_id", "timestamp", "alert_name", "alert_type", "severity", "description",
    "source_service_name", "rule_id", "rule_name",
    "actor_type", "actor_id", "client_ip",
    "resource_type", "resource_id", "server_hostname", "action_observed",
    "analysis_rule_details", "triggered_by_details", "impacted_resource_details", "metadata", "raw_event_data"]

  /** The payload can be turned into a row: `timestamp` is present and a string
      that `fromisoformat` (the input `isoAccepts`) takes once repaired, and the
      three nested sections are dicts or absent. A missing `alert_id` is fine. */
  predicate RowBuildable(p: map<string, Json>, isoAccepts: string -> bool)
  {
    && "timestamp" in p && p["timestamp"].JStr?
    && isoAccepts(NormalizeTimestamp(p["timestamp"].s))
    && Section(p, "analysis_rule").Some?
    && Section(p, "triggered_by").Some?
    && Section(p, "impacted_resource").Some?
  }

  /** The 22 parameters of the INSERT, or None when building them raises
      (`KeyError` for a missing timestamp, `AttributeError` for a non-string
      timestamp or a non-dict section, `ValueError` from `fromisoformat`). */
  function BuildRow(p: map<string, Json>, isoAccepts: string -> bool): (r: Option<seq<Cell>>)
    ensures r.Some? <==> RowBuildable(p, isoAccepts)
    ensures r.Some? ==> |r.value| == |Columns|
    ensures r.Some? ==> r.value[2] == Stamp(NormalizeTimestamp(p["timestamp"].s))
  {
    if !("timestamp" in p && p["timestamp"].JStr?) then None
    else
      var stamp := NormalizeTimestamp(p["timestamp"].s);
      if !isoAccepts(stamp) then None
      else match (Section(p, "analysis_rule"), Section(p, "triggered_by"), Section(p, "impacted_resource"))
        case (Some(rule), Some(trig), Some(res)) =>
          Some([
            Param(Get(p, "alert_id")), Param(Get(p, "correlation_id")), Stamp(stamp),
            Param(Get(p, "alert_name")), Param(Get(p, "alert_type")), Param(Get(p, "severity")),
            Param(Get(p, "description")), Param(Get(p, "source_service_name")),
            Param(Get(rule, "rule_id")), Param(Get(rule, "rule_name")),
            Param(Get(trig, "actor_type")), Param(Get(trig, "actor_id")), Param(ClientIpValue(Get(trig, "client_ip"))),
            Param(Get(res, "resource_type")), Param(Get(res, "resource_id")), Param(Get(res, "server_hostname")),
            Param(Get(p, "action_observed")),
            Dumped(JObj(rule)), Dumped(JObj(trig)), Dumped(JObj(res)),
            Dumped(GetOr(p, "metadata", JObj(map[]))), Dumped(GetOr(p, "raw_event_data", JObj(map[])))])
        case _ => None
  }

  /** The JSON columns serialise the payload's three sections (`{}` for an
      absent one), the flattened columns are read from exactly those dicts, and
      the top-level columns from the payload itself. */
  lemma {:induction false} RowColumnsAgree(p: map<string, Json>, isoAccepts: string -> bool)
    requires BuildRow(p, isoAccepts).Some?
    ensures var row := BuildRow(p, isoAccepts).value;
      && row[17].Dumped? && row[17].v.JObj? && row[18].Dumped? && row[18].v.JObj?
      && row[19].Dumped? && row[19].v.JObj?
      && row[17] == Dumped(JObj(Section(p, "analysis_rule").value))
      && row[18] == Dumped(JObj(Section(p, "triggered_by").value))
      && row[19] == Dumped(JObj(Section(p, "impacted_resource").value))
      && row[8] == Param(Get(row[17].v.fields, "rule_id"))
      && row[9] == Param(Get(row[17].v.fields, "rule_name"))
      && row[10] == Param(Get(row[18].v.fields, "actor_type"))
      && row[11] == Param(Get(row[18].v.fields, "actor_id"))
      && row[12] == Param(ClientIpValue(Get(row[18].v.fields, "client_ip")))
      && row[13] == Param(Get(row[19].v.fields, "resource_type"))
      && row[14] == Param(Get(row[19].v.fields, "resource_id"))
      && row[15] == Param(Get(row[19].v.fields, "server_hostname"))
      && (forall i :: i in {0, 1, 3, 4, 5, 6, 7, 16} ==> row[i] == Param(Get(p, Columns[i])))
      && row[20] == Dumped(GetOr(p, "metadata", JObj(map[])))
      && row[21] == Dumped(GetOr(p, "raw_event_data", JObj(map[])))
  {
  }

  /** Absent sections read as `{}`: their columns are NULL and their JSON
      columns are the empty object. */
  lemma {:induction false} MissingSectionsAreEmpty(p: map<string, Json>, isoAccepts: string -> bool)
    requires RowBuildable(p, isoAccepts)
    requires "analysis_rule" !in p && "triggered_by" !in p && "impacted_resource" !in p
    ensures var row := BuildRow(p, isoAccepts).value;
      && row[17] == row[18] == row[19] == Dumped(JObj(map[]))
      && forall i :: 8 <= i < 16 ==> row[i] == Param(JNull)
  {
  }

  // ---------------------------------------------------------------------------
  // Outcomes and the pool
  // ---------------------------------------------------------------------------

  /** The exceptions the code tells apart. */
  datatype DbError = UniqueViolation | OperationalError | OtherError

  /** How one database step ends. */
  datatype DbStep = Succeeds | Fails(error: DbError)

  /** A coroutine either returns a boolean or lets an exception escape. */
  datatype Outcome = Returns(b: bool) | Raises

  /** Which way one `insert_alert` call goes. */
  datatype InsertPath =
    | NoPool                      // no pool: False before anything else
    | DbFailed(error: DbError)    // taking a connection, or executing and committing, raised
    | BadPayload                  // building the parameters raised
    | Committed(row: seq<Cell>)   // the row was inserted and committed

  /** Taking a connection comes first, then the parameters are built, then the
      INSERT is executed and committed. */
  function PathOf(hasPool: bool, p: map<string, Json>, isoAccepts: string -> bool, acquire: DbStep, execute: DbStep)
    : (path: InsertPath)
    ensures path == NoPool <==> !hasPool
    ensures path.Committed? <==> hasPool && acquire.Succeeds? && RowBuildable(p, isoAccepts) && execute.Succeeds?
    ensures path.Committed? ==> Some(path.row) == BuildRow(p, isoAccepts)
    ensures path == BadPayload <==> hasPool && acquire.Succeeds? && !RowBuildable(p, isoAccepts)
    ensures path.DbFailed? ==> path.error == (if acquire.Fails? then acquire.error else execute.error)
  {
    if !hasPool then NoPool
    else if acquire.Fails? then DbFailed(acquire.error)
    else match BuildRow(p, isoAccepts)
      case None => BadPayload
      case Some(row) => if execute.Fails? then DbFailed(execute.error) else Committed(row)
  }

  /** What the caller of `insert_alert` sees: True only after a commit, and
      False on every handled failure, a duplicate key included. The one escape
      is an operational error whose pool `close()` raises inside the handler. */
  function InsertResult(path: InsertPath, closeRaises: bool): (r: Outcome)
    ensures r == Returns(true) <==> path.Committed?
    ensures r == Raises <==> path == DbFailed(OperationalError) && closeRaises
    ensures path == DbFailed(UniqueViolation) ==> r == Returns(false)
  {
    match path
    case Committed(_) => Returns(true)
    case DbFailed(OperationalError) => if closeRaises then Raises else Returns(false)
    case _ => Returns(false)
  }

  /** A payload without `timestamp` is refused before any SQL runs, whatever
      the INSERT would have done. */
  lemma MissingTimestampReturnsFalse(p: map<string, Json>, isoAccepts: string -> bool, execute: DbStep, closeRaises: bool)
    requires "timestamp" !in p
    ensures PathOf(true, p, isoAccepts, Succeeds, execute) == BadPayload
    ensures InsertResult(PathOf(true, p, isoAccepts, Succeeds, execute), closeRaises) == Returns(false)
  {
  }

  /** The `CREATE INDEX IF NOT EXISTS` statements, in order. */
  const IndexNames: seq<string> := [
    "idx_alerts_timestamp", "idx_alerts_alert_type", "idx_alerts_severity", "idx_alerts_actor_id",
    "idx_alerts_server_hostname", "idx_alerts_rule_name", "idx_alerts_metadata_gin", "idx_alerts_raw_event_data_gin"]

  /** One index statement: whether it was executed and committed, and, when it
      failed, whether the `rollback()` in its `except` clause raised too (as it
      does once the connection is lost). */
  datatype IndexStep = IndexStep(run: DbStep, rollbackRaises: bool)

  /** A failed index statement whose rollback raises: that exception leaves the
      loop for the outer handlers of `_create_alerts_table`. */
  predicate Escapes(s: IndexStep)
  {
    s.run.Fails? && s.rollbackRaises
  }

  /** The indexes among the first `|steps|` whose statement committed. */
  function CreatedIndexes(steps: seq<IndexStep>): (s: set<string>)
    requires |steps| <= |IndexNames|
    ensures forall i :: 0 <= i < |steps| && steps[i].run.Succeeds? ==> IndexNames[i] in s
    ensures forall n :: n in s ==> exists i :: 0 <= i < |steps| && steps[i].run.Succeeds? && IndexNames[i] == n
  {
    set i | 0 <= i < |steps| && steps[i].run.Succeeds? :: IndexNames[i]
  }

  /** One more statement adds its index exactly when it commits. */
  lemma CreatedIndexesStep(steps: seq<IndexStep>, i: nat)
    requires i < |steps| <= |IndexNames|
    ensures CreatedIndexes(steps[..i + 1]) == CreatedIndexes(steps[..i]) + (if steps[i].run.Succeeds? then {IndexNames[i]} else {})
  {
    assert steps[..i + 1][..i] == steps[..i];
  }

  /** The index statement whose raising rollback ends the loop, if any. */
  function FirstEscape(steps: seq<IndexStep>): (k: Option<nat>)
    ensures k.Some? ==> k.value < |steps| && steps[k.value].run.Fails? && steps[k.value].rollbackRaises
    ensures k.Some? ==> forall j :: 0 <= j < k.value ==> !Escapes(steps[j])
    ensures k.None? <==> forall j :: 0 <= j < |steps| ==> !Escapes(steps[j])
  {
    if steps == [] then None
    else if Escapes(steps[0]) then Some(0)
    else match FirstEscape(steps[1..])
      case None => None
      case Some(k) => Some(k + 1)
  }

  /** A raising rollback with none before it is the first one. */
  lemma {:induction false} FirstEscapeIs(steps: seq<IndexStep>, i: nat)
    requires i < |steps| && Escapes(steps[i])
    requires forall j :: 0 <= j < i ==> !Escapes(steps[j])
    ensures FirstEscape(steps) == Some(i)
    decreases i
  {
    if i > 0 {
      FirstEscapeIs(steps[1..], i - 1);
    }
  }

  /** The index statements the loop gets through: all of them, or those
      before the one whose rollback raised. */
  function BeforeEscape(steps: seq<IndexStep>): (done: seq<IndexStep>)
    ensures done <= steps
    ensures forall j :: 0 <= j < |done| ==> !Escapes(done[j])
    ensures |done| < |steps| ==> Escapes(steps[|done|])
  {
    match FirstEscape(steps)
    case None => steps
    case Some(k) => steps[..k]
  }

  /** What `_create_alerts_table` meets once a pool exists: taking a
      connection, CREATE TABLE, the index statements in order, and whether the
      `rollback()` of the outer `except` clauses raises. */
  datatype TableSteps = TableSteps(acquire: DbStep, createTable: DbStep, indexSteps: seq<IndexStep>, rollbackRaises: bool)

  /** One statement per index in the list. */
  predicate Complete(t: TableSteps)
  {
    |t.indexSteps| == |IndexNames|
  }

  /** The connection is taken and CREATE TABLE commits. */
  predicate CreatesTable(t: TableSteps)
  {
    t.acquire.Succeeds? && t.createTable.Succeeds?
  }

  /** `_create_alerts_table` raises: the connection cannot be taken, or the
      outer handler's rollback raises after a failed CREATE TABLE or after an
      index rollback that raised. */
  predicate TableRaises(t: TableSteps)
  {
    t.acquire.Fails? || (t.rollbackRaises && (t.createTable.Fails? || FirstEscape(t.indexSteps).Some?))
  }

  /** The indexes one call of `_create_alerts_table` creates. */
  function TableIndexes(t: TableSteps): (s: set<string>)
    requires Complete(t)
  {
    if CreatesTable(t) then CreatedIndexes(BeforeEscape(t.indexSteps)) else {}
  }

  /** An index is created exactly when the table is, its own statement commits
      and no rollback before it raised. */
  lemma TableIndexesAre(t: TableSteps, i: nat)
    requires Complete(t) && i < |IndexNames|
    ensures IndexNames[i] in TableIndexes(t) <==>
      (CreatesTable(t) && t.indexSteps[i].run.Succeeds? && forall j :: 0 <= j < i ==> !Escapes(t.indexSteps[j]))
  {
  }

  /** `stop_after_attempt(5)`. */
  const MaxAttempts: nat := 5

  /** One tenacity attempt: `open()` of a fresh pool, then `_create_alerts_table`. */
  datatype Attempt = Attempt(open: DbStep, table: TableSteps)

  /** An attempt that raises nothing: the pool opens and the table step does
      not raise (it may still return False). */
  predicate Succeeded(a: Attempt)
  {
    a.open.Succeeds? && !TableRaises(a.table)
  }

  /** The first attempt that raises nothing. */
  function FirstSuccess(attempts: seq<Attempt>): (k: Option<nat>)
    ensures k.Some? ==> k.value < |attempts| && attempts[k.value].open.Succeeds? && !TableRaises(attempts[k.value].table)
    ensures k.Some? ==> forall j :: 0 <= j < k.value ==> !Succeeded(attempts[j])
    ensures k.None? <==> forall j :: 0 <= j < |attempts| ==> !Succeeded(attempts[j])
  {
    if attempts == [] then None
    else if Succeeded(attempts[0]) then Some(0)
    else match FirstSuccess(attempts[1..])
      case None => None
      case Some(k) => Some(k + 1)
  }

  /** The number of pools whose `open()` succeeded. */
  function Opens(attempts: seq<Attempt>): nat
  {
    if attempts == [] then 0
    else Opens(attempts[..|attempts| - 1]) + (if attempts[|attempts| - 1].open.Succeeds? then 1 else 0)
  }

  /** Some attempt reached `_create_alerts_table` and committed CREATE TABLE. */
  predicate AnyTable(attempts: seq<Attempt>)
  {
    exists j :: 0 <= j < |attempts| && attempts[j].open.Succeeds? && CreatesTable(attempts[j].table)
  }

  /** The indexes the attempts created between them. */
  function AttemptIndexes(attempts: seq<Attempt>): (s: set<string>)
    requires forall j :: 0 <= j < |attempts| ==> Complete(attempts[j].table)
  {
    if attempts == [] then {}
    else
      var a := attempts[|attempts| - 1];
      AttemptIndexes(attempts[..|attempts| - 1]) + (if a.open.Succeeds? then TableIndexes(a.table) else {})
  }

  /** One more attempt adds its own pool, table and indexes, and only when its
      pool opened. */
  lemma AttemptsStep(attempts: seq<Attempt>, i: nat)
    requires i < |attempts|
    requires forall j :: 0 <= j < |attempts| ==> Complete(attempts[j].table)
    ensures var a := attempts[i];
      && Opens(attempts[..i + 1]) == Opens(attempts[..i]) + (if a.open.Succeeds? then 1 else 0)
      && (AnyTable(attempts[..i + 1]) <==> AnyTable(attempts[..i]) || (a.open.Succeeds? && CreatesTable(a.table)))
      && AttemptIndexes(attempts[..i + 1])
        == AttemptIndexes(attempts[..i]) + (if a.open.Succeeds? then TableIndexes(a.table) else {})
  {
    assert attempts[..i + 1][..i] == attempts[..i];
    assert attempts[..i + 1][i] == attempts[i];
  }

  /** The module global `pg_connection_pool` and the database objects it reaches. */
  class AlertWriter {
    /** `pg_connection_pool` is not None. */
    var pool: bool
    /** Pools whose `open()` succeeded, and calls of a pool's `close()`. */
    var poolsOpened: nat
    var closeCalls: nat
    /** The `alerts` table exists, and which of its indexes exist. */
    var tableExists: bool
    var indexes: set<string>
    /** Rows committed to `alerts`, in order. */
    var rows: seq<seq<Cell>>

    /** Module load: no pool. */
    constructor ()
      ensures !pool && poolsOpened == 0 && closeCalls == 0
      ensures !tableExists && indexes == {} && rows == []
    {
      pool, poolsOpened, closeCalls := false, 0, 0;
      tableExists, indexes, rows := false, {}, [];
    }

    /** `insert_alert`. An operational error calls `close()` on the pool and
        then clears it; if `close()` raises, the exception leaves the function
        before the pool is cleared. */
    method InsertAlert(p: map<string, Json>, isoAccepts: string -> bool, acquire: DbStep, execute: DbStep, closeRaises: bool)
      returns (r: Outcome)
      modifies this`pool, this`closeCalls, this`rows
      ensures r == InsertResult(PathOf(old(pool), p, isoAccepts, acquire, execute), closeRaises)
      ensures var path := PathOf(old(pool), p, isoAccepts, acquire, execute);
        rows == old(rows) + (if path.Committed? then [path.row] else [])
      ensures PathOf(old(pool), p, isoAccepts, acquire, execute) == DbFailed(OperationalError) ==>
        closeCalls == old(closeCalls) + 1 && pool == closeRaises
      ensures PathOf(old(pool), p, isoAccepts, acquire, execute) != DbFailed(OperationalError) ==>
        closeCalls == old(closeCalls) && pool == old(pool)
    {
      var path := PathOf(pool, p, isoAccepts, acquire, execute);
      if !pool {
        return Returns(false);
      }
      if acquire.Fails? {
        r := Fail(acquire.error, closeRaises);
        return;
      }
      var row := BuildRow(p, isoAccepts);
      if row.None? {
        return Returns(false);
      }
      if execute.Fails? {
        r := Fail(execute.error, closeRaises);
        return;
      }
      rows := rows + [row.value];
      r := Returns(true);
    }

    /** The `except` clauses of `insert_alert` after a database error. */
    method Fail(error: DbError, closeRaises: bool) returns (r: Outcome)
      requires pool
      modifies this`pool, this`closeCalls
      ensures r == InsertResult(DbFailed(error), closeRaises)
      ensures error == OperationalError ==> closeCalls == old(closeCalls) + 1 && pool == closeRaises
      ensures error != OperationalError ==> closeCalls == old(closeCalls) && pool
    {
      if error == OperationalError {
        closeCalls := closeCalls + 1;
        if closeRaises {
          return Raises;
        }
        pool := false;
      }
      r := Returns(false);
    }

    /** `close_postgresql_pool`: the pool always ends cleared, whether or not
        its `close()` raises (the error is logged and swallowed); with no pool
        nothing is called. */
    method ClosePool(closeRaises: bool)
      modifies this`pool, this`closeCalls
      ensures !pool
      ensures closeCalls == old(closeCalls) + (if old(pool) then 1 else 0)
    {
      if pool {
        closeCalls := closeCalls + 1;
      }
      pool := false;
    }

    /** `_create_alerts_table`. Taking a connection is outside the `try` and
        its error escapes. A failed CREATE TABLE goes to the outer handlers,
        which roll back and give False. A failed index statement is rolled back
        and the loop goes on; when that rollback raises, the exception reaches
        the outer handlers, so the committed table stays and the indexes stop
        there. A rollback raising in the outer handlers escapes. */
    method CreateAlertsTable(t: TableSteps) returns (r: Outcome)
      requires Complete(t)
      modifies this`tableExists, this`indexes
      ensures r == Returns(true) <==> pool && CreatesTable(t) && FirstEscape(t.indexSteps).None?
      ensures r == Raises <==> pool && TableRaises(t)
      ensures tableExists == (old(tableExists) || (pool && CreatesTable(t)))
      ensures indexes == old(indexes) + (if pool then TableIndexes(t) else {})
    {
      if !pool {
        return Returns(false);
      }
      if t.acquire.Fails? {
        return Raises;
      }
      if t.createTable.Fails? {
        r := if t.rollbackRaises then Raises else Returns(false);
        return;
      }
      tableExists := true;
      var escaped := CreateIndexes(t.indexSteps);
      r := if !escaped then Returns(true) else if t.rollbackRaises then Raises else Returns(false);
    }

    /** The index loop of `_create_alerts_table`: each failed statement is
        rolled back and the loop goes on, until a rollback raises. */
    method CreateIndexes(steps: seq<IndexStep>) returns (escaped: bool)
      requires |steps| <= |IndexNames|
      modifies this`indexes
      ensures escaped <==> FirstEscape(steps).Some?
      ensures indexes == old(indexes) + CreatedIndexes(BeforeEscape(steps))
    {
      var i := 0;
      while i < |steps|
        invariant 0 <= i <= |steps|
        invariant forall j :: 0 <= j < i ==> !Escapes(steps[j])
        invariant indexes == old(indexes) + CreatedIndexes(steps[..i])
      {
        CreatedIndexesStep(steps, i);
        if steps[i].run.Succeeds? {
          indexes := indexes + {IndexNames[i]};
        } else if steps[i].rollbackRaises {
          FirstEscapeIs(steps, i);
          return true;
        }
        i := i + 1;
      }
      assert steps[..i] == steps;
      escaped := false;
    }

    /** `initialize_postgresql_pool`: True at once when a pool exists;
        otherwise up to five attempts, each assigning a fresh pool before
        opening it. The first attempt that raises nothing returns True whatever
        the table step returned; when all five raise, the pool is cleared and
        the last exception is re-raised. A table or index an attempt committed
        before raising stays. */
    method InitializePool(attempts: seq<Attempt>) returns (r: Outcome)
      requires |attempts| == MaxAttempts
      requires forall k :: 0 <= k < |attempts| ==> Complete(attempts[k].table)
      modifies this`pool, this`poolsOpened, this`tableExists, this`indexes
      ensures old(pool) ==> (r == Returns(true) && pool && poolsOpened == old(poolsOpened)
        && tableExists == old(tableExists) && indexes == old(indexes))
      ensures !old(pool) && FirstSuccess(attempts).None? ==> (r == Raises && !pool
        && poolsOpened == old(poolsOpened) + Opens(attempts)
        && tableExists == (old(tableExists) || AnyTable(attempts))
        && indexes == old(indexes) + AttemptIndexes(attempts))
      ensures !old(pool) && FirstSuccess(attempts).Some? ==>
        (var tried := attempts[..FirstSuccess(attempts).value + 1];
        && r == Returns(true) && pool
        && poolsOpened == old(poolsOpened) + Opens(tried)
        && tableExists == (old(tableExists) || AnyTable(tried))
        && indexes == old(indexes) + AttemptIndexes(tried))
    {
      if pool {
        return Returns(true);
      }
      var i := 0;
      while i < MaxAttempts
        invariant 0 <= i <= MaxAttempts
        invariant forall j :: 0 <= j < i ==> !Succeeded(attempts[j])
        invariant poolsOpened == old(poolsOpened) + Opens(attempts[..i])
        invariant tableExists == (old(tableExists) || AnyTable(attempts[..i]))
        invariant indexes == old(indexes) + AttemptIndexes(attempts[..i])
      {
        var a := attempts[i];
        AttemptsStep(attempts, i);
        pool := true;
        if a.open.Succeeds? {
          poolsOpened := poolsOpened + 1;
          var t := CreateAlertsTable(a.table);
          if t != Raises {
            FirstSuccessIs(attempts, i);
            return Returns(true);
          }
        }
        i := i + 1;
      }
      assert attempts[..i] == attempts;
      pool := false;
      r := Raises;
    }
  }

  /** When the connection is lost after the pool opened, CREATE TABLE fails and
      so does its rollback: the attempt raises, and five such attempts make
      `initialize_postgresql_pool` re-raise with no table created. */
  lemma LostConnectionIsRetried()
    ensures var lost := Attempt(Succeeds, TableSteps(Succeeds, Fails(OperationalError),
      seq(|IndexNames|, _ => IndexStep(Succeeds, false)), true));
      && !Succeeded(lost)
      && FirstSuccess([lost, lost, lost, lost, lost]).None?
      && !AnyTable([lost, lost, lost, lost, lost])
  {
  }

  /** A lost connection after CREATE TABLE committed: the first index fails and
      its rollback raises, so the attempt raises (it is retried) although the
      table exists and the outer rollback would have given False. */
  lemma EscapeAfterCommit(t: TableSteps)
    requires Complete(t) && CreatesTable(t)
    requires t.indexSteps[0] == IndexStep(Fails(OperationalError), true)
    ensures FirstEscape(t.indexSteps) == Some(0)
    ensures TableIndexes(t) == {}
    ensures TableRaises(t) <==> t.rollbackRaises
  {
    FirstEscapeIs(t.indexSteps, 0);
  }

  /** The first success is the first index where an attempt succeeds. */
  lemma {:induction false} FirstSuccessIs(attempts: seq<Attempt>, i: nat)
    requires i < |attempts| && Succeeded(attempts[i])
    requires forall j :: 0 <= j < i ==> !Succeeded(attempts[j])
    ensures FirstSuccess(attempts) == Some(i)
    decreases i
  {
    if i > 0 {
      FirstSuccessIs(attempts[1..], i - 1);
    }
  }
}
