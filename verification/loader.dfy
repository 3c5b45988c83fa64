/** loader.py: `PostgreSQLDataLoader`.
    The database is not modelled by its tables but by what it has been told:
    `pending` holds the statements of the open, uncommitted transaction and
    `committed` every statement whose transaction was committed, in order.
    What the driver or the server answers to a connection attempt or a
    statement is a parameter (`reachable`, `ExecOutcome`). */
module Loader {
  import opened Wrappers
  import opened Values
  import Transformer

  /** The columns of `projects`, in insertion order. */
  const PROJECT_COLUMNS: seq<string> := [
    "id", "name", "owner_login", "description", "stargazer_count", "fork_count",
    "primary_language", "created_at", "pushed_at", "license_name",
    "is_archived", "is_disabled", "is_fork", "url", "last_extracted_at"
  ]
  const TOPIC_COLUMNS: seq<string> := ["project_id", "topic"]
  const BUILD_CONFIG_COLUMNS: seq<string> :=
    ["project_id", "file_path", "config_type", "parsed_content", "raw_content"]
  const DEPENDENCY_COLUMNS: seq<string> :=
    ["project_id", "package_name", "version", "dependency_type"]

  /** The tables `create_tables` creates, in order. */
  const TABLES: seq<string> :=
    ["projects", "project_topics", "project_build_configs", "project_dependencies"]

  // ---------------------------------------------------------------- statements

  datatype ConflictAction = DoNothing | DoUpdate(columns: seq<string>)

  /** A `CREATE TABLE IF NOT EXISTS`, or an `INSERT ... VALUES %s ON CONFLICT (...)`
      sent through `execute_values` with its rows. */
  datatype Statement =
    | CreateTable(table: string)
    | Upsert(table: string, columns: seq<string>, conflict: seq<string>,
             action: ConflictAction, rows: seq<seq<Value>>)

  predicate Distinct(s: seq<string>) {
    forall i, j :: 0 <= i < j < |s| ==> s[i] != s[j]
  }

  /** An upsert the server can accept and that does what the loader means:
      at least one row, every row as wide as the column list, the conflict key
      among the columns, and on conflict every other column, and only those,
      overwritten. */
  predicate WellFormed(st: Statement) {
    match st
    case CreateTable(_) => true
    case Upsert(_, columns, conflict, action, rows) =>
      rows != [] &&
      (forall k :: 0 <= k < |rows| ==> |rows[k]| == |columns|) &&
      (forall c :: c in conflict ==> c in columns) &&
      (action.DoUpdate? ==>
        (forall c :: c in action.columns ==> c in columns && c !in conflict) &&
        (forall c :: c in columns && c !in conflict ==> c in action.columns))
  }

  /** `[c for c in columns if c not in excluded]`. */
  function Without(columns: seq<string>, excluded: seq<string>): (r: seq<string>)
    ensures forall c :: c in r <==> c in columns && c !in excluded
    ensures |r| <= |columns|
  {
    if columns == [] then []
    else if columns[0] in excluded then Without(columns[1..], excluded)
    else [columns[0]] + Without(columns[1..], excluded)
  }

  /** Filtering a concatenation filters each part: `Without` keeps column order. */
  lemma {:induction false} WithoutAppend(a: seq<string>, b: seq<string>, excluded: seq<string>)
    ensures Without(a + b, excluded) == Without(a, excluded) + Without(b, excluded)
    decreases |a|
  {
    if a != [] {
      assert (a + b)[0] == a[0];
      assert (a + b)[1..] == a[1..] + b;
      WithoutAppend(a[1..], b, excluded);
      if a[0] in excluded {
        assert Without(a + b, excluded) == Without(a[1..] + b, excluded);
        assert Without(a, excluded) == Without(a[1..], excluded);
      } else {
        assert Without(a + b, excluded) == [a[0]] + Without(a[1..] + b, excluded);
        assert Without(a, excluded) == [a[0]] + Without(a[1..], excluded);
      }
    } else {
      assert a + b == b;
    }
  }

  /** Nothing is dropped when no column is excluded. */
  lemma {:induction false} WithoutNothing(columns: seq<string>, excluded: seq<string>)
    requires forall c :: c in columns ==> c !in excluded
    ensures Without(columns, excluded) == columns
    decreases |columns|
  {
    if columns != [] {
      assert columns[0] in columns;
      assert forall c :: c in columns[1..] ==> c in columns;
      WithoutNothing(columns[1..], excluded);
    }
  }

  /** Excluding every column leaves none. */
  lemma {:induction false} WithoutEverything(columns: seq<string>, excluded: seq<string>)
    requires forall c :: c in columns ==> c in excluded
    ensures Without(columns, excluded) == []
    decreases |columns|
  {
    if columns != [] {
      assert columns[0] in columns;
      assert forall c :: c in columns[1..] ==> c in columns;
      WithoutEverything(columns[1..], excluded);
    }
  }

  /** The loop building `update_set_parts`: the columns outside `excluded`,
      each becoming `col = EXCLUDED.col`. */
  method UpdateSetColumns(columns: seq<string>, excluded: seq<string>) returns (parts: seq<string>)
    ensures parts == Without(columns, excluded)
  {
    parts := [];
    for i := 0 to |columns|
      invariant parts == Without(columns[..i], excluded)
    {
      assert columns[..i + 1] == columns[..i] + [columns[i]];
      WithoutAppend(columns[..i], [columns[i]], excluded);
      if !(columns[i] in excluded) {
        parts := parts + [columns[i]];
      }
    }
    assert columns[..|columns|] == columns;
  }

  /** `tuple(item.get(col) for col in columns)`. */
  function RowOf(item: map<string, Value>, columns: seq<string>): (row: seq<Value>)
    ensures |row| == |columns|
    ensures forall i :: 0 <= i < |columns| && columns[i] !in item ==> row[i] == Null
  {
    seq(|columns|, i requires 0 <= i < |columns| => Get(item, columns[i]))
  }

  /** `data_to_insert`: one row per item, in batch order. */
  function DataToInsert(batch: seq<map<string, Value>>, columns: seq<string>): (rows: seq<seq<Value>>)
    ensures |rows| == |batch|
    ensures forall k :: 0 <= k < |rows| ==> |rows[k]| == |columns|
  {
    seq(|batch|, k requires 0 <= k < |batch| => RowOf(batch[k], columns))
  }

  function ProjectsUpsert(batch: seq<map<string, Value>>): (st: Statement)
    ensures st.Upsert? && st.table == "projects" && st.columns == PROJECT_COLUMNS
    ensures |st.rows| == |batch|
    ensures forall k :: 0 <= k < |batch| ==> st.rows[k] == RowOf(batch[k], PROJECT_COLUMNS)
    ensures st.conflict == ["id"] && st.action == DoUpdate(PROJECT_COLUMNS[1..])
    ensures batch != [] ==> WellFormed(st)
  {
    ProjectUpdateColumns();
    Upsert("projects", PROJECT_COLUMNS, ["id"],
           DoUpdate(Without(PROJECT_COLUMNS, ["id"])), DataToInsert(batch, PROJECT_COLUMNS))
  }

  function TopicsUpsert(batch: seq<map<string, Value>>): (st: Statement)
    ensures st.Upsert? && st.table == "project_topics" && st.columns == TOPIC_COLUMNS
    ensures |st.rows| == |batch|
    ensures forall k :: 0 <= k < |batch| ==> st.rows[k] == RowOf(batch[k], TOPIC_COLUMNS)
    ensures st.conflict == ["project_id", "topic"] && st.action == DoNothing
    ensures batch != [] ==> WellFormed(st)
  {
    Upsert("project_topics", TOPIC_COLUMNS, ["project_id", "topic"],
           DoNothing, DataToInsert(batch, TOPIC_COLUMNS))
  }

  function BuildConfigsUpsert(batch: seq<map<string, Value>>): (st: Statement)
    ensures st.Upsert? && st.table == "project_build_configs" && st.columns == BUILD_CONFIG_COLUMNS
    ensures |st.rows| == |batch|
    ensures forall k :: 0 <= k < |batch| ==> st.rows[k] == RowOf(batch[k], BUILD_CONFIG_COLUMNS)
    ensures st.conflict == ["project_id", "file_path"]
    ensures st.action == DoUpdate(["config_type", "parsed_content", "raw_content"])
    ensures batch != [] ==> WellFormed(st)
  {
    BuildConfigUpdateColumns();
    Upsert("project_build_configs", BUILD_CONFIG_COLUMNS, ["project_id", "file_path"],
           DoUpdate(Without(BUILD_CONFIG_COLUMNS, ["project_id", "file_path"])),
           DataToInsert(batch, BUILD_CONFIG_COLUMNS))
  }

  function DependenciesUpsert(batch: seq<map<string, Value>>): (st: Statement)
    ensures st.Upsert? && st.table == "project_dependencies" && st.columns == DEPENDENCY_COLUMNS
    ensures |st.rows| == |batch|
    ensures forall k :: 0 <= k < |batch| ==> st.rows[k] == RowOf(batch[k], DEPENDENCY_COLUMNS)
    ensures st.conflict == ["project_id", "package_name", "dependency_type"]
    ensures st.action == DoUpdate(["version"])
    ensures batch != [] ==> WellFormed(st)
  {
    DependencyUpdateColumns();
    Upsert("project_dependencies", DEPENDENCY_COLUMNS,
           ["project_id", "package_name", "dependency_type"],
           DoUpdate(Without(DEPENDENCY_COLUMNS, ["project_id", "package_name", "dependency_type"])),
           DataToInsert(batch, DEPENDENCY_COLUMNS))
  }

  /** Every column of `projects` but its key `id` is overwritten on conflict. */
  lemma ProjectUpdateColumns()
    ensures Without(PROJECT_COLUMNS, ["id"]) == PROJECT_COLUMNS[1..]
  {
    var rest := PROJECT_COLUMNS[1..];
    assert PROJECT_COLUMNS == ["id"] + rest;
    assert forall k :: 0 <= k < |rest| ==> |rest[k]| != 2;
    WithoutAppend(["id"], rest, ["id"]);
    WithoutNothing(rest, ["id"]);
  }

  /** Build configurations overwrite their type and contents, keyed by project and path. */
  lemma BuildConfigUpdateColumns()
    ensures Without(BUILD_CONFIG_COLUMNS, ["project_id", "file_path"])
         == ["config_type", "parsed_content", "raw_content"]
  {
    var key := BUILD_CONFIG_COLUMNS[..2];
    var rest := BUILD_CONFIG_COLUMNS[2..];
    assert BUILD_CONFIG_COLUMNS == key + rest;
    assert key == ["project_id", "file_path"];
    WithoutAppend(key, rest, key);
    WithoutEverything(key, key);
    assert forall k :: 0 <= k < |rest| ==> |rest[k]| > 10;
    WithoutNothing(rest, key);
  }

  /** Dependencies overwrite only their version. */
  lemma DependencyUpdateColumns()
    ensures Without(DEPENDENCY_COLUMNS, ["project_id", "package_name", "dependency_type"])
         == ["version"]
  {
  }

  // ---------------------------------------------------------------- rows and records

  lemma {:induction false} ZipMapKeys(keys: seq<string>, values: seq<Value>)
    requires |keys| == |values|
    ensures forall k :: k in ZipMap(keys, values) <==> k in keys
    decreases |keys|
  {
    if keys != [] {
      ZipMapKeys(keys[1..], values[1..]);
      assert keys == [keys[0]] + keys[1..];
    }
  }

  lemma {:induction false} ZipMapAt(keys: seq<string>, values: seq<Value>, i: int)
    requires |keys| == |values| && Distinct(keys) && 0 <= i < |keys|
    ensures keys[i] in ZipMap(keys, values) && ZipMap(keys, values)[keys[i]] == values[i]
    decreases |keys|
  {
    ZipMapKeys(keys, values);
    if i > 0 {
      assert keys[1..][i - 1] == keys[i];
      ZipMapAt(keys[1..], values[1..], i - 1);
      assert keys[i] != keys[0];
    }
  }

  /** Reading a dict built from distinct columns back by those columns gives
      the values it was built from. */
  lemma RowOfZip(columns: seq<string>, values: seq<Value>)
    requires |columns| == |values| && Distinct(columns)
    ensures RowOf(ZipMap(columns, values), columns) == values
  {
    forall i | 0 <= i < |columns|
      ensures RowOf(ZipMap(columns, values), columns)[i] == values[i]
    {
      ZipMapAt(columns, values, i);
    }
  }

  /** Conversely an item whose keys are exactly the columns is rebuilt from its row. */
  lemma ZipRowOf(item: map<string, Value>, columns: seq<string>)
    requires Distinct(columns)
    requires forall k :: k in item <==> k in columns
    ensures ZipMap(columns, RowOf(item, columns)) == item
  {
    var row := RowOf(item, columns);
    var z := ZipMap(columns, row);
    ZipMapKeys(columns, row);
    forall k | k in item
      ensures z[k] == item[k]
    {
      var i :| 0 <= i < |columns| && columns[i] == k;
      ZipMapAt(columns, row, i);
    }
  }

  /** Items that agree on the columns give the same row: other keys are ignored. */
  lemma RowOfIgnoresOtherKeys(a: map<string, Value>, b: map<string, Value>, columns: seq<string>)
    requires forall c :: c in columns ==> Get(a, c) == Get(b, c)
    ensures RowOf(a, columns) == RowOf(b, columns)
  {
  }

  lemma ProjectColumnsDistinct()
    ensures Distinct(PROJECT_COLUMNS)
  {
  }

  /** The transformer's keys are the loader's `projects` columns, in the same order. */
  lemma ProjectColumnsMatchRecord()
    ensures PROJECT_COLUMNS == Transformer.PROJECT_KEYS
  {
  }

  /** The row loaded for a transformed record holds its fields in column order. */
  lemma ProjectRowIsRecord(p: Transformer.Project)
    ensures RowOf(p.AsDict(), PROJECT_COLUMNS) == p.Values()
  {
    ProjectColumnsDistinct();
    RowOfZip(PROJECT_COLUMNS, p.Values());
  }

  // ---------------------------------------------------------------- connection and transactions

  /** `self.conn`: None, an open connection, or one whose `closed` flag is set. */
  datatype Conn = Absent | Open | Closed

  /** What the server does with a statement; a failure may lose the connection. */
  datatype ExecOutcome = Done | Failed(connectionLost: bool)

  datatype DbError =
    | ConnectFailed          // psycopg2.connect raised
    | NotOpen                // `_execute_query` on a missing or closed connection
    | QueryFailed            // the statement or its commit raised
    | NoConnectionToRollBack // load_*: `self.conn.rollback()` on None after a failed connect

  datatype DbState = DbState(conn: Conn, pending: seq<Statement>, committed: seq<Statement>)

  datatype Step = Step(state: DbState, error: Option<DbError>)

  /** Without an open connection there is no open transaction. */
  predicate Consistent(s: DbState) {
    s.conn != Open ==> s.pending == []
  }

  /** The tables whose creation has been committed. */
  function TablesOf(log: seq<Statement>): (tables: set<string>)
    ensures forall t :: t in tables <==> exists k :: 0 <= k < |log| && log[k] == CreateTable(t)
  {
    if log == [] then {}
    else
      var rest := TablesOf(log[1..]);
      assert forall k :: 1 <= k < |log| ==> log[k] == log[1..][k - 1];
      if log[0].CreateTable? then {log[0].table} + rest else rest
  }

  /** `connect()`. */
  function AfterConnect(s: DbState, reachable: bool): (r: Step)
    ensures r.error.None? <==> s.conn == Open || reachable
    ensures r.error.None? ==> r.state.conn == Open
    ensures r.error.Some? ==> r.state.conn == Absent && r.error == Some(ConnectFailed)
    ensures s.conn == Open ==> r.state == s
    ensures r.state.committed == s.committed
    ensures Consistent(s) ==> Consistent(r.state)
  {
    if s.conn == Open then Step(s, None)
    else if reachable then Step(DbState(Open, [], s.committed), None)
    else Step(DbState(Absent, [], s.committed), Some(ConnectFailed))
  }

  /** `close()`. */
  function AfterClose(s: DbState): (r: DbState)
    ensures r.conn != Open && Consistent(r)
    ensures r.committed == s.committed
  {
    DbState(Absent, [], s.committed)
  }

  /** `_execute_query(query, commit=commit)`. */
  function AfterExecute(s: DbState, st: Statement, commit: bool, outcome: ExecOutcome): (r: Step)
    ensures r.error.None? <==> s.conn == Open && outcome.Done?
    ensures s.conn != Open ==> r == Step(s, Some(NotOpen))
    ensures r.error.None? && commit ==> r.state == DbState(Open, [], s.committed + s.pending + [st])
    ensures r.error.None? && !commit ==> r.state == DbState(Open, s.pending + [st], s.committed)
    ensures r.error == Some(QueryFailed) ==> r.state.pending == [] && r.state.committed == s.committed
    ensures r.error == Some(QueryFailed) ==> (r.state.conn == Open <==> !outcome.connectionLost)
    ensures Consistent(s) ==> Consistent(r.state)
  {
    if s.conn != Open then Step(s, Some(NotOpen))
    else
      match outcome
      case Done =>
        if commit then Step(DbState(Open, [], s.committed + s.pending + [st]), None)
        else Step(DbState(Open, s.pending + [st], s.committed), None)
      case Failed(lost) =>
        Step(DbState(if lost then Closed else Open, [], s.committed), Some(QueryFailed))
  }

  /** The `for` loop of `create_tables`: each statement committed in turn,
      stopping at the first that raises. */
  function AfterExecuteAll(s: DbState, sts: seq<Statement>, outcomes: seq<ExecOutcome>): (r: Step)
    requires |outcomes| == |sts|
    ensures sts == [] ==> r == Step(s, None)
    ensures r.error.None? && sts != [] ==> r.state.conn == Open && r.state.pending == []
    ensures r.error.Some? ==> r.error == Some(NotOpen) || r.error == Some(QueryFailed)
    ensures s.conn != Open && sts != [] ==> r == Step(s, Some(NotOpen))
    decreases |sts|
  {
    if sts == [] then Step(s, None)
    else
      var first := AfterExecute(s, sts[0], true, outcomes[0]);
      if first.error.Some? then first
      else AfterExecuteAll(first.state, sts[1..], outcomes[1..])
  }

  function CreateStatements(tables: seq<string>): (sts: seq<Statement>)
    ensures |sts| == |tables|
    ensures forall k :: 0 <= k < |tables| ==> sts[k] == CreateTable(tables[k])
  {
    seq(|tables|, k requires 0 <= k < |tables| => CreateTable(tables[k]))
  }

  /** `create_tables()`. */
  function AfterCreateTables(s: DbState, reachable: bool, outcomes: seq<ExecOutcome>): (r: Step)
    requires |outcomes| == |TABLES|
    ensures r.error.None? ==> r.state.conn == Open && r.state.pending == []
    ensures r.error == Some(ConnectFailed) <==> s.conn != Open && !reachable
    ensures s.committed <= r.state.committed
    ensures Consistent(s) ==> Consistent(r.state)
  {
    var c := AfterConnect(s, reachable);
    if c.error.Some? then c
    else
      ExecuteAllKeepsCommitted(c.state, CreateStatements(TABLES), outcomes);
      AfterExecuteAll(c.state, CreateStatements(TABLES), outcomes)
  }

  /** `load_*_data(batch)` once the statement for the batch is built: nothing for an
      empty batch; otherwise connect and send the statement, committing it. */
  function AfterLoad(s: DbState, st: Statement, batchSize: nat, reachable: bool, outcome: ExecOutcome): (r: Step)
    ensures r.error == Some(NoConnectionToRollBack) <==> batchSize > 0 && s.conn != Open && !reachable
    ensures r.error.None? && batchSize > 0 ==>
      r.state.committed == s.committed + (if s.conn == Open then s.pending else []) + [st]
    ensures s.committed <= r.state.committed
    ensures Consistent(s) ==> Consistent(r.state)
  {
    if batchSize == 0 then Step(s, None)
    else
      var c := AfterConnect(s, reachable);
      if c.error.Some? then Step(c.state, Some(NoConnectionToRollBack))
      else AfterExecute(c.state, st, true, outcome)
  }

  // ---------------------------------------------------------------- properties of the transitions

  /** Nothing committed is ever undone, whatever the server answers. */
  lemma {:induction false} ExecuteAllKeepsCommitted(s: DbState, sts: seq<Statement>, outcomes: seq<ExecOutcome>)
    requires |outcomes| == |sts|
    ensures s.committed <= AfterExecuteAll(s, sts, outcomes).state.committed
    ensures Consistent(s) ==> Consistent(AfterExecuteAll(s, sts, outcomes).state)
    decreases |sts|
  {
    if sts != [] {
      var first := AfterExecute(s, sts[0], true, outcomes[0]);
      if first.error.None? {
        ExecuteAllKeepsCommitted(first.state, sts[1..], outcomes[1..]);
      }
    }
  }

  /** On an open connection the loop fails exactly when some statement fails. */
  lemma {:induction false} ExecuteAllFailsIff(s: DbState, sts: seq<Statement>, outcomes: seq<ExecOutcome>)
    requires |outcomes| == |sts| && s.conn == Open
    ensures AfterExecuteAll(s, sts, outcomes).error.None?
        <==> forall k :: 0 <= k < |outcomes| ==> outcomes[k].Done?
    decreases |sts|
  {
    if sts != [] {
      var first := AfterExecute(s, sts[0], true, outcomes[0]);
      if first.error.None? {
        ExecuteAllFailsIff(first.state, sts[1..], outcomes[1..]);
        assert forall k :: 1 <= k < |outcomes| ==> outcomes[k] == outcomes[1..][k - 1];
      }
    }
  }

  /** When every statement succeeds, they are committed in order, after the open
      transaction, and the connection stays open with nothing pending. */
  lemma {:induction false} ExecuteAllDone(s: DbState, sts: seq<Statement>, outcomes: seq<ExecOutcome>)
    requires |outcomes| == |sts| && sts != [] && s.conn == Open
    requires forall k :: 0 <= k < |outcomes| ==> outcomes[k].Done?
    ensures AfterExecuteAll(s, sts, outcomes)
         == Step(DbState(Open, [], s.committed + s.pending + sts), None)
    decreases |sts|
  {
    var first := AfterExecute(s, sts[0], true, outcomes[0]);
    assert first.state == DbState(Open, [], s.committed + s.pending + [sts[0]]);
    if |sts| > 1 {
      ExecuteAllDone(first.state, sts[1..], outcomes[1..]);
      assert s.committed + s.pending + [sts[0]] + sts[1..] == s.committed + s.pending + sts;
    }
  }

  /** A successful `create_tables` commits the four tables, in order. */
  lemma CreateTablesCommitsAll(s: DbState, reachable: bool, outcomes: seq<ExecOutcome>)
    requires |outcomes| == |TABLES|
    requires forall k :: 0 <= k < |outcomes| ==> outcomes[k].Done?
    requires s.conn == Open || reachable
    ensures AfterCreateTables(s, reachable, outcomes).error.None?
    ensures AfterCreateTables(s, reachable, outcomes).state.committed
         == s.committed + (if s.conn == Open then s.pending else []) + CreateStatements(TABLES)
  {
    var c := AfterConnect(s, reachable);
    ExecuteAllDone(c.state, CreateStatements(TABLES), outcomes);
  }

  /** The tables created by a log are those created by each of its parts. */
  lemma {:induction false} TablesOfAppend(a: seq<Statement>, b: seq<Statement>)
    ensures TablesOf(a + b) == TablesOf(a) + TablesOf(b)
  {
    if a != [] {
      assert (a + b)[0] == a[0];
      assert (a + b)[1..] == a[1..] + b;
      TablesOfAppend(a[1..], b);
    } else {
      assert a + b == b;
    }
  }

  /** The `CREATE TABLE` statements create exactly the listed tables. */
  lemma TablesOfCreates(tables: seq<string>)
    ensures forall t :: t in TablesOf(CreateStatements(tables)) <==> t in tables
  {
    var creates := CreateStatements(tables);
    forall t | t in TablesOf(creates)
      ensures t in tables
    {
      var k :| 0 <= k < |creates| && creates[k] == CreateTable(t);
      assert tables[k] == t;
    }
    forall t | t in tables
      ensures t in TablesOf(creates)
    {
      var k :| 0 <= k < |tables| && tables[k] == t;
      assert creates[k] == CreateTable(t);
    }
  }

  /** `create_tables` is idempotent: once the four tables are created, running it
      again creates no new table; it only commits the tables of the open,
      uncommitted transaction. */
  lemma CreateTablesIdempotent(s: DbState, reachable: bool, outcomes: seq<ExecOutcome>)
    requires |outcomes| == |TABLES|
    requires forall k :: 0 <= k < |outcomes| ==> outcomes[k].Done?
    requires s.conn == Open || reachable
    requires forall t :: t in TABLES ==> t in TablesOf(s.committed)
    ensures TablesOf(AfterCreateTables(s, reachable, outcomes).state.committed)
         == TablesOf(s.committed) + TablesOf(if s.conn == Open then s.pending else [])
  {
    CreateTablesCommitsAll(s, reachable, outcomes);
    var p := if s.conn == Open then s.pending else [];
    var creates := CreateStatements(TABLES);
    TablesOfAppend(s.committed + p, creates);
    TablesOfAppend(s.committed, p);
    TablesOfCreates(TABLES);
    assert TablesOf(creates) <= TablesOf(s.committed);
  }

  /** An empty batch returns before connecting: nothing changes. */
  lemma EmptyBatchChangesNothing(s: DbState, st: Statement, reachable: bool, outcome: ExecOutcome)
    ensures AfterLoad(s, st, 0, reachable, outcome) == Step(s, None)
  {
  }

  /** A non-empty batch succeeds exactly when a connection is available and the
      statement goes through; then it is committed together with the open
      transaction, and otherwise nothing is committed. */
  lemma LoadCommitsIffDone(s: DbState, st: Statement, batchSize: nat, reachable: bool, outcome: ExecOutcome)
    requires batchSize > 0 && Consistent(s)
    ensures var r := AfterLoad(s, st, batchSize, reachable, outcome);
      && (r.error.None? <==> (s.conn == Open || reachable) && outcome.Done?)
      && (r.error.None? ==> r.state == DbState(Open, [], s.committed + s.pending + [st]))
      && (r.error.Some? ==> r.state.committed == s.committed && r.state.pending == [])
  {
  }

  /** A failed connection in `load_*` surfaces as the AttributeError from
      `None.rollback()`, not as the connection error, and leaves no connection. */
  lemma LoadWithoutServer(s: DbState, st: Statement, batchSize: nat, outcome: ExecOutcome)
    requires batchSize > 0 && s.conn != Open
    ensures AfterLoad(s, st, batchSize, false, outcome)
         == Step(DbState(Absent, [], s.committed), Some(NoConnectionToRollBack))
  {
  }

  /** After `close()` no statement runs until the next `connect()`. */
  lemma CloseThenExecuteRefused(s: DbState, st: Statement, commit: bool, outcome: ExecOutcome)
    ensures AfterExecute(AfterClose(s), st, commit, outcome) == Step(AfterClose(s), Some(NotOpen))
    ensures Consistent(AfterClose(s)) && AfterClose(s).committed == s.committed
  {
  }

  /** Statements executed without commit stay pending until a committing one. */
  lemma UncommittedThenCommitted(s: DbState, a: Statement, b: Statement)
    requires s.conn == Open
    ensures var r1 := AfterExecute(s, a, false, Done);
      && r1.state.committed == s.committed
      && AfterExecute(r1.state, b, true, Done).state.committed == s.committed + s.pending + [a, b]
  {
    assert s.committed + (s.pending + [a]) + [b] == s.committed + s.pending + [a, b];
  }

  // ---------------------------------------------------------------- the loader object

  class PostgreSQLDataLoader {
    /** `self.conn_params`. */
    const connParams: map<string, Option<string>>
    var conn: Conn
    var pending: seq<Statement>
    var committed: seq<Statement>

    function State(): DbState
      reads this
    {
      DbState(conn, pending, committed)
    }

    /** The object never holds an open transaction without an open connection. */
    ghost predicate Valid()
      reads this
    {
      Consistent(State())
    }

    constructor(dbHost: Option<string>, dbName: Option<string>, dbUser: Option<string>,
                dbPassword: Option<string>, dbPort: Option<string>)
      ensures connParams == map["host" := dbHost, "database" := dbName, "user" := dbUser,
                                "password" := dbPassword, "port" := dbPort]
      ensures State() == DbState(Absent, [], [])
      ensures Valid()
    {
      connParams := map["host" := dbHost, "database" := dbName, "user" := dbUser,
                        "password" := dbPassword, "port" := dbPort];
      conn := Absent;
      pending := [];
      committed := [];
    }

    method Connect(reachable: bool) returns (err: Option<DbError>)
      requires Valid()
      modifies this
      ensures Valid()
      ensures Step(State(), err) == AfterConnect(old(State()), reachable)
    {
      err := None;
      if conn != Open {
        pending := [];
        if reachable {
          conn := Open;
        } else {
          conn := Absent;
          err := Some(ConnectFailed);
        }
      }
    }

    method Close()
      requires Valid()
      modifies this
      ensures Valid()
      ensures State() == AfterClose(old(State()))
    {
      conn := Absent;
      pending := [];
    }

    method ExecuteQuery(st: Statement, commit: bool, outcome: ExecOutcome) returns (err: Option<DbError>)
      requires Valid()
      modifies this
      ensures Valid()
      ensures Step(State(), err) == AfterExecute(old(State()), st, commit, outcome)
    {
      if conn != Open {
        return Some(NotOpen);
      }
      err := None;
      match outcome
      case Done =>
        if commit {
          committed := committed + pending + [st];
          pending := [];
        } else {
          pending := pending + [st];
        }
      case Failed(lost) =>
        pending := [];
        if lost {
          conn := Closed;
        }
        err := Some(QueryFailed);
    }

    method CreateTables(reachable: bool, outcomes: seq<ExecOutcome>) returns (err: Option<DbError>)
      requires |outcomes| == |TABLES|
      requires Valid()
      modifies this
      ensures Valid()
      ensures Step(State(), err) == AfterCreateTables(old(State()), reachable, outcomes)
    {
      err := Connect(reachable);
      if err.Some? {
        return;
      }
      var creates := CreateStatements(TABLES);
      ghost var start := State();
      var i := 0;
      while i < |creates|
        invariant 0 <= i <= |creates| && err.None? && Valid()
        invariant AfterExecuteAll(start, creates, outcomes)
               == AfterExecuteAll(State(), creates[i..], outcomes[i..])
      {
        assert creates[i..][1..] == creates[i + 1..];
        assert outcomes[i..][1..] == outcomes[i + 1..];
        err := ExecuteQuery(creates[i], true, outcomes[i]);
        if err.Some? {
          return;
        }
        i := i + 1;
      }
    }

    /** The shared body of the four `load_*_data` methods after the statement is built. */
    method LoadBatch(st: Statement, batchSize: nat, reachable: bool, outcome: ExecOutcome)
      returns (err: Option<DbError>)
      requires Valid()
      modifies this
      ensures Valid()
      ensures Step(State(), err) == AfterLoad(old(State()), st, batchSize, reachable, outcome)
    {
      if batchSize == 0 {
        return None;
      }
      err := Connect(reachable);
      if err.Some? {
        return Some(NoConnectionToRollBack);
      }
      err := ExecuteQuery(st, true, outcome);
    }

    method LoadProjectData(batch: seq<map<string, Value>>, reachable: bool, outcome: ExecOutcome)
      returns (err: Option<DbError>)
      requires Valid()
      modifies this
      ensures Valid()
      ensures Step(State(), err) == AfterLoad(old(State()), ProjectsUpsert(batch), |batch|, reachable, outcome)
    {
      var updates := UpdateSetColumns(PROJECT_COLUMNS, ["id"]);
      var st := Upsert("projects", PROJECT_COLUMNS, ["id"], DoUpdate(updates),
                       DataToInsert(batch, PROJECT_COLUMNS));
      err := LoadBatch(st, |batch|, reachable, outcome);
    }

    method LoadTopicsData(batch: seq<map<string, Value>>, reachable: bool, outcome: ExecOutcome)
      returns (err: Option<DbError>)
      requires Valid()
      modifies this
      ensures Valid()
      ensures Step(State(), err) == AfterLoad(old(State()), TopicsUpsert(batch), |batch|, reachable, outcome)
    {
      var st := Upsert("project_topics", TOPIC_COLUMNS, ["project_id", "topic"], DoNothing,
                       DataToInsert(batch, TOPIC_COLUMNS));
      err := LoadBatch(st, |batch|, reachable, outcome);
    }

    method LoadBuildConfigsData(batch: seq<map<string, Value>>, reachable: bool, outcome: ExecOutcome)
      returns (err: Option<DbError>)
      requires Valid()
      modifies this
      ensures Valid()
      ensures Step(State(), err) == AfterLoad(old(State()), BuildConfigsUpsert(batch), |batch|, reachable, outcome)
    {
      var updates := UpdateSetColumns(BUILD_CONFIG_COLUMNS, ["project_id", "file_path"]);
      var st := Upsert("project_build_configs", BUILD_CONFIG_COLUMNS, ["project_id", "file_path"],
                       DoUpdate(updates), DataToInsert(batch, BUILD_CONFIG_COLUMNS));
      err := LoadBatch(st, |batch|, reachable, outcome);
    }

    method LoadDependenciesData(batch: seq<map<string, Value>>, reachable: bool, outcome: ExecOutcome)
      returns (err: Option<DbError>)
      requires Valid()
      modifies this
      ensures Valid()
      ensures Step(State(), err) == AfterLoad(old(State()), DependenciesUpsert(batch), |batch|, reachable, outcome)
    {
      var excluded := ["project_id", "package_name", "dependency_type"];
      var updates := UpdateSetColumns(DEPENDENCY_COLUMNS, excluded);
      var st := Upsert("project_dependencies", DEPENDENCY_COLUMNS, excluded,
                       DoUpdate(updates), DataToInsert(batch, DEPENDENCY_COLUMNS));
      err := LoadBatch(st, |batch|, reachable, outcome);
    }
  }
}
