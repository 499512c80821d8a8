/** The sync engine as a specification over values. The engine's local side is
    the device's SQLite file (whether it opens, whether initialisation has run,
    its tables); its remote side is the backend oracle. Each phase of a sync
    cycle is a function from the state before it to the state after it and the
    outcome, written with an explicit position (`i`, `j`, `t`) so that the
    engine's loops can be proved against them step by step. */
module SyncEngine {
  import opened Rows
  import opened Store
  import opened TableSchemas
  import opened SyncTablesConfig
  import opened Remote

  const MAX_BATCH_SIZE: nat := 100

  /** `'1970-01-01'`, the lower bound of the first incremental pull. */
  const EPOCH: Time := 0

  /** The column lists of the three `INSERT OR REPLACE` helpers. */
  const PROFILE_COLUMNS: seq<string> :=
    ["id", "email", "name", "role", "created_at", "updated_at", "synced_at", "is_synced"]
  const BRANCH_COLUMNS: seq<string> :=
    ["id", "name", "address", "created_at", "updated_at", "synced_at", "is_synced"]
  const ASSIGNMENT_COLUMNS: seq<string> := ["branch_id", "user_id", "role", "assigned_at"]

  /** The local side: whether the file opens, whether `init` has completed, and
      the file's tables. */
  datatype Local = Local(opens: bool, initialized: bool, tables: Db)

  datatype World = World(local: Local, remote: RemoteState)

  /** The engine's observable state across cycles. */
  datatype Engine = Engine(local: Local, remote: RemoteState, inProgress: bool, cursor: Option<Time>)

  // ---------------------------------------------------------------------------
  // Initialisation and the local helpers

  /** `ensureInitialized`: nothing once initialised; otherwise open the file and
      bootstrap the registry, or fail with the file untouched. */
  function EnsureInit(l: Local): (Local, Outcome) {
    if l.initialized then (l, Pass)
    else if !l.opens then (l, Fail(OpenFailed))
    else (Local(true, true, Bootstrap(l.tables, TABLE_SCHEMAS)), Pass)
  }

  /** A helper that runs one statement: `ensureInitialized`, then `runSync`. */
  function RunLocal(l: Local, s: Statement): (Local, Outcome) {
    var (l1, o) := EnsureInit(l);
    if o.Fail? then (l1, o)
    else
      var (d, o2) := Apply(l1.tables, s);
      (l1.(tables := d), o2)
  }

  /** A helper that reads: `ensureInitialized`, then `getAllSync`. */
  function ReadLocal(l: Local, q: Query): (Local, Result<seq<Row>>) {
    var (l1, o) := EnsureInit(l);
    if o.Fail? then (l1, Err(o.error)) else (l1, Select(l1.tables, q))
  }

  /** Every listed column, given or NULL (`row.c ?? null`). */
  function Project(row: Row, cols: seq<string>): Row {
    map c | c in cols :: Get(row, c)
  }

  function ColumnsOf(h: UpsertHook): seq<string> {
    match h
    case UpsertProfiles => PROFILE_COLUMNS
    case UpsertBranches => BRANCH_COLUMNS
    case UpsertAssignments => ASSIGNMENT_COLUMNS
  }

  /** `upsertLocal*(row)`: INSERT OR REPLACE of every column of the helper's list. */
  function UpsertOf(h: UpsertHook, row: Row, now: Time): Statement {
    InsertOrReplace(UpsertTable(h), Project(row, ColumnsOf(h)), now)
  }

  /** `SET is_synced = 1, synced_at = CURRENT_TIMESTAMP`. */
  function Stamp(now: Time): Row {
    map["is_synced" := Int(1), "synced_at" := Int(now)]
  }

  /** `mark*Synced(id)`. */
  function MarkOf(h: MarkHook, id: Value, now: Time): Statement {
    UpdateWhere(MarkTable(h), "id", id, Stamp(now))
  }

  /** `getUnsynced*()` selects `is_synced = 0`; `getLocalBranchAssignments()` selects everything. */
  function ReadOf(h: ReadHook): Query {
    match h
    case LocalAssignments => SelectAll("branch_assignments")
    case _ => SelectWhere(ReadTable(h), "is_synced", Int(0))
  }

  /** `getProfile(id)`: the first row with that id (`rows[0] || null`). */
  function FirstRow(rows: seq<Row>): Option<Row> {
    if rows == [] then None else Some(rows[0])
  }

  // ---------------------------------------------------------------------------
  // The value `markSynced` receives

  function DigitChar(d: nat): char
    requires d < 10
  {
    "0123456789"[d]
  }

  function Digits(n: nat): string
    decreases n
  {
    (if n < 10 then "" else Digits(n / 10)) + [DigitChar(n % 10)]
  }

  /** A value as JavaScript's `join` renders it: NULL as the empty string. */
  function ValueText(v: Value): string {
    match v
    case Null => ""
    case Text(t) => t
    case Int(n) => if n < 0 then "-" + Digits(-n) else Digits(n)
  }

  /** `row[key]` for a single key; the key values joined with `-` for a composite one. */
  function MarkKey(key: Key, row: Row): Value {
    match key
    case Single(c) => Get(row, c)
    case Composite(cs) =>
      Text(Join(seq(|cs|, i requires 0 <= i < |cs| => ValueText(Get(row, cs[i]))), "-"))
  }

  // ---------------------------------------------------------------------------
  // Push

  /** `const { is_synced, ...rest } = row`, for every row. */
  function Strip(rows: seq<Row>): seq<Row> {
    seq(|rows|, i requires 0 <= i < |rows| => rows[i] - {"is_synced"})
  }

  /** The slice of at most MAX_BATCH_SIZE rows that starts at `i`. */
  function BatchAt(rows: seq<Row>, i: nat): seq<Row>
    requires i <= |rows|
  {
    rows[i..Min(i + MAX_BATCH_SIZE, |rows|)]
  }

  /** `Promise.all(batch.map(row => markSynced(key of row)))`: every call is made,
      in order, and the first failure is the batch's. */
  function MarkFrom(l: Local, h: MarkHook, key: Key, batch: seq<Row>, j: nat, acc: Outcome, now: Time): (Local, Outcome)
    decreases |batch| - j
  {
    if j >= |batch| then (l, acc)
    else
      var (l1, o) := RunLocal(l, MarkOf(h, MarkKey(key, batch[j]), now));
      MarkFrom(l1, h, key, batch, j + 1, FirstFailure(acc, o), now)
  }

  /** The batch loop of one table from row `i` on: upsert the batch (without
      `is_synced` when `flagged`), stop at the first failing upsert, then, for a
      flagged table with a `markSynced` hook, mark the batch's rows and stop if
      a mark failed. */
  function PushBatchesFrom(w: World, cfg: SyncTableConfig, rows: seq<Row>, i: nat, flagged: bool, now: Time): (World, Outcome)
    decreases |rows| - i
  {
    if i >= |rows| then (w, Pass)
    else
      var batch := BatchAt(rows, i);
      var (rs, o) := UpsertCall(w.remote, cfg.name, if flagged then Strip(batch) else batch, KeyColumns(cfg.key));
      if o.Fail? then (World(w.local, rs), o)
      else if flagged && cfg.markSynced.Some? then
        var (l, mo) := MarkFrom(w.local, cfg.markSynced.value, cfg.key, batch, 0, Pass, now);
        if mo.Fail? then (World(l, rs), mo)
        else PushBatchesFrom(World(l, rs), cfg, rows, i + MAX_BATCH_SIZE, flagged, now)
      else PushBatchesFrom(World(w.local, rs), cfg, rows, i + MAX_BATCH_SIZE, flagged, now)
  }

  /** One adapter: its dirty rows through `getUnsynced` when it tracks the flag,
      else all its rows through `getLocal`, else nothing. */
  function PushTable(w: World, cfg: SyncTableConfig, now: Time): (World, Outcome) {
    if cfg.hasIsSynced && cfg.getUnsynced.Some? then
      var (l, rows) := ReadLocal(w.local, ReadOf(cfg.getUnsynced.value));
      if rows.Err? then (World(l, w.remote), Fail(rows.error))
      else PushBatchesFrom(World(l, w.remote), cfg, rows.value, 0, true, now)
    else if cfg.getLocal.Some? then
      var (l, rows) := ReadLocal(w.local, ReadOf(cfg.getLocal.value));
      if rows.Err? then (World(l, w.remote), Fail(rows.error))
      else PushBatchesFrom(World(l, w.remote), cfg, rows.value, 0, false, now)
    else (w, Pass)
  }

  function PushTablesFrom(w: World, tables: seq<SyncTableConfig>, t: nat, now: Time): (World, Outcome)
    decreases |tables| - t
  {
    if t >= |tables| then (w, Pass)
    else
      var (w1, o) := PushTable(w, tables[t], now);
      if o.Fail? then (w1, o) else PushTablesFrom(w1, tables, t + 1, now)
  }

  /** `pushLocalChanges`. */
  function Push(w: World, now: Time): (World, Outcome) {
    var (l, o) := EnsureInit(w.local);
    if o.Fail? then (World(l, w.remote), o)
    else PushTablesFrom(World(l, w.remote), SYNC_TABLES, 0, now)
  }

  // ---------------------------------------------------------------------------
  // Pull

  /** Only `profiles` and `branches` are pulled incrementally. */
  function PullScope(cfg: SyncTableConfig, cursor: Option<Time>): Scope {
    if cfg.name in ["profiles", "branches"] then UpdatedAfter(cursor.GetOr(EPOCH)) else Everything
  }

  /** A pulled row as stored: already synced, at `now`, in a flag-tracked table. */
  function AsPulled(cfg: SyncTableConfig, row: Row, now: Time): Row {
    if cfg.hasIsSynced then row["is_synced" := Int(1)]["synced_at" := Int(now)] else row
  }

  /** `Promise.all(batch.map(row => upsertLocal(..)))`: every call is made, in
      order, and the first failure is the batch's. */
  function UpsertFrom(l: Local, cfg: SyncTableConfig, batch: seq<Row>, j: nat, acc: Outcome, now: Time): (Local, Outcome)
    decreases |batch| - j
  {
    if j >= |batch| then (l, acc)
    else
      var (l1, o) := RunLocal(l, UpsertOf(cfg.upsertLocal, AsPulled(cfg, batch[j], now), now));
      UpsertFrom(l1, cfg, batch, j + 1, FirstFailure(acc, o), now)
  }

  function PullBatchesFrom(l: Local, cfg: SyncTableConfig, data: seq<Row>, i: nat, now: Time): (Local, Outcome)
    decreases |data| - i
  {
    if i >= |data| then (l, Pass)
    else
      var (l1, o) := UpsertFrom(l, cfg, BatchAt(data, i), 0, Pass, now);
      if o.Fail? then (l1, o) else PullBatchesFrom(l1, cfg, data, i + MAX_BATCH_SIZE, now)
  }

  function PullTable(w: World, cfg: SyncTableConfig, cursor: Option<Time>, now: Time): (World, Outcome) {
    var (rs, data) := SelectCall(w.remote, cfg.name, PullScope(cfg, cursor));
    if data.Err? then (World(w.local, rs), Fail(data.error))
    else
      var (l, o) := PullBatchesFrom(w.local, cfg, data.value, 0, now);
      (World(l, rs), o)
  }

  function PullTablesFrom(w: World, tables: seq<SyncTableConfig>, t: nat, cursor: Option<Time>, now: Time): (World, Outcome)
    decreases |tables| - t
  {
    if t >= |tables| then (w, Pass)
    else
      var (w1, o) := PullTable(w, tables[t], cursor, now);
      if o.Fail? then (w1, o) else PullTablesFrom(w1, tables, t + 1, cursor, now)
  }

  /** `pullRemoteChanges`. */
  function Pull(w: World, cursor: Option<Time>, now: Time): (World, Outcome) {
    PullTablesFrom(w, SYNC_TABLES, 0, cursor, now)
  }

  // ---------------------------------------------------------------------------
  // The cycle

  /** `syncData`: nothing while a cycle runs or when offline; otherwise push,
      then pull only if the push passed, and move the cursor to `now` only if
      both passed. Errors are swallowed and the in-progress flag is cleared. */
  function SyncCycle(e: Engine, connected: bool, now: Time): Engine {
    if e.inProgress || !connected then e
    else
      var pushed := Push(World(e.local, e.remote), now);
      if pushed.1.Fail? then Engine(pushed.0.local, pushed.0.remote, false, e.cursor)
      else
        var pulled := Pull(pushed.0, e.cursor, now);
        Engine(pulled.0.local, pulled.0.remote, false, if pulled.1.Pass? then Some(now) else e.cursor)
  }
}
