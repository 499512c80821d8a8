/** The sync engine's object: its fields, its initialisation loop over the
    schema registry, its local helpers, and the push and pull loops of a sync
    cycle. Every method is proved against the value-level specification in
    `SyncEngine`: the state it leaves and the outcome it returns are those the
    specification computes from the state it started in. */
module SyncService {
  import opened Rows
  import opened Store
  import opened TableSchemas
  import opened SyncTablesConfig
  import opened Remote
  import opened SyncEngine

  /** The interval timer as far as the engine can see it: whether `syncInterval`
      holds a timer, and how many armed intervals were never cleared. */
  datatype Timers = Timers(armed: bool, live: nat)

  /** `setInterval`: a new interval, stored over whatever the field held. */
  function Arm(t: Timers): (r: Timers)
    ensures r.armed && r.live == t.live + 1
  {
    Timers(true, t.live + 1)
  }

  /** `stopSync`: clears the interval the field holds, if any. */
  function Clear(t: Timers): (r: Timers)
    requires t.armed ==> t.live > 0
    ensures !r.armed && r.live == (if t.armed then t.live - 1 else t.live)
  {
    if t.armed then Timers(false, t.live - 1) else t
  }

  class SyncService {
    /** What `openDatabaseSync` yields: the device's file, or null when it cannot be opened. */
    const device: Database?
    /** The backend client. */
    const remote: Backend

    var db: Database?
    var syncInProgress: bool
    var lastSyncTimestamp: Option<Time>
    var timers: Timers
    var initialized: bool

    ghost predicate Valid()
      reads this
    {
      && (db != null <==> initialized)
      && (db != null ==> db == device)
      && (timers.armed ==> timers.live > 0)
    }

    /** The fields a local helper never touches. */
    function Flags(): (bool, Option<Time>, Timers)
      reads this
    {
      (syncInProgress, lastSyncTimestamp, timers)
    }

    function LocalOf(): Local
      reads this, device
    {
      Local(device != null, initialized, if device != null then device.tables else map[])
    }

    function WorldOf(): World
      reads this, device, remote
    {
      World(LocalOf(), remote.state)
    }

    function EngineOf(): Engine
      reads this, device, remote
    {
      Engine(LocalOf(), remote.state, syncInProgress, lastSyncTimestamp)
    }

    constructor (device: Database?, remote: Backend)
      ensures this.device == device && this.remote == remote
      ensures db == null && !initialized && !syncInProgress && lastSyncTimestamp == None
      ensures timers == Timers(false, 0)
      ensures Valid()
    {
      this.device := device;
      this.remote := remote;
      db := null;
      syncInProgress := false;
      lastSyncTimestamp := None;
      timers := Timers(false, 0);
      initialized := false;
    }

    // -------------------------------------------------------------------------
    // Initialisation

    /** `init`: once initialised, nothing; otherwise open the file, run every
        create of the registry in order, each followed by its migrations, with a
        failing migration ignored. */
    method Init() returns (out: Outcome)
      requires Valid()
      modifies this, device
      ensures Valid() && Flags() == old(Flags())
      ensures (LocalOf(), out) == EnsureInit(old(LocalOf()))
    {
      if initialized {
        return Pass;
      }
      if device == null {
        return Fail(OpenFailed);
      }
      db := device;
      var schemas := TABLE_SCHEMAS;
      ghost var start := device.tables;
      var i := 0;
      while i < |schemas|
        invariant 0 <= i <= |schemas|
        invariant db == device && !initialized && Flags() == old(Flags())
        invariant Bootstrap(device.tables, schemas[i..]) == Bootstrap(start, schemas)
      {
        var table := schemas[i];
        // In this model a CREATE TABLE IF NOT EXISTS never fails: Exec of CreateTable is always Ok.
        var created := db.RunSync(CreateTable(table.create));
        RunMigrations(table.migrations);
        assert schemas[i..][1..] == schemas[i + 1..];
        i := i + 1;
      }
      initialized := true;
      out := Pass;
    }

    /** One table's migrations, in order; a failing one (its column is
        already there) is swallowed and the rest still run. */
    method RunMigrations(ms: seq<Migration>)
      requires db != null && db == device
      modifies device
      ensures device.tables == Migrate(old(device.tables), ms)
    {
      ghost var start := device.tables;
      var j := 0;
      while j < |ms|
        invariant 0 <= j <= |ms|
        invariant Migrate(device.tables, ms[j..]) == Migrate(start, ms)
      {
        var migrated := db.RunSync(MigrationStatement(ms[j]));
        assert ms[j..][1..] == ms[j + 1..];
        j := j + 1;
      }
    }

    method EnsureInitialized() returns (out: Outcome)
      requires Valid()
      modifies this, device
      ensures Valid() && Flags() == old(Flags())
      ensures (LocalOf(), out) == EnsureInit(old(LocalOf()))
    {
      if !initialized {
        out := Init();
      } else {
        out := Pass;
      }
    }

    /** `getDatabase`: the open handle, or an error before a successful init. */
    method GetDatabase() returns (r: Result<Database>)
      requires Valid()
      ensures initialized ==> r.Ok? && r.value == device
      ensures !initialized ==> r == Err(NotInitialized)
    {
      if !initialized || db == null {
        return Err(NotInitialized);
      }
      return Ok(db);
    }

    // -------------------------------------------------------------------------
    // Local helpers: `ensureInitialized`, then one statement or query

    method Run(s: Statement) returns (out: Outcome)
      requires Valid()
      modifies this, device
      ensures Valid() && Flags() == old(Flags())
      ensures (LocalOf(), out) == RunLocal(old(LocalOf()), s)
    {
      out := EnsureInitialized();
      if out.Fail? {
        return;
      }
      var h := GetDatabase();
      assert h.Ok?;
      out := h.value.RunSync(s);
    }

    method Read(q: Query) returns (rows: Result<seq<Row>>)
      requires Valid()
      modifies this, device
      ensures Valid() && Flags() == old(Flags())
      ensures (LocalOf(), rows) == ReadLocal(old(LocalOf()), q)
    {
      var o := EnsureInitialized();
      if o.Fail? {
        return Err(o.error);
      }
      var h := GetDatabase();
      assert h.Ok?;
      rows := h.value.GetAllSync(q);
    }

    method GetProfile(userId: string) returns (r: Result<Option<Row>>)
      requires Valid()
      modifies this, device
      ensures Valid() && Flags() == old(Flags())
      ensures var (l, rows) := ReadLocal(old(LocalOf()), SelectWhere("profiles", "id", Text(userId)));
        && LocalOf() == l
        && r == (if rows.Ok? then Ok(FirstRow(rows.value)) else Err(rows.error))
    {
      var rows := Read(SelectWhere("profiles", "id", Text(userId)));
      if rows.Err? {
        return Err(rows.error);
      }
      r := Ok(FirstRow(rows.value));
    }

    method GetLocalBranchAssignments() returns (rows: Result<seq<Row>>)
      requires Valid()
      modifies this, device
      ensures Valid() && Flags() == old(Flags())
      ensures (LocalOf(), rows) == ReadLocal(old(LocalOf()), ReadOf(LocalAssignments))
    {
      rows := Read(ReadOf(LocalAssignments));
    }

    method UpsertLocalBranchAssignment(assignment: Row, now: Time) returns (out: Outcome)
      requires Valid()
      modifies this, device
      ensures Valid() && Flags() == old(Flags())
      ensures (LocalOf(), out) == RunLocal(old(LocalOf()), UpsertOf(UpsertAssignments, assignment, now))
    {
      out := Run(UpsertOf(UpsertAssignments, assignment, now));
    }

    method GetUnsyncedBranches() returns (rows: Result<seq<Row>>)
      requires Valid()
      modifies this, device
      ensures Valid() && Flags() == old(Flags())
      ensures (LocalOf(), rows) == ReadLocal(old(LocalOf()), ReadOf(UnsyncedBranches))
    {
      rows := Read(ReadOf(UnsyncedBranches));
    }

    method MarkBranchSynced(id: Value, now: Time) returns (out: Outcome)
      requires Valid()
      modifies this, device
      ensures Valid() && Flags() == old(Flags())
      ensures (LocalOf(), out) == RunLocal(old(LocalOf()), MarkOf(MarkBranches, id, now))
    {
      out := Run(MarkOf(MarkBranches, id, now));
    }

    method UpsertLocalBranch(branch: Row, now: Time) returns (out: Outcome)
      requires Valid()
      modifies this, device
      ensures Valid() && Flags() == old(Flags())
      ensures (LocalOf(), out) == RunLocal(old(LocalOf()), UpsertOf(UpsertBranches, branch, now))
    {
      out := Run(UpsertOf(UpsertBranches, branch, now));
    }

    method GetUnsyncedProfiles() returns (rows: Result<seq<Row>>)
      requires Valid()
      modifies this, device
      ensures Valid() && Flags() == old(Flags())
      ensures (LocalOf(), rows) == ReadLocal(old(LocalOf()), ReadOf(UnsyncedProfiles))
    {
      rows := Read(ReadOf(UnsyncedProfiles));
    }

    method MarkProfileSynced(id: Value, now: Time) returns (out: Outcome)
      requires Valid()
      modifies this, device
      ensures Valid() && Flags() == old(Flags())
      ensures (LocalOf(), out) == RunLocal(old(LocalOf()), MarkOf(MarkProfiles, id, now))
    {
      out := Run(MarkOf(MarkProfiles, id, now));
    }

    method UpsertLocalProfile(profile: Row, now: Time) returns (out: Outcome)
      requires Valid()
      modifies this, device
      ensures Valid() && Flags() == old(Flags())
      ensures (LocalOf(), out) == RunLocal(old(LocalOf()), UpsertOf(UpsertProfiles, profile, now))
    {
      out := Run(UpsertOf(UpsertProfiles, profile, now));
    }

    // -------------------------------------------------------------------------
    // The adapters' hooks: each delegates to the helper it names

    method CallUpsert(h: UpsertHook, row: Row, now: Time) returns (out: Outcome)
      requires Valid()
      modifies this, device
      ensures Valid() && Flags() == old(Flags())
      ensures (LocalOf(), out) == RunLocal(old(LocalOf()), UpsertOf(h, row, now))
    {
      match h
      case UpsertProfiles => out := UpsertLocalProfile(row, now);
      case UpsertBranches => out := UpsertLocalBranch(row, now);
      case UpsertAssignments => out := UpsertLocalBranchAssignment(row, now);
    }

    method CallMark(h: MarkHook, id: Value, now: Time) returns (out: Outcome)
      requires Valid()
      modifies this, device
      ensures Valid() && Flags() == old(Flags())
      ensures (LocalOf(), out) == RunLocal(old(LocalOf()), MarkOf(h, id, now))
    {
      match h
      case MarkProfiles => out := MarkProfileSynced(id, now);
      case MarkBranches => out := MarkBranchSynced(id, now);
    }

    method CallRead(h: ReadHook) returns (rows: Result<seq<Row>>)
      requires Valid()
      modifies this, device
      ensures Valid() && Flags() == old(Flags())
      ensures (LocalOf(), rows) == ReadLocal(old(LocalOf()), ReadOf(h))
    {
      match h
      case UnsyncedProfiles => rows := GetUnsyncedProfiles();
      case UnsyncedBranches => rows := GetUnsyncedBranches();
      case LocalAssignments => rows := GetLocalBranchAssignments();
    }

    // -------------------------------------------------------------------------
    // Push

    /** `Promise.all(batch.map(row => table.markSynced(key of row)))`. */
    method MarkAll(h: MarkHook, key: Key, batch: seq<Row>, now: Time) returns (out: Outcome)
      requires Valid()
      modifies this, device
      ensures Valid() && Flags() == old(Flags())
      ensures (LocalOf(), out) == MarkFrom(old(LocalOf()), h, key, batch, 0, Pass, now)
    {
      out := Pass;
      var j := 0;
      while j < |batch|
        invariant 0 <= j <= |batch|
        invariant Valid() && Flags() == old(Flags())
        invariant MarkFrom(LocalOf(), h, key, batch, j, out, now) == MarkFrom(old(LocalOf()), h, key, batch, 0, Pass, now)
      {
        var o := CallMark(h, MarkKey(key, batch[j]), now);
        out := FirstFailure(out, o);
        j := j + 1;
      }
    }

    /** The batch loop of one adapter: `for (i = 0; i < rows.length; i += MAX_BATCH_SIZE)`. */
    method PushBatches(cfg: SyncTableConfig, rows: seq<Row>, flagged: bool, now: Time) returns (out: Outcome)
      requires Valid()
      modifies this, device, remote
      ensures Valid() && Flags() == old(Flags())
      ensures (WorldOf(), out) == PushBatchesFrom(old(WorldOf()), cfg, rows, 0, flagged, now)
    {
      var i := 0;
      while i < |rows|
        invariant 0 <= i
        invariant Valid() && Flags() == old(Flags())
        invariant PushBatchesFrom(WorldOf(), cfg, rows, i, flagged, now) == PushBatchesFrom(old(WorldOf()), cfg, rows, 0, flagged, now)
        decreases |rows| - i
      {
        var batch := rows[i..Min(i + MAX_BATCH_SIZE, |rows|)];
        var o := remote.Upsert(cfg.name, if flagged then Strip(batch) else batch, KeyColumns(cfg.key));
        if o.Fail? {
          return o;
        }
        if flagged && cfg.markSynced.Some? {
          var mo := MarkAll(cfg.markSynced.value, cfg.key, batch, now);
          if mo.Fail? {
            return mo;
          }
        }
        i := i + MAX_BATCH_SIZE;
      }
      out := Pass;
    }

    /** One adapter of `pushLocalChanges`: its dirty rows when it tracks the
        flag, else all its rows when it has `getLocal`, else nothing. */
    method PushAdapter(table: SyncTableConfig, now: Time) returns (out: Outcome)
      requires Valid()
      modifies this, device, remote
      ensures Valid() && Flags() == old(Flags())
      ensures (WorldOf(), out) == PushTable(old(WorldOf()), table, now)
    {
      out := Pass;
      if table.hasIsSynced && table.getUnsynced.Some? {
        var unsynced := CallRead(table.getUnsynced.value);
        if unsynced.Err? {
          return Fail(unsynced.error);
        }
        out := PushBatches(table, unsynced.value, true, now);
      } else if table.getLocal.Some? {
        var allLocal := CallRead(table.getLocal.value);
        if allLocal.Err? {
          return Fail(allLocal.error);
        }
        out := PushBatches(table, allLocal.value, false, now);
      }
    }

    /** `pushLocalChanges`: every adapter in order; the first error ends the phase. */
    method PushLocalChanges(now: Time) returns (out: Outcome)
      requires Valid()
      modifies this, device, remote
      ensures Valid() && Flags() == old(Flags())
      ensures (WorldOf(), out) == Push(old(WorldOf()), now)
    {
      out := EnsureInitialized();
      if out.Fail? {
        return;
      }
      var tables := SYNC_TABLES;
      ghost var start := WorldOf();
      var t := 0;
      while t < |tables|
        invariant 0 <= t <= |tables|
        invariant Valid() && Flags() == old(Flags())
        invariant PushTablesFrom(WorldOf(), tables, t, now) == PushTablesFrom(start, tables, 0, now)
      {
        var o := PushAdapter(tables[t], now);
        if o.Fail? {
          return o;
        }
        t := t + 1;
      }
      out := Pass;
    }

    // -------------------------------------------------------------------------
    // Pull

    /** `Promise.all(batch.map(row => table.upsertLocal({...row, stamps})))`. */
    method UpsertAll(cfg: SyncTableConfig, batch: seq<Row>, now: Time) returns (out: Outcome)
      requires Valid()
      modifies this, device
      ensures Valid() && Flags() == old(Flags())
      ensures (LocalOf(), out) == UpsertFrom(old(LocalOf()), cfg, batch, 0, Pass, now)
    {
      out := Pass;
      var j := 0;
      while j < |batch|
        invariant 0 <= j <= |batch|
        invariant Valid() && Flags() == old(Flags())
        invariant UpsertFrom(LocalOf(), cfg, batch, j, out, now) == UpsertFrom(old(LocalOf()), cfg, batch, 0, Pass, now)
      {
        var o := CallUpsert(cfg.upsertLocal, AsPulled(cfg, batch[j], now), now);
        out := FirstFailure(out, o);
        j := j + 1;
      }
    }

    method PullBatches(cfg: SyncTableConfig, data: seq<Row>, now: Time) returns (out: Outcome)
      requires Valid()
      modifies this, device
      ensures Valid() && Flags() == old(Flags())
      ensures (LocalOf(), out) == PullBatchesFrom(old(LocalOf()), cfg, data, 0, now)
    {
      var i := 0;
      while i < |data|
        invariant 0 <= i
        invariant Valid() && Flags() == old(Flags())
        invariant PullBatchesFrom(LocalOf(), cfg, data, i, now) == PullBatchesFrom(old(LocalOf()), cfg, data, 0, now)
        decreases |data| - i
      {
        var o := UpsertAll(cfg, data[i..Min(i + MAX_BATCH_SIZE, |data|)], now);
        if o.Fail? {
          return o;
        }
        i := i + MAX_BATCH_SIZE;
      }
      out := Pass;
    }

    /** One adapter's pull: fetch its scope from the backend, then store it in batches. */
    method PullAdapter(table: SyncTableConfig, now: Time) returns (out: Outcome)
      requires Valid()
      modifies this, device, remote
      ensures Valid() && Flags() == old(Flags())
      ensures (WorldOf(), out) == PullTable(old(WorldOf()), table, lastSyncTimestamp, now)
    {
      var data := remote.Select(table.name, PullScope(table, lastSyncTimestamp));
      if data.Err? {
        return Fail(data.error);
      }
      out := PullBatches(table, data.value, now);
    }

    /** `pullRemoteChanges`: every adapter in order; the first error ends the phase. */
    method PullRemoteChanges(now: Time) returns (out: Outcome)
      requires Valid()
      modifies this, device, remote
      ensures Valid() && Flags() == old(Flags())
      ensures (WorldOf(), out) == Pull(old(WorldOf()), lastSyncTimestamp, now)
    {
      var tables := SYNC_TABLES;
      ghost var start := WorldOf();
      var t := 0;
      while t < |tables|
        invariant 0 <= t <= |tables|
        invariant Valid() && Flags() == old(Flags())
        invariant PullTablesFrom(WorldOf(), tables, t, lastSyncTimestamp, now)
               == PullTablesFrom(start, tables, 0, lastSyncTimestamp, now)
      {
        var o := PullAdapter(tables[t], now);
        if o.Fail? {
          return o;
        }
        t := t + 1;
      }
      out := Pass;
    }

    // -------------------------------------------------------------------------
    // The cycle and the timer

    /** `syncData`; `connected` is what the network check reports. */
    method SyncData(connected: bool, now: Time)
      requires Valid()
      modifies this, device, remote
      ensures Valid() && timers == old(timers)
      ensures EngineOf() == SyncCycle(old(EngineOf()), connected, now)
    {
      if syncInProgress {
        return;
      }
      if !connected {
        return;
      }
      syncInProgress := true;
      var o := PushLocalChanges(now);
      if o.Pass? {
        o := PullRemoteChanges(now);
        if o.Pass? {
          lastSyncTimestamp := Some(now);
        }
      }
      syncInProgress := false;
    }

    /** `startSync`: initialise, run one cycle, then arm an interval. A failing
        initialisation throws before anything else. */
    method StartSync(connected: bool, now: Time) returns (out: Outcome)
      requires Valid()
      modifies this, device, remote
      ensures Valid()
      ensures var (l, o) := EnsureInit(old(LocalOf()));
        && out == o
        && (o.Fail? ==> EngineOf() == old(EngineOf()).(local := l) && timers == old(timers))
        && (o.Pass? ==> EngineOf() == SyncCycle(old(EngineOf()).(local := l), connected, now)
                        && timers == Arm(old(timers)))
    {
      out := EnsureInitialized();
      if out.Fail? {
        return;
      }
      SyncData(connected, now);
      timers := Arm(timers);
    }

    method StopSync()
      requires Valid()
      modifies this
      ensures Valid()
      ensures timers == Clear(old(timers))
      ensures EngineOf() == old(EngineOf())
    {
      if timers.armed {
        timers := Clear(timers);
      }
    }
  }
}
