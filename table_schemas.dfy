/** The schema registry: each table's CREATE TABLE IF NOT EXISTS and its ordered,
    best-effort ADD COLUMN migrations, as column sets. `Bootstrap` is what the
    sync engine's initialisation does with them: every create in registry order,
    each followed by that table's migrations, a failing migration ignored. */
module TableSchemas {
  import opened Rows
  import opened Store

  /** `ALTER TABLE table ADD COLUMN column spec`. */
  datatype Migration = Migration(description: string, table: string, column: string, spec: ColumnSpec)

  datatype TableSchema = TableSchema(name: string, create: TableDef, migrations: seq<Migration>)

  const Plain := ColumnSpec(NoDefault, false, None)
  const Required := ColumnSpec(NoDefault, true, None)
  const Stamped := ColumnSpec(CurrentTimestamp, false, None)
  const Unsynced := ColumnSpec(Constant(Int(0)), false, None)   // is_synced INTEGER DEFAULT 0

  const ProfileRoles: set<string> := {"admin", "manager", "user"}
  const AssignmentRoles: set<string> := {"manager", "user"}

  const ProfilesCreate := TableDef("profiles", map[
      "id" := Plain,
      "email" := Required,
      "name" := Plain,
      "role" := ColumnSpec(Constant(Text("user")), false, Some(ProfileRoles)),
      "created_at" := Stamped,
      "updated_at" := Stamped,
      "synced_at" := Plain,
      "is_synced" := Unsynced], ["id"])

  const BranchesCreate := TableDef("branches", map[
      "id" := Plain,
      "name" := Required,
      "address" := Plain,
      "created_at" := Stamped,
      "updated_at" := Stamped,
      "synced_at" := Plain,
      "is_synced" := Unsynced], ["id"])

  const AssignmentsCreate := TableDef("branch_assignments", map[
      "branch_id" := Required,
      "user_id" := Required,
      "role" := ColumnSpec(NoDefault, true, Some(AssignmentRoles)),
      "assigned_at" := Stamped], ["branch_id", "user_id"])

  const BranchMigrations := [
    Migration("Add address column if missing", "branches", "address", Plain),
    Migration("Add synced_at column if missing", "branches", "synced_at", Plain),
    Migration("Add is_synced column if missing", "branches", "is_synced", Unsynced)]

  const TABLE_SCHEMAS: seq<TableSchema> := [
    TableSchema("profiles", ProfilesCreate, []),
    TableSchema("branches", BranchesCreate, BranchMigrations),
    TableSchema("branch_assignments", AssignmentsCreate, [])]

  function MigrationStatement(m: Migration): Statement {
    AddColumn(m.table, m.column, m.spec)
  }

  /** Run migrations in order; a failing one leaves the file as it was and the rest still run. */
  function Migrate(db: Db, ms: seq<Migration>): Db
    decreases |ms|
  {
    if ms == [] then db else Migrate(Apply(db, MigrationStatement(ms[0])).0, ms[1..])
  }

  /** Every table's create, then its migrations, in registry order. */
  function Bootstrap(db: Db, schemas: seq<TableSchema>): Db
    decreases |schemas|
  {
    if schemas == [] then db
    else Bootstrap(Migrate(Apply(db, CreateTable(schemas[0].create)).0, schemas[0].migrations), schemas[1..])
  }

  function MigrationColumns(ms: seq<Migration>): set<string> {
    set m | m in ms :: m.column
  }

  function Names(schemas: seq<TableSchema>): set<string> {
    set s | s in schemas :: s.name
  }

  /** Names are distinct, each create is for its own table, and each migration
      adds a column SQLite can add to that table. */
  ghost predicate WellFormed(schemas: seq<TableSchema>) {
    && (forall i :: 0 <= i < |schemas| ==> schemas[i].create.name == schemas[i].name)
    && (forall i, j :: 0 <= i < j < |schemas| ==> schemas[i].name != schemas[j].name)
    && (forall i, m :: 0 <= i < |schemas| && m in schemas[i].migrations ==>
          m.table == schemas[i].name && Addable(m.spec))
  }

  /** The columns a registry table ends with: the ones it had (or its create's, if
      it was absent) plus its migration columns. */
  function ConvergedColumns(db: Db, s: TableSchema): set<string> {
    (if s.name in db then db[s.name].columns.Keys else s.create.columns.Keys) + MigrationColumns(s.migrations)
  }

  // ---------------------------------------------------------------------------

  /** One migration on a present table: its column is then there, whether it
      was added or the statement failed because it already existed; no other
      table changes. */
  lemma MigrationStep(db: Db, m: Migration)
    requires m.table in db && Addable(m.spec)
    ensures var db1 := Apply(db, MigrationStatement(m)).0;
      && db1.Keys == db.Keys
      && m.table in db1 && db1[m.table].columns.Keys == db[m.table].columns.Keys + {m.column}
      && forall n :: n in db && n != m.table ==> db1[n] == db[n]
  {
  }

  /** A migration list for one present table adds exactly its columns to that table
      and touches no other table. */
  lemma {:induction false} MigrateEffect(db: Db, name: string, ms: seq<Migration>)
    requires name in db
    requires forall m :: m in ms ==> m.table == name && Addable(m.spec)
    ensures Migrate(db, ms).Keys == db.Keys
    ensures Migrate(db, ms)[name].columns.Keys == db[name].columns.Keys + MigrationColumns(ms)
    ensures forall n :: n in db && n != name ==> Migrate(db, ms)[n] == db[n]
    decreases |ms|
  {
    if ms != [] {
      MigrationStep(db, ms[0]);
      MigrateEffect(Apply(db, MigrationStatement(ms[0])).0, name, ms[1..]);
      assert MigrationColumns(ms) == {ms[0].column} + MigrationColumns(ms[1..]) by {
        assert ms == [ms[0]] + ms[1..];
      }
    } else {
      assert MigrationColumns(ms) == {};
    }
  }

  /** Migrations whose columns are all present fail one by one and change nothing. */
  lemma {:induction false} MigrateNoop(db: Db, ms: seq<Migration>)
    requires forall m :: m in ms ==> m.table in db && m.column in db[m.table].columns
    ensures Migrate(db, ms) == db
    decreases |ms|
  {
    if ms != [] {
      assert Exec(db, MigrationStatement(ms[0])).Err?;
      MigrateNoop(db, ms[1..]);
    }
  }

  /** The tail of a well-formed registry is well formed and does not name its head. */
  lemma WellFormedTail(schemas: seq<TableSchema>)
    requires WellFormed(schemas) && schemas != []
    ensures WellFormed(schemas[1..])
    ensures schemas[0].name !in Names(schemas[1..])
    ensures Names(schemas) == {schemas[0].name} + Names(schemas[1..])
  {
    var rest := schemas[1..];
    forall i, m | 0 <= i < |rest| && m in rest[i].migrations
      ensures m.table == rest[i].name && Addable(m.spec)
    {
      assert rest[i] == schemas[i + 1];
    }
    forall i, j | 0 <= i < j < |rest| ensures rest[i].name != rest[j].name {
      assert rest[i] == schemas[i + 1] && rest[j] == schemas[j + 1];
    }
    forall j | 0 <= j < |rest| ensures rest[j].name != schemas[0].name {
      assert rest[j] == schemas[j + 1];
    }
    assert schemas == [schemas[0]] + rest;
  }

  /** One registry entry: its create, then its migrations, leave that table with
      its converged columns and every other table as it was. */
  lemma SchemaStep(db: Db, s: TableSchema)
    requires s.create.name == s.name
    requires forall m :: m in s.migrations ==> m.table == s.name && Addable(m.spec)
    ensures var db1 := Migrate(Apply(db, CreateTable(s.create)).0, s.migrations);
      && db1.Keys == db.Keys + {s.name}
      && db1[s.name].columns.Keys == ConvergedColumns(db, s)
      && forall n :: n in db && n != s.name ==> db1[n] == db[n]
  {
    var created := Apply(db, CreateTable(s.create)).0;
    assert created == CreateIfAbsent(db, s.create);
    MigrateEffect(created, s.name, s.migrations);
  }

  /** Bootstrap adds exactly the registry's tables. */
  lemma {:induction false} BootstrapKeys(db: Db, schemas: seq<TableSchema>)
    requires WellFormed(schemas)
    ensures Bootstrap(db, schemas).Keys == db.Keys + Names(schemas)
    decreases |schemas|
  {
    if schemas != [] {
      SchemaStep(db, schemas[0]);
      WellFormedTail(schemas);
      BootstrapKeys(Migrate(Apply(db, CreateTable(schemas[0].create)).0, schemas[0].migrations), schemas[1..]);
    } else {
      assert Names(schemas) == {};
    }
  }

  /** Bootstrap leaves the tables outside the registry as they were. */
  lemma {:induction false} BootstrapOthers(db: Db, schemas: seq<TableSchema>, n: string)
    requires WellFormed(schemas)
    requires n in db && n !in Names(schemas)
    ensures n in Bootstrap(db, schemas) && Bootstrap(db, schemas)[n] == db[n]
    decreases |schemas|
  {
    if schemas != [] {
      SchemaStep(db, schemas[0]);
      WellFormedTail(schemas);
      BootstrapOthers(Migrate(Apply(db, CreateTable(schemas[0].create)).0, schemas[0].migrations), schemas[1..], n);
    }
  }

  /** Bootstrap leaves each registry table with its converged columns. */
  lemma {:induction false} BootstrapColumns(db: Db, schemas: seq<TableSchema>, i: nat)
    requires WellFormed(schemas) && i < |schemas|
    ensures schemas[i].name in Bootstrap(db, schemas)
    ensures Bootstrap(db, schemas)[schemas[i].name].columns.Keys == ConvergedColumns(db, schemas[i])
    decreases |schemas|
  {
    var s := schemas[0];
    var rest := schemas[1..];
    SchemaStep(db, s);
    var db1 := Migrate(Apply(db, CreateTable(s.create)).0, s.migrations);
    WellFormedTail(schemas);
    if i == 0 {
      if rest != [] {
        BootstrapOthers(db1, rest, s.name);
      }
    } else {
      assert schemas[i] == rest[i - 1];
      assert schemas[i].name != s.name by {
        assert schemas[i].name in Names(rest);
      }
      BootstrapColumns(db1, rest, i - 1);
      assert ConvergedColumns(db1, rest[i - 1]) == ConvergedColumns(db, schemas[i]);
    }
  }

  /** Column-set convergence: whatever shape the file starts in, after bootstrap
      every registry table exists and holds its converged columns; tables outside
      the registry are untouched. */
  lemma BootstrapEffect(db: Db, schemas: seq<TableSchema>)
    requires WellFormed(schemas)
    ensures Bootstrap(db, schemas).Keys == db.Keys + Names(schemas)
    ensures forall n :: n in db && n !in Names(schemas) ==> Bootstrap(db, schemas)[n] == db[n]
    ensures forall i :: 0 <= i < |schemas| ==>
              Bootstrap(db, schemas)[schemas[i].name].columns.Keys == ConvergedColumns(db, schemas[i])
  {
    BootstrapKeys(db, schemas);
    forall n | n in db && n !in Names(schemas) ensures Bootstrap(db, schemas)[n] == db[n] {
      BootstrapOthers(db, schemas, n);
    }
    forall i | 0 <= i < |schemas|
      ensures Bootstrap(db, schemas)[schemas[i].name].columns.Keys == ConvergedColumns(db, schemas[i])
    {
      BootstrapColumns(db, schemas, i);
    }
  }

  /** A file that already holds every registry table with its migration columns is
      a fixed point of bootstrap. */
  lemma {:induction false} BootstrapFixpoint(db: Db, schemas: seq<TableSchema>)
    requires WellFormed(schemas)
    requires forall i :: 0 <= i < |schemas| ==>
               schemas[i].name in db && MigrationColumns(schemas[i].migrations) <= db[schemas[i].name].columns.Keys
    ensures Bootstrap(db, schemas) == db
    decreases |schemas|
  {
    if schemas != [] {
      var s := schemas[0];
      assert Apply(db, CreateTable(s.create)).0 == db;
      forall m | m in s.migrations ensures m.table in db && m.column in db[m.table].columns {
        assert m.column in MigrationColumns(s.migrations);
      }
      MigrateNoop(db, s.migrations);
      var rest := schemas[1..];
      assert WellFormed(rest) by {
        forall i, m | 0 <= i < |rest| && m in rest[i].migrations
          ensures m.table == rest[i].name && Addable(m.spec)
        {
          assert rest[i] == schemas[i + 1];
        }
        forall i, j | 0 <= i < j < |rest| ensures rest[i].name != rest[j].name {
          assert rest[i] == schemas[i + 1] && rest[j] == schemas[j + 1];
        }
      }
      forall i | 0 <= i < |rest|
        ensures rest[i].name in db && MigrationColumns(rest[i].migrations) <= db[rest[i].name].columns.Keys
      {
        assert rest[i] == schemas[i + 1];
      }
      BootstrapFixpoint(db, rest);
    }
  }

  /** Running bootstrap again changes nothing: creates find their tables, and every
      migration fails on its existing column and is swallowed. */
  lemma BootstrapIdempotent(db: Db, schemas: seq<TableSchema>)
    requires WellFormed(schemas)
    ensures Bootstrap(Bootstrap(db, schemas), schemas) == Bootstrap(db, schemas)
  {
    BootstrapEffect(db, schemas);
    var b := Bootstrap(db, schemas);
    forall i | 0 <= i < |schemas|
      ensures schemas[i].name in b && MigrationColumns(schemas[i].migrations) <= b[schemas[i].name].columns.Keys
    {
      assert schemas[i].name in Names(schemas);
    }
    BootstrapFixpoint(b, schemas);
  }

  // ---------------------------------------------------------------------------
  // The registry itself

  lemma RegistryWellFormed()
    ensures WellFormed(TABLE_SCHEMAS)
  {
    forall i, m | 0 <= i < |TABLE_SCHEMAS| && m in TABLE_SCHEMAS[i].migrations
      ensures m.table == TABLE_SCHEMAS[i].name && Addable(m.spec)
    {
      assert i == 1;
    }
  }

  /** The registry's contents: three tables in order, the branches migrations in
      order, the role constraints, keys and dirty-flag defaults. */
  lemma RegistryShape()
    ensures |TABLE_SCHEMAS| == 3
    ensures TABLE_SCHEMAS[0].name == "profiles" && TABLE_SCHEMAS[1].name == "branches"
         && TABLE_SCHEMAS[2].name == "branch_assignments"
    ensures TABLE_SCHEMAS[0].migrations == [] && TABLE_SCHEMAS[2].migrations == []
    ensures |TABLE_SCHEMAS[1].migrations| == 3
         && TABLE_SCHEMAS[1].migrations[0].column == "address"
         && TABLE_SCHEMAS[1].migrations[1].column == "synced_at"
         && TABLE_SCHEMAS[1].migrations[2].column == "is_synced"
    ensures ProfilesCreate.columns["role"].allowed == Some({"admin", "manager", "user"})
         && ProfilesCreate.columns["role"].default == Constant(Text("user"))
    ensures AssignmentsCreate.columns["role"].allowed == Some({"manager", "user"})
         && AssignmentsCreate.columns["role"].notNull
    ensures ProfilesCreate.key == ["id"] && BranchesCreate.key == ["id"]
         && AssignmentsCreate.key == ["branch_id", "user_id"]
    ensures ProfilesCreate.columns["is_synced"].default == Constant(Int(0))
         && BranchesCreate.columns["is_synced"].default == Constant(Int(0))
  {
  }

  lemma RegistryNames()
    ensures Names(TABLE_SCHEMAS) == {"profiles", "branches", "branch_assignments"}
  {
    assert TABLE_SCHEMAS[0] in TABLE_SCHEMAS && TABLE_SCHEMAS[1] in TABLE_SCHEMAS && TABLE_SCHEMAS[2] in TABLE_SCHEMAS;
  }

  lemma BranchMigrationColumns()
    ensures MigrationColumns(BranchMigrations) == {"address", "synced_at", "is_synced"}
  {
    assert BranchMigrations[0].column == "address";
    assert BranchMigrations[1].column == "synced_at";
    assert BranchMigrations[2].column == "is_synced";
  }

  /** From any starting file, bootstrap of the registry leaves each of its tables
      with its converged column set, and branches always with its migration columns. */
  lemma RegistryConverges(db: Db)
    ensures var b := Bootstrap(db, TABLE_SCHEMAS);
      && (forall i :: 0 <= i < |TABLE_SCHEMAS| ==>
            TABLE_SCHEMAS[i].name in b && b[TABLE_SCHEMAS[i].name].columns.Keys == ConvergedColumns(db, TABLE_SCHEMAS[i]))
      && "branches" in b && {"address", "synced_at", "is_synced"} <= b["branches"].columns.Keys
  {
    RegistryWellFormed();
    forall i | 0 <= i < |TABLE_SCHEMAS|
      ensures TABLE_SCHEMAS[i].name in Bootstrap(db, TABLE_SCHEMAS)
      ensures Bootstrap(db, TABLE_SCHEMAS)[TABLE_SCHEMAS[i].name].columns.Keys == ConvergedColumns(db, TABLE_SCHEMAS[i])
    {
      BootstrapColumns(db, TABLE_SCHEMAS, i);
    }
    BranchMigrationColumns();
    assert TABLE_SCHEMAS[1].name == "branches" && TABLE_SCHEMAS[1].migrations == BranchMigrations;
  }

  /** The registry's column sets by table name: `profiles` and
      `branch_assignments` keep the columns they had (or get their create's),
      `branches` additionally gains the three migration columns. */
  lemma RegistryByName(db: Db)
    ensures var b := Bootstrap(db, TABLE_SCHEMAS);
      && "profiles" in b && "branches" in b && "branch_assignments" in b
      && b["profiles"].columns.Keys == (if "profiles" in db then db["profiles"].columns.Keys else ProfilesCreate.columns.Keys)
      && b["branches"].columns.Keys
         == (if "branches" in db then db["branches"].columns.Keys else BranchesCreate.columns.Keys) + {"address", "synced_at", "is_synced"}
      && b["branch_assignments"].columns.Keys
         == (if "branch_assignments" in db then db["branch_assignments"].columns.Keys else AssignmentsCreate.columns.Keys)
  {
    RegistryTable(db, 0);
    RegistryTable(db, 1);
    RegistryTable(db, 2);
  }

  /** One registry table after bootstrap, by name. */
  lemma RegistryTable(db: Db, i: nat)
    requires i < 3
    ensures var b := Bootstrap(db, TABLE_SCHEMAS);
      var (name, create, added) := RegistryEntry(i);
      && name in b
      && b[name].columns.Keys == (if name in db then db[name].columns.Keys else create.columns.Keys) + added
  {
    RegistryWellFormed();
    RegistryShape();
    BranchMigrationColumns();
    assert TABLE_SCHEMAS[1].migrations == BranchMigrations;
    assert MigrationColumns([]) == {};
    BootstrapColumns(db, TABLE_SCHEMAS, i);
  }

  /** A registry entry's name, create and migration columns, written out. */
  function RegistryEntry(i: nat): (string, TableDef, set<string>)
    requires i < 3
  {
    if i == 0 then ("profiles", ProfilesCreate, {})
    else if i == 1 then ("branches", BranchesCreate, {"address", "synced_at", "is_synced"})
    else ("branch_assignments", AssignmentsCreate, {})
  }

  /** A table the file lacks, whose migrations only add columns its create
      already has, converges to its create's columns. */
  lemma ConvergedFresh(db: Db, s: TableSchema)
    requires s.name !in db && MigrationColumns(s.migrations) <= s.create.columns.Keys
    ensures ConvergedColumns(db, s) == s.create.columns.Keys
  {
  }

  /** On a file that holds none of the registry tables (a fresh file, say), each
      registry table gets exactly the columns of its create. */
  lemma RegistryFromScratch(db: Db)
    requires "profiles" !in db && "branches" !in db && "branch_assignments" !in db
    ensures var b := Bootstrap(db, TABLE_SCHEMAS);
      && b.Keys == db.Keys + {"profiles", "branches", "branch_assignments"}
      && b["profiles"].columns.Keys == ProfilesCreate.columns.Keys
      && b["branches"].columns.Keys == BranchesCreate.columns.Keys
      && b["branch_assignments"].columns.Keys == AssignmentsCreate.columns.Keys
  {
    RegistryWellFormed();
    BootstrapKeys(db, TABLE_SCHEMAS);
    RegistryNames();
    BranchMigrationColumns();
    assert MigrationColumns([]) == {};
    ConvergedFresh(db, TABLE_SCHEMAS[0]);
    ConvergedFresh(db, TABLE_SCHEMAS[1]);
    ConvergedFresh(db, TABLE_SCHEMAS[2]);
    BootstrapColumns(db, TABLE_SCHEMAS, 0);
    BootstrapColumns(db, TABLE_SCHEMAS, 1);
    BootstrapColumns(db, TABLE_SCHEMAS, 2);
  }

  /** `CREATE TABLE IF NOT EXISTS` on a table that exists changes nothing; in this
      model the statement itself never fails. */
  lemma CreateIsIdempotent(db: Db, def: TableDef)
    ensures Exec(db, CreateTable(def)).Ok?
    ensures def.name in db ==> Exec(db, CreateTable(def)).value == db
    ensures CreateIfAbsent(CreateIfAbsent(db, def), def) == CreateIfAbsent(db, def)
  {
  }
}
