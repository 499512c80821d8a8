/** The standalone local-store functions: they share the device's SQLite file
    with the sync engine and work on its `profiles` table (and, for
    `initDatabase`, create all three tables, `branches` in its original
    four-column shape). Each function is a method on the open handle; what it
    leaves in the file is stated by `Apply` of its statement, and the lemmas
    below say what that means for the rows. */
module LocalDatabase {
  import opened Rows
  import opened Store
  import opened Entities
  import opened TableSchemas
  import opened SyncEngine

  /** `initDatabase`'s branches: no `address`, `synced_at` or `is_synced`. */
  const LegacyBranchesCreate := TableDef("branches", map[
      "id" := Plain,
      "name" := Required,
      "created_at" := Stamped,
      "updated_at" := Stamped], ["id"])

  /** What `initDatabase` does to the file: its three creates, in order. */
  function InitTables(db: Db): Db {
    CreateIfAbsent(CreateIfAbsent(CreateIfAbsent(db, ProfilesCreate), LegacyBranchesCreate), AssignmentsCreate)
  }

  /** What `saveLocalProfile` inserts: the profile's fields, `synced_at` the
      current time and `is_synced = 1`; `created_at` and `updated_at` are not
      supplied. */
  function SavedProfileValues(p: Profile, now: Time): Row {
    map["id" := Text(p.id), "email" := Text(p.email), "name" := Text(p.name), "role" := Text(RoleName(p.role)),
        "synced_at" := Int(now), "is_synced" := Int(1)]
  }

  /** The `profiles` table has the registry's shape. */
  predicate ProfilesShaped(db: Db) {
    "profiles" in db && db["profiles"].columns == ProfilesCreate.columns && db["profiles"].key == ["id"]
  }

  // ---------------------------------------------------------------------------
  // The functions

  /** `initDatabase`: three `CREATE TABLE IF NOT EXISTS`; a create never fails in this
      model (see README, "Left out"). */
  method InitDatabase(db: Database) returns (ok: bool)
    modifies db
    ensures db.tables == InitTables(old(db.tables)) && ok
  {
    var created := db.RunSync(CreateTable(ProfilesCreate));
    created := db.RunSync(CreateTable(LegacyBranchesCreate));
    created := db.RunSync(CreateTable(AssignmentsCreate));
    ok := true;
  }

  /** `getLocalProfile`: the first row with that id, or nothing; a query that
      throws gives its error. */
  method GetLocalProfile(db: Database, userId: string) returns (r: Result<Option<Row>>)
    ensures "profiles" !in db.tables ==> r == Err(NoSuchTable("profiles"))
    ensures "profiles" in db.tables && "id" !in db.tables["profiles"].columns ==> r == Err(NoSuchColumn("profiles"))
    ensures "profiles" in db.tables && "id" in db.tables["profiles"].columns ==>
      var rows := db.tables["profiles"].rows;
      && r.Ok?
      && (r.value.None? <==> forall x :: x in rows ==> Get(x, "id") != Text(userId))
      && (r.value.Some? ==> r.value.value in rows && Get(r.value.value, "id") == Text(userId))
      && r.value == FirstRow(Matching(rows, "id", Text(userId)))
  {
    var rows := db.GetAllSync(SelectWhere("profiles", "id", Text(userId)));
    if rows.Err? {
      return Err(rows.error);
    }
    r := Ok(FirstRow(rows.value));
    var all := db.tables["profiles"].rows;
    forall x ensures x in rows.value <==> x in all && Get(x, "id") == Text(userId) {
      MatchingExact(all, "id", Text(userId), x);
    }
    if rows.value != [] {
      assert rows.value[0] in rows.value;
    }
  }

  /** `saveLocalProfile`: INSERT OR REPLACE of the profile, marked synced now. */
  method SaveLocalProfile(db: Database, p: Profile, now: Time) returns (out: Outcome)
    modifies db
    ensures (db.tables, out) == Apply(old(db.tables), InsertOrReplace("profiles", SavedProfileValues(p, now), now))
  {
    out := db.RunSync(InsertOrReplace("profiles", SavedProfileValues(p, now), now));
  }

  /** `getUnsynced`: exactly the profiles whose `is_synced` is 0, in table order. */
  method GetUnsynced(db: Database) returns (r: Result<seq<Row>>)
    ensures "profiles" !in db.tables ==> r == Err(NoSuchTable("profiles"))
    ensures "profiles" in db.tables && "is_synced" !in db.tables["profiles"].columns ==> r == Err(NoSuchColumn("profiles"))
    ensures "profiles" in db.tables && "is_synced" in db.tables["profiles"].columns ==>
      var rows := db.tables["profiles"].rows;
      && r.Ok?
      && (forall x :: x in r.value <==> x in rows && Get(x, "is_synced") == Int(0))
      && multiset(r.value) <= multiset(rows)
      && r.value == Matching(rows, "is_synced", Int(0))
  {
    r := db.GetAllSync(SelectWhere("profiles", "is_synced", Int(0)));
    if r.Ok? {
      var rows := db.tables["profiles"].rows;
      forall x ensures x in r.value <==> x in rows && Get(x, "is_synced") == Int(0) {
        MatchingExact(rows, "is_synced", Int(0), x);
      }
      FilterSubMultiset(rows, (x: Row) => SqlEq(Get(x, "is_synced"), Int(0)));
    }
  }

  /** `markAsSynced`: UPDATE of that id's rows to `is_synced = 1`, `synced_at = now`. */
  method MarkAsSynced(db: Database, userId: string, now: Time) returns (out: Outcome)
    modifies db
    ensures (db.tables, out) == Apply(old(db.tables), UpdateWhere("profiles", "id", Text(userId), Stamp(now)))
  {
    out := db.RunSync(UpdateWhere("profiles", "id", Text(userId), Stamp(now)));
  }

  /** `clearLocalProfile`: DELETE of that id's rows. */
  method ClearLocalProfile(db: Database, userId: string) returns (out: Outcome)
    modifies db
    ensures (db.tables, out) == Apply(old(db.tables), DeleteWhere("profiles", "id", Text(userId)))
  {
    out := db.RunSync(DeleteWhere("profiles", "id", Text(userId)));
  }

  // ---------------------------------------------------------------------------
  // What they mean

  /** `initDatabase` creates only the tables that are absent and touches no
      other table; running it twice is running it once. Its `branches` lacks the
      three columns the engine's migrations add. */
  lemma InitDatabaseEffect(db: Db)
    ensures var d := InitTables(db);
      && d.Keys == db.Keys + {"profiles", "branches", "branch_assignments"}
      && (forall n :: n in db ==> d[n] == db[n])
      && ("profiles" !in db ==> d["profiles"] == Table(ProfilesCreate.columns, ["id"], []))
      && ("branches" !in db ==> d["branches"] == Table(LegacyBranchesCreate.columns, ["id"], []))
      && ("branch_assignments" !in db ==> d["branch_assignments"] == Table(AssignmentsCreate.columns, ["branch_id", "user_id"], []))
      && ("branches" !in db ==> "address" !in d["branches"].columns && "synced_at" !in d["branches"].columns
                                && "is_synced" !in d["branches"].columns)
      && InitTables(d) == d
  {
    InitTablesCreates(db);
    InitTablesIdempotent(db);
  }

  lemma InitTablesCreates(db: Db)
    ensures var d := InitTables(db);
      && d.Keys == db.Keys + {"profiles", "branches", "branch_assignments"}
      && (forall n :: n in db ==> d[n] == db[n])
      && ("profiles" !in db ==> d["profiles"] == Table(ProfilesCreate.columns, ["id"], []))
      && ("branches" !in db ==> d["branches"] == Table(LegacyBranchesCreate.columns, ["id"], []))
      && ("branch_assignments" !in db ==> d["branch_assignments"] == Table(AssignmentsCreate.columns, ["branch_id", "user_id"], []))
  {
  }

  lemma InitTablesIdempotent(db: Db)
    ensures InitTables(InitTables(db)) == InitTables(db)
  {
    var d := InitTables(db);
    assert "profiles" in d && "branches" in d && "branch_assignments" in d;
  }

  /** The engine's bootstrap after `initDatabase` on a fresh file: every table
      ends with the registry's create columns, so the legacy `branches` is
      repaired by the three migrations. */
  lemma InitThenBootstrap(db: Db)
    requires "profiles" !in db && "branches" !in db && "branch_assignments" !in db
    ensures var b := Bootstrap(InitTables(db), TABLE_SCHEMAS);
      && "profiles" in b && "branches" in b && "branch_assignments" in b
      && b["profiles"].columns.Keys == ProfilesCreate.columns.Keys
      && b["branches"].columns.Keys == BranchesCreate.columns.Keys
      && b["branch_assignments"].columns.Keys == AssignmentsCreate.columns.Keys
  {
    InitTablesFresh(db);
    RegistryByName(InitTables(db));
    LegacyBranchesRepaired();
  }

  /** On a fresh file `initDatabase` leaves the three tables in their own shapes. */
  lemma InitTablesFresh(db: Db)
    requires "profiles" !in db && "branches" !in db && "branch_assignments" !in db
    ensures var d := InitTables(db);
      && d["profiles"].columns == ProfilesCreate.columns
      && d["branches"].columns == LegacyBranchesCreate.columns
      && d["branch_assignments"].columns == AssignmentsCreate.columns
  {
  }

  /** The legacy `branches` columns and the migration columns make up the registry's create. */
  lemma LegacyBranchesRepaired()
    ensures LegacyBranchesCreate.columns.Keys + {"address", "synced_at", "is_synced"} == BranchesCreate.columns.Keys
  {
    assert LegacyBranchesCreate.columns.Keys == {"id", "name", "created_at", "updated_at"};
    assert BranchesCreate.columns.Keys == {"id", "name", "address", "created_at", "updated_at", "synced_at", "is_synced"};
  }

  /** An INSERT OR REPLACE into a registry-shaped `profiles` with a text id, a
      text email and an admitted role succeeds: afterwards the id is held by
      exactly the stored row (the given values, defaults for the rest), every
      other id keeps its rows and no other table changes. */
  lemma ProfileReplaceEffect(db: Db, values: Row, now: Time)
    requires ProfilesShaped(db)
    requires values.Keys <= ProfilesCreate.columns.Keys
    requires "id" in values && values["id"].Text? && "email" in values && values["email"].Text?
    requires "role" in values && values["role"].Text? && values["role"].text in ProfileRoles
    ensures var (d, o) := Apply(db, InsertOrReplace("profiles", values, now));
      var row := BuildRow(ProfilesCreate.columns, values, now);
      && o == Pass
      && d == db["profiles" := db["profiles"].(rows := ReplaceRow(db["profiles"].rows, ["id"], row))]
      && row.Keys == ProfilesCreate.columns.Keys
      && (forall c :: c in values ==> row[c] == values[c])
      && (forall c :: c in ProfilesCreate.columns && c !in values ==> row[c] == DefaultValue(ProfilesCreate.columns[c], now))
      && WithKey(d["profiles"].rows, ["id"], [values["id"]]) == [row]
      && (forall k :: k != [values["id"]] ==> WithKey(d["profiles"].rows, ["id"], k) == WithKey(db["profiles"].rows, ["id"], k))
  {
    var t := db["profiles"];
    var row := BuildRow(t.columns, values, now);
    assert Admissible(t.columns, row);
    assert KeyOf(["id"], row) == [values["id"]];
    ReplaceLeavesOneRow(t.rows, ["id"], row);
    forall k | k != [values["id"]]
      ensures WithKey(ReplaceRow(t.rows, ["id"], row), ["id"], k) == WithKey(t.rows, ["id"], k)
    {
      ReplaceKeepsOtherKeys(t.rows, ["id"], row, k);
    }
  }

  /** `saveLocalProfile` on a registry-shaped table: it succeeds; afterwards
      that id is held by exactly one row, with the profile's fields, `is_synced
      = 1`, `synced_at` and both timestamps the current time; every other id
      keeps its rows and no other table changes. */
  lemma SaveLocalProfileEffect(db: Db, p: Profile, now: Time)
    requires ProfilesShaped(db)
    ensures var (d, o) := Apply(db, InsertOrReplace("profiles", SavedProfileValues(p, now), now));
      var held := WithKey(d["profiles"].rows, ["id"], [Text(p.id)]);
      && o == Pass
      && d.Keys == db.Keys && (forall n :: n in db && n != "profiles" ==> d[n] == db[n])
      && |held| == 1 && held[0].Keys == ProfilesCreate.columns.Keys
      && held[0]["id"] == Text(p.id) && held[0]["email"] == Text(p.email) && held[0]["name"] == Text(p.name)
      && held[0]["role"] == Text(RoleName(p.role))
      && held[0]["is_synced"] == Int(1) && held[0]["synced_at"] == Int(now)
      && held[0]["created_at"] == Int(now) && held[0]["updated_at"] == Int(now)
      && (forall k :: k != [Text(p.id)] ==> WithKey(d["profiles"].rows, ["id"], k) == WithKey(db["profiles"].rows, ["id"], k))
  {
    var t := db["profiles"];
    var values := SavedProfileValues(p, now);
    SavedProfileRow(t.columns, p, now);
    SavedProfileAdmissible(t.columns, p, now);
    InsertOrReplaceAdmitted(db, "profiles", values, now);
    ReplaceSummary(t.rows, ["id"], BuildRow(t.columns, values, now));
  }

  /** The row `saveLocalProfile` stores on a registry-shaped table: the given
      fields, and the current time in both timestamps. */
  lemma SavedProfileRow(columns: map<string, ColumnSpec>, p: Profile, now: Time)
    requires columns == ProfilesCreate.columns
    ensures var row := BuildRow(columns, SavedProfileValues(p, now), now);
      && SavedProfileValues(p, now).Keys <= columns.Keys
      && row.Keys == ProfilesCreate.columns.Keys
      && row["id"] == Text(p.id) && row["email"] == Text(p.email) && row["name"] == Text(p.name)
      && row["role"] == Text(RoleName(p.role))
      && row["is_synced"] == Int(1) && row["synced_at"] == Int(now)
      && row["created_at"] == Int(now) && row["updated_at"] == Int(now)
      && KeyOf(["id"], row) == [Text(p.id)]
  {
    SavedProfileGiven(columns, p, now);
    SavedProfileStamps(columns, p, now);
  }

  lemma SavedProfileGiven(columns: map<string, ColumnSpec>, p: Profile, now: Time)
    requires columns == ProfilesCreate.columns
    ensures var row := BuildRow(columns, SavedProfileValues(p, now), now);
      && SavedProfileValues(p, now).Keys <= columns.Keys
      && row.Keys == ProfilesCreate.columns.Keys
      && row["id"] == Text(p.id) && row["email"] == Text(p.email) && row["name"] == Text(p.name)
      && row["role"] == Text(RoleName(p.role))
      && row["is_synced"] == Int(1) && row["synced_at"] == Int(now)
  {
    var values := SavedProfileValues(p, now);
    assert values.Keys == {"id", "email", "name", "role", "synced_at", "is_synced"};
    BuildRowGiven(columns, values, now);
  }

  lemma SavedProfileStamps(columns: map<string, ColumnSpec>, p: Profile, now: Time)
    requires columns == ProfilesCreate.columns
    ensures var row := BuildRow(columns, SavedProfileValues(p, now), now);
      && "created_at" in row && "updated_at" in row && "id" in row
      && row["created_at"] == Int(now) && row["updated_at"] == Int(now)
      && KeyOf(["id"], row) == [Text(p.id)]
  {
    var values := SavedProfileValues(p, now);
    var row := BuildRow(columns, values, now);
    assert "created_at" !in values && "updated_at" !in values && "id" in values;
    BuildRowValues(columns, values, now, "created_at");
    BuildRowValues(columns, values, now, "updated_at");
    BuildRowValues(columns, values, now, "id");
    assert KeyOf(["id"], row) == [Text(p.id)] by {
      assert KeyOf(["id"], row)[0] == Get(row, "id");
    }
  }

  lemma SavedProfileAdmissible(columns: map<string, ColumnSpec>, p: Profile, now: Time)
    requires columns == ProfilesCreate.columns
    ensures Admissible(columns, BuildRow(columns, SavedProfileValues(p, now), now))
  {
    var values := SavedProfileValues(p, now);
    var row := BuildRow(columns, values, now);
    forall c | c in columns ensures c in row && Admits(columns[c], row[c]) {
      BuildRowValues(columns, values, now, c);
    }
  }

  /** `UPDATE .. SET is_synced = 1, synced_at = now WHERE id = ?` on a table with
      those columns: rows with that id are stamped, every other row and table is
      unchanged, nothing changes when no row has the id, and a second run
      changes nothing more. */
  lemma StampByIdEffect(db: Db, t: string, id: Value, now: Time)
    requires t in db
    requires var cols := db[t].columns; "id" in cols && "is_synced" in cols && "synced_at" in cols
    ensures var (d, o) := Apply(db, UpdateWhere(t, "id", id, Stamp(now)));
      var rows := db[t].rows;
      && o == Pass
      && d.Keys == db.Keys && (forall n :: n in db && n != t ==> d[n] == db[n])
      && d[t].columns == db[t].columns && d[t].key == db[t].key
      && |d[t].rows| == |rows|
      && (forall j :: 0 <= j < |rows| ==>
            if SqlEq(Get(rows[j], "id"), id)
            then d[t].rows[j] == rows[j]["is_synced" := Int(1)]["synced_at" := Int(now)]
            else d[t].rows[j] == rows[j])
    ensures (forall j :: 0 <= j < |db[t].rows| ==> !SqlEq(Get(db[t].rows[j], "id"), id))
            ==> Apply(db, UpdateWhere(t, "id", id, Stamp(now))) == (db, Pass)
    ensures var d := Apply(db, UpdateWhere(t, "id", id, Stamp(now))).0;
      Apply(d, UpdateWhere(t, "id", id, Stamp(now))) == (d, Pass)
  {
    var tbl := db[t];
    var rows := tbl.rows;
    var marked := SetWhere(rows, "id", {id}, Stamp(now));
    var d := db[t := tbl.(rows := marked)];
    assert Apply(db, UpdateWhere(t, "id", id, Stamp(now))) == (d, Pass);
    forall j | 0 <= j < |rows|
      ensures if SqlEq(Get(rows[j], "id"), id)
              then marked[j] == rows[j]["is_synced" := Int(1)]["synced_at" := Int(now)]
              else marked[j] == rows[j]
    {
      if SqlEq(Get(rows[j], "id"), id) {
        assert ColumnIn(rows[j], "id", {id});
        assert rows[j] + Stamp(now) == rows[j]["is_synced" := Int(1)]["synced_at" := Int(now)];
      } else {
        assert !ColumnIn(rows[j], "id", {id});
      }
    }
    if forall j :: 0 <= j < |rows| ==> !SqlEq(Get(rows[j], "id"), id) {
      forall j | 0 <= j < |rows| ensures !ColumnIn(rows[j], "id", {id}) {
      }
      SetWhereNothing(rows, "id", {id}, Stamp(now));
      assert d == db;
    }
    SetWhereCompose(rows, "id", {id}, {id}, Stamp(now));
    assert {id} + {id} == {id};
    assert SetWhere(marked, "id", {id}, Stamp(now)) == marked;
    assert d[t := d[t].(rows := marked)] == d;
    assert Apply(d, UpdateWhere(t, "id", id, Stamp(now))) == (d[t := d[t].(rows := SetWhere(marked, "id", {id}, Stamp(now)))], Pass);
  }

  /** `clearLocalProfile` on a table with an `id` column: exactly the rows with
      other ids remain, in order; no other table changes; clearing again changes
      nothing; and afterwards no row has that id. */
  lemma ClearEffect(db: Db, userId: string)
    requires "profiles" in db && "id" in db["profiles"].columns
    ensures var (d, o) := Apply(db, DeleteWhere("profiles", "id", Text(userId)));
      && o == Pass
      && d.Keys == db.Keys && (forall n :: n in db && n != "profiles" ==> d[n] == db[n])
      && (forall x :: x in d["profiles"].rows <==> x in db["profiles"].rows && Get(x, "id") != Text(userId))
      && Apply(d, DeleteWhere("profiles", "id", Text(userId))) == (d, Pass)
  {
    var rows := db["profiles"].rows;
    var kept := NotMatching(rows, "id", Text(userId));
    forall x ensures x in kept <==> x in rows && Get(x, "id") != Text(userId) {
      NotMatchingExact(rows, "id", Text(userId), x);
    }
    FilterAll(kept, (r: Row) => !SqlEq(Get(r, "id"), Text(userId)));
    assert NotMatching(kept, "id", Text(userId)) == kept;
    var d := db["profiles" := db["profiles"].(rows := kept)];
    assert Apply(db, DeleteWhere("profiles", "id", Text(userId))) == (d, Pass);
    assert d["profiles"].rows == kept;
    assert d["profiles" := d["profiles"].(rows := kept)] == d;
  }
}
