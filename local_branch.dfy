/** `saveLocalBranch`: an INSERT OR REPLACE into `branches` of the branch's id,
    name and address and its two timestamps, an absent timestamp written as an
    explicit NULL. `synced_at` and `is_synced` are not supplied, so the new row
    takes their defaults and is dirty, whatever the replaced row held. */
module LocalBranch {
  import opened Rows
  import opened Store
  import opened Entities
  import opened TableSchemas
  import opened LocalDatabase

  /** The five values the statement binds. */
  function SavedBranchValues(b: Branch): Row {
    map["id" := Text(b.id), "name" := Text(b.name), "address" := Text(b.address),
        "created_at" := TimeValue(b.created_at), "updated_at" := TimeValue(b.updated_at)]
  }

  method SaveLocalBranch(db: Database, b: Branch, now: Time) returns (out: Outcome)
    modifies db
    ensures (db.tables, out) == Apply(old(db.tables), InsertOrReplace("branches", SavedBranchValues(b), now))
  {
    out := db.RunSync(InsertOrReplace("branches", SavedBranchValues(b), now));
  }

  /** The `branches` table has the registry's shape. */
  predicate BranchesShaped(db: Db) {
    "branches" in db && db["branches"].columns == BranchesCreate.columns && db["branches"].key == ["id"]
  }

  /** On a registry-shaped table the save succeeds. Afterwards the branch's id
      is held by exactly one row: the given id, name and address; the given
      timestamps or NULL, never the column default; `synced_at` NULL and
      `is_synced` 0, so the row is among the unsynced rows. Every other id
      keeps its rows and no other table changes. */
  lemma SaveLocalBranchEffect(db: Db, b: Branch, now: Time)
    requires BranchesShaped(db)
    ensures var (d, o) := Apply(db, InsertOrReplace("branches", SavedBranchValues(b), now));
      var held := WithKey(d["branches"].rows, ["id"], [Text(b.id)]);
      && o == Pass
      && d.Keys == db.Keys && (forall n :: n in db && n != "branches" ==> d[n] == db[n])
      && |held| == 1 && held[0].Keys == BranchesCreate.columns.Keys
      && held[0]["id"] == Text(b.id) && held[0]["name"] == Text(b.name) && held[0]["address"] == Text(b.address)
      && held[0]["created_at"] == TimeValue(b.created_at) && held[0]["updated_at"] == TimeValue(b.updated_at)
      && held[0]["synced_at"] == Null && held[0]["is_synced"] == Int(0)
      && held[0] in Matching(d["branches"].rows, "is_synced", Int(0))
      && (forall k :: k != [Text(b.id)] ==> WithKey(d["branches"].rows, ["id"], k) == WithKey(db["branches"].rows, ["id"], k))
  {
    var t := db["branches"];
    var row := BuildRow(t.columns, SavedBranchValues(b), now);
    SavedBranchRow(t.columns, b, now);
    InsertOrReplaceAdmitted(db, "branches", SavedBranchValues(b), now);
    ReplaceSummary(t.rows, ["id"], row);
    MatchingExact(ReplaceRow(t.rows, ["id"], row), "is_synced", Int(0), row);
  }

  /** The row the save stores on a registry-shaped table. */
  lemma SavedBranchRow(columns: map<string, ColumnSpec>, b: Branch, now: Time)
    requires columns == BranchesCreate.columns
    ensures var row := BuildRow(columns, SavedBranchValues(b), now);
      && row.Keys == BranchesCreate.columns.Keys
      && row["id"] == Text(b.id) && row["name"] == Text(b.name) && row["address"] == Text(b.address)
      && row["created_at"] == TimeValue(b.created_at) && row["updated_at"] == TimeValue(b.updated_at)
      && row["synced_at"] == Null && row["is_synced"] == Int(0)
      && Admissible(columns, row) && KeyOf(["id"], row) == [Text(b.id)]
  {
    SavedBranchGiven(columns, b, now);
    SavedBranchDefaults(columns, b, now);
    SavedBranchAdmissible(columns, b, now);
  }

  lemma SavedBranchGiven(columns: map<string, ColumnSpec>, b: Branch, now: Time)
    requires columns == BranchesCreate.columns
    ensures var row := BuildRow(columns, SavedBranchValues(b), now);
      && row.Keys == BranchesCreate.columns.Keys
      && row["id"] == Text(b.id) && row["name"] == Text(b.name) && row["address"] == Text(b.address)
      && row["created_at"] == TimeValue(b.created_at) && row["updated_at"] == TimeValue(b.updated_at)
  {
    var values := SavedBranchValues(b);
    assert values.Keys == {"id", "name", "address", "created_at", "updated_at"};
    BuildRowGiven(columns, values, now);
  }

  lemma SavedBranchDefaults(columns: map<string, ColumnSpec>, b: Branch, now: Time)
    requires columns == BranchesCreate.columns
    ensures var row := BuildRow(columns, SavedBranchValues(b), now);
      && "synced_at" in row && "is_synced" in row && "id" in row
      && row["synced_at"] == Null && row["is_synced"] == Int(0)
      && KeyOf(["id"], row) == [Text(b.id)]
  {
    var values := SavedBranchValues(b);
    var row := BuildRow(columns, values, now);
    assert "synced_at" !in values && "is_synced" !in values && "id" in values;
    BuildRowValues(columns, values, now, "synced_at");
    BuildRowValues(columns, values, now, "is_synced");
    BuildRowValues(columns, values, now, "id");
    assert KeyOf(["id"], row) == [Text(b.id)] by {
      assert KeyOf(["id"], row)[0] == Get(row, "id");
    }
  }

  lemma SavedBranchAdmissible(columns: map<string, ColumnSpec>, b: Branch, now: Time)
    requires columns == BranchesCreate.columns
    ensures Admissible(columns, BuildRow(columns, SavedBranchValues(b), now))
  {
    var values := SavedBranchValues(b);
    var row := BuildRow(columns, values, now);
    forall c | c in columns ensures c in row && Admits(columns[c], row[c]) {
      BuildRowValues(columns, values, now, c);
    }
  }

  /** On the four-column `branches` that `initDatabase` creates, the save
      throws (it names `address`) and the file is unchanged. */
  lemma SaveOnLegacyBranches(db: Db, b: Branch, now: Time)
    requires "branches" in db && db["branches"].columns == LegacyBranchesCreate.columns
    ensures Apply(db, InsertOrReplace("branches", SavedBranchValues(b), now)) == (db, Fail(NoSuchColumn("branches")))
  {
    assert "address" in SavedBranchValues(b) && "address" !in db["branches"].columns;
  }
}
