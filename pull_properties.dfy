/** What the engine's local helpers and its pull phase leave in the local
    tables: a helper's INSERT OR REPLACE keeps one row per key and touches no
    other key, `getUnsynced*` reads exactly the dirty rows, `mark*Synced` stamps
    exactly the rows with that id, `getProfile` finds the row or nothing, and a
    pull stores, for each key it fetched, the last fetched row with that key,
    already synced. */
module PullProperties {
  import opened Rows
  import opened Store
  import opened TableSchemas
  import opened SyncTablesConfig
  import opened Remote
  import opened SyncEngine
  import opened LocalDatabase

  /** The columns an upsert helper writes. */
  function ColumnSet(h: UpsertHook): set<string> {
    set c | c in ColumnsOf(h)
  }

  /** A table shaped for the helper: it has exactly the helper's columns. */
  predicate ShapedFor(l: Local, h: UpsertHook) {
    l.initialized && UpsertTable(h) in l.tables && l.tables[UpsertTable(h)].columns.Keys == ColumnSet(h)
  }

  lemma ProfileColumnsMatch()
    ensures ColumnSet(UpsertProfiles) == ProfilesCreate.columns.Keys
  {
    assert ProfilesCreate.columns.Keys == {"id", "email", "name", "role", "created_at", "updated_at", "synced_at", "is_synced"};
    assert PROFILE_COLUMNS == ["id", "email", "name", "role", "created_at", "updated_at", "synced_at", "is_synced"];
  }

  lemma BranchColumnsMatch()
    ensures ColumnSet(UpsertBranches) == BranchesCreate.columns.Keys
  {
    assert BranchesCreate.columns.Keys == {"id", "name", "address", "created_at", "updated_at", "synced_at", "is_synced"};
  }

  lemma AssignmentColumnsMatch()
    ensures ColumnSet(UpsertAssignments) == AssignmentsCreate.columns.Keys
  {
    assert AssignmentsCreate.columns.Keys == {"branch_id", "user_id", "role", "assigned_at"};
  }

  /** When every column is given, the stored row is the given row. */
  lemma BuildRowExact(columns: map<string, ColumnSpec>, values: Row, now: Time)
    requires columns.Keys == values.Keys
    ensures BuildRow(columns, values, now) == values
  {
  }

  // ---------------------------------------------------------------------------
  // The local helpers

  /** `upsertLocal*`: the helper stores the given row with every missing column
      NULL; it fails, changing nothing, exactly when that row breaks a NOT NULL
      or CHECK constraint. After it, the row's key (when not NULL) is held by
      exactly that row, and every other key keeps its rows. */
  lemma UpsertLocalEffect(l: Local, h: UpsertHook, row: Row, now: Time)
    requires ShapedFor(l, h)
    ensures var t := UpsertTable(h);
      var tbl := l.tables[t];
      var v := Project(row, ColumnsOf(h));
      var (l1, o) := RunLocal(l, UpsertOf(h, row, now));
      && (forall c :: c in ColumnsOf(h) ==> c in v && v[c] == Get(row, c))
      && (o.Pass? <==> Admissible(tbl.columns, v))
      && (o.Fail? ==> o == Fail(ConstraintFailed(t)) && l1 == l)
      && (o.Pass? ==> l1.tables == l.tables[t := tbl.(rows := ReplaceRow(tbl.rows, tbl.key, v))])
      && (o.Pass? && Null !in KeyOf(tbl.key, v) ==> WithKey(l1.tables[t].rows, tbl.key, KeyOf(tbl.key, v)) == [v])
      && (o.Pass? ==> forall k :: k != KeyOf(tbl.key, v) ==> WithKey(l1.tables[t].rows, tbl.key, k) == WithKey(tbl.rows, tbl.key, k))
  {
    var t := UpsertTable(h);
    var tbl := l.tables[t];
    var v := Project(row, ColumnsOf(h));
    UpsertLocalStep(l, h, row, now);
    if Null !in KeyOf(tbl.key, v) {
      ReplaceLeavesOneRow(tbl.rows, tbl.key, v);
    }
    ReplaceKeepsEveryOtherKey(tbl.rows, tbl.key, v);
  }

  /** The helper's statement on a shaped table stores the projected row as is. */
  lemma UpsertLocalStep(l: Local, h: UpsertHook, row: Row, now: Time)
    requires ShapedFor(l, h)
    ensures var t := UpsertTable(h);
      var tbl := l.tables[t];
      var v := Project(row, ColumnsOf(h));
      && (forall c :: c in ColumnsOf(h) ==> c in v && v[c] == Get(row, c))
      && RunLocal(l, UpsertOf(h, row, now))
         == if Admissible(tbl.columns, v) then (l.(tables := l.tables[t := tbl.(rows := ReplaceRow(tbl.rows, tbl.key, v))]), Pass)
            else (l, Fail(ConstraintFailed(t)))
  {
    var tbl := l.tables[UpsertTable(h)];
    var v := Project(row, ColumnsOf(h));
    assert v.Keys == ColumnSet(h);
    BuildRowExact(tbl.columns, v, now);
  }

  /** `getUnsynced*`: exactly the rows whose `is_synced` is 0, in table order. */
  lemma UnsyncedExact(l: Local, h: ReadHook, x: Row)
    requires h != LocalAssignments
    requires l.initialized && ReadTable(h) in l.tables && "is_synced" in l.tables[ReadTable(h)].columns
    ensures var rows := l.tables[ReadTable(h)].rows;
      var (l1, r) := ReadLocal(l, ReadOf(h));
      && l1 == l
      && r == Ok(Matching(rows, "is_synced", Int(0)))
      && (x in r.value <==> x in rows && Get(x, "is_synced") == Int(0))
  {
    MatchingExact(l.tables[ReadTable(h)].rows, "is_synced", Int(0), x);
  }

  /** `mark*Synced(id)`: rows with that id get `is_synced = 1` and `synced_at =
      now`; every other row is unchanged; a NULL id or an absent one marks
      nothing; and marking twice is marking once. */
  lemma MarkEffect(l: Local, h: MarkHook, id: Value, now: Time)
    requires l.initialized && MarkTable(h) in l.tables
    requires var cols := l.tables[MarkTable(h)].columns; "id" in cols && "is_synced" in cols && "synced_at" in cols
    ensures var t := MarkTable(h);
      var rows := l.tables[t].rows;
      var (l1, o) := RunLocal(l, MarkOf(h, id, now));
      && o == Pass
      && l1.initialized == l.initialized && l1.opens == l.opens
      && l1.tables.Keys == l.tables.Keys
      && (forall n :: n in l.tables && n != t ==> l1.tables[n] == l.tables[n])
      && l1.tables[t].columns == l.tables[t].columns && l1.tables[t].key == l.tables[t].key
      && |l1.tables[t].rows| == |rows|
      && (forall j :: 0 <= j < |rows| ==>
            if SqlEq(Get(rows[j], "id"), id)
            then l1.tables[t].rows[j] == rows[j]["is_synced" := Int(1)]["synced_at" := Int(now)]
            else l1.tables[t].rows[j] == rows[j])
    ensures var (l1, o) := RunLocal(l, MarkOf(h, id, now));
      (forall j :: 0 <= j < |l.tables[MarkTable(h)].rows| ==> !SqlEq(Get(l.tables[MarkTable(h)].rows[j], "id"), id)) ==> l1 == l
    ensures var (l1, o) := RunLocal(l, MarkOf(h, id, now));
      RunLocal(l1, MarkOf(h, id, now)) == (l1, Pass)
  {
    var t := MarkTable(h);
    StampByIdEffect(l.tables, t, id, now);
    var l1 := l.(tables := Apply(l.tables, MarkOf(h, id, now)).0);
    assert RunLocal(l, MarkOf(h, id, now)) == (l1, Pass);
    assert RunLocal(l1, MarkOf(h, id, now)) == (l1.(tables := Apply(l1.tables, MarkOf(h, id, now)).0), Pass);
  }

  /** `getProfile(id)`: nothing when no row has that id, otherwise a row with it. */
  lemma GetProfileExact(l: Local, userId: string)
    requires l.initialized && "profiles" in l.tables && "id" in l.tables["profiles"].columns
    ensures var rows := l.tables["profiles"].rows;
      var (l1, r) := ReadLocal(l, SelectWhere("profiles", "id", Text(userId)));
      && l1 == l && r.Ok?
      && (FirstRow(r.value).None? <==> forall x :: x in rows ==> Get(x, "id") != Text(userId))
      && (FirstRow(r.value).Some? ==> FirstRow(r.value).value in rows && Get(FirstRow(r.value).value, "id") == Text(userId))
  {
    var rows := l.tables["profiles"].rows;
    var found := Matching(rows, "id", Text(userId));
    forall x ensures x in found <==> x in rows && Get(x, "id") == Text(userId) {
      MatchingExact(rows, "id", Text(userId), x);
    }
    if found != [] {
      assert found[0] in found;
    }
  }

  // ---------------------------------------------------------------------------
  // Pull

  /** What pull asks the backend for: `profiles` and `branches` only rows
      updated after the cursor (the epoch before the first full cycle), oldest
      first; `branch_assignments` everything. A rejected select fails the table. */
  lemma PullFetches(rs: RemoteState, k: nat, cursor: Option<Time>)
    requires k < 3
    ensures var cfg := SYNC_TABLES[k];
      var (rs1, data) := SelectCall(rs, cfg.name, PullScope(cfg, cursor));
      var since := cursor.GetOr(EPOCH);
      && rs1.tables == rs.tables
      && (data.Err? <==> NextFails(rs.faults))
      && (data.Ok? && k < 2 ==>
            && SortedByUpdatedAt(data.value)
            && (forall x :: x in data.value <==> x in RowsOf(rs, cfg.name) && UpdatedAfterTime(x, since)))
      && (data.Ok? && k == 2 ==> data.value == RowsOf(rs, cfg.name))
  {
    AdapterShape();
    var cfg := SYNC_TABLES[k];
    if k < 2 {
      assert PullScope(cfg, cursor) == UpdatedAfter(cursor.GetOr(EPOCH));
      IncrementalAnswer(RowsOf(rs, cfg.name), cursor.GetOr(EPOCH));
    } else {
      assert PullScope(cfg, cursor) == Everything;
    }
  }

  /** The row a pulled row becomes for the helper: in `profiles` and `branches`
      already synced at `now`, every other column as fetched (NULL if absent);
      in `branch_assignments` exactly the fetched columns. */
  lemma PulledRowSynced(k: nat, row: Row, now: Time)
    requires k < 3
    ensures var cfg := SYNC_TABLES[k];
      var v := Project(AsPulled(cfg, row, now), ColumnsOf(cfg.upsertLocal));
      && (k < 2 ==>
            && v["is_synced"] == Int(1) && v["synced_at"] == Int(now)
            && forall c :: c in ColumnsOf(cfg.upsertLocal) && c != "is_synced" && c != "synced_at" ==> v[c] == Get(row, c))
      && (k == 2 ==> v == Project(row, ASSIGNMENT_COLUMNS))
  {
    AdapterShape();
    assert "is_synced" in PROFILE_COLUMNS && "synced_at" in PROFILE_COLUMNS;
    assert "is_synced" in BRANCH_COLUMNS && "synced_at" in BRANCH_COLUMNS;
  }

  /** A sequence of INSERT OR REPLACE, in order. */
  function ReplaceAll(rows: seq<Row>, key: seq<string>, news: seq<Row>): seq<Row>
    decreases |news|
  {
    if news == [] then rows else ReplaceAll(ReplaceRow(rows, key, news[0]), key, news[1..])
  }

  /** The last of `news` with key `k`, if any. */
  function LastWithKey(news: seq<Row>, key: seq<string>, k: seq<Value>): Option<Row>
    decreases |news|
  {
    if news == [] then None
    else match LastWithKey(news[1..], key, k)
      case Some(r) => Some(r)
      case None => if HasKey(key, news[0], k) then Some(news[0]) else None
  }

  /** Last writer wins: after a run of replaces, a key is held by exactly the
      last new row with that key, or, if no new row has it, by the rows that
      held it before. */
  lemma {:induction false} ReplaceAllKey(rows: seq<Row>, key: seq<string>, news: seq<Row>, k: seq<Value>)
    requires Null !in k
    ensures WithKey(ReplaceAll(rows, key, news), key, k)
         == match LastWithKey(news, key, k)
            case Some(r) => [r]
            case None => WithKey(rows, key, k)
    decreases |news|
  {
    if news != [] {
      var once := ReplaceRow(rows, key, news[0]);
      ReplaceAllKey(once, key, news[1..], k);
      if LastWithKey(news[1..], key, k).None? {
        if HasKey(key, news[0], k) {
          ReplaceLeavesOneRow(rows, key, news[0]);
        } else {
          ReplaceKeepsOtherKeys(rows, key, news[0], k);
        }
      }
    }
  }

  /** The rows pulled into a table, as the helper stores them. */
  function Stored(cfg: SyncTableConfig, data: seq<Row>, now: Time): seq<Row> {
    seq(|data|, j requires 0 <= j < |data| => Project(AsPulled(cfg, data[j], now), ColumnsOf(cfg.upsertLocal)))
  }

  /** The local side after the helper replaced `news` into table `t`. */
  function ReplacedLocal(l: Local, t: string, news: seq<Row>): Local
    requires t in l.tables
  {
    l.(tables := l.tables[t := l.tables[t].(rows := ReplaceAll(l.tables[t].rows, l.tables[t].key, news))])
  }

  lemma ReplacedCompose(l: Local, t: string, a: seq<Row>, b: seq<Row>)
    requires t in l.tables
    ensures ReplacedLocal(ReplacedLocal(l, t, a), t, b) == ReplacedLocal(l, t, a + b)
  {
    ReplaceAllAppend(l.tables[t].rows, l.tables[t].key, a, b);
  }

  lemma {:induction false} ReplaceAllAppend(rows: seq<Row>, key: seq<string>, a: seq<Row>, b: seq<Row>)
    ensures ReplaceAll(rows, key, a + b) == ReplaceAll(ReplaceAll(rows, key, a), key, b)
    decreases |a|
  {
    if a == [] {
      assert a + b == b;
    } else {
      assert (a + b)[0] == a[0];
      assert (a + b)[1..] == a[1..] + b;
      ReplaceAllAppend(ReplaceRow(rows, key, a[0]), key, a[1..], b);
    }
  }

  /** Every pulled row of `data[i..]` passes the table's constraints. */
  predicate AllAdmissible(l: Local, cfg: SyncTableConfig, data: seq<Row>, now: Time)
    requires UpsertTable(cfg.upsertLocal) in l.tables
  {
    forall j :: 0 <= j < |data| ==>
      Admissible(l.tables[UpsertTable(cfg.upsertLocal)].columns, Stored(cfg, data, now)[j])
  }

  /** The upserts of one batch, when each row passes the constraints. */
  lemma {:induction false} UpsertFromEffect(l: Local, cfg: SyncTableConfig, batch: seq<Row>, j: nat, now: Time)
    requires ShapedFor(l, cfg.upsertLocal) && j <= |batch|
    requires AllAdmissible(l, cfg, batch, now)
    ensures UpsertFrom(l, cfg, batch, j, Pass, now)
         == (ReplacedLocal(l, UpsertTable(cfg.upsertLocal), Stored(cfg, batch, now)[j..]), Pass)
    decreases |batch| - j
  {
    var t := UpsertTable(cfg.upsertLocal);
    var s := Stored(cfg, batch, now);
    if j == |batch| {
      assert s[j..] == [];
      assert ReplacedLocal(l, t, []) == l;
    } else {
      var v := s[j];
      var l1 := ReplacedLocal(l, t, [v]);
      assert ReplaceAll(l.tables[t].rows, l.tables[t].key, [v]) == ReplaceRow(l.tables[t].rows, l.tables[t].key, v) by {
        assert [v][1..] == [];
      }
      UpsertLocalEffect(l, cfg.upsertLocal, AsPulled(cfg, batch[j], now), now);
      assert RunLocal(l, UpsertOf(cfg.upsertLocal, AsPulled(cfg, batch[j], now), now)) == (l1, Pass);
      assert AllAdmissible(l1, cfg, batch, now);
      UpsertFromEffect(l1, cfg, batch, j + 1, now);
      ReplacedCompose(l, t, [v], s[j + 1..]);
      assert s[j..] == [v] + s[j + 1..];
    }
  }

  lemma StoredSlice(cfg: SyncTableConfig, data: seq<Row>, i: nat, e: nat, now: Time)
    requires i <= e <= |data|
    ensures Stored(cfg, data[i..e], now) == Stored(cfg, data, now)[i..e]
  {
  }

  /** A slice of admissible fetched rows is admissible. */
  lemma AdmissibleSlice(l: Local, cfg: SyncTableConfig, data: seq<Row>, i: nat, e: nat, now: Time)
    requires UpsertTable(cfg.upsertLocal) in l.tables && i <= e <= |data|
    requires AllAdmissible(l, cfg, data, now)
    ensures AllAdmissible(l, cfg, data[i..e], now)
  {
    var t := UpsertTable(cfg.upsertLocal);
    StoredSlice(cfg, data, i, e, now);
    forall j | 0 <= j < e - i
      ensures Admissible(l.tables[t].columns, Stored(cfg, data[i..e], now)[j])
    {
      assert Stored(cfg, data[i..e], now)[j] == Stored(cfg, data, now)[i + j];
    }
  }

  /** Replacing rows keeps the table's declared columns, so its shape and the
      constraints the fetched rows pass. */
  lemma ReplacedKeepsShape(l: Local, cfg: SyncTableConfig, data: seq<Row>, news: seq<Row>, now: Time)
    requires ShapedFor(l, cfg.upsertLocal)
    requires AllAdmissible(l, cfg, data, now)
    ensures ShapedFor(ReplacedLocal(l, UpsertTable(cfg.upsertLocal), news), cfg.upsertLocal)
    ensures AllAdmissible(ReplacedLocal(l, UpsertTable(cfg.upsertLocal), news), cfg, data, now)
  {
  }

  /** A pull of one table whose fetched rows all pass the constraints: it
      passes, and the table ends as the original rows with every fetched row
      replaced in, in fetch order. */
  lemma {:induction false} PullBatchesEffect(l: Local, cfg: SyncTableConfig, data: seq<Row>, i: nat, now: Time)
    requires ShapedFor(l, cfg.upsertLocal) && i <= |data|
    requires AllAdmissible(l, cfg, data, now)
    ensures PullBatchesFrom(l, cfg, data, i, now)
         == (ReplacedLocal(l, UpsertTable(cfg.upsertLocal), Stored(cfg, data, now)[i..]), Pass)
    decreases |data| - i
  {
    var t := UpsertTable(cfg.upsertLocal);
    var s := Stored(cfg, data, now);
    if i == |data| {
      assert s[i..] == [];
      assert ReplacedLocal(l, t, []) == l;
    } else {
      var e := Min(i + MAX_BATCH_SIZE, |data|);
      var l1 := ReplacedLocal(l, t, s[i..e]);
      PullBatchStep(l, cfg, data, i, now);
      if e == |data| {
        assert s[i..e] == s[i..];
      } else {
        PullBatchesEffect(l1, cfg, data, e, now);
        ReplacedCompose(l, t, s[i..e], s[e..]);
        SliceSplit(s, i, e);
      }
    }
  }

  /** One batch of a pull whose fetched rows all pass: its rows are replaced
      in and the loop goes on one batch later, on a table still so shaped. */
  lemma PullBatchStep(l: Local, cfg: SyncTableConfig, data: seq<Row>, i: nat, now: Time)
    requires ShapedFor(l, cfg.upsertLocal) && i < |data|
    requires AllAdmissible(l, cfg, data, now)
    ensures var t := UpsertTable(cfg.upsertLocal);
      var e := Min(i + MAX_BATCH_SIZE, |data|);
      var l1 := ReplacedLocal(l, t, Stored(cfg, data, now)[i..e]);
      && PullBatchesFrom(l, cfg, data, i, now) == PullBatchesFrom(l1, cfg, data, i + MAX_BATCH_SIZE, now)
      && ShapedFor(l1, cfg.upsertLocal) && AllAdmissible(l1, cfg, data, now)
  {
    var t := UpsertTable(cfg.upsertLocal);
    var s := Stored(cfg, data, now);
    var e := Min(i + MAX_BATCH_SIZE, |data|);
    var batch := BatchAt(data, i);
    assert batch == data[i..e];
    StoredSlice(cfg, data, i, e, now);
    AdmissibleSlice(l, cfg, data, i, e, now);
    UpsertFromEffect(l, cfg, batch, 0, now);
    assert Stored(cfg, batch, now)[0..] == s[i..e];
    ReplacedKeepsShape(l, cfg, data, s[i..e], now);
  }

  /** After a successful pull of a table whose fetched rows all pass the
      constraints, each key (not NULL) is held by exactly the last fetched row
      with that key, as stored; a key nothing fetched keeps its rows. */
  lemma PullTableStores(l: Local, cfg: SyncTableConfig, data: seq<Row>, now: Time, k: seq<Value>)
    requires ShapedFor(l, cfg.upsertLocal)
    requires AllAdmissible(l, cfg, data, now)
    requires Null !in k
    ensures var t := UpsertTable(cfg.upsertLocal);
      var (l1, o) := PullBatchesFrom(l, cfg, data, 0, now);
      && o == Pass
      && t in l1.tables
      && WithKey(l1.tables[t].rows, l.tables[t].key, k)
         == match LastWithKey(Stored(cfg, data, now), l.tables[t].key, k)
            case Some(r) => [r]
            case None => WithKey(l.tables[t].rows, l.tables[t].key, k)
  {
    var t := UpsertTable(cfg.upsertLocal);
    PullBatchesEffect(l, cfg, data, 0, now);
    assert Stored(cfg, data, now)[0..] == Stored(cfg, data, now);
    ReplaceAllKey(l.tables[t].rows, l.tables[t].key, Stored(cfg, data, now), k);
  }
}
