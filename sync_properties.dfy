/** What the sync engine guarantees, proved about the specification in
    `SyncEngine`: initialisation runs once and converges the schema, the cycle's
    guard and cursor rule, how push cuts rows into batches and which rows it
    marks synced, and what the local helpers and pull leave in a table. */
module SyncProperties {
  import opened Rows
  import opened Store
  import opened TableSchemas
  import opened SyncTablesConfig
  import opened Remote
  import opened SyncEngine

  // ---------------------------------------------------------------------------
  // Initialisation

  /** `init` runs at most once: after a success every later call is a no-op;
      a file that does not open gives `OpenFailed` and leaves the engine
      uninitialised; a first success leaves every registry table with its
      converged column set. */
  lemma InitOnce(l: Local)
    ensures var (l1, o) := EnsureInit(l);
      && (o.Pass? <==> l.initialized || l.opens)
      && (o.Fail? ==> o == Fail(OpenFailed) && l1 == l && !l1.initialized)
      && (o.Pass? ==> l1.initialized && EnsureInit(l1) == (l1, Pass))
      && (l.initialized ==> l1 == l)
      && (!l.initialized && l.opens ==>
            forall i :: 0 <= i < |TABLE_SCHEMAS| ==>
              TABLE_SCHEMAS[i].name in l1.tables
              && l1.tables[TABLE_SCHEMAS[i].name].columns.Keys == ConvergedColumns(l.tables, TABLE_SCHEMAS[i]))
  {
    RegistryConverges(l.tables);
  }

  // ---------------------------------------------------------------------------
  // The cycle

  /** While a cycle runs, or offline, `syncData` changes nothing. */
  lemma SyncGuard(e: Engine, connected: bool, now: Time)
    requires e.inProgress || !connected
    ensures SyncCycle(e, connected, now) == e
  {
  }

  /** Push runs before pull, pull only after a passing push, and the cursor
      becomes `now` exactly when both passed; otherwise it stays. Either way
      the in-progress flag ends cleared and the error goes no further. */
  lemma CursorRule(e: Engine, connected: bool, now: Time)
    requires !e.inProgress && connected
    ensures var r := SyncCycle(e, connected, now);
      var pushed := Push(World(e.local, e.remote), now);
      var pulled := Pull(pushed.0, e.cursor, now);
      && !r.inProgress
      && (pushed.1.Fail? ==> r.cursor == e.cursor && r.local == pushed.0.local && r.remote == pushed.0.remote)
      && (pushed.1.Pass? ==>
            && r.local == pulled.0.local && r.remote == pulled.0.remote
            && (pulled.1.Pass? ==> r.cursor == Some(now))
            && (pulled.1.Fail? ==> r.cursor == e.cursor))
  {
  }

  // ---------------------------------------------------------------------------
  // Batches

  /** The slices the batch loops cut from `rows`, starting at `i`. */
  function Batches(rows: seq<Row>, i: nat): seq<seq<Row>>
    decreases |rows| - i
  {
    if i >= |rows| then [] else [BatchAt(rows, i)] + Batches(rows, i + MAX_BATCH_SIZE)
  }

  function Concat(bs: seq<seq<Row>>): seq<Row>
    decreases |bs|
  {
    if bs == [] then [] else bs[0] + Concat(bs[1..])
  }

  function Sizes(bs: seq<seq<Row>>): seq<nat> {
    seq(|bs|, k requires 0 <= k < |bs| => |bs[k]|)
  }

  /** The batches cover the rows exactly once, in order; none is empty, none
      holds more than MAX_BATCH_SIZE rows, and all but the last are full. */
  lemma {:induction false} BatchesCover(rows: seq<Row>, i: nat)
    requires i <= |rows|
    ensures Concat(Batches(rows, i)) == rows[i..]
    ensures forall k :: 0 <= k < |Batches(rows, i)| ==> 0 < |Batches(rows, i)[k]| <= MAX_BATCH_SIZE
    ensures forall k :: 0 <= k < |Batches(rows, i)| - 1 ==> |Batches(rows, i)[k]| == MAX_BATCH_SIZE
    ensures |Batches(rows, i)| == (|rows| - i + MAX_BATCH_SIZE - 1) / MAX_BATCH_SIZE
    decreases |rows| - i
  {
    if i < |rows| {
      var bs := Batches(rows, i);
      var next := i + MAX_BATCH_SIZE;
      if next < |rows| {
        BatchesCover(rows, next);
        assert bs[1..] == Batches(rows, next);
        assert rows[i..] == BatchAt(rows, i) + rows[next..];
        forall k | 0 <= k < |bs| ensures 0 < |bs[k]| <= MAX_BATCH_SIZE {
          if k > 0 {
            assert bs[k] == Batches(rows, next)[k - 1];
          }
        }
        forall k | 0 <= k < |bs| - 1 ensures |bs[k]| == MAX_BATCH_SIZE {
          if k > 0 {
            assert bs[k] == Batches(rows, next)[k - 1];
          }
        }
      } else {
        assert Batches(rows, next) == [];
        assert BatchAt(rows, i) == rows[i..];
        assert bs == [rows[i..]];
        assert Concat(bs) == rows[i..] + Concat([]);
      }
    }
  }

  /** 250 rows go out as 100, 100 and 50; no rows mean no upsert at all. */
  lemma BatchSizeExamples(rows: seq<Row>)
    ensures |rows| == 250 ==> Sizes(Batches(rows, 0)) == [100, 100, 50]
    ensures |rows| == 0 ==> Batches(rows, 0) == []
  {
    if |rows| == 250 {
      var bs := Batches(rows, 0);
      assert bs == [rows[0..100], rows[100..200], rows[200..250]] by {
        assert Batches(rows, 300) == [];
        assert Batches(rows, 200) == [rows[200..250]];
        assert Batches(rows, 100) == [rows[100..200], rows[200..250]];
      }
    }
  }

  /** The `b`-th batch is the slice the loop takes when `i` is b * MAX_BATCH_SIZE. */
  lemma {:induction false} BatchIndex(rows: seq<Row>, i: nat, b: nat)
    requires i <= |rows|
    requires b < |Batches(rows, i)|
    ensures i + b * MAX_BATCH_SIZE < |rows|
    ensures Batches(rows, i)[b] == BatchAt(rows, i + b * MAX_BATCH_SIZE)
    decreases b
  {
    if b > 0 {
      var next := i + MAX_BATCH_SIZE;
      assert Batches(rows, i)[b] == Batches(rows, next)[b - 1];
      BatchIndex(rows, next, b - 1);
    }
  }

  // ---------------------------------------------------------------------------
  // Push: which rows reach the backend and which are marked synced

  /** The `id` values of `rows`. */
  function Ids(rows: seq<Row>): set<Value> {
    set k | 0 <= k < |rows| :: Get(rows[k], "id")
  }

  /** The rows a batch loop sends: without `is_synced` for a flag-tracked table. */
  function Sent(rows: seq<Row>, flagged: bool): seq<Row> {
    if flagged then Strip(rows) else rows
  }

  /** A table after `mark*Synced` of every id of `rows`. */
  function Marked(t: Table, rows: seq<Row>, now: Time): Table {
    t.(rows := SetWhere(t.rows, "id", Ids(rows), Stamp(now)))
  }

  function MarkedLocal(l: Local, name: string, rows: seq<Row>, now: Time): Local
    requires name in l.tables
  {
    l.(tables := l.tables[name := Marked(l.tables[name], rows, now)])
  }

  /** The engine can mark rows of `name`: it is initialised and the table has
      the columns the UPDATE names. */
  predicate CanMark(l: Local, name: string) {
    && l.initialized
    && name in l.tables
    && "id" in l.tables[name].columns
    && "is_synced" in l.tables[name].columns
    && "synced_at" in l.tables[name].columns
  }

  /** The index of the first call the fault schedule rejects, if any. */
  function FirstFault(faults: seq<bool>): Option<nat>
    decreases |faults|
  {
    if faults == [] then None
    else if faults[0] then Some(0)
    else match FirstFault(faults[1..])
      case None => None
      case Some(k) => Some(k + 1)
  }

  /** Where a batch loop over `n` rows that starts at `i` ends up: after the
      last batch before the first rejected upsert, or at the end. */
  function PushedUpTo(n: nat, i: nat, faults: seq<bool>): nat
    requires i <= n
  {
    match FirstFault(faults)
    case None => n
    case Some(k) => Min(i + k * MAX_BATCH_SIZE, n)
  }

  lemma IdsAppend(a: seq<Row>, b: seq<Row>)
    ensures Ids(a + b) == Ids(a) + Ids(b)
  {
    forall v | v in Ids(a + b) ensures v in Ids(a) + Ids(b) {
      var k :| 0 <= k < |a + b| && Get((a + b)[k], "id") == v;
      if k < |a| {
        assert (a + b)[k] == a[k];
      } else {
        assert (a + b)[k] == b[k - |a|];
      }
    }
    forall v | v in Ids(a) + Ids(b) ensures v in Ids(a + b) {
      if v in Ids(a) {
        var k :| 0 <= k < |a| && Get(a[k], "id") == v;
        assert (a + b)[k] == a[k];
      } else {
        var k :| 0 <= k < |b| && Get(b[k], "id") == v;
        assert (a + b)[|a| + k] == b[k];
      }
    }
  }

  lemma SentAppend(a: seq<Row>, b: seq<Row>, flagged: bool)
    ensures Sent(a + b, flagged) == Sent(a, flagged) + Sent(b, flagged)
  {
    if flagged {
      assert Strip(a + b) == Strip(a) + Strip(b);
    }
  }

  /** Upserting two lists one after the other is upserting their concatenation. */
  lemma {:induction false} MergeRowsAppend(rows: seq<Row>, key: seq<string>, a: seq<Row>, b: seq<Row>)
    ensures MergeRows(rows, key, a + b) == MergeRows(MergeRows(rows, key, a), key, b)
    decreases |a|
  {
    if a == [] {
      assert a + b == b;
    } else {
      assert (a + b)[0] == a[0];
      assert (a + b)[1..] == a[1..] + b;
      MergeRowsAppend(MergeRow(rows, key, a[0]), key, a[1..], b);
    }
  }

  /** Two upserts into the same backend table add up to one of both lists. */
  lemma MergeCompose(rs: RemoteState, name: string, key: seq<string>, a: seq<Row>, b: seq<Row>)
    ensures var once := rs.tables[name := MergeRows(RowsOf(rs, name), key, a)];
      once[name := MergeRows(RowsOf(RemoteState(once, []), name), key, b)]
      == rs.tables[name := MergeRows(RowsOf(rs, name), key, a + b)]
  {
    MergeRowsAppend(RowsOf(rs, name), key, a, b);
  }

  lemma MarkedNothing(l: Local, name: string, now: Time)
    requires name in l.tables
    ensures MarkedLocal(l, name, [], now) == l
  {
    assert Ids([]) == {};
    SetWhereNothing(l.tables[name].rows, "id", {}, Stamp(now));
    assert Marked(l.tables[name], [], now) == l.tables[name];
  }

  lemma MarkedCompose(l: Local, name: string, a: seq<Row>, b: seq<Row>, now: Time)
    requires name in l.tables
    ensures MarkedLocal(MarkedLocal(l, name, a, now), name, b, now) == MarkedLocal(l, name, a + b, now)
  {
    IdsAppend(a, b);
    SetWhereCompose(l.tables[name].rows, "id", Ids(a), Ids(b), Stamp(now));
  }

  /** The marks of one batch set `is_synced = 1` and `synced_at` on exactly the
      rows whose id is among the batch's ids, and none of them fails. */
  lemma {:induction false} MarkFromEffect(l: Local, h: MarkHook, batch: seq<Row>, j: nat, acc: Outcome, now: Time)
    requires CanMark(l, MarkTable(h)) && j <= |batch|
    ensures MarkFrom(l, h, Single("id"), batch, j, acc, now) == (MarkedLocal(l, MarkTable(h), batch[j..], now), acc)
    decreases |batch| - j
  {
    var t := MarkTable(h);
    if j == |batch| {
      assert batch[j..] == [];
      MarkedNothing(l, t, now);
    } else {
      var id := Get(batch[j], "id");
      var step := RunLocal(l, MarkOf(h, id, now));
      var l1 := l.(tables := l.tables[t := l.tables[t].(rows := SetWhere(l.tables[t].rows, "id", {id}, Stamp(now)))]);
      assert step == (l1, Pass);
      assert l1 == MarkedLocal(l, t, [batch[j]], now) by {
        assert Ids([batch[j]]) == {id} by {
          assert Get([batch[j]][0], "id") == id;
        }
      }
      MarkFromEffect(l1, h, batch, j + 1, FirstFailure(acc, Pass), now);
      MarkedCompose(l, t, [batch[j]], batch[j + 1..], now);
      assert batch[j..] == [batch[j]] + batch[j + 1..];
    }
  }

  /** A call the schedule lets through moves the stopping point of the rest of
      the loop along by one batch. */
  lemma FaultStep(n: nat, i: nat, faults: seq<bool>)
    requires i < n && !NextFails(faults)
    ensures i + MAX_BATCH_SIZE >= n ==> PushedUpTo(n, i, faults) == n
    ensures i + MAX_BATCH_SIZE < n ==>
              PushedUpTo(n, i, faults) == PushedUpTo(n, i + MAX_BATCH_SIZE, Advance(RemoteState(map[], faults)).faults)
  {
    if faults != [] {
      assert !faults[0];
      match FirstFault(faults[1..])
      case None =>
      case Some(k) =>
        assert FirstFault(faults) == Some(k + 1);
        assert i + (k + 1) * MAX_BATCH_SIZE == i + MAX_BATCH_SIZE + k * MAX_BATCH_SIZE;
    }
  }

  /** One upsert the schedule lets through: the backend merges the batch, the
      batch is marked when flag-tracked, and the loop goes on one batch later. */
  lemma PushStep(w: World, cfg: SyncTableConfig, rows: seq<Row>, i: nat, flagged: bool, now: Time)
    requires i < |rows| && !NextFails(w.remote.faults)
    requires flagged ==>
      && cfg.markSynced.Some? && MarkTable(cfg.markSynced.value) == cfg.name
      && cfg.key == Single("id") && CanMark(w.local, cfg.name)
    ensures var batch := BatchAt(rows, i);
      var rs := RemoteState(w.remote.tables[cfg.name := MergeRows(RowsOf(w.remote, cfg.name), KeyColumns(cfg.key), Sent(batch, flagged))],
                            Advance(w.remote).faults);
      var l1 := if flagged then MarkedLocal(w.local, cfg.name, batch, now) else w.local;
      PushBatchesFrom(w, cfg, rows, i, flagged, now) == PushBatchesFrom(World(l1, rs), cfg, rows, i + MAX_BATCH_SIZE, flagged, now)
  {
    var batch := BatchAt(rows, i);
    if flagged {
      MarkFromEffect(w.local, cfg.markSynced.value, batch, 0, Pass, now);
      assert batch[0..] == batch;
    }
  }

  /** What a batch loop from row `i` that stops at row `m` leaves: the local
      side marked (for a flag-tracked table) with the ids of rows `i..m`, those
      rows merged into the backend table, and a pass iff it reached the end. */
  predicate PushLeaves(w: World, cfg: SyncTableConfig, rows: seq<Row>, i: nat, m: nat, flagged: bool, now: Time, r: (World, Outcome))
    requires i <= m <= |rows|
    requires flagged ==> cfg.name in w.local.tables
  {
    && r.0.local == (if flagged then MarkedLocal(w.local, cfg.name, rows[i..m], now) else w.local)
    && r.0.remote.tables
       == (if m == i then w.remote.tables
           else w.remote.tables[cfg.name := MergeRows(RowsOf(w.remote, cfg.name), KeyColumns(cfg.key), Sent(rows[i..m], flagged))])
    && (r.1.Pass? <==> m == |rows|)
    && (r.1.Fail? ==> r.1 == Fail(RemoteFailed(cfg.name)))
  }

  /** If the loop from the next batch on leaves what `PushLeaves` says, so does
      the loop from this batch, given the batch went through. */
  lemma PushLeavesStep(w: World, cfg: SyncTableConfig, rows: seq<Row>, i: nat, m: nat, flagged: bool, now: Time, r: (World, Outcome))
    requires i + MAX_BATCH_SIZE <= m <= |rows|
    requires flagged ==> cfg.name in w.local.tables
    requires var batch := BatchAt(rows, i);
      var rs := RemoteState(w.remote.tables[cfg.name := MergeRows(RowsOf(w.remote, cfg.name), KeyColumns(cfg.key), Sent(batch, flagged))],
                            Advance(w.remote).faults);
      var l1 := if flagged then MarkedLocal(w.local, cfg.name, batch, now) else w.local;
      PushLeaves(World(l1, rs), cfg, rows, i + MAX_BATCH_SIZE, m, flagged, now, r)
    ensures PushLeaves(w, cfg, rows, i, m, flagged, now, r)
  {
    var next := i + MAX_BATCH_SIZE;
    var batch := BatchAt(rows, i);
    assert batch == rows[i..next];
    assert rows[i..m] == batch + rows[next..m];
    if flagged {
      MarkedCompose(w.local, cfg.name, batch, rows[next..m], now);
    }
    if m != next {
      MergeStep(w.remote, cfg.name, KeyColumns(cfg.key), batch, rows[next..m], flagged);
    }
  }

  /** Merging a batch, then the rows after it, is merging them all at once. */
  lemma MergeStep(rs: RemoteState, t: string, key: seq<string>, batch: seq<Row>, later: seq<Row>, flagged: bool)
    ensures var rs1 := RemoteState(rs.tables[t := MergeRows(RowsOf(rs, t), key, Sent(batch, flagged))], rs.faults);
      rs1.tables[t := MergeRows(RowsOf(rs1, t), key, Sent(later, flagged))]
      == rs.tables[t := MergeRows(RowsOf(rs, t), key, Sent(batch + later, flagged))]
  {
    SentAppend(batch, later, flagged);
    MergeCompose(rs, t, key, Sent(batch, flagged), Sent(later, flagged));
  }

  /** A batch loop from row `i` under the fault schedule: exactly the batches
      before the first rejected upsert reach the backend, merged over the
      conflict key in order; for a flag-tracked table exactly their ids are
      marked synced, and nothing of a later batch is; the loop passes iff no
      upsert was rejected, and otherwise fails with that rejection. */
  lemma {:induction false} PushBatchesEffect(w: World, cfg: SyncTableConfig, rows: seq<Row>, i: nat, flagged: bool, now: Time)
    requires i <= |rows|
    requires flagged ==>
      && cfg.markSynced.Some? && MarkTable(cfg.markSynced.value) == cfg.name
      && cfg.key == Single("id") && CanMark(w.local, cfg.name)
    ensures i <= PushedUpTo(|rows|, i, w.remote.faults) <= |rows|
    ensures PushLeaves(w, cfg, rows, i, PushedUpTo(|rows|, i, w.remote.faults), flagged, now,
                       PushBatchesFrom(w, cfg, rows, i, flagged, now))
    decreases |rows| - i
  {
    var t := cfg.name;
    var key := KeyColumns(cfg.key);
    var m := PushedUpTo(|rows|, i, w.remote.faults);
    if i == |rows| || NextFails(w.remote.faults) {
      assert m == i by {
        if i < |rows| {
          assert FirstFault(w.remote.faults) == Some(0);
        }
      }
      assert rows[i..m] == [];
      if flagged {
        MarkedNothing(w.local, t, now);
      }
    } else {
      var batch := BatchAt(rows, i);
      var rs := RemoteState(w.remote.tables[t := MergeRows(RowsOf(w.remote, t), key, Sent(batch, flagged))],
                            Advance(w.remote).faults);
      var l1 := if flagged then MarkedLocal(w.local, t, batch, now) else w.local;
      PushStep(w, cfg, rows, i, flagged, now);
      var next := i + MAX_BATCH_SIZE;
      FaultStep(|rows|, i, w.remote.faults);
      assert Advance(RemoteState(map[], w.remote.faults)).faults == rs.faults;
      var r := PushBatchesFrom(World(l1, rs), cfg, rows, next, flagged, now);
      if next >= |rows| {
        assert m == |rows|;
        assert batch == rows[i..m];
        assert r == (World(l1, rs), Pass);
      } else {
        PushBatchesEffect(World(l1, rs), cfg, rows, next, flagged, now);
        assert PushedUpTo(|rows|, next, rs.faults) == m;
        PushLeavesStep(w, cfg, rows, i, m, flagged, now, r);
      }
    }
  }

  /** The dirty-flag lifecycle of `profiles` (k = 0) and `branches` (k = 1) in one
      push: the rows read as `is_synced = 0` go out in batches without
      `is_synced`; the rows up to the first rejected batch (`m` of them, a whole
      number of batches) reach the backend, and exactly the table rows whose id
      is among theirs get `is_synced = 1` and `synced_at`; every other row stays
      as it was, so a row of a rejected or later batch is still dirty for the
      next cycle. The table passes iff every batch went through. */
  lemma PushFlaggedTable(w: World, k: nat, now: Time)
    requires k < 2
    requires CanMark(w.local, SYNC_TABLES[k].name)
    ensures var cfg := SYNC_TABLES[k];
      var tbl := w.local.tables[cfg.name];
      var dirty := Matching(tbl.rows, "is_synced", Int(0));
      var m := PushedUpTo(|dirty|, 0, w.remote.faults);
      var r := PushTable(w, cfg, now);
      && (m == |dirty| || m % MAX_BATCH_SIZE == 0)
      && r.0.local.tables == w.local.tables[cfg.name := tbl.(rows := SetWhere(tbl.rows, "id", Ids(dirty[..m]), Stamp(now)))]
      && r.0.remote.tables
         == (if m == 0 then w.remote.tables
             else w.remote.tables[cfg.name := MergeRows(RowsOf(w.remote, cfg.name), ["id"], Strip(dirty[..m]))])
      && (r.1.Pass? <==> m == |dirty|)
  {
    var cfg := SYNC_TABLES[k];
    var tbl := w.local.tables[cfg.name];
    var dirty := Matching(tbl.rows, "is_synced", Int(0));
    FlaggedRead(w, k, now);
    PushBatchesEffect(w, cfg, dirty, 0, true, now);
    var m := PushedUpTo(|dirty|, 0, w.remote.faults);
    assert dirty[0..m] == dirty[..m];
    PushedWholeBatches(|dirty|, w.remote.faults);
  }

  /** A flagged table's push reads its dirty rows and runs the batch loop on them. */
  lemma FlaggedRead(w: World, k: nat, now: Time)
    requires k < 2
    requires CanMark(w.local, SYNC_TABLES[k].name)
    ensures var cfg := SYNC_TABLES[k];
      var dirty := Matching(w.local.tables[cfg.name].rows, "is_synced", Int(0));
      && cfg.markSynced.Some? && MarkTable(cfg.markSynced.value) == cfg.name && cfg.key == Single("id")
      && PushTable(w, cfg, now) == PushBatchesFrom(w, cfg, dirty, 0, true, now)
  {
    AdapterShape();
    var cfg := SYNC_TABLES[k];
    var dirty := Matching(w.local.tables[cfg.name].rows, "is_synced", Int(0));
    assert ReadTable(cfg.getUnsynced.value) == cfg.name && cfg.getUnsynced.value != LocalAssignments;
    assert ReadLocal(w.local, ReadOf(cfg.getUnsynced.value)) == (w.local, Ok(dirty));
  }

  /** The rows pushed from the start are all of them or a whole number of batches. */
  lemma PushedWholeBatches(n: nat, faults: seq<bool>)
    ensures var m := PushedUpTo(n, 0, faults); m == n || m % MAX_BATCH_SIZE == 0
  {
    if PushedUpTo(n, 0, faults) != n {
      var f :| FirstFault(faults) == Some(f);
      assert PushedUpTo(n, 0, faults) == f * MAX_BATCH_SIZE;
    }
  }

  /** `branch_assignments` (no dirty flag): every local row is pushed every
      cycle, up to the first rejected batch, and nothing local changes. */
  lemma PushAssignments(w: World, now: Time)
    requires w.local.initialized && "branch_assignments" in w.local.tables
    ensures var cfg := SYNC_TABLES[2];
      var all := w.local.tables["branch_assignments"].rows;
      var m := PushedUpTo(|all|, 0, w.remote.faults);
      var r := PushTable(w, cfg, now);
      && r.0.local == w.local
      && r.0.remote.tables
         == (if m == 0 then w.remote.tables
             else w.remote.tables["branch_assignments" := MergeRows(RowsOf(w.remote, "branch_assignments"), ["branch_id", "user_id"], all[..m])])
      && (r.1.Pass? <==> m == |all|)
  {
    AdapterShape();
    var cfg := SYNC_TABLES[2];
    var all := w.local.tables["branch_assignments"].rows;
    assert ReadLocal(w.local, ReadOf(cfg.getLocal.value)) == (w.local, Ok(all));
    PushBatchesEffect(w, cfg, all, 0, false, now);
    assert all[0..PushedUpTo(|all|, 0, w.remote.faults)] == all[..PushedUpTo(|all|, 0, w.remote.faults)];
  }

  /** The adapters run in registry order and the first table that fails ends
      the phase: no later table is read, sent or fetched. */
  lemma FirstFailedTableEndsPhase(w: World, t: nat, cursor: Option<Time>, now: Time)
    requires t < |SYNC_TABLES|
    ensures PushTable(w, SYNC_TABLES[t], now).1.Fail? ==>
      PushTablesFrom(w, SYNC_TABLES, t, now) == PushTable(w, SYNC_TABLES[t], now)
    ensures PushTable(w, SYNC_TABLES[t], now).1.Pass? ==>
      PushTablesFrom(w, SYNC_TABLES, t, now) == PushTablesFrom(PushTable(w, SYNC_TABLES[t], now).0, SYNC_TABLES, t + 1, now)
    ensures PullTable(w, SYNC_TABLES[t], cursor, now).1.Fail? ==>
      PullTablesFrom(w, SYNC_TABLES, t, cursor, now) == PullTable(w, SYNC_TABLES[t], cursor, now)
    ensures PullTable(w, SYNC_TABLES[t], cursor, now).1.Pass? ==>
      PullTablesFrom(w, SYNC_TABLES, t, cursor, now) == PullTablesFrom(PullTable(w, SYNC_TABLES[t], cursor, now).0, SYNC_TABLES, t + 1, cursor, now)
  {
  }
}
