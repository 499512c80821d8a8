/** The per-table sync adapters: each names its table, its conflict key, whether
    it tracks a dirty flag, and which engine helpers its hooks delegate to. The
    engine dispatches on these records; the hook types name the engine helper a hook
    calls. */
module SyncTablesConfig {
  import opened Rows

  datatype Key = Single(column: string) | Composite(columns: seq<string>)

  /** The engine helper an `upsertLocal` hook delegates to: `upsertLocalProfile`,
      `upsertLocalBranch` or `upsertLocalBranchAssignment`. */
  datatype UpsertHook = UpsertProfiles | UpsertBranches | UpsertAssignments

  /** The engine helper a `markSynced` hook delegates to: `markProfileSynced` or `markBranchSynced`. */
  datatype MarkHook = MarkProfiles | MarkBranches

  /** The engine helper a `getUnsynced` or `getLocal` hook delegates to:
      `getUnsyncedProfiles`, `getUnsyncedBranches` or `getLocalBranchAssignments`. */
  datatype ReadHook = UnsyncedProfiles | UnsyncedBranches | LocalAssignments

  datatype SyncTableConfig = SyncTableConfig(
    name: string,
    key: Key,
    hasIsSynced: bool,
    upsertLocal: UpsertHook,
    markSynced: Option<MarkHook>,
    getUnsynced: Option<ReadHook>,
    getLocal: Option<ReadHook>)

  /** The table whose helper an upsert hook calls. */
  function UpsertTable(h: UpsertHook): string {
    match h
    case UpsertProfiles => "profiles"
    case UpsertBranches => "branches"
    case UpsertAssignments => "branch_assignments"
  }

  function MarkTable(h: MarkHook): string {
    match h
    case MarkProfiles => "profiles"
    case MarkBranches => "branches"
  }

  function ReadTable(h: ReadHook): string {
    match h
    case UnsyncedProfiles => "profiles"
    case UnsyncedBranches => "branches"
    case LocalAssignments => "branch_assignments"
  }

  const SYNC_TABLES: seq<SyncTableConfig> := [
    SyncTableConfig("profiles", Single("id"), true,
      UpsertProfiles, Some(MarkProfiles), Some(UnsyncedProfiles), None),
    SyncTableConfig("branches", Single("id"), true,
      UpsertBranches, Some(MarkBranches), Some(UnsyncedBranches), None),
    SyncTableConfig("branch_assignments", Composite(["branch_id", "user_id"]), false,
      UpsertAssignments, None, None, Some(LocalAssignments))]

  /** The key columns, in order (`onConflict` is these joined with commas). */
  function KeyColumns(k: Key): seq<string> {
    match k
    case Single(c) => [c]
    case Composite(cs) => cs
  }

  /** Every hook of an adapter delegates to a helper of the adapter's own table. */
  predicate OwnTable(cfg: SyncTableConfig) {
    && UpsertTable(cfg.upsertLocal) == cfg.name
    && (cfg.markSynced.Some? ==> MarkTable(cfg.markSynced.value) == cfg.name)
    && (cfg.getUnsynced.Some? ==> ReadTable(cfg.getUnsynced.value) == cfg.name)
    && (cfg.getLocal.Some? ==> ReadTable(cfg.getLocal.value) == cfg.name)
  }

  /** The adapter list: three tables in order, the key shapes and flags, which
      hooks exist, and every hook bound to its own table's helper. */
  lemma AdapterShape()
    ensures |SYNC_TABLES| == 3
    ensures SYNC_TABLES[0].name == "profiles" && SYNC_TABLES[1].name == "branches"
         && SYNC_TABLES[2].name == "branch_assignments"
    ensures SYNC_TABLES[0].key == Single("id") && SYNC_TABLES[1].key == Single("id")
         && SYNC_TABLES[2].key == Composite(["branch_id", "user_id"])
    ensures SYNC_TABLES[0].hasIsSynced && SYNC_TABLES[1].hasIsSynced && !SYNC_TABLES[2].hasIsSynced
    ensures forall i :: 0 <= i < 2 ==>
              SYNC_TABLES[i].markSynced.Some? && SYNC_TABLES[i].getUnsynced.Some? && SYNC_TABLES[i].getLocal.None?
    ensures SYNC_TABLES[2].getLocal.Some? && SYNC_TABLES[2].markSynced.None? && SYNC_TABLES[2].getUnsynced.None?
    ensures forall cfg :: cfg in SYNC_TABLES ==> OwnTable(cfg)
  {
  }
}
