# Offline-first sync engine of a point-of-sale app, in Dafny

The app keeps its data in an on-device SQLite file (`pos_local.db`) and
mirrors it to a Supabase backend. This project models the parts that decide
what ends up where:

- **The sync engine** (`SyncService`). Its fields are the database handle,
  `initialized`, `syncInProgress`, `lastSyncTimestamp` (the pull cursor) and
  the interval timer.
  - Its one-time initialisation creates the schema registry's tables and runs
    their migrations.
  - Its local helpers read and write the three tables.
  - Its sync cycle consists of a push phase and then a pull phase. The push
    phase sends dirty rows in batches of 100 and marks them synced. The pull
    phase fetches incrementally by `updated_at` and stores fetched rows as
    already synced.
- **The schema registry** (`TABLE_SCHEMAS`) and **the sync adapters**
  (`SYNC_TABLES`).
- **The standalone local-store functions**: the profile functions in
  `database.ts` and `saveLocalBranch`.
- **The decision logic of the authentication context**: the role given by
  sign-up, the order of the sign-up steps, role routing, the profile refresh,
  and the connectivity listener and mount-time initialisation that start and
  stop syncing.
- The `cn` class-name helper.

### How the model is built

- **SQLite file.** The file is a value: `Store.Db` maps a table name to its
  declared columns, its primary key and its rows in rowid order.
  - An SQL statement is a datatype. `Store.Exec` gives the file it leaves, or
    the error it throws.
  - `INSERT OR REPLACE` removes the rows that conflict on the primary key and
    appends the new row, built from the given values plus column defaults.
    The row is checked against the NOT NULL and `CHECK (.. IN ..)`
    constraints.
  - A NULL key never conflicts, and SQL `=` never matches NULL.
- **Handle.** The open handle is the class `Store.Database`.
- **Backend.** The backend is an oracle, `Remote.RemoteState`: remote tables
  plus a fault schedule that decides, call by call, whether the backend rejects
  the call. The class `Remote.Backend` holds it.
- **Engine.** The engine is the class `SyncService.SyncService`.
  - Each of its methods is proved against a value-level specification in
    `SyncEngine`. The state a method leaves and the outcome it returns are
    exactly what the specification function computes from the old state.
  - The loops (the registry loop of `init`, the batch loops of push and pull,
    and the per-row `Promise.all` fan-outs) carry invariants that tie the
    current state to the specification function.
- **Properties.** `SyncProperties` and `PullProperties` state what the
  specification guarantees. `LocalDatabase`, `LocalBranch`, `AuthContext` and
  `ClassNames` do the same for the other files.
- **Stand-ins.** Clocks become a `now: Time` parameter: one integer per
  operation, which stands for both `new Date()` and `CURRENT_TIMESTAMP`. The
  network state becomes a boolean parameter.

### Behaviour the proofs bring out

- **`initDatabase` makes saves throw.**
  - `initDatabase` creates `branches` with four columns only (`LocalDatabase.InitDatabaseEffect`).
  - On that table, `saveLocalBranch` throws, because it names `address` (`LocalBranch.SaveOnLegacyBranches`).
  - The save works only after the engine's own initialisation has run the three `branches` migrations (`LocalDatabase.InitThenBootstrap`).
- **A saved branch is always dirty.** `saveLocalBranch` does not supply `synced_at` or `is_synced`, so the replaced row is dirty even when it was synced before. Its omitted timestamps are written as explicit NULLs, not as the column default (`LocalBranch.SaveLocalBranchEffect`).
- **Timers stack.** `startSync` arms a new interval without clearing the one the field already holds. A reconnect while connected therefore leaves an interval that `stopSync` can no longer clear (`AuthContext.TimersStack`).
- **The composite mark key is never used.** The push phase computes a `-`-joined text key for a composite-key table, but no table with a `markSynced` hook has a composite key (`SyncTablesConfig.AdapterShape`). That branch is modelled (`SyncEngine.MarkKey`) but is never taken.

## Model

| member | source | states |
|---|---|---|
| SyncService.Arm | src/services/syncService.ts:70-76 | `setInterval` stores a new armed timer and adds one live interval, whatever the field held |
| SyncService.Clear | src/services/syncService.ts:78-83 | `stopSync` clears only the interval the field holds: the field ends empty and exactly one live interval fewer when it held one |
| SyncService.SyncService.Init | src/services/syncService.ts:23-48 | once initialised, nothing changes; otherwise the file opens and every registry create with its migrations runs in order (no create fails in the model), or the open fails with the engine still uninitialised; other engine fields are untouched |
| SyncService.SyncService.RunMigrations | src/services/syncService.ts:33-40 | a table's migrations run in order, each failing one swallowed, leaving the file as the migration specification gives |
| SyncService.SyncService.EnsureInitialized | src/services/syncService.ts:50-54 | the same effect as `init` on the file and the flag |
| SyncService.SyncService.GetDatabase | src/services/syncService.ts:56-61 | the device handle once initialised, the "not initialised" error before |
| SyncService.SyncService.GetProfile | src/services/syncService.ts:63-68 | after initialisation, the first row with that id or nothing; an initialisation or query error is returned |
| SyncService.SyncService.GetLocalBranchAssignments | src/services/syncService.ts:170-174 | all `branch_assignments` rows, in table order, after initialisation |
| SyncService.SyncService.UpsertLocalBranchAssignment | src/services/syncService.ts:176-190 | an INSERT OR REPLACE of the four assignment columns, each missing field NULL, after initialisation |
| SyncService.SyncService.GetUnsyncedBranches | src/services/syncService.ts:191-195 | the `branches` rows selected by `is_synced = 0` |
| SyncService.SyncService.MarkBranchSynced | src/services/syncService.ts:197-201 | the UPDATE setting `is_synced = 1` and `synced_at = now` on the rows with that id |
| SyncService.SyncService.UpsertLocalBranch | src/services/syncService.ts:203-220 | an INSERT OR REPLACE of all seven branch columns, missing fields NULL |
| SyncService.SyncService.GetUnsyncedProfiles | src/services/syncService.ts:222-226 | the `profiles` rows selected by `is_synced = 0` |
| SyncService.SyncService.MarkProfileSynced | src/services/syncService.ts:228-234 | the UPDATE setting `is_synced = 1` and `synced_at = now` on the profile rows with that id |
| SyncService.SyncService.UpsertLocalProfile | src/services/syncService.ts:236-254 | an INSERT OR REPLACE of all eight profile columns, missing fields NULL |
| SyncService.SyncService.CallUpsert | src/services/syncTablesConfig.ts:17-33 | an adapter's `upsertLocal` hook runs exactly the helper it names |
| SyncService.SyncService.CallMark | src/services/syncTablesConfig.ts:18-26 | an adapter's `markSynced` hook runs exactly the helper it names |
| SyncService.SyncService.CallRead | src/services/syncTablesConfig.ts:19-34 | an adapter's `getUnsynced`/`getLocal` hook runs exactly the helper it names |
| SyncService.SyncService.MarkAll | src/services/syncService.ts:124-126 | every row of the batch is marked, in order, and the first failing mark is the batch's outcome |
| SyncService.SyncService.PushBatches | src/services/syncService.ts:113-137 | the batch loop leaves the local file, the backend and the outcome that the push specification gives for those rows |
| SyncService.SyncService.PushAdapter | src/services/syncService.ts:111-138 | one adapter's push: the rows its hook reads (dirty rows for a flag table, all rows otherwise), then the batch loop, exactly as the push specification of that table says; a read error ends it |
| SyncService.SyncService.PushLocalChanges | src/services/syncService.ts:108-140 | initialisation, then every adapter in registry order, the first error ending the phase, exactly as the push specification says |
| SyncService.SyncService.UpsertAll | src/services/syncService.ts:155-165 | every pulled row of the batch is stored, stamped synced for a flag table, and the first failure is the batch's |
| SyncService.SyncService.PullBatches | src/services/syncService.ts:152-166 | the batch loop of pull, stopping after the first failing batch |
| SyncService.SyncService.PullAdapter | src/services/syncService.ts:144-167 | one adapter's pull: the select of its scope, then the batch loop over what came back, as the pull specification of that table says; a rejected select ends it |
| SyncService.SyncService.PullRemoteChanges | src/services/syncService.ts:142-169 | every adapter's select and store in order, the first error ending the phase |
| SyncService.SyncService.SyncData | src/services/syncService.ts:85-106 | the engine after `syncData` is the cycle specification of the engine before it; the timer is untouched |
| SyncService.SyncService.StartSync | src/services/syncService.ts:70-76 | a failing initialisation throws with no cycle and no timer; otherwise exactly one cycle runs and one interval is armed |
| SyncService.SyncService.StopSync | src/services/syncService.ts:78-83 | only the timer changes, cleared as `Clear` says |
| SyncProperties.InitOnce | src/services/syncService.ts:23-48 | `init` passes iff it already ran or the file opens (no create fails in the model); a failure is `OpenFailed` and leaves the engine uninitialised and unchanged; after a success every later call is a no-op; a first success leaves every registry table with its converged column set |
| SyncProperties.SyncGuard | src/services/syncService.ts:85-88 | while a cycle runs, or when offline, `syncData` changes nothing (no push, no pull, no cursor move) |
| SyncProperties.CursorRule | src/services/syncService.ts:89-105 | pull runs only after a passing push; the cursor becomes `now` iff both phases passed and otherwise stays; the in-progress flag always ends cleared; errors are not rethrown |
| SyncProperties.BatchesCover | src/services/syncService.ts:114-115 | the batches concatenate to exactly the rows, in order; each batch holds 1 to 100 rows; all but the last are full; there are ceil(n/100) of them |
| SyncProperties.BatchSizeExamples | src/services/syncService.ts:132-133 | 250 rows go out as 100, 100 and 50; no rows means no batch |
| SyncProperties.BatchIndex | src/services/syncService.ts:114-115 | the b-th batch is the slice the index loop takes at i = 100·b |
| SyncProperties.MergeRowsAppend | src/services/syncService.ts:116-122 | upserting two lists one after the other equals upserting their concatenation |
| SyncProperties.MergeCompose | src/services/syncService.ts:116-122 | two successive remote upserts into a table add up to one upsert of both batches |
| SyncProperties.MarkedNothing | src/services/syncService.ts:124-126 | marking no rows changes nothing |
| SyncProperties.MarkedCompose | src/services/syncService.ts:124-126 | marking the ids of two batches in turn equals marking the ids of both at once |
| SyncProperties.MarkFromEffect | src/services/syncService.ts:124-126 | the marks of one batch stamp exactly the rows whose id is among the batch's ids, and none fails |
| SyncProperties.FaultStep | src/services/syncService.ts:114-123 | an accepted upsert moves the loop's stopping point along by one batch |
| SyncProperties.PushStep | src/services/syncService.ts:114-127 | one accepted upsert: the backend merges the batch, the batch (flag table) is marked, and the loop continues one batch later |
| SyncProperties.PushLeavesStep | src/services/syncService.ts:114-127 | the loop's effect invariant carries back from the next batch to this one |
| SyncProperties.MergeStep | src/services/syncService.ts:114-123 | merging a batch and then the rows after it equals merging them all at once |
| SyncProperties.PushBatchesEffect | src/services/syncService.ts:114-137 | exactly the batches before the first rejected upsert reach the backend, merged in order over the conflict key; for a flag table exactly their ids are marked, nothing from a later batch; the loop passes iff no upsert was rejected, else it fails with that rejection |
| SyncProperties.PushFlaggedTable | src/services/syncService.ts:111-128 | for `profiles` and `branches`, the dirty rows go out without `is_synced`; the rows up to the first rejected batch (a whole number of batches) reach the backend and exactly the table rows with their ids become synced; rows of a rejected or later batch stay dirty; the table passes iff every batch went through |
| SyncProperties.FlaggedRead | src/services/syncService.ts:111-113 | a flag table's push reads exactly its `is_synced = 0` rows and runs the batch loop on them |
| SyncProperties.PushedWholeBatches | src/services/syncService.ts:114-123 | the rows pushed before a rejection are a whole number of batches |
| SyncProperties.PushAssignments | src/services/syncService.ts:129-137 | `branch_assignments` pushes every local row each cycle up to the first rejected batch, over the composite key, and nothing local changes |
| SyncProperties.FirstFailedTableEndsPhase | src/services/syncService.ts:110-123 | adapters run in registry order; a table that fails ends push (and pull) with its own result, and a table that passes hands its state to the next one |
| PullProperties.ProfileColumnsMatch | src/services/syncService.ts:236-254 | the profile helper writes exactly the registry's `profiles` columns |
| PullProperties.BranchColumnsMatch | src/services/syncService.ts:203-220 | the branch helper writes exactly the registry's `branches` columns |
| PullProperties.AssignmentColumnsMatch | src/services/syncService.ts:176-190 | the assignment helper writes exactly the registry's `branch_assignments` columns |
| PullProperties.BuildRowExact | src/services/syncService.ts:176-254 | when every column is given, the stored row is the given row: no defaults apply |
| PullProperties.UpsertLocalEffect | src/services/syncService.ts:176-254 | `upsertLocal*` stores the given row with missing fields NULL; it fails, changing nothing, exactly when that row breaks a NOT NULL or CHECK constraint; afterwards the (non-NULL) key is held by exactly that row and every other key keeps its rows |
| PullProperties.UpsertLocalStep | src/services/syncService.ts:176-254 | on a table with exactly the helper's columns, the helper stores the projected row as is when it is admissible, and otherwise fails with the constraint error and changes nothing |
| PullProperties.UnsyncedExact | src/services/syncService.ts:191-195 | `getUnsynced*` returns exactly the rows whose `is_synced` is 0, in table order, and changes nothing |
| PullProperties.MarkEffect | src/services/syncService.ts:197-201 | `mark*Synced` stamps exactly the rows with that id, leaves every other row and table as it was, is a no-op for an absent or NULL id, and a second run changes nothing |
| PullProperties.GetProfileExact | src/services/syncService.ts:63-68 | `getProfile` gives nothing iff no row has that id, otherwise a stored row with that id |
| PullProperties.PullFetches | src/services/syncService.ts:143-151 | `profiles` and `branches` fetch exactly the remote rows with `updated_at` after the cursor (the epoch before the first full cycle), oldest first; `branch_assignments` fetches everything; a select fails iff the backend rejects it; no remote table changes |
| PullProperties.PulledRowSynced | src/services/syncService.ts:157-161 | a pulled row of a flag table is stored with `is_synced = 1`, `synced_at = now` and every other column as fetched; an assignment is stored as fetched |
| PullProperties.ReplaceAllKey | src/services/syncService.ts:153-165 | after a run of replaces, a key is held by exactly the last new row with that key, or by its old rows if no new row has it |
| PullProperties.ReplacedCompose | src/services/syncService.ts:153-165 | replacing two lists in turn equals replacing their concatenation |
| PullProperties.ReplaceAllAppend | src/services/syncService.ts:153-165 | the same composition on rows |
| PullProperties.UpsertFromEffect | src/services/syncService.ts:155-165 | when every row of a batch passes the constraints, the batch's upserts are the replaces of its stored rows, in order, and pass |
| PullProperties.StoredSlice | src/services/syncService.ts:153-154 | storing a slice of the fetched rows equals slicing the stored rows |
| PullProperties.PullBatchesEffect | src/services/syncService.ts:152-166 | when every fetched row passes the constraints, the pull of a table passes and the table ends as its rows with every fetched row replaced in, in fetch order |
| PullProperties.PullBatchStep | src/services/syncService.ts:153-165 | one batch of such a pull replaces its stored rows in and the loop goes on one batch later, on a table still shaped for the helper |
| PullProperties.PullTableStores | src/services/syncService.ts:142-169 | after such a pull, each key is held by exactly the last fetched row with that key, as stored; a key nothing fetched keeps its rows |
| Remote.IndexOfKey | src/services/syncService.ts:116-122 | the found index holds a row with that key, and "none" means no row from there on has it |
| Remote.InsertByUpdatedAt | src/services/syncService.ts:148 | inserting into a sorted list keeps it sorted and adds exactly that row |
| Remote.InsertBehind | src/services/syncService.ts:148 | a row newer than the head goes behind it: the result stays sorted and holds the rows plus that row |
| Remote.SortedCons | src/services/syncService.ts:148 | a row not newer than every row of a sorted list can go in front of it |
| Remote.SortByUpdatedAt | src/services/syncService.ts:148 | `.order('updated_at', ascending)`: a sorted permutation of the rows |
| Remote.IncrementalAnswer | src/services/syncService.ts:146-150 | an incremental select returns exactly the rows updated after `since`, each as often as stored, oldest first |
| Remote.Backend.Upsert | src/services/syncService.ts:116-123 | one upsert call: all of the batch merged over the conflict key, or a rejection leaving the tables as they were |
| Remote.Backend.Select | src/services/syncService.ts:144-151 | one select call per its scope, or a rejection |
| Remote.Backend.Probe | src/contexts/authContext.tsx:180-186 | `select('id').limit(1)`: at most the first remote profile, or a rejection |
| Remote.Backend.SelectSingle | src/contexts/authContext.tsx:218-225 | `.single()`: the one matching row, else an error |
| Store.ReplaceLeavesOneRow | src/services/syncService.ts:176-190 | after INSERT OR REPLACE the new row's non-NULL key is carried by exactly one row, the new one |
| Store.ReplaceKeepsOtherKeys | src/services/syncService.ts:203-220 | a replace leaves the rows of every other key as they were, in order |
| Store.ReplaceKeepsOtherRows | src/services/syncService.ts:236-254 | a replace keeps every row without the new key, in order |
| Store.ReplaceIdempotent | src/services/syncService.ts:176-190 | replacing twice with the same row is replacing once |
| Store.ReplaceSummary | src/services/syncService.ts:176-254 | after a replace the new row alone holds its key, is among the rows, and every other key keeps its rows |
| Store.InsertOrReplaceAdmitted | src/services/database.ts:38-45 | an INSERT OR REPLACE of known columns whose row passes the constraints replaces by the table's key and passes |
| Store.BuildRowGiven | src/services/database.ts:38-45 | the stored row has exactly the table's columns and holds every given value |
| Store.BuildRowValues | src/services/database.ts:38-45 | an inserted row holds each given value and the default of every other declared column |
| Store.MatchingExact | src/services/syncService.ts:191-195 | `WHERE column = v` selects exactly the rows whose column is the non-NULL v |
| Store.NotMatchingExact | src/services/database.ts:59-62 | `DELETE .. WHERE column = v` keeps exactly the other rows |
| Store.SetWhereCompose | src/services/syncService.ts:197-201 | two stamping updates compose into one over both id sets |
| Store.SetWhereNothing | src/services/database.ts:52-57 | an update that matches no row changes nothing |
| Store.Database.RunSync | src/services/syncService.ts:32-36 | `runSync`: the file becomes the statement's effect, or stays as it was when the statement throws |
| Store.Database.GetAllSync | src/services/syncService.ts:173 | `getAllSync`: the query's rows, in rowid order, or its error |
| TableSchemas.MigrateEffect | src/services/syncService.ts:33-41 | a table's migrations add exactly their columns to it and touch no other table |
| TableSchemas.MigrationStep | src/services/syncService.ts:34-39 | one migration on a present table leaves its column there, whether added or already present, and touches nothing else |
| TableSchemas.SchemaStep | src/services/syncService.ts:31-40 | one registry entry: its create then its migrations leave the table with its converged columns, other tables unchanged |
| TableSchemas.MigrateNoop | src/services/syncService.ts:35-39 | migrations whose columns already exist fail one by one, are swallowed, and change nothing |
| TableSchemas.BootstrapEffect | src/services/syncService.ts:31-42 | from any starting file, bootstrap leaves every registry table present with its converged columns, and non-registry tables untouched |
| TableSchemas.BootstrapKeys | src/services/syncService.ts:31-42 | bootstrap adds exactly the registry's tables |
| TableSchemas.BootstrapOthers | src/services/syncService.ts:31-42 | a table outside the registry is left as it was |
| TableSchemas.BootstrapColumns | src/services/syncService.ts:31-42 | each registry table ends with its converged columns |
| TableSchemas.BootstrapFixpoint | src/services/syncService.ts:31-42 | a file that already holds every registry table with its migration columns is unchanged by bootstrap |
| TableSchemas.BootstrapIdempotent | src/services/syncService.ts:31-42 | bootstrapping twice is bootstrapping once |
| TableSchemas.RegistryWellFormed | src/db/tableSchemas.ts:8-61 | registry names are distinct, each create is for its own table, and every migration is an ADD COLUMN SQLite accepts |
| TableSchemas.RegistryShape | src/db/tableSchemas.ts:8-61 | three tables in order; branches' three migrations in order; empty migration lists otherwise; the role constraints and default; the keys; `is_synced` defaults to 0 |
| TableSchemas.RegistryNames | src/db/tableSchemas.ts:8-61 | the registry covers exactly `profiles`, `branches` and `branch_assignments` |
| TableSchemas.BranchMigrationColumns | src/db/tableSchemas.ts:34-47 | the branches migrations add exactly `address`, `synced_at` and `is_synced` |
| TableSchemas.RegistryConverges | src/db/tableSchemas.ts:34-47 | after bootstrap from any shape, every registry table has its converged columns and `branches` always holds the three migration columns |
| TableSchemas.RegistryByName | src/db/tableSchemas.ts:9-59 | by name: `profiles` and `branch_assignments` keep their columns or get their create's, and `branches` also gains `address`, `synced_at` and `is_synced` |
| TableSchemas.RegistryFromScratch | src/db/tableSchemas.ts:9-59 | on a file without registry tables, each gets exactly its create's columns |
| TableSchemas.CreateIsIdempotent | src/db/tableSchemas.ts:25-33 | in the model `CREATE TABLE IF NOT EXISTS` never fails; it changes nothing when the table exists, and running it twice is running it once |
| SyncTablesConfig.AdapterShape | src/services/syncTablesConfig.ts:12-37 | three adapters in order; key shapes and dirty-flag flags; `markSynced`/`getUnsynced` only for the flag tables, `getLocal` only for assignments; every hook bound to its own table's helper |
| Entities.RoleName | src/types/profile.types.ts:5 | a profile role is written as one of `admin`, `manager`, `user` |
| LocalDatabase.InitDatabase | src/services/database.ts:6-31 | the file after `initDatabase` is its three creates in order, and (no create failing in the model) it resolves `true` |
| LocalDatabase.GetLocalProfile | src/services/database.ts:33-36 | the first stored row with that id in table order, nothing iff no row has that id; a missing table or column is the thrown error |
| LocalDatabase.SaveLocalProfile | src/services/database.ts:38-45 | the file after the statement, or unchanged with the error |
| LocalDatabase.GetUnsynced | src/services/database.ts:47-50 | exactly the profiles with `is_synced = 0`, in table order, each at most as often as stored; the error cases |
| LocalDatabase.MarkAsSynced | src/services/database.ts:52-57 | the stamping UPDATE on that id |
| LocalDatabase.ClearLocalProfile | src/services/database.ts:59-62 | the DELETE on that id |
| LocalDatabase.InitDatabaseEffect | src/services/database.ts:7-29 | only absent tables are created, empty with their declared shape; existing ones are untouched; `branches` lacks `address`, `synced_at`, `is_synced`; running it twice is running it once |
| LocalDatabase.InitThenBootstrap | src/services/database.ts:17-22 | after `initDatabase` on a fresh file, the engine's bootstrap gives every table the registry's create columns |
| LocalDatabase.LegacyBranchesRepaired | src/services/database.ts:17-22 | the four legacy `branches` columns plus the three migration columns are exactly the registry's `branches` columns |
| LocalDatabase.ProfileReplaceEffect | src/services/database.ts:38-45 | a profile INSERT OR REPLACE with a text id and email and an admitted role passes; the id is then held by exactly the stored row (given values, defaults for the rest); other ids and tables are unchanged |
| LocalDatabase.SaveLocalProfileEffect | src/services/database.ts:38-45 | `saveLocalProfile` passes; the id is held by one row with the profile's fields, `is_synced = 1`, `synced_at` now and both omitted timestamps defaulted to now; other ids and tables unchanged |
| LocalDatabase.SavedProfileRow | src/services/database.ts:38-45 | the stored profile row: the given fields, `is_synced = 1`, `synced_at` and both timestamps now, keyed by the profile's id |
| LocalDatabase.StampByIdEffect | src/services/database.ts:52-57 | `markAsSynced` stamps exactly the rows with that id, is a no-op when no row has it, and is idempotent |
| LocalDatabase.ClearEffect | src/services/database.ts:59-62 | exactly the rows with other ids remain; no other table changes; clearing again changes nothing |
| LocalBranch.SaveLocalBranch | src/services/localBranch.ts:6-18 | the file after the branch INSERT OR REPLACE, or unchanged with the error |
| LocalBranch.SaveLocalBranchEffect | src/services/localBranch.ts:6-18 | on the registry shape the save passes; the id is held by exactly one row with the given id, name, address, the given timestamps or NULL (never the default), `synced_at` NULL and `is_synced` 0, so the row is dirty; other ids and tables unchanged |
| LocalBranch.SavedBranchRow | src/services/localBranch.ts:6-18 | the stored branch row: the given fields, NULL for absent timestamps, `synced_at` NULL, `is_synced` 0, admissible and keyed by the branch's id |
| LocalBranch.SaveOnLegacyBranches | src/services/localBranch.ts:6-18 | on `initDatabase`'s four-column branches the save throws and the file is unchanged |
| AuthContext.Route | src/contexts/authContext.tsx:122-130 | the admin route iff the role is `admin`; the tabs route for every other role and for none |
| AuthContext.RouteOfRole | src/contexts/authContext.tsx:122-130 | only the admin role is routed to the admin screen |
| AuthContext.FirstUserRole | src/contexts/authContext.tsx:187-188 | admin iff the probe found no profile, user otherwise |
| AuthContext.SignUp | src/contexts/authContext.tsx:158-206 | the backend, the local file and the outcome are those of the sign-up steps in order (auth, user check, probe, remote upsert, initialisation, local write), each error throwing |
| AuthContext.SignUpFailsEarly | src/contexts/authContext.tsx:169-186 | an auth error, a missing user or a rejected probe throws with no remote table and nothing local changed |
| AuthContext.SignUpUpsertFails | src/contexts/authContext.tsx:197-199 | a rejected remote upsert throws before any local write |
| AuthContext.LocalProfileStored | src/contexts/authContext.tsx:201-205 | the local write leaves the id held by one row with the same id, the email or `''`, the name, the role and `is_synced = 1` |
| AuthContext.SignUpSucceeds | src/contexts/authContext.tsx:179-205 | with probe and upsert accepted: the role is admin iff the remote had no profile; the remote merges the new profile over its id; the local file is that of the local write |
| AuthContext.SyncProfile | src/contexts/authContext.tsx:215-237 | the backend and the shown profile are those of the refresh specification |
| AuthContext.ProfileSnapshotMeaning | src/contexts/authContext.tsx:215-237 | no call and nothing shown without a user or offline; a shown profile is the single remote profile with the user's id, `synced_at` set to now |
| AuthContext.ListenerDecision | src/contexts/authContext.tsx:51-60 | nothing once unmounted; `startSync` iff connected; `stopSync` otherwise, a NULL report counting as disconnected |
| AuthContext.OnConnectivityChange | src/contexts/authContext.tsx:51-60 | the stored online flag is `isConnected ?? false`; a disconnect only clears the timer; a connect is exactly `startSync` |
| AuthContext.Initialize | src/contexts/authContext.tsx:36-49 | initialisation first; a failure or an unmount stores nothing and starts nothing; otherwise the online flag is stored and, when connected, exactly one `startSync` runs |
| AuthContext.TimersStack | src/services/syncService.ts:70-83 | two connects and one disconnect leave one more live interval than before, so at least one can no longer be cleared |
| ClassNames.KeptAppend | src/utils/cn.ts:3 | the filter distributes over concatenation: argument order is kept |
| ClassNames.KeptMember | src/utils/cn.ts:3 | a string is kept iff it is non-empty and is an argument |
| ClassNames.KeptNonEmpty | src/utils/cn.ts:3 | every kept string is non-empty and comes from an argument |
| ClassNames.KeptNone | src/utils/cn.ts:3 | all-falsy arguments keep nothing |
| ClassNames.JoinAppend | src/utils/cn.ts:3 | two joined runs meet at exactly one separator |
| ClassNames.SplitJoin | src/utils/cn.ts:3 | splitting on spaces undoes a space-join of space-free pieces |
| ClassNames.CnEmpty | src/utils/cn.ts:2-4 | no arguments, or only falsy ones, give `''` |
| ClassNames.CnSingle | src/utils/cn.ts:2-4 | one truthy argument among falsy ones is returned as is |
| ClassNames.CnEmptyIff | src/utils/cn.ts:2-4 | the result is `''` iff no argument is truthy |
| ClassNames.CnAppend | src/utils/cn.ts:2-4 | `cn(...a, ...b)` is `cn(...a)` and `cn(...b)` joined by one space, or whichever is non-empty |
| ClassNames.CnRoundTrip | src/utils/cn.ts:2-4 | with space-free arguments and at least one truthy one, the pieces between single spaces are exactly the truthy arguments in order |

## Left out

- **Backend client.** The Supabase client is an oracle with a per-call fault schedule. Query-builder semantics and the auth service are not modelled; `signUp`'s auth call is an input `AuthResponse`.
- **SQLite.** SQL text, SQLite type affinity and expo-sqlite are not modelled. Timestamps are integers, and `'1970-01-01'` is `EPOCH = 0`.
- Store.Exec: the UPDATE does not check NOT NULL or CHECK constraints, since the source only assigns `is_synced = 1` and a timestamp.
- Store.Exec: on a REPLACE conflict SQLite substitutes the column default for a NULL in a NOT NULL column. The model rejects the row instead.
- **Concurrency.** Every `Promise.all` fan-out runs sequentially: all calls are made and the first failure is reported. The check-then-set gap between the `syncInProgress` test and its assignment is not modelled; `SyncGuard` holds in a sequential run.
- **Clock and network.** The clock is a `now` parameter, one per cycle, so the engine cannot see rows a backend updates during a cycle. That leaves out the window in which such a row is missed because the cursor is set after the pull. The remote `updated_at` values are whatever the backend stores. The network becomes a boolean input, and the cycle's own check is a separate one.
- **Timers.** A timer is reduced to whether the field holds one and how many intervals are live. The five-minute firing of the interval is not modelled.
- **React.** React state, AsyncStorage caching, `signIn`, `signOut`, `fetchProfile`, the cached-profile loader, the auth-state listener and the unmount cleanup are not modelled. `SyncProfile` returns the profile it would show; `setProfile` and the cache write are not modelled.
- SyncService.SyncService.Init: a `CREATE TABLE` that fails (I/O error, busy or read-only or corrupt file) is not modelled. The source rethrows it from `init` with the handle already set, the engine still uninitialised and the earlier registry tables already created and migrated; the engine's `Valid()` ties the handle to the initialised flag, so that state is not represented.
- SyncProperties.InitOnce: states `init`'s outcome only for creates that succeed; the failing-create path described for `SyncService.SyncService.Init` is not covered.
- TableSchemas.CreateIsIdempotent: `Exec` of a create is always `Ok` in the model, where SQLite can still throw on a file-level error; that case is not modelled.
- LocalDatabase.InitDatabase: resolves `true` because no create fails in the model; the source would throw the first failing create's error synchronously (it is not `async`), leaving the earlier tables created.
- **Failing file open.** `database.ts` and `localBranch.ts` open the file at module load, and that open cannot fail in the model. Their functions take the open handle.
- **Thin wrappers.** `branchService.ts`, `branchEditService.ts` and `profileService.ts` are thin wrappers over the backend client and are not part of this model.
- PullProperties.PullBatchesEffect: states the table's final contents only when every fetched row passes the local constraints. A failing row is covered row by row by `UpsertLocalEffect`: it fails and changes nothing.
- PullProperties.PullTableStores: same restriction as `PullBatchesEffect`.
- AuthContext.SignUpSucceeds: requires an initialised file whose `profiles` has the registry's shape. The other cases are stated through `SignUp` and `SignUpSpec`.
- Remote.Backend.Upsert: the remote upsert merges the given columns over the row with the same conflict key and appends otherwise. Remote constraints and triggers, such as a server-side `updated_at`, are not modelled.
