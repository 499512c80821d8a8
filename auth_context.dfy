/** The decisions of the authentication context: which role a new account
    gets, the order of the sign-up steps over the backend and the local file,
    where a role is routed, when a profile refresh is attempted, and how a
    connectivity change starts or stops the sync engine. The React state it
    sets is not modelled; each method returns what it would store. */
module AuthContext {
  import opened Rows
  import opened Store
  import opened Entities
  import opened TableSchemas
  import opened Remote
  import opened SyncEngine
  import opened SyncService
  import opened LocalDatabase

  const ADMIN_ROUTE := "/(drawer)/admin"
  const TABS_ROUTE := "/(drawer)/(tabs)"

  /** `handleNavigation(role?)`: admins to the admin screen, every other role,
      or none, to the tabs. */
  function Route(role: Option<string>): (path: string)
    ensures path == ADMIN_ROUTE <==> role == Some("admin")
    ensures path == TABS_ROUTE <==> role != Some("admin")
  {
    if role == Some("admin") then ADMIN_ROUTE
    else if role == Some("manager") then TABS_ROUTE
    else TABS_ROUTE
  }

  /** Only the admin role is routed to the admin screen. */
  lemma RouteOfRole(r: Role)
    ensures Route(Some(RoleName(r))) == if r == Admin then ADMIN_ROUTE else TABS_ROUTE
  {
  }

  /** `isFirstUser ? 'admin' : 'user'`, where the first user is the one whose
      probe of the remote profiles found no row. */
  function FirstUserRole(probe: seq<Row>): (role: Role)
    ensures role == Admin <==> probe == []
    ensures role == User <==> probe != []
  {
    if probe == [] then Admin else User
  }

  // ---------------------------------------------------------------------------
  // signUp

  /** The user the auth call returns: an id and possibly an email. */
  datatype AuthUser = AuthUser(id: string, email: Option<string>)

  /** What `supabase.auth.signUp` answers: an error, no user, or the user. */
  datatype AuthResponse = AuthError | NoUser | SignedUp(user: AuthUser)

  /** The row upserted remotely; an absent email is left out of the payload. */
  function RemoteProfile(user: AuthUser, name: string, role: Role): Row {
    map["id" := Text(user.id), "name" := Text(name), "role" := Text(RoleName(role))]
      + (if user.email.Some? then map["email" := Text(user.email.value)] else map[])
  }

  /** The row written locally: email or `''`, and `is_synced = 1`. */
  function LocalProfile(user: AuthUser, name: string, role: Role): Row {
    map["id" := Text(user.id), "email" := Text(user.email.GetOr("")), "name" := Text(name),
        "role" := Text(RoleName(role)), "is_synced" := Int(1)]
  }

  /** The sign-up steps in order, each throwing on its error: the auth call,
      the user check, the probe, the remote upsert, then the engine's
      initialisation and the local INSERT OR REPLACE. */
  function SignUpSpec(w: World, auth: AuthResponse, name: string, now: Time): (World, Outcome) {
    match auth
    case AuthError => (w, Fail(SignUpFailed))
    case NoUser => (w, Fail(NoUserReturned))
    case SignedUp(user) =>
      var probed := ProbeCall(w.remote, "profiles");
      if probed.1.Err? then (w.(remote := probed.0), Fail(probed.1.error))
      else
        var role := FirstUserRole(probed.1.value);
        var upserted := UpsertCall(probed.0, "profiles", [RemoteProfile(user, name, role)], ["id"]);
        if upserted.1.Fail? then (w.(remote := upserted.0), upserted.1)
        else
          var written := RunLocal(w.local, InsertOrReplace("profiles", LocalProfile(user, name, role), now));
          (World(written.0, upserted.0), written.1)
  }

  method SignUp(svc: SyncService, auth: AuthResponse, name: string, now: Time) returns (out: Outcome)
    requires svc.Valid()
    modifies svc, svc.device, svc.remote
    ensures svc.Valid() && svc.Flags() == old(svc.Flags())
    ensures (svc.WorldOf(), out) == SignUpSpec(old(svc.WorldOf()), auth, name, now)
  {
    if auth.AuthError? {
      return Fail(SignUpFailed);
    }
    if auth.NoUser? {
      return Fail(NoUserReturned);
    }
    var user := auth.user;
    var probe := svc.remote.Probe("profiles");
    if probe.Err? {
      return Fail(probe.error);
    }
    var role := FirstUserRole(probe.value);
    out := svc.remote.Upsert("profiles", [RemoteProfile(user, name, role)], ["id"]);
    if out.Fail? {
      return;
    }
    out := svc.EnsureInitialized();
    if out.Fail? {
      return;
    }
    var h := svc.GetDatabase();
    assert h.Ok?;
    out := h.value.RunSync(InsertOrReplace("profiles", LocalProfile(user, name, role), now));
  }

  /** An auth error, a missing user or a rejected probe throws before any
      write: no remote table and nothing local changes. */
  lemma SignUpFailsEarly(w: World, auth: AuthResponse, name: string, now: Time)
    requires auth.AuthError? || auth.NoUser? || (auth.SignedUp? && NextFails(w.remote.faults))
    ensures var (w1, o) := SignUpSpec(w, auth, name, now);
      o.Fail? && w1.local == w.local && w1.remote.tables == w.remote.tables
  {
  }

  /** A rejected remote upsert throws before the local write. */
  lemma SignUpUpsertFails(w: World, user: AuthUser, name: string, now: Time)
    requires !NextFails(w.remote.faults) && NextFails(Advance(w.remote).faults)
    ensures var (w1, o) := SignUpSpec(w, SignedUp(user), name, now);
      o == Fail(RemoteFailed("profiles")) && w1.local == w.local && w1.remote.tables == w.remote.tables
  {
  }

  /** The local write of a sign-up, on the registry's `profiles`: the id is
      then held by exactly one row with the same id, the email or `''`, the
      name, the role and `is_synced = 1`. */
  lemma LocalProfileStored(db: Db, user: AuthUser, name: string, role: Role, now: Time)
    requires ProfilesShaped(db)
    ensures var (d, o) := Apply(db, InsertOrReplace("profiles", LocalProfile(user, name, role), now));
      var held := WithKey(d["profiles"].rows, ["id"], [Text(user.id)]);
      && o == Pass
      && |held| == 1 && held[0].Keys == ProfilesCreate.columns.Keys
      && held[0]["id"] == Text(user.id) && held[0]["email"] == Text(user.email.GetOr(""))
      && held[0]["name"] == Text(name) && held[0]["role"] == Text(RoleName(role))
      && held[0]["is_synced"] == Int(1)
  {
    ProfileReplaceEffect(db, LocalProfile(user, name, role), now);
  }

  /** When the probe and the upsert go through on an initialised file with the
      registry's `profiles`: the role is admin exactly when the remote had no
      profile; the remote merges the new profile over its id; and the local
      file is that of the local write, whose row `LocalProfileStored` gives. */
  lemma SignUpSucceeds(w: World, user: AuthUser, name: string, now: Time)
    requires !NextFails(w.remote.faults) && !NextFails(Advance(w.remote).faults)
    requires w.local.initialized && ProfilesShaped(w.local.tables)
    ensures var role := if RowsOf(w.remote, "profiles") == [] then Admin else User;
      var (w1, o) := SignUpSpec(w, SignedUp(user), name, now);
      var written := Apply(w.local.tables, InsertOrReplace("profiles", LocalProfile(user, name, role), now));
      && o == Pass
      && (role == Admin <==> RowsOf(w.remote, "profiles") == [])
      && RowsOf(w1.remote, "profiles") == MergeRows(RowsOf(w.remote, "profiles"), ["id"], [RemoteProfile(user, name, role)])
      && w1.local == w.local.(tables := written.0)
      && WithKey(w1.local.tables["profiles"].rows, ["id"], [Text(user.id)]) == WithKey(written.0["profiles"].rows, ["id"], [Text(user.id)])
  {
    var role := if RowsOf(w.remote, "profiles") == [] then Admin else User;
    SignUpRemoteSteps(w.remote, user, name);
    LocalProfileStored(w.local.tables, user, name, role, now);
  }

  /** The probe and the upsert of a sign-up when both go through. */
  lemma SignUpRemoteSteps(rs: RemoteState, user: AuthUser, name: string)
    requires !NextFails(rs.faults) && !NextFails(Advance(rs).faults)
    ensures var role := if RowsOf(rs, "profiles") == [] then Admin else User;
      var probed := ProbeCall(rs, "profiles");
      var upserted := UpsertCall(probed.0, "profiles", [RemoteProfile(user, name, role)], ["id"]);
      && probed.1.Ok? && FirstUserRole(probed.1.value) == role
      && upserted.1 == Pass
      && RowsOf(upserted.0, "profiles") == MergeRows(RowsOf(rs, "profiles"), ["id"], [RemoteProfile(user, name, role)])
  {
    var probed := ProbeCall(rs, "profiles");
    assert RowsOf(probed.0, "profiles") == RowsOf(rs, "profiles");
  }

  // ---------------------------------------------------------------------------
  // syncProfile

  /** `syncProfile`: nothing without a user or offline; otherwise the
      `.single()` lookup of the user's remote profile, shown with `synced_at`
      set to now; a rejected lookup is logged and shows nothing. */
  function ProfileSnapshot(rs: RemoteState, user: Option<string>, online: bool, now: Time): (RemoteState, Option<Row>) {
    if user.None? || !online then (rs, None)
    else
      var looked := SingleCall(rs, "profiles", "id", Text(user.value));
      (looked.0, if looked.1.Ok? then Some(looked.1.value["synced_at" := Int(now)]) else None)
  }

  method SyncProfile(remote: Backend, user: Option<string>, online: bool, now: Time) returns (shown: Option<Row>)
    modifies remote
    ensures (remote.state, shown) == ProfileSnapshot(old(remote.state), user, online, now)
  {
    if user.None? || !online {
      return None;
    }
    var r := remote.SelectSingle("profiles", "id", Text(user.value));
    if r.Err? {
      return None;
    }
    shown := Some(r.value["synced_at" := Int(now)]);
  }

  /** Without a user or offline, no call is made and nothing is shown; a shown
      profile is the one remote profile with the user's id, stamped now. */
  lemma ProfileSnapshotMeaning(rs: RemoteState, user: Option<string>, online: bool, now: Time)
    ensures user.None? || !online ==> ProfileSnapshot(rs, user, online, now) == (rs, None)
    ensures var (rs1, shown) := ProfileSnapshot(rs, user, online, now);
      shown.Some? ==>
        && user.Some? && online
        && shown.value["synced_at"] == Int(now)
        && |Matching(RowsOf(rs, "profiles"), "id", Text(user.value))| == 1
        && shown.value == Matching(RowsOf(rs, "profiles"), "id", Text(user.value))[0]["synced_at" := Int(now)]
        && Get(shown.value, "id") == Text(user.value)
  {
    if user.Some? && online {
      var found := Matching(RowsOf(rs, "profiles"), "id", Text(user.value));
      if |found| == 1 {
        assert found[0] in found;
        MatchingExact(RowsOf(rs, "profiles"), "id", Text(user.value), found[0]);
      }
    }
  }

  // ---------------------------------------------------------------------------
  // Connectivity

  datatype ListenerStep = Ignored | Started | Stopped

  /** What the NetInfo listener does with a report: nothing once unmounted,
      `startSync` when connected, `stopSync` otherwise (a NULL report counts
      as disconnected). */
  function ListenerDecision(mounted: bool, isConnected: Option<bool>): (d: ListenerStep)
    ensures d == Ignored <==> !mounted
    ensures d == Started <==> mounted && isConnected == Some(true)
    ensures d == Stopped <==> mounted && isConnected != Some(true)
  {
    if !mounted then Ignored
    else if isConnected == Some(true) then Started
    else Stopped
  }

  /** The listener: the online flag it stores (`isConnected ?? false`) and the
      call it makes. `cycleOnline` is what the cycle's own network check
      reports. */
  method OnConnectivityChange(svc: SyncService, mounted: bool, isConnected: Option<bool>, cycleOnline: bool, now: Time)
    returns (online: Option<bool>, out: Outcome)
    requires svc.Valid()
    modifies svc, svc.device, svc.remote
    ensures svc.Valid()
    ensures online == (if mounted then Some(isConnected.GetOr(false)) else None)
    ensures ListenerDecision(mounted, isConnected) == Ignored ==>
      out == Pass && svc.EngineOf() == old(svc.EngineOf()) && svc.timers == old(svc.timers)
    ensures ListenerDecision(mounted, isConnected) == Stopped ==>
      out == Pass && svc.EngineOf() == old(svc.EngineOf()) && svc.timers == Clear(old(svc.timers))
    ensures ListenerDecision(mounted, isConnected) == Started ==>
      var (l, o) := EnsureInit(old(svc.LocalOf()));
      && out == o
      && (o.Fail? ==> svc.EngineOf() == old(svc.EngineOf()).(local := l) && svc.timers == old(svc.timers))
      && (o.Pass? ==> svc.EngineOf() == SyncCycle(old(svc.EngineOf()).(local := l), cycleOnline, now)
                      && svc.timers == Arm(old(svc.timers)))
  {
    if !mounted {
      return None, Pass;
    }
    online := Some(isConnected.GetOr(false));
    if isConnected == Some(true) {
      out := svc.StartSync(cycleOnline, now);
    } else {
      svc.StopSync();
      out := Pass;
    }
  }

  /** The mount-time `initialize`: initialise the engine, fetch the network
      state, and, still mounted, store the online flag and start syncing when
      connected. Any error is logged, so nothing is returned for it. */
  method Initialize(svc: SyncService, mounted: bool, isConnected: Option<bool>, cycleOnline: bool, now: Time)
    returns (online: Option<bool>)
    requires svc.Valid()
    modifies svc, svc.device, svc.remote
    ensures svc.Valid()
    ensures var (l, o) := EnsureInit(old(svc.LocalOf()));
      && online == (if o.Pass? && mounted then Some(isConnected.GetOr(false)) else None)
      && (o.Pass? && mounted && isConnected == Some(true) ==>
            svc.EngineOf() == SyncCycle(old(svc.EngineOf()).(local := l), cycleOnline, now)
            && svc.timers == Arm(old(svc.timers)))
      && (!(o.Pass? && mounted && isConnected == Some(true)) ==>
            svc.EngineOf() == old(svc.EngineOf()).(local := l) && svc.timers == old(svc.timers))
  {
    var o := svc.EnsureInitialized();
    if o.Fail? || !mounted {
      return None;
    }
    online := Some(isConnected.GetOr(false));
    if isConnected == Some(true) {
      var started := svc.StartSync(cycleOnline, now);
    }
  }

  /** Reconnecting while a timer is still armed stacks a second interval, and
      one disconnect clears only the stored one: an interval stays live. */
  lemma TimersStack(t: Timers)
    requires t.armed ==> t.live > 0
    ensures Clear(Arm(Arm(t))).live == t.live + 1
    ensures Clear(Arm(Arm(t))).live >= 1
  {
  }
}
