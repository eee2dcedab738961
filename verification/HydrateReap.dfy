/**
  The reap at the end of a launch in terms of the persisted rows: the frontend names the sessions
  of the tabs it has loaded, Rust kills the others (tabStore.ts and lib.rs).
*/
module HydrateReap {
  import opened Wrappers
  import opened TmuxNames
  import opened TmuxServer
  import opened Reaper
  import opened StoreTypes
  import opened TabState
  import opened Persistence
  import opened SessionReferences
  import opened TabActions
  import opened StoreSimulation

  predicate TerminalRow(r: TabRow) {
    TerminalKind(r.kind)
  }

  /** Rust's name for the session of a persisted tab under a profile. */
  function RowSessionName(r: TabRow, profileId: string): string {
    SessionName(r.worktreeId, profileId, GetOr(r.windowName, "term-1"))
  }

  /** A persisted terminal or chat tab of a persisted space refers to the session. */
  predicate RefersTo(r: TabRow, sp: SpaceRow, session: string) {
    TerminalRow(r) && r.spaceId == sp.id && session == RowSessionName(r, sp.profileId)
  }

  ghost predicate ReferencedByRows(session: string, db: Db) {
    exists r, sp :: r in db.tabs && sp in db.spaces && RefersTo(r, sp, session)
  }

  /** A launch without profile rows is a first launch and looks at no tabs. */
  ghost predicate ReferencedAtLaunch(session: string, db: Db) {
    db.profiles != [] && ReferencedByRows(session, db)
  }

  function StoreAtLaunch(db: Db): Store {
    if db.profiles == [] then INITIAL else LaunchedStore(db)
  }

  lemma RestartGivesStore(refused: set<string>, db: Db)
    ensures Restarted(refused, db).store == StoreAtLaunch(db)
  {
  }

  /** Every terminal or chat row has a window name of its own and a worktree id that is null or
      nonempty, and space ids are distinct. */
  predicate WellNamed(db: Db) {
    && (forall r | r in db.tabs && TerminalRow(r) ::
          r.windowName.Some? && r.windowName != Some("auto") && r.worktreeId != Some(""))
    && (forall i, j | 0 <= i < j < |db.spaces| :: db.spaces[i].id != db.spaces[j].id)
  }

  lemma LaunchedTabs(db: Db, t: Tab)
    ensures t in LaunchedStore(db).tabs <==> exists r :: r in db.tabs && t == TabFromRow(r)
  {
    var sorted, tabs := StableSort(db.tabs), LaunchedStore(db).tabs;
    StableSortSorts(db.tabs);
    if t in tabs {
      var k :| 0 <= k < |tabs| && tabs[k] == t;
      assert sorted[k] in multiset(db.tabs) && t == TabFromRow(sorted[k]);
    }
    if exists r :: r in db.tabs && t == TabFromRow(r) {
      var r :| r in db.tabs && t == TabFromRow(r);
      assert r in multiset(sorted);
      var k :| 0 <= k < |sorted| && sorted[k] == r;
      assert tabs[k] == t;
    }
  }

  /** A launched space is found with the profile its row has. */
  lemma LaunchedSpace(db: Db, sp: SpaceRow)
    requires sp in db.spaces && forall i, j | 0 <= i < j < |db.spaces| :: db.spaces[i].id != db.spaces[j].id
    ensures FindSpace(LaunchedStore(db).spaces, sp.id).Some?
    ensures FindSpace(LaunchedStore(db).spaces, sp.id).value.profileId == sp.profileId
  {
    var spaces := LaunchedStore(db).spaces;
    var j :| 0 <= j < |db.spaces| && db.spaces[j] == sp;
    assert KnownSpace(db, sp.id);
    LaunchedSpacesAreTheRows(db, sp.id);
    var found := FindSpace(spaces, sp.id).value;
    SpaceHasRow(db, found);
    var row :| row in db.spaces && found.id == row.id && found.profileId == row.profileId;
    var i :| 0 <= i < |db.spaces| && db.spaces[i] == row;
    assert i == j;
  }

  lemma SpaceHasRow(db: Db, space: Space)
    requires space in LaunchedStore(db).spaces
    ensures exists row :: row in db.spaces && space.id == row.id && space.profileId == row.profileId
  {
    var sorted, spaces := SortSpaces(db.spaces), LaunchedStore(db).spaces;
    SortSpacesSorts(db.spaces);
    var k :| 0 <= k < |spaces| && spaces[k] == space;
    assert sorted[k] in multiset(db.spaces);
    assert sorted[k] in db.spaces;
  }

  lemma ReferenceHasRow(db: Db, t: Tab, session: string)
    requires t in LaunchedStore(db).tabs && t.TerminalLike() && FindSpace(LaunchedStore(db).spaces, t.spaceId).Some?
    requires session == BackendSessionName(t, FindSpace(LaunchedStore(db).spaces, t.spaceId).value.profileId)
    ensures ReferencedByRows(session, db)
  {
    var space := FindSpace(LaunchedStore(db).spaces, t.spaceId).value;
    LaunchedTabs(db, t);
    var r :| r in db.tabs && t == TabFromRow(r);
    SpaceHasRow(db, space);
    var sp :| sp in db.spaces && space.id == sp.id && space.profileId == sp.profileId;
    assert RefersTo(r, sp, session);
  }

  lemma RowGivesReference(db: Db, r: TabRow, sp: SpaceRow, session: string)
    requires WellNamed(db) && r in db.tabs && sp in db.spaces && RefersTo(r, sp, session)
    ensures Referenced(session, LaunchedStore(db).tabs, LaunchedStore(db).spaces)
  {
    var t := TabFromRow(r);
    LaunchedTabs(db, t);
    LaunchedSpace(db, sp);
    assert t.TerminalLike() && session == BackendSessionName(t, sp.profileId);
  }

  /** The references of the store after any launch are those of the rows, if it has read them. */
  lemma LaunchedReferences(refused: set<string>, db: Db, session: string)
    requires WellNamed(db)
    ensures var st := Restarted(refused, db).store;
            Referenced(session, st.tabs, st.spaces) <==> ReferencedAtLaunch(session, db)
  {
    RestartGivesStore(refused, db);
    RowReferences(db, session);
  }

  lemma RowReferences(db: Db, session: string)
    requires WellNamed(db)
    ensures Referenced(session, LaunchedStore(db).tabs, LaunchedStore(db).spaces) <==> ReferencedByRows(session, db)
  {
    var tabs, spaces := LaunchedStore(db).tabs, LaunchedStore(db).spaces;
    if Referenced(session, tabs, spaces) {
      var t :| t in tabs && t.TerminalLike() && FindSpace(spaces, t.spaceId).Some?
               && session == BackendSessionName(t, FindSpace(spaces, t.spaceId).value.profileId);
      ReferenceHasRow(db, t, session);
    }
    if ReferencedByRows(session, db) {
      var r, sp :| r in db.tabs && sp in db.spaces && RefersTo(r, sp, session);
      RowGivesReference(db, r, sp, session);
    }
  }

  lemma LaunchedIdentity(db: Db)
    requires WellNamed(db)
    ensures StoredIdentity(StoreAtLaunch(db).tabs)
  {
    forall t | t in StoreAtLaunch(db).tabs && t.TerminalLike() ensures StoredWindow(t) && t.worktreeId != Some("") {
      LaunchedTabs(db, t);
      var r :| r in db.tabs && t == TabFromRow(r);
    }
  }

  /** The names the frontend hands over. */
  function KnownAtLaunch(db: Db): set<string> {
    set s | s in KnownSessionNames(StoreAtLaunch(db).tabs, StoreAtLaunch(db).spaces)
  }

  /** The live Sanctel sessions after the reap are those a row refers to; nothing else is touched. */
  ghost predicate KeepsReferenced(before: Server, after: Server, db: Db) {
    forall s :: (s in after <==> s in before && (IsSanctelSession(s) ==> ReferencedAtLaunch(s, db)))
             && (s in after ==> after[s] == before[s])
  }

  lemma ReapAfterLaunch(db: Db, server: Server)
    requires WellNamed(db)
    ensures KeepsReferenced(server, Reaped(server, KnownAtLaunch(db)), db)
  {
    LaunchedIdentity(db);
    var st := StoreAtLaunch(db);
    ReapKeepsReferencedSessions(server, st.tabs, st.spaces);
    forall s ensures Referenced(s, st.tabs, st.spaces) <==> ReferencedAtLaunch(s, db) {
      RestartGivesStore({}, db);
      LaunchedReferences({}, db, s);
    }
  }

  /** A launch without profile rows reaps every Sanctel session, whatever the tab rows say. */
  lemma FirstLaunchReapsAll(db: Db, server: Server)
    requires db.profiles == []
    ensures forall s :: s in Reaped(server, KnownAtLaunch(db)) <==> s in server && !IsSanctelSession(s)
  {
  }

  /** The reap of a launch: if no kill fails, exactly the sessions the rows refer to stay. */
  method ReapAtLaunch(tmux: TmuxCli, db: Db) returns (r: Result<ReapReport, TmuxError>)
    requires WellNamed(db)
    modifies tmux
    ensures r.Err? ==> tmux.server == old(tmux.server)
    ensures tmux.faults >= old(tmux.faults) && (tmux.faults == old(tmux.faults) ==> r.Ok? && r.value.failed == 0)
    ensures r.Ok? && r.value.failed == 0 ==> KeepsReferenced(old(tmux.server), tmux.server, db)
  {
    ghost var listing, killed;
    r, listing, killed := ReapOrphanSessions(tmux, KnownAtLaunch(db));
    ReapAfterLaunch(db, old(tmux.server));
  }

  ghost predicate ReferencedByOther(session: string, db: Db, r: TabRow) {
    exists other, sp :: other in db.tabs && other != r && sp in db.spaces && RefersTo(other, sp, session)
  }

  /** The row of a tab without a space refers to nothing. */
  lemma LostRowRefersToNothing(db: Db, session: string, r: TabRow)
    requires !KnownSpace(db, r.spaceId)
    ensures ReferencedByRows(session, db) <==> ReferencedByOther(session, db, r)
  {
    if ReferencedByRows(session, db) {
      var other, sp :| other in db.tabs && sp in db.spaces && RefersTo(other, sp, session);
      var j :| 0 <= j < |db.spaces| && db.spaces[j] == sp;
      assert other != r;
    }
  }

  lemma WorktreeSessionIsSanctels(r: TabRow, profileId: string)
    requires r.worktreeId.Some?
    ensures IsSanctelSession(RowSessionName(r, profileId))
  {
    assert RowSessionName(r, profileId) ==
           "sanctel_wt_" + (TmuxSafe(r.worktreeId.value) + SEPARATOR + GetOr(r.windowName, "term-1"));
  }

  /** A worktree tab whose space row is missing keeps its row but not its session, unless the launch
      reads the rows and a tab of a persisted space refers to the same one. */
  lemma LostSpaceLosesSession(db: Db, server: Server, r: TabRow, profileId: string)
    requires WellNamed(db) && r in db.tabs && TerminalRow(r) && r.worktreeId.Some?
    requires !KnownSpace(db, r.spaceId) && RowSessionName(r, profileId) in server
    ensures RowSessionName(r, profileId) in Reaped(server, KnownAtLaunch(db)) <==>
            db.profiles != [] && ReferencedByOther(RowSessionName(r, profileId), db, r)
  {
    ReapAfterLaunch(db, server);
    WorktreeSessionIsSanctels(r, profileId);
    LostRowRefersToNothing(db, RowSessionName(r, profileId), r);
  }
}
