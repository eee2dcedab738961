/**
  From the allocation of a session to the reap of the next launch: every session a tab of the store
  refers to is known to the reaper that follows a restart (tabStore.ts and lib.rs).
*/
module SessionLifetime {
  import opened Wrappers
  import opened TmuxServer
  import opened Reaper
  import opened StoreTypes
  import opened TabState
  import opened Persistence
  import opened TabActions
  import opened StoreSimulation
  import opened SessionReferences
  import opened HydrateReap
  import H = HydrateRoundTrip
  import opened ActionEffects

  predicate DistinctSpaces(spaces: seq<SpaceRow>) {
    forall i, j | 0 <= i < j < |spaces| :: spaces[i].id != spaces[j].id
  }

  lemma {:induction false} RunsKeepSpacesDistinct(actions: seq<Action>)
    requires IsRun(H.FirstLaunch(), actions)
    ensures DistinctSpaces(After(H.FirstLaunch(), actions).db.spaces)
  {
    if actions != [] {
      var front, a := actions[..|actions| - 1], actions[|actions| - 1];
      RunsKeepSpacesDistinct(front);
      ActKeepsSpacesDistinct(After(H.FirstLaunch(), front), a);
    }
  }

  lemma ActKeepsSpacesDistinct(w: World, a: Action)
    requires Succeeds(w, a) && DistinctSpaces(w.db.spaces)
    ensures DistinctSpaces(Act(w, a).db.spaces)
  {
    if a.AddSpace? {
      AddSpaceEffect(w, a.id, a.name, a.profileId, a.color);
      forall i | 0 <= i < |w.db.spaces| ensures w.db.spaces[i].id != a.id {
        assert w.db.spaces[i] in w.db.spaces;
      }
    }
  }

  /** A tab of a mirrored store and its space have their rows. */
  lemma TabHasRows(w: World, t: Tab) returns (r: TabRow, sp: SpaceRow)
    requires H.Mirrored(w) && t in w.store.tabs && FindSpace(w.store.spaces, t.spaceId).Some?
    ensures r in w.db.tabs && RowOf(r, t)
    ensures sp in w.db.spaces && sp.id == t.spaceId
    ensures sp.profileId == FindSpace(w.store.spaces, t.spaceId).value.profileId
  {
    var k :| 0 <= k < |w.store.tabs| && w.store.tabs[k] == t;
    assert RowOf(w.db.tabs[k], w.store.tabs[k]);
    r := w.db.tabs[k];
    var j :| 0 <= j < |w.store.spaces| && w.store.spaces[j] == FindSpace(w.store.spaces, t.spaceId).value;
    sp := w.db.spaces[j];
  }

  /** After any run, a terminal or chat tab of the store is among the sessions the next launch hands
      to the reaper, under the name Rust attaches it to. */
  lemma StoreSessionsOutliveRestart(actions: seq<Action>, t: Tab, server: Server)
    requires IsRun(H.FirstLaunch(), actions)
    requires t in After(H.FirstLaunch(), actions).store.tabs && t.TerminalLike() && t.worktreeId != Some("")
    requires FindSpace(After(H.FirstLaunch(), actions).store.spaces, t.spaceId).Some?
    ensures var w := After(H.FirstLaunch(), actions);
            var session := BackendSessionName(t, FindSpace(w.store.spaces, t.spaceId).value.profileId);
            && session in KnownAtLaunch(w.db)
            && (session in server ==> session in Reaped(server, KnownAtLaunch(w.db)))
  {
    var w := After(H.FirstLaunch(), actions);
    H.RunsStayMirrored(actions);
    RunsKeepSpacesDistinct(actions);
    var r, sp := TabHasRows(w, t);
    RowIsKnownAtLaunch(w.db, r, sp);
  }

  lemma RowIsKnownAtLaunch(db: Db, r: TabRow, sp: SpaceRow)
    requires db.profiles != [] && DistinctSpaces(db.spaces)
    requires r in db.tabs && sp in db.spaces && r.spaceId == sp.id && TerminalRow(r) && r.worktreeId != Some("")
    ensures RowSessionName(r, sp.profileId) in KnownAtLaunch(db)
  {
    var t := TabFromRow(r);
    LaunchedTabs(db, t);
    LaunchedSpace(db, sp);
    KnownNamesCover(LaunchedStore(db).tabs, LaunchedStore(db).spaces, t);
    NamesAgree(t, sp.profileId);
  }

  /** So the session Rust allocates for a new tab outlives the reap of a restart right after. */
  lemma AllocatedSessionOutlivesRestart(actions: seq<Action>, a: Action, server: Server)
    requires IsRun(H.FirstLaunch(), actions) && Succeeds(After(H.FirstLaunch(), actions), a)
    requires (a.NewTerminalTab? || a.NewChatTab?) && NonemptyWorktree(a)
    ensures var w := After(H.FirstLaunch(), actions);
            var session := AllocatedSession(w, a);
            session in server ==> session in Reaped(server, KnownAtLaunch(Act(w, a).db))
  {
    var w := After(H.FirstLaunch(), actions);
    var w', space := Act(w, a), ActiveSpace(w.store).value;
    H.RunsStayMirrored(actions);
    H.ActKeepsMirrored(w, a);
    RunsKeepSpacesDistinct(actions);
    ActKeepsSpacesDistinct(w, a);
    if a.NewTerminalTab? {
      NewTerminalTabEffect(w, a.id, a.worktree, a.windowName);
    } else {
      NewChatTabEffect(w, a.id, a.checkout, a.windowName);
    }
    var t := w'.store.tabs[|w.store.tabs|];
    FindSelected(w.store.spaces, space.id, t.id, space.id);
    assert w'.store.spaces == SelectIn(w.store.spaces, space.id, t.id);
    var r, sp := TabHasRows(w', t);
    RowIsKnownAtLaunch(w'.db, r, sp);
  }
}
