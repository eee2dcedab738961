/**
  The session names the frontend computes for the reaper (tabStore.ts) against the names Rust
  gives to the same tabs (lib.rs), and what a reap leaves alive.
*/
module SessionReferences {
  import opened Wrappers
  import opened TmuxNames
  import opened TmuxServer
  import opened Reaper
  import opened StoreTypes

  /** tabStore.ts chooses the prefix by truthiness but the id by `??`. */
  function FrontendSessionName(t: Tab, profileId: string): string {
    (if Truthy(t.worktreeId) then "sanctel_wt" else "sanctel_detached")
    + "_" + TmuxSafe(GetOr(t.worktreeId, profileId)) + "__" + GetOr(t.windowName, "term-1")
  }

  /** The session a tab with a stored window name attaches to. */
  function BackendSessionName(t: Tab, profileId: string): string {
    SessionName(t.worktreeId, profileId, GetOr(t.windowName, "term-1"))
  }

  /** The two computations agree exactly on the tabs whose worktree id is null or nonempty. */
  lemma NamesAgree(t: Tab, profileId: string)
    ensures FrontendSessionName(t, profileId) == BackendSessionName(t, profileId) <==> t.worktreeId != Some("")
  {
    var safe, window := TmuxSafe(GetOr(t.worktreeId, profileId)), GetOr(t.windowName, "term-1");
    assert "sanctel_wt" + "_" == "sanctel_wt_" && "sanctel_detached" + "_" == "sanctel_detached_";
    if t.worktreeId == Some("") {
      assert FrontendSessionName(t, profileId)[8] == 'd';
      assert BackendSessionName(t, profileId)[8] == 'w';
    }
  }

  /** `knownTmuxSessionNames`: tabs whose space is gone contribute nothing. */
  function KnownSessionNames(tabs: seq<Tab>, spaces: seq<Space>): seq<string> {
    if tabs == [] then []
    else
      var space := FindSpace(spaces, tabs[0].spaceId);
      (if tabs[0].TerminalLike() && space.Some? then [FrontendSessionName(tabs[0], space.value.profileId)] else [])
      + KnownSessionNames(tabs[1..], spaces)
  }

  /** Some persisted terminal or chat tab refers to the session, by Rust's own naming. */
  ghost predicate Referenced(session: string, tabs: seq<Tab>, spaces: seq<Space>) {
    exists t :: t in tabs && t.TerminalLike() && FindSpace(spaces, t.spaceId).Some?
                && session == BackendSessionName(t, FindSpace(spaces, t.spaceId).value.profileId)
  }

  /** The window name is stored and is not the one that makes Rust allocate another. */
  predicate StoredWindow(t: Tab) {
    t.windowName.Some? && t.windowName != Some("auto")
  }

  predicate StoredIdentity(tabs: seq<Tab>) {
    forall t | t in tabs && t.TerminalLike() :: StoredWindow(t) && t.worktreeId != Some("")
  }

  lemma {:induction false} KnownNamesAreReferences(tabs: seq<Tab>, spaces: seq<Space>, session: string)
    requires StoredIdentity(tabs)
    ensures session in KnownSessionNames(tabs, spaces) <==> Referenced(session, tabs, spaces)
  {
    if tabs != [] {
      var t, rest := tabs[0], tabs[1..];
      assert forall u :: u in tabs <==> u == t || u in rest;
      KnownNamesAreReferences(rest, spaces, session);
      if FindSpace(spaces, t.spaceId).Some? {
        NamesAgree(t, FindSpace(spaces, t.spaceId).value.profileId);
      }
    }
  }

  /** After a reap whose kills all succeed, the live Sanctel sessions are exactly those live
      before that a persisted tab refers to, with their windows, and every other session of the
      server is untouched. */
  lemma ReapKeepsReferencedSessions(server: Server, tabs: seq<Tab>, spaces: seq<Space>)
    requires StoredIdentity(tabs)
    ensures var after := Reaped(server, set s | s in KnownSessionNames(tabs, spaces));
            forall s :: (s in after <==> s in server && (IsSanctelSession(s) ==> Referenced(s, tabs, spaces)))
                     && (s in after ==> after[s] == server[s])
  {
    var known := set s | s in KnownSessionNames(tabs, spaces);
    forall s ensures s in known <==> Referenced(s, tabs, spaces) {
      KnownNamesAreReferences(tabs, spaces, s);
    }
  }

  // ---------- the tabs that can attach ----------

  /** The path a request carries: looked up only for a worktree id that is true. */
  function RequestPath(t: Tab, paths: map<string, string>): Option<string> {
    if Truthy(t.worktreeId) && t.worktreeId.value in paths then Some(paths[t.worktreeId.value]) else None
  }

  /** `resolve_worktree_cwd`: a worktree needs its path, a detached tab the home directory. */
  function ResolveCwd(worktreeId: Option<string>, path: Option<string>, home: Option<string>): Option<string> {
    if worktreeId.Some? then path else home
  }

  /** The session a tab with a stored window attaches to, if it can attach at all. */
  function AttachedSession(t: Tab, profileId: string, paths: map<string, string>, home: Option<string>)
    : Option<string>
  {
    if ResolveCwd(t.worktreeId, RequestPath(t, paths), home).Some? then Some(BackendSessionName(t, profileId)) else None
  }

  /** For every tab that can attach, the frontend computes the name of the very session; the tabs on
      which the computations differ cannot attach. */
  lemma AttachedNamesAgree(t: Tab, profileId: string, paths: map<string, string>, home: Option<string>)
    ensures AttachedSession(t, profileId, paths, home).Some? ==>
              AttachedSession(t, profileId, paths, home).value == FrontendSessionName(t, profileId)
    ensures FrontendSessionName(t, profileId) != BackendSessionName(t, profileId) ==>
              AttachedSession(t, profileId, paths, home).None?
  {
    NamesAgree(t, profileId);
  }

  lemma {:induction false} KnownNamesCover(tabs: seq<Tab>, spaces: seq<Space>, t: Tab)
    requires t in tabs && t.TerminalLike() && FindSpace(spaces, t.spaceId).Some?
    ensures FrontendSessionName(t, FindSpace(spaces, t.spaceId).value.profileId) in KnownSessionNames(tabs, spaces)
  {
    if t != tabs[0] {
      assert t in tabs[1..];
      KnownNamesCover(tabs[1..], spaces, t);
    }
  }

  /** Whatever the other tabs look like, a session that a persisted tab of a known space can attach
      to outlives the reap. */
  lemma AttachedSessionSurvives(server: Server, tabs: seq<Tab>, spaces: seq<Space>, t: Tab,
                                paths: map<string, string>, home: Option<string>)
    requires t in tabs && t.TerminalLike() && FindSpace(spaces, t.spaceId).Some?
    requires AttachedSession(t, FindSpace(spaces, t.spaceId).value.profileId, paths, home).Some?
    requires AttachedSession(t, FindSpace(spaces, t.spaceId).value.profileId, paths, home).value in server
    ensures AttachedSession(t, FindSpace(spaces, t.spaceId).value.profileId, paths, home).value
            in Reaped(server, set s | s in KnownSessionNames(tabs, spaces))
  {
    AttachedNamesAgree(t, FindSpace(spaces, t.spaceId).value.profileId, paths, home);
    KnownNamesCover(tabs, spaces, t);
  }
}
