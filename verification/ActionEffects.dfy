/**
  What each action of the store comes to, told by the tabs, spaces and rows before and after, and
  by what Rust shows (tabStore.ts and lib.rs).
*/
module ActionEffects {
  import opened Wrappers
  import opened TmuxNames
  import opened StoreTypes
  import opened TabState
  import opened Persistence
  import opened Webviews
  import opened TabActions
  import opened StoreSimulation
  import opened SessionReferences

  // ---------- creating tabs ----------

  /** `create_tab` opens browsers, terminals and chats, and no other kind. */
  lemma KindsThatOpen(w: World, id: string, kind: TabKind, url: string, refused: set<string>)
    ensures Succeeds(w, NewTab(id, kind, url)) <==>
            && kind in {Browser, Terminal, Chat} && ActiveSpace(w.store).Some?
            && id != "" && id !in w.host.placed
            && (forall t | t in w.store.tabs :: t.id != id) && (forall r | r in w.db.tabs :: r.id != id)
    ensures Accepted(refused, kind, id) <==> kind in {Browser, Terminal, Chat} && id !in refused
  {
    assert forall k | 0 <= k < |w.store.tabs| :: w.store.tabs[k] in w.store.tabs;
    assert forall k | 0 <= k < |w.db.tabs| :: w.db.tabs[k] in w.db.tabs;
  }

  /** One tab more at the end, with its row at the end of the rows, selected by its space and shown. */
  predicate Gains(w: World, w': World, t: Tab, row: TabRow) {
    && w'.store.tabs == w.store.tabs + [t] && w'.db.tabs == w.db.tabs + [row]
    && w'.store.profiles == w.store.profiles && w'.store.activeSpaceId == w.store.activeSpaceId
    && w'.db.profiles == w.db.profiles && w'.db.spaces == w.db.spaces
    && |w'.store.spaces| == |w.store.spaces|
    && (forall k | 0 <= k < |w.store.spaces| ::
          w'.store.spaces[k] ==
          if w.store.spaces[k].id == t.spaceId then w.store.spaces[k].(activeTabId := Some(t.id))
          else w.store.spaces[k])
    && w'.host.active == Some(t.id)
  }

  lemma OpenedGains(w: World, t: Tab)
    requires !HasTab(w.db.tabs, t.id)
    ensures Gains(w, Opened(w, t), t, TabToRow(t, CountIn(w.store.tabs, t.spaceId)))
  {
  }

  /** `newTab`: a tab of the kind with the kind's title and, without a url, the kind's start page. */
  lemma NewTabEffect(w: World, id: string, kind: TabKind, url: string)
    requires Succeeds(w, NewTab(id, kind, url))
    ensures var space := ActiveSpace(w.store).value.id;
            var title := if kind.Browser? then "New tab" else if kind.Terminal? then "Terminal" else "Chat";
            var page :=
              if url != "" then url
              else if kind.Browser? then "https://duckduckgo.com"
              else if kind.Terminal? then "local://terminal" else "local://chat";
            Gains(w, Act(w, NewTab(id, kind, url)),
                  Tab(id, kind, title, page, space, None, None, None, None, kind.Browser?, None),
                  TabRow(id, space, kind, title, CountIn(w.store.tabs, space), Some(page), None, None, None, None))
  {
    OpenedGains(w, BuiltTab(NewTab(id, kind, url), ActiveSpace(w.store).value.id));
  }

  /** `newTerminalTab`: the worktree's id and branch, if there is one, and the allocated window. */
  lemma NewTerminalTabEffect(w: World, id: string, worktree: Option<Worktree>, window: string)
    requires Succeeds(w, NewTerminalTab(id, worktree, window))
    ensures var space := ActiveSpace(w.store).value.id;
            var worktreeId := if worktree.Some? then Some(worktree.value.id) else None;
            var title := if worktree.Some? then worktree.value.branch + " \U{B7} " + window else window;
            Gains(w, Act(w, NewTerminalTab(id, worktree, window)),
                  Tab(id, Terminal, title, "local://terminal", space, worktreeId, Some(window), None, None, false,
                      None),
                  TabRow(id, space, Terminal, title, CountIn(w.store.tabs, space), Some("local://terminal"),
                         worktreeId, Some(window), None, None))
  {
    OpenedGains(w, BuiltTab(NewTerminalTab(id, worktree, window), ActiveSpace(w.store).value.id));
  }

  /** `newChatTab`: the same with Claude as the first command. */
  lemma NewChatTabEffect(w: World, id: string, checkout: Worktree, window: string)
    requires Succeeds(w, NewChatTab(id, checkout, window))
    ensures var space := ActiveSpace(w.store).value.id;
            var title := checkout.branch + " \U{B7} chat";
            Gains(w, Act(w, NewChatTab(id, checkout, window)),
                  Tab(id, Chat, title, "local://chat", space, Some(checkout.id), Some(window), Some("claude"), None,
                      false, None),
                  TabRow(id, space, Chat, title, CountIn(w.store.tabs, space), Some("local://chat"),
                         Some(checkout.id), Some(window), Some("claude"), None))
  {
    OpenedGains(w, BuiltTab(NewChatTab(id, checkout, window), ActiveSpace(w.store).value.id));
  }

  /** The session Rust has allocated for a new terminal or chat tab. */
  function AllocatedSession(w: World, a: Action): string
    requires Succeeds(w, a) && (a.NewTerminalTab? || a.NewChatTab?)
  {
    var worktreeId :=
      if a.NewChatTab? then Some(a.checkout.id)
      else if a.worktree.Some? then Some(a.worktree.value.id) else None;
    SessionName(worktreeId, ActiveSpace(w.store).value.profileId, a.windowName)
  }

  predicate NonemptyWorktree(a: Action) {
    && (a.NewTerminalTab? && a.worktree.Some? ==> a.worktree.value.id != "")
    && (a.NewChatTab? ==> a.checkout.id != "")
  }

  /** The frontend names the allocated session for the new tab at once. */
  lemma AllocatedSessionIsKnown(w: World, a: Action)
    requires Succeeds(w, a) && (a.NewTerminalTab? || a.NewChatTab?) && NonemptyWorktree(a)
    ensures AllocatedSession(w, a) in KnownSessionNames(Act(w, a).store.tabs, Act(w, a).store.spaces)
  {
    var space, w' := ActiveSpace(w.store).value, Act(w, a);
    if a.NewTerminalTab? {
      NewTerminalTabEffect(w, a.id, a.worktree, a.windowName);
    } else {
      NewChatTabEffect(w, a.id, a.checkout, a.windowName);
    }
    var t := w'.store.tabs[|w.store.tabs|];
    FindSelected(w.store.spaces, space.id, t.id, space.id);
    assert w'.store.spaces == SelectIn(w.store.spaces, space.id, t.id);
    KnownNamesCover(w'.store.tabs, w'.store.spaces, t);
    NamesAgree(t, space.profileId);
  }

  // ---------- profiles and spaces ----------

  lemma AddProfileEffect(w: World, id: string, name: string, badge: Option<string>)
    requires Succeeds(w, AddProfile(id, name, badge))
    ensures var p := Profile(id, name, badge, false);
            Act(w, AddProfile(id, name, badge)) ==
            w.(store := w.store.(profiles := w.store.profiles + [p]), db := w.db.(profiles := w.db.profiles + [p]))
  {
  }

  /** A new space has the profile asked for, or the active space's if that exists, or the default;
      it selects nothing and its row goes last. */
  lemma AddSpaceEffect(w: World, id: string, name: string, profileId: Option<string>, color: string)
    requires Succeeds(w, AddSpace(id, name, profileId, color))
    ensures var active := ActiveSpace(w.store);
            var profile :=
              if profileId.Some? then profileId.value
              else if active.Some? && exists p :: p in w.store.profiles && p.id == active.value.profileId
              then active.value.profileId
              else "profile-default";
            Act(w, AddSpace(id, name, profileId, color)) ==
            w.(store := w.store.(spaces := w.store.spaces + [Space(id, name, color, profile, None)]),
               db := w.db.(spaces := w.db.spaces + [SpaceRow(id, profile, name, color, |w.store.spaces|)]))
  {
  }

  // ---------- closing ----------

  /** Spaces with the same ids are found at the same place. */
  lemma {:induction false} FoundAtSamePlace(a: seq<Space>, b: seq<Space>, id: string) returns (k: nat)
    requires SameSpaces(a, b) && FindSpace(a, id).Some?
    ensures k < |a| && FindSpace(a, id) == Some(a[k]) && FindSpace(b, id) == Some(b[k])
  {
    assert a[0].id == b[0].id;
    if a[0].id == id {
      k := 0;
    } else {
      var j := FoundAtSamePlace(a[1..], b[1..], id);
      k := j + 1;
    }
  }

  /** The tab and its row are gone, and all others are there. */
  lemma CloseEffect(w: World, id: string, t: Tab, other: string)
    ensures var w' := Act(w, CloseTab(id));
            && (t in w'.store.tabs <==> t in w.store.tabs && t.id != id)
            && (HasTab(w'.db.tabs, other) <==> HasTab(w.db.tabs, other) && other != id)
            && id !in w'.host.tabs
  {
    WithoutTabKeepsOthers(w.store.tabs, id, t);
    DeleteRowIds(w.db.tabs, id, other);
    CommandsRecord(w.host, id, NO_RECT);
    var st, h := RemoveTab(w.store, id), Close(w.host, id);
    if ActiveTabId(st).Some? {
      CommandsRecord(h, ActiveTabId(st).value, NO_RECT);
    } else {
      CommandsRecord(h, id, NO_RECT);
    }
  }

  /** After closing the tab the active space selects, Rust shows that space's first remaining tab. */
  lemma CloseShowsFirstRemaining(w: World, id: string, i: nat)
    requires Aligned(w) && ActiveTabId(w.store) == Some(id)
    requires FirstRemaining(w.store.tabs, id, w.store.activeSpaceId, i)
    ensures Act(w, CloseTab(id)).host.active == Some(w.store.tabs[i].id)
  {
    var st := RemoveTab(w.store, id);
    CloseAligns(w, id);
    var k := FoundAtSamePlace(w.store.spaces, st.spaces, w.store.activeSpaceId);
    CloseFallsBack(w.store, id, k);
    assert w.store.tabs[i].id != "";
  }

  /** Or nothing, if there is none. */
  lemma CloseShowsNothing(w: World, id: string)
    requires Aligned(w) && ActiveTabId(w.store) == Some(id)
    requires forall t | t in w.store.tabs :: t.spaceId != w.store.activeSpaceId || t.id == id
    ensures Act(w, CloseTab(id)).host.active.None?
  {
    var st := RemoveTab(w.store, id);
    CloseAligns(w, id);
    var k := FoundAtSamePlace(w.store.spaces, st.spaces, w.store.activeSpaceId);
    CloseFallsBack(w.store, id, k);
  }

  /** Closing any other tab leaves what is shown. */
  lemma CloseKeepsShown(w: World, id: string)
    requires Aligned(w) && ActiveTabId(w.store) != Some(id)
    ensures Act(w, CloseTab(id)).host.active == w.host.active
  {
    var st := RemoveTab(w.store, id);
    CloseAligns(w, id);
    if ActiveSpace(w.store).Some? {
      var k := FoundAtSamePlace(w.store.spaces, st.spaces, w.store.activeSpaceId);
      CloseFallsBack(w.store, id, k);
      EmptyIsNotSelected(w, id, k);
    } else {
      SameSpacesFound(w.store.spaces, st.spaces, w.store.activeSpaceId);
    }
  }

  /** Tabs have nonempty ids, so no space selects the empty one. */
  lemma EmptyIsNotSelected(w: World, id: string, k: nat)
    requires Aligned(w) && k < |w.store.spaces|
    ensures w.store.spaces[k].activeTabId != Some("")
  {
    assert SelectionValid(w.store.tabs, w.store.spaces[k]);
  }

  // ---------- choosing ----------

  /** The given space becomes active, and Rust shows the tab it selects, or nothing. */
  lemma SwitchSpaceEffect(w: World, id: string)
    requires Aligned(w)
    ensures var w' := Act(w, SwitchSpace(id));
            && w'.store == w.store.(activeSpaceId := id) && w'.db == w.db
            && w'.host.active ==
               if FindSpace(w.store.spaces, id).Some? then FindSpace(w.store.spaces, id).value.activeTabId else None
  {
    RefocusAligns(w.store.(activeSpaceId := id), w.db, w.host);
    if FindSpace(w.store.spaces, id).Some? {
      var k := FoundAtSamePlace(w.store.spaces, w.store.spaces, id);
      EmptyIsNotSelected(w, id, k);
    }
  }

  /** The active space selects the tab, nothing else changes in the store, and Rust shows it. */
  lemma ActivateTabEffect(w: World, id: string)
    requires Aligned(w) && ActiveSpace(w.store).Some? && NamesTabOf(w.store.tabs, id, w.store.activeSpaceId)
    ensures var w' := Act(w, ActivateTab(id));
            && w'.host.active == Some(id) && w'.db == w.db
            && w'.store.tabs == w.store.tabs && w'.store.activeSpaceId == w.store.activeSpaceId
            && |w'.store.spaces| == |w.store.spaces|
            && forall k | 0 <= k < |w.store.spaces| ::
                 w'.store.spaces[k] ==
                 if w.store.spaces[k].id == w.store.activeSpaceId then w.store.spaces[k].(activeTabId := Some(id))
                 else w.store.spaces[k]
  {
    ActivateAligns(w, id);
    CommandsKeepFocus(w.host, id, NO_RECT);
  }

  /** The area changes, the active webview follows it, and everything else stays. */
  lemma ResizeEffect(w: World, rect: Rect)
    requires Aligned(w)
    ensures var w' := Act(w, ResizeContent(rect));
            && w'.store == w.store && w'.db == w.db && w'.host.active == w.host.active && w'.host.content == rect
            && (w.host.active.Some? ==> Focused(w'.host) && w'.host.placed[w.host.active.value] == OnContent(rect))
  {
    CommandsKeepFocus(w.host, "", rect);
  }

  // ---------- editing ----------

  /** Exactly the tabs and rows of the id get the title. */
  lemma RenameEffect(w: World, id: string, title: string)
    ensures var w' := Act(w, RenameTab(id, title));
            && w' == w.(store := w.store.(tabs := w'.store.tabs), db := w.db.(tabs := w'.db.tabs))
            && |w'.store.tabs| == |w.store.tabs| && |w'.db.tabs| == |w.db.tabs|
            && (forall k | 0 <= k < |w.store.tabs| ::
                  w'.store.tabs[k] ==
                  if w.store.tabs[k].id == id then w.store.tabs[k].(title := title) else w.store.tabs[k])
            && (forall k | 0 <= k < |w.db.tabs| ::
                  w'.db.tabs[k] == if w.db.tabs[k].id == id then w.db.tabs[k].(title := title) else w.db.tabs[k])
  {
  }

  lemma SetSessionAt(st: Store, k: nat, sessionId: string)
    requires UniqueIds(st.tabs) && k < |st.tabs|
    ensures SetAgentSession(st, st.tabs[k].id, sessionId) ==
            st.(tabs := st.tabs[k := st.tabs[k].(agentSessionId := Some(sessionId))])
  {
    var changed := st.tabs[k := st.tabs[k].(agentSessionId := Some(sessionId))];
    forall j | 0 <= j < |st.tabs| ensures SetAgentSession(st, st.tabs[k].id, sessionId).tabs[j] == changed[j] {
    }
    assert SetAgentSession(st, st.tabs[k].id, sessionId).tabs == changed;
  }

  /** A capture changes exactly the tab of its session name, the last of them, and that tab only in
      its agent session, which becomes the captured one. */
  lemma CaptureEffect(w: World, name: string, sessionId: string, k: nat)
    requires UniqueIds(w.store.tabs) && LastNamed(w.store.tabs, w.store.spaces, name, k)
    ensures var w' := Captured(w, w.store.tabs, w.store.spaces, [(name, sessionId)]);
            && w'.store == w.store.(tabs := w.store.tabs[k := w.store.tabs[k].(agentSessionId := Some(sessionId))])
            && w'.host == w.host
  {
    TabNamedIsLast(w.store.tabs, w.store.spaces, name);
    OneCapture(w, name, sessionId);
    SetSessionAt(w.store, k, sessionId);
    var t := w.store.tabs[k];
    if t.agentSessionId == Some(sessionId) {
      assert w.store.tabs[k := t] == w.store.tabs;
    }
  }

  lemma CapturedRows(w: World, name: string, sessionId: string, t: Tab)
    requires TabNamed(w.store.tabs, w.store.spaces, name) == Some(t) && t.agentSessionId != Some(sessionId)
    ensures Captured(w, w.store.tabs, w.store.spaces, [(name, sessionId)]).db.tabs ==
            SetRowSession(w.db.tabs, t.id, sessionId)
  {
    OneCapture(w, name, sessionId);
  }

  lemma OneCapture(w: World, name: string, sessionId: string)
    ensures Captured(w, w.store.tabs, w.store.spaces, [(name, sessionId)]) ==
            var found := TabNamed(w.store.tabs, w.store.spaces, name);
            if found.None? || found.value.agentSessionId == Some(sessionId) then w
            else Act(w, ApplyCapture(found.value.id, sessionId))
  {
    assert [(name, sessionId)][..0] == [];
    assert Captured(w, w.store.tabs, w.store.spaces, []) == w;
  }

  /** The rows of that tab change likewise, unless it had the session already. */
  lemma CaptureRowEffect(w: World, name: string, sessionId: string, k: nat, other: string)
    requires LastNamed(w.store.tabs, w.store.spaces, name, k) && w.store.tabs[k].agentSessionId != Some(sessionId)
    ensures var before := GetBy(w.db.tabs, other, TabRowId);
            GetBy(Captured(w, w.store.tabs, w.store.spaces, [(name, sessionId)]).db.tabs, other, TabRowId) ==
            if other == w.store.tabs[k].id && before.Some? then Some(before.value.(agentSessionId := Some(sessionId)))
            else before
  {
    TabNamedIsLast(w.store.tabs, w.store.spaces, name);
    CapturedRows(w, name, sessionId, w.store.tabs[k]);
    SetSessionThenGet(w.db.tabs, w.store.tabs[k].id, sessionId, other);
  }

  /** A capture of a name no tab has changes nothing. */
  lemma UnknownCaptureIsIgnored(w: World, name: string, sessionId: string)
    requires forall t | t in w.store.tabs :: !HasSessionName(t, w.store.spaces, name)
    ensures Captured(w, w.store.tabs, w.store.spaces, [(name, sessionId)]) == w
  {
    TabNamedIsLast(w.store.tabs, w.store.spaces, name);
    OneCapture(w, name, sessionId);
  }

  // ---------- many captures ----------

  lemma {:induction false} LastPlace(tabs: seq<Tab>, spaces: seq<Space>, name: string) returns (k: nat)
    requires TabNamed(tabs, spaces, name).Some?
    ensures LastNamed(tabs, spaces, name, k) && TabNamed(tabs, spaces, name) == Some(tabs[k])
  {
    TabNamedIsLast(tabs[1..], spaces, name);
    if TabNamed(tabs[1..], spaces, name).Some? {
      var j := LastPlace(tabs[1..], spaces, name);
      k := j + 1;
      assert forall i | k < i < |tabs| :: tabs[i] == tabs[1..][i - 1];
    } else {
      k := 0;
      assert forall i | 0 < i < |tabs| :: tabs[i] in tabs[1..];
    }
  }

  /** The last session captured under the name that differs from the one the tab had. */
  function LastNew(captures: seq<(string, string)>, name: string, had: Option<string>): Option<string> {
    if captures == [] then None
    else
      var (named, sessionId) := captures[|captures| - 1];
      if named == name && had != Some(sessionId) then Some(sessionId)
      else LastNew(captures[..|captures| - 1], name, had)
  }

  /** Captures change no space and no tab's id, and a capture reaches a tab only through the lookup. */
  lemma CaptureReaches(w: World, tabs: seq<Tab>, captures: seq<(string, string)>, k: nat)
    requires captures != [] && UniqueIds(tabs) && k < |tabs|
    requires var before := Captured(w, tabs, w.store.spaces, captures[..|captures| - 1]);
             |before.store.tabs| == |tabs| && before.store.tabs[k].id == tabs[k].id
    ensures var before := Captured(w, tabs, w.store.spaces, captures[..|captures| - 1]);
            var after := Captured(w, tabs, w.store.spaces, captures);
            var (name, sessionId) := captures[|captures| - 1];
            && |after.store.tabs| == |tabs|
            && after.store.tabs[k] ==
               if LastNamed(tabs, w.store.spaces, name, k) && tabs[k].agentSessionId != Some(sessionId)
               then before.store.tabs[k].(agentSessionId := Some(sessionId)) else before.store.tabs[k]
  {
    var name := captures[|captures| - 1].0;
    TabNamedIsLast(tabs, w.store.spaces, name);
    if TabNamed(tabs, w.store.spaces, name).Some? {
      var j := LastPlace(tabs, w.store.spaces, name);
      assert tabs[j].id == tabs[k].id ==> j == k;
    }
  }

  /** Whatever is captured, a tab ends with the last session captured under its name that differs
      from the one it had at the lookup, and keeps its own if there is none. */
  lemma {:induction false} CapturesSettle(w: World, captures: seq<(string, string)>, name: string, k: nat)
    requires UniqueIds(w.store.tabs) && LastNamed(w.store.tabs, w.store.spaces, name, k)
    ensures var tabs, w' := w.store.tabs, Captured(w, w.store.tabs, w.store.spaces, captures);
            var had := tabs[k].agentSessionId;
            var latest := LastNew(captures, name, had);
            && |w'.store.tabs| == |tabs|
            && w'.store.tabs[k] == tabs[k].(agentSessionId := if latest.Some? then latest else had)
  {
    if captures != [] {
      CapturesSettle(w, captures[..|captures| - 1], name, k);
      CaptureReaches(w, w.store.tabs, captures, k);
    }
  }

  /** A tab that no name is looked up to stays as it is. */
  lemma {:induction false} OthersKeepTheirSession(w: World, captures: seq<(string, string)>, k: nat)
    requires UniqueIds(w.store.tabs) && k < |w.store.tabs|
    requires forall name: string :: !LastNamed(w.store.tabs, w.store.spaces, name, k)
    ensures var w' := Captured(w, w.store.tabs, w.store.spaces, captures);
            |w'.store.tabs| == |w.store.tabs| && w'.store.tabs[k] == w.store.tabs[k]
  {
    if captures != [] {
      OthersKeepTheirSession(w, captures[..|captures| - 1], k);
      CaptureReaches(w, w.store.tabs, captures, k);
    }
  }

  /** A tab ends with the last session captured under its name, unless that is the one it had and
      another was captured before: the comparison is with the tab as it was looked up. */
  lemma LastCaptureWinsIff(w: World, earlier: seq<(string, string)>, name: string, sessionId: string, k: nat)
    requires UniqueIds(w.store.tabs) && LastNamed(w.store.tabs, w.store.spaces, name, k)
    ensures var had := w.store.tabs[k].agentSessionId;
            var w' := Captured(w, w.store.tabs, w.store.spaces, earlier + [(name, sessionId)]);
            && |w'.store.tabs| == |w.store.tabs|
            && (w'.store.tabs[k].agentSessionId == Some(sessionId) <==>
                had != Some(sessionId) || forall c | c in earlier && c.0 == name :: c.1 == sessionId)
  {
    var captures := earlier + [(name, sessionId)];
    CapturesSettle(w, captures, name, k);
    assert captures[..|captures| - 1] == earlier;
    LastNewIsNoneIff(earlier, name, sessionId);
  }

  lemma {:induction false} LastNewIsNoneIff(captures: seq<(string, string)>, name: string, sessionId: string)
    ensures var latest := LastNew(captures, name, Some(sessionId));
            && latest != Some(sessionId)
            && (latest.None? <==> forall c | c in captures && c.0 == name :: c.1 == sessionId)
  {
    if captures != [] {
      LastNewIsNoneIff(captures[..|captures| - 1], name, sessionId);
      assert captures == captures[..|captures| - 1] + [captures[|captures| - 1]];
    }
  }

  // ---------- launching ----------

  predicate IsFirstRow(rows: seq<TabRow>, spaceId: string, i: nat) {
    i < |rows| && rows[i].spaceId == spaceId && forall j | 0 <= j < i :: rows[j].spaceId != spaceId
  }

  /** After a launch every space, not only the active one, selects its first tab by sort order. */
  lemma LaunchSelectsFirst(refused: set<string>, db: Db, k: nat)
    requires db.profiles != [] && k < |SortSpaces(db.spaces)|
    ensures var st, sp, rows := Restarted(refused, db).store, SortSpaces(db.spaces)[k], StableSort(db.tabs);
            && |st.spaces| == |SortSpaces(db.spaces)|
            && st.spaces[k] == Space(sp.id, sp.name, sp.color, sp.profileId, st.spaces[k].activeTabId)
            && (forall i: nat | IsFirstRow(rows, sp.id, i) :: st.spaces[k].activeTabId == Some(rows[i].id))
            && ((forall r | r in rows :: r.spaceId != sp.id) ==> st.spaces[k].activeTabId.None?)
  {
    var st, sp, rows := Restarted(refused, db).store, SortSpaces(db.spaces)[k], StableSort(db.tabs);
    assert |st.tabs| == |rows| && forall i | 0 <= i < |rows| :: st.tabs[i] == TabFromRow(rows[i]);
    FirstOfIsFirst(st.tabs, sp.id);
    forall i: nat | IsFirstRow(rows, sp.id, i) ensures st.spaces[k].activeTabId == Some(rows[i].id) {
      assert IsFirstOf(st.tabs, sp.id, i);
    }
    assert (forall r | r in rows :: r.spaceId != sp.id) ==> forall t | t in st.tabs :: t.spaceId != sp.id;
  }

  /** The first space by sort order is active, or the default one if there is none. */
  lemma LaunchActivatesFirst(refused: set<string>, db: Db)
    requires db.profiles != []
    ensures Restarted(refused, db).store.activeSpaceId ==
            if db.spaces == [] then "space-default" else SortSpaces(db.spaces)[0].id
  {
    SortSpacesSorts(db.spaces);
    assert |SortSpaces(db.spaces)| == |multiset(SortSpaces(db.spaces))| == |db.spaces|;
  }

  /** Each tab comes back from its row; without a url it gets its kind's start page, and only browser
      tabs start out loading. */
  lemma LaunchRestoresTab(refused: set<string>, db: Db, k: nat)
    requires db.profiles != [] && k < |StableSort(db.tabs)|
    ensures var st, r := Restarted(refused, db).store, StableSort(db.tabs)[k];
            var page :=
              match r.kind
              case Browser => "https://duckduckgo.com"
              case Terminal => "local://terminal"
              case Chat => "local://chat"
              case File => "local://file"
              case Diff => "local://diff";
            && |st.tabs| == |StableSort(db.tabs)|
            && st.tabs[k] == Tab(r.id, r.kind, r.title, if r.url.Some? then r.url.value else page, r.spaceId,
                                 r.worktreeId, r.windowName, r.initialCommand, r.agentSessionId, r.kind == Browser,
                                 None)
  {
  }
}
