/**
  The store's actions run one after the other: what each does to the store, to the persisted
  rows and to Rust's webviews (tabStore.ts), as functions and as the methods of the store.
*/
module TabActions {
  import opened Wrappers
  import opened StoreTypes
  import opened TabState
  import opened Persistence
  import opened Webviews
  import SessionReferences

  datatype World = World(store: Store, db: Db, host: Host)

  datatype Worktree = Worktree(id: string, branch: string)

  /** New ids and window names come from outside; a worktree is one that was looked up. */
  datatype Action =
    | AddProfile(id: string, name: string, badge: Option<string>)
    | AddSpace(id: string, name: string, profileId: Option<string>, color: string)
    | SwitchSpace(id: string)
    | NewTab(id: string, kind: TabKind, url: string)
    | NewTerminalTab(id: string, worktree: Option<Worktree>, windowName: string)
    | NewChatTab(id: string, checkout: Worktree, windowName: string)
    | CloseTab(id: string)
    | RenameTab(id: string, title: string)
    | ActivateTab(id: string)
    | ApplyCapture(id: string, sessionId: string)
    | ResizeContent(rect: Rect)

  predicate Openable(kind: TabKind) {
    kind.Browser? || TerminalKind(kind)
  }

  /** The tab a creating action builds, in the given space. */
  function BuiltTab(a: Action, spaceId: string): Tab
    requires a.NewTab? || a.NewTerminalTab? || a.NewChatTab?
  {
    match a
    case NewTab(id, kind, url) =>
      Tab(id, kind, if kind.Browser? then "New tab" else if kind.Terminal? then "Terminal" else "Chat",
          if url != "" then url else DefaultUrl(kind), spaceId, None, None, None, None, kind.Browser?, None)
    case NewTerminalTab(id, worktree, windowName) =>
      Tab(id, Terminal, if worktree.Some? then worktree.value.branch + " \U{B7} " + windowName else windowName,
          "local://terminal", spaceId, if worktree.Some? then Some(worktree.value.id) else None,
          Some(windowName), None, None, false, None)
    case NewChatTab(id, checkout, windowName) =>
      Tab(id, Chat, checkout.branch + " \U{B7} chat", "local://chat", spaceId,
          Some(checkout.id), Some(windowName), Some("claude"), None, false, None)
  }

  /** The rows once the tab's has been saved, numbered by its space's tab count. */
  function SavedTab(w: World, tab: Tab): Db {
    w.db.(tabs := SetTab(w.db.tabs, TabToRow(tab, CountIn(w.store.tabs, tab.spaceId))))
  }

  /** Shows the active tab, or hides everything. */
  function Refocus(store: Store, host: Host): Host {
    if ActiveTabId(store).Some? then ShowTab(host, ActiveTabId(store).value) else HideAll(host)
  }

  function Opened(w: World, tab: Tab): World {
    World(AddTab(w.store, tab), SavedTab(w, tab), Create(w.host, tab.id))
  }

  function NewSpace(w: World, id: string, name: string, profileId: Option<string>, color: string): Space {
    var active := ActiveSpace(w.store);
    var inherited :=
      if active.Some? && (exists p :: p in w.store.profiles && p.id == active.value.profileId)
          then active.value.profileId
      else DEFAULT_PROFILE.id;
    Space(id, name, color, GetOr(profileId, inherited), None)
  }

  predicate Creates(a: Action) {
    a.NewTab? || a.NewTerminalTab? || a.NewChatTab?
  }

  /** The action runs to its end: there is a space for a new tab, its kind can be opened or Rust
      has allocated a window for it, and ids made by `crypto.randomUUID` are new. */
  predicate Succeeds(w: World, a: Action) {
    if Creates(a) then
      && ActiveSpace(w.store).Some?
      && a.id != "" && a.id !in w.host.placed && !HasTabId(w.store.tabs, a.id) && !HasTab(w.db.tabs, a.id)
      && (if a.NewTab? then Openable(a.kind) else a.windowName != "")
    else if a.AddProfile? then
      && (forall p | p in w.store.profiles :: p.id != a.id)
      && (forall p | p in w.db.profiles :: p.id != a.id)
    else if a.AddSpace? then
      && (forall s | s in w.store.spaces :: s.id != a.id)
      && (forall s | s in w.db.spaces :: s.id != a.id)
      && (forall t | t in w.store.tabs :: t.spaceId != a.id)
    else true
  }

  function Act(w: World, a: Action): World
    requires Succeeds(w, a)
  {
    match a
    case AddProfile(id, name, badge) =>
      var p := Profile(id, name, badge, false);
      w.(store := w.store.(profiles := w.store.profiles + [p]), db := w.db.(profiles := SetProfile(w.db.profiles, p)))
    case AddSpace(id, name, profileId, color) =>
      var sp := NewSpace(w, id, name, profileId, color);
      w.(store := w.store.(spaces := w.store.spaces + [sp]),
         db := w.db.(spaces := SetSpace(w.db.spaces, SpaceToRow(sp, |w.store.spaces|))))
    case SwitchSpace(id) =>
      var store := w.store.(activeSpaceId := id);
      w.(store := store, host := Refocus(store, w.host))
    case NewTab(_, _, _) => Opened(w, BuiltTab(a, ActiveSpace(w.store).value.id))
    case NewTerminalTab(_, _, _) => Opened(w, BuiltTab(a, ActiveSpace(w.store).value.id))
    case NewChatTab(_, _, _) => Opened(w, BuiltTab(a, ActiveSpace(w.store).value.id))
    case CloseTab(id) =>
      var store := RemoveTab(w.store, id);
      World(store, w.db.(tabs := DeleteRow(w.db.tabs, id)), Refocus(store, Close(w.host, id)))
    case RenameTab(id, title) =>
      w.(store := Retitle(w.store, id, title), db := w.db.(tabs := RetitleRow(w.db.tabs, id, title)))
    case ActivateTab(id) => w.(store := Activate(w.store, id), host := ShowTab(w.host, id))
    case ApplyCapture(id, sessionId) =>
      w.(store := SetAgentSession(w.store, id, sessionId), db := w.db.(tabs := SetRowSession(w.db.tabs, id, sessionId)))
    case ResizeContent(rect) => w.(host := SetContentRect(w.host, rect))
  }

  // ---------- launch ----------

  /** `create_tab` goes through: the tab's kind can be opened, and its id is not among those refused
      for want of tmux, for an unparsable url or anything else. */
  predicate Accepted(refused: set<string>, kind: TabKind, id: string) {
    Openable(kind) && id !in refused
  }

  predicate Replays(refused: set<string>, spaces: seq<Space>, t: Tab) {
    FindSpace(spaces, t.spaceId).Some? && Accepted(refused, t.kind, t.id)
  }

  /** `create_tab` for each tab of a known space, in order. A refused one is passed over. */
  function Replayed(refused: set<string>, host: Host, spaces: seq<Space>, tabs: seq<Tab>): Host {
    if tabs == [] then host
    else
      var before := Replayed(refused, host, spaces, tabs[..|tabs| - 1]);
      if Replays(refused, spaces, tabs[|tabs| - 1]) then Create(before, tabs[|tabs| - 1].id) else before
  }

  /** A first launch saves the defaults; a later one rebuilds the store from the rows, replays
      every tab and shows the first space's first tab. */
  function Launched(refused: set<string>, w: World): World {
    if w.db.profiles == [] then
      w.(db := w.db.(profiles := SetProfile(w.db.profiles, DEFAULT_PROFILE),
                     spaces := SetSpace(w.db.spaces, SpaceToRow(DEFAULT_SPACE, 0))))
    else
      var rows := Loaded(w.db);
      var store := FromRows(rows.profiles, rows.spaces, rows.tabs);
      var host := Replayed(refused, w.host, store.spaces, store.tabs);
      w.(store := store, host := if ActiveTabId(store).Some? then ShowTab(host, ActiveTabId(store).value) else host)
  }

  /** A fresh process on persisted rows. */
  function Restarted(refused: set<string>, db: Db): World {
    Launched(refused, World(INITIAL, db, Host({}, map[], None, NO_RECT)))
  }

  // ---------- runs ----------

  predicate IsRun(start: World, actions: seq<Action>)
    decreases |actions|, 0
  {
    actions == [] ||
    (IsRun(start, actions[..|actions| - 1])
     && Succeeds(After(start, actions[..|actions| - 1]), actions[|actions| - 1]))
  }

  function After(start: World, actions: seq<Action>): World
    requires IsRun(start, actions)
    decreases |actions|, 1
  {
    if actions == [] then start
    else Act(After(start, actions[..|actions| - 1]), actions[|actions| - 1])
  }

  // ---------- the store ----------

  class TabStore {
    var state: Store
    const persistence: InMemoryPersistence
    const app: AppState

    function Now(): World
      reads this, persistence, app
    {
      World(state, persistence.Contents(), app.View())
    }

    constructor (persistence: InMemoryPersistence, app: AppState)
      ensures this.persistence == persistence && this.app == app && state == INITIAL
    {
      this.persistence, this.app := persistence, app;
      state := INITIAL;
    }

    method DoAddProfile(id: string, name: string, badge: Option<string>)
      modifies this, persistence
      ensures old(Succeeds(Now(), AddProfile(id, name, badge))) ==>
                Now() == old(Act(Now(), AddProfile(id, name, badge)))
    {
      var p := Profile(id, name, badge, false);
      state := state.(profiles := state.profiles + [p]);
      persistence.SaveProfile(p);
    }

    /** `findIndex` by id. */
    static method PlaceOf(spaces: seq<Space>, id: string) returns (place: nat)
      requires exists k :: 0 <= k < |spaces| && spaces[k].id == id
      ensures place < |spaces| && spaces[place].id == id
      ensures forall k | 0 <= k < place :: spaces[k].id != id
    {
      place := 0;
      while spaces[place].id != id
        invariant place < |spaces|
        invariant forall k | 0 <= k < place :: spaces[k].id != id
        decreases |spaces| - place
      {
        place := place + 1;
      }
    }

    /** The row's sort order is the place where the new space is found in the store. */
    method DoAddSpace(id: string, name: string, profileId: Option<string>, color: string)
      modifies this, persistence
      ensures old(Succeeds(Now(), AddSpace(id, name, profileId, color))) ==>
                Now() == old(Act(Now(), AddSpace(id, name, profileId, color)))
    {
      var sp := NewSpace(Now(), id, name, profileId, color);
      state := state.(spaces := state.spaces + [sp]);
      assert state.spaces[|state.spaces| - 1] == sp;
      var sortOrder := PlaceOf(state.spaces, id);
      persistence.SaveSpace(SpaceToRow(sp, sortOrder));
    }

    /** Shared tail of the creating actions once `create_tab` has answered. */
    method Finish(tab: Tab)
      modifies this, persistence
      ensures state == AddTab(old(state), tab)
      ensures persistence.tabs == SetTab(old(persistence.tabs), TabToRow(tab, CountIn(old(state).tabs, tab.spaceId)))
      ensures persistence.profiles == old(persistence.profiles) && persistence.spaces == old(persistence.spaces)
    {
      persistence.SaveTab(TabToRow(tab, CountIn(state.tabs, tab.spaceId)));
      state := AddTab(state, tab);
    }

    /** The row is saved first, so it stays when `create_tab` fails; `prepared` says whether what
        `create_tab` does before the webview, from the window's allocation to the url, went well. */
    method DoNewTab(id: string, kind: TabKind, url: string, tmuxAvailable: bool, prepared: bool) returns (ok: bool)
      modifies this, persistence, app
      ensures ok <==>
                ActiveSpace(old(state)).Some? && (!TerminalKind(kind) || tmuxAvailable) && Openable(kind)
                && prepared && id !in old(app.placed)
      ensures ok ==> Now() == old(Opened(Now(), BuiltTab(NewTab(id, kind, url), ActiveSpace(state).value.id)))
      ensures !ok ==> state == old(state) && app.View() == old(app.View())
      ensures !ok ==>
                persistence.Contents() ==
                if ActiveSpace(old(state)).Some? && (!TerminalKind(kind) || tmuxAvailable)
                then old(SavedTab(Now(), BuiltTab(NewTab(id, kind, url), ActiveSpace(state).value.id)))
                else old(persistence.Contents())
    {
      var space := ActiveSpace(state);
      if space.None? || (TerminalKind(kind) && !tmuxAvailable) {
        return false;
      }
      var tab := BuiltTab(NewTab(id, kind, url), space.value.id);
      persistence.SaveTab(TabToRow(tab, CountIn(state.tabs, tab.spaceId)));
      ok := app.CreateTab(id, Openable(kind) && prepared);
      if ok {
        state := AddTab(state, tab);
      }
    }

    /** Nothing is saved until Rust has allocated the window. `found` is the worktree looked up
        for `worktreeId`, `allocatedName` the name `create_tab` returned, none if it failed. */
    method DoNewTerminalTab(id: string, worktreeId: Option<string>, found: Option<Worktree>,
                            tmuxAvailable: bool, allocatedName: Option<string>)
      returns (ok: bool)
      modifies this, persistence, app
      ensures var worktree := if Truthy(worktreeId) then found else None;
              var asked := ActiveSpace(old(state)).Some? && tmuxAvailable && (Truthy(worktreeId) ==> found.Some?);
              && (ok <==> asked && id !in old(app.placed) && Truthy(allocatedName))
              && (ok ==> Now() == old(Opened(Now(), BuiltTab(NewTerminalTab(id, worktree, allocatedName.value),
                                                             ActiveSpace(state).value.id))))
              && (!ok ==> state == old(state) && persistence.Contents() == old(persistence.Contents())
                          && app.View() == if asked && allocatedName.Some? && id !in old(app.placed)
                                           then Create(old(app.View()), id) else old(app.View()))
    {
      var space := ActiveSpace(state);
      if space.None? || !tmuxAvailable {
        return false;
      }
      var worktree := if Truthy(worktreeId) then found else None;
      if Truthy(worktreeId) && worktree.None? {
        return false;
      }
      ok := app.CreateTab(id, allocatedName.Some?);
      if ok && Truthy(allocatedName) {
        Finish(BuiltTab(NewTerminalTab(id, worktree, allocatedName.value), space.value.id));
      } else {
        ok := false;
      }
    }

    method DoNewChatTab(id: string, found: Option<Worktree>, tmuxAvailable: bool, allocatedName: Option<string>)
      returns (ok: bool)
      modifies this, persistence, app
      ensures var asked := ActiveSpace(old(state)).Some? && tmuxAvailable && found.Some?;
              && (ok <==> asked && id !in old(app.placed) && Truthy(allocatedName))
              && (ok ==> Now() == old(Opened(Now(), BuiltTab(NewChatTab(id, found.value, allocatedName.value),
                                                             ActiveSpace(state).value.id))))
              && (!ok ==> state == old(state) && persistence.Contents() == old(persistence.Contents())
                          && app.View() == if asked && allocatedName.Some? && id !in old(app.placed)
                                           then Create(old(app.View()), id) else old(app.View()))
    {
      var space := ActiveSpace(state);
      if space.None? || !tmuxAvailable || found.None? {
        return false;
      }
      ok := app.CreateTab(id, allocatedName.Some?);
      if ok && Truthy(allocatedName) {
        Finish(BuiltTab(NewChatTab(id, found.value, allocatedName.value), space.value.id));
      } else {
        ok := false;
      }
    }

    method ShowActive()
      modifies app
      ensures app.View() == Refocus(state, old(app.View()))
    {
      var active := ActiveTabId(state);
      if active.Some? {
        var _ := app.ShowTabCommand(active.value);
      } else {
        app.HideAllCommand();
      }
    }

    method DoCloseTab(id: string)
      modifies this, persistence, app
      ensures Now() == old(Act(Now(), CloseTab(id)))
    {
      app.CloseTab(id);
      persistence.RemoveTab(id);
      state := RemoveTab(state, id);
      ShowActive();
    }

    method DoSwitchSpace(id: string)
      modifies this, app
      ensures Now() == old(Act(Now(), SwitchSpace(id)))
    {
      state := state.(activeSpaceId := id);
      ShowActive();
    }

    method DoRenameTab(id: string, title: string)
      modifies this, persistence
      ensures Now() == old(Act(Now(), RenameTab(id, title)))
    {
      state := Retitle(state, id, title);
      persistence.RenameTab(id, title);
    }

    method DoActivateTab(id: string)
      modifies this, app
      ensures Now() == old(Act(Now(), ActivateTab(id)))
    {
      state := Activate(state, id);
      var _ := app.ShowTabCommand(id);
    }

    /** Each capture, of a session name and an agent session, goes to the tab of that name, looked
        up once for all. */
    method ApplyAgentSessionCaptures(captures: seq<(string, string)>)
      modifies this, persistence
      ensures Now() == old(Captured(Now(), state.tabs, state.spaces, captures))
    {
      var tabs, spaces := state.tabs, state.spaces;
      for i := 0 to |captures|
        invariant Now() == old(Captured(Now(), state.tabs, state.spaces, captures[..i]))
      {
        assert captures[..i + 1][..i] == captures[..i];
        var found := TabNamed(tabs, spaces, captures[i].0);
        if found.Some? && found.value.agentSessionId != Some(captures[i].1) {
          persistence.UpdateTabAgentSession(found.value.id, captures[i].1);
          state := SetAgentSession(state, found.value.id, captures[i].1);
        }
      }
      assert captures[..|captures|] == captures;
    }

    /** The launch loop over the tabs. */
    method Replay(refused: set<string>, spaces: seq<Space>, tabs: seq<Tab>)
      requires forall k | 0 <= k < |tabs| :: tabs[k].id !in app.placed
      requires UniqueIds(tabs)
      modifies app
      ensures app.View() == Replayed(refused, old(app.View()), spaces, tabs)
    {
      for i := 0 to |tabs|
        invariant app.View() == Replayed(refused, old(app.View()), spaces, tabs[..i])
        invariant forall j | i <= j < |tabs| :: tabs[j].id !in app.placed
      {
        assert tabs[..i + 1][..i] == tabs[..i];
        if FindSpace(spaces, tabs[i].spaceId).Some? {
          var _ := app.CreateTab(tabs[i].id, Accepted(refused, tabs[i].kind, tabs[i].id));
        }
      }
      assert tabs[..|tabs|] == tabs;
    }

    /** The webviews of the persisted tabs are new; `create_tab` fails for the refused ids. */
    method Hydrate(refused: set<string>)
      requires forall k | 0 <= k < |persistence.tabs| :: persistence.tabs[k].id !in app.placed
      requires forall i, j | 0 <= i < j < |persistence.tabs| :: persistence.tabs[i].id != persistence.tabs[j].id
      modifies this, persistence, app
      ensures Now() == old(Launched(refused, Now()))
    {
      var rows := persistence.LoadAll();
      if rows.profiles == [] {
        persistence.SaveProfile(DEFAULT_PROFILE);
        persistence.SaveSpace(SpaceToRow(DEFAULT_SPACE, 0));
        return;
      }
      state := FromRows(rows.profiles, rows.spaces, rows.tabs);
      LoadedIdsAreNew(persistence.tabs, app.placed.Keys);
      Replay(refused, state.spaces, state.tabs);
      var active := ActiveTabId(state);
      if active.Some? {
        var _ := app.ShowTabCommand(active.value);
      }
    }
  }

  /** The tab of a session name: the last of them, as a `Map` built from the pairs keeps it. */
  function TabNamed(tabs: seq<Tab>, spaces: seq<Space>, name: string): (found: Option<Tab>)
    ensures found.Some? ==> found.value in tabs && found.value.TerminalLike()
    ensures found.Some? <==> name in SessionReferences.KnownSessionNames(tabs, spaces)
  {
    if tabs == [] then None
    else
      var rest := TabNamed(tabs[1..], spaces, name);
      if rest.Some? then rest
      else
        var space := FindSpace(spaces, tabs[0].spaceId);
        if tabs[0].TerminalLike() && space.Some?
           && SessionReferences.FrontendSessionName(tabs[0], space.value.profileId) == name
        then Some(tabs[0]) else None
  }

  /** The tab's session, under the profile of its space, has the name. */
  predicate HasSessionName(t: Tab, spaces: seq<Space>, name: string) {
    && t.TerminalLike() && FindSpace(spaces, t.spaceId).Some?
    && SessionReferences.FrontendSessionName(t, FindSpace(spaces, t.spaceId).value.profileId) == name
  }

  /** The place of the last tab of the name. */
  predicate LastNamed(tabs: seq<Tab>, spaces: seq<Space>, name: string, k: nat) {
    && k < |tabs| && HasSessionName(tabs[k], spaces, name)
    && forall j | k < j < |tabs| :: !HasSessionName(tabs[j], spaces, name)
  }

  /** The lookup finds the last tab of that very name, and nothing exactly when there is none. */
  lemma {:induction false} TabNamedIsLast(tabs: seq<Tab>, spaces: seq<Space>, name: string)
    ensures forall k: nat | LastNamed(tabs, spaces, name, k) :: TabNamed(tabs, spaces, name) == Some(tabs[k])
    ensures TabNamed(tabs, spaces, name).None? <==> forall t | t in tabs :: !HasSessionName(t, spaces, name)
  {
    if tabs != [] {
      TabNamedIsLast(tabs[1..], spaces, name);
      assert forall t :: t in tabs <==> t == tabs[0] || t in tabs[1..];
      forall k: nat | LastNamed(tabs, spaces, name, k) ensures TabNamed(tabs, spaces, name) == Some(tabs[k]) {
        if k > 0 {
          assert forall j | 0 <= j < |tabs| - 1 :: tabs[1..][j] == tabs[j + 1];
          assert LastNamed(tabs[1..], spaces, name, k - 1);
        } else {
          assert forall j | 0 < j < |tabs| :: !HasSessionName(tabs[j], spaces, name);
        }
      }
    }
  }

  function Captured(w: World, tabs: seq<Tab>, spaces: seq<Space>, captures: seq<(string, string)>): World {
    if captures == [] then w
    else
      var before, (name, sessionId) := Captured(w, tabs, spaces, captures[..|captures| - 1]), captures[|captures| - 1];
      var found := TabNamed(tabs, spaces, name);
      if found.None? || found.value.agentSessionId == Some(sessionId) then before
      else Act(before, ApplyCapture(found.value.id, sessionId))
  }
}
