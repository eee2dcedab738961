/**
  The store and Rust agree on what is visible: over every sequential run of successful actions,
  Rust's active tab is the store's, and its webview is the only one on screen.
*/
module StoreSimulation {
  import opened Wrappers
  import opened StoreTypes
  import opened TabState
  import opened Persistence
  import opened Webviews
  import opened TabActions

  /** Every tab of a known space has a recorded webview. */
  predicate Recorded(st: Store, h: Host) {
    forall k | 0 <= k < |st.tabs| ::
      st.tabs[k].id != "" && (FindSpace(st.spaces, st.tabs[k].spaceId).Some? ==> st.tabs[k].id in h.tabs)
  }

  /** Rust shows what the store shows. */
  predicate Shown(w: World) {
    Sound(w.store) && Focused(w.host) && w.host.active == ActiveTabId(w.store)
  }

  /** And can show every tab of a known space. */
  predicate Aligned(w: World) {
    Shown(w) && Recorded(w.store, w.host)
  }

  // ---------- looking spaces up ----------

  lemma {:induction false} FindSelected(spaces: seq<Space>, spaceId: string, id: string, wanted: string)
    ensures FindSpace(SelectIn(spaces, spaceId, id), wanted) ==
            var found := FindSpace(spaces, wanted);
            if found.Some? && wanted == spaceId then Some(found.value.(activeTabId := Some(id))) else found
  {
    if spaces != [] {
      FindSelected(spaces[1..], spaceId, id, wanted);
      var selected := SelectIn(spaces, spaceId, id);
      assert forall k | 0 <= k < |spaces| - 1 :: selected[1..][k] == selected[k + 1] && spaces[1..][k] == spaces[k + 1];
      assert selected[1..] == SelectIn(spaces[1..], spaceId, id);
    }
  }

  /** Spaces keep their ids and order, whatever they select. */
  predicate SameSpaces(a: seq<Space>, b: seq<Space>) {
    |a| == |b| && forall k | 0 <= k < |a| :: a[k].id == b[k].id
  }

  lemma {:induction false} SameSpacesFound(a: seq<Space>, b: seq<Space>, id: string)
    requires SameSpaces(a, b)
    ensures FindSpace(a, id).Some? <==> FindSpace(b, id).Some?
  {
    if a != [] {
      assert a[0].id == b[0].id;
      SameSpacesFound(a[1..], b[1..], id);
    }
  }

  lemma {:induction false} FindAppended(spaces: seq<Space>, sp: Space, id: string)
    ensures FindSpace(spaces + [sp], id) ==
            if FindSpace(spaces, id).Some? then FindSpace(spaces, id) else if sp.id == id then Some(sp) else None
  {
    if spaces == [] {
      assert spaces + [sp] == [sp];
    } else {
      FindAppended(spaces[1..], sp, id);
      assert (spaces + [sp])[1..] == spaces[1..] + [sp];
    }
  }

  // ---------- one action ----------

  /** Showing the active tab, or hiding everything, aligns any sound store with its webviews. */
  lemma RefocusAligns(st: Store, db: Db, h: Host)
    requires Sound(st) && Focused(h) && Recorded(st, h)
    ensures Aligned(World(st, db, Refocus(st, h)))
  {
    var active := ActiveTabId(st);
    if active.Some? {
      var space := ActiveSpace(st).value;
      var k :| 0 <= k < |st.spaces| && st.spaces[k] == space;
      assert SelectionValid(st.tabs, st.spaces[k]);
      assert active.value in h.tabs;
    }
    CommandsKeepFocus(h, if active.Some? then active.value else "", NO_RECT);
  }

  lemma OpenedAligns(w: World, tab: Tab)
    requires Aligned(w) && ActiveSpace(w.store).Some? && tab.spaceId == ActiveSpace(w.store).value.id
    requires tab.id != "" && tab.id !in w.host.placed && !HasTabId(w.store.tabs, tab.id)
    ensures Aligned(Opened(w, tab))
  {
    var w' := Opened(w, tab);
    AddTabKeepsSound(w.store, tab);
    CommandsKeepFocus(w.host, tab.id, NO_RECT);
    FindSelected(w.store.spaces, tab.spaceId, tab.id, w.store.activeSpaceId);
    forall k | 0 <= k < |w'.store.tabs|
      ensures w'.store.tabs[k].id != ""
      ensures FindSpace(w'.store.spaces, w'.store.tabs[k].spaceId).Some? ==> w'.store.tabs[k].id in w'.host.tabs
    {
      SameSpacesFound(w.store.spaces, w'.store.spaces, w'.store.tabs[k].spaceId);
    }
  }

  lemma CloseRecords(st: Store, h: Host, id: string)
    requires Recorded(st, h)
    ensures Recorded(RemoveTab(st, id), Close(h, id))
  {
    var st', h' := RemoveTab(st, id), Close(h, id);
    forall k | 0 <= k < |st'.tabs|
      ensures st'.tabs[k].id != ""
      ensures FindSpace(st'.spaces, st'.tabs[k].spaceId).Some? ==> st'.tabs[k].id in h'.tabs
    {
      WithoutTabKeepsOthers(st.tabs, id, st'.tabs[k]);
      var j :| 0 <= j < |st.tabs| && st.tabs[j] == st'.tabs[k];
      SameSpacesFound(st.spaces, st'.spaces, st'.tabs[k].spaceId);
    }
  }

  lemma CloseAligns(w: World, id: string)
    requires Aligned(w)
    ensures Aligned(Act(w, CloseTab(id)))
  {
    var st', h' := RemoveTab(w.store, id), Close(w.host, id);
    RemoveTabKeepsSound(w.store, id);
    CommandsKeepFocus(w.host, id, NO_RECT);
    CloseRecords(w.store, w.host, id);
    RefocusAligns(st', w.db.(tabs := DeleteRow(w.db.tabs, id)), h');
  }

  lemma ActivateAligns(w: World, id: string)
    requires Aligned(w) && ActiveSpace(w.store).Some? && NamesTabOf(w.store.tabs, id, w.store.activeSpaceId)
    ensures Aligned(Act(w, ActivateTab(id)))
  {
    var w' := Act(w, ActivateTab(id));
    ActivateKeepsSound(w.store, id);
    CommandsKeepFocus(w.host, id, NO_RECT);
    FindSelected(w.store.spaces, w.store.activeSpaceId, id, w.store.activeSpaceId);
    forall k | 0 <= k < |w.store.tabs|
      ensures w.store.tabs[k].id != ""
      ensures FindSpace(w'.store.spaces, w.store.tabs[k].spaceId).Some? ==> w.store.tabs[k].id in w'.host.tabs
    {
      SameSpacesFound(w.store.spaces, w'.store.spaces, w.store.tabs[k].spaceId);
    }
  }

  lemma EditAligns(w: World, w': World)
    requires Aligned(w) && w'.host == w.host && w'.store.spaces == w.store.spaces
    requires w'.store.activeSpaceId == w.store.activeSpaceId && |w'.store.tabs| == |w.store.tabs|
    requires forall k | 0 <= k < |w.store.tabs| ::
               w'.store.tabs[k].id == w.store.tabs[k].id && w'.store.tabs[k].spaceId == w.store.tabs[k].spaceId
    ensures Aligned(w')
  {
    EditKeepsSound(w.store, w'.store);
  }

  lemma AddSpaceAligns(w: World, a: Action)
    requires Aligned(w) && a.AddSpace? && Succeeds(w, a)
    requires ActiveSpace(w.store).Some? || w.store.activeSpaceId != a.id
    ensures Aligned(Act(w, a))
  {
    var w' := Act(w, a);
    var sp := NewSpace(w, a.id, a.name, a.profileId, a.color);
    FindAppended(w.store.spaces, sp, w.store.activeSpaceId);
    forall k | 0 <= k < |w'.store.spaces| ensures SelectionValid(w'.store.tabs, w'.store.spaces[k]) {
      assert k < |w.store.spaces| ==> SelectionValid(w.store.tabs, w.store.spaces[k]);
    }
    forall k | 0 <= k < |w.store.tabs|
      ensures w.store.tabs[k].id != ""
      ensures FindSpace(w'.store.spaces, w.store.tabs[k].spaceId).Some? ==> w.store.tabs[k].id in w'.host.tabs
    {
      FindAppended(w.store.spaces, sp, w.store.tabs[k].spaceId);
      assert w.store.tabs[k] in w.store.tabs;
    }
  }

  /** The sidebar offers only tabs of the active space, and ids are not reused. */
  predicate FromSidebar(w: World, a: Action) {
    && (a.ActivateTab? ==> ActiveSpace(w.store).Some? && NamesTabOf(w.store.tabs, a.id, w.store.activeSpaceId))
    && (a.AddSpace? ==> ActiveSpace(w.store).Some? || w.store.activeSpaceId != a.id)
  }

  lemma ActKeepsAligned(w: World, a: Action)
    requires Aligned(w) && Succeeds(w, a) && FromSidebar(w, a)
    ensures Aligned(Act(w, a))
  {
    match a
    case AddProfile(_, _, _) => EditAligns(w, Act(w, a));
    case AddSpace(_, _, _, _) => AddSpaceAligns(w, a);
    case SwitchSpace(id) => RefocusAligns(w.store.(activeSpaceId := id), w.db, w.host);
    case NewTab(_, _, _) => OpenedAligns(w, BuiltTab(a, ActiveSpace(w.store).value.id));
    case NewTerminalTab(_, _, _) => OpenedAligns(w, BuiltTab(a, ActiveSpace(w.store).value.id));
    case NewChatTab(_, _, _) => OpenedAligns(w, BuiltTab(a, ActiveSpace(w.store).value.id));
    case CloseTab(id) => CloseAligns(w, id);
    case RenameTab(_, _) => EditAligns(w, Act(w, a));
    case ActivateTab(id) => ActivateAligns(w, id);
    case ApplyCapture(_, _) => EditAligns(w, Act(w, a));
    case ResizeContent(rect) => CommandsKeepFocus(w.host, "", rect);
  }

  /** Activating a tab of another space breaks the alignment: Rust shows it, the store does not. */
  lemma ActivateNeedsVisibleTab(w: World, id: string)
    requires Aligned(w) && ActiveSpace(w.store).Some?
    ensures Aligned(Act(w, ActivateTab(id))) <==> NamesTabOf(w.store.tabs, id, w.store.activeSpaceId)
  {
    if NamesTabOf(w.store.tabs, id, w.store.activeSpaceId) {
      ActivateAligns(w, id);
    } else {
      ActivateKeepsSound(w.store, id);
    }
  }

  // ---------- launch ----------

  /** Every persisted tab has a nonempty id of its own. */
  predicate WellKept(db: Db) {
    && (forall k | 0 <= k < |db.tabs| :: db.tabs[k].id != "")
    && (forall i, j | 0 <= i < j < |db.tabs| :: db.tabs[i].id != db.tabs[j].id)
  }

  predicate FreshHost(h: Host) {
    h.tabs == {} && h.placed == map[] && h.active.None?
  }

  predicate ReplaysId(refused: set<string>, spaces: seq<Space>, tabs: seq<Tab>, id: string) {
    exists k :: 0 <= k < |tabs| && tabs[k].id == id && Replays(refused, spaces, tabs[k])
  }

  lemma ReplaysIdOfLast(refused: set<string>, spaces: seq<Space>, front: seq<Tab>, last: Tab, id: string)
    ensures ReplaysId(refused, spaces, front + [last], id) <==>
              ReplaysId(refused, spaces, front, id) || (last.id == id && Replays(refused, spaces, last))
  {
    var tabs := front + [last];
    assert tabs[|front|] == last && forall k | 0 <= k < |front| :: tabs[k] == front[k];
  }

  lemma CreateRecords(h: Host, id: string)
    requires Focused(h) && h.placed.Keys == h.tabs && id !in h.placed
    ensures Focused(Create(h, id)) && Create(h, id).active.Some?
    ensures Create(h, id).tabs == h.tabs + {id} && Create(h, id).placed.Keys == h.tabs + {id}
  {
    CommandsKeepFocus(h, id, NO_RECT);
  }

  /** After the replay the recorded tabs are the replayed ones, and none is active only if there
      are none. */
  lemma {:induction false} ReplayedHost(refused: set<string>, h: Host, spaces: seq<Space>, tabs: seq<Tab>)
    requires FreshHost(h) && UniqueIds(tabs)
    ensures var h' := Replayed(refused, h, spaces, tabs);
            && Focused(h') && h'.placed.Keys == h'.tabs && (h'.active.None? <==> h'.tabs == {})
            && forall id :: id in h'.tabs <==> ReplaysId(refused, spaces, tabs, id)
  {
    if tabs != [] {
      var front, last := tabs[..|tabs| - 1], tabs[|tabs| - 1];
      assert tabs == front + [last];
      ReplayedHost(refused, h, spaces, front);
      var before := Replayed(refused, h, spaces, front);
      assert !ReplaysId(refused, spaces, front, last.id);
      CreateRecords(before, last.id);
      forall id ensures id in Replayed(refused, h, spaces, tabs).tabs <==> ReplaysId(refused, spaces, tabs, id) {
        ReplaysIdOfLast(refused, spaces, front, last, id);
      }
    }
  }

  /** The store a launch builds, before the first tab is shown. */
  function LaunchedStore(db: Db): Store {
    FromRows(Loaded(db).profiles, Loaded(db).spaces, Loaded(db).tabs)
  }

  predicate AnyReplayed(refused: set<string>, st: Store) {
    exists k :: 0 <= k < |st.tabs| && Replays(refused, st.spaces, st.tabs[k])
  }

  lemma LaunchedStoreFacts(db: Db)
    requires WellKept(db)
    ensures UniqueIds(LaunchedStore(db).tabs) && Sound(LaunchedStore(db))
    ensures forall k | 0 <= k < |LaunchedStore(db).tabs| :: LaunchedStore(db).tabs[k].id != ""
  {
    LoadedIdsAreNew(db.tabs, {""});
    FromRowsIsSound(db.profiles, SortSpaces(db.spaces), StableSort(db.tabs));
  }

  /** Every tab of a known space is replayed. */
  predicate AllReplayed(refused: set<string>, st: Store) {
    forall k | 0 <= k < |st.tabs| && FindSpace(st.spaces, st.tabs[k].spaceId).Some? ::
      Accepted(refused, st.tabs[k].kind, st.tabs[k].id)
  }

  /** The launch shows the selected tab if it was replayed, and none if none was. */
  predicate SelectionReplayed(refused: set<string>, st: Store) {
    if ActiveTabId(st).Some? then ReplaysId(refused, st.spaces, st.tabs, ActiveTabId(st).value)
    else !AnyReplayed(refused, st)
  }

  lemma AnyReplayedId(refused: set<string>, st: Store)
    ensures AnyReplayed(refused, st) <==> exists id :: ReplaysId(refused, st.spaces, st.tabs, id)
  {
    if AnyReplayed(refused, st) {
      var k :| 0 <= k < |st.tabs| && Replays(refused, st.spaces, st.tabs[k]);
      assert ReplaysId(refused, st.spaces, st.tabs, st.tabs[k].id);
    }
  }

  lemma ReplayShows(refused: set<string>, st: Store, db: Db, h: Host)
    requires Sound(st) && UniqueIds(st.tabs) && FreshHost(h)
    ensures var h' := Replayed(refused, h, st.spaces, st.tabs);
            var shown := if ActiveTabId(st).Some? then ShowTab(h', ActiveTabId(st).value) else h';
            && shown.tabs == h'.tabs
            && (Shown(World(st, db, shown)) <==> SelectionReplayed(refused, st))
  {
    ReplayedHost(refused, h, st.spaces, st.tabs);
    AnyReplayedId(refused, st);
    var h' := Replayed(refused, h, st.spaces, st.tabs);
    if ActiveTabId(st).Some? {
      CommandsKeepFocus(h', ActiveTabId(st).value, NO_RECT);
    } else {
      forall id | id in h'.tabs ensures AnyReplayed(refused, st) {
        assert ReplaysId(refused, st.spaces, st.tabs, id);
      }
    }
  }

  lemma ReplayOfOne(refused: set<string>, spaces: seq<Space>, tabs: seq<Tab>, k: nat)
    requires UniqueIds(tabs) && k < |tabs|
    ensures ReplaysId(refused, spaces, tabs, tabs[k].id) <==> Replays(refused, spaces, tabs[k])
  {
    if ReplaysId(refused, spaces, tabs, tabs[k].id) {
      var j :| 0 <= j < |tabs| && tabs[j].id == tabs[k].id && Replays(refused, spaces, tabs[j]);
      assert j == k;
    }
  }

  lemma ReplayRecords(refused: set<string>, st: Store, h: Host)
    requires UniqueIds(st.tabs) && FreshHost(h) && forall k | 0 <= k < |st.tabs| :: st.tabs[k].id != ""
    ensures Recorded(st, Replayed(refused, h, st.spaces, st.tabs)) <==> AllReplayed(refused, st)
  {
    ReplayedHost(refused, h, st.spaces, st.tabs);
    forall k | 0 <= k < |st.tabs|
      ensures st.tabs[k].id in Replayed(refused, h, st.spaces, st.tabs).tabs <==>
              Replays(refused, st.spaces, st.tabs[k])
    {
      ReplayOfOne(refused, st.spaces, st.tabs, k);
    }
  }

  // ---------- the launch in terms of the rows ----------

  predicate HasRow(rows: seq<TabRow>, id: string, kind: TabKind, spaceId: string) {
    exists k :: 0 <= k < |rows| && rows[k].id == id && rows[k].kind == kind && rows[k].spaceId == spaceId
  }

  predicate HasTabLike(tabs: seq<Tab>, id: string, kind: TabKind, spaceId: string) {
    exists k :: 0 <= k < |tabs| && tabs[k].id == id && tabs[k].kind == kind && tabs[k].spaceId == spaceId
  }

  lemma LaunchedTabsAreTheRows(db: Db, id: string, kind: TabKind, spaceId: string)
    ensures HasTabLike(LaunchedStore(db).tabs, id, kind, spaceId) <==> HasRow(db.tabs, id, kind, spaceId)
  {
    var sorted, tabs := StableSort(db.tabs), LaunchedStore(db).tabs;
    StableSortSorts(db.tabs);
    if HasTabLike(tabs, id, kind, spaceId) {
      var k :| 0 <= k < |tabs| && tabs[k].id == id && tabs[k].kind == kind && tabs[k].spaceId == spaceId;
      assert sorted[k] in multiset(db.tabs);
      var j :| 0 <= j < |db.tabs| && db.tabs[j] == sorted[k];
    }
    if HasRow(db.tabs, id, kind, spaceId) {
      var k :| 0 <= k < |db.tabs| && db.tabs[k].id == id && db.tabs[k].kind == kind && db.tabs[k].spaceId == spaceId;
      assert db.tabs[k] in multiset(sorted);
      var j :| 0 <= j < |sorted| && sorted[j] == db.tabs[k];
      assert tabs[j].id == id && tabs[j].kind == kind && tabs[j].spaceId == spaceId;
    }
  }

  predicate KnownSpace(db: Db, spaceId: string) {
    exists j :: 0 <= j < |db.spaces| && db.spaces[j].id == spaceId
  }

  lemma LaunchedSpacesAreTheRows(db: Db, spaceId: string)
    ensures FindSpace(LaunchedStore(db).spaces, spaceId).Some? <==> KnownSpace(db, spaceId)
  {
    var sorted, spaces := SortSpaces(db.spaces), LaunchedStore(db).spaces;
    SortSpacesSorts(db.spaces);
    if FindSpace(spaces, spaceId).Some? {
      var k :| 0 <= k < |spaces| && spaces[k] == FindSpace(spaces, spaceId).value;
      assert sorted[k] in multiset(db.spaces);
      var j :| 0 <= j < |db.spaces| && db.spaces[j] == sorted[k];
    }
    if KnownSpace(db, spaceId) {
      var j :| 0 <= j < |db.spaces| && db.spaces[j].id == spaceId;
      assert db.spaces[j] in multiset(sorted);
      var k :| 0 <= k < |sorted| && sorted[k] == db.spaces[j];
      assert spaces[k] in spaces && spaces[k].id == spaceId;
    }
  }

  /** Some row of a known space has its `create_tab` accepted; some has not. */
  predicate AnyAcceptedRow(refused: set<string>, db: Db) {
    exists k :: 0 <= k < |db.tabs| && KnownSpace(db, db.tabs[k].spaceId)
      && Accepted(refused, db.tabs[k].kind, db.tabs[k].id)
  }

  predicate AnyRefusedRow(refused: set<string>, db: Db) {
    exists k :: 0 <= k < |db.tabs| && KnownSpace(db, db.tabs[k].spaceId)
      && !Accepted(refused, db.tabs[k].kind, db.tabs[k].id)
  }

  lemma LaunchReplays(refused: set<string>, db: Db)
    ensures AnyReplayed(refused, LaunchedStore(db)) <==> AnyAcceptedRow(refused, db)
    ensures AllReplayed(refused, LaunchedStore(db)) <==> !AnyRefusedRow(refused, db)
  {
    var st := LaunchedStore(db);
    forall k | 0 <= k < |st.tabs|
      ensures FindSpace(st.spaces, st.tabs[k].spaceId).Some? <==> KnownSpace(db, st.tabs[k].spaceId)
      ensures HasRow(db.tabs, st.tabs[k].id, st.tabs[k].kind, st.tabs[k].spaceId)
    {
      LaunchedSpacesAreTheRows(db, st.tabs[k].spaceId);
      LaunchedTabsAreTheRows(db, st.tabs[k].id, st.tabs[k].kind, st.tabs[k].spaceId);
    }
    forall k | 0 <= k < |db.tabs|
      ensures FindSpace(st.spaces, db.tabs[k].spaceId).Some? <==> KnownSpace(db, db.tabs[k].spaceId)
      ensures HasTabLike(st.tabs, db.tabs[k].id, db.tabs[k].kind, db.tabs[k].spaceId)
    {
      LaunchedSpacesAreTheRows(db, db.tabs[k].spaceId);
      LaunchedTabsAreTheRows(db, db.tabs[k].id, db.tabs[k].kind, db.tabs[k].spaceId);
    }
  }

  /** The first row of a space in load order. */
  function FirstRow(rows: seq<TabRow>, spaceId: string): (first: Option<TabRow>)
    ensures first.Some? ==> exists k :: 0 <= k < |rows| && rows[k] == first.value && rows[k].spaceId == spaceId
  {
    if rows == [] then None
    else if rows[0].spaceId == spaceId then Some(rows[0])
    else
      var first := FirstRow(rows[1..], spaceId);
      assert first.Some? ==> exists k :: 0 <= k < |rows| && rows[k] == first.value && rows[k].spaceId == spaceId by {
        if first.Some? {
          var k :| 0 <= k < |rows[1..]| && rows[1..][k] == first.value;
          assert rows[k + 1] == first.value;
        }
      }
      first
  }

  lemma {:induction false} FirstOfRows(tabs: seq<Tab>, rows: seq<TabRow>, spaceId: string)
    requires |tabs| == |rows| && forall k | 0 <= k < |rows| :: tabs[k] == TabFromRow(rows[k])
    ensures FirstOf(tabs, spaceId).Some? <==> FirstRow(rows, spaceId).Some?
    ensures FirstRow(rows, spaceId).Some? ==> FirstOf(tabs, spaceId) == Some(FirstRow(rows, spaceId).value.id)
  {
    if rows != [] {
      FirstOfRows(tabs[1..], rows[1..], spaceId);
    }
  }

  /** The row of the tab the launch selects: the first of the first space. */
  function SelectedRow(db: Db): Option<TabRow> {
    if Loaded(db).spaces == [] then None else FirstRow(Loaded(db).tabs, Loaded(db).spaces[0].id)
  }

  /** The active space of a launch is the first in load order, and selects its first tab. */
  lemma LaunchedActiveSpace(db: Db)
    requires Loaded(db).spaces != []
    ensures ActiveSpace(LaunchedStore(db)).Some?
    ensures ActiveSpace(LaunchedStore(db)).value.activeTabId == FirstOf(LaunchedStore(db).tabs, Loaded(db).spaces[0].id)
  {
    var st := LaunchedStore(db);
    assert st.spaces[0].id == Loaded(db).spaces[0].id == st.activeSpaceId;
  }

  lemma LaunchSelects(db: Db)
    requires WellKept(db)
    ensures ActiveTabId(LaunchedStore(db)).Some? <==> SelectedRow(db).Some?
    ensures SelectedRow(db).Some? ==> ActiveTabId(LaunchedStore(db)) == Some(SelectedRow(db).value.id)
  {
    var st, rows := LaunchedStore(db), Loaded(db).tabs;
    if Loaded(db).spaces != [] {
      var first := Loaded(db).spaces[0].id;
      LaunchedActiveSpace(db);
      FirstOfRows(st.tabs, rows, first);
      if SelectedRow(db).Some? {
        LoadedIdsAreNew(db.tabs, {""});
        var k :| 0 <= k < |rows| && rows[k] == SelectedRow(db).value;
        assert rows[k].id !in {""};
      }
    }
  }

  lemma SelectedIsReplayedIff(refused: set<string>, db: Db)
    requires WellKept(db) && SelectedRow(db).Some?
    ensures ReplaysId(refused, LaunchedStore(db).spaces, LaunchedStore(db).tabs, SelectedRow(db).value.id) <==>
            Accepted(refused, SelectedRow(db).value.kind, SelectedRow(db).value.id)
  {
    var st, spaces, row := LaunchedStore(db), Loaded(db).spaces, SelectedRow(db).value;
    LaunchedStoreFacts(db);
    var k :| 0 <= k < |st.tabs| && Loaded(db).tabs[k] == row;
    assert st.tabs[k] == TabFromRow(row);
    assert st.spaces[0].id == spaces[0].id && st.spaces[0] in st.spaces;
    ReplayOfOne(refused, st.spaces, st.tabs, k);
  }

  /** The row to be shown first is accepted, or there is none and no other is accepted either. */
  predicate ShowsSelected(refused: set<string>, db: Db) {
    if SelectedRow(db).Some? then Accepted(refused, SelectedRow(db).value.kind, SelectedRow(db).value.id)
    else !AnyAcceptedRow(refused, db)
  }

  /** Whatever `create_tab` refuses, a launch on rows with ids of their own leaves Rust showing what
      the store shows exactly when the first space's first tab was accepted, or the first space is
      empty and no tab of any space was. Otherwise Rust keeps the last accepted tab active. */
  lemma LaunchShowsIff(refused: set<string>, db: Db)
    requires WellKept(db) && db.profiles != []
    ensures Shown(Restarted(refused, db)) <==> ShowsSelected(refused, db)
  {
    LaunchedStoreFacts(db);
    ReplayShows(refused, LaunchedStore(db), db, Host({}, map[], None, NO_RECT));
    LaunchSelects(db);
    LaunchReplays(refused, db);
    if SelectedRow(db).Some? {
      SelectedIsReplayedIff(refused, db);
    }
  }

  /** And able to show every other tab of a known space exactly when also none of them was refused. */
  lemma LaunchAligns(refused: set<string>, db: Db)
    requires WellKept(db) && db.profiles != []
    ensures Aligned(Restarted(refused, db)) <==> ShowsSelected(refused, db) && !AnyRefusedRow(refused, db)
  {
    var h := Host({}, map[], None, NO_RECT);
    LaunchShowsIff(refused, db);
    LaunchedStoreFacts(db);
    ReplayShows(refused, LaunchedStore(db), db, h);
    ReplayRecords(refused, LaunchedStore(db), h);
    LaunchReplays(refused, db);
  }

  /** A first launch starts aligned. */
  lemma FirstLaunchAligns(refused: set<string>)
    ensures Aligned(Restarted(refused, Db([], [], [])))
  {
  }

  // ---------- runs ----------

  predicate AllFromSidebar(start: World, actions: seq<Action>)
    requires IsRun(start, actions)
  {
    actions == [] ||
    (AllFromSidebar(start, actions[..|actions| - 1])
     && FromSidebar(After(start, actions[..|actions| - 1]), actions[|actions| - 1]))
  }

  lemma {:induction false} RunsStayAligned(start: World, actions: seq<Action>)
    requires Aligned(start) && IsRun(start, actions) && AllFromSidebar(start, actions)
    ensures Aligned(After(start, actions))
  {
    if actions != [] {
      var front := actions[..|actions| - 1];
      RunsStayAligned(start, front);
      ActKeepsAligned(After(start, front), actions[|actions| - 1]);
    }
  }

  /** From any launch that starts aligned, after any run of actions, Rust's active tab is the
      store's, and that webview is on screen over the content area and every other one is off. */
  lemma VisibleTabIsTheStores(refused: set<string>, db: Db, actions: seq<Action>)
    requires Aligned(Restarted(refused, db))
    requires IsRun(Restarted(refused, db), actions) && AllFromSidebar(Restarted(refused, db), actions)
    ensures var w := After(Restarted(refused, db), actions);
            && w.host.active == ActiveTabId(w.store)
            && (w.host.active.Some? ==>
                HasTabId(w.store.tabs, w.host.active.value) && w.host.active.value in w.host.placed)
            && forall id | id in w.host.placed ::
                 w.host.placed[id] == if ActiveTabId(w.store) == Some(id) then OnContent(w.host.content) else OffScreen
  {
    RunsStayAligned(Restarted(refused, db), actions);
    var w := After(Restarted(refused, db), actions);
    if w.host.active.Some? {
      var k :| 0 <= k < |w.store.spaces| && w.store.spaces[k] == ActiveSpace(w.store).value;
      assert SelectionValid(w.store.tabs, w.store.spaces[k]);
    }
  }
}
