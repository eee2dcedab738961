/**
  Quitting and launching again: what a fresh store makes of the rows a run of actions has left
  behind (tabStore.ts and in-memory.ts).
*/
module HydrateRoundTrip {
  import opened Wrappers
  import opened StoreTypes
  import opened TabState
  import opened Persistence
  import opened TabActions

  predicate TabsMirrored(tabs: seq<Tab>, rows: seq<TabRow>) {
    |tabs| == |rows| && forall k | 0 <= k < |tabs| :: RowOf(rows[k], tabs[k])
  }

  /** The rows say what the store says, in the order things were created. */
  predicate Mirrored(w: World) {
    && w.db.profiles == w.store.profiles && w.store.profiles != []
    && |w.db.spaces| == |w.store.spaces|
    && (forall k | 0 <= k < |w.store.spaces| :: w.db.spaces[k] == SpaceToRow(w.store.spaces[k], k))
    && TabsMirrored(w.store.tabs, w.db.tabs)
    && UniqueIds(w.store.tabs)
  }

  lemma {:induction false} DeletionMirrored(tabs: seq<Tab>, rows: seq<TabRow>, id: string)
    requires TabsMirrored(tabs, rows)
    ensures TabsMirrored(WithoutTab(tabs, id), DeleteRow(rows, id))
  {
    if tabs != [] {
      assert RowOf(rows[0], tabs[0]);
      DeletionMirrored(tabs[1..], rows[1..], id);
    }
  }

  lemma OpenedMirrored(w: World, tab: Tab)
    requires Mirrored(w) && !HasTabId(w.store.tabs, tab.id) && !HasTab(w.db.tabs, tab.id)
    ensures Mirrored(Opened(w, tab))
    ensures Opened(w, tab).db.tabs == w.db.tabs + [TabToRow(tab, CountIn(w.store.tabs, tab.spaceId))]
  {
    var w' := Opened(w, tab);
    forall i, j | 0 <= i < j < |w'.store.tabs| ensures w'.store.tabs[i].id != w'.store.tabs[j].id {
      assert w.store.tabs[i].id != tab.id;
    }
  }

  lemma ActKeepsMirrored(w: World, a: Action)
    requires Mirrored(w) && Succeeds(w, a)
    ensures Mirrored(Act(w, a))
  {
    match a
    case NewTab(_, _, _) => OpenedMirrored(w, BuiltTab(a, ActiveSpace(w.store).value.id));
    case NewTerminalTab(_, _, _) => OpenedMirrored(w, BuiltTab(a, ActiveSpace(w.store).value.id));
    case NewChatTab(_, _, _) => OpenedMirrored(w, BuiltTab(a, ActiveSpace(w.store).value.id));
    case CloseTab(id) =>
      DeletionMirrored(w.store.tabs, w.db.tabs, id);
      WithoutTabUnique(w.store.tabs, id);
    case RenameTab(id, _) => assert forall k | 0 <= k < |w.store.tabs| :: RowOf(w.db.tabs[k], w.store.tabs[k]);
    case ApplyCapture(id, _) => assert forall k | 0 <= k < |w.store.tabs| :: RowOf(w.db.tabs[k], w.store.tabs[k]);
    case _ =>
  }

  /** The state after a launch on an empty database. */
  function FirstLaunch(): World {
    Restarted({}, Db([], [], []))
  }

  lemma {:induction false} RunsStayMirrored(actions: seq<Action>)
    requires IsRun(FirstLaunch(), actions)
    ensures Mirrored(After(FirstLaunch(), actions))
  {
    if actions != [] {
      RunsStayMirrored(actions[..|actions| - 1]);
      ActKeepsMirrored(After(FirstLaunch(), actions[..|actions| - 1]), actions[|actions| - 1]);
    }
  }

  // ---------- reading the rows back ----------

  function FromAll(rows: seq<TabRow>): seq<Tab> {
    seq(|rows|, k requires 0 <= k < |rows| => TabFromRow(rows[k]))
  }

  function DurableAll(tabs: seq<Tab>): seq<Tab> {
    seq(|tabs|, k requires 0 <= k < |tabs| => Durable(tabs[k]))
  }

  function TabsIn(tabs: seq<Tab>, spaceId: string): seq<Tab> {
    if tabs == [] then []
    else TabsIn(tabs[..|tabs| - 1], spaceId) + (if tabs[|tabs| - 1].spaceId == spaceId then [tabs[|tabs| - 1]] else [])
  }

  function Unselected(spaces: seq<Space>): seq<Space> {
    seq(|spaces|, k requires 0 <= k < |spaces| => spaces[k].(activeTabId := None))
  }

  /** Every persisted field of a tab survives the trip through its row. */
  lemma RowRoundTrip(t: Tab, sortOrder: nat)
    ensures TabFromRow(TabToRow(t, sortOrder)) == Durable(t)
  {
  }

  lemma MirroredReadsBack(tabs: seq<Tab>, rows: seq<TabRow>)
    requires TabsMirrored(tabs, rows)
    ensures FromAll(rows) == DurableAll(tabs)
  {
    forall k | 0 <= k < |rows| ensures FromAll(rows)[k] == DurableAll(tabs)[k] {
      assert RowOf(rows[k], tabs[k]);
      RowRoundTrip(tabs[k], rows[k].sortOrder);
    }
  }

  /** The launch after any run of actions from an empty database finds the same profiles, the same
      spaces in the same order, and the same tabs, field by field except loading and favicon. */
  lemma HydrateFindsEverything(actions: seq<Action>, refused: set<string>)
    requires IsRun(FirstLaunch(), actions)
    ensures var w := After(FirstLaunch(), actions);
            var again := Restarted(refused, w.db).store;
            && again.profiles == w.store.profiles
            && Unselected(again.spaces) == Unselected(w.store.spaces)
            && |again.tabs| == |w.store.tabs|
            && UniqueIds(again.tabs)
            && forall t :: t in again.tabs <==> t in DurableAll(w.store.tabs)
  {
    var w := After(FirstLaunch(), actions);
    RunsStayMirrored(actions);
    AscendingSpacesStay(w.db.spaces);
    ReadsBackAsSet(w);
  }

  lemma ReadsBackAsSet(w: World)
    requires Mirrored(w)
    ensures |StableSort(w.db.tabs)| == |w.store.tabs|
    ensures UniqueIds(FromAll(StableSort(w.db.tabs)))
    ensures forall t :: t in FromAll(StableSort(w.db.tabs)) <==> t in DurableAll(w.store.tabs)
  {
    var rows, sorted := w.db.tabs, StableSort(w.db.tabs);
    StableSortSorts(rows);
    assert |multiset(sorted)| == |sorted| && |multiset(rows)| == |rows|;
    MirroredIdsAreUnique(w);
    LoadedIdsAreNew(rows, {});
    MirroredReadsBack(w.store.tabs, rows);
    forall t ensures t in FromAll(sorted) <==> t in FromAll(rows) {
      SameMembersReadSame(sorted, rows, t);
      SameMembersReadSame(rows, sorted, t);
    }
  }

  lemma MirroredIdsAreUnique(w: World)
    requires Mirrored(w)
    ensures forall i, j | 0 <= i < j < |w.db.tabs| :: w.db.tabs[i].id != w.db.tabs[j].id
  {
    forall i, j | 0 <= i < j < |w.db.tabs| ensures w.db.tabs[i].id != w.db.tabs[j].id {
      assert RowOf(w.db.tabs[i], w.store.tabs[i]) && RowOf(w.db.tabs[j], w.store.tabs[j]);
    }
  }

  lemma SameMembersReadSame(a: seq<TabRow>, b: seq<TabRow>, t: Tab)
    requires multiset(a) == multiset(b)
    ensures t in FromAll(a) ==> t in FromAll(b)
  {
    if t in FromAll(a) {
      var k :| 0 <= k < |a| && FromAll(a)[k] == t;
      assert a[k] in multiset(b);
      var j :| 0 <= j < |b| && b[j] == a[k];
      assert FromAll(b)[j] == t;
    }
  }

  // ---------- order within a space ----------

  lemma {:induction false} TabsInOfRows(rows: seq<TabRow>, spaceId: string)
    ensures TabsIn(FromAll(rows), spaceId) == FromAll(OfSpace(rows, spaceId))
  {
    if rows != [] {
      var n := |rows| - 1;
      TabsInOfRows(rows[..n], spaceId);
      assert FromAll(rows)[..n] == FromAll(rows[..n]);
    }
  }

  /** Rows with distinct ids read back alike only if they are in the same places. */
  lemma SameReadingSameRows(a: seq<TabRow>, b: seq<TabRow>)
    requires multiset(a) == multiset(b) && FromAll(a) == FromAll(b)
    requires forall i, j | 0 <= i < j < |b| :: b[i].id != b[j].id
    ensures a == b
  {
    assert |FromAll(a)| == |a| && |FromAll(b)| == |b|;
    forall k | 0 <= k < |a| ensures a[k] == b[k] {
      assert a[k] in multiset(b);
      var j :| 0 <= j < |b| && b[j] == a[k];
      assert FromAll(a)[k].id == a[k].id && FromAll(b)[k].id == b[k].id;
    }
  }

  /** A space's tabs come back in their order exactly when its rows have ascending sort orders. */
  lemma OrderIsKeptIffAscending(actions: seq<Action>, spaceId: string, refused: set<string>)
    requires IsRun(FirstLaunch(), actions)
    ensures var w := After(FirstLaunch(), actions);
            TabsIn(Restarted(refused, w.db).store.tabs, spaceId) == TabsIn(DurableAll(w.store.tabs), spaceId) <==>
            Ascending(OfSpace(w.db.tabs, spaceId))
  {
    var w := After(FirstLaunch(), actions);
    RunsStayMirrored(actions);
    MirroredReadsBack(w.store.tabs, w.db.tabs);
    SortedPart(w.db.tabs, spaceId);
    MirroredIdsAreUnique(w);
    var part := OfSpace(w.db.tabs, spaceId);
    OfSpaceKeepsDistinct(w.db.tabs, spaceId);
    StableSortSorts(part);
    if FromAll(StableSort(part)) == FromAll(part) {
      SameReadingSameRows(StableSort(part), part);
    }
    SortedIffAscending(part);
    assert Restarted(refused, w.db).store.tabs == FromAll(StableSort(w.db.tabs));
  }

  lemma SortedPart(rows: seq<TabRow>, spaceId: string)
    ensures TabsIn(FromAll(StableSort(rows)), spaceId) == FromAll(StableSort(OfSpace(rows, spaceId)))
    ensures TabsIn(FromAll(rows), spaceId) == FromAll(OfSpace(rows, spaceId))
  {
    TabsInOfRows(StableSort(rows), spaceId);
    TabsInOfRows(rows, spaceId);
    SortCommutes(rows, spaceId);
  }

  // ---------- sort orders over a run ----------

  /** The rows of each space are numbered from zero. */
  predicate Numbered(part: seq<TabRow>) {
    forall k | 0 <= k < |part| :: part[k].sortOrder == k
  }

  lemma {:induction false} CountMatchesRows(tabs: seq<Tab>, rows: seq<TabRow>, spaceId: string)
    requires TabsMirrored(tabs, rows)
    ensures CountIn(tabs, spaceId) == |OfSpace(rows, spaceId)|
  {
    if tabs != [] {
      var n := |tabs| - 1;
      assert RowOf(rows[n], tabs[n]);
      CountMatchesRows(tabs[..n], rows[..n], spaceId);
    }
  }

  lemma {:induction false} EditedPart(rows: seq<TabRow>, rows': seq<TabRow>, spaceId: string)
    requires |rows'| == |rows|
    requires forall k | 0 <= k < |rows| ::
               rows'[k].spaceId == rows[k].spaceId && rows'[k].sortOrder == rows[k].sortOrder
    ensures |OfSpace(rows', spaceId)| == |OfSpace(rows, spaceId)|
    ensures forall k | 0 <= k < |OfSpace(rows, spaceId)| ::
              OfSpace(rows', spaceId)[k].sortOrder == OfSpace(rows, spaceId)[k].sortOrder
  {
    if rows != [] {
      EditedPart(rows[..|rows| - 1], rows'[..|rows| - 1], spaceId);
    }
  }

  lemma OfSpaceSnoc(rows: seq<TabRow>, row: TabRow, spaceId: string)
    ensures OfSpace(rows + [row], spaceId) == OfSpace(rows, spaceId) + (if row.spaceId == spaceId then [row] else [])
  {
    assert (rows + [row])[..|rows|] == rows;
  }

  /** A new tab is numbered by its space's tab count. That keeps the space's order exactly when
      no row of the space has a greater number, which a close can leave behind. */
  lemma NewTabKeepsOrderIff(w: World, tab: Tab)
    requires Mirrored(w) && !HasTabId(w.store.tabs, tab.id) && !HasTab(w.db.tabs, tab.id)
    ensures Ascending(OfSpace(Opened(w, tab).db.tabs, tab.spaceId)) <==>
            Ascending(OfSpace(w.db.tabs, tab.spaceId))
            && forall r | r in OfSpace(w.db.tabs, tab.spaceId) :: r.sortOrder <= CountIn(w.store.tabs, tab.spaceId)
  {
    var row := TabToRow(tab, CountIn(w.store.tabs, tab.spaceId));
    OpenedMirrored(w, tab);
    OfSpaceSnoc(w.db.tabs, row, tab.spaceId);
    var part := OfSpace(w.db.tabs, tab.spaceId);
    var grown := part + [row];
    assert grown[|part|] == row && forall k | 0 <= k < |part| :: grown[k] == part[k];
    if Ascending(grown) {
      forall r | r in part ensures r.sortOrder <= row.sortOrder {
        var k :| 0 <= k < |part| && part[k] == r;
        assert grown[k].sortOrder <= grown[|part|].sortOrder;
      }
      forall i, j | 0 <= i < j < |part| ensures part[i].sortOrder <= part[j].sortOrder {
        assert grown[i].sortOrder <= grown[j].sortOrder;
      }
    }
  }

  lemma OpenedNumbered(w: World, tab: Tab, spaceId: string)
    requires Mirrored(w) && Numbered(OfSpace(w.db.tabs, spaceId))
    requires !HasTabId(w.store.tabs, tab.id) && !HasTab(w.db.tabs, tab.id)
    ensures Numbered(OfSpace(Opened(w, tab).db.tabs, spaceId))
  {
    OpenedMirrored(w, tab);
    OfSpaceSnoc(w.db.tabs, TabToRow(tab, CountIn(w.store.tabs, tab.spaceId)), spaceId);
    CountMatchesRows(w.store.tabs, w.db.tabs, spaceId);
  }

  lemma ActKeepsNumbered(w: World, a: Action, spaceId: string)
    requires Mirrored(w) && Succeeds(w, a) && !a.CloseTab? && Numbered(OfSpace(w.db.tabs, spaceId))
    ensures Numbered(OfSpace(Act(w, a).db.tabs, spaceId))
  {
    match a
    case NewTab(_, _, _) => OpenedNumbered(w, BuiltTab(a, ActiveSpace(w.store).value.id), spaceId);
    case NewTerminalTab(_, _, _) => OpenedNumbered(w, BuiltTab(a, ActiveSpace(w.store).value.id), spaceId);
    case NewChatTab(_, _, _) => OpenedNumbered(w, BuiltTab(a, ActiveSpace(w.store).value.id), spaceId);
    case RenameTab(id, title) => EditedPart(w.db.tabs, RetitleRow(w.db.tabs, id, title), spaceId);
    case ApplyCapture(id, sessionId) => EditedPart(w.db.tabs, SetRowSession(w.db.tabs, id, sessionId), spaceId);
    case _ =>
  }

  predicate NoCloses(actions: seq<Action>) {
    forall k | 0 <= k < |actions| :: !actions[k].CloseTab?
  }

  lemma {:induction false} RunsStayNumbered(actions: seq<Action>, spaceId: string)
    requires IsRun(FirstLaunch(), actions) && NoCloses(actions)
    ensures Numbered(OfSpace(After(FirstLaunch(), actions).db.tabs, spaceId))
  {
    if actions != [] {
      var front := actions[..|actions| - 1];
      RunsStayNumbered(front, spaceId);
      RunsStayMirrored(front);
      ActKeepsNumbered(After(FirstLaunch(), front), actions[|actions| - 1], spaceId);
    }
  }

  /** As long as no tab was closed, every space's tabs come back in their order. */
  lemma OrderIsKeptWithoutCloses(actions: seq<Action>, spaceId: string, refused: set<string>)
    requires IsRun(FirstLaunch(), actions) && NoCloses(actions)
    ensures var w := After(FirstLaunch(), actions);
            TabsIn(Restarted(refused, w.db).store.tabs, spaceId) == TabsIn(DurableAll(w.store.tabs), spaceId)
  {
    RunsStayNumbered(actions, spaceId);
    OrderIsKeptIffAscending(actions, spaceId, refused);
  }

  // ---------- a close can reorder ----------

  lemma Extend(start: World, actions: seq<Action>, w: World, a: Action) returns (actions': seq<Action>, w': World)
    requires IsRun(start, actions) && After(start, actions) == w && Succeeds(w, a)
    ensures actions' == actions + [a] && w' == Act(w, a)
    ensures IsRun(start, actions') && After(start, actions') == w'
  {
    actions', w' := actions + [a], Act(w, a);
    assert actions'[..|actions|] == actions;
  }

  /** The default space is active, and the world holds these tabs and rows and has created the
      webviews of these ids. */
  predicate Holds(w: World, tabs: seq<Tab>, rows: seq<TabRow>, created: set<string>) {
    && w.store.tabs == tabs && w.db.tabs == rows && w.host.placed.Keys == created
    && ActiveSpace(w.store).Some? && ActiveSpace(w.store).value.id == "space-default"
    && |w.store.spaces| == 1 && w.store.spaces[0].id == "space-default" && w.store.activeSpaceId == "space-default"
  }

  /** A tab of the default space and its row. */
  predicate Paired(tab: Tab, row: TabRow, id: string, order: nat) {
    tab.id == row.id == id && tab.spaceId == row.spaceId == "space-default" && row.sortOrder == order
  }

  lemma OpenPage(start: World, actions: seq<Action>, w: World, tabs: seq<Tab>, rows: seq<TabRow>,
                 created: set<string>, id: string)
    returns (actions': seq<Action>, w': World, tab: Tab, row: TabRow)
    requires IsRun(start, actions) && After(start, actions) == w && Holds(w, tabs, rows, created)
    requires id != "" && id !in created && !HasTabId(tabs, id) && !HasTab(rows, id)
    ensures IsRun(start, actions') && After(start, actions') == w'
    ensures Paired(tab, row, id, CountIn(tabs, "space-default"))
    ensures Holds(w', tabs + [tab], rows + [row], created + {id})
  {
    var action := NewTab(id, Browser, "about:blank");
    actions', w' := Extend(start, actions, w, action);
    tab := BuiltTab(action, "space-default");
    row := TabToRow(tab, CountIn(tabs, "space-default"));
  }

  lemma {:induction false} NothingToRemove(tabs: seq<Tab>, rows: seq<TabRow>, id: string)
    requires |tabs| == |rows|
    requires !HasTabId(tabs, id) && !HasTab(rows, id)
    ensures WithoutTab(tabs, id) == tabs && DeleteRow(rows, id) == rows
  {
    if tabs != [] {
      assert tabs[0].id != id && rows[0].id != id;
      NothingToRemove(tabs[1..], rows[1..], id);
    }
  }

  lemma RemoveFirst(tab: Tab, tabs: seq<Tab>, row: TabRow, rows: seq<TabRow>)
    requires row.id == tab.id && |tabs| == |rows| && !HasTabId(tabs, tab.id) && !HasTab(rows, tab.id)
    ensures WithoutTab([tab] + tabs, tab.id) == tabs && DeleteRow([row] + rows, tab.id) == rows
  {
    NothingToRemove(tabs, rows, tab.id);
    assert ([tab] + tabs)[1..] == tabs && ([row] + rows)[1..] == rows;
  }

  lemma CloseFirst(start: World, actions: seq<Action>, w: World, tab: Tab, tabs: seq<Tab>, row: TabRow,
                   rows: seq<TabRow>, created: set<string>)
    returns (actions': seq<Action>, w': World)
    requires IsRun(start, actions) && After(start, actions) == w && Holds(w, [tab] + tabs, [row] + rows, created)
    requires row.id == tab.id && |tabs| == |rows| && !HasTabId(tabs, tab.id) && !HasTab(rows, tab.id)
    ensures IsRun(start, actions') && After(start, actions') == w'
    ensures Holds(w', tabs, rows, created)
  {
    actions', w' := Extend(start, actions, w, CloseTab(tab.id));
    RemoveFirst(tab, tabs, row, rows);
  }

  lemma Counted(tabs: seq<Tab>, t: Tab, spaceId: string)
    requires t.spaceId == spaceId
    ensures CountIn(tabs + [t], spaceId) == CountIn(tabs, spaceId) + 1
  {
    assert (tabs + [t])[..|tabs|] == tabs;
  }

  lemma OpenTwo() returns (actions: seq<Action>, w: World, p: Tab, q: Tab, rp: TabRow, rq: TabRow)
    ensures IsRun(FirstLaunch(), actions) && After(FirstLaunch(), actions) == w
    ensures Paired(p, rp, "a", 0) && Paired(q, rq, "b", 1)
    ensures Holds(w, [p, q], [rp, rq], {"a", "b"})
  {
    var start := FirstLaunch();
    assert Holds(start, [], [], {});
    actions, w, p, rp := OpenPage(start, [], start, [], [], {}, "a");
    Counted([], p, "space-default");
    actions, w, q, rq := OpenPage(start, actions, w, [p], [rp], {"a"}, "b");
    assert [p] + [q] == [p, q] && [rp] + [rq] == [rp, rq];
  }

  lemma OpenThird(start: World, actions: seq<Action>, w: World, p: Tab, q: Tab, rp: TabRow, rq: TabRow)
    returns (actions': seq<Action>, w': World, r: Tab, rr: TabRow)
    requires IsRun(start, actions) && After(start, actions) == w
    requires Paired(p, rp, "a", 0) && Paired(q, rq, "b", 1) && Holds(w, [p, q], [rp, rq], {"a", "b"})
    ensures IsRun(start, actions') && After(start, actions') == w'
    ensures Paired(r, rr, "c", 2) && Holds(w', [p, q, r], [rp, rq, rr], {"a", "b", "c"})
  {
    Counted([], p, "space-default");
    Counted([p], q, "space-default");
    assert [p] + [q] == [p, q];
    actions', w', r, rr := OpenPage(start, actions, w, [p, q], [rp, rq], {"a", "b"}, "c");
    assert [p, q] + [r] == [p, q, r] && [rp, rq] + [rr] == [rp, rq, rr];
  }

  lemma CloseTwo(start: World, actions: seq<Action>, w: World, p: Tab, q: Tab, r: Tab,
                 rp: TabRow, rq: TabRow, rr: TabRow)
    returns (actions': seq<Action>, w': World)
    requires IsRun(start, actions) && After(start, actions) == w
    requires p.id == rp.id == "a" && q.id == rq.id == "b" && r.id == rr.id == "c"
    requires Holds(w, [p, q, r], [rp, rq, rr], {"a", "b", "c"})
    ensures IsRun(start, actions') && After(start, actions') == w'
    ensures Holds(w', [r], [rr], {"a", "b", "c"})
  {
    assert [p] + [q, r] == [p, q, r] && [rp] + [rq, rr] == [rp, rq, rr];
    actions', w' := CloseFirst(start, actions, w, p, [q, r], rp, [rq, rr], {"a", "b", "c"});
    assert [q] + [r] == [q, r] && [rq] + [rr] == [rq, rr];
    actions', w' := CloseFirst(start, actions', w', q, [r], rq, [rr], {"a", "b", "c"});
  }

  lemma OpenFourth(start: World, actions: seq<Action>, w: World, r: Tab, rr: TabRow)
    returns (actions': seq<Action>, w': World, rs: TabRow)
    requires IsRun(start, actions) && After(start, actions) == w
    requires Paired(r, rr, "c", 2) && Holds(w, [r], [rr], {"a", "b", "c"})
    ensures IsRun(start, actions') && After(start, actions') == w'
    ensures w'.db.tabs == [rr, rs] && rs.spaceId == "space-default" && rs.sortOrder == 1
  {
    Counted([], r, "space-default");
    var s;
    actions', w', s, rs := OpenPage(start, actions, w, [r], [rr], {"a", "b", "c"}, "d");
    assert [rr] + [rs] == [rr, rs];
  }

  /** Three tabs, the first two closed, a fourth opened: the fourth comes back before the third. */
  lemma CloseCanReorder(refused: set<string>) returns (actions: seq<Action>)
    ensures IsRun(FirstLaunch(), actions)
    ensures var w := After(FirstLaunch(), actions);
            var again := Restarted(refused, w.db).store;
            TabsIn(again.tabs, "space-default") != TabsIn(DurableAll(w.store.tabs), "space-default")
  {
    var start := FirstLaunch();
    var w, p, q, r, rp, rq, rr, rs;
    actions, w, p, q, rp, rq := OpenTwo();
    actions, w, r, rr := OpenThird(start, actions, w, p, q, rp, rq);
    actions, w := CloseTwo(start, actions, w, p, q, r, rp, rq, rr);
    actions, w, rs := OpenFourth(start, actions, w, r, rr);
    DescendingPair(rr, rs, "space-default");
    OrderIsKeptIffAscending(actions, "space-default", refused);
  }

  lemma DescendingPair(r: TabRow, s: TabRow, spaceId: string)
    requires r.spaceId == spaceId && s.spaceId == spaceId && r.sortOrder > s.sortOrder
    ensures !Ascending(OfSpace([r, s], spaceId))
  {
    assert [r, s][..1] == [r] && [r][..0] == [];
    assert OfSpace([r], spaceId) == [r];
    assert OfSpace([r, s], spaceId)[0] == r && OfSpace([r, s], spaceId)[1] == s;
  }
}
