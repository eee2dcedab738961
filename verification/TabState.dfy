/** The store's state and the updates tabStore.ts applies to it through `set`. */
module TabState {
  import opened Wrappers
  import opened StoreTypes

  datatype Store = Store(profiles: seq<Profile>, spaces: seq<Space>, tabs: seq<Tab>, activeSpaceId: string)

  const DEFAULT_PROFILE := Profile("profile-default", "Default", None, true)
  const DEFAULT_SPACE := Space("space-default", "Default", "#6366f1", "profile-default", None)

  const INITIAL := Store([DEFAULT_PROFILE], [DEFAULT_SPACE], [], "space-default")

  function ActiveSpace(st: Store): Option<Space> {
    FindSpace(st.spaces, st.activeSpaceId)
  }

  /** The tab the active space selects; an empty id counts as none. */
  function ActiveTabId(st: Store): Option<string> {
    var space := ActiveSpace(st);
    if space.Some? && Truthy(space.value.activeTabId) then space.value.activeTabId else None
  }

  predicate HasTabId(tabs: seq<Tab>, id: string) {
    exists k :: 0 <= k < |tabs| && tabs[k].id == id
  }

  /** The first tab of a space, as `find` returns it. */
  function FirstOf(tabs: seq<Tab>, spaceId: string): (first: Option<string>)
    ensures first.Some? ==> exists k :: 0 <= k < |tabs| && tabs[k].id == first.value && tabs[k].spaceId == spaceId
    ensures first.None? ==> forall t | t in tabs :: t.spaceId != spaceId
  {
    if tabs == [] then None
    else if tabs[0].spaceId == spaceId then Some(tabs[0].id)
    else
      var first := FirstOf(tabs[1..], spaceId);
      assert first.Some? ==> exists k :: 0 <= k < |tabs| && tabs[k].id == first.value && tabs[k].spaceId == spaceId by {
        if first.Some? {
          var k :| 0 <= k < |tabs[1..]| && tabs[1..][k].id == first.value && tabs[1..][k].spaceId == spaceId;
          assert tabs[k + 1] == tabs[1..][k];
        }
      }
      first
  }

  function WithoutTab(tabs: seq<Tab>, id: string): seq<Tab> {
    if tabs == [] then []
    else (if tabs[0].id == id then [] else [tabs[0]]) + WithoutTab(tabs[1..], id)
  }

  function SelectIn(spaces: seq<Space>, spaceId: string, id: string): seq<Space> {
    seq(|spaces|, k requires 0 <= k < |spaces| =>
      if spaces[k].id == spaceId then spaces[k].(activeTabId := Some(id)) else spaces[k])
  }

  // ---------- the updates ----------

  /** The last step of every tab creation. */
  function AddTab(st: Store, tab: Tab): Store {
    st.(tabs := st.tabs + [tab], spaces := SelectIn(st.spaces, tab.spaceId, tab.id))
  }

  /** Spaces that showed the closed tab fall back to their first remaining tab. */
  function RemoveTab(st: Store, id: string): Store {
    var tabs := WithoutTab(st.tabs, id);
    st.(tabs := tabs,
        spaces := seq(|st.spaces|, k requires 0 <= k < |st.spaces| =>
          if st.spaces[k].activeTabId != Some(id) then st.spaces[k]
          else st.spaces[k].(activeTabId := FirstOf(tabs, st.spaces[k].id))))
  }

  function Retitle(st: Store, id: string, title: string): Store {
    st.(tabs := seq(|st.tabs|, k requires 0 <= k < |st.tabs| =>
      if st.tabs[k].id == id then st.tabs[k].(title := title) else st.tabs[k]))
  }

  function SetAgentSession(st: Store, id: string, session: string): Store {
    st.(tabs := seq(|st.tabs|, k requires 0 <= k < |st.tabs| =>
      if st.tabs[k].id == id then st.tabs[k].(agentSessionId := Some(session)) else st.tabs[k]))
  }

  /** `activateTab` does not check that the tab exists. */
  function Activate(st: Store, id: string): Store {
    st.(spaces := SelectIn(st.spaces, st.activeSpaceId, id))
  }

  function CountIn(tabs: seq<Tab>, spaceId: string): nat {
    if tabs == [] then 0
    else CountIn(tabs[..|tabs| - 1], spaceId) + (if tabs[|tabs| - 1].spaceId == spaceId then 1 else 0)
  }

  function SelectFirst(spaces: seq<Space>, tabs: seq<Tab>): seq<Space> {
    seq(|spaces|, k requires 0 <= k < |spaces| => spaces[k].(activeTabId := FirstOf(tabs, spaces[k].id)))
  }

  /** The state `hydrate` sets from nonempty rows. */
  function FromRows(profiles: seq<Profile>, spaceRows: seq<SpaceRow>, tabRows: seq<TabRow>): Store {
    var spaces := seq(|spaceRows|, k requires 0 <= k < |spaceRows| => SpaceFromRow(spaceRows[k]));
    var tabs := seq(|tabRows|, k requires 0 <= k < |tabRows| => TabFromRow(tabRows[k]));
    Store(profiles, SelectFirst(spaces, tabs), tabs, if spaces == [] then DEFAULT_SPACE.id else spaces[0].id)
  }

  // ---------- referential integrity ----------

  predicate UniqueIds(tabs: seq<Tab>) {
    forall i, j | 0 <= i < j < |tabs| :: tabs[i].id != tabs[j].id
  }

  predicate NamesTabOf(tabs: seq<Tab>, id: string, spaceId: string) {
    exists k :: 0 <= k < |tabs| && tabs[k].id == id && tabs[k].spaceId == spaceId
  }

  predicate SelectionValid(tabs: seq<Tab>, sp: Space) {
    sp.activeTabId.Some? ==> NamesTabOf(tabs, sp.activeTabId.value, sp.id)
  }

  /** Tab ids are unique, and each space selects nothing or one of its own tabs. */
  predicate Sound(st: Store) {
    && UniqueIds(st.tabs)
    && forall k | 0 <= k < |st.spaces| :: SelectionValid(st.tabs, st.spaces[k])
  }

  lemma {:induction false} WithoutTabKeepsOthers(tabs: seq<Tab>, id: string, t: Tab)
    ensures t in WithoutTab(tabs, id) <==> t in tabs && t.id != id
  {
    if tabs != [] {
      WithoutTabKeepsOthers(tabs[1..], id, t);
      assert t in tabs <==> t == tabs[0] || t in tabs[1..];
    }
  }

  lemma {:induction false} WithoutTabUnique(tabs: seq<Tab>, id: string)
    requires UniqueIds(tabs)
    ensures UniqueIds(WithoutTab(tabs, id))
  {
    if tabs != [] {
      WithoutTabUnique(tabs[1..], id);
      forall t | t in WithoutTab(tabs[1..], id) ensures t.id != tabs[0].id {
        WithoutTabKeepsOthers(tabs[1..], id, t);
        var k :| 0 <= k < |tabs[1..]| && tabs[1..][k] == t;
        assert tabs[k + 1] == t;
      }
    }
  }

  lemma AddTabKeepsSound(st: Store, tab: Tab)
    requires Sound(st) && !HasTabId(st.tabs, tab.id)
    ensures Sound(AddTab(st, tab))
  {
    var st' := AddTab(st, tab);
    assert st'.tabs[|st.tabs|] == tab;
    forall k | 0 <= k < |st'.spaces| ensures SelectionValid(st'.tabs, st'.spaces[k]) {
      assert SelectionValid(st.tabs, st.spaces[k]);
      if st.spaces[k].id != tab.spaceId && st.spaces[k].activeTabId.Some? {
        var j :| 0 <= j < |st.tabs| && st.tabs[j].id == st.spaces[k].activeTabId.value
            && st.tabs[j].spaceId == st.spaces[k].id;
        assert st'.tabs[j] == st.tabs[j];
      }
    }
  }

  lemma RemoveTabKeepsSound(st: Store, id: string)
    requires Sound(st)
    ensures Sound(RemoveTab(st, id))
  {
    var st' := RemoveTab(st, id);
    WithoutTabUnique(st.tabs, id);
    forall k | 0 <= k < |st'.spaces| ensures SelectionValid(st'.tabs, st'.spaces[k]) {
      var sp := st.spaces[k];
      assert SelectionValid(st.tabs, sp);
      if sp.activeTabId.Some? && sp.activeTabId.value != id {
        var j :| 0 <= j < |st.tabs| && st.tabs[j].id == sp.activeTabId.value && st.tabs[j].spaceId == sp.id;
        WithoutTabKeepsOthers(st.tabs, id, st.tabs[j]);
        var i :| 0 <= i < |st'.tabs| && st'.tabs[i] == st.tabs[j];
      }
    }
  }

  /** The place of the first tab of the space other than the closed one. */
  predicate FirstRemaining(tabs: seq<Tab>, closed: string, spaceId: string, i: nat) {
    && i < |tabs| && tabs[i].spaceId == spaceId && tabs[i].id != closed
    && forall j | 0 <= j < i :: tabs[j].spaceId != spaceId || tabs[j].id == closed
  }

  lemma FirstAfterHead(tabs: seq<Tab>, closed: string, spaceId: string)
    requires tabs != []
    ensures FirstOf(WithoutTab(tabs, closed), spaceId) ==
            if tabs[0].id != closed && tabs[0].spaceId == spaceId then Some(tabs[0].id)
            else FirstOf(WithoutTab(tabs[1..], closed), spaceId)
  {
    var rest := WithoutTab(tabs[1..], closed);
    assert [] + rest == rest && ([tabs[0]] + rest)[1..] == rest;
  }

  lemma {:induction false} FirstOfRemaining(tabs: seq<Tab>, closed: string, spaceId: string, i: nat)
    requires FirstRemaining(tabs, closed, spaceId, i)
    ensures FirstOf(WithoutTab(tabs, closed), spaceId) == Some(tabs[i].id)
  {
    FirstAfterHead(tabs, closed, spaceId);
    if i > 0 {
      FirstOfRemaining(tabs[1..], closed, spaceId, i - 1);
    }
  }

  lemma {:induction false} NoneRemaining(tabs: seq<Tab>, closed: string, spaceId: string)
    requires forall t | t in tabs :: t.spaceId != spaceId || t.id == closed
    ensures FirstOf(WithoutTab(tabs, closed), spaceId).None?
  {
    if tabs != [] {
      FirstAfterHead(tabs, closed, spaceId);
      NoneRemaining(tabs[1..], closed, spaceId);
    }
  }

  /** A space that showed the closed tab selects its first remaining tab in store order, or nothing
      if there is none; every other space is left as it is. */
  lemma CloseFallsBack(st: Store, closed: string, k: nat)
    requires k < |st.spaces|
    ensures |RemoveTab(st, closed).spaces| == |st.spaces|
    ensures var before, after := st.spaces[k], RemoveTab(st, closed).spaces[k];
            if before.activeTabId != Some(closed) then after == before
            else
              && after == before.(activeTabId := after.activeTabId)
              && (forall i: nat | FirstRemaining(st.tabs, closed, before.id, i) ::
                    after.activeTabId == Some(st.tabs[i].id))
              && ((forall t | t in st.tabs :: t.spaceId != before.id || t.id == closed) ==> after.activeTabId.None?)
  {
    var spaceId := st.spaces[k].id;
    forall i: nat | FirstRemaining(st.tabs, closed, spaceId, i)
      ensures FirstOf(WithoutTab(st.tabs, closed), spaceId) == Some(st.tabs[i].id)
    {
      FirstOfRemaining(st.tabs, closed, spaceId, i);
    }
    if forall t | t in st.tabs :: t.spaceId != spaceId || t.id == closed {
      NoneRemaining(st.tabs, closed, spaceId);
    }
  }

  /** Edits that keep every id and space keep the selections valid. */
  lemma EditKeepsSound(st: Store, st': Store)
    requires Sound(st) && st'.spaces == st.spaces && |st'.tabs| == |st.tabs|
    requires forall k | 0 <= k < |st.tabs| ::
               st'.tabs[k].id == st.tabs[k].id && st'.tabs[k].spaceId == st.tabs[k].spaceId
    ensures Sound(st')
  {
    forall k | 0 <= k < |st'.spaces| ensures SelectionValid(st'.tabs, st'.spaces[k]) {
      assert SelectionValid(st.tabs, st.spaces[k]);
      if st.spaces[k].activeTabId.Some? {
        var j :| 0 <= j < |st.tabs| && st.tabs[j].id == st.spaces[k].activeTabId.value
            && st.tabs[j].spaceId == st.spaces[k].id;
        assert st'.tabs[j].id == st.tabs[j].id;
      }
    }
  }

  /** `activateTab` keeps the state sound exactly when it is given a tab of the active space, or
      there is no active space. */
  lemma ActivateKeepsSound(st: Store, id: string)
    requires Sound(st)
    ensures Sound(Activate(st, id)) <==> (ActiveSpace(st).None? || NamesTabOf(st.tabs, id, st.activeSpaceId))
  {
    var st' := Activate(st, id);
    if ActiveSpace(st).Some? {
      var k :| 0 <= k < |st.spaces| && st.spaces[k] == ActiveSpace(st).value;
      assert st'.spaces[k].activeTabId == Some(id) && st'.spaces[k].id == st.activeSpaceId;
      assert SelectionValid(st'.tabs, st'.spaces[k]) <==> NamesTabOf(st.tabs, id, st.activeSpaceId);
    }
    forall k | 0 <= k < |st.spaces| && st.spaces[k].id != st.activeSpaceId
        ensures SelectionValid(st'.tabs, st'.spaces[k]) {
      assert SelectionValid(st.tabs, st.spaces[k]);
    }
  }

  predicate IsFirstOf(tabs: seq<Tab>, spaceId: string, i: nat) {
    i < |tabs| && tabs[i].spaceId == spaceId && forall j | 0 <= j < i :: tabs[j].spaceId != spaceId
  }

  lemma {:induction false} FirstOfIsFirst(tabs: seq<Tab>, spaceId: string)
    ensures forall i: nat | IsFirstOf(tabs, spaceId, i) :: FirstOf(tabs, spaceId) == Some(tabs[i].id)
    ensures (forall t | t in tabs :: t.spaceId != spaceId) ==> FirstOf(tabs, spaceId).None?
  {
    if tabs != [] {
      FirstOfIsFirst(tabs[1..], spaceId);
      forall i: nat | IsFirstOf(tabs, spaceId, i) ensures FirstOf(tabs, spaceId) == Some(tabs[i].id) {
        if i > 0 {
          assert tabs[0].spaceId != spaceId;
          assert forall j | 0 <= j < |tabs| - 1 :: tabs[1..][j] == tabs[j + 1];
          assert IsFirstOf(tabs[1..], spaceId, i - 1);
        }
      }
    }
  }

  lemma FromRowsIsSound(profiles: seq<Profile>, spaceRows: seq<SpaceRow>, tabRows: seq<TabRow>)
    requires forall i, j | 0 <= i < j < |tabRows| :: tabRows[i].id != tabRows[j].id
    ensures Sound(FromRows(profiles, spaceRows, tabRows))
  {
    var st := FromRows(profiles, spaceRows, tabRows);
    forall i, j | 0 <= i < j < |st.tabs| ensures st.tabs[i].id != st.tabs[j].id {
      assert tabRows[i].id != tabRows[j].id;
    }
  }
}
