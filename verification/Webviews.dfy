/**
  Rust's side of the tabs (lib.rs): visibility is position. A hidden webview keeps running off
  screen, and a closed one is never destroyed.
*/
module Webviews {
  import opened Wrappers

  datatype Rect = Rect(x: real, y: real, w: real, h: real)

  datatype Placement = OffScreen | At(rect: Rect)

  /** `tabs` are the recorded tabs, `placed` every webview ever created. */
  datatype Host = Host(tabs: set<string>, placed: map<string, Placement>, active: Option<string>, content: Rect)

  const NO_RECT := Rect(0.0, 0.0, 0.0, 0.0)

  function AtLeastOne(r: real): real {
    if r > 1.0 then r else 1.0
  }

  /** Over the content area, at least one point wide and high. */
  function OnContent(r: Rect): Placement {
    At(Rect(r.x, r.y, AtLeastOne(r.w), AtLeastOne(r.h)))
  }

  // ---------- what each command does ----------

  /** Hiding a webview that does not exist is an error its callers ignore. */
  function Hide(h: Host, id: string): Host {
    if id in h.placed then h.(placed := h.placed[id := OffScreen]) else h
  }

  /** Showing a webview that does not exist fails and changes nothing. */
  function Show(h: Host, id: string): Host {
    if id in h.placed then h.(placed := h.placed[id := OnContent(h.content)], active := Some(id)) else h
  }

  function HideActive(h: Host): Host {
    if h.active.Some? then Hide(h, h.active.value) else h
  }

  /** The webview starts over the content area, then the previous tab is hidden. */
  function Create(h: Host, id: string): Host {
    var added := h.(tabs := h.tabs + {id}, placed := h.placed[id := OnContent(h.content)]);
    Show(HideActive(added), id)
  }

  function Close(h: Host, id: string): Host {
    var hidden := Hide(h, id);
    hidden.(tabs := h.tabs - {id}, active := if h.active == Some(id) then None else h.active)
  }

  function ShowTab(h: Host, id: string): Host {
    Show(if h.active == Some(id) then h else HideActive(h), id)
  }

  function HideAll(h: Host): Host {
    h.(placed := map id | id in h.placed :: if id in h.tabs then OffScreen else h.placed[id], active := None)
  }

  function SetContentRect(h: Host, rect: Rect): Host {
    var resized := h.(content := rect);
    if h.active.Some? then Show(resized, h.active.value) else resized
  }

  // ---------- the commands ----------

  /** Webview calls other than a lookup that fails are taken to succeed. */
  class AppState {
    var tabs: set<string>
    var placed: map<string, Placement>
    var activeTab: Option<string>
    var contentRect: Rect

    function View(): Host
      reads this
    {
      Host(tabs, placed, activeTab, contentRect)
    }

    constructor ()
      ensures View() == Host({}, map[], None, NO_RECT)
    {
      tabs, placed, activeTab, contentRect := {}, map[], None, NO_RECT;
    }

    method ShowWebview(id: string) returns (ok: bool)
      modifies this
      ensures View() == Show(old(View()), id) && ok == (id in old(placed))
    {
      if id !in placed {
        return false;
      }
      placed := placed[id := At(Rect(contentRect.x, contentRect.y, AtLeastOne(contentRect.w),
          AtLeastOne(contentRect.h)))];
      activeTab := Some(id);
      ok := true;
    }

    method HideWebview(id: string) returns (ok: bool)
      modifies this
      ensures View() == Hide(old(View()), id) && ok == (id in old(placed))
    {
      if id !in placed {
        return false;
      }
      placed := placed[id := OffScreen];
      ok := true;
    }

    /** The label must be new; `prepared` says whether everything before the webview went well. */
    method CreateTab(id: string, prepared: bool) returns (ok: bool)
      modifies this
      ensures ok == (prepared && id !in old(placed))
      ensures View() == if ok then Create(old(View()), id) else old(View())
    {
      if !prepared || id in placed {
        return false;
      }
      placed := placed[id := OnContent(contentRect)];
      tabs := tabs + {id};
      var prev := activeTab;
      if prev.Some? {
        var _ := HideWebview(prev.value);
      }
      ok := ShowWebview(id);
    }

    method CloseTab(id: string)
      modifies this
      ensures View() == Close(old(View()), id)
    {
      var _ := HideWebview(id);
      tabs := tabs - {id};
      if activeTab == Some(id) {
        activeTab := None;
      }
    }

    method ShowTabCommand(id: string) returns (ok: bool)
      modifies this
      ensures View() == ShowTab(old(View()), id) && ok == (id in old(placed))
    {
      var prev := activeTab;
      if prev.Some? && prev.value != id {
        var _ := HideWebview(prev.value);
      }
      ok := ShowWebview(id);
    }

    method HideAllCommand()
      modifies this
      ensures View() == HideAll(old(View()))
    {
      var ids := tabs;
      while ids != {}
        invariant ids <= tabs && tabs == old(tabs) && activeTab == old(activeTab) && contentRect == old(contentRect)
        invariant placed == map id | id in old(placed) :: if id in tabs - ids then OffScreen else old(placed)[id]
        decreases ids
      {
        var id :| id in ids;
        var _ := HideWebview(id);
        ids := ids - {id};
      }
      activeTab := None;
    }

    method SetContentRectCommand(rect: Rect)
      modifies this
      ensures View() == SetContentRect(old(View()), rect)
    {
      contentRect := rect;
      if activeTab.Some? {
        var _ := ShowWebview(activeTab.value);
      }
    }
  }

  // ---------- position as visibility ----------

  /** The active tab is recorded, and its webview is the one and only one on screen, exactly over
      the content area. */
  predicate Focused(h: Host) {
    && (h.active.Some? ==> h.active.value in h.tabs && h.active.value in h.placed)
    && h.tabs <= h.placed.Keys
    && (forall id | id in h.placed ::
          h.placed[id] == if h.active == Some(id) then OnContent(h.content) else OffScreen)
  }

  /** Every command keeps it, on every host and argument, except showing a tab that was closed. */
  lemma CommandsKeepFocus(h: Host, id: string, rect: Rect)
    requires Focused(h)
    ensures id !in h.placed ==> Focused(Create(h, id)) && Create(h, id).active == Some(id)
    ensures Focused(Close(h, id)) && Close(h, id).active == if h.active == Some(id) then None else h.active
    ensures Focused(HideAll(h)) && HideAll(h).active.None?
    ensures Focused(SetContentRect(h, rect)) && SetContentRect(h, rect).active == h.active
    ensures id in h.tabs ==> Focused(ShowTab(h, id)) && ShowTab(h, id).active == Some(id)
  {
  }

  /** The webview of the active tab lies where the content area is, with its size but at least one
      point wide and high. */
  lemma ActiveCoversContent(h: Host)
    requires Focused(h) && h.active.Some?
    ensures h.placed[h.active.value].At?
    ensures var r := h.placed[h.active.value].rect;
            && r.x == h.content.x && r.y == h.content.y
            && (if h.content.w >= 1.0 then r.w == h.content.w else r.w == 1.0)
            && (if h.content.h >= 1.0 then r.h == h.content.h else r.h == 1.0)
  {
  }

  /** Which tabs are recorded, which webviews there are, and which area is theirs, after each command. */
  lemma CommandsRecord(h: Host, id: string, rect: Rect)
    ensures Create(h, id).tabs == h.tabs + {id} && Create(h, id).placed.Keys == h.placed.Keys + {id}
    ensures Close(h, id).tabs == h.tabs - {id} && Close(h, id).placed.Keys == h.placed.Keys
    ensures ShowTab(h, id).tabs == h.tabs && ShowTab(h, id).placed.Keys == h.placed.Keys
    ensures HideAll(h).tabs == h.tabs && HideAll(h).placed.Keys == h.placed.Keys
    ensures SetContentRect(h, rect).tabs == h.tabs && SetContentRect(h, rect).placed.Keys == h.placed.Keys
    ensures SetContentRect(h, rect).content == rect
    ensures Create(h, id).content == Close(h, id).content == ShowTab(h, id).content == HideAll(h).content == h.content
  {
    assert h.active.Some? && h.active.value in h.placed ==> h.placed.Keys + {h.active.value} == h.placed.Keys;
    assert id in h.placed ==> h.placed.Keys + {id} == h.placed.Keys;
  }

  /** Hiding everything reaches every recorded tab's webview, active or not. */
  lemma HideAllReachesAll(h: Host, id: string)
    requires id in h.placed
    ensures HideAll(h).placed[id] == if id in h.tabs then OffScreen else h.placed[id]
  {
  }

  /** `show_tab` keeps it exactly for recorded tabs: a closed tab's webview would come back, and
      for an unknown one the old webview is hidden while its tab stays active. */
  lemma ShowTabKeepsFocus(h: Host, id: string)
    requires Focused(h)
    ensures Focused(ShowTab(h, id)) <==> id in h.tabs || (id !in h.placed && h.active.None?)
  {
    if id !in h.placed && h.active.Some? {
      assert ShowTab(h, id).placed[h.active.value] == OffScreen;
    }
  }
}
