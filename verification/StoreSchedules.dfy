/**
  The actions one after the other are the interleaved actions with every answer awaited at once: the
  run of an action's steps that nothing comes between does to tabs and rows what the action does.
*/
module StoreSchedules {
  import opened Wrappers
  import opened StoreTypes
  import opened TabState
  import opened Persistence
  import opened StoreInterleaving
  import opened CaptureAgreement
  import A = TabActions

  function StartOf(w: A.World): Live {
    Start(w.store, w.db.tabs)
  }

  /** The run ends at rest, with the tabs, spaces and rows of the given world. */
  ghost predicate EndsAs(w: A.World, steps: seq<Step>, w': A.World) {
    && IsRun(StartOf(w), steps) && Quiescent(After(StartOf(w), steps))
    && After(StartOf(w), steps).store == w'.store && After(StartOf(w), steps).rows == w'.db.tabs
  }

  lemma NewTabIsFresh(w: A.World, a: A.Action)
    requires A.Succeeds(w, a) && A.Creates(a)
    ensures Fresh(StartOf(w), A.BuiltTab(a, ActiveSpace(w.store).value.id))
  {
    assert forall t | t in w.store.tabs :: exists k :: 0 <= k < |w.store.tabs| && w.store.tabs[k] == t;
  }

  /** `newTab`: the row is saved before `create_tab` answers. */
  lemma NewTabRuns(w: A.World, a: A.Action) returns (steps: seq<Step>)
    requires A.Succeeds(w, a) && a.NewTab?
    ensures EndsAs(w, steps, A.Act(w, a))
  {
    var tab := A.BuiltTab(a, ActiveSpace(w.store).value.id);
    var l;
    NewTabIsFresh(w, a);
    steps, l := Extend(StartOf(w), [], StartOf(w), NewTab(tab, true));
    steps, l := Extend(StartOf(w), steps, l, CreateReturns(0, true, None, true));
    assert l.pending == [Settled];
  }

  /** `newTerminalTab` and `newChatTab`: the row is saved after `create_tab` has answered with the
      window's name. */
  lemma NewTerminalLikeRuns(w: A.World, a: A.Action) returns (steps: seq<Step>)
    requires A.Succeeds(w, a) && (a.NewTerminalTab? || a.NewChatTab?)
    ensures EndsAs(w, steps, A.Act(w, a))
  {
    var tab := A.BuiltTab(a, ActiveSpace(w.store).value.id);
    var l;
    NewTabIsFresh(w, a);
    var unnamed := tab.(windowName := None);
    steps, l := Extend(StartOf(w), [], StartOf(w), NewTerminalLike(unnamed));
    assert l.pending == [Creating(unnamed, false)];
    steps, l := Extend(StartOf(w), steps, l, CreateReturns(0, true, Some(a.windowName), true));
    assert l.pending == [Saving(tab)];
    steps, l := Extend(StartOf(w), steps, l, SaveReturns(0));
    assert l.pending == [Settled];
  }

  lemma CloseRuns(w: A.World, id: string) returns (steps: seq<Step>)
    ensures EndsAs(w, steps, A.Act(w, A.CloseTab(id)))
  {
    var l;
    steps, l := Extend(StartOf(w), [], StartOf(w), CloseTab(id));
    steps, l := Extend(StartOf(w), steps, l, CloseReturns(0, true));
    steps, l := Extend(StartOf(w), steps, l, DeleteReturns(0));
    assert l.pending == [Settled];
  }

  lemma OneStep(start: Live, step: Step)
    requires Enabled(start, step)
    ensures IsRun(start, [step]) && After(start, [step]) == Apply(start, step)
  {
    assert [step][..0] == [];
    assert IsRun(start, []) && After(start, []) == start;
  }

  /** Renaming, choosing a tab and choosing a space need no answer. */
  lemma RenameRuns(w: A.World, id: string, title: string)
    ensures EndsAs(w, [RenameTab(id, title, true)], A.Act(w, A.RenameTab(id, title)))
  {
    OneStep(StartOf(w), RenameTab(id, title, true));
  }

  lemma ActivateRuns(w: A.World, id: string)
    ensures EndsAs(w, [ActivateTab(id)], A.Act(w, A.ActivateTab(id)))
  {
    OneStep(StartOf(w), ActivateTab(id));
  }

  lemma SwitchRuns(w: A.World, id: string)
    ensures EndsAs(w, [SwitchSpace(id)], A.Act(w, A.SwitchSpace(id)))
  {
    OneStep(StartOf(w), SwitchSpace(id));
  }

  /** The captures applied in their order. */
  function AllApplied(w: A.World, todo: seq<(string, string)>): A.World
    decreases |todo|
  {
    if todo == [] then w else AllApplied(A.Act(w, A.ApplyCapture(todo[0].0, todo[0].1)), todo[1..])
  }

  lemma FirstCaptureDone(start: Live, steps: seq<Step>, l: Live, todo: seq<(string, string)>)
      returns (steps': seq<Step>, l': Live)
    requires IsRun(start, steps) && After(start, steps) == l && l.pending == [Capturing(todo)] && todo != []
    ensures IsRun(start, steps') && After(start, steps') == l'
    ensures l' == l.(store := SetAgentSession(l.store, todo[0].0, todo[0].1),
                     rows := SetRowSession(l.rows, todo[0].0, todo[0].1), pending := [Capturing(todo[1..])])
  {
    steps', l' := Extend(start, steps, l, CaptureNext(0, true));
    assert l'.pending == [CaptureSaving(todo[0].0, todo[0].1, todo[1..], true)];
    steps', l' := Extend(start, steps', l', CaptureAnswered(0));
  }

  lemma {:induction false} RestOfCaptures(w: A.World, start: Live, steps: seq<Step>, l: Live,
                                          todo: seq<(string, string)>)
      returns (steps': seq<Step>, l': Live)
    requires IsRun(start, steps) && After(start, steps) == l && l.pending == [Capturing(todo)]
    requires l.store == w.store && l.rows == w.db.tabs
    ensures IsRun(start, steps') && After(start, steps') == l' && l'.pending == [Settled]
    ensures l'.store == AllApplied(w, todo).store && l'.rows == AllApplied(w, todo).db.tabs
    decreases |todo|
  {
    if todo == [] {
      steps', l' := Extend(start, steps, l, CaptureNext(0, true));
    } else {
      steps', l' := FirstCaptureDone(start, steps, l, todo);
      steps', l' := RestOfCaptures(A.Act(w, A.ApplyCapture(todo[0].0, todo[0].1)), start, steps', l', todo[1..]);
    }
  }

  /** A list of captures sends one save after the other, to the end of the list. */
  lemma CaptureListRuns(w: A.World, todo: seq<(string, string)>) returns (steps: seq<Step>)
    requires Enabled(StartOf(w), BeginCapture(todo))
    ensures EndsAs(w, steps, AllApplied(w, todo))
  {
    var l;
    steps, l := Extend(StartOf(w), [], StartOf(w), BeginCapture(todo));
    assert l.pending == [Capturing(todo)];
    steps, l := RestOfCaptures(w, StartOf(w), steps, l, todo);
  }

  // ---------- answers that fail ----------

  /** The run ends at rest and has changed only the rows, if anything. */
  predicate EndsWithRows(start: Live, steps: seq<Step>, rows: seq<TabRow>) {
    && IsRun(start, steps) && Quiescent(After(start, steps))
    && After(start, steps).store == start.store && After(start, steps).rows == rows
  }

  /** `newTab` refused by `create_tab`: the row is saved, the tab does not come. */
  lemma RefusedNewTab(w: A.World, a: A.Action) returns (steps: seq<Step>)
    requires A.Succeeds(w, a) && a.NewTab?
    ensures EndsWithRows(StartOf(w), steps, A.SavedTab(w, A.BuiltTab(a, ActiveSpace(w.store).value.id)).tabs)
  {
    var tab := A.BuiltTab(a, ActiveSpace(w.store).value.id);
    var l;
    NewTabIsFresh(w, a);
    steps, l := Extend(StartOf(w), [], StartOf(w), NewTab(tab, true));
    steps, l := Extend(StartOf(w), steps, l, CreateReturns(0, false, None, true));
    assert l.pending == [Settled];
  }

  /** A terminal or chat tab that is refused, gets no window or whose row is not saved leaves nothing. */
  lemma RefusedTerminalLike(start: Live, tab: Tab, ok: bool, window: Option<string>, saved: bool)
      returns (steps: seq<Step>)
    requires start.pending == [] && Enabled(start, NewTerminalLike(tab)) && !(ok && Truthy(window) && saved)
    ensures EndsWithRows(start, steps, start.rows)
  {
    var l;
    steps, l := Extend(start, [], start, NewTerminalLike(tab));
    assert l.pending == [Creating(tab, false)];
    steps, l := Extend(start, steps, l, CreateReturns(0, ok, window, saved));
    assert l.pending == [Settled];
  }

  /** A close whose deletion fails keeps tab and row. */
  lemma RefusedClose(start: Live, id: string) returns (steps: seq<Step>)
    requires start.pending == []
    ensures EndsWithRows(start, steps, start.rows)
  {
    var l;
    steps, l := Extend(start, [], start, CloseTab(id));
    steps, l := Extend(start, steps, l, CloseReturns(0, false));
    assert l.pending == [Settled];
  }

  /** The tab is renamed before the save, so a failed save leaves its row behind. */
  lemma RefusedRename(start: Live, id: string, title: string)
    requires start.pending == []
    ensures var after := Apply(start, RenameTab(id, title, false));
            after.rows == start.rows && after.store == Apply(start, RenameTab(id, title, true)).store
  {
  }

  /** The first failed save ends the whole list of captures: the remaining ones are not sent. */
  lemma RefusedCapture(start: Live, todo: seq<(string, string)>) returns (steps: seq<Step>)
    requires start.pending == [] && todo != [] && Enabled(start, BeginCapture(todo))
    ensures EndsWithRows(start, steps, start.rows)
  {
    var l;
    steps, l := Extend(start, [], start, BeginCapture(todo));
    assert l.pending == [Capturing(todo)];
    steps, l := Extend(start, steps, l, CaptureNext(0, false));
    assert l.pending == [CaptureSaving(todo[0].0, todo[0].1, todo[1..], false)];
    steps, l := Extend(start, steps, l, CaptureAnswered(0));
    assert l.pending == [Settled];
  }
}
