/**
  The asynchronous actions of tabStore.ts, cut at every `await` and interleaved at will. Whatever
  answers come back in whatever order, the selections stay valid and the rows stay in step. Every
  save, deletion and `create_tab` may fail; a failed save or deletion has not changed the rows.
*/
module StoreInterleaving {
  import opened Wrappers
  import opened StoreTypes
  import opened TabState
  import opened Persistence

  /** An action waiting for an answer. `newTab` saves its row before `create_tab`; the terminal
      and chat actions save it afterwards, with the window name Rust allocated. Whether a capture's
      save goes through is settled when it is sent. */
  datatype Pending =
    | Creating(tab: Tab, rowSaved: bool)
    | Saving(tab: Tab)
    | Closing(id: string, rowGone: bool)
    | Capturing(todo: seq<(string, string)>)
    | CaptureSaving(id: string, session: string, rest: seq<(string, string)>, saved: bool)
    | Settled

  /** `issued` are the ids ever used; `failed` those whose creation failed after their row was
      saved. */
  datatype Live = Live(store: Store, rows: seq<TabRow>, pending: seq<Pending>, issued: set<string>, failed: set<string>)

  datatype Step =
    | NewTab(tab: Tab, saved: bool)
    | NewTerminalLike(tab: Tab)
    | CreateReturns(k: nat, ok: bool, windowName: Option<string>, saved: bool)
    | SaveReturns(k: nat)
    | CloseTab(id: string)
    | CloseReturns(k: nat, deleted: bool)
    | DeleteReturns(k: nat)
    | RenameTab(id: string, title: string, saved: bool)
    | ActivateTab(id: string)
    | SwitchSpace(id: string)
    | BeginCapture(todo: seq<(string, string)>)
    | CaptureNext(k: nat, saved: bool)
    | CaptureAnswered(k: nat)

  predicate At(l: Live, k: nat) {
    k < |l.pending|
  }

  /** New ids are fresh, as `crypto.randomUUID` makes them, and new tabs have no agent session. */
  predicate Fresh(l: Live, tab: Tab) {
    && tab.id !in l.issued && tab.agentSessionId.None?
    && ActiveSpace(l.store).Some? && tab.spaceId == ActiveSpace(l.store).value.id
  }

  /** The captured session belongs to a terminal or chat tab of the store, which has another one. */
  predicate Matches(l: Live, capture: (string, string)) {
    exists k :: 0 <= k < |l.store.tabs| && l.store.tabs[k].id == capture.0
                && l.store.tabs[k].TerminalLike() && l.store.tabs[k].agentSessionId != Some(capture.1)
  }

  predicate Enabled(l: Live, step: Step) {
    match step
    case NewTab(tab, _) => Fresh(l, tab)
    case NewTerminalLike(tab) => Fresh(l, tab) && tab.TerminalLike()
    case CreateReturns(k, _, _, _) => At(l, k) && l.pending[k].Creating?
    case SaveReturns(k) => At(l, k) && l.pending[k].Saving?
    case CloseReturns(k, _) => At(l, k) && l.pending[k].Closing? && !l.pending[k].rowGone
    case DeleteReturns(k) => At(l, k) && l.pending[k].Closing? && l.pending[k].rowGone
    case BeginCapture(todo) => forall i | 0 <= i < |todo| :: Matches(l, todo[i])
    case CaptureNext(k, _) => At(l, k) && l.pending[k].Capturing?
    case CaptureAnswered(k) => At(l, k) && l.pending[k].CaptureSaving?
    case _ => true
  }

  function Await(l: Live, p: Pending): Live {
    l.(pending := l.pending + [p])
  }

  function Resume(l: Live, k: nat, p: Pending): Live
    requires At(l, k)
  {
    l.(pending := l.pending[k := p])
  }

  /** `sortOrder` is the number of tabs the space has at the time. */
  function SavedRow(l: Live, tab: Tab): Live {
    l.(rows := SetTab(l.rows, TabToRow(tab, CountIn(l.store.tabs, tab.spaceId))))
  }

  function Created(l: Live, k: nat, ok: bool, windowName: Option<string>, saved: bool): Live
    requires Enabled(l, CreateReturns(k, ok, windowName, saved))
  {
    var tab := l.pending[k].tab;
    if l.pending[k].rowSaved then
      if ok then Resume(l, k, Settled).(store := AddTab(l.store, tab))
      else Resume(l, k, Settled).(failed := l.failed + {tab.id})
    else if ok && Truthy(windowName) && saved then
      var named := tab.(windowName := windowName);
      Resume(SavedRow(l, named), k, Saving(named))
    else Resume(l, k, Settled)
  }

  function Apply(l: Live, step: Step): Live
    requires Enabled(l, step)
  {
    match step
    case NewTab(tab, saved) =>
      if saved then Await(SavedRow(l, tab), Creating(tab, true)).(issued := l.issued + {tab.id})
      else l.(issued := l.issued + {tab.id})
    case NewTerminalLike(tab) => Await(l, Creating(tab, false)).(issued := l.issued + {tab.id})
    case CreateReturns(k, ok, windowName, saved) => Created(l, k, ok, windowName, saved)
    case SaveReturns(k) => Resume(l, k, Settled).(store := AddTab(l.store, l.pending[k].tab))
    case CloseTab(id) => Await(l, Closing(id, false))
    case CloseReturns(k, deleted) =>
      if deleted then Resume(l, k, Closing(l.pending[k].id, true)).(rows := DeleteRow(l.rows, l.pending[k].id))
      else Resume(l, k, Settled)
    case DeleteReturns(k) => Resume(l, k, Settled).(store := RemoveTab(l.store, l.pending[k].id))
    case RenameTab(id, title, saved) =>
      l.(store := Retitle(l.store, id, title), rows := if saved then RetitleRow(l.rows, id, title) else l.rows)
    case ActivateTab(id) => l.(store := Activate(l.store, id))
    case SwitchSpace(id) => l.(store := l.store.(activeSpaceId := id))
    case BeginCapture(todo) => Await(l, Capturing(todo))
    case CaptureNext(k, saved) =>
      var todo := l.pending[k].todo;
      if todo == [] then Resume(l, k, Settled)
      else
        Resume(l, k, CaptureSaving(todo[0].0, todo[0].1, todo[1..], saved))
          .(rows := if saved then SetRowSession(l.rows, todo[0].0, todo[0].1) else l.rows)
    case CaptureAnswered(k) =>
      var p := l.pending[k];
      if p.saved then Resume(l, k, Capturing(p.rest)).(store := SetAgentSession(l.store, p.id, p.session))
      else Resume(l, k, Settled)
  }

  // ---------- runs ----------

  function Start(store: Store, rows: seq<TabRow>): Live {
    Live(store, rows, [], set t | t in store.tabs :: t.id, {})
  }

  predicate IsRun(start: Live, steps: seq<Step>)
    decreases |steps|, 0
  {
    steps == [] ||
    (IsRun(start, steps[..|steps| - 1]) && Enabled(After(start, steps[..|steps| - 1]), steps[|steps| - 1]))
  }

  function After(start: Live, steps: seq<Step>): Live
    requires IsRun(start, steps)
    decreases |steps|, 1
  {
    if steps == [] then start
    else Apply(After(start, steps[..|steps| - 1]), steps[|steps| - 1])
  }

  /** The sidebar only offers the active space's tabs for selection. */
  predicate ActivationsVisible(start: Live, steps: seq<Step>)
    requires IsRun(start, steps)
  {
    steps == [] ||
    var before, step := After(start, steps[..|steps| - 1]), steps[|steps| - 1];
    && ActivationsVisible(start, steps[..|steps| - 1])
    && (step.ActivateTab? ==>
          ActiveSpace(before.store).None? || NamesTabOf(before.store.tabs, step.id, before.store.activeSpaceId))
  }

  /** Tabs are only closed while the store has them. */
  predicate ClosesPresent(start: Live, steps: seq<Step>)
    requires IsRun(start, steps)
  {
    steps == [] ||
    var before, step := After(start, steps[..|steps| - 1]), steps[|steps| - 1];
    && ClosesPresent(start, steps[..|steps| - 1])
    && (step.CloseTab? ==> HasTabId(before.store.tabs, step.id))
  }

  // ---------- ids ----------

  predicate Adds(p: Pending, id: string) {
    (p.Creating? || p.Saving?) && p.tab.id == id
  }

  predicate IsNewcomer(p: Pending) {
    p.Creating? || p.Saving?
  }

  predicate NewcomerApart(l: Live, k: nat)
    requires At(l, k)
  {
    IsNewcomer(l.pending[k]) ==> l.pending[k].tab.id in l.issued && !HasTabId(l.store.tabs, l.pending[k].tab.id)
  }

  predicate PairApart(l: Live, j: nat, k: nat)
    requires At(l, j) && At(l, k)
  {
    j != k && IsNewcomer(l.pending[j]) ==> !Adds(l.pending[k], l.pending[j].tab.id)
  }

  /** Tabs still to be added have ids of their own. */
  predicate IdsApart(l: Live) {
    && (forall k | 0 <= k < |l.store.tabs| :: l.store.tabs[k].id in l.issued)
    && (forall k | 0 <= k < |l.pending| :: NewcomerApart(l, k))
    && (forall j, k | 0 <= j < |l.pending| && 0 <= k < |l.pending| :: PairApart(l, j, k))
  }

  lemma EditedTabIds(tabs: seq<Tab>, tabs': seq<Tab>, id: string)
    requires |tabs'| == |tabs| && forall k | 0 <= k < |tabs| :: tabs'[k].id == tabs[k].id
    ensures HasTabId(tabs', id) <==> HasTabId(tabs, id)
  {
  }

  lemma AddTabIds(st: Store, tab: Tab, id: string)
    ensures HasTabId(AddTab(st, tab).tabs, id) <==> HasTabId(st.tabs, id) || id == tab.id
  {
    var tabs := AddTab(st, tab).tabs;
    assert tabs[|st.tabs|] == tab && forall k | 0 <= k < |st.tabs| :: tabs[k] == st.tabs[k];
  }

  lemma RemoveTabIds(st: Store, gone: string, id: string)
    ensures HasTabId(RemoveTab(st, gone).tabs, id) <==> HasTabId(st.tabs, id) && id != gone
  {
    var tabs := RemoveTab(st, gone).tabs;
    if HasTabId(tabs, id) {
      var k :| 0 <= k < |tabs| && tabs[k].id == id;
      WithoutTabKeepsOthers(st.tabs, gone, tabs[k]);
    }
    if HasTabId(st.tabs, id) && id != gone {
      var k :| 0 <= k < |st.tabs| && st.tabs[k].id == id;
      WithoutTabKeepsOthers(st.tabs, gone, st.tabs[k]);
    }
  }

  /** What a step does to the ids of the store's tabs. */
  lemma StepTabIds(l: Live, step: Step, id: string)
    requires Enabled(l, step)
    ensures var had, has := HasTabId(l.store.tabs, id), HasTabId(Apply(l, step).store.tabs, id);
            match step
            case CreateReturns(k, ok, _, _) => has <==>
                had || (ok && l.pending[k].rowSaved && id == l.pending[k].tab.id)
            case SaveReturns(k) => has <==> had || id == l.pending[k].tab.id
            case DeleteReturns(k) => has <==> had && id != l.pending[k].id
            case _ => has <==> had
  {
    match step
    case CreateReturns(k, _, _, _) => AddTabIds(l.store, l.pending[k].tab, id);
    case SaveReturns(k) => AddTabIds(l.store, l.pending[k].tab, id);
    case DeleteReturns(k) => RemoveTabIds(l.store, l.pending[k].id, id);
    case RenameTab(_, _, _) => EditedTabIds(l.store.tabs, Apply(l, step).store.tabs, id);
    case CaptureAnswered(_) => EditedTabIds(l.store.tabs, Apply(l, step).store.tabs, id);
    case _ =>
  }

  lemma StepKeepsIssued(l: Live, step: Step, id: string)
    requires IdsApart(l) && Enabled(l, step) && HasTabId(Apply(l, step).store.tabs, id)
    ensures id in Apply(l, step).issued
  {
    StepTabIds(l, step, id);
    assert step.CreateReturns? || step.SaveReturns? ==> NewcomerApart(l, step.k);
  }

  lemma StepKeepsNewcomerApart(l: Live, step: Step, k: nat)
    requires IdsApart(l) && Enabled(l, step) && At(Apply(l, step), k)
    ensures NewcomerApart(Apply(l, step), k)
  {
    var p := Apply(l, step).pending[k];
    if IsNewcomer(p) {
      StepTabIds(l, step, p.tab.id);
      if k < |l.pending| {
        assert NewcomerApart(l, k);
        if step.CreateReturns? || step.SaveReturns? {
          assert PairApart(l, step.k, k);
        }
      }
    }
  }

  lemma StepKeepsPairApart(l: Live, step: Step, j: nat, k: nat)
    requires IdsApart(l) && Enabled(l, step) && At(Apply(l, step), j) && At(Apply(l, step), k)
    ensures PairApart(Apply(l, step), j, k)
  {
    if j < |l.pending| {
      assert NewcomerApart(l, j);
    }
    if k < |l.pending| {
      assert NewcomerApart(l, k);
    }
    if j < |l.pending| && k < |l.pending| {
      assert PairApart(l, j, k);
    }
  }

  lemma StepKeepsIdsApart(l: Live, step: Step)
    requires IdsApart(l) && Enabled(l, step)
    ensures IdsApart(Apply(l, step))
  {
    var l' := Apply(l, step);
    forall k | 0 <= k < |l'.store.tabs| ensures l'.store.tabs[k].id in l'.issued {
      StepKeepsIssued(l, step, l'.store.tabs[k].id);
    }
    forall k | 0 <= k < |l'.pending| ensures NewcomerApart(l', k) {
      StepKeepsNewcomerApart(l, step, k);
    }
    forall j, k | 0 <= j < |l'.pending| && 0 <= k < |l'.pending| ensures PairApart(l', j, k) {
      StepKeepsPairApart(l, step, j, k);
    }
  }

  // ---------- referential integrity ----------

  lemma StepKeepsSound(l: Live, step: Step)
    requires IdsApart(l) && Sound(l.store) && Enabled(l, step)
    requires step.ActivateTab? ==>
               ActiveSpace(l.store).None? || NamesTabOf(l.store.tabs, step.id, l.store.activeSpaceId)
    ensures Sound(Apply(l, step).store)
  {
    assert step.CreateReturns? || step.SaveReturns? ==> NewcomerApart(l, step.k);
    match step
    case CreateReturns(k, ok, _, _) =>
      if ok && l.pending[k].rowSaved {
        AddTabKeepsSound(l.store, l.pending[k].tab);
      }
    case SaveReturns(k) => AddTabKeepsSound(l.store, l.pending[k].tab);
    case DeleteReturns(k) => RemoveTabKeepsSound(l.store, l.pending[k].id);
    case RenameTab(id, title, _) => EditKeepsSound(l.store, Retitle(l.store, id, title));
    case ActivateTab(id) => ActivateKeepsSound(l.store, id);
    case CaptureAnswered(k) => EditKeepsSound(l.store, SetAgentSession(l.store, l.pending[k].id, l.pending[k].session));
    case _ =>
  }

  lemma {:induction false} RunsKeepIdsApart(store: Store, rows: seq<TabRow>, steps: seq<Step>)
    requires IsRun(Start(store, rows), steps)
    ensures IdsApart(After(Start(store, rows), steps))
  {
    if steps != [] {
      var front := steps[..|steps| - 1];
      RunsKeepIdsApart(store, rows, front);
      StepKeepsIdsApart(After(Start(store, rows), front), steps[|steps| - 1]);
    }
  }

  /** In every reachable state, however the awaited answers interleave, tab ids are unique and
      each space selects nothing or one of its own tabs. */
  lemma {:induction false} InterleavingIsSound(store: Store, rows: seq<TabRow>, steps: seq<Step>)
    requires Sound(store) && IsRun(Start(store, rows), steps) && ActivationsVisible(Start(store, rows), steps)
    ensures Sound(After(Start(store, rows), steps).store)
  {
    if steps != [] {
      var front := steps[..|steps| - 1];
      InterleavingIsSound(store, rows, front);
      RunsKeepIdsApart(store, rows, front);
      StepKeepsSound(After(Start(store, rows), front), steps[|steps| - 1]);
    }
  }

  // ---------- rows and tabs ----------

  /** The row of the id is already gone, and its tab is about to go. */
  predicate Leaving(l: Live, id: string) {
    exists k :: 0 <= k < |l.pending| && l.pending[k] == Closing(id, true)
  }

  predicate Brings(p: Pending, id: string) {
    Adds(p, id) && (p.Saving? || p.rowSaved)
  }

  /** The row of the id is already saved, and its tab is still to come. */
  predicate Coming(l: Live, id: string) {
    exists k :: 0 <= k < |l.pending| && Brings(l.pending[k], id)
  }

  predicate InStep(l: Live, id: string) {
    && (HasTabId(l.store.tabs, id) && !HasTab(l.rows, id) ==> Leaving(l, id))
    && (HasTab(l.rows, id) && !HasTabId(l.store.tabs, id) ==> Coming(l, id) || id in l.failed)
    && (Coming(l, id) ==> HasTab(l.rows, id))
    && (Leaving(l, id) ==> !HasTab(l.rows, id))
  }

  /** An id being closed is one the store has had, and is not about to be added. */
  predicate CloseKnown(l: Live, j: nat, k: nat)
    requires At(l, j) && At(l, k)
  {
    l.pending[j].Closing? ==> l.pending[j].id in l.issued && !Adds(l.pending[k], l.pending[j].id)
  }

  predicate ClosesKnown(l: Live) {
    forall j, k | 0 <= j < |l.pending| && 0 <= k < |l.pending| :: CloseKnown(l, j, k)
  }

  lemma StepKeepsCloseKnown(l: Live, step: Step, j: nat, k: nat)
    requires IdsApart(l) && ClosesKnown(l) && Enabled(l, step) && At(Apply(l, step), j) && At(Apply(l, step), k)
    requires step.CloseTab? ==> HasTabId(l.store.tabs, step.id)
    ensures CloseKnown(Apply(l, step), j, k)
  {
    if k < |l.pending| {
      assert NewcomerApart(l, k);
    }
    if j < |l.pending| {
      assert CloseKnown(l, j, j);
    }
    if j < |l.pending| && k < |l.pending| {
      assert CloseKnown(l, j, k);
    }
  }

  /** What a step does to the ids of the rows. */
  lemma StepRowIds(l: Live, step: Step, id: string)
    requires Enabled(l, step)
    ensures var had, has := HasTab(l.rows, id), HasTab(Apply(l, step).rows, id);
            match step
            case NewTab(tab, saved) => has <==> had || (saved && id == tab.id)
            case CreateReturns(k, ok, windowName, saved) =>
              has <==> had || (!l.pending[k].rowSaved && ok && Truthy(windowName) && saved && id == l.pending[k].tab.id)
            case CloseReturns(k, deleted) => has <==> had && !(deleted && id == l.pending[k].id)
            case _ => has <==> had
  {
    match step
    case NewTab(tab, _) => SetTabIds(l.rows, TabToRow(tab, CountIn(l.store.tabs, tab.spaceId)), id);
    case CreateReturns(k, _, windowName, _) =>
      var tab := l.pending[k].tab;
      SetTabIds(l.rows, TabToRow(tab.(windowName := windowName), CountIn(l.store.tabs, tab.spaceId)), id);
    case CloseReturns(k, _) => DeleteRowIds(l.rows, l.pending[k].id, id);
    case RenameTab(_, title, _) => EditedRowIds(l.rows, RetitleRow(l.rows, step.id, title), id);
    case CaptureNext(k, _) =>
      if l.pending[k].todo != [] {
        EditedRowIds(l.rows, SetRowSession(l.rows, l.pending[k].todo[0].0, l.pending[k].todo[0].1), id);
      }
    case _ =>
  }

  predicate Moves(step: Step, k: nat) {
    && (step.CreateReturns? || step.SaveReturns? || step.CloseReturns? || step.DeleteReturns?
        || step.CaptureNext? || step.CaptureAnswered?)
    && step.k == k
  }

  /** A pending action stays as it is unless the step is its own answer. */
  lemma StepPending(l: Live, step: Step, k: nat)
    requires Enabled(l, step) && At(l, k)
    ensures At(Apply(l, step), k) && (Apply(l, step).pending[k] == l.pending[k] || Moves(step, k))
  {
  }

  lemma StepLeaving(l: Live, step: Step, id: string)
    requires Enabled(l, step)
    ensures Leaving(l, id) ==> Leaving(Apply(l, step), id) || (step.DeleteReturns? && l.pending[step.k].id == id)
    ensures Leaving(Apply(l, step), id) ==>
              Leaving(l, id) || (step.CloseReturns? && step.deleted && l.pending[step.k].id == id)
    ensures step.CloseReturns? && step.deleted && l.pending[step.k].id == id ==> Leaving(Apply(l, step), id)
    ensures step.DeleteReturns? && l.pending[step.k].id == id ==> Leaving(l, id)
  {
    var l' := Apply(l, step);
    if Leaving(l, id) {
      var k :| 0 <= k < |l.pending| && l.pending[k] == Closing(id, true);
      StepPending(l, step, k);
    }
    if Leaving(l', id) {
      var k :| 0 <= k < |l'.pending| && l'.pending[k] == Closing(id, true);
      if k < |l.pending| {
        StepPending(l, step, k);
      }
    }
    if step.CloseReturns? && step.deleted && l.pending[step.k].id == id {
      assert l'.pending[step.k] == Closing(id, true);
    }
  }

  /** The answer that turns a pending creation with a saved row into a tab, or fails it. */
  predicate Resolves(l: Live, step: Step, id: string)
    requires Enabled(l, step)
  {
    && (step.SaveReturns? || (step.CreateReturns? && l.pending[step.k].rowSaved))
    && l.pending[step.k].tab.id == id
  }

  /** The step that saves the row of a tab still to come. */
  predicate Announces(l: Live, step: Step, id: string)
    requires Enabled(l, step)
  {
    || (step.NewTab? && step.saved && step.tab.id == id)
    || (step.CreateReturns? && !l.pending[step.k].rowSaved && step.ok && Truthy(step.windowName) && step.saved
        && l.pending[step.k].tab.id == id)
  }

  lemma StepComing(l: Live, step: Step, id: string)
    requires Enabled(l, step)
    ensures Coming(l, id) ==> Coming(Apply(l, step), id) || Resolves(l, step, id)
    ensures Coming(Apply(l, step), id) ==> Coming(l, id) || Announces(l, step, id)
    ensures Resolves(l, step, id) ==> Coming(l, id)
  {
    var l' := Apply(l, step);
    if Coming(l, id) {
      var k :| 0 <= k < |l.pending| && Brings(l.pending[k], id);
      StepPending(l, step, k);
      assert l'.pending[k] == l.pending[k] ==> Brings(l'.pending[k], id);
    }
    if Coming(l', id) {
      var k :| 0 <= k < |l'.pending| && Brings(l'.pending[k], id);
      if k < |l.pending| {
        StepPending(l, step, k);
        assert l'.pending[k] == l.pending[k] ==> Brings(l.pending[k], id);
      }
    }
    if Resolves(l, step, id) {
      assert Brings(l.pending[step.k], id);
    }
  }

  lemma AnnouncedIsComing(l: Live, step: Step, id: string)
    requires Enabled(l, step) && Announces(l, step, id)
    ensures Coming(Apply(l, step), id)
  {
    var k := if step.NewTab? then |l.pending| else step.k;
    assert Brings(Apply(l, step).pending[k], id);
  }

  /** An id that is being closed is known, and nothing pending adds it. */
  lemma ClosingIsApart(l: Live, j: nat)
    requires ClosesKnown(l) && At(l, j) && l.pending[j].Closing?
    ensures l.pending[j].id in l.issued
    ensures forall k | 0 <= k < |l.pending| :: !Adds(l.pending[k], l.pending[j].id)
  {
    assert CloseKnown(l, j, j);
    forall k | 0 <= k < |l.pending| ensures !Adds(l.pending[k], l.pending[j].id) {
      assert CloseKnown(l, j, k);
    }
  }

  lemma LeavingIsApart(l: Live, id: string)
    requires ClosesKnown(l) && Leaving(l, id)
    ensures id in l.issued && forall k | 0 <= k < |l.pending| :: !Adds(l.pending[k], id)
  {
    var j :| 0 <= j < |l.pending| && l.pending[j] == Closing(id, true);
    ClosingIsApart(l, j);
  }

  lemma StepKeepsInStep(l: Live, step: Step, id: string)
    requires IdsApart(l) && ClosesKnown(l) && InStep(l, id) && Enabled(l, step)
    ensures InStep(Apply(l, step), id)
  {
    StepTabIds(l, step, id);
    StepRowIds(l, step, id);
    StepLeaving(l, step, id);
    StepComing(l, step, id);
    if Leaving(l, id) {
      LeavingIsApart(l, id);
    }
    if step.CloseReturns? {
      ClosingIsApart(l, step.k);
    }
    if Announces(l, step, id) {
      AnnouncedIsComing(l, step, id);
    }
    if step.CreateReturns? {
      assert NewcomerApart(l, step.k);
    }
  }

  lemma {:induction false} RunsStayInStep(store: Store, rows: seq<TabRow>, steps: seq<Step>)
    requires IsRun(Start(store, rows), steps) && ClosesPresent(Start(store, rows), steps)
    requires forall id :: HasTabId(store.tabs, id) <==> HasTab(rows, id)
    ensures ClosesKnown(After(Start(store, rows), steps))
    ensures forall id :: InStep(After(Start(store, rows), steps), id)
  {
    if steps != [] {
      var front, step := steps[..|steps| - 1], steps[|steps| - 1];
      RunsStayInStep(store, rows, front);
      RunsKeepIdsApart(store, rows, front);
      var l, l' := After(Start(store, rows), front), After(Start(store, rows), steps);
      forall id ensures InStep(l', id) {
        StepKeepsInStep(l, step, id);
      }
      forall j, k | 0 <= j < |l'.pending| && 0 <= k < |l'.pending| ensures CloseKnown(l', j, k) {
        StepKeepsCloseKnown(l, step, j, k);
      }
    }
  }

  predicate Quiescent(l: Live) {
    forall k | 0 <= k < |l.pending| :: l.pending[k].Settled?
  }

  /** Once nothing is pending, every tab of the store has its row, and every other row belongs to
      a tab whose creation failed after the row was saved. */
  lemma RestIsInStep(store: Store, rows: seq<TabRow>, steps: seq<Step>)
    requires IsRun(Start(store, rows), steps) && ClosesPresent(Start(store, rows), steps)
    requires forall id :: HasTabId(store.tabs, id) <==> HasTab(rows, id)
    requires Quiescent(After(Start(store, rows), steps))
    ensures var l := After(Start(store, rows), steps);
            forall id :: (HasTabId(l.store.tabs, id) ==> HasTab(l.rows, id))
                      && (HasTab(l.rows, id) ==> HasTabId(l.store.tabs, id) || id in l.failed)
  {
    var l := After(Start(store, rows), steps);
    RunsStayInStep(store, rows, steps);
    forall id ensures (HasTabId(l.store.tabs, id) ==> HasTab(l.rows, id))
                   && (HasTab(l.rows, id) ==> HasTabId(l.store.tabs, id) || id in l.failed)
    {
      assert InStep(l, id);
    }
  }
}
