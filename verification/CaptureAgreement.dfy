/**
  When the agent session of a tab and of its row agree, over every interleaving of the captures
  (tabStore.ts): a save changes the row when it is sent and the tab when it is answered, so the two
  agree at rest exactly when the last save sent for the tab was the last one answered.
*/
module CaptureAgreement {
  import opened Wrappers
  import opened StoreTypes
  import opened TabState
  import opened Persistence
  import opened StoreInterleaving

  // ---------- the history of one tab's saves ----------

  function OrElse(a: Option<string>, b: Option<string>): Option<string> {
    if a.Some? then a else b
  }

  /** The session the step sends for the tab, in a save that goes through. */
  function Sends(l: Live, step: Step, id: string): Option<string>
    requires Enabled(l, step)
  {
    if step.CaptureNext? && step.saved && l.pending[step.k].todo != [] && l.pending[step.k].todo[0].0 == id
    then Some(l.pending[step.k].todo[0].1) else None
  }

  /** The session whose save the step answers. */
  function Answers(l: Live, step: Step, id: string): Option<string>
    requires Enabled(l, step)
  {
    if step.CaptureAnswered? && l.pending[step.k].saved && l.pending[step.k].id == id
    then Some(l.pending[step.k].session) else None
  }

  function LastSent(start: Live, steps: seq<Step>, id: string): Option<string>
    requires IsRun(start, steps)
  {
    if steps == [] then None
    else
      var front := steps[..|steps| - 1];
      OrElse(Sends(After(start, front), steps[|steps| - 1], id), LastSent(start, front, id))
  }

  function LastAnswered(start: Live, steps: seq<Step>, id: string): Option<string>
    requires IsRun(start, steps)
  {
    if steps == [] then None
    else
      var front := steps[..|steps| - 1];
      OrElse(Answers(After(start, front), steps[|steps| - 1], id), LastAnswered(start, front, id))
  }

  // ---------- captures and newcomers ----------

  predicate Names(todo: seq<(string, string)>, id: string) {
    exists i :: 0 <= i < |todo| && todo[i].0 == id
  }

  predicate Targets(p: Pending, id: string) {
    || (p.Capturing? && Names(p.todo, id))
    || (p.CaptureSaving? && (p.id == id || Names(p.rest, id)))
  }

  predicate TargetApart(l: Live, j: nat, k: nat, id: string)
    requires At(l, j) && At(l, k)
  {
    Targets(l.pending[j], id) ==> id in l.issued && !Adds(l.pending[k], id)
  }

  /** Captures are only applied to tabs the store has had, never to ones still to be added. */
  ghost predicate TargetsApart(l: Live) {
    forall j, k, id | 0 <= j < |l.pending| && 0 <= k < |l.pending| :: TargetApart(l, j, k, id)
  }

  lemma StepTargets(l: Live, step: Step, j: nat, id: string)
    requires Enabled(l, step) && At(Apply(l, step), j) && Targets(Apply(l, step).pending[j], id)
    ensures (At(l, j) && Targets(l.pending[j], id)) || (step.BeginCapture? && HasTabId(l.store.tabs, id))
  {
    if step.BeginCapture? && j == |l.pending| {
      var i :| 0 <= i < |step.todo| && step.todo[i].0 == id;
      assert Matches(l, step.todo[i]);
    } else if step.CaptureNext? && step.k == j {
      var todo := l.pending[j].todo;
      if Names(todo[1..], id) {
        var i :| 0 <= i < |todo[1..]| && todo[1..][i].0 == id;
        assert todo[i + 1].0 == id;
      }
    }
  }

  /** A pending action that still adds a tab has done so before, or the tab is brand new. */
  lemma StepAdds(l: Live, step: Step, k: nat, id: string)
    requires Enabled(l, step) && At(Apply(l, step), k) && Adds(Apply(l, step).pending[k], id)
    ensures (At(l, k) && Adds(l.pending[k], id)) || id !in l.issued
  {
  }

  lemma StepKeepsTargetApart(l: Live, step: Step, j: nat, k: nat, id: string)
    requires IdsApart(l) && TargetsApart(l) && Enabled(l, step) && At(Apply(l, step), j) && At(Apply(l, step), k)
    ensures TargetApart(Apply(l, step), j, k, id)
  {
    if At(l, j) {
      assert TargetApart(l, j, j, id);
      if At(l, k) {
        assert TargetApart(l, j, k, id);
      }
    }
    if At(l, k) {
      assert NewcomerApart(l, k);
    }
    if Targets(Apply(l, step).pending[j], id) {
      StepTargets(l, step, j, id);
    }
    if Adds(Apply(l, step).pending[k], id) {
      StepAdds(l, step, k, id);
    }
  }

  lemma {:induction false} RunsKeepTargetsApart(store: Store, rows: seq<TabRow>, steps: seq<Step>)
    requires IsRun(Start(store, rows), steps)
    ensures TargetsApart(After(Start(store, rows), steps))
  {
    if steps != [] {
      var front, step := steps[..|steps| - 1], steps[|steps| - 1];
      RunsKeepTargetsApart(store, rows, front);
      RunsKeepIdsApart(store, rows, front);
      var l := After(Start(store, rows), front);
      forall j, k, id | 0 <= j < |Apply(l, step).pending| && 0 <= k < |Apply(l, step).pending|
        ensures TargetApart(Apply(l, step), j, k, id)
      {
        StepKeepsTargetApart(l, step, j, k, id);
      }
    }
  }

  // ---------- what tab and row carry ----------

  predicate TabsCarry(tabs: seq<Tab>, id: string, session: Option<string>) {
    forall k | 0 <= k < |tabs| && tabs[k].id == id :: tabs[k].agentSessionId == session
  }

  predicate RowsCarry(rows: seq<TabRow>, id: string, session: Option<string>) {
    forall k | 0 <= k < |rows| && rows[k].id == id :: rows[k].agentSessionId == session
  }

  /** The session a tab had at the start, none if it was not there. */
  function Origin(tabs: seq<Tab>, id: string): (session: Option<string>)
    ensures !HasTabId(tabs, id) ==> session.None?
  {
    if tabs == [] then None
    else if tabs[0].id == id then
      assert HasTabId(tabs, id);
      tabs[0].agentSessionId
    else
      assert HasTabId(tabs[1..], id) ==> HasTabId(tabs, id) by {
        if HasTabId(tabs[1..], id) {
          var k :| 0 <= k < |tabs[1..]| && tabs[1..][k].id == id;
          assert tabs[k + 1].id == id;
        }
      }
      Origin(tabs[1..], id)
  }

  datatype History = History(origin: Option<string>, sent: Option<string>, answered: Option<string>)

  predicate Untouched(h: History) {
    h.origin.None? && h.sent.None? && h.answered.None?
  }

  predicate NewcomerUntouched(l: Live, k: nat, id: string, h: History)
    requires At(l, k)
  {
    Adds(l.pending[k], id) ==> Untouched(h) && l.pending[k].tab.agentSessionId.None?
  }

  /** The tab carries the last session answered and the row the last one sent. */
  predicate Carried(l: Live, id: string, h: History) {
    && TabsCarry(l.store.tabs, id, OrElse(h.answered, h.origin))
    && RowsCarry(l.rows, id, OrElse(h.sent, h.origin))
    && (id !in l.issued ==> Untouched(h) && !HasTab(l.rows, id))
    && (forall k | 0 <= k < |l.pending| :: NewcomerUntouched(l, k, id, h))
  }

  function Later(l: Live, step: Step, id: string, h: History): History
    requires Enabled(l, step)
  {
    h.(sent := OrElse(Sends(l, step, id), h.sent), answered := OrElse(Answers(l, step, id), h.answered))
  }

  lemma {:induction false} RemovalCarries(tabs: seq<Tab>, gone: string, id: string, session: Option<string>)
    requires TabsCarry(tabs, id, session)
    ensures TabsCarry(WithoutTab(tabs, gone), id, session)
  {
    forall k | 0 <= k < |WithoutTab(tabs, gone)| && WithoutTab(tabs, gone)[k].id == id
      ensures WithoutTab(tabs, gone)[k].agentSessionId == session
    {
      WithoutTabKeepsOthers(tabs, gone, WithoutTab(tabs, gone)[k]);
    }
  }

  lemma {:induction false} DeletionCarries(rows: seq<TabRow>, gone: string, id: string, session: Option<string>)
    requires RowsCarry(rows, id, session)
    ensures RowsCarry(DeleteRow(rows, gone), id, session)
  {
    if rows != [] {
      DeletionCarries(rows[1..], gone, id, session);
    }
  }

  lemma {:induction false} SavingCarries(rows: seq<TabRow>, row: TabRow, id: string, session: Option<string>)
    requires RowsCarry(rows, id, session) && (row.id == id ==> row.agentSessionId == session)
    ensures RowsCarry(SetTab(rows, row), id, session)
  {
    if rows != [] && rows[0].id != row.id {
      SavingCarries(rows[1..], row, id, session);
    }
  }

  /** The rows after a step. */
  lemma StepRowsCarry(l: Live, step: Step, id: string, h: History)
    requires Carried(l, id, h) && Enabled(l, step)
    ensures RowsCarry(Apply(l, step).rows, id, OrElse(Later(l, step, id, h).sent, h.origin))
  {
    match step
    case NewTab(tab, saved) =>
      SavingCarries(l.rows, TabToRow(tab, CountIn(l.store.tabs, tab.spaceId)), id, OrElse(h.sent, h.origin));
    case CreateReturns(k, _, windowName, _) =>
      var tab := l.pending[k].tab;
      assert NewcomerUntouched(l, k, id, h);
      if !l.pending[k].rowSaved {
        SavingCarries(l.rows, TabToRow(tab.(windowName := windowName), CountIn(l.store.tabs, tab.spaceId)),
                      id, OrElse(h.sent, h.origin));
      }
    case CloseReturns(k, _) => DeletionCarries(l.rows, l.pending[k].id, id, OrElse(h.sent, h.origin));
    case _ =>
  }

  /** The tabs after a step. */
  lemma StepTabsCarry(l: Live, step: Step, id: string, h: History)
    requires Carried(l, id, h) && Enabled(l, step)
    ensures TabsCarry(Apply(l, step).store.tabs, id, OrElse(Later(l, step, id, h).answered, h.origin))
  {
    match step
    case CreateReturns(k, _, _, _) => assert NewcomerUntouched(l, k, id, h);
    case SaveReturns(k) => assert NewcomerUntouched(l, k, id, h);
    case DeleteReturns(k) => RemovalCarries(l.store.tabs, l.pending[k].id, id, OrElse(h.answered, h.origin));
    case _ =>
  }

  /** A step touches only tabs that are issued and not still to be added. */
  lemma TouchedIsTarget(l: Live, step: Step, id: string)
    requires TargetsApart(l) && Enabled(l, step) && (Sends(l, step, id).Some? || Answers(l, step, id).Some?)
    ensures id in l.issued && forall k | 0 <= k < |l.pending| :: !Adds(l.pending[k], id)
  {
    assert Targets(l.pending[step.k], id) by {
      if step.CaptureNext? {
        assert l.pending[step.k].todo[0].0 == id;
      }
    }
    forall k | 0 <= k < |l.pending| ensures id in l.issued && !Adds(l.pending[k], id) {
      assert TargetApart(l, step.k, k, id);
    }
    assert TargetApart(l, step.k, step.k, id);
  }

  lemma StepKeepsUnissued(l: Live, step: Step, id: string, h: History)
    requires IdsApart(l) && TargetsApart(l) && Carried(l, id, h) && Enabled(l, step) && id !in Apply(l, step).issued
    ensures Untouched(Later(l, step, id, h)) && !HasTab(Apply(l, step).rows, id)
  {
    if Sends(l, step, id).Some? || Answers(l, step, id).Some? {
      TouchedIsTarget(l, step, id);
    }
    StepRowIds(l, step, id);
    if step.CreateReturns? {
      assert NewcomerApart(l, step.k);
    }
  }

  lemma StepKeepsNewcomerUntouched(l: Live, step: Step, k: nat, id: string, h: History)
    requires TargetsApart(l) && Carried(l, id, h) && Enabled(l, step) && At(Apply(l, step), k)
    ensures NewcomerUntouched(Apply(l, step), k, id, Later(l, step, id, h))
  {
    if Adds(Apply(l, step).pending[k], id) {
      StepAdds(l, step, k, id);
      if At(l, k) {
        assert NewcomerUntouched(l, k, id, h);
      }
      if Sends(l, step, id).Some? || Answers(l, step, id).Some? {
        TouchedIsTarget(l, step, id);
      }
    }
  }

  lemma StepKeepsCarried(l: Live, step: Step, id: string, h: History)
    requires IdsApart(l) && TargetsApart(l) && Carried(l, id, h) && Enabled(l, step)
    ensures Carried(Apply(l, step), id, Later(l, step, id, h))
  {
    StepTabsCarry(l, step, id, h);
    StepRowsCarry(l, step, id, h);
    if id !in Apply(l, step).issued {
      StepKeepsUnissued(l, step, id, h);
    }
    forall k | 0 <= k < |Apply(l, step).pending|
      ensures NewcomerUntouched(Apply(l, step), k, id, Later(l, step, id, h))
    {
      StepKeepsNewcomerUntouched(l, step, k, id, h);
    }
  }

  // ---------- saves under way ----------


  predicate IsSave(p: Pending, id: string) {
    p.CaptureSaving? && p.saved && p.id == id
  }

  /** Every save sent is answered or still pending. */
  predicate Counted(l: Live, id: string, h: History) {
    && (h.answered.Some? || (exists k :: 0 <= k < |l.pending| && IsSave(l.pending[k], id)) <==> h.sent.Some?)
  }

  lemma StepKeepsCounted(l: Live, step: Step, id: string, h: History)
    requires Counted(l, id, h) && Enabled(l, step)
    ensures Counted(Apply(l, step), id, Later(l, step, id, h))
  {
    var l' := Apply(l, step);
    if exists k :: 0 <= k < |l.pending| && IsSave(l.pending[k], id) {
      var k :| 0 <= k < |l.pending| && IsSave(l.pending[k], id);
      StepPending(l, step, k);
      assert IsSave(l'.pending[k], id) || Answers(l, step, id).Some?;
    }
    if exists k :: 0 <= k < |l'.pending| && IsSave(l'.pending[k], id) {
      var k :| 0 <= k < |l'.pending| && IsSave(l'.pending[k], id);
      if k < |l.pending| {
        StepPending(l, step, k);
        assert IsSave(l.pending[k], id) || Sends(l, step, id).Some?;
      }
    }
    if Sends(l, step, id).Some? {
      assert IsSave(l'.pending[step.k], id);
    }
    if Answers(l, step, id).Some? {
      assert IsSave(l.pending[step.k], id);
    }
  }

  // ---------- runs ----------

  /** Tabs and rows agree on everyone's session to begin with. */
  predicate StartsAgreed(store: Store, rows: seq<TabRow>) {
    && UniqueIds(store.tabs)
    && (forall k | 0 <= k < |rows| ::
        HasTabId(store.tabs, rows[k].id) && rows[k].agentSessionId == Origin(store.tabs, rows[k].id))
  }

  lemma {:induction false} OriginOfTab(tabs: seq<Tab>, k: nat)
    requires UniqueIds(tabs) && k < |tabs|
    ensures Origin(tabs, tabs[k].id) == tabs[k].agentSessionId
  {
    if k > 0 {
      assert tabs[0].id != tabs[k].id;
      OriginOfTab(tabs[1..], k - 1);
    }
  }

  lemma StartIsCarried(store: Store, rows: seq<TabRow>, id: string)
    requires StartsAgreed(store, rows)
    ensures Carried(Start(store, rows), id, History(Origin(store.tabs, id), None, None))
  {
    forall k | 0 <= k < |store.tabs| && store.tabs[k].id == id
      ensures store.tabs[k].agentSessionId == Origin(store.tabs, id)
    {
      OriginOfTab(store.tabs, k);
    }
    if HasTabId(store.tabs, id) {
      var k :| 0 <= k < |store.tabs| && store.tabs[k].id == id;
      assert store.tabs[k] in store.tabs;
    }
  }

  function HistoryOf(store: Store, rows: seq<TabRow>, steps: seq<Step>, id: string): History
    requires IsRun(Start(store, rows), steps)
  {
    History(Origin(store.tabs, id), LastSent(Start(store, rows), steps, id),
        LastAnswered(Start(store, rows), steps, id))
  }

  /** In every run a tab carries the last session answered for it, and its row the last one sent. */
  lemma {:induction false} RunsAreCarried(store: Store, rows: seq<TabRow>, steps: seq<Step>, id: string)
    requires StartsAgreed(store, rows) && IsRun(Start(store, rows), steps)
    ensures Carried(After(Start(store, rows), steps), id, HistoryOf(store, rows, steps, id))
    ensures Counted(After(Start(store, rows), steps), id, HistoryOf(store, rows, steps, id))
  {
    if steps == [] {
      StartIsCarried(store, rows, id);
    } else {
      var front, step := steps[..|steps| - 1], steps[|steps| - 1];
      RunsAreCarried(store, rows, front, id);
      RunsKeepIdsApart(store, rows, front);
      RunsKeepTargetsApart(store, rows, front);
      var l, h := After(Start(store, rows), front), HistoryOf(store, rows, front, id);
      StepKeepsCarried(l, step, id, h);
      StepKeepsCounted(l, step, id, h);
      assert HistoryOf(store, rows, steps, id) == Later(l, step, id, h);
    }
  }

  // ---------- main results ----------

  /** The tab and its row have the same agent session. */
  predicate SessionsAgree(l: Live, id: string) {
    forall i, j | 0 <= i < |l.store.tabs| && 0 <= j < |l.rows| && l.store.tabs[i].id == id && l.rows[j].id == id ::
      l.store.tabs[i].agentSessionId == l.rows[j].agentSessionId
  }

  lemma CarriedAgree(l: Live, id: string, h: History)
    requires Carried(l, id, h) && HasTabId(l.store.tabs, id) && HasTab(l.rows, id)
    ensures SessionsAgree(l, id) <==> OrElse(h.answered, h.origin) == OrElse(h.sent, h.origin)
  {
    var i :| 0 <= i < |l.store.tabs| && l.store.tabs[i].id == id;
    var j :| 0 <= j < |l.rows| && l.rows[j].id == id;
    assert SessionsAgree(l, id) ==> l.store.tabs[i].agentSessionId == l.rows[j].agentSessionId;
  }

  /** At rest, a tab and its row agree exactly when the last save sent for the tab was the last one
      answered. */
  lemma RestAgreesIff(store: Store, rows: seq<TabRow>, steps: seq<Step>, id: string)
    requires StartsAgreed(store, rows) && IsRun(Start(store, rows), steps)
               && Quiescent(After(Start(store, rows), steps))
    requires HasTabId(After(Start(store, rows), steps).store.tabs, id)
               && HasTab(After(Start(store, rows), steps).rows, id)
    ensures SessionsAgree(After(Start(store, rows), steps), id) <==>
            LastSent(Start(store, rows), steps, id) == LastAnswered(Start(store, rows), steps, id)
  {
    RunsAreCarried(store, rows, steps, id);
    CarriedAgree(After(Start(store, rows), steps), id, HistoryOf(store, rows, steps, id));
  }

  /** The answer to a save leaves tab and row agreeing exactly when its session is the last sent. */
  lemma AnswerAgreesIff(store: Store, rows: seq<TabRow>, steps: seq<Step>, k: nat)
    requires StartsAgreed(store, rows) && IsRun(Start(store, rows), steps)
    requires Enabled(After(Start(store, rows), steps), CaptureAnswered(k))
    requires After(Start(store, rows), steps).pending[k].saved
    requires HasTabId(After(Start(store, rows), steps).store.tabs, After(Start(store, rows), steps).pending[k].id)
    requires HasTab(After(Start(store, rows), steps).rows, After(Start(store, rows), steps).pending[k].id)
    ensures var l := After(Start(store, rows), steps);
            SessionsAgree(Apply(l, CaptureAnswered(k)), l.pending[k].id) <==>
            LastSent(Start(store, rows), steps, l.pending[k].id) == Some(l.pending[k].session)
  {
    var l := After(Start(store, rows), steps);
    var id := l.pending[k].id;
    var h := HistoryOf(store, rows, steps, id);
    RunsAreCarried(store, rows, steps, id);
    RunsKeepIdsApart(store, rows, steps);
    RunsKeepTargetsApart(store, rows, steps);
    StepKeepsCarried(l, CaptureAnswered(k), id, h);
    StepTabIds(l, CaptureAnswered(k), id);
    assert IsSave(l.pending[k], id) && h.sent.Some?;
    CarriedAgree(Apply(l, CaptureAnswered(k)), id, Later(l, CaptureAnswered(k), id, h));
  }

  lemma RestingTabHasRow(store: Store, rows: seq<TabRow>, steps: seq<Step>, id: string)
    requires forall id :: HasTabId(store.tabs, id) <==> HasTab(rows, id)
    requires IsRun(Start(store, rows), steps) && ClosesPresent(Start(store, rows), steps)
    requires Quiescent(After(Start(store, rows), steps)) && HasTabId(After(Start(store, rows), steps).store.tabs, id)
    ensures HasTab(After(Start(store, rows), steps).rows, id)
  {
    RunsStayInStep(store, rows, steps);
    assert InStep(After(Start(store, rows), steps), id);
  }

  /** At rest, every tab agrees with its row exactly when for every tab the last save sent was the
      last one answered. */
  lemma RestAgreesEverywhereIff(store: Store, rows: seq<TabRow>, steps: seq<Step>)
    requires StartsAgreed(store, rows) && (forall id :: HasTabId(store.tabs, id) <==> HasTab(rows, id))
    requires IsRun(Start(store, rows), steps) && ClosesPresent(Start(store, rows), steps)
    requires Quiescent(After(Start(store, rows), steps))
    ensures var l := After(Start(store, rows), steps);
            (forall id | HasTabId(l.store.tabs, id) :: SessionsAgree(l, id)) <==>
            (forall id | HasTabId(l.store.tabs, id) ::
               LastSent(Start(store, rows), steps, id) == LastAnswered(Start(store, rows), steps, id))
  {
    var l := After(Start(store, rows), steps);
    forall id | HasTabId(l.store.tabs, id)
      ensures SessionsAgree(l, id) <==>
              LastSent(Start(store, rows), steps, id) == LastAnswered(Start(store, rows), steps, id)
    {
      RestingTabHasRow(store, rows, steps, id);
      RestAgreesIff(store, rows, steps, id);
    }
  }

  // ---------- one save at a time ----------

  predicate Idle(l: Live, id: string) {
    forall k | 0 <= k < |l.pending| :: !IsSave(l.pending[k], id)
  }

  /** No save of a tab is sent while another one of it is pending. */
  predicate OneSaveAtATime(start: Live, steps: seq<Step>, id: string)
    requires IsRun(start, steps)
  {
    steps == [] ||
    var front := steps[..|steps| - 1];
    OneSaveAtATime(start, front, id)
    && (Sends(After(start, front), steps[|steps| - 1], id).Some? ==> Idle(After(start, front), id))
  }

  /** At most one save is pending, and it is the last sent; without one, all are answered. */
  predicate Serial(l: Live, id: string, sent: Option<string>, answered: Option<string>) {
    && (forall k | 0 <= k < |l.pending| && IsSave(l.pending[k], id) :: sent == Some(l.pending[k].session))
    && (forall j, k | 0 <= j < k < |l.pending| :: !(IsSave(l.pending[j], id) && IsSave(l.pending[k], id)))
    && (Idle(l, id) ==> sent == answered)
  }

  /** How a step changes the pending saves of a tab. */
  lemma StepSaves(l: Live, step: Step, id: string, k: nat)
    requires Enabled(l, step) && At(Apply(l, step), k)
    ensures IsSave(Apply(l, step).pending[k], id) <==>
            || (At(l, k) && IsSave(l.pending[k], id) && !(Answers(l, step, id).Some? && k == step.k))
            || (Sends(l, step, id).Some? && k == step.k)
    ensures At(l, k) && IsSave(Apply(l, step).pending[k], id) && IsSave(l.pending[k], id) ==>
              Apply(l, step).pending[k] == l.pending[k]
  {
    if At(l, k) {
      StepPending(l, step, k);
    }
  }

  lemma StepKeepsSerial(l: Live, step: Step, id: string, sent: Option<string>, answered: Option<string>)
    requires Serial(l, id, sent, answered) && Enabled(l, step)
    requires Sends(l, step, id).Some? ==> Idle(l, id)
    ensures Serial(Apply(l, step), id, OrElse(Sends(l, step, id), sent), OrElse(Answers(l, step, id), answered))
  {
    var l' := Apply(l, step);
    assert |l'.pending| >= |l.pending|;
    forall k | 0 <= k < |l'.pending|
      ensures IsSave(l'.pending[k], id) <==>
              || (k < |l.pending| && IsSave(l.pending[k], id) && !(Answers(l, step, id).Some? && k == step.k))
              || (Sends(l, step, id).Some? && k == step.k)
      ensures k < |l.pending| && IsSave(l'.pending[k], id) && IsSave(l.pending[k], id) ==> l'.pending[k] == l.pending[k]
    {
      StepSaves(l, step, id, k);
    }
  }

  lemma {:induction false} RunsStaySerial(start: Live, steps: seq<Step>, id: string)
    requires IsRun(start, steps) && start.pending == [] && OneSaveAtATime(start, steps, id)
    ensures Serial(After(start, steps), id, LastSent(start, steps, id), LastAnswered(start, steps, id))
  {
    if steps != [] {
      var front := steps[..|steps| - 1];
      RunsStaySerial(start, front, id);
      StepKeepsSerial(After(start, front), steps[|steps| - 1], id, LastSent(start, front, id),
          LastAnswered(start, front, id));
    }
  }

  /** If no save of a tab is sent while another one of it is pending, tab and row agree at rest. */
  lemma SerialSavesAgree(store: Store, rows: seq<TabRow>, steps: seq<Step>, id: string)
    requires StartsAgreed(store, rows) && IsRun(Start(store, rows), steps)
    requires OneSaveAtATime(Start(store, rows), steps, id)
    ensures Quiescent(After(Start(store, rows), steps)) ==> SessionsAgree(After(Start(store, rows), steps), id)
  {
    RunsStaySerial(Start(store, rows), steps, id);
    RunsAreCarried(store, rows, steps, id);
  }

  // ---------- two saves at a time ----------

  lemma Extend(start: Live, steps: seq<Step>, l: Live, step: Step) returns (steps': seq<Step>, l': Live)
    requires IsRun(start, steps) && After(start, steps) == l && Enabled(l, step)
    ensures steps' == steps + [step] && l' == Apply(l, step)
    ensures IsRun(start, steps') && After(start, steps') == l'
  {
    steps', l' := steps + [step], Apply(l, step);
    assert steps'[..|steps|] == steps;
  }

  lemma BeginBoth(tab: Tab, spaces: seq<Space>) returns (steps: seq<Step>, l: Live)
    requires tab.TerminalLike() && tab.agentSessionId.None?
    ensures var start := Start(Store([], spaces, [tab], ""), [TabToRow(tab, 0)]);
            && IsRun(start, steps) && After(start, steps) == l
            && l == start.(pending := [Capturing([(tab.id, "old")]), Capturing([(tab.id, "new")])])
  {
    var start := Start(Store([], spaces, [tab], ""), [TabToRow(tab, 0)]);
    assert start.store.tabs[0] == tab;
    steps, l := Extend(start, [], start, BeginCapture([(tab.id, "old")]));
    assert l.store.tabs[0] == tab;
    steps, l := Extend(start, steps, l, BeginCapture([(tab.id, "new")]));
  }

  lemma OneRowGetsSession(row: TabRow, session: string)
    ensures SetRowSession([row], row.id, session) == [row.(agentSessionId := Some(session))]
  {
  }

  /** Both captures have sent their saves, in order, and the row holds the newer session. */
  lemma SendBoth(tab: Tab, spaces: seq<Space>) returns (steps: seq<Step>, l: Live)
    requires tab.TerminalLike() && tab.agentSessionId.None?
    ensures var start := Start(Store([], spaces, [tab], ""), [TabToRow(tab, 0)]);
            IsRun(start, steps) && After(start, steps) == l
    ensures l.pending == [CaptureSaving(tab.id, "old", [], true), CaptureSaving(tab.id, "new", [], true)]
    ensures l.rows == [TabToRow(tab.(agentSessionId := Some("new")), 0)]
    ensures l.store == Store([], spaces, [tab], "")
  {
    var row := TabToRow(tab, 0);
    var start := Start(Store([], spaces, [tab], ""), [row]);
    steps, l := BeginBoth(tab, spaces);
    assert [(tab.id, "old")][1..] == [] && [(tab.id, "new")][1..] == [];
    OneRowGetsSession(row, "old");
    steps, l := Extend(start, steps, l, CaptureNext(0, true));
    OneRowGetsSession(row.(agentSessionId := Some("old")), "new");
    steps, l := Extend(start, steps, l, CaptureNext(1, true));
  }

  /** Two captures of one terminal or chat tab whose saves answer out of order leave the older one
      in the store and the newer one in the row, with nothing pending to repair it. */
  lemma CapturesCanDiverge(tab: Tab, spaces: seq<Space>) returns (steps: seq<Step>)
    requires tab.TerminalLike() && tab.agentSessionId.None?
    ensures var start := Start(Store([], spaces, [tab], ""), [TabToRow(tab, 0)]);
            && IsRun(start, steps) && Quiescent(After(start, steps))
            && After(start, steps).store.tabs == [tab.(agentSessionId := Some("old"))]
            && After(start, steps).rows == [TabToRow(tab.(agentSessionId := Some("new")), 0)]
  {
    var start := Start(Store([], spaces, [tab], ""), [TabToRow(tab, 0)]);
    var l;
    steps, l := SendBoth(tab, spaces);
    steps, l := Extend(start, steps, l, CaptureAnswered(1));
    steps, l := Extend(start, steps, l, CaptureAnswered(0));
    assert l.pending == [Capturing([]), Capturing([])];
    assert l.store.tabs == [tab.(agentSessionId := Some("old"))];
    steps, l := Extend(start, steps, l, CaptureNext(0, true));
    steps, l := Extend(start, steps, l, CaptureNext(1, true));
  }
}
