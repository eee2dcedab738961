/**
  When a tab and its row agree in every field, over every interleaving of the store's actions
  (tabStore.ts): as long as renames are of tabs the store has and their saves go through, only the
  agent session can differ.
*/
module RowAgreement {
  import opened StoreTypes
  import opened TabState
  import opened Persistence
  import opened StoreInterleaving
  import opened CaptureAgreement

  /** The row is the tab's but for the agent session. */
  predicate Mirrors(row: TabRow, t: Tab) {
    RowOf(row, t.(agentSessionId := row.agentSessionId))
  }

  predicate RowsMirror(rows: seq<TabRow>, t: Tab) {
    forall j | 0 <= j < |rows| && rows[j].id == t.id :: Mirrors(rows[j], t)
  }

  predicate TabMirrored(l: Live, id: string, i: nat)
    requires i < |l.store.tabs|
  {
    l.store.tabs[i].id == id ==> RowsMirror(l.rows, l.store.tabs[i])
  }

  predicate NewcomerMirrored(l: Live, id: string, k: nat)
    requires At(l, k)
  {
    Brings(l.pending[k], id) ==> RowsMirror(l.rows, l.pending[k].tab)
  }

  /** The rows mirror the tab, in the store or still to be added to it. */
  predicate Mirrored(l: Live, id: string) {
    && (forall i | 0 <= i < |l.store.tabs| :: TabMirrored(l, id, i))
    && (forall k | 0 <= k < |l.pending| :: NewcomerMirrored(l, id, k))
  }

  // ---------- the rows of a tab over a step ----------

  lemma {:induction false} SetTabIsUnique(rows: seq<TabRow>, row: TabRow)
    requires DistinctIds(rows)
    ensures DistinctIds(SetTab(rows, row))
    ensures forall j | 0 <= j < |SetTab(rows, row)| :: SetTab(rows, row)[j].id == row.id ==> SetTab(rows, row)[j] == row
    ensures forall r | r in SetTab(rows, row) && r.id != row.id :: r in rows
  {
    if rows != [] && rows[0].id != row.id {
      SetTabIsUnique(rows[1..], row);
      forall r | r in SetTab(rows[1..], row) ensures r.id != rows[0].id {
        assert r.id == row.id || r in rows[1..];
      }
      assert SetTab(rows, row) == [rows[0]] + SetTab(rows[1..], row);
    } else if rows != [] {
      assert SetTab(rows, row) == [row] + rows[1..];
    }
  }

  lemma {:induction false} DeletionIsPart(rows: seq<TabRow>, id: string)
    requires DistinctIds(rows)
    ensures DistinctIds(DeleteRow(rows, id))
    ensures forall r | r in DeleteRow(rows, id) :: r in rows
  {
    if rows != [] {
      DeletionIsPart(rows[1..], id);
      assert DeleteRow(rows, id) == (if rows[0].id == id then [] else [rows[0]]) + DeleteRow(rows[1..], id);
      forall r | r in DeleteRow(rows[1..], id) ensures r.id != rows[0].id {
        assert r in rows[1..];
      }
    }
  }

  lemma StepKeepsDistinctIds(l: Live, step: Step)
    requires DistinctIds(l.rows) && Enabled(l, step)
    ensures DistinctIds(Apply(l, step).rows)
  {
    match step
    case NewTab(tab, _) => SetTabIsUnique(l.rows, TabToRow(tab, CountIn(l.store.tabs, tab.spaceId)));
    case CreateReturns(k, _, windowName, _) =>
      var tab := l.pending[k].tab;
      SetTabIsUnique(l.rows, TabToRow(tab.(windowName := windowName), CountIn(l.store.tabs, tab.spaceId)));
    case CloseReturns(k, _) => DeletionIsPart(l.rows, l.pending[k].id);
    case _ =>
  }

  /** A rename of the tab is of one the store has, and its save goes through. */
  predicate RenamedWell(l: Live, step: Step, id: string) {
    step.RenameTab? && step.id == id ==> step.saved && HasTabId(l.store.tabs, id)
  }

  /** A rename of both keeps the rows mirroring. */
  lemma RenameKeepsRowsMirror(rows: seq<TabRow>, t: Tab, id: string, title: string)
    requires RowsMirror(rows, t)
    ensures RowsMirror(RetitleRow(rows, id, title), if t.id == id then t.(title := title) else t)
  {
  }

  lemma CaptureKeepsRowsMirror(rows: seq<TabRow>, t: Tab, id: string, session: string)
    requires RowsMirror(rows, t)
    ensures RowsMirror(SetRowSession(rows, id, session), t)
  {
  }

  lemma PartMirrors(rows: seq<TabRow>, rows': seq<TabRow>, t: Tab)
    requires RowsMirror(rows, t) && forall r | r in rows' && r.id == t.id :: r in rows
    ensures RowsMirror(rows', t)
  {
    forall j | 0 <= j < |rows'| && rows'[j].id == t.id ensures Mirrors(rows'[j], t) {
      assert rows'[j] in rows;
    }
  }

  /** A tab that a step leaves alone stays mirrored. */
  lemma StepKeepsRowsMirror(l: Live, step: Step, t: Tab)
    requires DistinctIds(l.rows) && Enabled(l, step) && RowsMirror(l.rows, t)
    requires !Announces(l, step, t.id) && !(step.RenameTab? && step.id == t.id)
    ensures RowsMirror(Apply(l, step).rows, t)
  {
    match step
    case NewTab(tab, saved) =>
      if saved {
        SetTabIsUnique(l.rows, TabToRow(tab, CountIn(l.store.tabs, tab.spaceId)));
        PartMirrors(l.rows, Apply(l, step).rows, t);
      }
    case CreateReturns(k, _, windowName, _) =>
      var tab := l.pending[k].tab;
      SetTabIsUnique(l.rows, TabToRow(tab.(windowName := windowName), CountIn(l.store.tabs, tab.spaceId)));
      PartMirrors(l.rows, Apply(l, step).rows, t);
    case CloseReturns(k, _) =>
      DeletionIsPart(l.rows, l.pending[k].id);
      PartMirrors(l.rows, Apply(l, step).rows, t);
    case RenameTab(id, title, saved) =>
      if saved {
        RenameKeepsRowsMirror(l.rows, t, id, title);
      }
    case CaptureNext(k, saved) =>
      if l.pending[k].todo != [] {
        CaptureKeepsRowsMirror(l.rows, t, l.pending[k].todo[0].0, l.pending[k].todo[0].1);
      }
    case _ =>
  }

  // ---------- tabs over a step ----------

  /** Where a tab of the store comes from. */
  lemma StepTabOrigin(l: Live, step: Step, t: Tab)
    requires Enabled(l, step) && t in Apply(l, step).store.tabs
    ensures || t in l.store.tabs
            || (Resolves(l, step, t.id) && t == l.pending[step.k].tab)
            || (step.RenameTab? && step.id == t.id)
            || (step.CaptureAnswered?
                && exists u :: u in l.store.tabs && u.id == t.id && t == u.(agentSessionId := t.agentSessionId))
  {
    var tabs, tabs' := l.store.tabs, Apply(l, step).store.tabs;
    var i :| 0 <= i < |tabs'| && tabs'[i] == t;
    match step
    case DeleteReturns(k) => WithoutTabKeepsOthers(tabs, l.pending[k].id, t);
    case RenameTab(_, _, _) => assert tabs[i] in tabs;
    case CaptureAnswered(k) =>
      assert tabs[i] in tabs;
      assert tabs[i].id == t.id && t == tabs[i].(agentSessionId := t.agentSessionId);
    case CreateReturns(k, _, _, _) => assert i < |tabs| ==> tabs[i] in tabs;
    case SaveReturns(k) => assert i < |tabs| ==> tabs[i] in tabs;
    case _ => assert tabs[i] in tabs;
  }

  lemma MirroredTab(l: Live, id: string, t: Tab)
    requires Mirrored(l, id) && t in l.store.tabs && t.id == id
    ensures RowsMirror(l.rows, t)
  {
    var i :| 0 <= i < |l.store.tabs| && l.store.tabs[i] == t;
    assert TabMirrored(l, id, i);
  }

  /** Nothing announces a tab the store has. */
  lemma AnnouncedIsAbsent(l: Live, step: Step, id: string)
    requires IdsApart(l) && Enabled(l, step) && Announces(l, step, id)
    ensures !HasTabId(l.store.tabs, id)
  {
    if step.CreateReturns? {
      assert NewcomerApart(l, step.k);
    }
  }

  lemma PresentTab(tabs: seq<Tab>, t: Tab)
    requires t in tabs
    ensures HasTabId(tabs, t.id)
  {
    var i :| 0 <= i < |tabs| && tabs[i] == t;
  }

  lemma SettledTabStaysMirrored(l: Live, step: Step, id: string, t: Tab)
    requires IdsApart(l) && DistinctIds(l.rows) && Mirrored(l, id) && Enabled(l, step)
    requires t in l.store.tabs && t.id == id && !(step.RenameTab? && step.id == id)
    ensures RowsMirror(Apply(l, step).rows, t)
  {
    MirroredTab(l, id, t);
    PresentTab(l.store.tabs, t);
    if Announces(l, step, id) {
      AnnouncedIsAbsent(l, step, id);
    }
    StepKeepsRowsMirror(l, step, t);
  }

  lemma StepKeepsTabMirrored(l: Live, step: Step, id: string, t: Tab)
    requires IdsApart(l) && DistinctIds(l.rows) && Mirrored(l, id) && Enabled(l, step) && RenamedWell(l, step, id)
    requires t in Apply(l, step).store.tabs && t.id == id
    ensures RowsMirror(Apply(l, step).rows, t)
  {
    StepTabOrigin(l, step, t);
    if step.RenameTab? && step.id == id {
      RenamedTabMirrored(l, step, id, t);
    } else if Resolves(l, step, id) && t == l.pending[step.k].tab {
      assert NewcomerMirrored(l, id, step.k) && NewcomerApart(l, step.k);
    } else if t in l.store.tabs {
      SettledTabStaysMirrored(l, step, id, t);
    } else {
      var u :| u in l.store.tabs && u.id == t.id && t == u.(agentSessionId := t.agentSessionId);
      SettledTabStaysMirrored(l, step, id, u);
    }
  }

  lemma RenamedTabMirrored(l: Live, step: Step, id: string, t: Tab)
    requires Mirrored(l, id) && Enabled(l, step) && step.RenameTab? && step.id == id && step.saved
    requires t in Apply(l, step).store.tabs && t.id == id
    ensures RowsMirror(Apply(l, step).rows, t)
  {
    var tabs' := Apply(l, step).store.tabs;
    var i :| 0 <= i < |tabs'| && tabs'[i] == t;
    assert TabMirrored(l, id, i);
    RenameKeepsRowsMirror(l.rows, l.store.tabs[i], id, step.title);
  }

  // ---------- newcomers over a step ----------

  lemma AnnouncedMirrored(l: Live, step: Step, id: string, k: nat)
    requires DistinctIds(l.rows) && Enabled(l, step) && At(Apply(l, step), k)
    requires Announces(l, step, id) && k == (if step.NewTab? then |l.pending| else step.k)
    ensures NewcomerMirrored(Apply(l, step), id, k)
  {
    if step.NewTab? {
      SetTabIsUnique(l.rows, TabToRow(step.tab, CountIn(l.store.tabs, step.tab.spaceId)));
    } else {
      var named := l.pending[step.k].tab.(windowName := step.windowName);
      SetTabIsUnique(l.rows, TabToRow(named, CountIn(l.store.tabs, named.spaceId)));
    }
  }

  /** A pending creation that brings a tab has done so before, or this step announces it. */
  lemma StepBrings(l: Live, step: Step, id: string, k: nat)
    requires IdsApart(l) && Enabled(l, step) && At(Apply(l, step), k) && Brings(Apply(l, step).pending[k], id)
    ensures || (Announces(l, step, id) && k == if step.NewTab? then |l.pending| else step.k)
            || (At(l, k) && l.pending[k] == Apply(l, step).pending[k] && !Announces(l, step, id))
  {
    if At(l, k) {
      StepPending(l, step, k);
      if Announces(l, step, id) && step.CreateReturns? {
        assert PairApart(l, step.k, k);
      }
      assert NewcomerApart(l, k);
    }
  }

  lemma StepKeepsNewcomerMirrored(l: Live, step: Step, id: string, k: nat)
    requires IdsApart(l) && DistinctIds(l.rows) && Mirrored(l, id) && Enabled(l, step) && RenamedWell(l, step, id)
    requires At(Apply(l, step), k)
    ensures NewcomerMirrored(Apply(l, step), id, k)
  {
    if Brings(Apply(l, step).pending[k], id) {
      StepBrings(l, step, id, k);
      if Announces(l, step, id) {
        AnnouncedMirrored(l, step, id, k);
      } else {
        assert NewcomerMirrored(l, id, k) && NewcomerApart(l, k);
        StepKeepsRowsMirror(l, step, l.pending[k].tab);
      }
    }
  }

  lemma StepKeepsMirrored(l: Live, step: Step, id: string)
    requires IdsApart(l) && DistinctIds(l.rows) && Mirrored(l, id) && Enabled(l, step) && RenamedWell(l, step, id)
    ensures Mirrored(Apply(l, step), id)
  {
    var l' := Apply(l, step);
    forall i | 0 <= i < |l'.store.tabs| ensures TabMirrored(l', id, i) {
      if l'.store.tabs[i].id == id {
        StepKeepsTabMirrored(l, step, id, l'.store.tabs[i]);
      }
    }
    forall k | 0 <= k < |l'.pending| ensures NewcomerMirrored(l', id, k) {
      StepKeepsNewcomerMirrored(l, step, id, k);
    }
  }

  // ---------- runs ----------

  predicate RenamesGoWell(start: Live, steps: seq<Step>, id: string)
    requires IsRun(start, steps)
  {
    steps == [] ||
    var front := steps[..|steps| - 1];
    RenamesGoWell(start, front, id) && RenamedWell(After(start, front), steps[|steps| - 1], id)
  }

  /** Rows and tabs that mirror each other to begin with, as a launch leaves them. */
  predicate StartsMirrored(store: Store, rows: seq<TabRow>) {
    && DistinctIds(rows)
    && forall i | 0 <= i < |store.tabs| :: RowsMirror(rows, store.tabs[i])
  }

  lemma {:induction false} RunsStayMirrored(store: Store, rows: seq<TabRow>, steps: seq<Step>, id: string)
    requires StartsMirrored(store, rows) && IsRun(Start(store, rows), steps)
    requires RenamesGoWell(Start(store, rows), steps, id)
    ensures DistinctIds(After(Start(store, rows), steps).rows) && Mirrored(After(Start(store, rows), steps), id)
  {
    if steps != [] {
      var front, step := steps[..|steps| - 1], steps[|steps| - 1];
      RunsStayMirrored(store, rows, front, id);
      RunsKeepIdsApart(store, rows, front);
      StepKeepsDistinctIds(After(Start(store, rows), front), step);
      StepKeepsMirrored(After(Start(store, rows), front), step, id);
    }
  }

  // ---------- main results ----------

  /** The tab's rows are the tab's in every field but the sort order. */
  predicate FieldsAgree(l: Live, id: string) {
    forall i, j | 0 <= i < |l.store.tabs| && 0 <= j < |l.rows| && l.store.tabs[i].id == id && l.rows[j].id == id ::
      RowOf(l.rows[j], l.store.tabs[i])
  }

  /** In every reachable state, if the tab's renames go well, tab and row agree in every field
      exactly when they agree on the agent session. */
  lemma FieldsAgreeIffSessions(store: Store, rows: seq<TabRow>, steps: seq<Step>, id: string)
    requires StartsMirrored(store, rows) && IsRun(Start(store, rows), steps)
    requires RenamesGoWell(Start(store, rows), steps, id)
    ensures FieldsAgree(After(Start(store, rows), steps), id) <==> SessionsAgree(After(Start(store, rows), steps), id)
  {
    RunsStayMirrored(store, rows, steps, id);
    SameButSessions(After(Start(store, rows), steps), id);
  }

  lemma SameButSessions(l: Live, id: string)
    requires Mirrored(l, id)
    ensures FieldsAgree(l, id) <==> SessionsAgree(l, id)
  {
    forall i, j | 0 <= i < |l.store.tabs| && 0 <= j < |l.rows| && l.store.tabs[i].id == id && l.rows[j].id == id
      ensures RowOf(l.rows[j], l.store.tabs[i]) <==> l.store.tabs[i].agentSessionId == l.rows[j].agentSessionId
    {
      assert TabMirrored(l, id, i);
      assert Mirrors(l.rows[j], l.store.tabs[i]);
    }
  }

  /** So at rest, the row is the tab's exactly when the last session sent was the last answered. */
  lemma RestIsRowOfIff(store: Store, rows: seq<TabRow>, steps: seq<Step>, id: string)
    requires StartsMirrored(store, rows) && StartsAgreed(store, rows)
    requires IsRun(Start(store, rows), steps) && RenamesGoWell(Start(store, rows), steps, id)
    requires Quiescent(After(Start(store, rows), steps))
    requires HasTabId(After(Start(store, rows), steps).store.tabs, id)
    requires HasTab(After(Start(store, rows), steps).rows, id)
    ensures FieldsAgree(After(Start(store, rows), steps), id) <==>
            LastSent(Start(store, rows), steps, id) == LastAnswered(Start(store, rows), steps, id)
  {
    FieldsAgreeIffSessions(store, rows, steps, id);
    RestAgreesIff(store, rows, steps, id);
  }
}
