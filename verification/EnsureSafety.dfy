/**
  `ensure_session_window` under interleaving: every session keeps exactly one window, and a
  success means that the session held the window at the moment the call returned.
*/
module EnsureSafety {
  import opened TmuxNames
  import opened TmuxServer
  import opened TmuxProtocol

  /** Every live session holds exactly its own window. */
  predicate OneWindowEach(server: Server) {
    forall s | s in server :: server[s] == [OwnWindow(s)]
  }

  /** The caller asks for the session's own window, as every name built by
      `tmux_session_name` from an allocated window does. */
  predicate AsksForOwnWindow(c: Caller) {
    c.Window() == OwnWindow(c.Session())
  }

  predicate OwnAttaches(steps: seq<Step>) {
    forall k | 0 <= k < |steps| && steps[k].Begin? && steps[k].call.Attach? ::
      steps[k].call.window == OwnWindow(steps[k].call.session)
  }

  ghost predicate Tidy(st: State) {
    && OneWindowEach(st.server)
    && (forall i | 0 <= i < |st.callers| :: AsksForOwnWindow(st.callers[i]) && !st.callers[i].pc.AddingWindow?)
    && (forall k | 0 <= k < |st.events| :: !st.events[k].WindowAdded?)
  }

  lemma AllocatorAsksForOwnWindow(c: Caller)
    requires c.call.Allocate?
    ensures AsksForOwnWindow(c)
  {
    OwnWindowOfJoin(c.call.base, c.Window());
  }

  lemma StepKeepsTidy(st: State, step: Step)
    requires Tidy(st) && Enabled(st, step)
    requires step.Begin? && step.call.Attach? ==> step.call.window == OwnWindow(step.call.session)
    ensures Tidy(Apply(st, step))
  {
    var st' := Apply(st, step);
    forall i | 0 <= i < |st'.callers| ensures AsksForOwnWindow(st'.callers[i]) && !st'.callers[i].pc.AddingWindow? {
      if st'.callers[i].call.Allocate? {
        AllocatorAsksForOwnWindow(st'.callers[i]);
      }
    }
  }

  lemma {:induction false} RunsAreTidy(server: Server, steps: seq<Step>)
    requires IsRun(server, steps) && OneWindowEach(server) && OwnAttaches(steps)
    ensures Tidy(After(server, steps))
  {
    if steps != [] {
      var front := steps[..|steps| - 1];
      RunsAreTidy(server, front);
      StepKeepsTidy(After(server, front), steps[|steps| - 1]);
    }
  }

  /** From a server where every session holds its own window, any interleaving of allocators,
      attaches and kills keeps it so, and no `new-window` is ever issued. */
  lemma SessionsKeepOneWindow(server: Server, steps: seq<Step>)
    requires IsRun(server, steps) && OneWindowEach(server) && OwnAttaches(steps)
    ensures OneWindowEach(After(server, steps).server)
    ensures forall e | e in After(server, steps).events :: !e.WindowAdded?
    ensures forall c | c in After(server, steps).callers :: !c.pc.AddingWindow?
  {
    RunsAreTidy(server, steps);
  }

  // ---------- what success means ----------

  lemma SuccessHasWindow(st: State, step: Step, i: nat)
    requires Enabled(st, step) && i < |Apply(st, step).callers|
    requires Apply(st, step).callers[i].pc == Returned(true)
    ensures var c := Apply(st, step).callers[i];
            (i < |st.callers| && st.callers[i] == c) || HasWindow(Apply(st, step).server, c.Session(), c.Window())
  {
  }

  /** The last step of the run is the one at which the call comes back with a success, and right
      after it the session holds the window. */
  ghost predicate ComesBackTrue(server: Server, steps: seq<Step>, i: nat, c: Caller) {
    && steps != [] && IsRun(server, steps)
    && !At(After(server, steps[..|steps| - 1]), i, Returned(true))
    && At(After(server, steps), i, Returned(true)) && After(server, steps).callers[i] == c
    && HasWindow(After(server, steps).server, c.Session(), c.Window())
  }

  /** Every success, in any run, was true at the step at which the call came back. */
  lemma {:induction false} SuccessWasTrue(server: Server, steps: seq<Step>, i: nat) returns (k: nat)
    requires IsRun(server, steps) && At(After(server, steps), i, Returned(true))
    ensures k <= |steps| && ComesBackTrue(server, steps[..k], i, After(server, steps).callers[i])
  {
    assert steps != [];
    var front, step := steps[..|steps| - 1], steps[|steps| - 1];
    SuccessHasWindow(After(server, front), step, i);
    if At(After(server, front), i, Returned(true)) {
      k := SuccessWasTrue(server, front, i);
      assert front[..k] == steps[..k];
      ReturnedCallerStays(After(server, front), step, i);
    } else {
      k := |steps|;
      assert steps[..k] == steps;
    }
  }

  lemma ReturnedCallerStays(st: State, step: Step, i: nat)
    requires Enabled(st, step) && At(st, i, Returned(true))
    ensures i < |Apply(st, step).callers| && Apply(st, step).callers[i] == st.callers[i]
  {
  }
}
