/**
  What a success of `ensure_session_window` was: the caller's own creation exactly when neither its
  `has-session` nor its `new-session` found the session live. And how successes of allocators for
  one session lie in time.
*/
module AllocationOutcome {
  import opened TmuxServer
  import opened TmuxProtocol
  import opened AllocationSafety

  /** The step is the caller's `has-session` answered yes, or its `new-session` on a live session. */
  predicate FindsLive(st: State, step: Step, i: nat) {
    || step == Probe(i, true)
    || (step == CreateSession(i) && i < |st.callers| && st.callers[i].Session() in st.server)
  }

  ghost predicate FoundLive(server: Server, steps: seq<Step>, i: nat)
    requires IsRun(server, steps)
  {
    steps != [] &&
    var front := steps[..|steps| - 1];
    FoundLive(server, front, i) || FindsLive(After(server, front), steps[|steps| - 1], i)
  }

  predicate CreatedNothing(st: State, i: nat) {
    forall k | 0 <= k < |st.events| && st.events[k].SessionCreated? :: st.events[k].caller != i
  }

  /** Where a caller stands, given whether it has found its session live. */
  predicate StandsBy(st: State, i: nat, found: bool)
    requires i < |st.callers|
  {
    var c := st.callers[i];
    match c.pc
    case Returned(ok) =>
      if ok && !found then CreatedBy(st, c.Session(), i) else CreatedNothing(st, i)
    case _ =>
      CreatedNothing(st, i) && (found <==> c.pc.ProbingAgain? || c.pc.ListingWindows? || c.pc.AddingWindow?)
  }

  predicate EventsByCallers(st: State) {
    forall k | 0 <= k < |st.events| && st.events[k].SessionCreated? :: st.events[k].caller < |st.callers|
  }

  lemma StepKeepsEventsByCallers(st: State, step: Step)
    requires EventsByCallers(st) && Enabled(st, step)
    ensures EventsByCallers(Apply(st, step))
  {
  }

  /** Only a caller's own `new-session` adds a creation of its own. */
  lemma StepKeepsCreatedNothing(st: State, step: Step, i: nat)
    requires Enabled(st, step) && CreatedNothing(st, i)
    requires step == CreateSession(i) ==> st.callers[i].Session() in st.server
    ensures CreatedNothing(Apply(st, step), i)
  {
  }

  lemma StepKeepsCreatedBy(st: State, step: Step, session: string, i: nat)
    requires Enabled(st, step) && CreatedBy(st, session, i)
    ensures CreatedBy(Apply(st, step), session, i)
  {
    assert st.events <= Apply(st, step).events;
  }

  lemma OthersStand(st: State, step: Step, i: nat, found: bool)
    requires i < |st.callers| && StandsBy(st, i, found) && Enabled(st, step) && !Moves(step, i)
    ensures i < |Apply(st, step).callers| && Apply(st, step).callers[i] == st.callers[i]
    ensures StandsBy(Apply(st, step), i, found)
  {
    var c := st.callers[i];
    if CreatedBy(st, c.Session(), i) {
      StepKeepsCreatedBy(st, step, c.Session(), i);
    }
    if CreatedNothing(st, i) {
      StepKeepsCreatedNothing(st, step, i);
    }
  }

  lemma MovedStands(st: State, step: Step, i: nat, found: bool)
    requires i < |st.callers| && StandsBy(st, i, found) && Enabled(st, step) && Moves(step, i)
    ensures i < |Apply(st, step).callers| && StandsBy(Apply(st, step), i, found || FindsLive(st, step, i))
  {
    var st' := Apply(st, step);
    if step == CreateSession(i) && st.callers[i].Session() !in st.server {
      assert st'.events[|st.events|] == SessionCreated(st.callers[i].Session(), i);
    } else {
      StepKeepsCreatedNothing(st, step, i);
    }
  }

  lemma {:induction false} RunsStand(server: Server, steps: seq<Step>)
    requires IsRun(server, steps)
    ensures EventsByCallers(After(server, steps))
    ensures forall i | 0 <= i < |After(server, steps).callers| ::
              StandsBy(After(server, steps), i, FoundLive(server, steps, i))
    ensures forall i: nat | i >= |After(server, steps).callers| :: !FoundLive(server, steps, i)
  {
    if steps != [] {
      var front, step := steps[..|steps| - 1], steps[|steps| - 1];
      var st, st' := After(server, front), After(server, steps);
      RunsStand(server, front);
      StepKeepsEventsByCallers(st, step);
      forall i | 0 <= i < |st'.callers| ensures StandsBy(st', i, FoundLive(server, steps, i)) {
        if i >= |st.callers| {
          assert !FoundLive(server, front, i);
          StepKeepsCreatedNothing(st, step, i);
        } else if Moves(step, i) {
          MovedStands(st, step, i, FoundLive(server, front, i));
        } else {
          OthersStand(st, step, i, FoundLive(server, front, i));
        }
      }
    }
  }

  /** A success is the call's own creation exactly when the call never found the session live. */
  lemma SuccessIsOwnIff(server: Server, steps: seq<Step>, i: nat)
    requires IsRun(server, steps) && At(After(server, steps), i, Returned(true))
    ensures CreatedBy(After(server, steps), After(server, steps).callers[i].Session(), i) <==>
            !FoundLive(server, steps, i)
  {
    RunsStand(server, steps);
    var st := After(server, steps);
    assert StandsBy(st, i, FoundLive(server, steps, i));
  }

  /** And when a fresh-named allocator did find it live, an attach had created it since the scan. */
  lemma FoundMeansAttached(server: Server, steps: seq<Step>, i: nat)
    requires IsRun(server, steps) && At(After(server, steps), i, Returned(true))
    requires After(server, steps).callers[i].PickedFresh() && FoundLive(server, steps, i)
    ensures AttachedSince(After(server, steps), After(server, steps).callers[i].Session(),
              After(server, steps).callers[i].since)
  {
    SuccessIsOwnIff(server, steps, i);
    AllocationIsMatched(server, steps, i);
  }

  // ---------- failures ----------

  /** A command of the caller failed, or its session was killed. */
  predicate Hinders(step: Step, session: string, i: nat) {
    step == FailCommand(i) || step == ProbeAgain(i, false) || step == Kill(session)
  }

  predicate Hindered(steps: seq<Step>, session: string, i: nat) {
    exists k :: 0 <= k < |steps| && Hinders(steps[k], session, i)
  }

  /** A caller that has found its session live still finds it there, unless it was hindered. */
  predicate Unhindered(st: State, steps: seq<Step>, i: nat)
    requires i < |st.callers|
  {
    var c := st.callers[i];
    (c.pc == Returned(false) ==> Hindered(steps, c.Session(), i))
    && (c.pc.ProbingAgain? || c.pc.ListingWindows? || c.pc.AddingWindow? ==>
          c.Session() in st.server || Hindered(steps, c.Session(), i))
  }

  lemma StepKeepsUnhindered(st: State, steps: seq<Step>, step: Step, i: nat)
    requires Enabled(st, step) && i < |Apply(st, step).callers|
    requires i < |st.callers| ==> Unhindered(st, steps, i)
    ensures Unhindered(Apply(st, step), steps + [step], i)
  {
    var st', steps' := Apply(st, step), steps + [step];
    assert steps'[|steps|] == step;
    if i < |st.callers| {
      var session := st.callers[i].Session();
      if Hindered(steps, session, i) {
        var k :| 0 <= k < |steps| && Hinders(steps[k], session, i);
        assert Hinders(steps'[k], session, i);
      }
    }
  }

  /** A call only comes back without success if one of its own commands failed or its session was
      killed; losing the race to create the session is no reason. */
  lemma {:induction false} FailureIsExplained(server: Server, steps: seq<Step>, i: nat)
    requires IsRun(server, steps) && i < |After(server, steps).callers|
    ensures Unhindered(After(server, steps), steps, i)
    ensures var c := After(server, steps).callers[i];
            c.pc == Returned(false) ==> Hindered(steps, c.Session(), i)
  {
    if steps != [] {
      var front, step := steps[..|steps| - 1], steps[|steps| - 1];
      if i < |After(server, front).callers| {
        FailureIsExplained(server, front, i);
      }
      StepKeepsUnhindered(After(server, front), front, step, i);
      assert front + [step] == steps;
    }
  }

  predicate KilledInside(st: State, session: string, p: int, q: int) {
    exists r :: 0 <= r < |st.events| && p < r < q && st.events[r] == SessionKilled(session)
  }

  /** The two callers created the session, with a kill of it in between. */
  predicate KilledBetween(st: State, session: string, i: nat, j: nat) {
    exists p, q :: 0 <= p < |st.events| && 0 <= q < |st.events|
      && st.events[p] == SessionCreated(session, i) && st.events[q] == SessionCreated(session, j)
      && (KilledInside(st, session, p, q) || KilledInside(st, session, q, p))
  }

  lemma AlternationInside(st: State, session: string, p: nat, q: nat)
    requires CreationsAlternate(st) && p < q < |st.events|
    requires st.events[p].SessionCreated? && st.events[q].SessionCreated?
    requires st.events[p].session == session && st.events[q].session == session
    ensures KilledInside(st, session, p, q)
  {
    var r :| p < r < q && st.events[r] == SessionKilled(st.events[p].session);
  }

  lemma AlternationKills(st: State, session: string, i: nat, j: nat)
    requires CreationsAlternate(st) && i != j && CreatedBy(st, session, i) && CreatedBy(st, session, j)
    ensures KilledBetween(st, session, i, j)
  {
    var p :| 0 <= p < |st.events| && st.events[p] == SessionCreated(session, i);
    var q :| 0 <= q < |st.events| && st.events[q] == SessionCreated(session, j);
    if p < q {
      AlternationInside(st, session, p, q);
    } else {
      AlternationInside(st, session, q, p);
    }
  }

  lemma FreshSuccessIsCreated(server: Server, steps: seq<Step>, i: nat)
    requires IsRun(server, steps) && OnlyAllocators(steps)
    requires At(After(server, steps), i, Returned(true)) && After(server, steps).callers[i].PickedFresh()
    ensures CreatedBy(After(server, steps), After(server, steps).callers[i].Session(), i)
  {
    AllocatorsNeverShare(server, steps, i);
  }

  /** Among allocators and kills only, two successes with fresh names for one session have each
      created it, with a kill of it in between. */
  lemma SuccessesHaveKillBetween(server: Server, steps: seq<Step>, i: nat, j: nat)
    requires IsRun(server, steps) && OnlyAllocators(steps) && i != j
    requires At(After(server, steps), i, Returned(true)) && At(After(server, steps), j, Returned(true))
    requires After(server, steps).callers[i].PickedFresh() && After(server, steps).callers[j].PickedFresh()
    requires After(server, steps).callers[i].Session() == After(server, steps).callers[j].Session()
    ensures KilledBetween(After(server, steps), After(server, steps).callers[i].Session(), i, j)
  {
    FreshSuccessIsCreated(server, steps, i);
    FreshSuccessIsCreated(server, steps, j);
    CreationsAlternateInRuns(server, steps);
    AlternationKills(After(server, steps), After(server, steps).callers[i].Session(), i, j);
  }
}
