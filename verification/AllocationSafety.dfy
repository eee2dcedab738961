/**
  Safety of the session allocator over every run of the protocol: a successful allocation is
  matched by a session creation of the same call, whatever the other allocators do, on its own
  base or on others, and whenever sessions are killed.
*/
module AllocationSafety {
  import opened TmuxNames
  import opened TmuxServer
  import opened TmuxProtocol

  predicate CreatedBy(st: State, session: string, i: nat) {
    SessionCreated(session, i) in st.events
  }

  /** The caller created the session, and not before the server had seen `from` events. */
  predicate CreatedSince(st: State, session: string, i: nat, from: nat) {
    exists k :: from <= k < |st.events| && st.events[k] == SessionCreated(session, i)
  }

  /** A caller outside the lock did. */
  ghost predicate AttachedSince(st: State, session: string, from: nat) {
    exists j :: 0 <= j < |st.callers| && st.callers[j].call.Attach? && CreatedSince(st, session, j, from)
  }

  // ---------- mutual exclusion ----------

  ghost predicate LockOwned(st: State, base: string) {
    base in st.locks ==>
      st.locks[base] < |st.callers| &&
      var c := st.callers[st.locks[base]];
      c.HoldsLock() && c.call.base == base
  }

  ghost predicate HolderLocked(st: State, i: nat)
    requires i < |st.callers|
  {
    var c := st.callers[i];
    c.HoldsLock() ==> c.call.base in st.locks && st.locks[c.call.base] == i
  }

  ghost predicate Exclusive(st: State) {
    && (forall base :: LockOwned(st, base))
    && (forall i | 0 <= i < |st.callers| :: HolderLocked(st, i))
  }

  lemma StepKeepsLockOwned(st: State, step: Step, base: string)
    requires Exclusive(st) && Enabled(st, step)
    ensures LockOwned(Apply(st, step), base)
  {
    assert LockOwned(st, base);
    assert !step.Begin? && !step.Kill? ==> HolderLocked(st, step.i);
  }

  /** The caller a step moves, if any. */
  predicate Moves(step: Step, i: nat) {
    !step.Begin? && !step.Kill? && step.i == i
  }

  lemma MovedCallerLocked(st: State, step: Step, i: nat)
    requires i < |st.callers| && HolderLocked(st, i) && Enabled(st, step) && Moves(step, i)
    ensures i < |Apply(st, step).callers| && HolderLocked(Apply(st, step), i)
  {
  }

  lemma OtherCallerLocked(st: State, step: Step, i: nat)
    requires i < |st.callers| && HolderLocked(st, i) && Enabled(st, step) && !Moves(step, i)
    requires !step.Begin? && !step.Kill? ==> step.i < |st.callers| && HolderLocked(st, step.i)
    ensures i < |Apply(st, step).callers| && HolderLocked(Apply(st, step), i)
  {
  }

  lemma StepKeepsHolderLocked(st: State, step: Step, i: nat)
    requires Exclusive(st) && Enabled(st, step) && i < |Apply(st, step).callers|
    ensures HolderLocked(Apply(st, step), i)
  {
    if i < |st.callers| {
      assert HolderLocked(st, i);
      if Moves(step, i) {
        MovedCallerLocked(st, step, i);
      } else {
        assert !step.Begin? && !step.Kill? ==> HolderLocked(st, step.i);
        OtherCallerLocked(st, step, i);
      }
    }
  }

  lemma StepKeepsExclusive(st: State, step: Step)
    requires Exclusive(st) && Enabled(st, step)
    ensures Exclusive(Apply(st, step))
  {
    var st' := Apply(st, step);
    forall base ensures LockOwned(st', base) {
      StepKeepsLockOwned(st, step, base);
    }
    forall i | 0 <= i < |st'.callers| ensures HolderLocked(st', i) {
      StepKeepsHolderLocked(st, step, i);
    }
  }

  // ---------- what the allocator may rely on ----------

  /** For an allocator whose name was fresh at the scan: since that scan nobody else has created
      its session, except a caller outside the lock. */
  ghost predicate FreshCaller(st: State, i: nat)
    requires i < |st.callers|
  {
    var c := st.callers[i];
    c.since <= |st.events|
    && (c.PickedFresh() ==>
          || AttachedSince(st, c.Session(), c.since)
          || ((c.pc.Probing? || c.pc.CreatingSession?) && c.Session() !in st.server)
          || (c.pc == Returned(true) && CreatedSince(st, c.Session(), i, c.since)))
  }

  ghost predicate Safe(st: State) {
    && Exclusive(st)
    && (forall i | 0 <= i < |st.callers| :: FreshCaller(st, i))
  }

  lemma CreationIsKept(st: State, step: Step, session: string, j: nat, from: nat)
    requires Enabled(st, step) && CreatedSince(st, session, j, from)
    ensures CreatedSince(Apply(st, step), session, j, from)
  {
    var k :| from <= k < |st.events| && st.events[k] == SessionCreated(session, j);
    assert st.events <= Apply(st, step).events;
    assert Apply(st, step).events[k] == SessionCreated(session, j);
  }

  lemma AttachmentIsKept(st: State, step: Step, session: string, from: nat)
    requires Enabled(st, step) && AttachedSince(st, session, from)
    ensures AttachedSince(Apply(st, step), session, from)
  {
    var j :| 0 <= j < |st.callers| && st.callers[j].call.Attach? && CreatedSince(st, session, j, from);
    CreationIsKept(st, step, session, j, from);
    assert Apply(st, step).callers[j].call == st.callers[j].call;
  }

  /** Two allocators between scan and return never mean the same session. */
  lemma HoldersDiffer(st: State, i: nat, j: nat)
    requires Exclusive(st) && i < |st.callers| && j < |st.callers| && i != j
    requires st.callers[i].HoldsLock() && st.callers[j].HoldsLock()
    ensures st.callers[i].Session() != st.callers[j].Session()
  {
    assert HolderLocked(st, i) && HolderLocked(st, j);
    var ci, cj := st.callers[i], st.callers[j];
    if ci.Session() == cj.Session() {
      AllocatedNamesAreTerms(ci.suffixes);
      AllocatedNamesAreTerms(cj.suffixes);
      SessionNameDecodes(ci.call.base, ci.Window(), cj.call.base, cj.Window());
    }
  }

  lemma AllocatedNamesAreTerms(suffixes: seq<string>)
    ensures '_' !in AllocatedName(suffixes)
  {
  }

  /** A creation by another allocator is of another session; one by an attach is recorded. */
  lemma CreationLeavesOthersFresh(st: State, j: nat, i: nat)
    requires Safe(st) && Enabled(st, CreateSession(j)) && i < |st.callers| && i != j
    requires st.callers[i].PickedFresh() && st.callers[i].HoldsLock() && st.callers[i].Session() !in st.server
    ensures var st', session := Apply(st, CreateSession(j)), st.callers[i].Session();
            session !in st'.server || AttachedSince(st', session, st.callers[i].since)
  {
    var st', session := Apply(st, CreateSession(j)), st.callers[i].Session();
    assert FreshCaller(st, i);
    if st.callers[j].HoldsLock() {
      HoldersDiffer(st, i, j);
    } else if session in st'.server {
      assert st'.events[|st.events|] == SessionCreated(session, j);
      assert CreatedSince(st', session, j, st.callers[i].since);
      assert st'.callers[j].call == st.callers[j].call;
    }
  }

  /** The callers a step does not move. */
  lemma OthersStayFresh(st: State, step: Step, i: nat)
    requires Safe(st) && Enabled(st, step)
    requires i < |st.callers| && Apply(st, step).callers[i] == st.callers[i]
    ensures FreshCaller(Apply(st, step), i)
  {
    var st', c := Apply(st, step), st.callers[i];
    assert FreshCaller(st, i) && |st.events| <= |st'.events|;
    if c.PickedFresh() {
      if AttachedSince(st, c.Session(), c.since) {
        AttachmentIsKept(st, step, c.Session(), c.since);
      } else if c.pc == Returned(true) {
        CreationIsKept(st, step, c.Session(), i, c.since);
      } else if step.CreateSession? {
        CreationLeavesOthersFresh(st, step.i, i);
      }
    }
  }

  lemma ScanningCallerIsFresh(st: State, i: nat, listing: seq<string>)
    requires Safe(st) && Enabled(st, Scan(i, listing))
    ensures FreshCaller(Apply(st, Scan(i, listing)), i)
  {
    var st', c := Apply(st, Scan(i, listing)), st.callers[i];
    SuffixesAreListed(c.call.base, listing, st'.callers[i].Window());
  }

  lemma MovedCallerStaysFresh(st: State, step: Step, i: nat)
    requires i < |st.callers| && FreshCaller(st, i) && Enabled(st, step) && !step.Scan?
    requires i < |st.callers| && Apply(st, step).callers[i] != st.callers[i]
    ensures FreshCaller(Apply(st, step), i)
  {
    var st', c := Apply(st, step), st.callers[i];
    assert FreshCaller(st, i) && |st.events| <= |st'.events|;
    if c.PickedFresh() && AttachedSince(st, c.Session(), c.since) {
      AttachmentIsKept(st, step, c.Session(), c.since);
    }
    if step.CreateSession? && c.Session() !in st.server {
      assert st'.events[|st.events|] == SessionCreated(c.Session(), i);
    }
  }

  lemma BeginningCallerIsFresh(st: State, call: Call)
    ensures FreshCaller(Apply(st, Begin(call)), |st.callers|)
  {
  }

  lemma OnlyActorMoves(st: State, step: Step, i: nat)
    requires Enabled(st, step) && i < |st.callers| && Apply(st, step).callers[i] != st.callers[i]
    ensures !step.Begin? && !step.Kill? && step.i == i
  {
  }

  lemma StepKeepsFresh(st: State, step: Step, i: nat)
    requires Safe(st) && Enabled(st, step) && i < |st.callers|
    ensures FreshCaller(Apply(st, step), i)
  {
    if Apply(st, step).callers[i] == st.callers[i] {
      OthersStayFresh(st, step, i);
    } else {
      OnlyActorMoves(st, step, i);
      if step.Scan? {
        ScanningCallerIsFresh(st, i, step.listing);
      } else {
        MovedCallerStaysFresh(st, step, i);
      }
    }
  }

  lemma StepKeepsSafe(st: State, step: Step)
    requires Safe(st) && Enabled(st, step)
    ensures Safe(Apply(st, step))
  {
    StepKeepsExclusive(st, step);
    forall i | 0 <= i < |Apply(st, step).callers| ensures FreshCaller(Apply(st, step), i) {
      if i < |st.callers| {
        StepKeepsFresh(st, step, i);
      } else {
        BeginningCallerIsFresh(st, step.call);
      }
    }
  }

  lemma {:induction false} RunsAreSafe(server: Server, steps: seq<Step>)
    requires IsRun(server, steps)
    ensures Safe(After(server, steps))
  {
    if steps != [] {
      var front := steps[..|steps| - 1];
      RunsAreSafe(server, front);
      StepKeepsSafe(After(server, front), steps[|steps| - 1]);
    }
  }

  predicate AllAllocators(st: State) {
    forall i | 0 <= i < |st.callers| :: st.callers[i].call.Allocate?
  }

  lemma StepKeepsAllocators(st: State, step: Step)
    requires AllAllocators(st) && Enabled(st, step) && (step.Begin? ==> step.call.Allocate?)
    ensures AllAllocators(Apply(st, step))
  {
  }

  lemma {:induction false} CallsComeFromSteps(server: Server, steps: seq<Step>)
    requires IsRun(server, steps) && OnlyAllocators(steps)
    ensures AllAllocators(After(server, steps))
  {
    if steps != [] {
      var front := steps[..|steps| - 1];
      CallsComeFromSteps(server, front);
      StepKeepsAllocators(After(server, front), steps[|steps| - 1]);
    }
  }

  // ---------- main results ----------

  /** In any run at all, a successful allocation with a fresh name is matched by a creation of its
      session after its scan, by the call itself unless a caller outside the lock made it. */
  lemma AllocationIsMatched(server: Server, steps: seq<Step>, i: nat)
    requires IsRun(server, steps)
    requires At(After(server, steps), i, Returned(true)) && After(server, steps).callers[i].PickedFresh()
    ensures var st := After(server, steps);
            var c := st.callers[i];
            CreatedSince(st, c.Session(), i, c.since) || AttachedSince(st, c.Session(), c.since)
  {
    RunsAreSafe(server, steps);
    assert FreshCaller(After(server, steps), i);
  }

  /** With only allocators and kills, the creation is the call's own, and no allocator with a
      fresh name ever looks at the windows of an existing session. */
  lemma AllocatorsNeverShare(server: Server, steps: seq<Step>, i: nat)
    requires IsRun(server, steps) && OnlyAllocators(steps) && i < |After(server, steps).callers|
    requires After(server, steps).callers[i].PickedFresh()
    ensures var st := After(server, steps);
            && (st.callers[i].pc == Returned(true) ==>
                CreatedSince(st, st.callers[i].Session(), i, st.callers[i].since))
            && !st.callers[i].pc.ProbingAgain? && !st.callers[i].pc.ListingWindows? && !st.callers[i].pc.AddingWindow?
  {
    var st := After(server, steps);
    RunsAreSafe(server, steps);
    CallsComeFromSteps(server, steps);
    assert FreshCaller(st, i);
  }

  // ---------- one session, one live creation ----------

  predicate KilledAfter(st: State, session: string, k: nat) {
    exists r :: k < r < |st.events| && st.events[r] == SessionKilled(session)
  }

  ghost predicate CreationsLive(st: State) {
    forall k | 0 <= k < |st.events| && st.events[k].SessionCreated? ::
      KilledAfter(st, st.events[k].session, k) || st.events[k].session in st.server
  }

  /** Between two creations of one session there is a kill of it. */
  ghost predicate CreationsAlternate(st: State) {
    forall p, q | 0 <= p < q < |st.events| && st.events[p].SessionCreated? && st.events[q].SessionCreated?
                  && st.events[p].session == st.events[q].session ::
      exists r :: p < r < q && st.events[r] == SessionKilled(st.events[p].session)
  }

  lemma StepKeepsCreationsLive(st: State, step: Step)
    requires CreationsLive(st) && Enabled(st, step)
    ensures CreationsLive(Apply(st, step))
  {
    var st', n := Apply(st, step), |st.events|;
    forall k | 0 <= k < |st'.events| && st'.events[k].SessionCreated?
      ensures KilledAfter(st', st'.events[k].session, k) || st'.events[k].session in st'.server
    {
      var session := st'.events[k].session;
      if k < n {
        assert st.events[k] == st'.events[k];
        if KilledAfter(st, session, k) {
          var r :| k < r < n && st.events[r] == SessionKilled(session);
          assert st'.events[r] == SessionKilled(session);
        } else if step == Kill(session) {
          assert st'.events[n] == SessionKilled(session);
        }
      }
    }
  }

  lemma StepKeepsCreationsAlternate(st: State, step: Step)
    requires CreationsLive(st) && CreationsAlternate(st) && Enabled(st, step)
    ensures CreationsAlternate(Apply(st, step))
  {
    var st', n := Apply(st, step), |st.events|;
    assert |st'.events| <= n + 1 && forall k | 0 <= k < n :: st'.events[k] == st.events[k];
    forall p, q | 0 <= p < q < |st'.events| && st'.events[p].SessionCreated? && st'.events[q].SessionCreated?
                  && st'.events[p].session == st'.events[q].session
      ensures exists r :: p < r < q && st'.events[r] == SessionKilled(st'.events[p].session)
    {
      var session := st'.events[p].session;
      assert q == n ==> KilledAfter(st, session, p);
      var r :| p < r < q && st.events[r] == SessionKilled(session);
      assert st'.events[r] == SessionKilled(session);
    }
  }

  lemma {:induction false} CreationsAlternateInRuns(server: Server, steps: seq<Step>)
    requires IsRun(server, steps)
    ensures CreationsLive(After(server, steps)) && CreationsAlternate(After(server, steps))
  {
    if steps != [] {
      var front, step := steps[..|steps| - 1], steps[|steps| - 1];
      CreationsAlternateInRuns(server, front);
      StepKeepsCreationsLive(After(server, front), step);
      StepKeepsCreationsAlternate(After(server, front), step);
    }
  }

  /** The call created its session and the session has not been killed since. */
  ghost predicate LiveAllocation(st: State, i: nat)
    requires i < |st.callers|
  {
    var session := st.callers[i].Session();
    exists k :: 0 <= k < |st.events| && st.events[k] == SessionCreated(session, i) && !KilledAfter(st, session, k)
  }

  /** No two live allocations share a session. */
  lemma LiveAllocationsDiffer(server: Server, steps: seq<Step>, i: nat, j: nat)
    requires IsRun(server, steps)
    requires i < |After(server, steps).callers| && j < |After(server, steps).callers| && i != j
    requires LiveAllocation(After(server, steps), i) && LiveAllocation(After(server, steps), j)
    ensures After(server, steps).callers[i].Session() != After(server, steps).callers[j].Session()
  {
    var st := After(server, steps);
    CreationsAlternateInRuns(server, steps);
    var a, b := st.callers[i].Session(), st.callers[j].Session();
    var p :| 0 <= p < |st.events| && st.events[p] == SessionCreated(a, i) && !KilledAfter(st, a, p);
    var q :| 0 <= q < |st.events| && st.events[q] == SessionCreated(b, j) && !KilledAfter(st, b, q);
  }

  // ---------- the two assumptions are needed ----------

  /** A lone allocator up to the point where it has found its name unused. */
  lemma AllocatorPicksFirstName(base: string) returns (steps: seq<Step>, st: State)
    ensures IsRun(map[], steps) && After(map[], steps) == st
    ensures st == State(map[], map[base := 0], [Caller(Allocate(base), CreatingSession, [], 0)], [])
  {
    steps, st := [], Start(map[]);
    steps, st := Extend(map[], steps, st, Begin(Allocate(base)));
    steps, st := Extend(map[], steps, st, TakeLock(0));
    steps, st := Extend(map[], steps, st, Scan(0, []));
    steps, st := Extend(map[], steps, st, Probe(0, false));
  }

  /** A `terminal_attach` outside the lock can create the session an allocator has picked; the
      allocator then succeeds without having created anything. */
  lemma AttachCanTakeTheName(base: string) returns (steps: seq<Step>)
    ensures IsRun(map[], steps)
    ensures var st := After(map[], steps);
            At(st, 0, Returned(true)) && st.callers[0].PickedFresh()
            && !CreatedBy(st, st.callers[0].Session(), 0)
  {
    var window := AllocatedName([]);
    var session := JoinSession(base, window);
    var st;
    steps, st := AllocatorPicksFirstName(base);
    steps, st := Extend(map[], steps, st, Begin(Attach(session, window)));
    steps, st := Extend(map[], steps, st, Probe(1, false));
    steps, st := Extend(map[], steps, st, CreateSession(1));
    assert st == State(map[session := [window]], map[base := 0],
                       [Caller(Allocate(base), CreatingSession, [], 0),
                        Caller(Attach(session, window), Returned(true), [], 0)],
                       [SessionCreated(session, 1)]);
    steps, st := Extend(map[], steps, st, CreateSession(0));
    steps, st := Extend(map[], steps, st, ProbeAgain(0, true));
    assert st.callers[0] == Caller(Allocate(base), ListingWindows, [], 0);
    steps, st := Extend(map[], steps, st, ListWindows(0));
  }

  /** Once the counter has reached the last `u64` and `term-0` is live, a lone allocator
      returns that live session as its own: the freshness condition cannot be dropped. */
  lemma WrappedCounterReturnsLiveSession(base: string, server: Server, listing: seq<string>) returns (steps: seq<Step>)
    requires IsListing(listing, server) && MaxIndex(Suffixes(base, listing)) == U64_MAX
    requires HasWindow(server, JoinSession(base, TermName(0)), TermName(0))
    ensures IsRun(server, steps)
    ensures var st := After(server, steps);
            At(st, 0, Returned(true)) && st.callers[0].call == Allocate(base)
            && st.events == [] && st.server == server
  {
    var st := Start(server);
    steps := [];
    steps, st := Extend(server, steps, st, Begin(Allocate(base)));
    steps, st := Extend(server, steps, st, TakeLock(0));
    steps, st := Extend(server, steps, st, Scan(0, listing));
    assert st.callers == [Caller(Allocate(base), Probing, Suffixes(base, listing), 0)];
    steps, st := Extend(server, steps, st, Probe(0, true));
    steps, st := Extend(server, steps, st, ListWindows(0));
  }
}
