/**
  Concurrent callers of one tmux server, as a state machine. Every tmux command is one atomic
  step. A caller is either `allocate_session_for_tab`, which holds its base's mutex from the
  listing to the return, or a bare `ensure_session_window`, which `terminal_attach` runs
  without any lock. Sessions can be killed at any moment.
*/
module TmuxProtocol {
  import opened TmuxNames
  import opened TmuxServer

  datatype Call =
    | Allocate(base: string)
    | Attach(session: string, window: string)

  /** What the caller does next. */
  datatype Pc =
    | TakingLock
    | ScanningSessions
    | Probing
    | CreatingSession
    | ProbingAgain
    | ListingWindows
    | AddingWindow
    | Returned(ok: bool)

  /** `suffixes` is the allocator's `existing_suffixes`, empty until it has scanned; `since` is how
      much the server had seen at that scan. */
  datatype Caller = Caller(call: Call, pc: Pc, suffixes: seq<string>, since: nat) {
    function Window(): string {
      if call.Allocate? then AllocatedName(suffixes) else call.window
    }

    function Session(): string {
      if call.Allocate? then JoinSession(call.base, AllocatedName(suffixes)) else call.session
    }

    /** Past the scan and not yet returned. */
    predicate Ensuring() {
      pc.Probing? || pc.CreatingSession? || pc.ProbingAgain? || pc.ListingWindows? || pc.AddingWindow?
    }

    predicate HoldsLock() {
      call.Allocate? && (pc.ScanningSessions? || Ensuring())
    }

    predicate HasScanned() {
      call.Allocate? && (Ensuring() || pc == Returned(true))
    }

    /** The name picked was not among the scanned ones; see `AllocatedNameIsFresh`. */
    predicate PickedFresh() {
      HasScanned() && Window() !in suffixes
    }
  }

  /** What the server has seen, with the index of the caller that did it. */
  datatype Event =
    | SessionCreated(session: string, caller: nat)
    | WindowAdded(session: string, caller: nat)
    | SessionKilled(session: string)

  datatype State = State(server: Server, locks: map<string, nat>, callers: seq<Caller>, events: seq<Event>)

  /** `found` and `listing` are the server's answers; `rejected` is any other failure. */
  datatype Step =
    | Begin(call: Call)
    | TakeLock(i: nat)
    | Scan(i: nat, listing: seq<string>)
    | Probe(i: nat, found: bool)
    | CreateSession(i: nat)
    | ProbeAgain(i: nat, found: bool)
    | ListWindows(i: nat)
    | AddWindow(i: nat)
    | FailCommand(i: nat)
    | Kill(session: string)

  predicate At(st: State, i: nat, pc: Pc) {
    i < |st.callers| && st.callers[i].pc == pc
  }

  ghost predicate Enabled(st: State, step: Step) {
    match step
    case Begin(_) => true
    case TakeLock(i) => At(st, i, TakingLock) && st.callers[i].call.Allocate? && st.callers[i].call.base !in st.locks
    case Scan(i, listing) => At(st, i, ScanningSessions) && st.callers[i].call.Allocate?
        && IsListing(listing, st.server)
    case Probe(i, found) => At(st, i, Probing) && (found ==> st.callers[i].Session() in st.server)
    case CreateSession(i) => At(st, i, CreatingSession)
    case ProbeAgain(i, found) => At(st, i, ProbingAgain) && (found ==> st.callers[i].Session() in st.server)
    case ListWindows(i) => At(st, i, ListingWindows)
    case AddWindow(i) => At(st, i, AddingWindow)
    case FailCommand(i) =>
      i < |st.callers| && (st.callers[i].Ensuring() || st.callers[i].pc.ScanningSessions?)
    case Kill(session) => session in st.server
  }

  function Goto(st: State, i: nat, pc: Pc): State
    requires i < |st.callers|
  {
    st.(callers := st.callers[i := st.callers[i].(pc := pc)])
  }

  /** Returning drops the mutex guard. */
  function Return(st: State, i: nat, ok: bool): State
    requires i < |st.callers|
  {
    var locks := if st.callers[i].HoldsLock() then st.locks - {st.callers[i].call.base} else st.locks;
    Goto(st, i, Returned(ok)).(locks := locks)
  }

  ghost function Apply(st: State, step: Step): State
    requires Enabled(st, step)
  {
    match step
    case Begin(call) =>
      st.(callers := st.callers + [Caller(call, if call.Allocate? then TakingLock else Probing, [], 0)])
    case TakeLock(i) =>
      Goto(st, i, ScanningSessions).(locks := st.locks[st.callers[i].call.base := i])
    case Scan(i, listing) =>
      var suffixes := Suffixes(st.callers[i].call.base, listing);
      st.(callers := st.callers[i := st.callers[i].(pc := Probing, suffixes := suffixes, since := |st.events|)])
    case Probe(i, found) =>
      Goto(st, i, if found then ListingWindows else CreatingSession)
    case CreateSession(i) =>
      var c := st.callers[i];
      if c.Session() in st.server then Goto(st, i, ProbingAgain)
      else
        Return(st, i, true).(server := WithSession(st.server, c.Session(), c.Window()),
                             events := st.events + [SessionCreated(c.Session(), i)])
    case ProbeAgain(i, found) =>
      if found then Goto(st, i, ListingWindows) else Return(st, i, false)
    case ListWindows(i) =>
      var c := st.callers[i];
      if c.Session() !in st.server then Return(st, i, false)
      else if c.Window() in st.server[c.Session()] then Return(st, i, true)
      else Goto(st, i, AddingWindow)
    case AddWindow(i) =>
      var c := st.callers[i];
      if c.Session() !in st.server then Return(st, i, false)
      else
        Return(st, i, true).(server := WithWindow(st.server, c.Session(), c.Window()),
                             events := st.events + [WindowAdded(c.Session(), i)])
    case FailCommand(i) => Return(st, i, false)
    case Kill(session) =>
      st.(server := WithoutSession(st.server, session), events := st.events + [SessionKilled(session)])
  }

  // ---------- runs ----------

  function Start(server: Server): State {
    State(server, map[], [], [])
  }

  ghost predicate IsRun(server: Server, steps: seq<Step>)
    decreases |steps|, 0
  {
    steps == [] ||
    (IsRun(server, steps[..|steps| - 1]) && Enabled(After(server, steps[..|steps| - 1]), steps[|steps| - 1]))
  }

  /** The state a run ends in. */
  ghost function After(server: Server, steps: seq<Step>): State
    requires IsRun(server, steps)
    decreases |steps|, 1
  {
    if steps == [] then Start(server)
    else Apply(After(server, steps[..|steps| - 1]), steps[|steps| - 1])
  }

  /** Extends a run that has reached `st` by one step. */
  lemma Extend(server: Server, steps: seq<Step>, st: State, step: Step) returns (steps': seq<Step>, st': State)
    requires IsRun(server, steps) && After(server, steps) == st && Enabled(st, step)
    ensures steps' == steps + [step] && st' == Apply(st, step)
    ensures IsRun(server, steps') && After(server, steps') == st'
  {
    steps', st' := steps + [step], Apply(st, step);
    assert steps'[..|steps|] == steps;
  }

  predicate OnlyAllocators(steps: seq<Step>) {
    forall k | 0 <= k < |steps| && steps[k].Begin? :: steps[k].call.Allocate?
  }

  predicate NoKills(steps: seq<Step>) {
    forall k | 0 <= k < |steps| :: !steps[k].Kill?
  }

  // ---------- the state machine against the sequential method ----------

  /** A caller nobody interrupts goes through `has-session` and either `new-session` or
      `list-windows` and `new-window`, and leaves the server as the sequential
      `ensure_session_window` does. */
  lemma UninterruptedAttach(server: Server, session: string, window: string) returns (steps: seq<Step>)
    ensures IsRun(server, steps)
    ensures After(server, steps).server == Ensured(server, session, window)
    ensures After(server, steps).callers == [Caller(Attach(session, window), Returned(true), [], 0)]
  {
    steps := [];
    var st := Start(server);
    var here := session in server;
    steps, st := Extend(server, steps, st, Begin(Attach(session, window)));
    steps, st := Extend(server, steps, st, Probe(0, here));
    if here {
      steps, st := Extend(server, steps, st, ListWindows(0));
      if window !in server[session] {
        steps, st := Extend(server, steps, st, AddWindow(0));
      }
    } else {
      steps, st := Extend(server, steps, st, CreateSession(0));
    }
  }

  lemma BothProbe(server: Server, session: string, window: string) returns (steps: seq<Step>, st: State)
    requires session !in server
    ensures IsRun(server, steps) && After(server, steps) == st
    ensures st.server == server && st.locks == map[]
    ensures var c := Caller(Attach(session, window), CreatingSession, [], 0); st.callers == [c, c]
  {
    steps, st := [], Start(server);
    steps, st := Extend(server, steps, st, Begin(Attach(session, window)));
    steps, st := Extend(server, steps, st, Begin(Attach(session, window)));
    steps, st := Extend(server, steps, st, Probe(0, false));
    steps, st := Extend(server, steps, st, Probe(1, false));
  }

  /** Two calls for one session that both find it missing both succeed: the loser of the race finds
      the winner's session and its window. */
  lemma LostRaceSucceeds(server: Server, session: string, window: string) returns (steps: seq<Step>)
    requires session !in server
    ensures IsRun(server, steps)
    ensures After(server, steps).server == WithSession(server, session, window)
    ensures var c := Caller(Attach(session, window), Returned(true), [], 0); After(server, steps).callers == [c, c]
  {
    var st;
    steps, st := BothProbe(server, session, window);
    steps, st := Extend(server, steps, st, CreateSession(0));
    steps, st := Extend(server, steps, st, CreateSession(1));
    steps, st := Extend(server, steps, st, ProbeAgain(1, true));
    steps, st := Extend(server, steps, st, ListWindows(1));
  }
}
