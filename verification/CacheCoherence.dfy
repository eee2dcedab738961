/**
  Coherence of the sidecar watcher's cache over every run, from its initial scan and with reads
  and listings that may fail: a session is right at rest exactly when no step has lost it without a
  later notice announcing it again.
*/
module CacheCoherence {
  import opened Sidecars
  import opened WatchLoop
  import opened WatcherProtocol

  // ---------- what one session stands on ----------

  predicate Queued(st: State, session: string) {
    exists k :: 0 <= k < |st.queue| && Announces(st.queue[k], session)
  }

  predicate Underway(st: State, session: string) {
    match st.loop
    case Idle => false
    case Collecting(paths, fullRescan) => fullRescan || PathOf(session) in paths
    case Reading(left) => PathOf(session) in left
    case Listing => true
    case Scanning(todo, _) => PathOf(session) in todo
  }

  /** Something still to be processed will read the session's sidecar. */
  predicate Awaited(st: State, session: string) {
    Queued(st, session) || Underway(st, session)
  }

  /** The map the watcher is building: the scan's own, or the cache. */
  function Building(st: State): map<string, Capture> {
    if st.loop.Scanning? then st.loop.found else st.cache
  }

  function Sending(st: State): map<string, Capture> {
    if st.loop.Scanning? then st.loop.found else st.latest
  }

  /** The session's sidecar, if there is one, has been read and, if replaced since the watch began,
      sent as it is now. */
  ghost predicate Settled(st: State, s: string) {
    var view := View(st.dir);
    s in view ==>
      && s in Building(st) && Building(st)[s] == view[s]
      && (s in st.renamed ==> s in Sending(st) && Sending(st)[s] == view[s])
  }

  ghost predicate Coherent(st: State, s: string) {
    Awaited(st, s) || Settled(st, s)
  }

  /** Captures are only ever built from files that stay valid. */
  ghost predicate Based(st: State, s: string) {
    var view := View(st.dir);
    && (s in Building(st) || s in st.cache ==> s in view)
    && (s in st.renamed && s != "" ==> s in view)
  }

  /** A writer about to rename finds, if anything, a valid body in its tmp file. */
  predicate TmpValid(st: State, i: nat)
    requires i < |st.writers|
  {
    var w := st.writers[i];
    IsValid(w.body) && (w.pc.Renaming? && TmpPathOf(w.session) in st.dir ==> IsValid(st.dir[TmpPathOf(w.session)]))
  }

  predicate BootingQuietly(st: State) {
    !st.watching ==> st.renamed == {} && st.queue == [] && (st.loop.Idle? || st.loop.Listing? || st.loop.Scanning?)
  }

  ghost predicate Invariant(st: State) {
    && BootingQuietly(st)
    && (forall s :: Based(st, s))
    && (forall i | 0 <= i < |st.writers| :: TmpValid(st, i))
  }

  // ---------- what a step loses and announces ----------

  /** The rename is the session's and goes through. */
  predicate Replaces(st: State, step: Step, s: string) {
    && step.RenameTmp? && Enabled(st, step)
    && st.writers[step.i].session == s && TmpPathOf(s) in st.dir && IsValid(st.dir[TmpPathOf(s)])
  }

  /** What is being built already holds the content the rename publishes. */
  predicate AlreadyHeld(st: State, s: string) {
    && TmpPathOf(s) in st.dir && IsValid(st.dir[TmpPathOf(s)])
    && s in Building(st) && Building(st)[s] == CaptureOf(s, st.dir[TmpPathOf(s)])
  }

  /** The step gives up on the session: its file cannot be read or listed while it is not settled
      and no notice in the queue announces it, or it is replaced after the initial scan has read it
      and before the watch has begun. */
  ghost predicate Loses(st: State, step: Step, s: string) {
    match step
    case FailScan => !Queued(st, s) && !Settled(st, s)
    case FailScanOne(path) => path == PathOf(s) && !Queued(st, s) && !Settled(st, s)
    case FailRead(path) => path == PathOf(s) && !Queued(st, s) && !Settled(st, s)
    case RenameTmp(_, _) => !st.watching && s != "" && Replaces(st, step, s) && !Awaited(st, s) && !AlreadyHeld(st, s)
    case _ => false
  }

  /** The step posts a notice that announces the session, or replaces its sidecar unwatched by the
      very content that has been read. */
  predicate Announced(st: State, step: Step, s: string) {
    match step
    case Notify(notice) => Announces(notice, s)
    case RenameTmp(i, notice) =>
      if st.watching then i < |st.writers| && TmpPathOf(st.writers[i].session) in st.dir && Announces(notice, s)
      else s != "" && Replaces(st, step, s) && AlreadyHeld(st, s)
    case _ => false
  }

  /** What the step makes of the session's coherence. */
  ghost predicate StepAccounted(st: State, step: Step, s: string)
    requires Enabled(st, step)
  {
    Coherent(Apply(st, step), s) <==> Announced(st, step, s) || (Coherent(st, s) && !Loses(st, step, s))
  }

  lemma PathsDiffer(a: string, b: string)
    ensures PathOf(a) != TmpPathOf(b)
    ensures PathOf(a) == PathOf(b) ==> a == b
    ensures TmpPathOf(a) == TmpPathOf(b) ==> a == b
  {
    var p, t := PathOf(a), TmpPathOf(b);
    assert p[|p| - 1] == 'n' && t[|t| - 1] == 'p';
    assert PathOf(a)[..|a|] == a && PathOf(b)[..|b|] == b;
    assert TmpPathOf(a)[..|a|] == a && TmpPathOf(b)[..|b|] == b;
  }

  // ---------- writer steps ----------

  lemma WritersKeepTmpValid(st: State, step: Step, i: nat)
    requires Enabled(st, step) && i < |Apply(st, step).writers|
    requires forall j | 0 <= j < |st.writers| :: TmpValid(st, j)
    ensures TmpValid(Apply(st, step), i)
  {
    if step.WriteTmp? {
      PathsDiffer(st.writers[step.i].session, st.writers[i].session);
      assert TmpValid(st, step.i) && TmpValid(st, i);
    } else if step.RenameTmp? {
      PathsDiffer(st.writers[step.i].session, st.writers[i].session);
      assert TmpValid(st, i);
    } else if i < |st.writers| {
      assert TmpValid(st, i);
    }
  }

  /** Writing a tmp file does not show. */
  lemma TmpIsInvisible(dir: Directory, session: string, body: Body, s: string)
    ensures Agree(View(dir), View(dir[TmpPathOf(session) := body]), s)
  {
    PathsDiffer(s, session);
    ViewLookup(dir, s);
    ViewLookup(dir[TmpPathOf(session) := body], s);
  }

  /** A rename replaces one session's sidecar by the valid body of its tmp file. */
  lemma RenameReplacesOne(dir: Directory, session: string, s: string)
    requires TmpPathOf(session) in dir && IsValid(dir[TmpPathOf(session)])
    ensures var dir' := (dir - {TmpPathOf(session)})[PathOf(session) := dir[TmpPathOf(session)]];
            if s == session && s != "" then s in View(dir') && View(dir')[s] == CaptureOf(s, dir[TmpPathOf(session)])
            else Agree(View(dir), View(dir'), s)
  {
    var dir' := (dir - {TmpPathOf(session)})[PathOf(session) := dir[TmpPathOf(session)]];
    PathsDiffer(s, session);
    ViewLookup(dir, s);
    ViewLookup(dir', s);
  }

  /** Being settled depends on the session's own entries only. */
  lemma SettledAcross(st: State, st': State, s: string)
    requires Agree(View(st.dir), View(st'.dir), s) && Agree(Building(st), Building(st'), s)
    requires s in View(st.dir) ==> (s in st.renamed <==> s in st'.renamed)
    requires s in View(st.dir) && s in st.renamed ==> Agree(Sending(st), Sending(st'), s)
    ensures Settled(st, s) <==> Settled(st', s)
  {
  }

  lemma SettledOnSameDirectory(st: State, st': State, s: string)
    requires st'.dir == st.dir && st'.renamed == st.renamed
    requires Agree(Building(st), Building(st'), s) && Agree(Sending(st), Sending(st'), s)
    ensures Settled(st, s) <==> Settled(st', s)
  {
  }

  /** A step that neither reads nor announces the session. */
  lemma Unmoved(st: State, step: Step, s: string)
    requires Enabled(st, step) && !Announced(st, step, s) && !Loses(st, step, s)
    requires Awaited(st, s) <==> Awaited(Apply(st, step), s)
    requires Settled(st, s) <==> Settled(Apply(st, step), s)
    ensures StepAccounted(st, step, s)
  {
  }

  lemma WriteAccounted(st: State, i: nat, s: string)
    requires Enabled(st, WriteTmp(i))
    ensures StepAccounted(st, WriteTmp(i), s)
  {
    var st', w := Apply(st, WriteTmp(i)), st.writers[i];
    TmpIsInvisible(st.dir, w.session, w.body, s);
    SettledAcross(st, st', s);
    assert Awaited(st, s) <==> Awaited(st', s);
  }

  lemma QueueGrows(queue: seq<Notice>, notice: Notice, st: State, st': State, s: string)
    requires st.queue == queue && st'.queue == queue + [notice] && st'.loop == st.loop
    ensures Awaited(st', s) <==> Awaited(st, s) || Announces(notice, s)
  {
    assert st'.queue[|queue|] == notice && forall k | 0 <= k < |queue| :: st'.queue[k] == queue[k];
  }

  /** The rename of another session, or of the session without a name. */
  lemma OtherRenameAccounted(st: State, i: nat, notice: Notice, s: string)
    requires Invariant(st) && Enabled(st, RenameTmp(i, notice)) && TmpPathOf(st.writers[i].session) in st.dir
    requires s != st.writers[i].session || s == ""
    ensures StepAccounted(st, RenameTmp(i, notice), s)
  {
    var st', w := Apply(st, RenameTmp(i, notice)), st.writers[i];
    assert TmpValid(st, i);
    RenameReplacesOne(st.dir, w.session, s);
    ViewLookup(st.dir, s);
    SettledAcross(st, st', s);
    if st.watching {
      QueueGrows(st.queue, notice, st, st', s);
    } else {
      assert Awaited(st', s) <==> Awaited(st, s);
    }
  }

  lemma WatchedRenameAccounted(st: State, i: nat, notice: Notice, s: string)
    requires Enabled(st, RenameTmp(i, notice)) && TmpPathOf(st.writers[i].session) in st.dir
    requires st.watching && s == st.writers[i].session && s != ""
    ensures StepAccounted(st, RenameTmp(i, notice), s)
  {
    PathOfSession(s);
    QueueGrows(st.queue, notice, st, Apply(st, RenameTmp(i, notice)), s);
    assert Announced(st, RenameTmp(i, notice), s);
  }

  lemma UnwatchedRenameAccounted(st: State, i: nat, notice: Notice, s: string)
    requires Invariant(st) && Enabled(st, RenameTmp(i, notice)) && TmpPathOf(st.writers[i].session) in st.dir
    requires !st.watching && s == st.writers[i].session && s != ""
    ensures StepAccounted(st, RenameTmp(i, notice), s)
  {
    var st' := Apply(st, RenameTmp(i, notice));
    assert TmpValid(st, i);
    RenameReplacesOne(st.dir, s, s);
    assert Awaited(st', s) <==> Awaited(st, s);
    assert Settled(st', s) <==> AlreadyHeld(st, s);
  }

  lemma RenameAccounted(st: State, i: nat, notice: Notice, s: string)
    requires Invariant(st) && Enabled(st, RenameTmp(i, notice))
    ensures StepAccounted(st, RenameTmp(i, notice), s)
  {
    var st', w := Apply(st, RenameTmp(i, notice)), st.writers[i];
    if TmpPathOf(w.session) !in st.dir {
      SettledOnSameDirectory(st, st', s);
      assert Awaited(st', s) <==> Awaited(st, s);
    } else if s == w.session && s != "" {
      if st.watching {
        WatchedRenameAccounted(st, i, notice, s);
      } else {
        UnwatchedRenameAccounted(st, i, notice, s);
      }
    } else {
      OtherRenameAccounted(st, i, notice, s);
    }
  }

  // ---------- watcher steps ----------

  lemma NotifyAccounted(st: State, notice: Notice, s: string)
    requires Enabled(st, Notify(notice))
    ensures StepAccounted(st, Notify(notice), s)
  {
    var st' := Apply(st, Notify(notice));
    QueueGrows(st.queue, notice, st, st', s);
    SettledOnSameDirectory(st, st', s);
  }

  lemma ReceiveKeepsAwaited(st: State, k: nat, s: string)
    requires Enabled(st, Receive(k))
    ensures Awaited(st, s) <==> Awaited(Apply(st, Receive(k)), s)
  {
    var st' := Apply(st, Receive(k));
    if Queued(st, s) {
      var j :| 0 <= j < |st.queue| && Announces(st.queue[j], s);
      if j < k {
        assert st'.queue[j] == st.queue[j];
      } else if j > k {
        assert st'.queue[j - 1] == st.queue[j];
      }
    }
    if Queued(st', s) {
      var j :| 0 <= j < |st'.queue| && Announces(st'.queue[j], s);
      assert st'.queue[j] == st.queue[if j < k then j else j + 1];
    }
  }

  lemma ReceiveAccounted(st: State, k: nat, s: string)
    requires Enabled(st, Receive(k))
    ensures StepAccounted(st, Receive(k), s)
  {
    ReceiveKeepsAwaited(st, k, s);
    SettledOnSameDirectory(st, Apply(st, Receive(k)), s);
    Unmoved(st, Receive(k), s);
  }

  /** Steps that neither read nor announce anything. */
  lemma BookkeepingAccounted(st: State, step: Step, s: string)
    requires Enabled(st, step)
    requires step.Hook? || step.BeginWatch? || step.DebounceOver? || step.FinishReading?
    ensures StepAccounted(st, step, s)
  {
    var st' := Apply(st, step);
    SettledOnSameDirectory(st, st', s);
    assert st'.queue == st.queue && (Underway(st, s) <==> Underway(st', s));
    Unmoved(st, step, s);
  }

  lemma ListingAccounted(st: State, s: string)
    requires Invariant(st) && Enabled(st, ListDirectory)
    ensures StepAccounted(st, ListDirectory, s)
  {
    ViewLookup(st.dir, s);
    if s != "" {
      PathOfSession(s);
    }
    assert Awaited(st, s);
  }

  lemma FinishScanAccounted(st: State, s: string)
    requires Invariant(st) && Enabled(st, FinishScan)
    ensures StepAccounted(st, FinishScan, s)
  {
    var st' := Apply(st, FinishScan);
    assert Awaited(st', s) <==> Awaited(st, s);
  }

  /** Reading a sidecar settles its own session. */
  lemma OwnReadAccounted(st: State, step: Step, s: string)
    requires Enabled(st, step) && (step.ReadOne? || step.ScanOne?) && s == SessionOf(step.path)
    ensures StepAccounted(st, step, s)
  {
    ReadsAreTheView(st.dir, step.path);
    assert Underway(st, s) && Settled(Apply(st, step), s);
  }

  /** And no other. */
  lemma OtherReadEffect(st: State, step: Step, s: string)
    requires Enabled(st, step) && (step.ReadOne? || step.ScanOne?) && s != SessionOf(step.path)
    ensures var st' := Apply(st, step);
            && st'.dir == st.dir && st'.renamed == st.renamed && st'.queue == st.queue
            && Agree(Building(st), Building(st'), s) && Agree(Sending(st), Sending(st'), s)
            && (Underway(st, s) <==> Underway(st', s))
  {
    PathsDiffer(s, SessionOf(step.path));
  }

  lemma OtherReadAccounted(st: State, step: Step, s: string)
    requires Enabled(st, step) && (step.ReadOne? || step.ScanOne?) && s != SessionOf(step.path)
    ensures StepAccounted(st, step, s)
  {
    OtherReadEffect(st, step, s);
    SettledOnSameDirectory(st, Apply(st, step), s);
    Unmoved(st, step, s);
  }

  lemma ReadAccounted(st: State, step: Step, s: string)
    requires Enabled(st, step) && (step.ReadOne? || step.ScanOne?)
    ensures StepAccounted(st, step, s)
  {
    if s == SessionOf(step.path) {
      OwnReadAccounted(st, step, s);
    } else {
      OtherReadAccounted(st, step, s);
    }
  }

  lemma FailureAccounted(st: State, step: Step, s: string)
    requires Enabled(st, step) && Fails(step)
    ensures StepAccounted(st, step, s)
  {
    var st' := Apply(st, step);
    SettledOnSameDirectory(st, st', s);
    assert st'.queue == st.queue;
  }

  /** Over one step, exactly: a session stays coherent unless the step loses it, and becomes
      coherent only by being announced. */
  lemma StepIsAccounted(st: State, step: Step, s: string)
    requires Invariant(st) && Enabled(st, step)
    ensures StepAccounted(st, step, s)
  {
    match step
    case WriteTmp(i) => WriteAccounted(st, i, s);
    case RenameTmp(i, notice) => RenameAccounted(st, i, notice, s);
    case Notify(notice) => NotifyAccounted(st, notice, s);
    case ListDirectory => ListingAccounted(st, s);
    case FinishScan => FinishScanAccounted(st, s);
    case ReadOne(_) => ReadAccounted(st, step, s);
    case ScanOne(_) => ReadAccounted(st, step, s);
    case FailRead(_) => FailureAccounted(st, step, s);
    case FailScanOne(_) => FailureAccounted(st, step, s);
    case FailScan => FailureAccounted(st, step, s);
    case Receive(k) => ReceiveAccounted(st, k, s);
    case _ => BookkeepingAccounted(st, step, s);
  }

  // ---------- the invariant ----------

  lemma BasedAcross(st: State, st': State, s: string)
    requires Based(st, s) && (s in View(st.dir) ==> s in View(st'.dir))
    requires s in Building(st') || s in st'.cache ==> s in Building(st) || s in st.cache || s in View(st'.dir)
    requires s in st'.renamed ==> s in st.renamed || s in View(st'.dir) || s == ""
    ensures Based(st', s)
  {
  }

  lemma StepKeepsBased(st: State, step: Step, s: string)
    requires Invariant(st) && Enabled(st, step)
    ensures Based(Apply(st, step), s)
  {
    var st' := Apply(st, step);
    assert Based(st, s);
    match step
    case WriteTmp(i) => TmpIsInvisible(st.dir, st.writers[i].session, st.writers[i].body, s);
    case RenameTmp(i, _) =>
      assert TmpValid(st, i);
      if TmpPathOf(st.writers[i].session) in st.dir {
        RenameReplacesOne(st.dir, st.writers[i].session, s);
      }
    case ReadOne(path) => ReadsAreTheView(st.dir, path);
    case ScanOne(path) => ReadsAreTheView(st.dir, path);
    case _ =>
    BasedAcross(st, st', s);
  }

  lemma StepKeepsInvariant(st: State, step: Step)
    requires Invariant(st) && Enabled(st, step)
    ensures Invariant(Apply(st, step))
  {
    var st' := Apply(st, step);
    forall i | 0 <= i < |st'.writers| ensures TmpValid(st', i) {
      WritersKeepTmpValid(st, step, i);
    }
    forall s ensures Based(st', s) {
      StepKeepsBased(st, step, s);
    }
  }

  // ---------- runs ----------

  /** At the watcher's start, or with the watch begun on a cache that holds only sidecars there are. */
  ghost predicate Begins(start: State) {
    || start == Boot(start.dir)
    || (start == Start(start.dir, start.cache) && forall s | s in start.cache :: s in View(start.dir))
  }

  /** A step lost the session, or the cache was wrong about it from the start, and no later step
      announced it. */
  ghost predicate Dropped(start: State, steps: seq<Step>, s: string)
    requires IsRun(start, steps)
  {
    if steps == [] then !Coherent(start, s)
    else
      var front, step := steps[..|steps| - 1], steps[|steps| - 1];
      var st := After(start, front);
      !Announced(st, step, s) && (Loses(st, step, s) || Dropped(start, front, s))
  }

  lemma {:induction false} RunsKeepInvariant(start: State, steps: seq<Step>)
    requires Begins(start) && IsRun(start, steps)
    ensures Invariant(After(start, steps))
  {
    if steps != [] {
      RunsKeepInvariant(start, steps[..|steps| - 1]);
      StepKeepsInvariant(After(start, steps[..|steps| - 1]), steps[|steps| - 1]);
    }
  }

  /** In every run, whatever fails: a session is awaited or settled exactly when it has not been
      dropped. */
  lemma {:induction false} RunsAreAccounted(start: State, steps: seq<Step>, s: string)
    requires Begins(start) && IsRun(start, steps)
    ensures Coherent(After(start, steps), s) <==> !Dropped(start, steps, s)
  {
    if steps != [] {
      var front := steps[..|steps| - 1];
      RunsAreAccounted(start, front, s);
      RunsKeepInvariant(start, front);
      StepIsAccounted(After(start, front), steps[|steps| - 1], s);
    }
  }

  // ---------- main results ----------

  /** The cache agrees with the directory about the session, and if its sidecar was replaced since
      the watch began, the frontend has last been sent its present content. */
  ghost predicate Right(st: State, s: string) {
    var view := View(st.dir);
    Agree(st.cache, view, s)
    && (s in st.renamed && s != "" ==> s in view && s in st.latest && st.latest[s] == view[s])
  }

  /** At rest, a session is right exactly when it has not been dropped. */
  lemma RestIsRightIff(start: State, steps: seq<Step>, s: string)
    requires Begins(start) && IsRun(start, steps) && Quiescent(After(start, steps))
    ensures Right(After(start, steps), s) <==> !Dropped(start, steps, s)
  {
    RunsAreAccounted(start, steps, s);
    RunsKeepInvariant(start, steps);
    RestingSession(After(start, steps), s);
  }

  lemma RestingSession(st: State, s: string)
    requires Invariant(st) && Quiescent(st)
    ensures Right(st, s) <==> Coherent(st, s)
  {
    assert Based(st, s);
    ViewLookup(st.dir, s);
  }

  lemma AgreeEverywhere(a: map<string, Capture>, b: map<string, Capture>)
    requires forall s :: Agree(a, b, s)
    ensures a == b
  {
    forall s ensures s in a <==> s in b {
      assert Agree(a, b, s);
    }
    forall s | s in a ensures a[s] == b[s] {
      assert Agree(a, b, s);
    }
  }

  ghost predicate SentAll(st: State) {
    forall s | s in st.renamed && s != "" ::
      s in View(st.dir) && s in st.latest && st.latest[s] == View(st.dir)[s]
  }

  lemma AllRight(st: State)
    ensures st.cache == View(st.dir) && SentAll(st) <==> forall s :: Right(st, s)
  {
    if forall s :: Right(st, s) {
      forall s ensures Agree(st.cache, View(st.dir), s) {
        assert Right(st, s);
      }
      AgreeEverywhere(st.cache, View(st.dir));
      forall s | s in st.renamed && s != ""
        ensures s in View(st.dir) && s in st.latest && st.latest[s] == View(st.dir)[s]
      {
        assert Right(st, s);
      }
    }
  }

  ghost predicate NoneDropped(start: State, steps: seq<Step>)
    requires IsRun(start, steps)
  {
    forall s :: !Dropped(start, steps, s)
  }

  /** At rest, the cache is the directory and every replaced sidecar has been sent as it is, exactly
      when no session has been dropped. */
  lemma RestIsCoherentIff(start: State, steps: seq<Step>)
    requires Begins(start) && IsRun(start, steps) && Quiescent(After(start, steps))
    ensures After(start, steps).cache == View(After(start, steps).dir) && SentAll(After(start, steps)) <==>
            NoneDropped(start, steps)
  {
    var st := After(start, steps);
    AllRight(st);
    if NoneDropped(start, steps) {
      forall s ensures Right(st, s) {
        RestIsRightIff(start, steps, s);
      }
    }
    if forall s :: Right(st, s) {
      forall s ensures !Dropped(start, steps, s) {
        RestIsRightIff(start, steps, s);
      }
    }
  }

  /** No sidecar is replaced before the watch has begun. */
  predicate NoGapWrites(start: State, steps: seq<Step>)
    requires IsRun(start, steps)
  {
    steps == [] ||
    var front := steps[..|steps| - 1];
    NoGapWrites(start, front) && (steps[|steps| - 1].RenameTmp? ==> After(start, front).watching)
  }

  /** Only failures and writes before the watch lose a session. */
  lemma {:induction false} NothingIsDropped(start: State, steps: seq<Step>, s: string)
    requires IsRun(start, steps) && ReadsSucceed(steps) && NoGapWrites(start, steps) && Coherent(start, s)
    ensures !Dropped(start, steps, s)
  {
    if steps != [] {
      NothingIsDropped(start, steps[..|steps| - 1], s);
    }
  }

  /** In a run without failures and writes before the watch, a session whose sidecar the cache
      disagrees with is still awaited, or a scan that has its content is under way. */
  lemma StaleSessionsAreAwaited(start: State, steps: seq<Step>, s: string)
    requires Begins(start) && (start.watching ==> start.cache == View(start.dir))
    requires IsRun(start, steps) && ReadsSucceed(steps) && NoGapWrites(start, steps)
    ensures var st := After(start, steps);
            !Agree(st.cache, View(st.dir), s) ==>
              Awaited(st, s) || (st.loop.Scanning? && Agree(st.loop.found, View(st.dir), s))
  {
    NothingIsDropped(start, steps, s);
    RunsAreAccounted(start, steps, s);
    RunsKeepInvariant(start, steps);
    assert Based(After(start, steps), s);
  }

  /** From the watcher's start or from a current cache, without failures and writes before the
      watch: at rest the cache is the directory, and the frontend has last been sent the present
      content of every sidecar replaced meanwhile. */
  lemma RestIsCoherent(start: State, steps: seq<Step>)
    requires Begins(start) && (start.watching ==> start.cache == View(start.dir))
    requires IsRun(start, steps) && ReadsSucceed(steps) && NoGapWrites(start, steps)
    requires Quiescent(After(start, steps))
    ensures After(start, steps).cache == View(After(start, steps).dir) && SentAll(After(start, steps))
  {
    forall s ensures !Dropped(start, steps, s) {
      NothingIsDropped(start, steps, s);
    }
    RestIsCoherentIff(start, steps);
  }

  // ---------- what is lost ----------

  /** A hook has written its tmp file in an empty directory. */
  lemma Written(start: State, steps: seq<Step>, st: State, session: string, body: Body)
    returns (steps': seq<Step>, st': State)
    requires IsRun(start, steps) && After(start, steps) == st
    requires st.dir == map[] && st.writers == [] && IsValid(body)
    ensures IsRun(start, steps') && After(start, steps') == st'
    ensures ReadsSucceed(steps) ==> ReadsSucceed(steps')
    ensures st' == st.(dir := map[TmpPathOf(session) := body], writers := [Writer(session, body, Renaming)])
  {
    var hook := Hook(session, body.agent, body.sessionId, body.ts);
    HookThenWrite(st, hook, session, body);
    steps', st' := Extend(start, steps, st, hook);
    steps', st' := Extend(start, steps', st', WriteTmp(0));
  }

  lemma HookThenWrite(st: State, hook: Step, session: string, body: Body)
    requires st.dir == map[] && st.writers == [] && IsValid(body)
    requires hook == Hook(session, body.agent, body.sessionId, body.ts)
    ensures Enabled(st, hook) && Enabled(Apply(st, hook), WriteTmp(0))
    ensures Apply(Apply(st, hook), WriteTmp(0)) ==
            st.(dir := map[TmpPathOf(session) := body], writers := [Writer(session, body, Renaming)])
  {
    assert Apply(st, hook).writers == [Writer(session, body, Writing)];
  }

  /** And has published it. */
  lemma Published(start: State, steps: seq<Step>, st: State, session: string, body: Body, notice: Notice)
    returns (steps': seq<Step>, st': State)
    requires IsRun(start, steps) && After(start, steps) == st
    requires st.dir == map[] && st.writers == [] && IsValid(body)
    requires st.watching && IsSidecarPath(PathOf(session)) ==> Announces(notice, session)
    ensures IsRun(start, steps') && After(start, steps') == st'
    ensures ReadsSucceed(steps) ==> ReadsSucceed(steps')
    ensures st'.dir == map[PathOf(session) := body]
    ensures st'.loop == st.loop && st'.cache == st.cache && st'.latest == st.latest && st'.watching == st.watching
    ensures st'.queue == if st.watching then st.queue + [notice] else st.queue
  {
    steps', st' := Written(start, steps, st, session, body);
    PathsDiffer(session, session);
    steps', st' := Extend(start, steps', st', RenameTmp(0, notice));
  }

  /** A hook nobody interrupts: what it published is in the cache and has been sent. */
  lemma PublishedIsTaken(session: string, agent: string, sessionId: string, ts: nat) returns (steps: seq<Step>)
    requires session != "" && agent != "" && sessionId != ""
    ensures IsRun(Start(map[], map[]), steps) && Quiescent(After(Start(map[], map[]), steps))
    ensures var st := After(Start(map[], map[]), steps);
            && st.cache == map[session := Capture(session, agent, sessionId, ts)]
            && st.latest == map[session := Capture(session, agent, sessionId, ts)]
  {
    var start, notice := Start(map[], map[]), Event(Create, [PathOf(session)]);
    var st;
    PathOfSession(session);
    AnnouncesIff(notice, session);
    steps, st := Published(start, [], start, session, Sidecar(agent, sessionId, ts), notice);
    steps, st := TakeOne(start, steps, st, session, notice);
  }

  /** The loop takes one notice of one sidecar. */
  lemma TakeOne(start: State, steps: seq<Step>, st: State, session: string, notice: Notice)
    returns (steps': seq<Step>, st': State)
    requires IsRun(start, steps) && After(start, steps) == st && session != ""
    requires notice == Event(Create, [PathOf(session)]) && st.queue == [notice] && st.loop.Idle? && st.watching
    requires PathOf(session) in st.dir && st.dir[PathOf(session)].Sidecar? && IsValid(st.dir[PathOf(session)])
    ensures IsRun(start, steps') && After(start, steps') == st' && Quiescent(st')
    ensures var body := st.dir[PathOf(session)];
            var capture := Capture(session, body.agent, body.sessionId, body.ts);
            st'.cache == st.cache[session := capture] && st'.latest == st.latest[session := capture]
  {
    var path := PathOf(session);
    PathOfSession(session);
    assert NamedPaths(notice) == {path};
    steps', st' := Extend(start, steps, st, Receive(0));
    assert st'.loop == Collecting({path}, false) && st'.queue == [];
    steps', st' := Extend(start, steps', st', DebounceOver);
    steps', st' := Extend(start, steps', st', ReadOne(path));
    assert st'.loop == Reading({});
    steps', st' := Extend(start, steps', st', FinishReading);
  }

  /** A failed rescan is not repeated: the write it was for stays unseen at rest. */
  lemma FailedRescanLosesWrite(session: string, agent: string, sessionId: string, ts: nat) returns (steps: seq<Step>)
    requires session != "" && agent != "" && sessionId != ""
    ensures IsRun(Start(map[], map[]), steps) && Quiescent(After(Start(map[], map[]), steps))
    ensures var st := After(Start(map[], map[]), steps);
            session in View(st.dir) && st.cache == map[]
  {
    var start := Start(map[], map[]);
    var st;
    steps, st := Published(start, [], start, session, Sidecar(agent, sessionId, ts), Failed);
    steps, st := Extend(start, steps, st, Receive(0));
    assert st.queue == [] && st.loop == Collecting({}, true);
    steps, st := Extend(start, steps, st, DebounceOver);
    steps, st := Extend(start, steps, st, FailScan);
    ViewLookup(st.dir, session);
  }

  /** So does a write between the initial scan and the start of the watch. */
  lemma GapWriteIsLost(session: string, agent: string, sessionId: string, ts: nat) returns (steps: seq<Step>)
    requires session != "" && agent != "" && sessionId != ""
    ensures IsRun(Boot(map[]), steps) && ReadsSucceed(steps) && Quiescent(After(Boot(map[]), steps))
    ensures var st := After(Boot(map[]), steps);
            session in View(st.dir) && st.cache == map[]
  {
    var start := Boot(map[]);
    var st;
    steps, st := Extend(start, [], start, ListDirectory);
    steps, st := Extend(start, steps, st, FinishScan);
    steps, st := Published(start, steps, st, session, Sidecar(agent, sessionId, ts), Failed);
    steps, st := Extend(start, steps, st, BeginWatch);
    ViewLookup(st.dir, session);
  }
}
