/**
  Sidecar writers, the event queue and the watcher, interleaved from its start. Writers publish by
  writing `<session>.json.tmp` and renaming it; the watcher first scans the directory, then begins
  the watch, then runs its loop, reading files one at a time while they do. Once the watch has
  begun, a rename posts a notice that names the sidecar or asks for a rescan, and any other notices
  may arrive at any moment. Any read and any listing can fail.
*/
module WatcherProtocol {
  import opened Sidecars
  import opened WatchLoop

  /** A run of `handle_hook_payload` past its payload check. */
  datatype Writer = Writer(session: string, body: Body, pc: WriterPc)
  datatype WriterPc = Writing | Renaming | Done(ok: bool)

  /** Where the watcher is. A scan collects `found` aside while it works through `todo`. */
  datatype Loop =
    | Idle
    | Collecting(paths: set<string>, fullRescan: bool)
    | Reading(left: set<string>)
    | Listing
    | Scanning(todo: set<string>, found: map<string, Capture>)

  /** `latest` is the last capture sent to the frontend for each session; `renamed` the sessions
      whose sidecar has been replaced since the watch began. */
  datatype State = State(
    dir: Directory, writers: seq<Writer>, queue: seq<Notice>, loop: Loop, cache: map<string, Capture>,
    latest: map<string, Capture>, renamed: set<string>, watching: bool)

  datatype Step =
    | Hook(session: string, agent: string, sessionId: string, ts: nat)
    | WriteTmp(i: nat)
    | RenameTmp(i: nat, notice: Notice)
    | Notify(notice: Notice)
    | BeginWatch
    | Receive(k: nat)
    | DebounceOver
    | ReadOne(path: string)
    | ListDirectory
    | ScanOne(path: string)
    | FinishReading
    | FinishScan
    | FailRead(path: string)
    | FailScanOne(path: string)
    | FailScan

  predicate Announces(n: Notice, session: string) {
    AsksRescan(n) || PathOf(session) in NamedPaths(n)
  }

  /** What announces a session, in terms of the kinds of events. */
  lemma AnnouncesIff(n: Notice, session: string)
    requires session != ""
    ensures Announces(n, session) <==> n.Failed? || n.kind == Other || ReportsChange(n, session)
  {
    PathOfSession(session);
  }

  predicate Enabled(st: State, step: Step) {
    match step
    case Hook(_, agent, sessionId, _) => agent != "" && sessionId != ""
    case WriteTmp(i) => i < |st.writers| && st.writers[i].pc.Writing?
    case RenameTmp(i, notice) =>
      && i < |st.writers| && st.writers[i].pc.Renaming?
      && (st.watching && IsSidecarPath(PathOf(st.writers[i].session)) ==> Announces(notice, st.writers[i].session))
    case Notify(_) => st.watching
    case BeginWatch => !st.watching && st.loop.Idle?
    case Receive(k) => k < |st.queue| && (st.loop.Idle? || st.loop.Collecting?)
    case DebounceOver => st.loop.Collecting?
    case ReadOne(path) => st.loop.Reading? && path in st.loop.left && IsSidecarPath(path)
    case ListDirectory => st.loop.Listing?
    case ScanOne(path) => st.loop.Scanning? && path in st.loop.todo && IsSidecarPath(path)
    case FinishReading => st.loop.Reading? && st.loop.left == {}
    case FinishScan => st.loop.Scanning? && st.loop.todo == {}
    case FailRead(path) => st.loop.Reading? && path in st.loop.left
    case FailScanOne(path) => st.loop.Scanning? && path in st.loop.todo
    case FailScan => st.loop.Listing?
  }

  function SetWriter(st: State, i: nat, pc: WriterPc): seq<Writer>
    requires i < |st.writers|
  {
    st.writers[i := st.writers[i].(pc := pc)]
  }

  /** A rename of a missing tmp file fails: another writer of the session has moved it. */
  function Renamed(st: State, i: nat, notice: Notice): State
    requires i < |st.writers|
  {
    var w := st.writers[i];
    var tmp := TmpPathOf(w.session);
    if tmp !in st.dir then st.(writers := SetWriter(st, i, Done(false)))
    else
      st.(dir := (st.dir - {tmp})[PathOf(w.session) := st.dir[tmp]],
          writers := SetWriter(st, i, Done(true)),
          queue := if st.watching then st.queue + [notice] else st.queue,
          renamed := if st.watching then st.renamed + {w.session} else st.renamed)
  }

  function Received(st: State, k: nat): State
    requires Enabled(st, Receive(k))
  {
    var n := st.queue[k];
    var paths := if st.loop.Idle? then {} else st.loop.paths;
    var fullRescan := if st.loop.Idle? then false else st.loop.fullRescan;
    st.(queue := st.queue[..k] + st.queue[k + 1..],
        loop := Collecting(paths + NamedPaths(n), fullRescan || AsksRescan(n)))
  }

  function ReadPath(st: State, path: string): State
    requires Enabled(st, ReadOne(path))
  {
    var capture := ReadCapture(st.dir, path);
    var st' := st.(loop := Reading(st.loop.left - {path}));
    if capture.None? then st'
    else st'.(cache := st.cache[capture.value.sessionName := capture.value],
              latest := st.latest[capture.value.sessionName := capture.value])
  }

  function ScanPath(st: State, path: string): State
    requires Enabled(st, ScanOne(path))
  {
    var capture := ReadCapture(st.dir, path);
    var found := if capture.None? then st.loop.found else st.loop.found[capture.value.sessionName := capture.value];
    st.(loop := Scanning(st.loop.todo - {path}, found))
  }

  /** The initial scan fills the cache silently; a rescan sends what it found. */
  function FinishedScan(st: State): State
    requires Enabled(st, FinishScan)
  {
    st.(loop := Idle, cache := st.loop.found, latest := if st.watching then st.latest + st.loop.found else st.latest)
  }

  function Apply(st: State, step: Step): State
    requires Enabled(st, step)
  {
    match step
    case Hook(session, agent, sessionId, ts) =>
      st.(writers := st.writers + [Writer(session, Sidecar(agent, sessionId, ts), Writing)])
    case WriteTmp(i) =>
      st.(dir := st.dir[TmpPathOf(st.writers[i].session) := st.writers[i].body], writers := SetWriter(st, i, Renaming))
    case RenameTmp(i, notice) => Renamed(st, i, notice)
    case Notify(notice) => st.(queue := st.queue + [notice])
    case BeginWatch => st.(watching := true)
    case Receive(k) => Received(st, k)
    case DebounceOver => st.(loop := if st.loop.fullRescan then Listing else Reading(st.loop.paths))
    case ReadOne(path) => ReadPath(st, path)
    case ListDirectory => st.(loop := Scanning(set p | p in st.dir && IsSidecarPath(p), map[]))
    case ScanOne(path) => ScanPath(st, path)
    case FinishReading => st.(loop := Idle)
    case FinishScan => FinishedScan(st)
    case FailRead(path) => st.(loop := Reading(st.loop.left - {path}))
    case FailScanOne(path) => st.(loop := Scanning(st.loop.todo - {path}, st.loop.found))
    case FailScan => st.(loop := Idle)
  }

  // ---------- runs ----------

  /** Before the initial scan. */
  function Boot(dir: Directory): State {
    State(dir, [], [], Listing, map[], map[], {}, false)
  }

  /** With the watch begun and the loop idle. */
  function Start(dir: Directory, cache: map<string, Capture>): State {
    State(dir, [], [], Idle, cache, map[], {}, true)
  }

  predicate IsRun(start: State, steps: seq<Step>)
    decreases |steps|, 0
  {
    steps == [] ||
    (IsRun(start, steps[..|steps| - 1]) && Enabled(After(start, steps[..|steps| - 1]), steps[|steps| - 1]))
  }

  function After(start: State, steps: seq<Step>): State
    requires IsRun(start, steps)
    decreases |steps|, 1
  {
    if steps == [] then start
    else Apply(After(start, steps[..|steps| - 1]), steps[|steps| - 1])
  }

  /** Extends a run that has reached `st` by one step. */
  lemma Extend(start: State, steps: seq<Step>, st: State, step: Step) returns (steps': seq<Step>, st': State)
    requires IsRun(start, steps) && After(start, steps) == st && Enabled(st, step)
    ensures steps' == steps + [step] && st' == Apply(st, step)
    ensures IsRun(start, steps') && After(start, steps') == st'
  {
    steps', st' := steps + [step], Apply(st, step);
    assert steps'[..|steps|] == steps;
  }

  predicate Fails(step: Step) {
    step.FailRead? || step.FailScanOne? || step.FailScan?
  }

  predicate ReadsSucceed(steps: seq<Step>) {
    forall k | 0 <= k < |steps| :: !Fails(steps[k])
  }

  predicate Quiescent(st: State) {
    st.watching && st.queue == [] && st.loop.Idle?
  }
}
