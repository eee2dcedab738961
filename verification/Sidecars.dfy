/**
  The hooks directory: one `<session>.json` sidecar per tmux session, published by renaming
  `<session>.json.tmp`, and the captures read from it (agent_session_watcher.rs, hook_handler.rs).
*/
module Sidecars {
  import opened Wrappers

  datatype Capture = Capture(sessionName: string, agent: string, sessionId: string, ts: nat)

  /** A file's content, as far as the sidecar parser can tell. */
  datatype Body = Sidecar(agent: string, sessionId: string, ts: nat) | Malformed

  /** File names to contents. */
  type Directory = map<string, Body>

  const EXTENSION := ".json"

  function PathOf(session: string): string {
    session + EXTENSION
  }

  function TmpPathOf(session: string): string {
    session + ".json.tmp"
  }

  /** The extension is `json`; a bare `.json` has no extension. */
  predicate IsSidecarPath(path: string) {
    |path| > 5 && path[|path| - 5..] == EXTENSION
  }

  /** The file stem. */
  function SessionOf(path: string): (session: string)
    requires IsSidecarPath(path)
    ensures session != "" && PathOf(session) == path
  {
    path[..|path| - 5]
  }

  predicate IsValid(body: Body) {
    body.Sidecar? && body.agent != "" && body.sessionId != ""
  }

  function CaptureOf(session: string, body: Body): Capture
    requires IsValid(body)
  {
    Capture(session, body.agent, body.sessionId, body.ts)
  }

  /** `read_agent_session_capture_file`. */
  function ReadCapture(dir: Directory, path: string): Option<Capture>
    requires IsSidecarPath(path)
  {
    if path in dir && IsValid(dir[path]) then Some(CaptureOf(SessionOf(path), dir[path])) else None
  }

  function Sessions(dir: Directory): (sessions: set<string>)
    ensures forall s | s in sessions :: s != "" && PathOf(s) in dir && IsValid(dir[PathOf(s)])
  {
    set path | path in dir && IsSidecarPath(path) && IsValid(dir[path]) :: SessionOf(path)
  }

  /** The captures a directory holds, by session name. */
  function View(dir: Directory): map<string, Capture> {
    map s | s in Sessions(dir) :: CaptureOf(s, dir[PathOf(s)])
  }

  predicate Agree(a: map<string, Capture>, b: map<string, Capture>, session: string) {
    (session in a <==> session in b) && (session in a && session in b ==> a[session] == b[session])
  }

  lemma PathOfSession(session: string)
    requires session != ""
    ensures IsSidecarPath(PathOf(session)) && SessionOf(PathOf(session)) == session
    ensures !IsSidecarPath(TmpPathOf(session))
  {
    var path, tmp := PathOf(session), TmpPathOf(session);
    assert path[|path| - 5..] == EXTENSION && path[..|path| - 5] == session;
    assert tmp[|tmp| - 1] == 'p' && EXTENSION[4] == 'n';
  }

  /** The view holds a session exactly when its sidecar is there and well formed. */
  lemma ViewLookup(dir: Directory, session: string)
    ensures session in View(dir) <==> session != "" && PathOf(session) in dir && IsValid(dir[PathOf(session)])
    ensures session in View(dir) ==> View(dir)[session] == CaptureOf(session, dir[PathOf(session)])
  {
    if session != "" {
      PathOfSession(session);
    }
  }

  /** What is read, in terms of the file's name and content. */
  lemma SidecarsAreRead(dir: Directory, session: string, agent: string, sessionId: string, ts: nat)
    requires session != "" && session + ".json" in dir && dir[session + ".json"] == Sidecar(agent, sessionId, ts)
    ensures agent != "" && sessionId != "" <==> session in View(dir)
    ensures session in View(dir) ==> View(dir)[session] == Capture(session, agent, sessionId, ts)
  {
    ViewLookup(dir, session);
  }

  lemma SidecarPathIff(path: string)
    ensures IsSidecarPath(path) <==> exists session :: session != "" && path == PathOf(session)
    ensures forall session :: PathOf(session) == session + ".json"
  {
    if IsSidecarPath(path) {
      assert path == PathOf(SessionOf(path));
    }
    if exists session :: session != "" && path == PathOf(session) {
      var session :| session != "" && path == PathOf(session);
      PathOfSession(session);
    }
  }

  lemma ReadsAreTheView(dir: Directory, path: string)
    requires IsSidecarPath(path)
    ensures ReadCapture(dir, path) == if SessionOf(path) in View(dir) then Some(View(dir)[SessionOf(path)]) else None
  {
    ViewLookup(dir, SessionOf(path));
  }
}
