/**
  The debounced watch loop of agent_session_watcher.rs on a directory that does not change
  meanwhile, and when grouping events into batches makes a difference.
*/
module WatchLoop {
  import opened Wrappers
  import opened Sidecars

  datatype EventKind = AnyKind | Access | Create | Modify | Remove | Other

  /** What the notification channel delivers. */
  datatype Notice = Failed | Event(kind: EventKind, paths: seq<string>)

  predicate AsksRescan(n: Notice) {
    n.Failed? || n.kind.Other?
  }

  /** The sidecar paths a notice names; a notice that asks for a rescan names none. */
  function NamedPaths(n: Notice): set<string> {
    if n.Event? && (n.kind.Create? || n.kind.Modify?) then set p | p in n.paths && IsSidecarPath(p) else {}
  }

  predicate AnyRescan(batch: seq<Notice>) {
    exists k :: 0 <= k < |batch| && AsksRescan(batch[k])
  }

  function AllPaths(batch: seq<Notice>): set<string> {
    if batch == [] then {} else AllPaths(batch[..|batch| - 1]) + NamedPaths(batch[|batch| - 1])
  }

  /** The part of the view that the paths name. */
  function Named(view: map<string, Capture>, paths: set<string>): map<string, Capture> {
    map s | s in view && PathOf(s) in paths :: view[s]
  }

  lemma NamedWithPath(view: map<string, Capture>, paths: set<string>, path: string)
    requires IsSidecarPath(path)
    ensures Named(view, paths + {path}) ==
            if SessionOf(path) in view then Named(view, paths)[SessionOf(path) := view[SessionOf(path)]]
                else Named(view, paths)
    ensures SessionOf(path) in Named(view, paths) ==> path in paths
  {
    forall s | PathOf(s) == path ensures s == SessionOf(path) {
      assert PathOf(s)[..|s|] == s && path[..|s|] == SessionOf(path);
    }
  }

  lemma NamedTwice(cache: map<string, Capture>, view: map<string, Capture>, p: set<string>, q: set<string>)
    ensures cache + Named(view, p) + Named(view, q) == cache + Named(view, p + q)
    ensures view + Named(view, p) == view
  {
  }

  /** The events sent carry exactly the captures of `m`. */
  ghost predicate Carry(sent: seq<Capture>, m: map<string, Capture>) {
    forall c :: c in sent <==> c.sessionName in m && m[c.sessionName] == c
  }

  lemma CarryMore(sent: seq<Capture>, m: map<string, Capture>, c: Capture)
    requires Carry(sent, m) && c.sessionName !in m
    ensures Carry(sent + [c], m[c.sessionName := c])
  {
  }

  lemma OverlayMore(cache: map<string, Capture>, m: map<string, Capture>, c: Capture)
    ensures (cache + m)[c.sessionName := c] == cache + m[c.sessionName := c]
  {
  }

  /** The captures a batch makes the loop send. */
  function Announced(view: map<string, Capture>, listable: bool, batch: seq<Notice>): map<string, Capture> {
    if AnyRescan(batch) then (if listable then view else map[]) else Named(view, AllPaths(batch))
  }

  /** The cache after one batch, for a directory with this view; `listable` says whether the
      directory itself can be read. */
  function AfterBatch(cache: map<string, Capture>, view: map<string, Capture>, listable: bool, batch: seq<Notice>)
    : map<string, Capture>
  {
    if AnyRescan(batch) then (if listable then view else cache)
    else cache + Named(view, AllPaths(batch))
  }

  // ---------- what the kinds of notices come to ----------

  lemma {:induction false} PathsOfMember(batch: seq<Notice>, k: nat)
    requires k < |batch|
    ensures NamedPaths(batch[k]) <= AllPaths(batch)
  {
    if k < |batch| - 1 {
      PathsOfMember(batch[..|batch| - 1], k);
    }
  }

  lemma {:induction false} PathsComeFromMembers(batch: seq<Notice>, path: string) returns (k: nat)
    requires path in AllPaths(batch)
    ensures k < |batch| && path in NamedPaths(batch[k])
  {
    var n := |batch| - 1;
    if path in NamedPaths(batch[n]) {
      k := n;
    } else {
      k := PathsComeFromMembers(batch[..n], path);
    }
  }

  /** The notice reports a creation or a modification of the session's sidecar. */
  predicate ReportsChange(n: Notice, session: string) {
    n.Event? && n.kind in {Create, Modify} && PathOf(session) in n.paths
  }

  /** A created or modified sidecar that can be read ends up in the cache as it is, and is sent. */
  lemma ChangesAreTaken(cache: map<string, Capture>, dir: Directory, batch: seq<Notice>, k: nat, s: string)
    requires k < |batch| && ReportsChange(batch[k], s) && s in View(dir)
    ensures var after, sent := AfterBatch(cache, View(dir), true, batch), Announced(View(dir), true, batch);
            && s in after && after[s] == View(dir)[s]
            && s in sent && sent[s] == View(dir)[s]
  {
    ViewLookup(dir, s);
    PathOfSession(s);
    PathsOfMember(batch, k);
    assert PathOf(s) in NamedPaths(batch[k]);
  }

  /** A batch without errors and other events touches no session that no creation or modification
      in it reports: accesses, removals and unspecified events do nothing. */
  lemma OthersAreLeft(cache: map<string, Capture>, view: map<string, Capture>, listable: bool, batch: seq<Notice>,
                      s: string)
    requires forall k | 0 <= k < |batch| :: batch[k].Event? && batch[k].kind != Other && !ReportsChange(batch[k], s)
    ensures Agree(AfterBatch(cache, view, listable, batch), cache, s)
    ensures s !in Announced(view, listable, batch)
  {
    if PathOf(s) in AllPaths(batch) {
      var k := PathsComeFromMembers(batch, PathOf(s));
    }
  }

  /** An error or an event of the other kind anywhere in a batch has the whole directory read and
      sent, or, if it cannot be listed, nothing at all. */
  lemma RescansTakeEverything(cache: map<string, Capture>, view: map<string, Capture>, listable: bool,
                              batch: seq<Notice>, k: nat)
    requires k < |batch| && (batch[k].Failed? || batch[k].kind == Other)
    ensures AfterBatch(cache, view, listable, batch) == if listable then view else cache
    ensures Announced(view, listable, batch) == if listable then view else map[]
  {
    assert AsksRescan(batch[k]);
  }

  /** What reading any of the paths yields is what the view says. */
  ghost predicate Describes(view: map<string, Capture>, dir: Directory, paths: set<string>) {
    forall p | p in paths && IsSidecarPath(p) ::
      ReadCapture(dir, p) == if SessionOf(p) in view then Some(view[SessionOf(p)]) else None
  }

  ghost predicate OnDisk(view: map<string, Capture>, dir: Directory) {
    forall s | s in view :: IsSidecarPath(PathOf(s)) && PathOf(s) in dir
  }

  lemma ViewDescribes(dir: Directory, paths: set<string>)
    ensures Describes(View(dir), dir, paths) && OnDisk(View(dir), dir)
  {
    forall p | p in paths && IsSidecarPath(p)
      ensures ReadCapture(dir, p) == if SessionOf(p) in View(dir) then Some(View(dir)[SessionOf(p)]) else None
    {
      ReadsAreTheView(dir, p);
    }
    forall s | s in View(dir) ensures IsSidecarPath(PathOf(s)) && PathOf(s) in dir {
      ViewLookup(dir, s);
      PathOfSession(s);
    }
  }

  class AgentSessionWatcher {
    var captures: map<string, Capture>
    /** The payloads of the capture events sent to the frontend. */
    var emitted: seq<Capture>

    constructor (initial: map<string, Capture>)
      ensures captures == initial && emitted == []
    {
      captures, emitted := initial, [];
    }

    static method CollectWatchResult(n: Notice, paths: set<string>, fullRescan: bool)
      returns (paths': set<string>, fullRescan': bool)
      ensures paths' == paths + NamedPaths(n)
      ensures fullRescan' == (fullRescan || AsksRescan(n))
    {
      paths', fullRescan' := paths, fullRescan;
      if n.Failed? || n.kind.Other? {
        fullRescan' := true;
        return;
      }
      if !n.kind.Create? && !n.kind.Modify? {
        return;
      }
      for i := 0 to |n.paths|
        invariant paths' == paths + set p | p in n.paths[..i] && IsSidecarPath(p)
      {
        if IsSidecarPath(n.paths[i]) {
          paths' := paths' + {n.paths[i]};
        }
        assert n.paths[..i + 1] == n.paths[..i] + [n.paths[i]];
      }
      assert n.paths[..|n.paths|] == n.paths;
    }

    /** The directory scan: skips other files and malformed sidecars. */
    static method ReadCaptureMap(dir: Directory, ghost view: map<string, Capture>) returns (found: map<string, Capture>)
      requires Describes(view, dir, dir.Keys) && OnDisk(view, dir)
      ensures found == view
    {
      found := map[];
      var left := dir.Keys;
      while left != {}
        invariant left <= dir.Keys
        invariant found == Named(view, dir.Keys - left)
        decreases left
      {
        var path :| path in left;
        assert dir.Keys - (left - {path}) == (dir.Keys - left) + {path};
        if IsSidecarPath(path) {
          NamedWithPath(view, dir.Keys - left, path);
          var capture := ReadCapture(dir, path);
          if capture.Some? {
            found := found[capture.value.sessionName := capture.value];
          }
        }
        left := left - {path};
      }
    }

    /** One turn of the loop: the cache becomes what `AfterBatch` says, and the captures sent are
        exactly the directory's, for the sessions the batch concerns. */
    method HandleBatch(batch: seq<Notice>, dir: Directory, listable: bool)
      modifies this
      ensures captures == AfterBatch(old(captures), View(dir), listable, batch)
      ensures old(emitted) <= emitted && Carry(emitted[|old(emitted)|..], Announced(View(dir), listable, batch))
    {
      var paths, fullRescan := CollectBatch(batch);
      if fullRescan {
        if listable {
          ViewDescribes(dir, dir.Keys);
          captures := ReadCaptureMap(dir, View(dir));
          EmitAll();
        }
      } else {
        ViewDescribes(dir, paths);
        ReadPaths(dir, paths, View(dir));
      }
    }

    static method CollectBatch(batch: seq<Notice>) returns (paths: set<string>, fullRescan: bool)
      ensures paths == AllPaths(batch) && fullRescan == AnyRescan(batch)
      ensures forall p | p in paths :: IsSidecarPath(p)
    {
      paths, fullRescan := {}, false;
      for i := 0 to |batch|
        invariant paths == AllPaths(batch[..i]) && fullRescan == AnyRescan(batch[..i])
        invariant forall p | p in paths :: IsSidecarPath(p)
      {
        AnyRescanOfPrefix(batch, i);
        assert batch[..i + 1][..i] == batch[..i];
        paths, fullRescan := CollectWatchResult(batch[i], paths, fullRescan);
      }
      assert batch[..|batch|] == batch;
    }

    method EmitAll()
      requires forall s | s in captures :: captures[s].sessionName == s
      modifies this`emitted
      ensures old(emitted) <= emitted && Carry(emitted[|old(emitted)|..], captures)
    {
      ghost var sent, done: map<string, Capture> := [], map[];
      var left := captures.Keys;
      while left != {}
        invariant left <= captures.Keys
        invariant emitted == old(emitted) + sent
        invariant done == captures - left && Carry(sent, done)
        decreases left
      {
        var s :| s in left;
        CarryMore(sent, done, captures[s]);
        left := left - {s};
        emitted := emitted + [captures[s]];
        sent, done := sent + [captures[s]], done[s := captures[s]];
      }
      assert done == captures;
    }

    /** The loop over the set of named paths, in any order. */
    method ReadPaths(dir: Directory, paths: set<string>, ghost view: map<string, Capture>)
      requires forall p | p in paths :: IsSidecarPath(p)
      requires Describes(view, dir, paths)
      modifies this
      ensures captures == old(captures) + Named(view, paths)
      ensures old(emitted) <= emitted && Carry(emitted[|old(emitted)|..], Named(view, paths))
    {
      ghost var sent, done: map<string, Capture> := [], map[];
      var left := paths;
      while left != {}
        invariant left <= paths
        invariant done == Named(view, paths - left)
        invariant captures == old(captures) + done
        invariant emitted == old(emitted) + sent && Carry(sent, done)
        decreases left
      {
        var path :| path in left;
        NamedWithPath(view, paths - left, path);
        assert paths - (left - {path}) == (paths - left) + {path};
        var capture := ReadCapture(dir, path);
        if capture.Some? {
          var c := capture.value;
          CarryMore(sent, done, c);
          OverlayMore(old(captures), done, c);
          captures := captures[c.sessionName := c];
          emitted := emitted + [c];
          sent, done := sent + [c], done[c.sessionName := c];
        }
        left := left - {path};
      }
      assert paths - left == paths;
    }
  }

  lemma AnyRescanOfPrefix(batch: seq<Notice>, i: nat)
    requires i < |batch|
    ensures AnyRescan(batch[..i + 1]) <==> AnyRescan(batch[..i]) || AsksRescan(batch[i])
  {
    var longer := batch[..i + 1];
    assert longer[i] == batch[i] && forall k | 0 <= k < i :: longer[k] == batch[..i][k];
  }

  // ---------- coalescing ----------

  /** The cache after handling the batches in turn. */
  function AfterBatches(cache: map<string, Capture>, view: map<string, Capture>, listable: bool,
                        batches: seq<seq<Notice>>)
    : map<string, Capture>
  {
    if batches == [] then cache
    else AfterBatch(AfterBatches(cache, view, listable, batches[..|batches| - 1]), view, listable,
        batches[|batches| - 1])
  }

  function Joined(batches: seq<seq<Notice>>): seq<Notice> {
    if batches == [] then [] else Joined(batches[..|batches| - 1]) + batches[|batches| - 1]
  }

  /** Each notice as a batch of its own. */
  function OneByOne(notices: seq<Notice>): seq<seq<Notice>> {
    seq(|notices|, i requires 0 <= i < |notices| => [notices[i]])
  }

  /** The paths of the batches that ask for no rescan. */
  function KeptPaths(batches: seq<seq<Notice>>): set<string> {
    if batches == [] then {}
    else
      KeptPaths(batches[..|batches| - 1])
      + (if AnyRescan(batches[|batches| - 1]) then {} else AllPaths(batches[|batches| - 1]))
  }

  lemma {:induction false} JoinedOneByOne(notices: seq<Notice>)
    ensures Joined(OneByOne(notices)) == notices
  {
    if notices != [] {
      var n := |notices| - 1;
      JoinedOneByOne(notices[..n]);
      assert OneByOne(notices)[..n] == OneByOne(notices[..n]);
    }
  }

  lemma {:induction false} AllPathsOfConcat(a: seq<Notice>, b: seq<Notice>)
    ensures AllPaths(a + b) == AllPaths(a) + AllPaths(b)
  {
    if b == [] {
      assert a + b == a;
    } else {
      var n := |b| - 1;
      assert (a + b)[..|a| + n] == a + b[..n];
      AllPathsOfConcat(a, b[..n]);
    }
  }

  lemma AnyRescanOfConcat(a: seq<Notice>, b: seq<Notice>)
    ensures AnyRescan(a + b) <==> AnyRescan(a) || AnyRescan(b)
  {
    assert forall k | 0 <= k < |a| :: (a + b)[k] == a[k];
    assert forall k | 0 <= k < |b| :: (a + b)[|a| + k] == b[k];
  }

  /** With a readable directory two batches are as good as one. */
  lemma BatchesMerge(cache: map<string, Capture>, view: map<string, Capture>, a: seq<Notice>, b: seq<Notice>)
    ensures AfterBatch(AfterBatch(cache, view, true, a), view, true, b) == AfterBatch(cache, view, true, a + b)
  {
    AnyRescanOfConcat(a, b);
    AllPathsOfConcat(a, b);
    NamedTwice(cache, view, AllPaths(a), AllPaths(b));
  }

  lemma {:induction false} ReadableBatches(cache: map<string, Capture>, view: map<string, Capture>,
      batches: seq<seq<Notice>>)
    ensures AfterBatches(cache, view, true, batches) == AfterBatch(cache, view, true, Joined(batches))
  {
    if batches != [] {
      ReadableBatches(cache, view, batches[..|batches| - 1]);
      BatchesMerge(cache, view, Joined(batches[..|batches| - 1]), batches[|batches| - 1]);
    }
  }

  /** Coalescing is invisible while the directory can be read: however the notices are grouped
      into batches, the cache ends up as if each were handled alone. */
  lemma CoalescingIsInvisible(cache: map<string, Capture>, view: map<string, Capture>, batches: seq<seq<Notice>>)
    ensures AfterBatches(cache, view, true, batches) == AfterBatches(cache, view, true, OneByOne(Joined(batches)))
  {
    ReadableBatches(cache, view, batches);
    ReadableBatches(cache, view, OneByOne(Joined(batches)));
    JoinedOneByOne(Joined(batches));
  }

  lemma {:induction false} UnreadableBatches(cache: map<string, Capture>, view: map<string, Capture>,
      batches: seq<seq<Notice>>)
    ensures AfterBatches(cache, view, false, batches) == cache + Named(view, KeptPaths(batches))
  {
    if batches != [] {
      UnreadableBatches(cache, view, batches[..|batches| - 1]);
    }
  }

  lemma {:induction false} KeptOneByOne(notices: seq<Notice>)
    ensures KeptPaths(OneByOne(notices)) == AllPaths(notices)
  {
    if notices != [] {
      var n := |notices| - 1;
      KeptOneByOne(notices[..n]);
      assert OneByOne(notices)[..n] == OneByOne(notices[..n]);
      assert [notices[n]][..0] == [];
      assert AllPaths([notices[n]]) == NamedPaths(notices[n]);
      assert AnyRescan([notices[n]]) <==> AsksRescan(notices[n]) by {
        assert [notices[n]][0] == notices[n];
      }
    }
  }

  /** With an unreadable directory a rescan fails and takes the paths of its batch with it. The
      grouping then stays invisible exactly when each capture lost that way is already cached. */
  lemma CoalescingLosesPaths(cache: map<string, Capture>, view: map<string, Capture>, batches: seq<seq<Notice>>)
    ensures AfterBatches(cache, view, false, batches) == AfterBatches(cache, view, false,
              OneByOne(Joined(batches))) <==>
            forall s | s in Named(view, AllPaths(Joined(batches))) && PathOf(s) !in KeptPaths(batches) ::
              s in cache && cache[s] == view[s]
  {
    var notices := Joined(batches);
    UnreadableBatches(cache, view, batches);
    UnreadableBatches(cache, view, OneByOne(notices));
    KeptOneByOne(notices);
    KeptAreNamed(batches);
    var grouped, single := cache + Named(view, KeptPaths(batches)), cache + Named(view, AllPaths(notices));
    if grouped == single {
      forall s | s in Named(view, AllPaths(notices)) && PathOf(s) !in KeptPaths(batches)
        ensures s in cache && cache[s] == view[s]
      {
        assert s in single && single[s] == view[s];
        assert s in grouped && grouped[s] == single[s];
      }
    }
  }

  lemma {:induction false} KeptAreNamed(batches: seq<seq<Notice>>)
    ensures KeptPaths(batches) <= AllPaths(Joined(batches))
  {
    if batches != [] {
      var front, last := batches[..|batches| - 1], batches[|batches| - 1];
      KeptAreNamed(front);
      AllPathsOfConcat(Joined(front), last);
    }
  }
}
