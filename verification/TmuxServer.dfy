/**
  What one tmux command does to the server, and the wrapper of tmux_cli.rs that issues them.
  The server is the map from each live session to its window names.
*/
module TmuxServer {
  import opened Wrappers
  import opened TmuxNames

  type Server = map<string, seq<string>>

  datatype TmuxError =
    | NotFound
    | CommandFailed
    | SessionAlreadyExists(session: string)

  // ---------- the server's side of each command ----------

  function WithSession(server: Server, session: string, window: string): Server {
    server[session := [window]]
  }

  function WithWindow(server: Server, session: string, window: string): Server
    requires session in server
  {
    server[session := server[session] + [window]]
  }

  function WithoutSession(server: Server, session: string): Server {
    server - {session}
  }

  predicate HasWindow(server: Server, session: string, window: string) {
    session in server && window in server[session]
  }

  /** The server after a successful `ensure_session_window` that nobody interrupts. */
  function Ensured(server: Server, session: string, window: string): Server {
    if HasWindow(server, session, window) then server
    else if session in server then WithWindow(server, session, window)
    else WithSession(server, session, window)
  }

  /** A listing holds the live sessions, in any order. */
  ghost predicate IsListing(listing: seq<string>, server: Server) {
    forall s :: s in listing <==> s in server
  }

  // ---------- the wrapper ----------

  /** One tmux socket. Whether a command can be spawned, and whether it exits with an error,
      is up to the environment; the commands below are run without interference. */
  class TmuxCli {
    var server: Server
    /** The targets of the `kill-session` commands issued so far. */
    ghost var killsIssued: seq<string>
    /** How many commands could not be spawned, or failed although nothing on the server stood against them. */
    ghost var faults: nat

    constructor ()
      ensures server == map[] && killsIssued == [] && faults == 0
    {
      server := map[];
      killsIssued := [];
      faults := 0;
    }

    /** Any nonzero exit reads as "no such session". */
    method HasSession(session: string) returns (r: Result<bool, TmuxError>)
      modifies this`faults
      ensures r.Ok? && r.value ==> session in server
      ensures r.Err? ==> !r.error.SessionAlreadyExists?
      ensures faults >= old(faults) && (r == Ok(session in server) || faults > old(faults))
    {
      var spawned, exitedZero: bool := *, *;
      if !spawned {
        faults := faults + 1;
        return Err(NotFound);
      }
      if session in server && !exitedZero {
        faults := faults + 1;
        return Ok(false);
      }
      r := Ok(session in server);
    }

    method NewSessionWithWindow(session: string, window: string) returns (r: Result<(), TmuxError>)
      modifies this`server, this`faults
      ensures faults >= old(faults) && (r.Ok? || session in server || faults > old(faults))
      ensures r.Ok? ==> session !in old(server) && server == WithSession(old(server), session, window)
      ensures r.Err? ==> server == old(server)
      ensures r.Err? && r.error.SessionAlreadyExists? ==> session in server
      ensures r.Err? && !r.error.SessionAlreadyExists? ==> faults > old(faults)
    {
      var spawned, rejected: bool := *, *;
      if !spawned {
        faults := faults + 1;
        return Err(NotFound);
      }
      if session in server {
        return Err(SessionAlreadyExists(session));
      }
      if rejected {
        faults := faults + 1;
        return Err(CommandFailed);
      }
      server := WithSession(server, session, window);
      r := Ok(());
    }

    method ListWindows(session: string) returns (r: Result<seq<string>, TmuxError>)
      modifies this`faults
      ensures r.Ok? ==> session in server && r.value == server[session]
      ensures r.Err? ==> !r.error.SessionAlreadyExists?
      ensures faults >= old(faults) && (r.Ok? || session !in server || faults > old(faults))
    {
      var spawned, exitedZero: bool := *, *;
      if !spawned {
        faults := faults + 1;
        return Err(NotFound);
      }
      if session !in server {
        return Err(CommandFailed);
      }
      if !exitedZero {
        faults := faults + 1;
        return Err(CommandFailed);
      }
      r := Ok(server[session]);
    }

    method NewWindow(session: string, window: string) returns (r: Result<(), TmuxError>)
      modifies this`server, this`faults
      ensures r.Ok? ==> session in old(server) && server == WithWindow(old(server), session, window)
      ensures r.Err? ==> server == old(server) && !r.error.SessionAlreadyExists?
      ensures faults >= old(faults) && (r.Ok? || session !in server || faults > old(faults))
    {
      var spawned, exitedZero: bool := *, *;
      if !spawned {
        faults := faults + 1;
        return Err(NotFound);
      }
      if session !in server {
        return Err(CommandFailed);
      }
      if !exitedZero {
        faults := faults + 1;
        return Err(CommandFailed);
      }
      server := WithWindow(server, session, window);
      r := Ok(());
    }

    method ListSessions() returns (r: Result<seq<string>, TmuxError>)
      modifies this`faults
      ensures faults >= old(faults) && (r.Ok? || faults > old(faults))
      ensures r.Ok? ==> IsListing(r.value, server)
      ensures r.Ok? ==> forall i, j | 0 <= i < j < |r.value| :: r.value[i] != r.value[j]
    {
      var spawned, exitedZero: bool := *, *;
      if !spawned {
        faults := faults + 1;
        return Err(NotFound);
      }
      if !exitedZero && server.Keys != {} {
        faults := faults + 1;
        return Err(CommandFailed);
      }
      var left, names := server.Keys, [];
      while left != {}
        invariant forall s :: s in server <==> s in left || s in names
        invariant forall s | s in names :: s !in left
        invariant forall i, j | 0 <= i < j < |names| :: names[i] != names[j]
        decreases left
      {
        var s :| s in left;
        left, names := left - {s}, names + [s];
      }
      r := Ok(names);
    }

    /** Killing a session that is gone, or a server that is gone, counts as success. */
    method KillSession(session: string) returns (r: Result<(), TmuxError>)
      modifies this
      ensures killsIssued == old(killsIssued) + [session]
      ensures faults >= old(faults) && (r.Ok? || faults > old(faults))
      ensures r.Ok? ==> server == WithoutSession(old(server), session)
      ensures r.Err? ==> server == old(server)
    {
      var spawned, exitedZero: bool := *, *;
      killsIssued := killsIssued + [session];
      if !spawned {
        faults := faults + 1;
        return Err(NotFound);
      }
      if session !in server {
        assert server == WithoutSession(server, session);
        return Ok(());
      }
      if !exitedZero {
        faults := faults + 1;
        return Err(CommandFailed);
      }
      server := WithoutSession(server, session);
      r := Ok(());
    }

    /** Success means the session holds the window and nothing else changed; a session made by
        this call holds exactly that window. Failure changes nothing. */
    method EnsureSessionWindow(session: string, window: string) returns (r: Result<(), TmuxError>)
      modifies this`server, this`faults
      ensures faults >= old(faults) && (r.Ok? || faults > old(faults))
      ensures r.Ok? ==> server == Ensured(old(server), session, window)
      ensures r.Err? ==> server == old(server) && !r.error.SessionAlreadyExists?
    {
      var found := HasSession(session);
      if found.Err? {
        return Err(found.error);
      }
      if found.value {
        r := AddWindowIfAbsent(session, window);
        return;
      }
      r := NewSessionWithWindow(session, window);
      if r.Ok? || !r.error.SessionAlreadyExists? {
        return;
      }
      found := HasSession(session);
      if found.Err? {
        return Err(found.error);
      }
      if !found.value {
        return Err(CommandFailed);
      }
      r := AddWindowIfAbsent(session, window);
    }

    method AddWindowIfAbsent(session: string, window: string) returns (r: Result<(), TmuxError>)
      requires session in server
      modifies this`server, this`faults
      ensures faults >= old(faults) && (r.Ok? || faults > old(faults))
      ensures r.Ok? ==> server == Ensured(old(server), session, window)
      ensures r.Err? ==> server == old(server) && !r.error.SessionAlreadyExists?
    {
      var existing := ListWindows(session);
      if existing.Err? {
        return Err(existing.error);
      }
      if window in existing.value {
        return Ok(());
      }
      r := NewWindow(session, window);
    }
  }

  // ---------- the allocator ----------

  class Mutex {
    constructor () {}
  }

  /** One mutex per worktree base, created on first use. */
  class AllocationLocks {
    var locks: map<string, Mutex>

    ghost predicate Valid()
      reads this
    {
      forall a, b | a in locks && b in locks && locks[a] == locks[b] :: a == b
    }

    constructor ()
      ensures Valid() && locks == map[]
    {
      locks := map[];
    }

    /** The same base always gets the same mutex, and distinct bases distinct ones. */
    method LockFor(base: string) returns (lock: Mutex)
      requires Valid()
      modifies this
      ensures Valid()
      ensures base in locks && locks[base] == lock
      ensures base in old(locks) ==> locks == old(locks)
      ensures base !in old(locks) ==> fresh(lock) && locks == old(locks)[base := lock]
    {
      if base !in locks {
        lock := new Mutex();
        locks := locks[base := lock];
      }
      lock := locks[base];
    }
  }

  /** Run alone, a successful allocation creates a session no listed name had, holding exactly
      the returned window, as long as the base's counter has not reached the last `u64`. */
  method AllocateSessionForTab(locks: AllocationLocks, tmux: TmuxCli, base: string)
    returns (r: Result<string, TmuxError>)
    requires locks.Valid()
    modifies locks, tmux`server, tmux`faults
    ensures locks.Valid()
    ensures tmux.faults >= old(tmux.faults) && (r.Ok? || tmux.faults > old(tmux.faults))
    ensures r.Err? ==> tmux.server == old(tmux.server)
    ensures r.Ok? ==>
              exists listing :: IsListing(listing, old(tmux.server))
                             && r.value == AllocatedName(Suffixes(base, listing))
                             && tmux.server == Ensured(old(tmux.server), JoinSession(base, r.value), r.value)
                             && (MaxIndex(Suffixes(base, listing)) < U64_MAX ==>
                                   JoinSession(base, r.value) !in old(tmux.server))
  {
    var lock := locks.LockFor(base);
    var listing := tmux.ListSessions();
    if listing.Err? {
      return Err(listing.error);
    }
    var window := AllocateWindowName(Suffixes(base, listing.value));
    SuffixesAreListed(base, listing.value, window);
    var session := JoinSession(base, window);
    var ensured := tmux.EnsureSessionWindow(session, window);
    if ensured.Err? {
      return Err(ensured.error);
    }
    assert IsListing(listing.value, old(tmux.server));
    r := Ok(window);
  }
}
