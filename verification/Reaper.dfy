/** The startup reaper of lib.rs: kills Sanctel sessions that no known tab refers to. */
module Reaper {
  import opened Wrappers
  import opened TmuxNames
  import opened TmuxServer

  datatype ReapReport = ReapReport(reaped: nat, failed: nat)

  predicate IsOrphan(session: string, known: set<string>) {
    IsSanctelSession(session) && session !in known
  }

  function Orphans(listing: seq<string>, known: set<string>): seq<string> {
    if listing == [] then []
    else
      Orphans(listing[..|listing| - 1], known)
      + (if IsOrphan(listing[|listing| - 1], known) then [listing[|listing| - 1]] else [])
  }

  /** The server when every kill has succeeded. */
  function Reaped(server: Server, known: set<string>): Server {
    map s | s in server && !IsOrphan(s, known) :: server[s]
  }

  /** The orphans of a listing are its orphaned names, each as often as it is listed. */
  lemma {:induction false} OrphansAreExact(listing: seq<string>, known: set<string>, s: string)
    ensures multiset(Orphans(listing, known))[s] == if IsOrphan(s, known) then multiset(listing)[s] else 0
    ensures s in Orphans(listing, known) <==> s in listing && IsOrphan(s, known)
  {
    if listing != [] {
      var front, last := listing[..|listing| - 1], listing[|listing| - 1];
      OrphansAreExact(front, known, s);
      assert listing == front + [last];
    }
  }

  lemma OrphansOfPrefix(names: seq<string>, known: set<string>, i: nat)
    requires i < |names|
    ensures Orphans(names[..i + 1], known)
            == Orphans(names[..i], known) + (if IsOrphan(names[i], known) then [names[i]] else [])
  {
    assert names[..i + 1][..i] == names[..i];
  }

  ghost predicate AllKilled(names: seq<string>, n: nat, known: set<string>, killed: set<string>) {
    forall k | 0 <= k < n && k < |names| && IsOrphan(names[k], known) :: names[k] in killed
  }

  lemma KilledAllMeansReaped(server: Server, listing: seq<string>, known: set<string>, killed: set<string>)
    requires IsListing(listing, server)
    requires forall s | s in killed :: IsOrphan(s, known)
    requires AllKilled(listing, |listing|, known, killed)
    ensures server - killed == Reaped(server, known)
  {
    forall s | s in server && IsOrphan(s, known) ensures s in killed {
      assert s in listing;
    }
  }

  /** Whatever kills fail, each orphan in the listing is attempted exactly once, nothing else is,
      the report accounts for each of them, and exactly the sessions counted as reaped, orphans
      all, are gone. */
  method ReapOrphanSessions(tmux: TmuxCli, known: set<string>)
    returns (r: Result<ReapReport, TmuxError>, ghost listing: seq<string>, ghost killed: set<string>)
    modifies tmux
    ensures r.Err? ==> tmux.server == old(tmux.server) && tmux.killsIssued == old(tmux.killsIssued)
    ensures r.Ok? ==> IsListing(listing, old(tmux.server))
                      && (forall i, j | 0 <= i < j < |listing| :: listing[i] != listing[j])
                      && tmux.killsIssued == old(tmux.killsIssued) + Orphans(listing, known)
                      && r.value.reaped + r.value.failed == |Orphans(listing, known)|
    ensures r.Ok? ==> tmux.server == old(tmux.server) - killed && |killed| == r.value.reaped
                      && forall s | s in killed :: s in old(tmux.server) && IsOrphan(s, known)
    ensures r.Err? ==> tmux.faults > old(tmux.faults)
    ensures r.Ok? ==> r.value.failed <= tmux.faults - old(tmux.faults)
    ensures r.Ok? && r.value.failed == 0 ==> tmux.server == Reaped(old(tmux.server), known)
  {
    listing, killed := [], {};
    var listed := tmux.ListSessions();
    if listed.Err? {
      r := Err(listed.error);
      return;
    }
    var names, reaped, failed := listed.value, 0, 0;
    listing := names;
    for i := 0 to |names|
      invariant tmux.killsIssued == old(tmux.killsIssued) + Orphans(names[..i], known)
      invariant reaped + failed == |Orphans(names[..i], known)|
      invariant forall s | s in killed :: s in old(tmux.server) && IsOrphan(s, known)
      invariant forall k | i <= k < |names| :: names[k] !in killed
      invariant tmux.server == old(tmux.server) - killed
      invariant |killed| == reaped && failed <= tmux.faults - old(tmux.faults)
      invariant failed == 0 ==> AllKilled(names, i, known, killed)
    {
      OrphansOfPrefix(names, known, i);
      if IsOrphan(names[i], known) {
        var outcome := tmux.KillSession(names[i]);
        if outcome.Ok? {
          reaped := reaped + 1;
          killed := killed + {names[i]};
        } else {
          failed := failed + 1;
        }
      }
    }
    assert names[..|names|] == names;
    if failed == 0 {
      KilledAllMeansReaped(old(tmux.server), names, known, killed);
    }
    r := Ok(ReapReport(reaped, failed));
  }
}
