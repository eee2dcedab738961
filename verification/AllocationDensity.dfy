/**
  Dense allocation: with no kills and no sessions on a base to begin with, k successful
  allocations on it leave exactly the indices 1 to k, in any interleaving with other bases.
*/
module AllocationDensity {
  import opened Wrappers
  import opened Decimal
  import opened TmuxNames
  import opened TmuxServer
  import opened TmuxProtocol
  import opened AllocationSafety

  predicate Succeeded(c: Caller, base: string) {
    c.call == Allocate(base) && c.pc == Returned(true)
  }

  function Successes(callers: seq<Caller>, base: string): (k: nat)
    ensures k <= |callers|
  {
    if callers == [] then 0
    else Successes(callers[..|callers| - 1], base) + (if Succeeded(callers[|callers| - 1], base) then 1 else 0)
  }

  lemma {:induction false} SuccessesAfterUpdate(callers: seq<Caller>, base: string, i: nat, c: Caller)
    requires i < |callers| && !Succeeded(callers[i], base)
    ensures Successes(callers[i := c], base) == Successes(callers, base) + (if Succeeded(c, base) then 1 else 0)
  {
    var n := |callers| - 1;
    if i == n {
      assert callers[i := c][..n] == callers[..n];
    } else {
      assert callers[i := c][..n] == callers[..n][i := c];
      SuccessesAfterUpdate(callers[..n], base, i, c);
    }
  }

  lemma {:induction false} SuccessesBelow(callers: seq<Caller>, base: string, i: nat)
    requires i < |callers| && !Succeeded(callers[i], base)
    ensures Successes(callers, base) < |callers|
  {
    if i < |callers| - 1 {
      SuccessesBelow(callers[..|callers| - 1], base, i);
    }
  }

  ghost predicate IsNth(window: string, k: nat) {
    exists n :: 1 <= n <= k && window == TermName(n)
  }

  /** The counted sessions of the base are exactly `term-1` to `term-k`. */
  ghost predicate Holds(server: Server, base: string, k: nat) {
    forall w :: TermDigits(w).Some? && JoinSession(base, w) in server <==> IsNth(w, k)
  }

  /** An allocator of the base that has scanned is about to make the next one, unless the
      counter is used up. */
  ghost predicate PicksNext(st: State, base: string, i: nat)
    requires i < |st.callers|
  {
    var c := st.callers[i];
    c.call == Allocate(base) && c.Ensuring() && Successes(st.callers, base) < U64_MAX ==>
      c.Window() == TermName(Successes(st.callers, base) + 1)
  }

  ghost predicate Dense(st: State, base: string) {
    && Safe(st) && AllAllocators(st)
    && Holds(st.server, base, Successes(st.callers, base))
    && (forall i | 0 <= i < |st.callers| :: PicksNext(st, base, i))
  }

  lemma CountedNamesHaveNoSeparator(w: string)
    requires TermDigits(w).Some?
    ensures '_' !in w
  {
    forall i | 0 <= i < |w| ensures w[i] != '_' {
      assert if i < 5 then w[i] == TERM[i] else w[i] == w[5..][i - 5];
    }
  }

  lemma NthNamesAreDistinct(m: nat, n: nat)
    requires TermName(m) == TermName(n)
    ensures m == n
  {
    assert Value(Print(m)) == m && Value(Print(n)) == n;
  }

  /** The scan of a densely filled base finds `k` as its largest index. */
  lemma ScanFindsCount(server: Server, base: string, listing: seq<string>, k: nat)
    requires Holds(server, base, k) && IsListing(listing, server) && k < U64_MAX
    ensures AllocatedName(Suffixes(base, listing)) == TermName(k + 1)
    ensures MaxIndex(Suffixes(base, listing)) == k
  {
    var suffixes := Suffixes(base, listing);
    MaxIndexIsGreatest(suffixes);
    var max := MaxIndex(suffixes);
    if k > 0 {
      assert IsNth(TermName(k), k);
      SuffixesAreListed(base, listing, TermName(k));
      assert TermIndex(TermName(k)) == Some(k);
    }
    if max > 0 {
      var e :| e in suffixes && TermIndex(e) == Some(max);
      SuffixesAreListed(base, listing, e);
      assert IsNth(e, k);
    }
  }

  /** An allocator of the base that picked the next name creates it and completes the count. */
  lemma CreationExtends(server: Server, base: string, k: nat)
    requires Holds(server, base, k)
    ensures Holds(WithSession(server, JoinSession(base, TermName(k + 1)), TermName(k + 1)), base, k + 1)
  {
    var session := JoinSession(base, TermName(k + 1));
    forall w
      ensures TermDigits(w).Some? && JoinSession(base, w) in WithSession(server, session, TermName(k + 1)) <==>
                IsNth(w, k + 1)
    {
      if JoinSession(base, w) == session {
        assert JoinSession(base, w)[|base| + 2..] == w && session[|base| + 2..] == TermName(k + 1);
        assert w == TermName(k + 1);
      }
      if IsNth(w, k + 1) {
        var n :| 1 <= n <= k + 1 && w == TermName(n);
        assert n <= k ==> IsNth(w, k);
      }
      if IsNth(w, k) {
        var n :| 1 <= n <= k && w == TermName(n);
        assert IsNth(w, k + 1);
      }
    }
  }

  lemma OtherBaseKeepsCount(server: Server, base: string, k: nat, other: string, window: string)
    requires Holds(server, base, k) && other != base && '_' !in window
    ensures Holds(WithSession(server, JoinSession(other, window), window), base, k)
  {
    forall w | TermDigits(w).Some? ensures JoinSession(base, w) != JoinSession(other, window) {
      CountedNamesHaveNoSeparator(w);
      if JoinSession(base, w) == JoinSession(other, window) {
        SessionNameDecodes(base, w, other, window);
      }
    }
  }

  /** Freshness of an allocator that picked `term-(k+1)`: its counter has not wrapped. */
  lemma NextIsFresh(st: State, base: string, i: nat)
    requires Dense(st, base) && i < |st.callers| && Successes(st.callers, base) < U64_MAX
    requires st.callers[i].call == Allocate(base) && st.callers[i].Ensuring()
    ensures st.callers[i].PickedFresh()
    ensures st.callers[i].pc.Probing? || st.callers[i].pc.CreatingSession?
    ensures st.callers[i].Session() !in st.server
  {
    var c, k := st.callers[i], Successes(st.callers, base);
    assert PicksNext(st, base, i) && FreshCaller(st, i);
    AllocatedNameIsFresh(c.suffixes);
    MaxIndexIsGreatest(c.suffixes);
    assert TermIndex(c.Window()) == Some(k + 1);
  }

  lemma ScanKeepsDense(st: State, base: string, i: nat, listing: seq<string>)
    requires Dense(st, base) && Enabled(st, Scan(i, listing))
    ensures forall j | 0 <= j < |st.callers| :: PicksNext(Apply(st, Scan(i, listing)), base, j)
    ensures Successes(Apply(st, Scan(i, listing)).callers, base) == Successes(st.callers, base)
  {
    var st' := Apply(st, Scan(i, listing));
    SuccessesAfterUpdate(st.callers, base, i, st'.callers[i]);
    forall j | 0 <= j < |st.callers| ensures PicksNext(st', base, j) {
      assert PicksNext(st, base, j);
      if j == i && st.callers[i].call == Allocate(base) && Successes(st.callers, base) < U64_MAX {
        ScanFindsCount(st.server, base, listing, Successes(st.callers, base));
      }
    }
  }

  lemma OneHolder(st: State, base: string, i: nat, j: nat)
    requires Exclusive(st) && i < |st.callers| && j < |st.callers|
    requires st.callers[i].call == st.callers[j].call == Allocate(base)
    requires st.callers[i].HoldsLock() && st.callers[j].HoldsLock()
    ensures i == j
  {
    assert HolderLocked(st, i) && HolderLocked(st, j);
  }

  lemma EnsuringSinceScan(st: State, step: Step, j: nat)
    requires Enabled(st, step) && j < |st.callers| && !step.Scan?
    ensures var c := Apply(st, step).callers[j];
            c.call == st.callers[j].call && c.suffixes == st.callers[j].suffixes
                && (c.Ensuring() ==> st.callers[j].Ensuring())
  {
  }

  /** What a picked name depends on. */
  lemma PicksAcross(st: State, st': State, base: string, j: nat)
    requires j < |st.callers| && j < |st'.callers| && PicksNext(st, base, j)
    requires st'.callers[j].call == st.callers[j].call && st'.callers[j].suffixes == st.callers[j].suffixes
    requires st'.callers[j].Ensuring() ==> st.callers[j].Ensuring()
    requires st'.callers[j].call == Allocate(base) && st'.callers[j].Ensuring() ==>
               Successes(st'.callers, base) == Successes(st.callers, base)
    ensures PicksNext(st', base, j)
  {
  }

  /** A creation does not count while some allocator of the base is still between scan and return. */
  lemma CreateCount(st: State, base: string, i: nat, j: nat)
    requires Exclusive(st) && Enabled(st, CreateSession(i)) && j < |st.callers|
    requires Apply(st, CreateSession(i)).callers[j].call == Allocate(base)
    requires Apply(st, CreateSession(i)).callers[j].Ensuring()
    ensures Successes(Apply(st, CreateSession(i)).callers, base) == Successes(st.callers, base)
  {
    var st' := Apply(st, CreateSession(i));
    SuccessesAfterUpdate(st.callers, base, i, st'.callers[i]);
    if st.callers[i].call == Allocate(base) {
      OneHolder(st, base, i, j);
    }
  }

  lemma CreateKeepsPicks(st: State, base: string, i: nat, j: nat)
    requires Exclusive(st) && Enabled(st, CreateSession(i)) && j < |st.callers| && PicksNext(st, base, j)
    ensures PicksNext(Apply(st, CreateSession(i)), base, j)
  {
    var st' := Apply(st, CreateSession(i));
    EnsuringSinceScan(st, CreateSession(i), j);
    if st'.callers[j].call == Allocate(base) && st'.callers[j].Ensuring() {
      CreateCount(st, base, i, j);
    }
    PicksAcross(st, st', base, j);
  }

  lemma CreateKeepsHolds(st: State, base: string, i: nat)
    requires Dense(st, base) && Enabled(st, CreateSession(i))
    requires Successes(Apply(st, CreateSession(i)).callers, base) <= U64_MAX
    ensures Holds(Apply(st, CreateSession(i)).server, base, Successes(Apply(st, CreateSession(i)).callers, base))
  {
    var st', c := Apply(st, CreateSession(i)), st.callers[i];
    SuccessesAfterUpdate(st.callers, base, i, st'.callers[i]);
    assert PicksNext(st, base, i) && HolderLocked(st, i);
    if c.call.base == base && Successes(st.callers, base) < U64_MAX {
      NextIsFresh(st, base, i);
      CreationExtends(st.server, base, Successes(st.callers, base));
    } else if c.call.base != base && c.Session() !in st.server {
      AllocatedNamesAreTerms(c.suffixes);
      OtherBaseKeepsCount(st.server, base, Successes(st.callers, base), c.call.base, c.Window());
    }
  }

  /** A step that neither scans nor creates completes no allocation of the base. */
  lemma OtherStepsKeepCount(st: State, base: string, step: Step)
    requires Dense(st, base) && Enabled(st, step)
    requires Successes(Apply(st, step).callers, base) <= U64_MAX
    requires !step.Scan? && !step.CreateSession? && !step.Kill? && !step.Begin?
    ensures Successes(Apply(st, step).callers, base) == Successes(st.callers, base)
  {
    var i := step.i;
    if st.callers[i].call == Allocate(base) && st.callers[i].Ensuring() && Successes(st.callers, base) < U64_MAX {
      NextIsFresh(st, base, i);
    }
    SuccessesAfterUpdate(st.callers, base, i, Apply(st, step).callers[i]);
  }

  lemma OtherStepsKeepPicks(st: State, base: string, step: Step, j: nat)
    requires Dense(st, base) && Enabled(st, step) && j < |st.callers|
    requires Successes(Apply(st, step).callers, base) <= U64_MAX
    requires !step.Scan? && !step.CreateSession? && !step.Kill? && !step.Begin?
    ensures PicksNext(Apply(st, step), base, j)
  {
    OtherStepsKeepCount(st, base, step);
    EnsuringSinceScan(st, step, j);
    assert PicksNext(st, base, j);
  }

  lemma OtherStepsKeepSessions(st: State, step: Step)
    requires Enabled(st, step)
    requires !step.CreateSession? && !step.Kill?
    ensures Apply(st, step).server.Keys == st.server.Keys
  {
  }

  lemma OtherStepsKeepDense(st: State, base: string, step: Step)
    requires Dense(st, base) && Enabled(st, step)
    requires Successes(Apply(st, step).callers, base) <= U64_MAX
    requires !step.Scan? && !step.CreateSession? && !step.Kill? && !step.Begin?
    ensures Holds(Apply(st, step).server, base, Successes(Apply(st, step).callers, base))
    ensures forall j | 0 <= j < |st.callers| :: PicksNext(Apply(st, step), base, j)
  {
    forall j | 0 <= j < |st.callers| ensures PicksNext(Apply(st, step), base, j) {
      OtherStepsKeepPicks(st, base, step, j);
    }
    OtherStepsKeepCount(st, base, step);
    OtherStepsKeepSessions(st, step);
    assert forall s :: s in Apply(st, step).server <==> s in Apply(st, step).server.Keys;
  }

  lemma BeginKeepsCount(st: State, base: string, call: Call)
    ensures Successes(Apply(st, Begin(call)).callers, base) == Successes(st.callers, base)
  {
    var st' := Apply(st, Begin(call));
    assert st'.callers[..|st.callers|] == st.callers;
  }

  lemma BeginKeepsPicks(st: State, base: string, call: Call, j: nat)
    requires j <= |st.callers| && (j < |st.callers| ==> PicksNext(st, base, j))
    ensures PicksNext(Apply(st, Begin(call)), base, j)
  {
    BeginKeepsCount(st, base, call);
  }

  lemma StepKeepsDense(st: State, base: string, step: Step)
    requires Dense(st, base) && Enabled(st, step)
    requires Successes(Apply(st, step).callers, base) <= U64_MAX
    requires !step.Kill? && (step.Begin? ==> step.call.Allocate?)
    ensures Dense(Apply(st, step), base)
  {
    StepKeepsSafe(st, step);
    StepKeepsAllocators(st, step);
    match step
    case Begin(call) =>
      BeginKeepsCount(st, base, call);
      forall j | 0 <= j <= |st.callers| ensures PicksNext(Apply(st, step), base, j) {
        assert j < |st.callers| ==> PicksNext(st, base, j);
        BeginKeepsPicks(st, base, call, j);
      }
    case Scan(i, listing) => ScanKeepsDense(st, base, i, listing);
    case CreateSession(i) =>
      CreateKeepsHolds(st, base, i);
      forall j | 0 <= j < |st.callers| ensures PicksNext(Apply(st, step), base, j) {
        assert PicksNext(st, base, j);
        CreateKeepsPicks(st, base, i, j);
      }
    case _ => OtherStepsKeepDense(st, base, step);
  }

  /** Successes are never taken back. */
  lemma SuccessesGrow(st: State, base: string, step: Step)
    requires Enabled(st, step)
    ensures Successes(st.callers, base) <= Successes(Apply(st, step).callers, base)
  {
    var st' := Apply(st, step);
    if step.Begin? {
      assert st'.callers[..|st.callers|] == st.callers;
    } else if !step.Kill? {
      assert st'.callers == st.callers[step.i := st'.callers[step.i]];
      SuccessesAfterUpdate(st.callers, base, step.i, st'.callers[step.i]);
    }
  }

  lemma {:induction false} RunsAreDense(server: Server, steps: seq<Step>, base: string)
    requires IsRun(server, steps) && OnlyAllocators(steps) && NoKills(steps) && Holds(server, base, 0)
    requires Successes(After(server, steps).callers, base) <= U64_MAX
    ensures Dense(After(server, steps), base)
  {
    if steps != [] {
      var front, step := steps[..|steps| - 1], steps[|steps| - 1];
      SuccessesGrow(After(server, front), base, step);
      RunsAreDense(server, front, base);
      StepKeepsDense(After(server, front), base, step);
    }
  }

  // ---------- the end of the counter ----------

  /** Every counted session of the base has an index that fits the counter. */
  predicate IndexesFit(server: Server, base: string) {
    forall s | s in server && base + SEPARATOR <= s && TermDigits(s[|base| + 2..]).Some? ::
      TermIndex(s[|base| + 2..]).Some?
  }

  lemma AllocatedNamesFit(suffixes: seq<string>)
    ensures TermIndex(AllocatedName(suffixes)).Some?
  {
    MaxIndexIsGreatest(suffixes);
  }

  lemma CreationKeepsFit(server: Server, base: string, c: Caller)
    requires IndexesFit(server, base) && c.call.Allocate?
    ensures IndexesFit(WithSession(server, c.Session(), c.Window()), base)
  {
    var s := c.Session();
    AllocatedNamesFit(c.suffixes);
    AllocatedNamesAreTerms(c.suffixes);
    if base + SEPARATOR <= s && TermDigits(s[|base| + 2..]).Some? {
      var w := s[|base| + 2..];
      assert s == JoinSession(base, w);
      CountedNamesHaveNoSeparator(w);
      SessionNameDecodes(base, w, c.call.base, c.Window());
    }
  }

  lemma StepKeepsFit(st: State, base: string, step: Step)
    requires AllAllocators(st) && IndexesFit(st.server, base) && Enabled(st, step)
    ensures IndexesFit(Apply(st, step).server, base)
  {
    if step.CreateSession? {
      CreationKeepsFit(st.server, base, st.callers[step.i]);
    } else {
      assert Apply(st, step).server.Keys <= st.server.Keys;
    }
  }

  lemma {:induction false} RunsKeepFit(server: Server, steps: seq<Step>, base: string)
    requires IsRun(server, steps) && OnlyAllocators(steps) && IndexesFit(server, base)
    ensures IndexesFit(After(server, steps).server, base)
  {
    if steps != [] {
      var front := steps[..|steps| - 1];
      RunsKeepFit(server, front, base);
      CallsComeFromSteps(server, front);
      StepKeepsFit(After(server, front), base, steps[|steps| - 1]);
    }
  }

  lemma UnfitIndexIsAbsent(server: Server, base: string, n: nat)
    requires IndexesFit(server, base) && n > U64_MAX
    ensures JoinSession(base, TermName(n)) !in server
  {
    var s := JoinSession(base, TermName(n));
    assert s[..|base| + 2] == base + SEPARATOR && s[|base| + 2..] == TermName(n);
    assert TermDigits(TermName(n)) == Some(Print(n)) && Value(Print(n)) == n;
  }

  // ---------- main results ----------

  /** No counted session of the base is live to begin with. */
  predicate StartsEmpty(server: Server, base: string) {
    forall s | s in server && base + SEPARATOR <= s :: TermDigits(s[|base| + 2..]).None?
  }

  lemma EmptyHoldsNone(server: Server, base: string)
    requires StartsEmpty(server, base)
    ensures Holds(server, base, 0) && IndexesFit(server, base)
  {
    forall w | TermDigits(w).Some? ensures JoinSession(base, w) !in server {
      var s := JoinSession(base, w);
      assert s[..|base| + 2] == base + SEPARATOR && s[|base| + 2..] == w;
    }
    assert forall w :: !IsNth(w, 0);
  }

  /** After k successful allocations on the base, in any run without kills, its live indices are
      exactly 1 to k, precisely as long as the counter can count to k. */
  lemma AllocationIsDense(server: Server, steps: seq<Step>, base: string)
    requires IsRun(server, steps) && OnlyAllocators(steps) && NoKills(steps) && StartsEmpty(server, base)
    ensures var st := After(server, steps);
            var k := Successes(st.callers, base);
            k <= U64_MAX <==> forall n: nat :: JoinSession(base, TermName(n)) in st.server <==> 1 <= n <= k
  {
    var st := After(server, steps);
    var k := Successes(st.callers, base);
    EmptyHoldsNone(server, base);
    if k <= U64_MAX {
      RunsAreDense(server, steps, base);
      forall n: nat ensures JoinSession(base, TermName(n)) in st.server <==> 1 <= n <= k {
        NthIsInRange(n, k);
      }
    } else {
      RunsKeepFit(server, steps, base);
      UnfitIndexIsAbsent(st.server, base, k);
    }
  }

  lemma NthIsInRange(n: nat, k: nat)
    ensures IsNth(TermName(n), k) <==> 1 <= n <= k
  {
    if IsNth(TermName(n), k) {
      var m :| 1 <= m <= k && TermName(n) == TermName(m);
      NthNamesAreDistinct(n, m);
    }
  }

  /** And no other counted session of the base is live, such as one with leading zeros. */
  lemma OnlyAllocatedAreLive(server: Server, steps: seq<Step>, base: string, w: string)
    requires IsRun(server, steps) && OnlyAllocators(steps) && NoKills(steps) && StartsEmpty(server, base)
    requires Successes(After(server, steps).callers, base) <= U64_MAX
    requires TermDigits(w).Some? && JoinSession(base, w) in After(server, steps).server
    ensures IsNth(w, Successes(After(server, steps).callers, base))
  {
    EmptyHoldsNone(server, base);
    RunsAreDense(server, steps, base);
  }
}
