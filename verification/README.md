# A verified model of Sanctel

Sanctel keeps each terminal or chat tab tied to one tmux session, across a TypeScript store, a Rust
host, a tmux server and the files agent hooks leave behind. This project models the protocols between
these parts in Dafny and proves what they keep. `dafny verify dfyconfig.toml` checks all of it.

The methods and classes follow the source's code: each is proved against a function, and the lemmas
are about those functions and about runs of the state machines built from them.

- **Session allocation** (`TmuxNames`, `TmuxServer`, `TmuxProtocol`, `AllocationSafety`, `EnsureSafety`,
  `AllocationOutcome`, `AllocationDensity`, with `Decimal` for numerals). The tmux server is a map from session names to
  window lists. Each tmux command is one atomic step, each caller has a program counter, the lock table
  is keyed by worktree base, and sessions may be killed at any moment. Safety across different locks
  rests on reading base and window back from a session name; that holds because window names have no
  `_`, not because bases have no `__`.
- **Reaping** (`Reaper`, `SessionReferences`, `HydrateReap`). The loop over arbitrary kill failures,
  the agreement of the frontend's session names with Rust's, and what the reap of a launch leaves
  alive in terms of the persisted rows.
- **Sidecars** (`Sidecars`, `WatchLoop`, `WatcherProtocol`, `CacheCoherence`). Writers publish by
  writing a tmp file and renaming it; the watcher scans once, begins its watch,
  and then a debounced loop reads files one at a time or rescans, while the writers go on and any read
  or listing may fail.
- **Snapshots** (`SnapshotText`, `SnapshotRewriter`, `ReplayPlan`). The rewriting of a resurrect
  snapshot, and its meaning: the pane processes the restore script would replay.
- **Tabs** (`StoreTypes`, `Persistence`, `Reordering`, `TabState`, `StoreInterleaving`,
  `CaptureAgreement`, `RowAgreement`, `StoreSchedules`, `Webviews`, `TabActions`, `ActionEffects`,
  `StoreSimulation`, `HydrateRoundTrip`, `SessionLifetime`). The store's actions, once cut at every
  `await` and interleaved, and once run one after the other against the persisted rows and Rust's
  webviews, where position on screen is visibility. `ActionEffects` says what each action comes to,
  `StoreSchedules` relates the two forms, and `SessionLifetime` follows a session from its allocation
  to the reap after a restart.
- **Hook settings** (`HookSettings`) as transformations of JSON values.
- **The PTY drain loop** (`PtyDrain`) over a reused buffer and any finite script of reads.

## Assumptions

- A tmux command may fail to start, and any command may be rejected; a ghost counter records when a
  command fails for no reason on the server. `has-session` answers "no" on any nonzero exit, so a "no"
  is never taken as a fact. The text of an error is trusted to say what it says
  (duplicate session, no such session, no server).
- `max + 1` on a `u64` wraps, as in a release build; a debug build would panic there.
- The only callers of `ensure_session_window` are allocators, under their base's lock, and attaches,
  without any. Results that hold for allocators only say so in their hypotheses.
- Once the watch has begun, a rename posts a notice that names the sidecar or asks for a rescan. Spurious notices may come at any
  moment and in any order. A rename is atomic; a write of a tmp file is one step.
- New ids made by `crypto.randomUUID` are new to the store, the rows and the webviews.
- The runs of the sequential model are runs of successful actions. The methods also say what a failing
  one leaves behind. In the interleaved model every save, deletion and `create_tab` may fail, and
  a failed save or deletion has not changed the rows.

## Where the code differs from its comments

- `lib.rs:789-791` says the sanitizer only produces single underscores. `a::b` becomes `a__b`
  (`SeparatorIsNotUniqueInGeneral`, `SanitizedHasDoubleIff`); names decode for another reason
  (`DecodesIff`, `SessionNameDecodes`).
- `tmux_cli.rs:49-52` says closing window N never frees N for a future tab. It does when N is the
  highest index (`ClosedIndexIsReusedIff`).
- `snapshot_rewriter.rs:10-14` and `sanctel.tmux.conf:3-8` say the restore script matches column 9
  against the process list. The script matches the full command, its eleventh field
  (`restore.sh:309-313`), and so does the model.
- `tabStore.ts:722-723` picks the session prefix by truthiness and the id by `??`. The two disagree on
  an empty worktree id (`NamesAgree`); no tab with one can attach (`AttachedNamesAgree`).
- `tabStore.ts:574-580` means to realign Rust with the store after the replay. The two agree
  only when `create_tab` has accepted the first space's first tab, or that space is empty and nothing
  was accepted (`LaunchShowsIff`).

## Model

| member | source | states |
|---|---|---|
| Decimal.Print | src-tauri/src/tmux_cli.rs:67-73 | the printed numeral is a nonempty run of digits that parses back to the same number |
| TmuxNames.TmuxSafeIdempotent | src-tauri/src/tmux_cli.rs:27-47 | the result holds only safe characters, equals the input exactly when the input was safe, and is its own sanitized form |
| TmuxNames.SafeCharacters | src-tauri/src/tmux_cli.rs:37-47 | a character survives sanitizing iff it is an ASCII letter or digit, a dash or an underscore, told by its code |
| TmuxNames.TermIndex | src-tauri/src/tmux_cli.rs:60-67 | an index is the value of a nonempty digit run after `term-`, and never exceeds the last `u64` |
| TmuxNames.TermIndexIff | src-tauri/src/tmux_cli.rs:60-67 | `term-` with something after it has an index iff that is a nonempty run of digits up to the last `u64`; a bare prefix or a sign gives none |
| TmuxNames.TermName | src-tauri/src/tmux_cli.rs:73 | `term-N` parses back to N and contains no `_` |
| TmuxNames.MaxIndexIsGreatest | src-tauri/src/tmux_cli.rs:58-72 | the counter's maximum bounds every parsed index and is one of them, or is 0 |
| TmuxNames.MaxIndexIgnoresOrder | src-tauri/src/tmux_cli.rs:58-72 | two listings of the same names, in any order and with repetitions, give the same maximum |
| TmuxNames.AllocatedNameIsFresh | src-tauri/src/tmux_cli.rs:49-74 | the new name lies above every index in use iff the maximum is below the last `u64`; it is unused iff that holds or the wrapped name `term-0` is free |
| TmuxNames.ClosedIndexIsReusedIff | src-tauri/src/tmux_cli.rs:49-52 | the next tab gets index n exactly when all other indices are below n and n - 1 is one of them (or n is 1), so a closed highest index can come back |
| TmuxNames.AllocateWindowName | src-tauri/src/tmux_cli.rs:58-74 | the loop returns the name after the maximum, unused below the last `u64` |
| TmuxNames.DecodesIff | src-tauri/src/lib.rs:789-798 | base and window can be read back from the session names of two windows, on all bases, iff neither window extends the other by `_` or by something ending in `__` |
| TmuxNames.SessionNameDecodes | src-tauri/src/lib.rs:789-798 | so they can whenever neither window has a `_`, whatever the bases are |
| TmuxNames.SanitizedHasDoubleIff | src-tauri/src/lib.rs:789-791 | a sanitized text has `__` iff two neighbours of the text are each `_` or unsafe |
| TmuxNames.SeparatorIsNotUniqueInGeneral | src-tauri/src/lib.rs:789-798 | the witnesses against the comment on both counts, whose exact conditions are `DecodesIff` and `SanitizedHasDoubleIff` |
| TmuxNames.SuffixesAreListed | src-tauri/src/lib.rs:595-600 | a window is among the scanned suffixes iff base and window together are a listed session |
| TmuxNames.ScanIgnoresOtherBases | src-tauri/src/lib.rs:594-601 | a counted session passes the prefix scan and the digit filter of a base iff it is that base's own |
| TmuxNames.OwnWindowOfJoin | src-tauri/src/lib.rs:792-798 | the window can be read off the end of a session name built from a window without `_` |
| TmuxNames.TabSessionsAreSanctels | src-tauri/src/lib.rs:607-609 | every session of a tab, in a worktree or detached, is one the reaper takes for Sanctel's, and every such session has one of the two full prefixes |
| TmuxServer.TmuxCli.HasSession | src-tauri/src/tmux_cli.rs:235-239 | a positive answer means the session is live; a negative one means nothing unless every command has behaved |
| TmuxServer.TmuxCli.NewSessionWithWindow | src-tauri/src/tmux_cli.rs:253-285 | success creates a session that was not there with exactly the one window; every failure changes nothing; the duplicate error means it is live |
| TmuxServer.TmuxCli.ListWindows | src-tauri/src/tmux_cli.rs:410-426 | success returns the windows of a live session |
| TmuxServer.TmuxCli.NewWindow | src-tauri/src/tmux_cli.rs:429-449 | success adds one window to a live session; failure changes nothing |
| TmuxServer.TmuxCli.ListSessions | src-tauri/src/tmux_cli.rs:492-514 | success lists exactly the live sessions, each once |
| TmuxServer.TmuxCli.KillSession | src-tauri/src/tmux_cli.rs:461-481 | success means the session is gone and nothing else changed, also when it was gone before; failure changes nothing |
| TmuxServer.TmuxCli.EnsureSessionWindow | src-tauri/src/tmux_cli.rs:363-389 | without interference: success leaves the session with the window and everything else as it was, failure changes nothing, has a command that misbehaved as its cause and is never a lost race |
| TmuxServer.TmuxCli.AddWindowIfAbsent | src-tauri/src/tmux_cli.rs:394-406 | the window is added once and only if absent |
| TmuxServer.AllocationLocks.LockFor | src-tauri/src/lib.rs:98-110 | the same base always gets the same mutex, a new base a fresh one, so distinct bases have distinct mutexes |
| TmuxServer.AllocateSessionForTab | src-tauri/src/lib.rs:586-605 | run alone, success returns the name picked from a true listing and leaves exactly that session and window added; the session is new below the last `u64`; it fails only if a command misbehaved |
| TmuxProtocol.UninterruptedAttach | src-tauri/src/tmux_cli.rs:363-406 | the state machine, scheduled without interruption, does what the sequential method does |
| TmuxProtocol.LostRaceSucceeds | src-tauri/src/tmux_cli.rs:378-389 | two calls for one session that both find it missing both succeed, on one session with one window |
| AllocationSafety.StepKeepsExclusive | src-tauri/src/lib.rs:593-604 | every step of every caller keeps the lock table and the lock holders in agreement: at most one allocator per base between listing and return |
| AllocationSafety.HoldersDiffer | src-tauri/src/lib.rs:593-603 | two allocators between scan and return, on any two locks, never mean the same session |
| AllocationSafety.RunsAreSafe | src-tauri/src/lib.rs:586-605 | in every run mutual exclusion holds, and since an allocator's scan nobody but itself or a caller outside the lock has created the session of its fresh name |
| AllocationSafety.AllocationIsMatched | src-tauri/src/lib.rs:586-605 | every successful allocation with a fresh name is matched by a creation of its session after its scan, by the call itself or by a caller outside the lock |
| AllocationOutcome.SuccessIsOwnIff | src-tauri/src/tmux_cli.rs:363-389 | in every run, a success is the call's own creation iff neither its has-session nor its new-session found the session live |
| AllocationOutcome.FoundMeansAttached | src-tauri/src/lib.rs:834-872 | when a fresh-named allocator did find it live, an attach has created it since the scan |
| AllocationSafety.AllocatorsNeverShare | src-tauri/src/lib.rs:586-605 | with allocators and kills only, the creation is the call's own, and no allocator ever reaches the session-exists branch |
| AllocationSafety.CreationsAlternateInRuns | src-tauri/src/tmux_cli.rs:253-285 | between two creations of one session there is a kill of it, in every run |
| AllocationSafety.LiveAllocationsDiffer | src-tauri/src/lib.rs:586-605 | no two creations of one session are live at once, whoever made them |
| AllocationOutcome.SuccessesHaveKillBetween | src-tauri/src/lib.rs:586-605 | among allocators and kills only, two successes with fresh names for one session have each created it, with a kill of it in between |
| AllocationOutcome.FailureIsExplained | src-tauri/src/tmux_cli.rs:363-406 | in every run, a call comes back without success only if one of its own commands failed or its session was killed; losing the race to create it is no reason |
| AllocationSafety.AttachCanTakeTheName | src-tauri/src/lib.rs:834-872 | a run in which an attach outside the lock creates the picked session and the allocator succeeds without creating anything |
| AllocationSafety.WrappedCounterReturnsLiveSession | src-tauri/src/tmux_cli.rs:73 | with the counter at the last `u64` and `term-0` live, a lone allocator returns that live session as new |
| EnsureSafety.SessionsKeepOneWindow | src-tauri/src/tmux_cli.rs:363-406 | from a server where each session holds its own window, any interleaving of allocators, attaches and kills keeps it so and never reaches `new-window` |
| EnsureSafety.SuccessWasTrue | src-tauri/src/tmux_cli.rs:363-406 | every success was true: the session held the window right after the step at which the call returned |
| AllocationDensity.ScanFindsCount | src-tauri/src/lib.rs:595-601 | on a base filled with 1 to k, the scan picks `term-(k+1)` |
| AllocationDensity.AllocationIsDense | src-tauri/src/lib.rs:586-605 | without kills and from an empty base, the live indices after k successful allocations are exactly 1 to k, in any interleaving with other bases, precisely as long as k fits the counter |
| AllocationDensity.OnlyAllocatedAreLive | src-tauri/src/lib.rs:586-605 | and no other counted session of the base is live |
| Reaper.OrphansAreExact | src-tauri/src/lib.rs:622-625 | the orphans are the listed Sanctel sessions that are not known, each as often as it is listed |
| Reaper.KilledAllMeansReaped | src-tauri/src/lib.rs:622-634 | once every listed orphan is killed, the server is the old one without its orphans |
| Reaper.ReapOrphanSessions | src-tauri/src/lib.rs:614-645 | whatever kills fail: each orphan is attempted once in listing order and nothing else is, `reaped + failed` is their number, exactly `reaped` orphans are gone and every other session stays; errors and failed kills come from misbehaving commands only |
| SessionReferences.NamesAgree | src/core/store/tabStore.ts:715-743 | the frontend computes Rust's session name for a tab exactly when its worktree id is null or nonempty |
| SessionReferences.KnownNamesAreReferences | src/core/store/tabStore.ts:702-744 | for tabs with a stored window name other than `auto` and no empty worktree id, a name is known to the reaper iff some terminal or chat tab of a known space refers to it by Rust's naming |
| SessionReferences.AttachedNamesAgree | src-tauri/src/lib.rs:560-571 | for every tab that can attach, the frontend computes the name of the very session; the tabs on which the names differ cannot attach |
| SessionReferences.AttachedSessionSurvives | src/core/store/tabStore.ts:683-744 | whatever the other tabs, a session that a persisted tab of a known space can attach to outlives the reap |
| SessionReferences.ReapKeepsReferencedSessions | src/core/store/tabStore.ts:683-744 | after a reap without failures the live Sanctel sessions are exactly those such a tab refers to; all others are untouched |
| HydrateReap.LaunchedReferences | src/core/store/tabStore.ts:532-594 | whatever replays are refused, the store after a launch refers to exactly the sessions the persisted rows refer to, and to none without profile rows |
| HydrateReap.ReapAfterLaunch | src/core/store/tabStore.ts:532-594 | a launch's reap without failures leaves exactly the Sanctel sessions that, if there are profile rows, a row of a persisted space refers to, and everything else |
| HydrateReap.FirstLaunchReapsAll | src/core/store/tabStore.ts:532-539 | a launch without profile rows reaps every Sanctel session and no other |
| HydrateReap.ReapAtLaunch | src-tauri/src/lib.rs:614-645 | the reap loop, given the names of a launch, does that, and without a misbehaving command it always does; an error changes nothing |
| HydrateReap.LostSpaceLosesSession | src/core/store/tabStore.ts:717-718 | a worktree tab whose space row is missing loses its session to the reap, unless there are profile rows and another row refers to the same one |
| SessionLifetime.StoreSessionsOutliveRestart | src-tauri/src/lib.rs:614-645 | after any run, the session of every terminal or chat tab of a known space is among the names the next launch hands to the reaper, and survives it |
| SessionLifetime.AllocatedSessionOutlivesRestart | src-tauri/src/lib.rs:614-645 | so the session allocated for a new tab outlives a restart right after |
| Sidecars.PathOfSession | src-tauri/src/agent_session_watcher.rs:219-221 | a session's sidecar path reads back to the session, and its tmp path is never taken for a sidecar |
| Sidecars.ViewLookup | src-tauri/src/agent_session_watcher.rs:165-217 | a directory shows a session exactly when its sidecar is there and names an agent and a session id |
| Sidecars.ReadsAreTheView | src-tauri/src/agent_session_watcher.rs:193-217 | reading one sidecar gives what the whole-directory view says of its session |
| Sidecars.SidecarsAreRead | src-tauri/src/agent_session_watcher.rs:193-217 | a sidecar holding an agent, a session id and a time is read as the capture with exactly those in their places, iff neither text is empty |
| Sidecars.SidecarPathIff | src-tauri/src/agent_session_watcher.rs:219-221 | a path is a sidecar's iff a nonempty session name goes before a final `.json` |
| WatchLoop.AgentSessionWatcher.CollectWatchResult | src-tauri/src/agent_session_watcher.rs:133-157 | errors and other events ask for a rescan; creations and modifications add their sidecar paths; everything else adds nothing (in literal kinds: `ChangesAreTaken`, `OthersAreLeft`, `RescansTakeEverything`) |
| WatchLoop.AgentSessionWatcher.ReadCaptureMap | src-tauri/src/agent_session_watcher.rs:165-191 | the scan in any order finds exactly the well-formed sidecars |
| WatchLoop.AgentSessionWatcher.CollectBatch | src-tauri/src/agent_session_watcher.rs:98-104 | a batch collects the named paths of all its notices and whether any asks for a rescan |
| WatchLoop.AgentSessionWatcher.EmitAll | src-tauri/src/agent_session_watcher.rs:159-163 | exactly the cached captures are sent |
| WatchLoop.AgentSessionWatcher.ReadPaths | src-tauri/src/agent_session_watcher.rs:118-129 | in any order, the named sidecars that can be read replace their cache entries, and exactly those are sent |
| WatchLoop.AgentSessionWatcher.HandleBatch | src-tauri/src/agent_session_watcher.rs:97-130 | one turn of the loop leaves the cache as the batch's meaning says, and sends exactly the captures of the sessions it concerns; the next three rows say what that is for each kind of event |
| WatchLoop.ChangesAreTaken | src-tauri/src/agent_session_watcher.rs:97-157 | a readable sidecar that some event of the batch reports created or modified is in the cache as it is on disk, and is sent, whatever else the batch holds |
| WatchLoop.OthersAreLeft | src-tauri/src/agent_session_watcher.rs:133-157 | a session that no event of a batch reports created or modified stays as it was and is not sent, if the batch has no error and no other event: access, removal and unspecified events do nothing |
| WatchLoop.RescansTakeEverything | src-tauri/src/agent_session_watcher.rs:97-146 | one error or one event of the other kind in a batch makes the cache the directory and sends all of it, or does nothing if the directory cannot be listed |
| WatchLoop.BatchesMerge | src-tauri/src/agent_session_watcher.rs:97-130 | with a readable directory two batches in turn are as good as one |
| WatchLoop.CoalescingIsInvisible | src-tauri/src/agent_session_watcher.rs:97-130 | however the notices are grouped, the final cache is as if each were handled alone |
| WatchLoop.CoalescingLosesPaths | src-tauri/src/agent_session_watcher.rs:106-116 | when the directory cannot be listed, grouping stays invisible iff each capture dropped with a failed rescan is already cached |
| CacheCoherence.TmpIsInvisible | src-tauri/src/hook_handler.rs:41-50 | writing the tmp file shows in no session |
| WatcherProtocol.AnnouncesIff | src-tauri/src/agent_session_watcher.rs:133-157 | a notice announces a session iff it is an error, an event of the other kind, or a creation or modification that names its sidecar |
| CacheCoherence.RenameReplacesOne | src-tauri/src/hook_handler.rs:51-52 | a rename of a valid tmp file shows its content for its session and changes no other |
| CacheCoherence.PublishedIsTaken | src-tauri/src/hook_handler.rs:28-55 | a hook run from the payload to the loop, undisturbed, ends with exactly its session, agent, session id and time in the cache and sent |
| CacheCoherence.StepKeepsInvariant | src-tauri/src/agent_session_watcher.rs:57-131 | every step, failing or not, keeps: captures come only from sidecars there are, and the start is quiet |
| CacheCoherence.StepIsAccounted | src-tauri/src/agent_session_watcher.rs:57-131 | over each step of writers, queue and watcher, exactly: a session stays awaited or settled unless the step loses it, and becomes so only by being announced |
| CacheCoherence.RunsAreAccounted | src-tauri/src/agent_session_watcher.rs:57-131 | in every run, whatever reads and listings fail, a session is awaited or settled iff no step has lost it without a later announcement |
| CacheCoherence.RestIsRightIff | src-tauri/src/agent_session_watcher.rs:57-131 | at rest a session is right, in the cache and as last sent, iff it has not been dropped by a failure, by a write before the watch, or from the start |
| CacheCoherence.RestIsCoherentIff | src-tauri/src/agent_session_watcher.rs:57-131 | at rest the cache is the directory and every replaced sidecar has been sent as it is iff no session has been dropped |
| CacheCoherence.NothingIsDropped | src-tauri/src/agent_session_watcher.rs:57-131 | only failures and writes before the watch drop a session |
| CacheCoherence.StaleSessionsAreAwaited | src-tauri/src/agent_session_watcher.rs:57-131 | without them, a session whose cache entry differs from the directory is still awaited, or a scan that has its content is under way |
| CacheCoherence.RestIsCoherent | src-tauri/src/agent_session_watcher.rs:57-131 | without them, from the initial scan on, at rest the cache is the directory, and the last capture sent for every replaced sidecar is its present content |
| CacheCoherence.FailedRescanLosesWrite | src-tauri/src/agent_session_watcher.rs:106-115 | a failed rescan is not repeated: a write stays unseen at rest |
| CacheCoherence.GapWriteIsLost | src-tauri/src/agent_session_watcher.rs:62-77 | a sidecar written between the initial scan and the start of the watch stays unseen at rest |
| SnapshotText.JoinFields | src-tauri/src/snapshot_rewriter.rs:56-82 | joining the tab-separated fields of a text gives the text back |
| SnapshotText.FieldsJoin | src-tauri/src/snapshot_rewriter.rs:56-82 | splitting joined fields without tabs gives the fields back |
| SnapshotText.ConcatLines | src-tauri/src/snapshot_rewriter.rs:27 | the lines, which keep their newlines, concatenate to the text |
| SnapshotText.LinesConcat | src-tauri/src/snapshot_rewriter.rs:27 | laying lines end to end and splitting gives the lines back |
| SnapshotText.LinesOfConcat | src-tauri/src/snapshot_rewriter.rs:27 | splitting distributes over concatenation at a line boundary |
| SnapshotRewriter.RewriteLine | src-tauri/src/snapshot_rewriter.rs:51-83 | the column overwrite is the line function, which `CapturedPaneIsRewrittenIff` and `OtherLinesStay` give in full |
| SnapshotRewriter.RewriteSnapshot | src-tauri/src/snapshot_rewriter.rs:25-31 | the loop over the lines is the snapshot function, line by line the one of `RewriteLine` |
| SnapshotRewriter.CapturedPaneIsRewrittenIff | src-tauri/src/snapshot_rewriter.rs:51-116 | a pane line of a captured session is rewritten iff it shows `claude` for claude, `codex` or `codex-…` for codex, `gemini` or `node` for gemini; column 9 is then the agent string and column 10 its literal resume command with the id |
| SnapshotRewriter.OtherLinesStay | src-tauri/src/snapshot_rewriter.rs:51-66 | a line of fewer than 11 columns, of another kind or of a session without a capture stays as it is |
| SnapshotRewriter.CaptureMap | src-tauri/src/snapshot_rewriter.rs:33-49 | exactly the captured sessions are mapped, each to its freshest capture, the first among equals |
| SnapshotRewriter.RewrittenLineFrame | src-tauri/src/snapshot_rewriter.rs:51-83 | a rewritten line is one line with the same ending and the old columns but for program and command |
| SnapshotRewriter.RewriteKeepsLines | src-tauri/src/snapshot_rewriter.rs:25-31 | the line count and the final newline stay, and each line is the rewriting of the old one |
| SnapshotRewriter.RewriteKeepsColumns | src-tauri/src/snapshot_rewriter.rs:51-83 | only columns 9 and 10 of captured pane lines with at least 11 columns change |
| SnapshotRewriter.RewriteDistributes | src-tauri/src/snapshot_rewriter.rs:25-31 | rewriting distributes over concatenation at a line boundary, whatever the captures |
| SnapshotRewriter.RewriteTwice | src-tauri/src/snapshot_rewriter.rs:25-83 | a second rewrite changes nothing when the session ids have no tab or newline |
| SnapshotRewriter.UncleanGrows | src-tauri/src/snapshot_rewriter.rs:80-82 | a usable capture whose id has a tab or newline makes a snapshot grow again at the second rewrite |
| SnapshotRewriter.IdempotentIffClean | src-tauri/src/snapshot_rewriter.rs:25-83 | rewriting is idempotent on all snapshots iff no usable capture has such an id |
| ReplayPlan.ResumedCommandReplays | app-bundle/tmux-plugins/resurrect/scripts/process_restore_helpers.sh:75-105 | every resume command passes the restore list's word match |
| ReplayPlan.SavedPaneIsPlanned | app-bundle/tmux-plugins/resurrect/scripts/restore.sh:306-316 | a saved line is replayed iff it begins with `pane` and its command is not a lone colon, with the session, window, pane, directory and command of its columns 1, 2, 5, 7 and 10, the last two without their colon |
| ReplayPlan.MatchesWordIff | app-bundle/tmux-plugins/resurrect/scripts/process_restore_helpers.sh:89-105 | a listed word matches a command iff the command begins with it and ends or goes on with a space there |
| ReplayPlan.RewrittenLinePlan | app-bundle/tmux-plugins/resurrect/scripts/restore.sh:306-316 | what the script replays for a rewritten line is the intended entry of the old line |
| ReplayPlan.RewriteMeansResume | app-bundle/tmux-plugins/resurrect/scripts/restore.sh:306-316 | the replay plan of the rewritten snapshot is the original plan with the command of exactly the captured, still running agent panes replaced |
| ReplayPlan.IntendedPlanCounts | app-bundle/tmux-plugins/resurrect/scripts/restore.sh:309 | the plan never loses a pane, and keeps its length iff no captured pane was saved without a command |
| ReplayPlan.RewriteKeepsPanes | app-bundle/tmux-plugins/resurrect/scripts/restore.sh:306-316 | the two plans name the same panes, in order, iff no captured, running pane was saved without a command; other commands stay or are on the restore list |
| Persistence.SetThenGet | src/core/persistence/in-memory.ts:34-44 | saving a profile, space or tab is what the next lookups of its id see and of no other id, and it keeps its place or goes last |
| Persistence.RetitleThenGet | src/core/persistence/in-memory.ts:46-49 | renaming changes the title a lookup of that id sees, nothing for an unknown id, and no row moves |
| Persistence.SetSessionThenGet | src/core/persistence/in-memory.ts:51-57 | the same for the agent session |
| Persistence.DeleteThenGet | src/core/persistence/in-memory.ts:59-61 | after a deletion the id is not found and every other lookup is as before |
| Persistence.SetTabIds | src/core/persistence/in-memory.ts:42-44 | saving adds exactly the row's id |
| Persistence.DeleteRowIds | src/core/persistence/in-memory.ts:59-61 | deleting removes exactly that id |
| Persistence.StableSortSorts | src/core/persistence/in-memory.ts:28-30 | loading gives a permutation of the rows in ascending order |
| Persistence.SortedIffAscending | src/core/persistence/in-memory.ts:28-30 | loading leaves the rows in place iff they are ascending already |
| Persistence.SortCommutes | src/core/persistence/in-memory.ts:28-30 | loading sorts each space's rows among themselves, equals in insertion order |
| Persistence.SortSpacesSorts | src/core/persistence/in-memory.ts:25-27 | the load gives the spaces too as a permutation in ascending order |
| Persistence.InMemoryPersistence.ReorderTabs | src/core/persistence/in-memory.ts:63-70 | the loop is the reordering function the lemmas are about |
| Reordering.ReorderedRows | src/core/persistence/in-memory.ts:63-70 | a reordering changes only sort orders, and only of listed tabs of the space |
| Reordering.ReorderedLoadsInOrder | src/core/persistence/in-memory.ts:28-70 | after a reordering by a list of the space's tabs, the next load gives them in the order of the list and every other space as before |
| TabState.AddTabKeepsSound | src/core/store/tabStore.ts:302-307 | adding a tab with a new id keeps tab ids unique and every selection a tab of its space |
| TabState.RemoveTabKeepsSound | src/core/store/tabStore.ts:476-484 | closing keeps it |
| TabState.CloseFallsBack | src/core/store/tabStore.ts:476-484 | a space that selected the closed tab selects the first tab of its own left in store order, and none iff none is left; every other space is unchanged |
| TabState.ActivateKeepsSound | src/core/store/tabStore.ts:499-505 | activating keeps it iff the tab is one of the active space, or there is no active space |
| TabState.FromRowsIsSound | src/core/store/tabStore.ts:542-558 | hydrating from rows with distinct ids establishes it |
| StoreInterleaving.StepKeepsIdsApart | src/core/store/tabStore.ts:260-484 | every step of any interleaving keeps the ids of pending creations apart from the store and from each other |
| StoreInterleaving.InterleavingIsSound | src/core/store/tabStore.ts:260-507 | in every reachable state of the actions cut at each await, tab ids are unique and each space selects nothing or one of its own tabs |
| StoreInterleaving.StepKeepsInStep | src/core/store/tabStore.ts:260-497 | every step, with every save, deletion and creation able to fail, keeps: a tab without a row is being closed, and a row without a tab is being opened or its creation failed |
| StoreInterleaving.RestIsInStep | src/core/store/tabStore.ts:260-497 | once nothing is pending, the tabs all have rows, and every other row belongs to a tab whose creation failed after the row was saved |
| CaptureAgreement.RunsAreCarried | src/core/store/tabStore.ts:661-681 | in every run a tab carries the last agent session answered for it and its row the last one sent |
| CaptureAgreement.AnswerAgreesIff | src/core/store/tabStore.ts:674-679 | the answer to a save leaves tab and row agreeing iff its session is the last one sent for the tab |
| CaptureAgreement.RestAgreesIff | src/core/store/tabStore.ts:661-681 | at rest, a tab and its row have the same agent session iff the last save sent for the tab was the last one answered |
| CaptureAgreement.RestAgreesEverywhereIff | src/core/store/tabStore.ts:661-681 | at rest, all tabs agree with their rows iff that holds for every tab |
| CaptureAgreement.SerialSavesAgree | src/core/store/tabStore.ts:661-681 | if no save of a tab is sent while another one of it is pending, they agree at rest |
| CaptureAgreement.CapturesCanDiverge | src/core/store/tabStore.ts:661-681 | two captures of one terminal or chat tab whose saves answer out of order leave the older session in the store and the newer in the row |
| StoreSchedules.NewTabRuns | src/core/store/tabStore.ts:260-318 | the interleaved machine, every answer awaited at once, does to tabs, spaces and rows what `newTab` does |
| StoreSchedules.NewTerminalLikeRuns | src/core/store/tabStore.ts:320-469 | the same for `newTerminalTab` and `newChatTab`, the window name coming with the answer |
| StoreSchedules.CloseRuns | src/core/store/tabStore.ts:471-488 | the same for `closeTab` |
| StoreSchedules.RenameRuns | src/core/store/tabStore.ts:490-497 | the same for `renameTab` |
| StoreSchedules.ActivateRuns | src/core/store/tabStore.ts:499-507 | the same for `activateTab` |
| StoreSchedules.SwitchRuns | src/core/store/tabStore.ts:249-258 | the same for `switchSpace` |
| StoreSchedules.CaptureListRuns | src/core/store/tabStore.ts:670-680 | a list of captures whose saves go through is applied in order and to its end |
| StoreSchedules.RefusedNewTab | src/core/store/tabStore.ts:292-318 | a `newTab` that Rust refuses leaves the saved row and no tab |
| StoreSchedules.RefusedTerminalLike | src/core/store/tabStore.ts:344-398 | a terminal or chat tab that is refused, gets no window name or is not saved leaves neither |
| StoreSchedules.RefusedClose | src/core/store/tabStore.ts:471-484 | a close whose deletion fails keeps tab and row |
| StoreSchedules.RefusedRename | src/core/store/tabStore.ts:490-497 | a rename whose save fails has renamed the tab and not the row |
| StoreSchedules.RefusedCapture | src/core/store/tabStore.ts:670-680 | the first failed save of a list of captures ends the list |
| RowAgreement.RunsStayMirrored | src/core/store/tabStore.ts:260-497 | in every run in which a tab's renames are of a present tab and saved, its row mirrors it in every field but the agent session, from its first save on |
| RowAgreement.FieldsAgreeIffSessions | src/core/store/tabStore.ts:164-177 | then tab and row agree in every field iff they agree on the agent session, in every reachable state |
| RowAgreement.RestIsRowOfIff | src/core/store/tabStore.ts:260-497 | and at rest iff the last agent session sent for the tab was the last one answered |
| Webviews.AppState.ShowWebview | src-tauri/src/lib.rs:354-376 | an existing webview goes over the content rect and becomes active; a missing one changes nothing |
| Webviews.AppState.HideWebview | src-tauri/src/lib.rs:379-387 | an existing webview goes off screen; a missing one changes nothing |
| Webviews.AppState.CreateTab | src-tauri/src/lib.rs:443-555 | succeeds iff all went well and the label is new; then the new tab is active, shown and recorded, and the previous one hidden |
| Webviews.AppState.CloseTab | src-tauri/src/lib.rs:687-715 | the webview is hidden, the record dropped, and the active tab cleared if it was this one |
| Webviews.AppState.ShowTabCommand | src-tauri/src/lib.rs:718-727 | the previous tab is hidden, then the given one shown if it exists |
| Webviews.AppState.HideAllCommand | src-tauri/src/lib.rs:730-743 | in any order, every recorded webview goes off screen, and none is active |
| Webviews.AppState.SetContentRectCommand | src-tauri/src/lib.rs:746-755 | the active webview follows the new rect |
| Webviews.CommandsKeepFocus | src-tauri/src/lib.rs:354-755 | every command keeps "the active tab is recorded and its webview alone is on screen, over the content rect", on every host and argument |
| Webviews.ActiveCoversContent | src-tauri/src/lib.rs:354-376 | the active webview lies where the content area is, with its size but at least one point each way |
| Webviews.CommandsRecord | src-tauri/src/lib.rs:687-755 | which tabs are recorded, which webviews exist and which area is theirs, after every command |
| Webviews.HideAllReachesAll | src-tauri/src/lib.rs:729-743 | hiding everything puts every recorded webview off screen, active or not |
| Webviews.ShowTabKeepsFocus | src-tauri/src/lib.rs:718-727 | showing keeps it iff the tab is recorded, or there is neither a webview nor an active tab |
| TabActions.TabStore.DoAddProfile | src/core/store/tabStore.ts:219-229 | store and rows gain the profile as the world function says |
| TabActions.TabStore.DoAddSpace | src/core/store/tabStore.ts:231-247 | store and rows gain the space, numbered by its place, as the world function says |
| TabActions.TabStore.DoNewTab | src/core/store/tabStore.ts:260-318 | the action does what the world function says; it succeeds iff space, tmux, kind, allocation and label allow; a failure can leave a row but neither tab nor webview |
| TabActions.TabStore.DoNewTerminalTab | src/core/store/tabStore.ts:320-398 | same for terminal tabs (the tab and row in full: `NewTerminalTabEffect`); a failure leaves no row, and a webview only when Rust gave no name |
| TabActions.TabStore.DoNewChatTab | src/core/store/tabStore.ts:400-469 | same for chat tabs (in full: `NewChatTabEffect`) |
| TabActions.TabStore.ShowActive | src/core/store/tabStore.ts:485-487 | the active space's selected tab is shown, or everything hidden |
| TabActions.TabStore.DoCloseTab | src/core/store/tabStore.ts:471-488 | store, rows and webviews change together as the world function says; `CloseShowsFirstRemaining` and its neighbours say what Rust then shows |
| TabActions.TabStore.DoSwitchSpace | src/core/store/tabStore.ts:249-258 | the new space is active, and its active tab shown or everything hidden |
| TabActions.TabStore.DoRenameTab | src/core/store/tabStore.ts:490-497 | title of tab and row change, nothing else |
| TabActions.TabStore.DoActivateTab | src/core/store/tabStore.ts:499-507 | the active space selects the tab and Rust shows it |
| TabActions.TabStore.ApplyAgentSessionCaptures | src/core/store/tabStore.ts:661-681 | each capture in turn goes, in store and rows, to the tab its session name belonged to at the start; `CapturesSettle` gives the outcome for every tab |
| TabActions.TabNamed | src/core/store/tabStore.ts:746-756 | a session name is looked up iff it is among the known names, to a terminal or chat tab; which one is `TabNamedIsLast` |
| TabActions.TabNamedIsLast | src/core/store/tabStore.ts:746-756 | the tab found has that very session name under the profile of its known space, and no later tab of the list has it; nothing is found iff no tab has it |
| TabActions.TabStore.Replay | src/core/store/tabStore.ts:564-572 | the launch loop creates the webview of each tab of a known space in order and passes over those whose create_tab fails |
| TabActions.TabStore.Hydrate | src/core/store/tabStore.ts:527-590 | the launch does what the world function says, on a first run and on later ones, whatever replays are refused |
| Persistence.LoadedIdsAreNew | src/core/store/tabStore.ts:564-572 | distinct row ids stay distinct through the load, and new to Rust if they were |
| ActionEffects.KindsThatOpen | src-tauri/src/lib.rs:495-503 | a new tab can be made, or replayed at launch, only as browser, terminal or chat, and then whenever there is a space and its id is new |
| ActionEffects.NewTabEffect | src/core/store/tabStore.ts:260-318 | `newTab` adds the tab and its row at the end with the kind's title and start page, selects it in its space alone and shows it |
| ActionEffects.NewTerminalTabEffect | src/core/store/tabStore.ts:320-398 | `newTerminalTab` does so with the worktree's id and branch, if any, and the allocated window |
| ActionEffects.NewChatTabEffect | src/core/store/tabStore.ts:400-469 | `newChatTab` does so with the worktree's id, the window and `claude` as first command |
| ActionEffects.AllocatedSessionIsKnown | src/core/store/tabStore.ts:702-744 | the session Rust allocates for a new terminal or chat tab is at once among the names the frontend knows |
| ActionEffects.AddProfileEffect | src/core/store/tabStore.ts:219-228 | store and rows gain exactly the profile asked for |
| ActionEffects.AddSpaceEffect | src/core/store/tabStore.ts:230-247 | the new space has the profile asked for, else the active space's if that exists, else the default one, and the colour asked for; it selects nothing |
| ActionEffects.CloseEffect | src/core/store/tabStore.ts:471-488 | after a close exactly the tab and row of the id are gone, and Rust does not record it |
| ActionEffects.CloseShowsFirstRemaining | src/core/store/tabStore.ts:471-488 | after closing the tab the active space selects, Rust shows the space's first remaining tab |
| ActionEffects.CloseShowsNothing | src/core/store/tabStore.ts:471-488 | or nothing, if none remains |
| ActionEffects.CloseKeepsShown | src/core/store/tabStore.ts:471-488 | closing any other tab leaves what is shown |
| ActionEffects.SwitchSpaceEffect | src/core/store/tabStore.ts:249-258 | the given space becomes active, nothing else of store and rows changes, and Rust shows the tab it selects or nothing |
| ActionEffects.ActivateTabEffect | src/core/store/tabStore.ts:499-507 | the active space alone selects the tab, and Rust shows it |
| ActionEffects.RenameEffect | src/core/store/tabStore.ts:490-497 | exactly the tabs and rows of the id get the title |
| ActionEffects.ResizeEffect | src/core/store/tabStore.ts:509-511 | the area changes, the active webview follows, everything else stays |
| ActionEffects.CaptureEffect | src/core/store/tabStore.ts:661-681 | a capture changes exactly the last tab of its session name, in its agent session alone, to the captured one |
| ActionEffects.CaptureRowEffect | src/core/store/tabStore.ts:661-681 | and the rows of that id likewise |
| ActionEffects.UnknownCaptureIsIgnored | src/core/store/tabStore.ts:672-673 | a capture of a name no tab has changes nothing |
| ActionEffects.CapturesSettle | src/core/store/tabStore.ts:661-681 | after any list of captures a tab has the last session captured under its name that differs from the one it had, or its own if there is none |
| ActionEffects.OthersKeepTheirSession | src/core/store/tabStore.ts:661-681 | a tab that no session name is looked up to keeps everything, whatever is captured |
| ActionEffects.LastCaptureWinsIff | src/core/store/tabStore.ts:669-673 | the last capture of a name wins iff it is not the session the tab had or no different one came before it, since the comparison is with the tab as it was looked up |
| ActionEffects.LaunchSelectsFirst | src/core/store/tabStore.ts:541-558 | after a launch every space, active or not, selects its first tab by sort order, or none iff it has none |
| ActionEffects.LaunchActivatesFirst | src/core/store/tabStore.ts:541-558 | the first space by sort order is active, or the default one without space rows |
| ActionEffects.LaunchRestoresTab | src/core/store/tabStore.ts:149-163 | each tab comes back from its row; without a url it gets its kind's start page, and only browser tabs start out loading |
| StoreSimulation.ActKeepsAligned | src/core/store/tabStore.ts:219-510 | every successful action keeps Rust's active tab equal to the store's, with that webview alone on screen |
| StoreSimulation.ActivateNeedsVisibleTab | src/core/store/tabStore.ts:499-507 | activating keeps the two aligned iff the tab is one of the active space |
| StoreSimulation.LaunchShowsIff | src/core/store/tabStore.ts:542-590 | for rows of any kind and whatever create_tab refuses, a launch leaves Rust showing what the store shows iff the first space's first tab was accepted, or that space is empty and no tab of any space was |
| StoreSimulation.LaunchAligns | src/core/store/tabStore.ts:542-590 | and able to show every tab of a known space iff also none of them was refused |
| StoreSimulation.FirstLaunchAligns | src/core/store/tabStore.ts:532-540 | a first launch is aligned |
| StoreSimulation.RunsStayAligned | src/core/store/tabStore.ts:219-510 | alignment holds over every run of successful actions |
| StoreSimulation.VisibleTabIsTheStores | src/core/store/tabStore.ts:249-510 | after an aligned launch and any run, Rust's active tab is the store's, and its webview alone is on screen, over the content rect |
| HydrateRoundTrip.RowRoundTrip | src/core/store/tabStore.ts:149-177 | a tab survives its row in every field but loading and favicon |
| HydrateRoundTrip.OpenedMirrored | src/core/store/tabStore.ts:382-395 | a created tab is mirrored by its row, which goes last, numbered by the tabs of the space |
| HydrateRoundTrip.RunsStayMirrored | src/core/store/tabStore.ts:219-497 | over every run from an empty database the rows say what the store says |
| HydrateRoundTrip.HydrateFindsEverything | src/core/store/tabStore.ts:527-558 | the next launch, whatever replays are refused, finds the same profiles, the same spaces in order, and the same tabs up to loading and favicon |
| HydrateRoundTrip.OrderIsKeptIffAscending | src/core/store/tabStore.ts:527-558 | a space's tabs come back in their order iff its rows have ascending sort orders |
| HydrateRoundTrip.NewTabKeepsOrderIff | src/core/store/tabStore.ts:292-297 | a new tab keeps the space's order iff no row of the space has a sort order above its tab count |
| HydrateRoundTrip.RunsStayNumbered | src/core/store/tabStore.ts:292-297 | without closes the rows of each space are numbered from zero |
| HydrateRoundTrip.OrderIsKeptWithoutCloses | src/core/store/tabStore.ts:292-558 | as long as no tab was closed, every space's order survives a restart |
| HydrateRoundTrip.CloseCanReorder | src/core/store/tabStore.ts:292-297 | a run, three tabs opened, two closed, one opened, after which a restart swaps two tabs |
| HookSettings.SessionStartHooks | src-tauri/src/hooks_installer.rs:82-94 | finds the entries, creating missing levels, or fails at the first level of the wrong shape |
| HookSettings.RetainUnrecognised | src-tauri/src/hooks_installer.rs:42 | the retain loop keeps the unrecognised entries |
| HookSettings.InstallHookSettings | src-tauri/src/hooks_installer.rs:35-51 | the operation is the install function the lemmas are about |
| HookSettings.UninstallHookSettings | src-tauri/src/hooks_installer.rs:53-59 | the operation is the uninstall function the lemmas are about |
| HookSettings.HasSanctelHook | src-tauri/src/hooks_installer.rs:61-67 | the search is the function the lemmas are about |
| HookSettings.KeptInOrder | src-tauri/src/hooks_installer.rs:42-57 | the kept entries are exactly the unrecognised ones, at increasing places |
| HookSettings.WrappedIsRecognised | src-tauri/src/hooks_installer.rs:47-49 | the entry an install writes is recognised iff its command carries the marker |
| HookSettings.RecognisedIff | src-tauri/src/hooks_installer.rs:111-132 | an entry is recognised iff its own command or that of an entry of its `hooks` array contains `sanctel hook-handler` |
| HookSettings.BareEntryIsRecognised | src-tauri/src/hooks_installer.rs:111-132 | an older bare entry is recognised iff its command carries the marker, and then removed |
| HookSettings.InstalledEntry | src-tauri/src/hooks_installer.rs:44-50 | the last entry after an install is, in full, the wrapper of one entry of type `command` with the command |
| HookSettings.InstallReplacesIffMarked | src-tauri/src/hooks_installer.rs:35-51 | a second install replaces the first, for every command, iff the first command carries the marker |
| HookSettings.InstallLeavesOneEntry | src-tauri/src/hooks_installer.rs:35-51 | after an install the entries are the unrecognised ones in order and the new one last, recognised alone and iff marked |
| HookSettings.UninstallLeavesNone | src-tauri/src/hooks_installer.rs:53-67 | after an uninstall no hook is found, and a second one changes nothing |
| HookSettings.UninstallIsIdleIffNoHook | src-tauri/src/hooks_installer.rs:53-67 | an uninstall changes nothing iff no hook is found |
| HookSettings.UninstallUndoesInstallIff | src-tauri/src/hooks_installer.rs:35-59 | an uninstall undoes an install up to created empty containers iff the command was marked, and entirely iff also the containers were there |
| HookSettings.InstallAfterUninstall | src-tauri/src/hooks_installer.rs:35-59 | uninstalling first makes no difference to an install |
| HookSettings.OtherSettingsStay | src-tauri/src/hooks_installer.rs:35-59 | install and uninstall change nothing outside `hooks.SessionStart` |
| HookSettings.FailuresAgree | src-tauri/src/hooks_installer.rs:69-109 | install, uninstall and detection fail together, on the same error, exactly on a wrong shape at one of the three levels |
| HookSettings.HookCommandIsMarked | src-tauri/src/hooks_installer.rs:269-275 | the command written for an agent always carries the marker |
| PtyDrain.PtyReader.Read | src-tauri/src/terminal_runtime.rs:305-315 | a read overwrites the front of the reused buffer and leaves the rest |
| PtyDrain.OutputChannel.Send | src-tauri/src/terminal_runtime.rs:310 | a chunk is delivered whole while the channel is open, and not at all afterwards |
| PtyDrain.DrainForwardsEverything | src-tauri/src/terminal_runtime.rs:305-318 | the bytes forwarded are exactly those of the reads before the one the loop stops at, one send per chunk, and that read gives the reason to stop |
| PtyDrain.InterruptionsDoNotMatter | src-tauri/src/terminal_runtime.rs:315 | an interrupted read anywhere changes nothing |
| PtyDrain.NothingIsLost | src-tauri/src/terminal_runtime.rs:305-318 | with an open channel and no failing read, every byte up to end of file is forwarded |
| PtyDrain.TabExitedIfSessionMissing | src-tauri/src/terminal_runtime.rs:67-79 | a payload for the tab iff the session is reported missing; the error is passed on |
| PtyDrain.DrainReader | src-tauri/src/terminal_runtime.rs:305-318 | the loop forwards what the script's meaning says and never stale buffer bytes |
| PtyDrain.DriveReaderUntilDone | src-tauri/src/terminal_runtime.rs:292-329 | tab-exited is emitted once iff the loop stopped at end of file and the session is reported missing, else never; the error of the question is returned |

## Left out

- Real processes, PTYs, the filesystem, the `notify` backend and Tauri IPC: they are a server map, a
  directory map, an event queue and a position map under the assumptions above.
- JSON and SQL text: parsing and printing are taken as identities on values, and the in-memory store
  stands for `SqlPersistence`.
- Partial writes of a tmp file, and two writers of one session writing the same tmp file at once beyond
  the interleaving of whole writes and renames.
- `session_id_from_payload` and `resolve_session_name`: their results are parameters of a hook run.
- The debounce clock: a batch ends at any moment; and an unbounded stream of notices.
- Fields that are empty in the restore script's `read`: tab is whitespace to `IFS`, so the shell
  collapses runs of tabs before it assigns the fields; the plan takes the fields as awk prints them.
- Layout restoration in `restore.sh` (sessions, windows, splits, titles) and the further checks of
  `restore_pane_process`; the meaning of a snapshot is the selection of pane processes.
- Two snapshot rewriters at once (timer and exit save).
- Which of two captures is newer, in the frontend: `applyAgentSessionCaptures` compares no timestamps.
- Tabs restored without a `windowName`, or with the name `auto`, whose allocated name the hydrate ignores: excluded by
  hypothesis where names matter.
- A tab created between the hydrate and the reap.
- `patchTab`, whose changes are not persisted, and the selectors of the store.
- Webview calls that fail for another reason than a missing label, and window focus.
- The registry of attached terminals and the kill in `close_tab`; sessions die by kills of the protocol.
- Other commands inside the wrapper object of a Sanctel command: the source removes the whole wrapper,
  and the model states entry by entry.
- `install_all_hooks` over the three agents' files, the declined-prompt file and the symlink.
- Profile isolation, React components, xterm, clipboard, menus, the setup screen, the worktree list.
- AllocationSafety.AllocationIsMatched: speaks of allocators whose name was unused at the scan;
  `AllocatedNameIsFresh` says exactly when that is, and `WrappedCounterReturnsLiveSession` what happens otherwise.
- CacheCoherence.RestIsCoherent: asks that nothing fails and nothing is written before the watch;
  `RestIsCoherentIff` is the exact statement without that.
- TmuxServer.TmuxCli.ListWindows: does not model the trimming of names and the dropping of empty lines.
- TmuxServer.TmuxCli.ListSessions: nor that, nor the empty answer to an "error connecting".
- Webviews.AppState.CloseTab: does not model the kill of the tab's tmux session, which the protocol has
  as a kill at any moment.
- TabActions.TabStore.Hydrate: does not model listening for captures and draining the pending ones; the
  reap is `HydrateReap.ReapAtLaunch`.
- RowAgreement.RestIsRowOfIff: asks that the tab's renames are of a tab the store has and are saved; a
  rename whose save fails leaves the new title in the store and the old one in the row.
- Webviews.AppState.CreateTab: what precedes the webview (tmux, worktree path, profile) is one flag.
