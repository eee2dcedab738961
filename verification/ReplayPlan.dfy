/**
  What a snapshot means: the pane processes that resurrect's restore script replays
  (restore.sh and process_restore_helpers.sh), and how rewriting changes that plan.
*/
module ReplayPlan {
  import opened Wrappers
  import opened SnapshotText
  import opened SnapshotRewriter

  datatype Entry = Entry(session: string, window: string, paneIndex: string, dir: string, command: string)

  /** An awk field: empty when the record has too few. */
  function Column(columns: seq<string>, k: nat): string {
    if k < |columns| then columns[k] else ""
  }

  /** `remove_first_char`. */
  function Tail(s: string): string {
    if s == "" then "" else s[1..]
  }

  function EntryOf(columns: seq<string>): Entry {
    Entry(Column(columns, 1), Column(columns, 2), Column(columns, 5), Tail(Column(columns, 7)),
        Tail(Column(columns, 10)))
  }

  /** The awk filter: the line starts with `pane` and its eleventh field is not a lone colon. */
  function PlannedEntry(line: string): Option<Entry> {
    if "pane" <= Body(line) && Column(Columns(line), COMMAND_COLUMN) != ":" then Some(EntryOf(Columns(line))) else None
  }

  function PlanOf(lines: seq<string>): seq<Entry> {
    if lines == [] then []
    else
      var entry := PlannedEntry(lines[0]);
      (if entry.Some? then [entry.value] else []) + PlanOf(lines[1..])
  }

  function Plan(snapshot: string): seq<Entry> {
    PlanOf(Lines(snapshot))
  }

  const RESTORE_LIST := ["vi", "vim", "view", "nvim", "emacs", "man", "less", "more", "tail", "top", "htop", "irssi",
                         "weechat", "mutt", "claude", "codex", "gemini"]

  /** The match of `_proc_matches_full_command`: the word alone, or followed by a space. */
  predicate MatchesWord(command: string, word: string) {
    command == word || word + " " <= command
  }

  predicate OnRestoreList(command: string) {
    exists word :: word in RESTORE_LIST && MatchesWord(command, word)
  }

  lemma PaneStarts(head: string, rest: string)
    ensures "pane" <= head + [TAB] + rest <==> "pane" <= head
  {
    var text := head + [TAB] + rest;
    assert text[|head|] == TAB && forall i | 0 <= i < 4 :: "pane"[i] != TAB;
    assert |head| >= 4 ==> text[..4] == head[..4];
    assert "pane" <= text ==> forall i | 0 <= i < 4 :: text[i] == "pane"[i];
  }

  lemma SavedColumns(columns: seq<string>)
    requires columns != [] && AllUsable(columns)
    ensures var line := Join(columns, TAB) + "\n"; Body(line) == Join(columns, TAB) && Columns(line) == columns
  {
    var body := Join(columns, TAB);
    FieldsJoin(columns, TAB);
    assert (body + "\n")[..|body|] == body;
  }

  /** A line that starts with the word, such as a saved pane, is replayed in its session, window and
      pane, in its directory and with its command, both without their leading colon, unless the
      command is a lone colon. */
  lemma SavedPaneIsPlanned(columns: seq<string>, dir: string, command: string)
    requires |columns| == 11 && AllUsable(columns)
    requires columns[7] == ":" + dir && columns[10] == ":" + command
    ensures PlannedEntry(Join(columns, TAB) + "\n") ==
            if "pane" <= columns[0] && command != ""
            then Some(Entry(columns[1], columns[2], columns[5], dir, command)) else None
  {
    SavedColumns(columns);
    PaneStarts(columns[0], Join(columns[1..], TAB));
  }

  /** A word of the list matches a command that is it, or goes on with a space after it. */
  lemma MatchesWordIff(command: string, word: string)
    ensures MatchesWord(command, word) <==>
            |command| >= |word| && command[..|word|] == word && (|command| == |word| || command[|word|] == ' ')
  {
    if |command| > |word| && command[..|word|] == word && command[|word|] == ' ' {
      assert command[..|word| + 1] == word + " ";
    }
  }

  // ---------- the intended plan ----------

  /** The captured, still running agent panes. */
  predicate Resumes(line: string, captures: Captures) {
    AgentToResume(Columns(line), captures).Some?
  }

  /** The entry with its command replaced by the one that resumes the captured session. */
  function ResumedEntry(line: string, captures: Captures): Entry
    requires Resumes(line, captures)
  {
    var columns := Columns(line);
    var agent := AgentToResume(columns, captures).value;
    EntryOf(columns).(command := Tail(ResumeCommand(agent, captures[columns[SESSION_NAME_COLUMN]].sessionId)))
  }

  function IntendedEntry(line: string, captures: Captures): Option<Entry> {
    if Resumes(line, captures) then Some(ResumedEntry(line, captures)) else PlannedEntry(line)
  }

  function IntendedPlanOf(lines: seq<string>, captures: Captures): seq<Entry> {
    if lines == [] then []
    else
      var entry := IntendedEntry(lines[0], captures);
      (if entry.Some? then [entry.value] else []) + IntendedPlanOf(lines[1..], captures)
  }

  lemma ResumeCommandMatches(agent: AgentCli, id: string)
    ensures MatchesWord(Tail(ResumeCommand(agent, id)), AgentName(agent))
  {
    var command := Tail(ResumeCommand(agent, id));
    assert command == ResumePrefix(agent)[1..] + id;
    assert AgentName(agent) + " " <= ResumePrefix(agent)[1..];
  }

  lemma AgentsAreListed(agent: AgentCli)
    ensures AgentName(agent) in RESTORE_LIST
  {
    assert RESTORE_LIST[14] == "claude" && RESTORE_LIST[15] == "codex" && RESTORE_LIST[16] == "gemini";
  }

  lemma ResumedCommandReplays(line: string, captures: Captures)
    requires Resumes(line, captures)
    ensures OnRestoreList(ResumedEntry(line, captures).command)
  {
    var columns := Columns(line);
    var agent := AgentToResume(columns, captures).value;
    ResumeCommandMatches(agent, captures[columns[SESSION_NAME_COLUMN]].sessionId);
    AgentsAreListed(agent);
  }

  lemma PaneLineStartsWithPane(line: string)
    requires Columns(line)[0] == "pane"
    ensures "pane" <= Body(line)
  {
    JoinFields(Body(line), TAB);
  }

  /** What the script makes of a rewritten line. */
  lemma RewrittenLinePlan(line: string, captures: Captures)
    requires IsLine(line) && Clean(captures)
    ensures PlannedEntry(RewrittenLine(line, captures)) == IntendedEntry(line, captures)
  {
    if Resumes(line, captures) {
      RewrittenLineFrame(line, captures);
      PaneLineStartsWithPane(RewrittenLine(line, captures));
      var columns := Columns(line);
      var command := ResumeCommand(AgentToResume(columns, captures).value,
          captures[columns[SESSION_NAME_COLUMN]].sessionId);
      assert |command| > 1;
    }
  }

  lemma {:induction false} RewrittenPlanOf(lines: seq<string>, captures: Captures)
    requires (forall l | l in lines :: IsLine(l)) && Clean(captures)
    ensures PlanOf(RewrittenLines(lines, captures)) == IntendedPlanOf(lines, captures)
  {
    if lines != [] {
      RewrittenLinePlan(lines[0], captures);
      RewrittenPlanOf(lines[1..], captures);
      assert RewrittenLines(lines, captures)[1..] == RewrittenLines(lines[1..], captures);
    }
  }

  /** Meaning preservation: the plan of the rewritten snapshot is the plan of the original with
      the command of exactly the captured, still running agent panes replaced. */
  lemma RewriteMeansResume(snapshot: string, captures: Captures)
    requires Clean(captures)
    ensures Plan(Rewritten(snapshot, captures)) == IntendedPlanOf(Lines(snapshot), captures)
  {
    RewriteKeepsLines(snapshot, captures);
    RewrittenPlanOf(Lines(snapshot), captures);
  }

  // ---------- the same panes, pane by pane ----------

  /** A captured pane that the script would have skipped for want of a command. */
  predicate Revives(line: string, captures: Captures) {
    Resumes(line, captures) && Columns(line)[COMMAND_COLUMN] == ":"
  }

  /** Equal, or equal but for a new command that the script replays. */
  predicate SamePane(e: Entry, e': Entry) {
    e' == e || (e' == e.(command := e'.command) && OnRestoreList(e'.command))
  }

  predicate SamePanes(plan: seq<Entry>, plan': seq<Entry>) {
    |plan| == |plan'| && forall k | 0 <= k < |plan| :: SamePane(plan[k], plan'[k])
  }

  lemma LineKeepsPane(line: string, captures: Captures)
    ensures var e, e' := PlannedEntry(line), IntendedEntry(line, captures);
            && (e.Some? ==> e'.Some? && SamePane(e.value, e'.value))
            && (e.None? && e'.Some? <==> Revives(line, captures))
  {
    if Resumes(line, captures) {
      ResumedCommandReplays(line, captures);
      PaneLineStartsWithPane(line);
    }
  }

  lemma {:induction false} IntendedPlanCounts(lines: seq<string>, captures: Captures)
    ensures |IntendedPlanOf(lines, captures)| >= |PlanOf(lines)|
    ensures (forall l | l in lines :: !Revives(l, captures)) <==>
            |IntendedPlanOf(lines, captures)| == |PlanOf(lines)|
  {
    if lines != [] {
      assert forall l :: l in lines <==> l == lines[0] || l in lines[1..];
      IntendedPlanCounts(lines[1..], captures);
      LineKeepsPane(lines[0], captures);
    }
  }

  lemma {:induction false} IntendedPlanKeepsPanes(lines: seq<string>, captures: Captures)
    requires forall l | l in lines :: !Revives(l, captures)
    ensures SamePanes(PlanOf(lines), IntendedPlanOf(lines, captures))
  {
    if lines != [] {
      IntendedPlanKeepsPanes(lines[1..], captures);
      LineKeepsPane(lines[0], captures);
    }
  }

  /** The two plans name the same panes exactly when no captured, running pane was saved without
      a command; such a pane joins the plan. All other commands are kept or replaced by one on
      the restore list. */
  lemma RewriteKeepsPanes(snapshot: string, captures: Captures)
    requires Clean(captures)
    ensures SamePanes(Plan(snapshot), Plan(Rewritten(snapshot, captures))) <==>
            forall l | l in Lines(snapshot) :: !Revives(l, captures)
  {
    RewriteMeansResume(snapshot, captures);
    IntendedPlanCounts(Lines(snapshot), captures);
    if forall l | l in Lines(snapshot) :: !Revives(l, captures) {
      IntendedPlanKeepsPanes(Lines(snapshot), captures);
    }
  }
}
