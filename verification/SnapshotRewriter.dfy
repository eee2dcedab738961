/**
  Rewriting a resurrect snapshot so that the panes of captured agents resume their session
  (snapshot_rewriter.rs).
*/
module SnapshotRewriter {
  import opened Wrappers
  import opened SnapshotText

  datatype AgentCli = Claude | Codex | Gemini

  datatype AgentResume = AgentResume(agent: string, sessionId: string)

  type Captures = map<string, AgentResume>

  const TAB := '\t'
  const SESSION_NAME_COLUMN := 1
  const PROGRAM_COLUMN := 9
  const COMMAND_COLUMN := 10
  const MIN_PANE_COLUMNS := 11

  function ParseAgent(value: string): Option<AgentCli> {
    if value == "claude" then Some(Claude)
    else if value == "codex" then Some(Codex)
    else if value == "gemini" then Some(Gemini)
    else None
  }

  function AgentName(agent: AgentCli): string {
    match agent
    case Claude => "claude"
    case Codex => "codex"
    case Gemini => "gemini"
  }

  predicate PaneIsRunningAgent(program: string, agent: AgentCli) {
    match agent
    case Claude => program == "claude"
    case Codex => program == "codex" || "codex-" <= program
    case Gemini => program == "gemini" || program == "node"
  }

  function ResumePrefix(agent: AgentCli): string {
    match agent
    case Claude => ":claude --resume "
    case Codex => ":codex resume "
    case Gemini => ":gemini --resume "
  }

  function ResumeCommand(agent: AgentCli, sessionId: string): string {
    ResumePrefix(agent) + sessionId
  }

  function Body(line: string): string {
    if EndsLine(line) then line[..|line| - 1] else line
  }

  function Newline(line: string): string {
    if EndsLine(line) then "\n" else ""
  }

  function Columns(line: string): (columns: seq<string>)
    ensures columns != []
  {
    Fields(Body(line), TAB)
  }

  /** The agent to resume in a pane: its session is captured and it is still running. */
  function AgentToResume(columns: seq<string>, captures: Captures): Option<AgentCli> {
    if |columns| < MIN_PANE_COLUMNS || columns[0] != "pane" || columns[SESSION_NAME_COLUMN] !in captures then None
    else
      var agent := ParseAgent(captures[columns[SESSION_NAME_COLUMN]].agent);
      if agent.Some? && PaneIsRunningAgent(columns[PROGRAM_COLUMN], agent.value) then agent else None
  }

  function NewColumns(columns: seq<string>, captures: Captures): (columns': seq<string>)
    ensures |columns'| == |columns|
  {
    var agent := AgentToResume(columns, captures);
    if agent.None? then columns
    else columns[PROGRAM_COLUMN := AgentName(agent.value)]
                [COMMAND_COLUMN := ResumeCommand(agent.value, captures[columns[SESSION_NAME_COLUMN]].sessionId)]
  }

  function RewrittenLine(line: string, captures: Captures): string {
    if AgentToResume(Columns(line), captures).None? then line
    else Join(NewColumns(Columns(line), captures), TAB) + Newline(line)
  }

  function RewrittenLines(lines: seq<string>, captures: Captures): (lines': seq<string>)
    ensures |lines'| == |lines|
    ensures forall k | 0 <= k < |lines| :: lines'[k] == RewrittenLine(lines[k], captures)
  {
    seq(|lines|, k requires 0 <= k < |lines| => RewrittenLine(lines[k], captures))
  }

  function Rewritten(snapshot: string, captures: Captures): string {
    Concat(RewrittenLines(Lines(snapshot), captures))
  }

  // ---------- the source's loops ----------

  method RewriteLine(line: string, captures: Captures) returns (r: string)
    ensures r == RewrittenLine(line, captures)
  {
    var columns := Columns(line);
    if |columns| < MIN_PANE_COLUMNS || columns[0] != "pane" {
      return line;
    }
    if columns[SESSION_NAME_COLUMN] !in captures {
      return line;
    }
    var resume := captures[columns[SESSION_NAME_COLUMN]];
    var agent := ParseAgent(resume.agent);
    if agent.None? || !PaneIsRunningAgent(columns[PROGRAM_COLUMN], agent.value) {
      return line;
    }
    columns := columns[PROGRAM_COLUMN := AgentName(agent.value)];
    columns := columns[COMMAND_COLUMN := ResumeCommand(agent.value, resume.sessionId)];
    r := Join(columns, TAB) + Newline(line);
  }

  lemma ConcatOneMore(lines: seq<string>, k: nat)
    requires k < |lines|
    ensures Concat(lines[..k + 1]) == Concat(lines[..k]) + lines[k]
  {
    assert lines[..k + 1] == lines[..k] + [lines[k]];
    ConcatOfConcat(lines[..k], [lines[k]]);
    assert Concat([lines[k]]) == lines[k];
  }

  method RewriteSnapshot(snapshot: string, captures: Captures) returns (rewritten: string)
    ensures rewritten == Rewritten(snapshot, captures)
  {
    rewritten := "";
    var lines := Lines(snapshot);
    ghost var all := RewrittenLines(lines, captures);
    for k := 0 to |lines|
      invariant rewritten == Concat(all[..k])
    {
      var line := RewriteLine(lines[k], captures);
      assert all[k] == line;
      ConcatOneMore(all, k);
      rewritten := rewritten + line;
    }
    assert all[..|lines|] == all;
  }

  /** Entry `k` is the freshest of its session: the latest, and the first among equals. */
  predicate IsFreshest(entries: seq<(string, AgentResume, nat)>, k: nat)
    requires k < |entries|
  {
    forall j | 0 <= j < |entries| && entries[j].0 == entries[k].0 ::
      entries[j].2 <= entries[k].2 && (j < k ==> entries[j].2 < entries[k].2)
  }

  /** Every session captured at all maps to its freshest capture, and to nothing else. */
  method CaptureMap(entries: seq<(string, AgentResume, nat)>) returns (captures: Captures)
    ensures forall name :: name in captures <==> exists k :: 0 <= k < |entries| && entries[k].0 == name
    ensures forall k | 0 <= k < |entries| && IsFreshest(entries, k) :: captures[entries[k].0] == entries[k].1
    ensures forall name | name in captures ::
              exists k :: 0 <= k < |entries| && entries[k].0 == name && IsFreshest(entries, k)
                  && captures[name] == entries[k].1
  {
    var freshest: map<string, (AgentResume, nat)> := map[];
    ghost var origin: map<string, nat> := map[];
    for i := 0 to |entries|
      invariant freshest.Keys == origin.Keys
      invariant forall name | name in origin :: origin[name] < i && entries[origin[name]].0 == name
      invariant forall name | name in origin :: freshest[name] == (entries[origin[name]].1, entries[origin[name]].2)
      invariant forall j | 0 <= j < i :: entries[j].0 in origin
      invariant forall j | 0 <= j < i ::
                  var o := origin[entries[j].0]; entries[j].2 <= entries[o].2 && (j < o ==> entries[j].2 < entries[o].2)
    {
      var (name, resume, ts) := entries[i];
      if name !in freshest || freshest[name].1 < ts {
        freshest := freshest[name := (resume, ts)];
        origin := origin[name := i];
      }
    }
    captures := map name | name in freshest :: freshest[name].0;
    forall name | name in captures
      ensures exists k :: 0 <= k < |entries| && entries[k].0 == name && IsFreshest(entries, k)
                && captures[name] == entries[k].1
    {
      assert IsFreshest(entries, origin[name]);
    }
    forall k | 0 <= k < |entries| && IsFreshest(entries, k) ensures captures[entries[k].0] == entries[k].1 {
      assert origin[entries[k].0] == k;
    }
  }

  // ---------- what a rewrite keeps ----------

  /** No usable capture carries a session id that would break a line or a column. */
  predicate Clean(captures: Captures) {
    forall name | name in captures && UsableName(name) && ParseAgent(captures[name].agent).Some? ::
      UsableName(captures[name].sessionId)
  }

  predicate UsableName(s: string) {
    TAB !in s && '\n' !in s
  }

  predicate AllUsable(columns: seq<string>) {
    forall c | c in columns :: UsableName(c)
  }

  lemma ColumnsAreUsable(line: string)
    requires IsLine(line)
    ensures AllUsable(Columns(line))
  {
    var body := Body(line);
    assert '\n' !in body by {
      forall k | 0 <= k < |body| ensures body[k] != '\n' {
        assert k < |line| - 1 ==> line[..|line| - 1][k] == line[k];
      }
    }
  }

  lemma NewColumnsAreUsable(columns: seq<string>, captures: Captures)
    requires AllUsable(columns) && Clean(captures)
    ensures AllUsable(NewColumns(columns, captures))
  {
    var agent := AgentToResume(columns, captures);
    if agent.Some? {
      assert columns[SESSION_NAME_COLUMN] in columns;
      var id := captures[columns[SESSION_NAME_COLUMN]].sessionId;
      assert UsableName(id);
      assert UsableName(ResumeCommand(agent.value, id)) && UsableName(AgentName(agent.value));
    }
  }

  /** A rewritten line is again one line with the same ending, and its columns are the old ones
      but for the program and the command. */
  lemma RewrittenLineFrame(line: string, captures: Captures)
    requires IsLine(line) && Clean(captures)
    ensures IsLine(RewrittenLine(line, captures))
    ensures EndsLine(RewrittenLine(line, captures)) <==> EndsLine(line)
    ensures Columns(RewrittenLine(line, captures)) == NewColumns(Columns(line), captures)
  {
    var columns, columns' := Columns(line), NewColumns(Columns(line), captures);
    ColumnsAreUsable(line);
    if AgentToResume(columns, captures).Some? {
      NewColumnsAreUsable(columns, captures);
      var body' := Join(columns', TAB);
      JoinCharacters(columns', TAB, '\n');
      FieldsJoin(columns', TAB);
      assert columns'[0] == "pane" && |body'| > 0 by {
        assert body'[..4] == "pane";
      }
      var line' := body' + Newline(line);
      assert line'[..|body'|] == body';
      assert !EndsLine(line) ==> line' == body';
    }
  }

  lemma RewrittenLinesAreLaid(lines: seq<string>, captures: Captures)
    requires Laid(lines) && Clean(captures)
    ensures Laid(RewrittenLines(lines, captures))
  {
    var lines' := RewrittenLines(lines, captures);
    forall k | 0 <= k < |lines| ensures IsLine(lines'[k]) && (EndsLine(lines'[k]) <==> EndsLine(lines[k])) {
      assert lines[k] in lines;
      RewrittenLineFrame(lines[k], captures);
    }
  }

  /** The rewritten snapshot has the same number of lines, each the rewriting of the old one,
      and ends in a newline iff the old one does. */
  lemma RewriteKeepsLines(snapshot: string, captures: Captures)
    requires Clean(captures)
    ensures Lines(Rewritten(snapshot, captures)) == RewrittenLines(Lines(snapshot), captures)
    ensures EndsLine(Rewritten(snapshot, captures)) <==> EndsLine(snapshot)
  {
    var lines := Lines(snapshot);
    LinesAreLaid(snapshot);
    RewrittenLinesAreLaid(lines, captures);
    LinesConcat(RewrittenLines(lines, captures));
    LinesAreLaid(Rewritten(snapshot, captures));
    if lines != [] {
      assert lines[|lines| - 1] in lines;
      RewrittenLineFrame(lines[|lines| - 1], captures);
    }
  }

  /** Only the program and command columns of pane lines with at least 11 columns change. */
  lemma RewriteKeepsColumns(snapshot: string, captures: Captures, k: nat, c: nat)
    requires Clean(captures) && k < |Lines(snapshot)|
    requires c < |Columns(Lines(snapshot)[k])|
    ensures |Lines(Rewritten(snapshot, captures))| == |Lines(snapshot)|
    ensures var columns, columns' := Columns(Lines(snapshot)[k]), Columns(Lines(Rewritten(snapshot, captures))[k]);
            && |columns'| == |columns|
            && (columns'[c] != columns[c] ==>
                  (c == PROGRAM_COLUMN || c == COMMAND_COLUMN) && columns[0] == "pane" && |columns| >= MIN_PANE_COLUMNS
                  && columns[SESSION_NAME_COLUMN] in captures)
  {
    RewriteKeepsLines(snapshot, captures);
    assert Lines(snapshot)[k] in Lines(snapshot);
    RewrittenLineFrame(Lines(snapshot)[k], captures);
  }

  lemma RewrittenLinesDistribute(a: seq<string>, b: seq<string>, captures: Captures)
    ensures RewrittenLines(a + b, captures) == RewrittenLines(a, captures) + RewrittenLines(b, captures)
  {
  }

  /** Rewriting distributes over concatenation at a line boundary, whatever the captures. */
  lemma RewriteDistributes(a: string, b: string, captures: Captures)
    requires a == "" || EndsLine(a)
    ensures Rewritten(a + b, captures) == Rewritten(a, captures) + Rewritten(b, captures)
  {
    LinesOfConcat(a, b);
    RewrittenLinesDistribute(Lines(a), Lines(b), captures);
    ConcatOfConcat(RewrittenLines(Lines(a), captures), RewrittenLines(Lines(b), captures));
  }

  // ---------- which panes, and to what ----------

  /** The program a pane shows is one the captured agent is known by. */
  predicate ShowsAgent(agent: string, program: string) {
    || (agent == "claude" && program == "claude")
    || (agent == "codex" && (program == "codex" || "codex-" <= program))
    || (agent == "gemini" && (program == "gemini" || program == "node"))
  }

  /** A pane line of a captured session gets the agent's own name as program and the command that
      resumes the session, exactly when it shows the agent; otherwise it stays. */
  lemma CapturedPaneIsRewrittenIff(line: string, captures: Captures)
    requires |Columns(line)| >= 11 && Columns(line)[0] == "pane" && Columns(line)[1] in captures
    ensures var columns, resume := Columns(line), captures[Columns(line)[1]];
            var command :=
              if resume.agent == "claude" then ":claude --resume " + resume.sessionId
              else if resume.agent == "codex" then ":codex resume " + resume.sessionId
              else ":gemini --resume " + resume.sessionId;
            RewrittenLine(line, captures) ==
            if ShowsAgent(resume.agent, columns[9])
            then Join(columns[9 := resume.agent][10 := command], '\t') + Newline(line)
            else line
  {
  }

  /** Every other line stays. */
  lemma OtherLinesStay(line: string, captures: Captures)
    requires |Columns(line)| < 11 || Columns(line)[0] != "pane" || Columns(line)[1] !in captures
    ensures RewrittenLine(line, captures) == line
  {
  }

  // ---------- idempotence ----------

  lemma NewColumnsTwice(columns: seq<string>, captures: Captures)
    ensures NewColumns(NewColumns(columns, captures), captures) == NewColumns(columns, captures)
    ensures AgentToResume(NewColumns(columns, captures), captures) == AgentToResume(columns, captures)
  {
  }

  lemma RewrittenLineTwice(line: string, captures: Captures)
    requires IsLine(line) && Clean(captures)
    ensures RewrittenLine(RewrittenLine(line, captures), captures) == RewrittenLine(line, captures)
  {
    RewrittenLineFrame(line, captures);
    NewColumnsTwice(Columns(line), captures);
  }

  lemma RewriteTwice(snapshot: string, captures: Captures)
    requires Clean(captures)
    ensures Rewritten(Rewritten(snapshot, captures), captures) == Rewritten(snapshot, captures)
  {
    var lines := Lines(snapshot);
    RewriteKeepsLines(snapshot, captures);
    var once := RewrittenLines(lines, captures);
    forall k | 0 <= k < |lines| ensures RewrittenLine(once[k], captures) == once[k] {
      assert lines[k] in lines;
      RewrittenLineTwice(lines[k], captures);
    }
    assert RewrittenLines(once, captures) == once;
  }

  /** The first ten columns of a pane of the session with the agent running. */
  function PaneHead(name: string, agent: AgentCli): seq<string> {
    ["pane", name, "", "", "", "", "", "", "", AgentName(agent)]
  }

  predicate Captured(name: string, agent: AgentCli, captures: Captures) {
    name in captures && UsableName(name) && ParseAgent(captures[name].agent) == Some(agent)
  }

  lemma PaneHeadIsRead(name: string, agent: AgentCli, captures: Captures, columns: seq<string>)
    requires Captured(name, agent, captures) && columns != []
    ensures AllUsable(PaneHead(name, agent))
    ensures NewColumns(PaneHead(name, agent) + columns, captures)
            == PaneHead(name, agent) + ([ResumeCommand(agent, captures[name].sessionId)] + columns[1..])
    ensures AgentToResume(PaneHead(name, agent) + columns, captures) == Some(agent)
  {
    assert UsableName(AgentName(agent)) && UsableName("") && UsableName("pane");
    var head := PaneHead(name, agent);
    assert (head + columns)[SESSION_NAME_COLUMN] == name;
    assert (head + columns)[PROGRAM_COLUMN] == AgentName(agent);
  }

  /** A pane line of the session, showing `shown` as its command. */
  function PaneText(name: string, agent: AgentCli, shown: string): string {
    Join(PaneHead(name, agent), TAB) + [TAB] + shown
  }

  lemma PaneTextIsRead(name: string, agent: AgentCli, captures: Captures, shown: string)
    requires Captured(name, agent, captures) && '\n' !in shown
    ensures '\n' !in PaneText(name, agent, shown)
    ensures Fields(PaneText(name, agent, shown), TAB) == PaneHead(name, agent) + Fields(shown, TAB)
  {
    var head := PaneHead(name, agent);
    PaneHeadIsRead(name, agent, captures, [""]);
    JoinCharacters(head, TAB, '\n');
    FieldsConcat(Join(head, TAB), shown, TAB);
    FieldsJoin(head, TAB);
  }

  /** Rewriting such a line leaves at least the resume command, and more if `shown` had tabs. */
  lemma RewrittenPaneText(name: string, agent: AgentCli, captures: Captures, shown: string, newline: string)
    requires Captured(name, agent, captures) && '\n' !in shown && (newline == "" || newline == "\n")
    ensures IsLine(PaneText(name, agent, shown) + newline)
    ensures var r := RewrittenLine(PaneText(name, agent, shown) + newline, captures);
            var least := PaneText(name, agent, ResumeCommand(agent, captures[name].sessionId)) + newline;
            |r| >= |least| && (TAB !in shown ==> r == least) && (TAB in shown ==> |r| > |least|)
  {
    var head, fields := PaneHead(name, agent), Fields(shown, TAB);
    var text, line := PaneText(name, agent, shown), PaneText(name, agent, shown) + newline;
    var command := ResumeCommand(agent, captures[name].sessionId);
    PaneTextIsRead(name, agent, captures, shown);
    assert line[..|text|] == text;
    assert Body(line) == text && Newline(line) == newline by {
      assert newline == "" ==> line == text;
    }
    PaneHeadIsRead(name, agent, captures, fields);
    JoinConcat(head, [command] + fields[1..], TAB);
    JoinFields(shown, TAB);
    if |fields| > 1 {
      JoinConcat([command], fields[1..], TAB);
      JoinCharacters(fields, TAB, TAB);
    } else {
      assert [command] + fields[1..] == [command];
      assert TAB !in fields[0];
    }
  }

  /** Rewriting the pane with no command once. */
  lemma RewrittenOnce(name: string, agent: AgentCli, captures: Captures)
    requires Captured(name, agent, captures)
    ensures Rewritten(PaneText(name, agent, ""), captures)
            == PaneText(name, agent, ResumeCommand(agent, captures[name].sessionId))
  {
    RewrittenPaneText(name, agent, captures, "", "");
    assert PaneText(name, agent, "") + "" == PaneText(name, agent, "");
    RewriteOfLine(PaneText(name, agent, ""), captures);
  }

  lemma TabGrows(name: string, agent: AgentCli, captures: Captures, command: string)
    requires Captured(name, agent, captures) && command == ResumeCommand(agent, captures[name].sessionId)
    requires '\n' !in command && TAB in command
    ensures |Rewritten(PaneText(name, agent, command), captures)| > |PaneText(name, agent, command)|
  {
    RewrittenPaneText(name, agent, captures, command, "");
    assert PaneText(name, agent, command) + "" == PaneText(name, agent, command);
    RewriteOfLine(PaneText(name, agent, command), captures);
  }

  lemma NewlineGrows(name: string, agent: AgentCli, captures: Captures, command: string)
    requires Captured(name, agent, captures) && command == ResumeCommand(agent, captures[name].sessionId)
    requires '\n' in command
    ensures |Rewritten(PaneText(name, agent, command), captures)| > |PaneText(name, agent, command)|
  {
    var i := Find(command, '\n');
    var shown, rest := command[..i], command[i + 1..];
    var line := PaneText(name, agent, shown) + "\n";
    SplitPaneText(name, agent, command, i);
    RewrittenPaneText(name, agent, captures, shown, "\n");
    RewriteDistributes(line, rest, captures);
    RewriteOfLine(line, captures);
    assert |PaneText(name, agent, command) + "\n"| == |PaneText(name, agent, command)| + 1;
  }

  lemma SplitPaneText(name: string, agent: AgentCli, text: string, i: nat)
    requires i < |text| && text[i] == '\n'
    ensures PaneText(name, agent, text) == PaneText(name, agent, text[..i]) + "\n" + text[i + 1..]
    ensures EndsLine(PaneText(name, agent, text[..i]) + "\n")
  {
    assert text == text[..i] + "\n" + text[i + 1..];
  }

  /** A session id with a tab or a newline makes the snapshot grow at every rewrite. */
  lemma UncleanGrows(name: string, agent: AgentCli, captures: Captures)
    requires Captured(name, agent, captures) && !UsableName(captures[name].sessionId)
    ensures var once := Rewritten(PaneText(name, agent, ""), captures);
            |Rewritten(once, captures)| > |once|
  {
    var id := captures[name].sessionId;
    var command := ResumeCommand(agent, id);
    assert forall k | 0 <= k < |id| :: command[|ResumePrefix(agent)| + k] == id[k];
    RewrittenOnce(name, agent, captures);
    if '\n' in command {
      NewlineGrows(name, agent, captures, command);
    } else {
      TabGrows(name, agent, captures, command);
    }
  }

  lemma RewriteOfLine(line: string, captures: Captures)
    requires IsLine(line)
    ensures Rewritten(line, captures) == RewrittenLine(line, captures)
  {
    LinesOfLine(line);
    var lines := RewrittenLines([line], captures);
    assert lines == [RewrittenLine(line, captures)];
    assert Concat(lines) == lines[0] + Concat(lines[1..]);
  }

  /** Rewriting is idempotent on every snapshot exactly when no usable capture carries a session
      id with a tab or a newline. */
  lemma IdempotentIffClean(captures: Captures)
    ensures Clean(captures) <==>
            forall snapshot :: Rewritten(Rewritten(snapshot, captures), captures) == Rewritten(snapshot, captures)
  {
    if Clean(captures) {
      forall snapshot ensures Rewritten(Rewritten(snapshot, captures), captures) == Rewritten(snapshot, captures) {
        RewriteTwice(snapshot, captures);
      }
    } else {
      var name :| name in captures && UsableName(name) && ParseAgent(captures[name].agent).Some?
                  && !UsableName(captures[name].sessionId);
      UncleanGrows(name, ParseAgent(captures[name].agent).value, captures);
    }
  }
}
