/**
  The agent CLIs' hook settings as JSON values, and installing, uninstalling and detecting Sanctel's
  SessionStart entry in them (hooks_installer.rs).
*/
module HookSettings {
  import opened Wrappers

  /** An object's keys carry no order: the JSON library keeps them sorted. */
  datatype Json =
    | Null
    | Bool(flag: bool)
    | Number(literal: string)
    | Str(text: string)
    | Arr(items: seq<Json>)
    | Obj(fields: map<string, Json>)

  datatype SettingsError = RootNotObject | HooksNotObject | SessionStartNotArray

  const MARKER := "sanctel hook-handler"

  predicate Contains(text: string, part: string) {
    exists i :: 0 <= i <= |text| && part <= text[i..]
  }

  function Get(value: Json, key: string): Option<Json> {
    if value.Obj? && key in value.fields then Some(value.fields[key]) else None
  }

  /** A command entry of Sanctel's: its `command` is a string holding the marker. */
  predicate IsSanctelCommand(entry: Json) {
    match Get(entry, "command")
    case Some(Str(command)) => Contains(command, MARKER)
    case _ => false
  }

  /** A wrapper with such a command in its `hooks` array, or the older bare command entry. */
  predicate IsSanctelEntry(entry: Json) {
    || (match Get(entry, "hooks")
        case Some(Arr(inner)) => exists k :: 0 <= k < |inner| && IsSanctelCommand(inner[k])
        case _ => false)
    || IsSanctelCommand(entry)
  }

  function CommandEntry(command: string): Json {
    Obj(map["type" := Str("command"), "command" := Str(command)])
  }

  function Wrapped(command: string): Json {
    Obj(map["hooks" := Arr([CommandEntry(command)])])
  }

  // ---------- what the operations compute ----------

  /** The entries under `hooks.SessionStart`, if both levels are there. */
  function Existing(root: Json): Result<Option<seq<Json>>, SettingsError> {
    if !root.Obj? then Err(RootNotObject)
    else match Get(root, "hooks")
      case None => Ok(None)
      case Some(hooks) =>
        if !hooks.Obj? then Err(HooksNotObject)
        else match Get(hooks, "SessionStart")
          case None => Ok(None)
          case Some(Arr(entries)) => Ok(Some(entries))
          case Some(_) => Err(SessionStartNotArray)
  }

  function OrEmpty(entries: Option<seq<Json>>): seq<Json> {
    match entries
    case Some(present) => present
    case None => []
  }

  function WithSessionStart(root: Json, entries: seq<Json>): Json
    requires root.Obj?
  {
    var hooks := match Get(root, "hooks")
      case Some(Obj(fields)) => fields
      case _ => map[];
    Obj(root.fields["hooks" := Obj(hooks["SessionStart" := Arr(entries)])])
  }

  function Unrecognised(entries: seq<Json>): seq<Json> {
    if entries == [] then []
    else
      var n := |entries| - 1;
      Unrecognised(entries[..n]) + (if IsSanctelEntry(entries[n]) then [] else [entries[n]])
  }

  /** The places of the unrecognised entries. */
  function KeptPlaces(entries: seq<Json>): seq<nat> {
    if entries == [] then []
    else
      var n := |entries| - 1;
      KeptPlaces(entries[..n]) + (if IsSanctelEntry(entries[n]) then [] else [n])
  }

  function Install(root: Json, command: string): Result<Json, SettingsError> {
    match Existing(root)
    case Err(e) => Err(e)
    case Ok(prior) => Ok(WithSessionStart(root, Unrecognised(OrEmpty(prior)) + [Wrapped(command)]))
  }

  function Uninstall(root: Json): Result<Json, SettingsError> {
    match Existing(root)
    case Err(e) => Err(e)
    case Ok(None) => Ok(root)
    case Ok(Some(prior)) => Ok(WithSessionStart(root, Unrecognised(prior)))
  }

  function HasHook(root: Json): Result<bool, SettingsError> {
    match Existing(root)
    case Err(e) => Err(e)
    case Ok(None) => Ok(false)
    case Ok(Some(prior)) => Ok(exists k :: 0 <= k < |prior| && IsSanctelEntry(prior[k]))
  }

  // ---------- the operations ----------

  /** Creates the missing levels on the way to the entries. */
  method SessionStartHooks(input: Json) returns (r: Result<(Json, seq<Json>), SettingsError>)
    ensures Existing(input).Err? ==> r == Err(Existing(input).error)
    ensures Existing(input).Ok? ==> r.Ok? && input.Obj? && r.value.1 == OrEmpty(Existing(input).value)
    ensures Existing(input).Ok? ==> r.value.0 == WithSessionStart(input, r.value.1)
  {
    if !input.Obj? {
      return Err(RootNotObject);
    }
    var root := input.fields;
    if "hooks" !in root {
      root := root["hooks" := Obj(map[])];
    }
    if !root["hooks"].Obj? {
      return Err(HooksNotObject);
    }
    var hooks := root["hooks"].fields;
    if "SessionStart" !in hooks {
      hooks := hooks["SessionStart" := Arr([])];
      root := root["hooks" := Obj(hooks)];
    }
    if !hooks["SessionStart"].Arr? {
      return Err(SessionStartNotArray);
    }
    assert hooks == hooks["SessionStart" := hooks["SessionStart"]];
    assert root == root["hooks" := Obj(hooks)];
    r := Ok((Obj(root), hooks["SessionStart"].items));
  }

  method RetainUnrecognised(entries: seq<Json>) returns (kept: seq<Json>)
    ensures kept == Unrecognised(entries)
  {
    kept := [];
    for i := 0 to |entries|
      invariant kept == Unrecognised(entries[..i])
    {
      assert entries[..i + 1][..i] == entries[..i];
      if !IsSanctelEntry(entries[i]) {
        kept := kept + [entries[i]];
      }
    }
    assert entries[..|entries|] == entries;
  }

  method InstallHookSettings(input: Json, command: string) returns (r: Result<Json, SettingsError>)
    ensures r == Install(input, command)
  {
    var found := SessionStartHooks(input);
    if found.Err? {
      return Err(found.error);
    }
    var (root, sessionStart) := found.value;
    sessionStart := RetainUnrecognised(sessionStart);
    sessionStart := sessionStart + [Wrapped(command)];
    SetTwice(input, found.value.1, sessionStart);
    r := Ok(WithSessionStart(root, sessionStart));
  }

  method UninstallHookSettings(input: Json) returns (r: Result<Json, SettingsError>)
    ensures r == Uninstall(input)
  {
    var found := Existing(input);
    if found.Err? {
      return Err(found.error);
    }
    if found.value.None? {
      return Ok(input);
    }
    var sessionStart := RetainUnrecognised(found.value.value);
    r := Ok(WithSessionStart(input, sessionStart));
  }

  method HasSanctelHook(input: Json) returns (r: Result<bool, SettingsError>)
    ensures r == HasHook(input)
  {
    var found := Existing(input);
    if found.Err? {
      return Err(found.error);
    }
    if found.value.None? {
      return Ok(false);
    }
    var entries := found.value.value;
    for i := 0 to |entries|
      invariant forall k :: 0 <= k < i ==> !IsSanctelEntry(entries[k])
    {
      if IsSanctelEntry(entries[i]) {
        return Ok(true);
      }
    }
    r := Ok(false);
  }

  // ---------- reading back what was written ----------

  lemma SetTwice(root: Json, entries: seq<Json>, entries': seq<Json>)
    requires root.Obj?
    ensures WithSessionStart(WithSessionStart(root, entries), entries') == WithSessionStart(root, entries')
  {
    var fields, once := root.fields, WithSessionStart(root, entries).fields;
    var hooks := once["hooks"].fields;
    assert hooks["SessionStart" := Arr(entries')] == WithSessionStart(root, entries').fields["hooks"].fields;
    assert once["hooks" := Obj(hooks["SessionStart" := Arr(entries')])] == WithSessionStart(root, entries').fields;
  }

  lemma SetThenRead(root: Json, entries: seq<Json>)
    requires Existing(root).Ok?
    ensures Existing(WithSessionStart(root, entries)) == Ok(Some(entries))
  {
  }

  lemma ReadThenSet(root: Json)
    requires Existing(root).Ok? && Existing(root).value.Some?
    ensures WithSessionStart(root, Existing(root).value.value) == root
  {
    var hooks := root.fields["hooks"];
    assert hooks.fields == hooks.fields["SessionStart" := hooks.fields["SessionStart"]];
    assert root.fields == root.fields["hooks" := hooks];
  }

  lemma SetIsInjective(root: Json, a: seq<Json>, b: seq<Json>)
    requires Existing(root).Ok? && WithSessionStart(root, a) == WithSessionStart(root, b)
    ensures a == b
  {
    SetThenRead(root, a);
    SetThenRead(root, b);
  }

  // ---------- which entries stay ----------

  lemma {:induction false} KeptAtPlaces(entries: seq<Json>)
    ensures |Unrecognised(entries)| == |KeptPlaces(entries)|
    ensures forall k :: 0 <= k < |KeptPlaces(entries)| ==>
              KeptPlaces(entries)[k] < |entries| && Unrecognised(entries)[k] == entries[KeptPlaces(entries)[k]]
  {
    if entries != [] {
      var front := entries[..|entries| - 1];
      KeptAtPlaces(front);
      forall k | 0 <= k < |KeptPlaces(front)| ensures Unrecognised(front)[k] == entries[KeptPlaces(front)[k]] {
        assert front[KeptPlaces(front)[k]] == entries[KeptPlaces(front)[k]];
      }
    }
  }

  lemma {:induction false} PlacesAreExact(entries: seq<Json>)
    ensures forall j, k :: 0 <= j < k < |KeptPlaces(entries)| ==> KeptPlaces(entries)[j] < KeptPlaces(entries)[k]
    ensures forall i: nat :: i in KeptPlaces(entries) <==> i < |entries| && !IsSanctelEntry(entries[i])
  {
    if entries != [] {
      var n := |entries| - 1;
      PlacesAreExact(entries[..n]);
      forall i: nat ensures i in KeptPlaces(entries) <==> i < |entries| && !IsSanctelEntry(entries[i]) {
        assert i < n ==> entries[..n][i] == entries[i];
      }
      forall k | 0 <= k < |KeptPlaces(entries[..n])| ensures KeptPlaces(entries[..n])[k] < n {
        assert KeptPlaces(entries[..n])[k] in KeptPlaces(entries[..n]);
      }
    }
  }

  /** The entries kept are exactly the unrecognised ones, at increasing places. */
  lemma KeptInOrder(entries: seq<Json>)
    ensures var kept, places := Unrecognised(entries), KeptPlaces(entries);
            && |kept| == |places|
            && (forall k :: 0 <= k < |places| ==> places[k] < |entries| && kept[k] == entries[places[k]])
            && (forall j, k :: 0 <= j < k < |places| ==> places[j] < places[k])
            && (forall i: nat :: i in places <==> i < |entries| && !IsSanctelEntry(entries[i]))
  {
    KeptAtPlaces(entries);
    PlacesAreExact(entries);
  }

  lemma KeptAreUnrecognised(entries: seq<Json>)
    ensures forall k :: 0 <= k < |Unrecognised(entries)| ==> !IsSanctelEntry(Unrecognised(entries)[k])
  {
    KeptInOrder(entries);
    forall k | 0 <= k < |Unrecognised(entries)| ensures !IsSanctelEntry(Unrecognised(entries)[k]) {
      assert KeptPlaces(entries)[k] in KeptPlaces(entries);
    }
  }

  lemma {:induction false} UnrecognisedIsAll(entries: seq<Json>)
    ensures |Unrecognised(entries)| <= |entries|
    ensures Unrecognised(entries) == entries <==> forall k :: 0 <= k < |entries| ==> !IsSanctelEntry(entries[k])
  {
    if entries != [] {
      var n := |entries| - 1;
      UnrecognisedIsAll(entries[..n]);
      assert entries == entries[..n] + [entries[n]];
    }
  }

  lemma UnrecognisedTwice(entries: seq<Json>)
    ensures Unrecognised(Unrecognised(entries)) == Unrecognised(entries)
  {
    KeptAreUnrecognised(entries);
    UnrecognisedIsAll(Unrecognised(entries));
  }

  lemma UnrecognisedAfterPush(entries: seq<Json>, entry: Json)
    ensures Unrecognised(Unrecognised(entries) + [entry]) ==
            if IsSanctelEntry(entry) then Unrecognised(entries) else Unrecognised(entries) + [entry]
  {
    assert (Unrecognised(entries) + [entry])[..|Unrecognised(entries)|] == Unrecognised(entries);
    UnrecognisedTwice(entries);
  }

  lemma WrappedIsRecognised(command: string)
    ensures IsSanctelEntry(Wrapped(command)) <==> Contains(command, MARKER)
  {
    var inner := Wrapped(command).fields["hooks"].items;
    assert inner[0] == CommandEntry(command);
  }

  /** An entry is recognised by its own command, or by that of an entry of its `hooks` array. */
  lemma RecognisedIff(fields: map<string, Json>)
    ensures IsSanctelEntry(Obj(fields)) <==>
            || ("command" in fields && fields["command"].Str?
                && Contains(fields["command"].text, "sanctel hook-handler"))
            || ("hooks" in fields && fields["hooks"].Arr?
                && exists k :: 0 <= k < |fields["hooks"].items| && IsSanctelCommand(fields["hooks"].items[k]))
  {
  }

  /** The older bare entries go with an install and with an uninstall. */
  lemma BareEntryIsRecognised(command: string)
    ensures IsSanctelEntry(Obj(map["type" := Str("command"), "command" := Str(command)])) <==>
            Contains(command, "sanctel hook-handler")
    ensures Contains(command, "sanctel hook-handler") ==>
              Unrecognised([Obj(map["type" := Str("command"), "command" := Str(command)])]) == []
  {
    var entry := Obj(map["type" := Str("command"), "command" := Str(command)]);
    assert [entry][..0] == [];
    RecognisedIff(entry.fields);
  }

  /** The entry an install adds, in full. */
  lemma InstalledEntry(root: Json, command: string)
    requires Install(root, command).Ok?
    ensures var after := Existing(Install(root, command).value);
            && after.Ok? && after.value.Some? && after.value.value != []
            && after.value.value[|after.value.value| - 1] ==
               Obj(map["hooks" := Arr([Obj(map["type" := Str("command"), "command" := Str(command)])])])
  {
    InstallLeavesOneEntry(root, command);
  }

  // ---------- the algebra ----------

  /** A second install replaces the first exactly when the first command carries the marker. */
  lemma InstallReplacesIffMarked(root: Json, first: string, second: string)
    requires Install(root, first).Ok?
    ensures Install(Install(root, first).value, second) == Install(root, second) <==> Contains(first, MARKER)
  {
    var prior := OrEmpty(Existing(root).value);
    var once := Unrecognised(prior) + [Wrapped(first)];
    SetThenRead(root, once);
    UnrecognisedAfterPush(prior, Wrapped(first));
    WrappedIsRecognised(first);
    var twice := Unrecognised(once) + [Wrapped(second)];
    SetTwice(root, once, twice);
    var direct := Unrecognised(prior) + [Wrapped(second)];
    assert Install(Install(root, first).value, second) == Ok(WithSessionStart(root, twice));
    assert !Contains(first, MARKER) ==> |twice| == |direct| + 1;
    if WithSessionStart(root, twice) == WithSessionStart(root, direct) {
      SetIsInjective(root, twice, direct);
    }
  }

  /** After an install the entries are the unrecognised ones of before and the new one at the
      end, which is the only recognised entry, and recognised exactly when its command is marked. */
  lemma InstallLeavesOneEntry(root: Json, command: string)
    requires Install(root, command).Ok?
    ensures var prior := OrEmpty(Existing(root).value);
            var after := Existing(Install(root, command).value);
            && after.Ok? && after.value.Some?
            && var entries := after.value.value;
               && entries == Unrecognised(prior) + [Wrapped(command)]
               && forall k :: 0 <= k < |entries| ==>
                    (IsSanctelEntry(entries[k]) <==> k == |entries| - 1 && Contains(command, MARKER))
    ensures HasHook(Install(root, command).value) == Ok(Contains(command, MARKER))
  {
    var prior := OrEmpty(Existing(root).value);
    var entries := Unrecognised(prior) + [Wrapped(command)];
    SetThenRead(root, entries);
    KeptAreUnrecognised(prior);
    WrappedIsRecognised(command);
    assert entries[|entries| - 1] == Wrapped(command);
  }

  /** An uninstall leaves no recognised entry and repeats to no effect. */
  lemma UninstallLeavesNone(root: Json)
    requires Uninstall(root).Ok?
    ensures HasHook(Uninstall(root).value) == Ok(false)
    ensures Uninstall(Uninstall(root).value) == Uninstall(root)
  {
    if Existing(root).value.Some? {
      var prior := Existing(root).value.value;
      SetThenRead(root, Unrecognised(prior));
      KeptAreUnrecognised(prior);
      UnrecognisedTwice(prior);
      SetTwice(root, Unrecognised(prior), Unrecognised(prior));
    }
  }

  /** An uninstall changes nothing exactly when there is no hook to find. */
  lemma UninstallIsIdleIffNoHook(root: Json)
    ensures Uninstall(root) == Ok(root) <==> HasHook(root) == Ok(false)
  {
    if Existing(root).Ok? && Existing(root).value.Some? {
      var prior := Existing(root).value.value;
      ReadThenSet(root);
      UnrecognisedIsAll(prior);
      if WithSessionStart(root, Unrecognised(prior)) == root {
        SetIsInjective(root, Unrecognised(prior), prior);
      }
    }
  }

  /** The settings with the two levels an install creates. */
  function WithContainers(root: Json): Json
    requires Existing(root).Ok?
  {
    WithSessionStart(root, OrEmpty(Existing(root).value))
  }

  /** An uninstall undoes an install, up to the containers the install created, exactly when the
      command was marked; and up to nothing when the containers were there before. */
  lemma UninstallUndoesInstallIff(root: Json, command: string)
    requires Install(root, command).Ok?
    ensures Uninstall(Install(root, command).value) == Uninstall(WithContainers(root)) <==> Contains(command, MARKER)
    ensures Uninstall(Install(root, command).value) == Uninstall(root) <==>
            Contains(command, MARKER) && Existing(root).value.Some?
  {
    var prior := OrEmpty(Existing(root).value);
    var once := Unrecognised(prior) + [Wrapped(command)];
    SetThenRead(root, once);
    SetThenRead(root, prior);
    UnrecognisedAfterPush(prior, Wrapped(command));
    WrappedIsRecognised(command);
    SetTwice(root, once, Unrecognised(once));
    SetTwice(root, prior, Unrecognised(prior));
    assert Uninstall(Install(root, command).value) == Ok(WithSessionStart(root, Unrecognised(once)));
    assert Uninstall(WithContainers(root)) == Ok(WithSessionStart(root, Unrecognised(prior)));
    assert !Contains(command, MARKER) ==> |Unrecognised(once)| == |Unrecognised(prior)| + 1;
    SetThenRead(root, Unrecognised(once));
    SetThenRead(root, Unrecognised(prior));
  }

  /** An install does not depend on what was uninstalled before it. */
  lemma InstallAfterUninstall(root: Json, command: string)
    requires Uninstall(root).Ok?
    ensures Install(Uninstall(root).value, command) == Install(root, command)
  {
    if Existing(root).value.Some? {
      var prior := Existing(root).value.value;
      SetThenRead(root, Unrecognised(prior));
      UnrecognisedTwice(prior);
      SetTwice(root, Unrecognised(prior), Unrecognised(prior) + [Wrapped(command)]);
    }
  }

  function GetHook(root: Json, key: string): Option<Json> {
    match Get(root, "hooks")
    case Some(hooks) => Get(hooks, key)
    case None => None
  }

  /** The two settings agree except on `hooks.SessionStart`. */
  ghost predicate SameElsewhere(a: Json, b: Json) {
    && (forall key :: key != "hooks" ==> Get(a, key) == Get(b, key))
    && (forall key :: key != "SessionStart" ==> GetHook(a, key) == GetHook(b, key))
  }

  lemma OtherSettingsStay(root: Json, command: string)
    requires Existing(root).Ok?
    ensures SameElsewhere(Install(root, command).value, root)
    ensures SameElsewhere(Uninstall(root).value, root)
  {
  }

  /** The three operations fail together, on a wrong shape at one of the three levels. */
  lemma FailuresAgree(root: Json, command: string, e: SettingsError)
    ensures Install(root, command) == Err(e) <==> Uninstall(root) == Err(e)
    ensures Install(root, command) == Err(e) <==> HasHook(root) == Err(e)
    ensures Install(root, command).Err? <==>
            || !root.Obj?
            || (Get(root, "hooks").Some? && !Get(root, "hooks").value.Obj?)
            || (GetHook(root, "SessionStart").Some? && !GetHook(root, "SessionStart").value.Arr?)
  {
  }

  /** The command an install writes for an agent, under a home directory. */
  function HookCommand(home: string, agent: string): string {
    home + "/.sanctel/bin/sanctel hook-handler " + agent
  }

  lemma HookCommandIsMarked(home: string, agent: string)
    ensures Contains(HookCommand(home, agent), MARKER)
  {
    var before := home + "/.sanctel/bin/";
    assert HookCommand(home, agent) == before + MARKER + " " + agent;
    assert HookCommand(home, agent)[|before|..] == MARKER + (" " + agent);
  }
}
