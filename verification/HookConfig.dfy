/**
  The installer's edits of Claude and Codex hook files (cmd/taphapticctl/main.go): merging adds the
  Taphaptic commands, removal takes every Taphaptic handler out again.
 */
module HookConfig {
  import opened Wrappers
  import opened Text

  datatype Json =
    | Null
    | Bool(bit: bool)
    | Number(digits: string)
    | Str(text: string)
    | Array(items: seq<Json>)
    | Object(fields: Fields)

  type Fields = map<string, Json>

  datatype Error = HooksNotObject | EventNotArray(event: string) | InvalidJson | NotSaved

  // ---------------------------------------------------------------- handlers

  const MARKER := "taphaptic-hook"

  function Field(h: Json, name: string): string {
    if h.Object? && name in h.fields && h.fields[name].Str? then h.fields[name].text else ""
  }

  predicate Runs(h: Json, line: string) {
    h.Object? && Field(h, "type") == "command" && Field(h, "command") == line
  }

  predicate IsTaphaptic(h: Json) {
    h.Object? && Contains(Lower(Field(h, "command")), MARKER)
  }

  predicate ShouldDropLegacy(command: string) {
    var normalized := Lower(command);
    || Contains(normalized, MARKER)
    || (Contains(normalized, "/library/application support/") && Contains(normalized, "/bin/")
       && Contains(normalized, "watch-hook"))
  }

  /** What pruning keeps: handlers that are objects and run nothing of ours, old or new. */
  predicate SurvivesPrune(h: Json) {
    h.Object? && !ShouldDropLegacy(Field(h, "command"))
  }

  predicate SurvivesRemove(h: Json) {
    !IsTaphaptic(h)
  }

  // ---------------------------------------------------------------- entries

  function HandlersOf(entry: Json): Option<seq<Json>> {
    if entry.Object? && "hooks" in entry.fields
        && entry.fields["hooks"].Array? then Some(entry.fields["hooks"].items) else None
  }

  predicate IsObject(entry: Json) { entry.Object? }

  predicate IsAnything(entry: Json) { true }

  function Filter(s: seq<Json>, keep: Json -> bool): seq<Json> {
    if s == [] then [] else Filter(s[..|s| - 1], keep) + if keep(s[|s| - 1]) then [s[|s| - 1]] else []
  }

  /** An entry without its dropped handlers; gone when none is left. */
  function CleanEntry(entry: Json, keepEntry: Json -> bool, keep: Json -> bool): seq<Json> {
    match HandlersOf(entry)
    case None => if keepEntry(entry) then [entry] else []
    case Some(handlers) =>
      var left := Filter(handlers, keep);
      if left == [] then [] else [Object(entry.fields["hooks" := Array(left)])]
  }

  function Clean(entries: seq<Json>, keepEntry: Json -> bool, keep: Json -> bool): seq<Json> {
    if entries == [] then []
    else Clean(entries[..|entries| - 1], keepEntry, keep) + CleanEntry(entries[|entries| - 1], keepEntry, keep)
  }

  function Prune(entries: seq<Json>): seq<Json> {
    Clean(entries, IsObject, SurvivesPrune)
  }

  function Remove(entries: seq<Json>): seq<Json> {
    Clean(entries, IsAnything, SurvivesRemove)
  }

  /** Every handler of every entry, in order. */
  function Handlers(entries: seq<Json>): seq<Json> {
    if entries == [] then []
    else
      var last := HandlersOf(entries[|entries| - 1]);
      Handlers(entries[..|entries| - 1]) + if last.Some? then last.value else []
  }

  predicate HasCommand(entries: seq<Json>, line: string) {
    exists h <- Handlers(entries) :: Runs(h, line)
  }

  datatype Command = Command(matcher: string, line: string)

  function EntryFor(command: Command): Json {
    Object(map["matcher" := Str(command.matcher),
               "hooks" := Array([Object(map["type" := Str("command"), "command" := Str(command.line)])])])
  }

  function AddCommand(entries: seq<Json>, command: Command): seq<Json> {
    if HasCommand(entries, command.line) then entries else entries + [EntryFor(command)]
  }

  function AddCommands(entries: seq<Json>, commands: seq<Command>): seq<Json> {
    if commands == [] then entries
    else AddCommand(AddCommands(entries, commands[..|commands| - 1]), commands[|commands| - 1])
  }

  // ---------------------------------------------------------------- whole files

  /** An event and the commands merging puts under it. */
  datatype Plan = Plan(event: string, commands: seq<Command>)

  function Line(call: string): string {
    "/bin/sh \"${HOME}/Library/Application Support/Taphaptic/bin/" + MARKER + ("\" " + call)
  }

  function ClaudeStop(): Plan {
    Plan("Stop", [Command("*", Line("claude-code stop"))])
  }

  function ClaudeSubagentStop(): Plan {
    Plan("SubagentStop", [Command("*", Line("claude-code subagent_stop"))])
  }

  function ClaudeNotification(): Plan {
    Plan("Notification", [Command("permission_prompt", Line("claude-code permission_prompt")),
                          Command("idle_prompt", Line("claude-code idle_prompt"))])
  }

  function Claude(withNotifications: bool): seq<Plan> {
    [ClaudeStop(), ClaudeSubagentStop()] + if withNotifications then [ClaudeNotification()] else []
  }

  function Codex(): seq<Plan> {
    [Plan("Stop", [Command("*", Line("codex stop"))]),
     Plan("SubagentStop", [Command("*", Line("codex subagent_stop"))]),
     Plan("PermissionRequest", [Command("*", Line("codex permission_request"))])]
  }

  const DESCRIPTION := "Local lifecycle hooks, including Taphaptic Apple Watch notifications."

  const LEGACY_KEYS := {"Stop", "SubagentStop", "Notification"}

  /** A missing or null value is no entries; anything but an array is refused. */
  function EnsureEntries(hooks: Fields, event: string): Result<seq<Json>, Error> {
    if event !in hooks || hooks[event].Null? then Ok([])
    else if hooks[event].Array? then Ok(hooks[event].items)
    else Err(EventNotArray(event))
  }

  /** A missing or null "hooks" is an empty object. */
  function HooksOf(config: Fields): Result<Fields, Error> {
    if "hooks" !in config || config["hooks"].Null? then Ok(map[])
    else if config["hooks"].Object? then Ok(config["hooks"].fields)
    else Err(HooksNotObject)
  }

  function Planned(entries: seq<Json>, plan: Plan, prune: bool): seq<Json> {
    AddCommands(if prune then Prune(entries) else entries, plan.commands)
  }

  function MergeEvents(hooks: Fields, plans: seq<Plan>, prune: bool): Result<Fields, Error> {
    if plans == [] then Ok(hooks)
    else
      var before := MergeEvents(hooks, plans[..|plans| - 1], prune);
      if before.Err? then before
      else
        var plan := plans[|plans| - 1];
        var entries := EnsureEntries(before.value, plan.event);
        if entries.Err? then Err(entries.error)
        else Ok(before.value[plan.event := Array(Planned(entries.value, plan, prune))])
  }

  function MergeClaude(config: Fields, withNotifications: bool): Result<Fields, Error> {
    var hooks := HooksOf(config);
    if hooks.Err? then hooks
    else
      var merged := MergeEvents(hooks.value, Claude(withNotifications), true);
      if merged.Err? then merged else Ok(Finished(config, merged.value))
  }

  /** The merged hooks go in, the keys of an old layout go. */
  function Finished(config: Fields, hooks: Fields): Fields {
    config["hooks" := Object(hooks)] - LEGACY_KEYS
  }

  function Described(config: Fields): Fields {
    if "description" in config then config else config["description" := Str(DESCRIPTION)]
  }

  function MergeCodex(config: Fields): Result<Fields, Error> {
    var hooks := HooksOf(config);
    if hooks.Err? then hooks
    else
      var merged := MergeEvents(hooks.value, Codex(), false);
      if merged.Err? then merged else Ok(Described(config)["hooks" := Object(merged.value)])
  }

  predicate EventStays(value: Json) {
    value.Array? ==> Remove(value.items) != []
  }

  function CleanEvent(value: Json): Json {
    if value.Array? then Array(Remove(value.items)) else value
  }

  function CleanEvents(hooks: Fields): Fields {
    map event | event in hooks && EventStays(hooks[event]) :: CleanEvent(hooks[event])
  }

  function WithHooks(config: Fields, hooks: Fields): Fields {
    if hooks == map[] then config - {"hooks"} else config["hooks" := Object(hooks)]
  }

  function RemoveHooks(config: Fields): Result<Fields, Error> {
    if "hooks" !in config then Ok(config)
    else if !config["hooks"].Object? then Err(HooksNotObject)
    else Ok(WithHooks(config, CleanEvents(config["hooks"].fields)))
  }

  // ---------------------------------------------------------------- lists of entries

  lemma {:induction false} FilterConcat(s: seq<Json>, t: seq<Json>, keep: Json -> bool)
    ensures Filter(s + t, keep) == Filter(s, keep) + Filter(t, keep)
  {
    if t == [] {
      assert s + t == s;
    } else {
      assert (s + t)[..|s + t| - 1] == s + t[..|t| - 1];
      FilterConcat(s, t[..|t| - 1], keep);
    }
  }

  /** A filtered list keeps what it should, and stays whole exactly when everything should stay. */
  lemma {:induction false} FilterKeeps(s: seq<Json>, keep: Json -> bool)
    ensures forall h <- Filter(s, keep) :: keep(h) && h in s
    ensures Filter(s, keep) == [] ==> forall h <- s :: !keep(h)
  {
    if s != [] {
      var init, last := s[..|s| - 1], s[|s| - 1];
      FilterKeeps(init, keep);
      assert s == init + [last];
    }
  }

  lemma {:induction false} FilterAll(s: seq<Json>, keep: Json -> bool)
    ensures |Filter(s, keep)| <= |s|
    ensures |Filter(s, keep)| == |s| ==> Filter(s, keep) == s
    ensures (forall h <- s :: keep(h)) ==> Filter(s, keep) == s
  {
    if s != [] {
      var init, last := s[..|s| - 1], s[|s| - 1];
      FilterAll(init, keep);
      assert s == init + [last];
      assert last in s && forall h <- init :: h in s;
    }
  }

  /** What cleaning leaves alone: surviving handlers only, at least one, or no handler list at all. */
  predicate Settled(entry: Json, keepEntry: Json -> bool, keep: Json -> bool) {
    match HandlersOf(entry)
    case None => keepEntry(entry)
    case Some(handlers) => handlers != [] && forall h <- handlers :: keep(h)
  }

  lemma CleanEntryShape(entry: Json, keepEntry: Json -> bool, keep: Json -> bool)
    ensures forall e <- CleanEntry(entry, keepEntry, keep) :: Settled(e, keepEntry, keep)
    ensures |CleanEntry(entry, keepEntry, keep)| <= 1
    ensures CleanEntry(entry, keepEntry, keep) == [entry] <==> Settled(entry, keepEntry, keep)
  {
    hide Filter;
    var handlers := HandlersOf(entry);
    if handlers.Some? {
      FilterKeeps(handlers.value, keep);
      FilterAll(handlers.value, keep);
      var left := Filter(handlers.value, keep);
      assert left == handlers.value ==> entry.fields["hooks" := Array(left)] == entry.fields;
    }
  }

  lemma {:induction false} CleanShape(entries: seq<Json>, keepEntry: Json -> bool, keep: Json -> bool)
    ensures forall e <- Clean(entries, keepEntry, keep) :: Settled(e, keepEntry, keep)
    ensures |Clean(entries, keepEntry, keep)| <= |entries|
  {
    if entries != [] {
      CleanShape(entries[..|entries| - 1], keepEntry, keep);
      CleanEntryShape(entries[|entries| - 1], keepEntry, keep);
    }
  }

  lemma OneMore(cleaned: seq<Json>, more: seq<Json>, init: seq<Json>, last: Json)
    requires cleaned + more == init + [last] && |cleaned| <= |init| && |more| <= 1
    ensures cleaned == init && more == [last]
  {
    assert (cleaned + more)[..|init|] == init && (cleaned + more)[|init|] == last;
  }

  /** Cleaning changes nothing exactly when every entry is settled. */
  lemma {:induction false} CleanFixpoint(entries: seq<Json>, keepEntry: Json -> bool, keep: Json -> bool)
    ensures Clean(entries, keepEntry, keep) == entries <==> forall e <- entries :: Settled(e, keepEntry, keep)
  {
    hide Settled, CleanEntry;
    if entries != [] {
      var init, last := entries[..|entries| - 1], entries[|entries| - 1];
      CleanFixpoint(init, keepEntry, keep);
      CleanShape(init, keepEntry, keep);
      CleanEntryShape(last, keepEntry, keep);
      assert entries == init + [last];
      assert Clean(entries, keepEntry, keep) == Clean(init, keepEntry, keep) + CleanEntry(last, keepEntry, keep);
      hide Clean;
      if Clean(entries, keepEntry, keep) == entries {
        OneMore(Clean(init, keepEntry, keep), CleanEntry(last, keepEntry, keep), init, last);
      }
    }
  }

  lemma {:induction false} CleanConcat(s: seq<Json>, t: seq<Json>, keepEntry: Json -> bool, keep: Json -> bool)
    ensures Clean(s + t, keepEntry, keep) == Clean(s, keepEntry, keep) + Clean(t, keepEntry, keep)
  {
    hide CleanEntry;
    if t == [] {
      assert s + t == s;
    } else {
      assert (s + t)[..|s + t| - 1] == s + t[..|t| - 1];
      CleanConcat(s, t[..|t| - 1], keepEntry, keep);
    }
  }

  lemma {:induction false} HandlersConcat(s: seq<Json>, t: seq<Json>)
    ensures Handlers(s + t) == Handlers(s) + Handlers(t)
  {
    if t == [] {
      assert s + t == s;
    } else {
      assert (s + t)[..|s + t| - 1] == s + t[..|t| - 1];
      HandlersConcat(s, t[..|t| - 1]);
    }
  }

  /** Exactly the surviving handlers are left, in their old order. */
  lemma {:induction false} CleanKeepsSurvivors(entries: seq<Json>, keepEntry: Json -> bool, keep: Json -> bool)
    ensures Handlers(Clean(entries, keepEntry, keep)) == Filter(Handlers(entries), keep)
  {
    if entries != [] {
      var init, last := entries[..|entries| - 1], entries[|entries| - 1];
      CleanKeepsSurvivors(init, keepEntry, keep);
      CleanedEntryHandlers(last, keepEntry, keep);
      HandlersConcat(Clean(init, keepEntry, keep), CleanEntry(last, keepEntry, keep));
      var own := HandlersOf(last);
      FilterConcat(Handlers(init), if own.Some? then own.value else [], keep);
    }
  }

  lemma CleanedEntryHandlers(entry: Json, keepEntry: Json -> bool, keep: Json -> bool)
    ensures var own := HandlersOf(entry);
            Handlers(CleanEntry(entry, keepEntry, keep)) == Filter(if own.Some? then own.value else [], keep)
  {
    var cleaned := CleanEntry(entry, keepEntry, keep);
    assert cleaned != [] ==> cleaned[..0] == [];
  }

  /** What pruning leaves, removal leaves alone too. */
  lemma RemoveAfterPrune(entries: seq<Json>)
    ensures Remove(Prune(entries)) == Prune(entries)
  {
    CleanShape(entries, IsObject, SurvivesPrune);
    CleanFixpoint(Prune(entries), IsAnything, SurvivesRemove);
    hide Contains, Lower;
  }

  // ---------------------------------------------------------------- our own entries

  /** The command line of a plan carries the marker. */
  predicate Ours(command: Command) {
    Contains(Lower(command.line), MARKER)
  }

  lemma LineIsTaphaptic(call: string)
    ensures Contains(Lower(Line(call)), MARKER)
  {
    assert Lower(MARKER) == MARKER;
    LowerKeepsMarker("/bin/sh \"${HOME}/Library/Application Support/Taphaptic/bin/", MARKER, "\" " + call);
  }

  lemma CleanOne(entry: Json, keepEntry: Json -> bool, keep: Json -> bool)
    ensures Clean([entry], keepEntry, keep) == CleanEntry(entry, keepEntry, keep)
  {
    assert [entry][..0] == [];
  }

  lemma OurEntryGoes(command: Command)
    requires Ours(command)
    ensures Remove([EntryFor(command)]) == [] && Prune([EntryFor(command)]) == []
    ensures Handlers([EntryFor(command)]) == HandlersOf(EntryFor(command)).value
  {
    hide Contains, Lower;
    var entry := EntryFor(command);
    assert [entry][..0] == [];
    var h := Object(map["type" := Str("command"), "command" := Str(command.line)]);
    assert HandlersOf(entry) == Some([h]) && Field(h, "command") == command.line && [h][..0] == [];
    assert !SurvivesPrune(h) && !SurvivesRemove(h);
    assert Filter([h], SurvivesRemove) == [] && Filter([h], SurvivesPrune) == [];
    assert CleanEntry(entry, IsAnything, SurvivesRemove) == [] && CleanEntry(entry, IsObject, SurvivesPrune) == [];
    CleanOne(entry, IsAnything, SurvivesRemove);
    CleanOne(entry, IsObject, SurvivesPrune);
  }

  lemma {:induction false} EveryCommandOurs(plans: seq<Plan>)
    requires plans == Codex() || plans == Claude(true) || plans == Claude(false)
    ensures PlansOurs(plans)
  {
    hide Contains, Lower, Line;
    LineIsTaphaptic("claude-code stop");
    LineIsTaphaptic("claude-code subagent_stop");
    LineIsTaphaptic("claude-code permission_prompt");
    LineIsTaphaptic("claude-code idle_prompt");
    LineIsTaphaptic("codex stop");
    LineIsTaphaptic("codex subagent_stop");
    LineIsTaphaptic("codex permission_request");
  }

  predicate PlanOurs(plan: Plan) {
    forall c <- plan.commands :: Ours(c)
  }

  /** Different events, and only commands of ours. */
  predicate PlansOurs(plans: seq<Plan>) {
    && (forall p <- plans :: PlanOurs(p))
    && (forall i, j | 0 <= i < j < |plans| :: plans[i].event != plans[j].event)
  }

  function Count(handlers: seq<Json>, line: string): nat {
    if handlers == [] then 0
    else Count(handlers[..|handlers| - 1], line) + if Runs(handlers[|handlers| - 1], line) then 1 else 0
  }

  lemma {:induction false} CountZero(handlers: seq<Json>, line: string)
    ensures Count(handlers, line) == 0 <==> forall h <- handlers :: !Runs(h, line)
  {
    if handlers != [] {
      CountZero(handlers[..|handlers| - 1], line);
      assert handlers == handlers[..|handlers| - 1] + [handlers[|handlers| - 1]];
    }
  }

  lemma CountAdd(handlers: seq<Json>, h: Json, line: string)
    ensures Count(handlers + [h], line) == Count(handlers, line) + if Runs(h, line) then 1 else 0
  {
    assert (handlers + [h])[..|handlers|] == handlers;
  }

  /** One added command: a longer list that runs it, and that cleaning cuts back to the same rest. */
  lemma AddCommandShape(entries: seq<Json>, command: Command)
    requires Ours(command)
    ensures var added := AddCommand(entries, command);
            entries <= added && Remove(added) == Remove(entries) && Prune(added) == Prune(entries)
    ensures Handlers(entries) <= Handlers(AddCommand(entries, command))
    ensures HasCommand(AddCommand(entries, command), command.line)
  {
    if !HasCommand(entries, command.line) {
      var entry := EntryFor(command);
      OurEntryGoes(command);
      CleanConcat(entries, [entry], IsAnything, SurvivesRemove);
      CleanConcat(entries, [entry], IsObject, SurvivesPrune);
      HandlersConcat(entries, [entry]);
      AddedHandler(command);
      hide Ours, Contains, Lower;
      assert HandlersOf(entry).value[0] in Handlers(entries + [entry]);
    }
  }

  lemma AddedHandler(command: Command)
    ensures var own := HandlersOf(EntryFor(command));
            own.Some? && |own.value| == 1 && forall line :: Runs(own.value[0], line) <==> line == command.line
  {
  }

  lemma AddCommandCount(entries: seq<Json>, command: Command, line: string)
    ensures var before, after := Count(Handlers(entries), line), Count(Handlers(AddCommand(entries, command)), line);
            after == if before == 0 && line == command.line then 1 else before
  {
    CountZero(Handlers(entries), command.line);
    if !HasCommand(entries, command.line) {
      var entry := EntryFor(command);
      AddedHandler(command);
      var own := HandlersOf(entry).value;
      assert own == [own[0]];
      CountAdd(Handlers(entries), own[0], line);
      SingleHandlers(entry);
      HandlersConcat(entries, [entry]);
    }
  }

  lemma SingleHandlers(entry: Json)
    ensures Handlers([entry]) == var own := HandlersOf(entry); if own.Some? then own.value else []
  {
    assert [entry][..0] == [];
  }

  lemma StillHasCommand(entries: seq<Json>, longer: seq<Json>, line: string)
    requires Handlers(entries) <= Handlers(longer) && HasCommand(entries, line)
    ensures HasCommand(longer, line)
  {
    var h :| h in Handlers(entries) && Runs(h, line);
    assert h in Handlers(longer);
  }

  lemma {:induction false} AddCommandsShape(entries: seq<Json>, commands: seq<Command>)
    requires forall c <- commands :: Ours(c)
    ensures var added := AddCommands(entries, commands);
            entries <= added && Remove(added) == Remove(entries) && Prune(added) == Prune(entries)
    ensures Handlers(entries) <= Handlers(AddCommands(entries, commands))
  {
    hide Remove, Prune, Handlers, HasCommand, AddCommand, Ours;
    if commands != [] {
      AddCommandsShape(entries, commands[..|commands| - 1]);
      AddCommandShape(AddCommands(entries, commands[..|commands| - 1]), commands[|commands| - 1]);
    }
  }

  lemma {:induction false} AddCommandsRuns(entries: seq<Json>, commands: seq<Command>)
    requires forall c <- commands :: Ours(c)
    ensures forall c <- commands :: HasCommand(AddCommands(entries, commands), c.line)
  {
    hide Remove, Prune, Handlers, HasCommand, AddCommand, Ours;
    if commands != [] {
      var init, last := commands[..|commands| - 1], commands[|commands| - 1];
      AddCommandsRuns(entries, init);
      AddCommandShape(AddCommands(entries, init), last);
      forall c <- init ensures HasCommand(AddCommands(entries, commands), c.line) {
        StillHasCommand(AddCommands(entries, init), AddCommands(entries, commands), c.line);
      }
      assert commands == init + [last];
    }
  }

  /** Every command is added where it is missing, and never a second time. */
  lemma {:induction false} AddCommandsCount(entries: seq<Json>, commands: seq<Command>, line: string)
    ensures var before, after := Count(Handlers(entries), line), Count(Handlers(AddCommands(entries, commands)), line);
            after == if before == 0 && Mentions(commands, line) then 1 else before
  {
    if commands != [] {
      var init, last := commands[..|commands| - 1], commands[|commands| - 1];
      MentionsStep(init, last, line);
      assert commands == init + [last];
      hide Count, Handlers, AddCommand, Mentions;
      AddCommandsCount(entries, init, line);
      AddCommandCount(AddCommands(entries, init), last, line);
    }
  }

  predicate Mentions(commands: seq<Command>, line: string) {
    exists c <- commands :: c.line == line
  }

  lemma MentionsStep(init: seq<Command>, last: Command, line: string)
    ensures Mentions(init + [last], line) <==> Mentions(init, line) || last.line == line
  {
    assert last in init + [last];
    assert forall c <- init :: c in init + [last];
  }

  lemma {:induction false} NothingToAdd(entries: seq<Json>, commands: seq<Command>)
    requires forall c <- commands :: HasCommand(entries, c.line)
    ensures AddCommands(entries, commands) == entries
  {
    if commands != [] { NothingToAdd(entries, commands[..|commands| - 1]); }
  }

  lemma PrunedRunsNone(entries: seq<Json>, command: Command)
    requires Ours(command)
    ensures Count(Handlers(Prune(entries)), command.line) == 0
  {
    hide Contains, Lower;
    CleanKeepsSurvivors(entries, IsObject, SurvivesPrune);
    FilterKeeps(Handlers(entries), SurvivesPrune);
    CountZero(Handlers(Prune(entries)), command.line);
  }

  // ---------------------------------------------------------------- one event

  /** What removal leaves of an event after a merge. */
  function Rest(entries: seq<Json>, prune: bool): seq<Json> {
    if prune then Prune(entries) else Remove(entries)
  }

  lemma PlannedShape(entries: seq<Json>, plan: Plan, prune: bool)
    requires PlanOurs(plan)
    ensures var planned := Planned(entries, plan, prune);
            Planned(planned, plan, prune) == planned && Remove(planned) == Rest(entries, prune)
  {
    var base := if prune then Prune(entries) else entries;
    AddCommandsShape(base, plan.commands);
    if prune {
      CleanShape(entries, IsObject, SurvivesPrune);
      CleanFixpoint(base, IsObject, SurvivesPrune);
      RemoveAfterPrune(entries);
    } else {
      AddCommandsRuns(base, plan.commands);
      NothingToAdd(AddCommands(base, plan.commands), plan.commands);
    }
  }

  /** The commands run exactly once after a pruning merge; other handlers stay in order before them. */
  lemma PlannedCounts(entries: seq<Json>, plan: Plan, prune: bool)
    requires PlanOurs(plan)
    ensures forall c <- plan.commands ::
              var after := Count(Handlers(Planned(entries, plan, prune)), c.line);
              if prune || Count(Handlers(entries), c.line) == 0 then after == 1
                  else after == Count(Handlers(entries), c.line)
    ensures Filter(Handlers(entries), if prune then SurvivesPrune else SurvivesRemove)
            == Filter(Handlers(Planned(entries, plan, prune)), if prune then SurvivesPrune else SurvivesRemove)
  {
    var base := if prune then Prune(entries) else entries;
    forall c <- plan.commands
      ensures var after := Count(Handlers(Planned(entries, plan, prune)), c.line);
              if prune || Count(Handlers(entries), c.line) == 0 then after == 1
                  else after == Count(Handlers(entries), c.line)
    {
      AddCommandsCount(base, plan.commands, c.line);
      assert Mentions(plan.commands, c.line);
      if prune { PrunedRunsNone(entries, c); }
    }
    PlannedSurvivors(entries, plan, prune);
  }

  lemma PlannedSurvivors(entries: seq<Json>, plan: Plan, prune: bool)
    requires PlanOurs(plan)
    ensures var keep := if prune then SurvivesPrune else SurvivesRemove;
            Filter(Handlers(entries), keep) == Filter(Handlers(Planned(entries, plan, prune)), keep)
  {
    hide Contains, Lower, AddCommands, Handlers, Filter, Ours;
    if prune {
      AddCommandsShape(Prune(entries), plan.commands);
      CleanShape(entries, IsObject, SurvivesPrune);
      CleanFixpoint(Prune(entries), IsObject, SurvivesPrune);
      CleanKeepsSurvivors(entries, IsObject, SurvivesPrune);
      CleanKeepsSurvivors(Planned(entries, plan, true), IsObject, SurvivesPrune);
    } else {
      AddCommandsShape(entries, plan.commands);
      CleanKeepsSurvivors(entries, IsAnything, SurvivesRemove);
      CleanKeepsSurvivors(Planned(entries, plan, false), IsAnything, SurvivesRemove);
    }
  }

  // ---------------------------------------------------------------- all events

  predicate Unplanned(plans: seq<Plan>, event: string) {
    forall p <- plans :: p.event != event
  }

  /** Merging, event by event: it succeeds exactly when every planned event is missing, null or an array. */
  lemma {:induction false} MergeEventsAt(hooks: Fields, plans: seq<Plan>, prune: bool)
    requires PlansOurs(plans)
    ensures var merged := MergeEvents(hooks, plans, prune);
            && (merged.Ok? <==> forall p <- plans :: EnsureEntries(hooks, p.event).Ok?)
            && (merged.Ok? ==> MergedAt(hooks, plans, prune, merged.value))
            && (merged.Err? ==> exists i | 0 <= i < |plans| :: FirstBad(hooks, plans, i, merged.error))
  {
    hide Planned, PlanOurs, EnsureEntries, MergedAt;
    if plans == [] {
      NothingMerged(hooks, prune);
    } else {
      var init, last := plans[..|plans| - 1], plans[|plans| - 1];
      assert plans == init + [last];
      MergeEventsAt(hooks, init, prune);
      var before := MergeEvents(hooks, init, prune);
      if before.Ok? {
        MergedStep(hooks, init, last, prune, before.value);
        assert EnsureEntries(hooks, last.event).Err? ==>
               FirstBad(hooks, plans, |init|, EnsureEntries(hooks, last.event).error);
      } else {
        var i :| 0 <= i < |init| && FirstBad(hooks, init, i, before.error);
        assert FirstBad(hooks, plans, i, before.error);
      }
    }
  }

  /** The merged object: planned events hold the planned entries, the others what they held. */
  ghost predicate MergedAt(hooks: Fields, plans: seq<Plan>, prune: bool, merged: Fields) {
    && (forall p <- plans ::
          && p.event in merged && EnsureEntries(hooks, p.event).Ok?
          && merged[p.event] == Array(Planned(EnsureEntries(hooks, p.event).value, p, prune)))
    && (forall event | Unplanned(plans, event) ::
          (event in merged <==> event in hooks) && (event in hooks ==> merged[event] == hooks[event]))
  }

  lemma NothingMerged(hooks: Fields, prune: bool)
    ensures MergedAt(hooks, [], prune, hooks)
  {
  }

  lemma MergedStep(hooks: Fields, plans: seq<Plan>, plan: Plan, prune: bool, merged: Fields)
    requires MergedAt(hooks, plans, prune, merged) && Unplanned(plans, plan.event)
    ensures EnsureEntries(merged, plan.event) == EnsureEntries(hooks, plan.event)
    ensures EnsureEntries(hooks, plan.event).Ok? ==>
              MergedAt(hooks, plans + [plan], prune,
                       merged[plan.event := Array(Planned(EnsureEntries(hooks, plan.event).value, plan, prune))])
  {
    hide Planned;
    forall event ensures Unplanned(plans + [plan], event) <==> Unplanned(plans, event) && event != plan.event {
      assert plan in plans + [plan] && forall p <- plans :: p in plans + [plan];
    }
  }

  predicate FirstBad(hooks: Fields, plans: seq<Plan>, i: nat, error: Error)
    requires i < |plans|
  {
    && EnsureEntries(hooks, plans[i].event) == Err(error)
    && forall j | 0 <= j < i :: EnsureEntries(hooks, plans[j].event).Ok?
  }

  lemma MergeEventsIdempotent(hooks: Fields, plans: seq<Plan>, prune: bool)
    requires PlansOurs(plans) && MergeEvents(hooks, plans, prune).Ok?
    ensures MergeEvents(MergeEvents(hooks, plans, prune).value, plans, prune) == MergeEvents(hooks, plans, prune)
  {
    hide Planned, PlanOurs;
    MergeEventsAt(hooks, plans, prune);
    var merged := MergeEvents(hooks, plans, prune).value;
    MergeEventsAt(merged, plans, prune);
    var again := MergeEvents(merged, plans, prune).value;
    forall p <- plans ensures again[p.event] == merged[p.event] {
      PlannedShape(EnsureEntries(hooks, p.event).value, p, prune);
    }
    SameEvents(again, merged, plans);
  }

  lemma SameEvents(a: Fields, b: Fields, plans: seq<Plan>)
    requires forall p <- plans :: p.event in a && p.event in b && a[p.event] == b[p.event]
    requires forall e | Unplanned(plans, e) :: (e in a <==> e in b) && (e in b ==> a[e] == b[e])
    ensures a == b
  {
    forall e ensures (e in a <==> e in b) && (e in b ==> a[e] == b[e]) {
      if !Unplanned(plans, e) { var p :| p in plans && p.event == e; }
    }
  }

  /** Merging twice gives what merging once gives, on every tree where it succeeds. */
  lemma ClaudeIdempotent(config: Fields, withNotifications: bool)
    requires MergeClaude(config, withNotifications).Ok?
    ensures MergeClaude(MergeClaude(config, withNotifications).value, withNotifications)
            == MergeClaude(config, withNotifications)
  {
    hide MergeEvents, Claude, PlansOurs;
    EveryCommandOurs(Claude(withNotifications));
    MergeEventsIdempotent(HooksOf(config).value, Claude(withNotifications), true);
    var merged := MergeEvents(HooksOf(config).value, Claude(withNotifications), true).value;
    FinishedAgain(config, merged);
  }

  lemma FinishedAgain(config: Fields, hooks: Fields)
    ensures HooksOf(Finished(config, hooks)) == Ok(hooks)
    ensures Finished(Finished(config, hooks), hooks) == Finished(config, hooks)
  {
    assert "hooks" in Finished(config, hooks);
  }

  lemma FinishedThenRemoved(config: Fields, hooks: Fields, left: Fields)
    ensures WithHooks(Finished(config, hooks), left) == WithHooks(config, left) - LEGACY_KEYS
    ensures config.Keys !! LEGACY_KEYS ==> WithHooks(config, left) - LEGACY_KEYS == WithHooks(config, left)
    ensures WithHooks(config, left) - LEGACY_KEYS == config ==> config.Keys !! LEGACY_KEYS
  {
    assert "hooks" in Finished(config, hooks);
    if WithHooks(config, left) - LEGACY_KEYS == config {
      assert config.Keys == (WithHooks(config, left) - LEGACY_KEYS).Keys;
    }
  }

  lemma DescribedOnce(config: Fields, hooks: Fields)
    ensures Described(Described(config)["hooks" := Object(hooks)]) == Described(config)["hooks" := Object(hooks)]
    ensures Described(config)["hooks" := Object(hooks)]["hooks" := Object(hooks)]
            == Described(config)["hooks" := Object(hooks)]
  {
  }

  lemma DescribedThenRemoved(config: Fields, hooks: Fields, left: Fields)
    ensures WithHooks(Described(config)["hooks" := Object(hooks)], left) == WithHooks(Described(config), left)
    ensures WithHooks(Described(config), left) == Described(config) <==> WithHooks(config, left) == config
  {
    var key := "description";
    assert key != "hooks";
    if WithHooks(Described(config), left) == Described(config) {
      forall k ensures (k in WithHooks(config, left) <==> k in config)
          && (k in config ==> WithHooks(config, left)[k] == config[k]) {
        if k != key {
          assert k in WithHooks(Described(config), left) <==> k in Described(config);
        }
      }
    }
  }

  lemma CodexIdempotent(config: Fields)
    requires MergeCodex(config).Ok?
    ensures MergeCodex(MergeCodex(config).value) == MergeCodex(config)
  {
    hide MergeEvents, Codex, PlansOurs;
    EveryCommandOurs(Codex());
    MergeEventsIdempotent(HooksOf(config).value, Codex(), false);
    DescribedOnce(config, MergeEvents(HooksOf(config).value, Codex(), false).value);
  }

  // ---------------------------------------------------------------- removal undoes merging

  /** Whether removal after merging gives the event's value back. */
  predicate EventRestored(value: Json, planned: bool, prune: bool) {
    && (planned ==> value.Array?)
    && (value.Array? ==>
          && value.items != []
          && forall entry <- value.items ::
               if planned && prune then Settled(entry, IsObject, SurvivesPrune)
                   else Settled(entry, IsAnything, SurvivesRemove))
  }

  lemma RemoveAfterMergeEvents(hooks: Fields, plans: seq<Plan>, prune: bool)
    requires PlansOurs(plans) && MergeEvents(hooks, plans, prune).Ok?
    ensures var left := CleanEvents(MergeEvents(hooks, plans, prune).value);
            && (forall p <- plans :: EnsureEntries(hooks, p.event).Ok? &&
                  var rest := Rest(EnsureEntries(hooks, p.event).value, prune);
                  if rest == [] then p.event !in left else p.event in left && left[p.event] == Array(rest))
            && (forall event | Unplanned(plans, event) ::
                  (event in left <==> event in hooks && EventStays(hooks[event]))
                  && (event in left ==> left[event] == CleanEvent(hooks[event])))
  {
    hide Rest, Remove, Planned, PlanOurs;
    MergeEventsAt(hooks, plans, prune);
    forall p <- plans
      ensures Remove(Planned(EnsureEntries(hooks, p.event).value, p, prune))
              == Rest(EnsureEntries(hooks, p.event).value, prune)
    {
      PlannedShape(EnsureEntries(hooks, p.event).value, p, prune);
    }
  }

  /** An event's value comes back exactly when its entries are untouched by cleaning. */
  lemma EventRestoredMeans(value: Json, planned: bool, prune: bool)
    requires value.Array?
    ensures var rest := if planned then Rest(value.items, prune) else Remove(value.items);
            EventRestored(value, planned, prune) <==> rest != [] && rest == value.items
  {
    CleanFixpoint(value.items, IsObject, SurvivesPrune);
    CleanFixpoint(value.items, IsAnything, SurvivesRemove);
  }

  ghost predicate HooksRestored(hooks: Fields, plans: seq<Plan>, prune: bool) {
    forall event <- hooks :: EventRestored(hooks[event], !Unplanned(plans, event), prune)
  }

  lemma EventsComeBack(hooks: Fields, plans: seq<Plan>, prune: bool)
    requires PlansOurs(plans) && MergeEvents(hooks, plans, prune).Ok?
    ensures CleanEvents(MergeEvents(hooks, plans, prune).value) == hooks <==> HooksRestored(hooks, plans, prune)
  {
    hide MergeEvents, CleanEvents, PlansOurs, Rest, Remove;
    RemoveAfterMergeEvents(hooks, plans, prune);
    var left := CleanEvents(MergeEvents(hooks, plans, prune).value);
    forall event
      ensures event in hooks ==> (EventRestored(hooks[event], !Unplanned(plans, event), prune) <==>
                                  event in left && left[event] == hooks[event])
      ensures event !in hooks ==> event !in left
    {
      EventComesBack(hooks, plans, prune, left, event);
    }
  }

  lemma EventComesBack(hooks: Fields, plans: seq<Plan>, prune: bool, left: Fields, event: string)
    requires forall p <- plans :: EnsureEntries(hooks, p.event).Ok? &&
               var rest := Rest(EnsureEntries(hooks, p.event).value, prune);
               if rest == [] then p.event !in left else p.event in left && left[p.event] == Array(rest)
    requires Unplanned(plans, event) ==>
               (event in left <==> event in hooks && EventStays(hooks[event]))
               && (event in left ==> left[event] == CleanEvent(hooks[event]))
    ensures event in hooks ==> (EventRestored(hooks[event], !Unplanned(plans, event), prune) <==>
                                event in left && left[event] == hooks[event])
    ensures event !in hooks ==> event !in left
  {
    if event in hooks && hooks[event].Array? { EventRestoredMeans(hooks[event], !Unplanned(plans, event), prune); }
    if !Unplanned(plans, event) {
      var p :| p in plans && p.event == event;
      assert Rest([], prune) == [];
    }
  }

  /** When removing after merging brings the file back: no hooks, or an object whose events all come back. */
  ghost predicate Restorable(config: Fields, plans: seq<Plan>, prune: bool) {
    "hooks" in config ==>
      config["hooks"].Object? && config["hooks"].fields != map[] && HooksRestored(config["hooks"].fields, plans, prune)
  }

  lemma UndoHooks(config: Fields, plans: seq<Plan>, prune: bool, merged: Fields)
    requires PlansOurs(plans) && HooksOf(config).Ok? && MergeEvents(HooksOf(config).value, plans, prune) == Ok(merged)
    ensures WithHooks(config, CleanEvents(merged)) == config <==> Restorable(config, plans, prune)
  {
    hide MergeEvents, CleanEvents, PlansOurs, HooksRestored;
    var hooks := HooksOf(config).value;
    EventsComeBack(hooks, plans, prune);
    var left := CleanEvents(merged);
    if "hooks" !in config {
      assert HooksRestored(hooks, plans, prune) by { NoHooksRestored(plans, prune); }
      assert WithHooks(config, left) == config;
    } else if config["hooks"].Object? && left == config["hooks"].fields && left != map[] {
      assert WithHooks(config, left) == config;
    } else {
      assert WithHooks(config, left) != config by {
        assert left != map[] ==> WithHooks(config, left)["hooks"] == Object(left);
      }
    }
  }

  lemma NoHooksRestored(plans: seq<Plan>, prune: bool)
    ensures HooksRestored(map[], plans, prune)
  {
  }

  /** Removing after a Claude merge gives the file back exactly when its hooks are Restorable and it had
      none of the old layout's keys. */
  lemma RemoveUndoesClaude(config: Fields, withNotifications: bool)
    requires MergeClaude(config, withNotifications).Ok?
    ensures RemoveHooks(MergeClaude(config, withNotifications).value) == Ok(config) <==>
            Restorable(config, Claude(withNotifications), true) && config.Keys !! LEGACY_KEYS
  {
    var plans := Claude(withNotifications);
    EveryCommandOurs(plans);
    var merged := MergeEvents(HooksOf(config).value, plans, true).value;
    UndoHooks(config, plans, true, merged);
    hide MergeEvents, CleanEvents, PlansOurs, Claude, Restorable, WithHooks, Finished;
    FinishedAgain(config, merged);
    FinishedThenRemoved(config, merged, CleanEvents(merged));
  }

  /** Removing after a Codex merge leaves only the description behind, exactly when the hooks are Restorable. */
  lemma RemoveUndoesCodex(config: Fields)
    requires MergeCodex(config).Ok?
    ensures RemoveHooks(MergeCodex(config).value) == Ok(Described(config)) <==> Restorable(config, Codex(), false)
  {
    hide MergeEvents, CleanEvents, PlansOurs, Codex, Restorable, WithHooks, Described;
    EveryCommandOurs(Codex());
    var merged := MergeEvents(HooksOf(config).value, Codex(), false).value;
    UndoHooks(config, Codex(), false, merged);
    DescribedThenRemoved(config, merged, CleanEvents(merged));
  }

  // ---------------------------------------------------------------- what merging does to a file

  /** The entries under an event of a config; none when the event is not there. */
  function Entries(config: Fields, event: string): seq<Json> {
    if HooksOf(config).Ok? && EnsureEntries(HooksOf(config).value, event).Ok?
    then EnsureEntries(HooksOf(config).value, event).value else []
  }

  /** Merging fails exactly on a "hooks" that is no object, or on a planned event that is no array. */
  lemma MergeSucceeds(config: Fields, withNotifications: bool)
    ensures MergeClaude(config, withNotifications).Ok? <==>
            HooksOf(config).Ok? && forall p <- Claude(withNotifications) ::
                EnsureEntries(HooksOf(config).value, p.event).Ok?
    ensures MergeCodex(config).Ok? <==>
            HooksOf(config).Ok? && forall p <- Codex() :: EnsureEntries(HooksOf(config).value, p.event).Ok?
  {
    hide MergeEvents, Claude, Codex, PlansOurs, EnsureEntries;
    EveryCommandOurs(Claude(withNotifications));
    EveryCommandOurs(Codex());
    if HooksOf(config).Ok? {
      MergeEventsAt(HooksOf(config).value, Claude(withNotifications), true);
      MergeEventsAt(HooksOf(config).value, Codex(), false);
    }
  }

  /** A missing or null value counts as empty. */
  predicate Absent(fields: Fields, key: string) {
    key !in fields || fields[key] == Null
  }

  /** "hooks" is absent or an object, and each of these events in it absent or an array. */
  predicate Mergeable(config: Fields, events: set<string>) {
    || Absent(config, "hooks")
    || (config["hooks"].Object? && forall event <- events ::
          Absent(config["hooks"].fields, event) || config["hooks"].fields[event].Array?)
  }

  /** Whether a merge succeeds, by what is in the file. */
  lemma MergesWhenMergeable(config: Fields, withNotifications: bool)
    ensures MergeClaude(config, withNotifications).Ok? <==>
            Mergeable(config, {"Stop", "SubagentStop"} + if withNotifications then {"Notification"} else {})
    ensures MergeCodex(config).Ok? <==> Mergeable(config, {"Stop", "SubagentStop", "PermissionRequest"})
  {
    hide MergeClaude, MergeCodex, Line;
    MergeSucceeds(config, withNotifications);
    var plans := Claude(withNotifications);
    assert forall p <- plans :: p == plans[0] || p == plans[1] || (withNotifications && p == plans[2]);
    assert plans[0] in plans && plans[1] in plans && (withNotifications ==> plans[2] in plans);
    assert Codex()[0] in Codex() && Codex()[1] in Codex() && Codex()[2] in Codex();
  }

  /** The planned entries of a merged file, and what stays. */
  ghost predicate FileMerged(config: Fields, after: Fields, plans: seq<Plan>, prune: bool) {
    && HooksOf(after).Ok? && HooksOf(config).Ok?
    && (forall p <- plans :: Entries(after, p.event) == Planned(Entries(config, p.event), p, prune))
    && (forall event | Unplanned(plans, event) ::
          (event in HooksOf(after).value <==> event in HooksOf(config).value)
          && (event in HooksOf(config).value ==> HooksOf(after).value[event] == HooksOf(config).value[event]))
  }

  lemma MergedFile(config: Fields, after: Fields, plans: seq<Plan>, prune: bool)
    requires PlansOurs(plans) && HooksOf(config).Ok? && MergeEvents(HooksOf(config).value, plans, prune).Ok?
    requires HooksOf(after) == MergeEvents(HooksOf(config).value, plans, prune)
    ensures FileMerged(config, after, plans, prune)
  {
    hide MergeEvents, PlanOurs, Planned, HooksOf;
    MergeEventsAt(HooksOf(config).value, plans, prune);
  }

  /** After a Claude merge each command runs exactly once under its event, and the handlers of others
      are all still there in order; the other events stay as they were. */
  lemma ClaudeMerged(config: Fields, withNotifications: bool)
    requires MergeClaude(config, withNotifications).Ok?
    ensures var after := MergeClaude(config, withNotifications).value;
            && FileMerged(config, after, Claude(withNotifications), true)
            && forall p <- Claude(withNotifications) ::
                 && (forall c <- p.commands :: Count(Handlers(Entries(after, p.event)), c.line) == 1)
                 && Filter(Handlers(Entries(after, p.event)), SurvivesPrune)
                    == Filter(Handlers(Entries(config, p.event)), SurvivesPrune)
  {
    hide MergeEvents, Claude, HooksOf, PlanOurs, Planned, Handlers, Count, Filter, Entries, Finished;
    var plans := Claude(withNotifications);
    EveryCommandOurs(plans);
    FinishedAgain(config, MergeEvents(HooksOf(config).value, plans, true).value);
    var after := MergeClaude(config, withNotifications).value;
    MergedFile(config, after, plans, true);
    forall p <- plans
      ensures forall c <- p.commands :: Count(Handlers(Entries(after, p.event)), c.line) == 1
      ensures Filter(Handlers(Entries(after, p.event)), SurvivesPrune)
              == Filter(Handlers(Entries(config, p.event)), SurvivesPrune)
    {
      PlannedCounts(Entries(config, p.event), p, true);
    }
  }

  /** Nothing else in the file changes, but for the keys of the old layout. */
  lemma ClaudeFrame(config: Fields, withNotifications: bool)
    requires MergeClaude(config, withNotifications).Ok?
    ensures var after := MergeClaude(config, withNotifications).value;
            && after.Keys == config.Keys + {"hooks"} - {"Stop", "SubagentStop", "Notification"}
            && forall key <- after | key != "hooks" :: after[key] == config[key]
  {
    hide MergeEvents, Claude, HooksOf;
  }

  /** A Codex merge appends one entry for a command that does not run yet, and keeps all that was there. */
  lemma CodexMerged(config: Fields)
    requires MergeCodex(config).Ok?
    ensures var after := MergeCodex(config).value;
            && FileMerged(config, after, Codex(), false)
            && forall p <- Codex() :: |p.commands| == 1 &&
                 var c, before := p.commands[0], Entries(config, p.event);
                 && Entries(after, p.event) == (if HasCommand(before, c.line) then before else before + [EntryFor(c)])
                 && HasCommand(Entries(after, p.event), c.line)
  {
    var plans := Codex();
    EveryCommandOurs(plans);
    DescribedOnce(config, MergeEvents(HooksOf(config).value, plans, false).value);
    assert forall p <- plans :: |p.commands| == 1;
    var after := MergeCodex(config).value;
    assert HooksOf(after) == MergeEvents(HooksOf(config).value, plans, false);
    hide MergeCodex, MergeEvents, Codex, HooksOf, PlanOurs, Planned, Handlers, HasCommand, Line, Entries;
    MergedFile(config, after, plans, false);
    forall p <- plans
      ensures Planned(Entries(config, p.event), p, false) == AddCommand(Entries(config, p.event), p.commands[0])
      ensures HasCommand(AddCommand(Entries(config, p.event), p.commands[0]), p.commands[0].line)
    {
      OneCommand(Entries(config, p.event), p);
      RunsAfterPlan(Entries(config, p.event), p);
    }
  }

  lemma CodexFrame(config: Fields)
    requires MergeCodex(config).Ok?
    ensures var after := MergeCodex(config).value;
            && after.Keys == config.Keys + {"hooks", "description"}
            && ("description" !in config ==>
                  after["description"] == Str("Local lifecycle hooks, including Taphaptic Apple Watch notifications."))
            && forall key <- config | key != "hooks" :: after[key] == config[key]
  {
    hide MergeEvents, Codex, HooksOf;
    var key := "description";
    assert key != "hooks";
  }

  lemma OneCommand(entries: seq<Json>, plan: Plan)
    requires |plan.commands| == 1
    ensures Planned(entries, plan, false) == AddCommand(entries, plan.commands[0])
  {
    assert plan.commands[..0] == [];
    assert AddCommands(entries, []) == entries;
  }

  lemma RunsAfterPlan(entries: seq<Json>, plan: Plan)
    requires |plan.commands| == 1 && PlanOurs(plan)
    ensures HasCommand(AddCommand(entries, plan.commands[0]), plan.commands[0].line)
  {
    assert Ours(plan.commands[0]);
    AddCommandShape(entries, plan.commands[0]);
  }

  /** A file that does not come back: an event with no entry yet. Merging fills the list, and removal takes the emptied
      event away, for Claude and for Codex. */
  lemma EmptyEventNotRestored(withNotifications: bool)
    ensures var config: Fields := map["hooks" := Object(map["Stop" := Array([])])];
            && MergeClaude(config, withNotifications).Ok?
            && RemoveHooks(MergeClaude(config, withNotifications).value) != Ok(config)
            && MergeCodex(config).Ok? && RemoveHooks(MergeCodex(config).value) != Ok(Described(config))
  {
    hide MergeClaude, MergeCodex, RemoveHooks, Claude, Codex, Described;
    var hooks: Fields := map["Stop" := Array([])];
    var config: Fields := map["hooks" := Object(hooks)];
    assert HooksOf(config) == Ok(hooks);
    assert forall event :: EnsureEntries(hooks, event).Ok?;
    MergeSucceeds(config, withNotifications);
    RemoveUndoesClaude(config, withNotifications);
    RemoveUndoesCodex(config);
    assert hooks["Stop"] == Array([]);
  }

  // ---------------------------------------------------------------- merging, by the text of the commands

  /** The text of a Taphaptic command, or of the watch-hook that an earlier layout installed. */
  predicate OldHook(command: string) {
    || Spells(command, "taphaptic-hook")
    || (Spells(command, "/library/application support/") && Spells(command, "/bin/")
        && Spells(command, "watch-hook"))
  }

  predicate Foreign(h: Json) {
    h.Object? && !OldHook(Field(h, "command"))
  }

  lemma SurvivesByText(h: Json)
    ensures SurvivesPrune(h) <==> Foreign(h)
    ensures SurvivesRemove(h) <==> !h.Object? || !Spells(Field(h, "command"), "taphaptic-hook")
  {
    hide Contains, Spells, Lower;
    var command := Field(h, "command");
    SpellsMeaning(command, "taphaptic-hook");
    SpellsMeaning(command, "/library/application support/");
    SpellsMeaning(command, "/bin/");
    SpellsMeaning(command, "watch-hook");
  }

  lemma {:induction false} FilterSame(s: seq<Json>, keep: Json -> bool, other: Json -> bool)
    requires forall h :: keep(h) <==> other(h)
    ensures Filter(s, keep) == Filter(s, other)
  {
    if s != [] { FilterSame(s[..|s| - 1], keep, other); }
  }

  /** An entry with one handler, which runs the line. */
  predicate IsHook(entry: Json, matcher: string, line: string) {
    && entry.Object? && entry.fields.Keys == {"matcher", "hooks"} && Field(entry, "matcher") == matcher
    && HandlersOf(entry).Some? && |HandlersOf(entry).value| == 1
    && var h := HandlersOf(entry).value[0];
       h.Object? && h.fields.Keys == {"type", "command"} && Field(h, "type") == "command" && Field(h, "command") == line
  }

  lemma EntryIsHook(c: Command)
    ensures IsHook(EntryFor(c), c.matcher, c.line)
  {
  }

  /** The entry may have lost handlers, and nothing else. */
  predicate SameButHandlers(before: Json, after: Json) {
    after == before || (before.Object? && after.Object? && after.fields - {"hooks"} == before.fields - {"hooks"})
  }

  lemma {:induction false} CleanKeepsFields(entries: seq<Json>, keepEntry: Json -> bool, keep: Json -> bool)
    ensures forall e <- Clean(entries, keepEntry, keep) :: exists b <- entries :: SameButHandlers(b, e)
  {
    if entries != [] {
      var init, last := entries[..|entries| - 1], entries[|entries| - 1];
      CleanKeepsFields(init, keepEntry, keep);
      assert last in entries && forall b <- init :: b in entries;
      CleanedEntryFields(last, keepEntry, keep);
    }
  }

  lemma CleanedEntryFields(entry: Json, keepEntry: Json -> bool, keep: Json -> bool)
    ensures forall e <- CleanEntry(entry, keepEntry, keep) :: SameButHandlers(entry, e)
  {
  }

  /** What a Claude merge makes of an event: the old entries without handlers of ours, old or new, without handlers
      that are no objects and without what that empties; then one entry for each command. */
  predicate PrunedPlus(before: seq<Json>, after: seq<Json>, added: seq<Command>) {
    && |added| <= |after|
    && var kept := after[..|after| - |added|];
    && (forall i | 0 <= i < |added| :: IsHook(after[|kept| + i], added[i].matcher, added[i].line))
    && Handlers(kept) == Filter(Handlers(before), Foreign) && (forall h <- Handlers(kept) :: Foreign(h))
    && (forall e <- kept :: exists b <- before :: SameButHandlers(b, e))
  }

  function EntriesFor(commands: seq<Command>): seq<Json> {
    seq(|commands|, i requires 0 <= i < |commands| => EntryFor(commands[i]))
  }

  predicate DifferentLines(commands: seq<Command>) {
    forall i, j | 0 <= i < j < |commands| :: commands[i].line != commands[j].line
  }

  /** Where none of them runs yet, every command gets its entry. */
  lemma {:induction false} AllAdded(entries: seq<Json>, commands: seq<Command>)
    requires DifferentLines(commands) && forall c <- commands :: Count(Handlers(entries), c.line) == 0
    ensures AddCommands(entries, commands) == entries + EntriesFor(commands)
  {
    hide Handlers, Count, EntryFor, HasCommand;
    if commands == [] {
      assert EntriesFor(commands) == [];
    } else {
      var init, last := commands[..|commands| - 1], commands[|commands| - 1];
      LastDiffers(init, last, commands);
      AllAdded(entries, init);
      AddCommandsCount(entries, init, last.line);
      NotRunYet(AddCommands(entries, init), last.line);
      assert EntriesFor(commands) == EntriesFor(init) + [EntryFor(last)];
    }
  }

  lemma LastDiffers(init: seq<Command>, last: Command, commands: seq<Command>)
    requires commands == init + [last] && DifferentLines(commands)
    ensures DifferentLines(init) && !Mentions(init, last.line)
    ensures last in commands && forall c <- init :: c in commands
  {
    assert forall i | 0 <= i < |init| :: init[i] == commands[i];
    assert commands[|init|] == last;
  }

  lemma NotRunYet(entries: seq<Json>, line: string)
    requires Count(Handlers(entries), line) == 0
    ensures !HasCommand(entries, line)
  {
    hide Handlers, Count;
    CountZero(Handlers(entries), line);
  }

  lemma PrunedByText(entries: seq<Json>)
    ensures Handlers(Prune(entries)) == Filter(Handlers(entries), Foreign)
    ensures forall h <- Handlers(Prune(entries)) :: Foreign(h)
    ensures forall e <- Prune(entries) :: exists b <- entries :: SameButHandlers(b, e)
  {
    hide SurvivesPrune, Foreign, Handlers, Filter, SameButHandlers;
    forall h ensures SurvivesPrune(h) <==> Foreign(h) { SurvivesByText(h); }
    CleanKeepsSurvivors(entries, IsObject, SurvivesPrune);
    FilterSame(Handlers(entries), SurvivesPrune, Foreign);
    FilterKeeps(Handlers(entries), Foreign);
    CleanKeepsFields(entries, IsObject, SurvivesPrune);
  }

  lemma AddedAreHooks(kept: seq<Json>, commands: seq<Command>)
    ensures var after := kept + EntriesFor(commands);
            && |commands| <= |after| && after[..|after| - |commands|] == kept
            && forall i | 0 <= i < |commands| :: IsHook(after[|kept| + i], commands[i].matcher, commands[i].line)
  {
    hide EntryFor, IsHook;
    forall i | 0 <= i < |commands|
      ensures IsHook((kept + EntriesFor(commands))[|kept| + i], commands[i].matcher, commands[i].line)
    {
      EntryIsHook(commands[i]);
    }
  }

  lemma PlannedByText(entries: seq<Json>, plan: Plan)
    requires PlanOurs(plan) && DifferentLines(plan.commands)
    ensures PrunedPlus(entries, Planned(entries, plan, true), plan.commands)
  {
    hide Ours, Handlers, Filter, Foreign, EntryFor, EntriesFor, IsHook, SameButHandlers, Prune, AddCommands;
    PrunedByText(entries);
    forall c <- plan.commands ensures Count(Handlers(Prune(entries)), c.line) == 0 { PrunedRunsNone(entries, c); }
    AllAdded(Prune(entries), plan.commands);
    AddedAreHooks(Prune(entries), plan.commands);
  }

  /** What every command line of ours starts with. */
  const SCRIPT := "/bin/sh \"${HOME}/Library/Application Support/Taphaptic/bin/taphaptic-hook\" "

  /** A Claude merge by the text of what it finds and what it leaves. */
  lemma ClaudeByText(config: Fields, withNotifications: bool)
    requires MergeClaude(config, withNotifications).Ok?
    ensures var after := MergeClaude(config, withNotifications).value;
            && PrunedPlus(Entries(config, "Stop"), Entries(after, "Stop"),
                          [Command("*", SCRIPT + "claude-code stop")])
            && PrunedPlus(Entries(config, "SubagentStop"), Entries(after, "SubagentStop"),
                          [Command("*", SCRIPT + "claude-code subagent_stop")])
            && (withNotifications ==>
                  PrunedPlus(Entries(config, "Notification"), Entries(after, "Notification"),
                             [Command("permission_prompt", SCRIPT + "claude-code permission_prompt"),
                              Command("idle_prompt", SCRIPT + "claude-code idle_prompt")]))
  {
    hide MergeClaude, PrunedPlus, Entries, Line, Planned;
    ClaudeMerged(config, withNotifications);
    ClaudePlans(withNotifications);
    var plans := Claude(withNotifications);
    EveryCommandOurs(plans);
    forall p <- plans { PlannedByText(Entries(config, p.event), p); }
  }

  lemma LineText(call: string)
    ensures Line(call) == SCRIPT + call
  {
    assert "/bin/sh \"${HOME}/Library/Application Support/Taphaptic/bin/" + MARKER + "\" " == SCRIPT;
  }

  lemma ClaudePlans(withNotifications: bool)
    ensures var plans := Claude(withNotifications);
            && |plans| == (if withNotifications then 3 else 2)
            && plans[0] == Plan("Stop", [Command("*", SCRIPT + "claude-code stop")])
            && plans[1] == Plan("SubagentStop", [Command("*", SCRIPT + "claude-code subagent_stop")])
            && (withNotifications ==>
                  plans[2] == Plan("Notification",
                                   [Command("permission_prompt", SCRIPT + "claude-code permission_prompt"),
                                    Command("idle_prompt", SCRIPT + "claude-code idle_prompt")]))
            && forall p <- plans :: DifferentLines(p.commands)
  {
    hide Line;
    forall call ensures Line(call) == SCRIPT + call { LineText(call); }
    assert |SCRIPT + "claude-code permission_prompt"| != |SCRIPT + "claude-code idle_prompt"|;
  }

  /** A Codex merge by the text: the entry comes last, unless its line runs already. */
  predicate PlusMissing(before: seq<Json>, after: seq<Json>, line: string) {
    if exists h <- Handlers(before) :: h.Object? && Field(h, "type") == "command" && Field(h, "command") == line
    then after == before
    else |after| == |before| + 1 && after[..|before|] == before && IsHook(after[|before|], "*", line)
  }

  lemma CodexByText(config: Fields)
    requires MergeCodex(config).Ok?
    ensures var after := MergeCodex(config).value;
            && PlusMissing(Entries(config, "Stop"), Entries(after, "Stop"), SCRIPT + "codex stop")
            && PlusMissing(Entries(config, "SubagentStop"), Entries(after, "SubagentStop"),
                           SCRIPT + "codex subagent_stop")
            && PlusMissing(Entries(config, "PermissionRequest"), Entries(after, "PermissionRequest"),
                           SCRIPT + "codex permission_request")
  {
    hide MergeCodex, Entries, Line, Handlers, EntryFor, IsHook, FileMerged;
    CodexMerged(config);
    CodexPlans();
    forall c ensures IsHook(EntryFor(c), c.matcher, c.line) { EntryIsHook(c); }
  }

  lemma CodexPlans()
    ensures Codex() == [Plan("Stop", [Command("*", SCRIPT + "codex stop")]),
                        Plan("SubagentStop", [Command("*", SCRIPT + "codex subagent_stop")]),
                        Plan("PermissionRequest", [Command("*", SCRIPT + "codex permission_request")])]
  {
    hide Line;
    forall call ensures Line(call) == SCRIPT + call { LineText(call); }
  }

  // ---------------------------------------------------------------- what removal does to a file

  lemma RemovedEntries(entries: seq<Json>)
    ensures Handlers(Remove(entries)) == Filter(Handlers(entries), SurvivesRemove)
    ensures forall h <- Handlers(Remove(entries)) :: !IsTaphaptic(h)
    ensures Remove(Remove(entries)) == Remove(entries)
    ensures Remove(entries) == [] ==> forall h <- Handlers(entries) :: IsTaphaptic(h)
  {
    CleanKeepsSurvivors(entries, IsAnything, SurvivesRemove);
    FilterKeeps(Handlers(entries), SurvivesRemove);
    CleanShape(entries, IsAnything, SurvivesRemove);
    CleanFixpoint(Remove(entries), IsAnything, SurvivesRemove);
  }

  /** Removal leaves no Taphaptic handler, keeps every other handler of every event in order, and drops an
      event only when nothing else was in it. */
  lemma RemovalKeepsOthers(hooks: Fields)
    ensures forall event <- hooks ::
              if !hooks[event].Array? then event in CleanEvents(hooks) && CleanEvents(hooks)[event] == hooks[event]
              else if event in CleanEvents(hooks) then
                && CleanEvents(hooks)[event].Array?
                && Handlers(CleanEvents(hooks)[event].items) == Filter(Handlers(hooks[event].items), SurvivesRemove)
                && forall h <- Handlers(CleanEvents(hooks)[event].items) :: !IsTaphaptic(h)
              else forall h <- Handlers(hooks[event].items) :: IsTaphaptic(h)
    ensures CleanEvents(hooks).Keys <= hooks.Keys
    ensures CleanEvents(CleanEvents(hooks)) == CleanEvents(hooks)
  {
    hide Remove, IsTaphaptic, Filter, Handlers;
    forall event <- hooks | hooks[event].Array? { RemovedEntries(hooks[event].items); }
  }

  lemma RemoveHooksIdempotent(config: Fields)
    requires RemoveHooks(config).Ok?
    ensures RemoveHooks(RemoveHooks(config).value) == RemoveHooks(config)
    ensures forall key | key != "hooks" ::
              (key in RemoveHooks(config).value <==> key in config)
                  && (key in config ==> RemoveHooks(config).value[key] == config[key])
    ensures "hooks" in config ==> HooksOf(RemoveHooks(config).value) == Ok(CleanEvents(config["hooks"].fields))
  {
    if "hooks" in config {
      var left := CleanEvents(config["hooks"].fields);
      RemovalKeepsOthers(config["hooks"].fields);
      hide CleanEvents;
      assert WithHooks(WithHooks(config, left), left) == WithHooks(config, left);
    }
  }

  /** What removal leaves of an event is not ours. */
  predicate NotOurs(h: Json) {
    !h.Object? || !Spells(Field(h, "command"), "taphaptic-hook")
  }

  /** Removal by the text of the commands: every handler that is not ours is still there, in order, and no other; an
      event goes with its last entry. */
  lemma RemovalByText(config: Fields, event: string)
    requires RemoveHooks(config).Ok? && HooksOf(config).Ok? && event in HooksOf(config).value
    requires HooksOf(config).value[event].Array?
    ensures var before, after := Entries(config, event), Entries(RemoveHooks(config).value, event);
            && Handlers(after) == Filter(Handlers(before), NotOurs)
            && (forall e <- after :: exists b <- before :: SameButHandlers(b, e))
            && (after == [] ==> event !in HooksOf(RemoveHooks(config).value).value)
  {
    hide Filter, Handlers, SurvivesRemove, NotOurs, SameButHandlers, Clean;
    var hooks := config["hooks"].fields;
    RemoveHooksIdempotent(config);
    forall h ensures SurvivesRemove(h) <==> NotOurs(h) { RemoveByText(h); }
    var entries := hooks[event].items;
    RemovedEntries(entries);
    FilterSame(Handlers(entries), SurvivesRemove, NotOurs);
    CleanKeepsFields(entries, IsAnything, SurvivesRemove);
    NoHandlers();
  }

  lemma RemoveByText(h: Json)
    ensures SurvivesRemove(h) <==> NotOurs(h)
  {
    SurvivesByText(h);
  }

  lemma NoHandlers()
    ensures Handlers([]) == []
  {
  }

  // ---------------------------------------------------------------- the loops

  method PruneLegacyEntries(entries: seq<Json>) returns (filtered: seq<Json>)
    ensures filtered == Prune(entries)
  {
    filtered := [];
    for i := 0 to |entries|
      invariant filtered == Prune(entries[..i])
    {
      var entry := entries[i];
      assert entries[..i + 1][..i] == entries[..i];
      if !entry.Object? { continue; }
      if "hooks" !in entry.fields || !entry.fields["hooks"].Array? {
        filtered := filtered + [entry];
        continue;
      }
      var cleaned := KeepHandlers(entry.fields["hooks"].items, SurvivesPrune);
      if cleaned == [] { continue; }
      filtered := filtered + [Object(entry.fields["hooks" := Array(cleaned)])];
    }
    assert entries[..|entries|] == entries;
  }

  method RemoveTaphapticEntries(entries: seq<Json>) returns (filtered: seq<Json>)
    ensures filtered == Remove(entries)
  {
    filtered := [];
    for i := 0 to |entries|
      invariant filtered == Remove(entries[..i])
    {
      var entry := entries[i];
      assert entries[..i + 1][..i] == entries[..i];
      if !entry.Object? || "hooks" !in entry.fields || !entry.fields["hooks"].Array? {
        filtered := filtered + [entry];
        continue;
      }
      var cleaned := KeepHandlers(entry.fields["hooks"].items, SurvivesRemove);
      if cleaned == [] { continue; }
      filtered := filtered + [Object(entry.fields["hooks" := Array(cleaned)])];
    }
    assert entries[..|entries|] == entries;
  }

  /** The inner loop of both: the handlers to keep. */
  method KeepHandlers(handlers: seq<Json>, keep: Json -> bool) returns (cleaned: seq<Json>)
    ensures cleaned == Filter(handlers, keep)
  {
    cleaned := [];
    for i := 0 to |handlers|
      invariant cleaned == Filter(handlers[..i], keep)
    {
      assert handlers[..i + 1][..i] == handlers[..i];
      if keep(handlers[i]) { cleaned := cleaned + [handlers[i]]; }
    }
    assert handlers[..|handlers|] == handlers;
  }

  method FindCommand(entries: seq<Json>, line: string) returns (found: bool)
    ensures found == HasCommand(entries, line)
  {
    assert entries[..0] == [] && !HasCommand([], line);
    hide HasCommand;
    for i := 0 to |entries|
      invariant !HasCommand(entries[..i], line)
    {
      HasCommandStep(entries, i, line);
      var handlers := HandlersOf(entries[i]);
      if handlers.None? { continue; }
      for j := 0 to |handlers.value|
        invariant forall k | 0 <= k < j :: !Runs(handlers.value[k], line)
      {
        if Runs(handlers.value[j], line) { return true; }
      }
    }
    assert entries[..|entries|] == entries;
    return false;
  }

  lemma HasCommandStep(entries: seq<Json>, i: nat, line: string)
    requires i < |entries|
    ensures var own := HandlersOf(entries[i]);
            HasCommand(entries[..i + 1], line) <==>
            HasCommand(entries[..i], line) || (own.Some? && exists h <- own.value :: Runs(h, line))
    ensures HasCommand(entries[..i + 1], line) ==> HasCommand(entries, line)
  {
    hide Handlers, Runs, HandlersOf;
    SingleHandlers(entries[i]);
    HandlersConcat(entries[..i], [entries[i]]);
    HandlersConcat(entries[..i + 1], entries[i + 1..]);
    assert entries[..i + 1] == entries[..i] + [entries[i]];
    assert entries == entries[..i + 1] + entries[i + 1..];
  }

  method AppendCommand(entries: seq<Json>, command: Command) returns (extended: seq<Json>)
    ensures extended == AddCommand(entries, command)
  {
    var found := FindCommand(entries, command.line);
    return if found then entries else entries + [EntryFor(command)];
  }

  lemma MergeEventsStep(hooks: Fields, plans: seq<Plan>, plan: Plan, prune: bool)
    requires MergeEvents(hooks, plans, prune).Ok?
    ensures var before := MergeEvents(hooks, plans, prune).value;
            var entries := EnsureEntries(before, plan.event);
            MergeEvents(hooks, plans + [plan], prune) ==
              if entries.Err? then Err(entries.error)
                  else Ok(before[plan.event := Array(Planned(entries.value, plan, prune))])
  {
    assert (plans + [plan])[..|plans|] == plans;
  }

  lemma AddNothing(entries: seq<Json>)
    ensures AddCommands(entries, []) == entries
  {
  }

  lemma AddCommandsStep(entries: seq<Json>, commands: seq<Command>, i: nat)
    requires i < |commands|
    ensures AddCommands(entries, commands[..i + 1]) == AddCommand(AddCommands(entries, commands[..i]), commands[i])
  {
    assert commands[..i + 1][..i] == commands[..i];
  }

  /** One event of a merge: its entries, pruned for Claude, and the missing commands. */
  method MergeEvent(hooks: Fields, ghost plans: seq<Plan>, plan: Plan, prune: bool, ghost start: Fields)
    returns (merged: Result<Fields, Error>)
    requires MergeEvents(start, plans, prune) == Ok(hooks)
    ensures merged == MergeEvents(start, plans + [plan], prune)
  {
    hide MergeEvents, AddCommands, AddCommand, Prune;
    MergeEventsStep(start, plans, plan, prune);
    var ensured := EnsureEntries(hooks, plan.event);
    if ensured.Err? { return Err(ensured.error); }
    var entries := ensured.value;
    if prune { entries := PruneLegacyEntries(entries); }
    ghost var base := entries;
    AddNothing(base);
    for i := 0 to |plan.commands|
      invariant entries == AddCommands(base, plan.commands[..i])
    {
      entries := AppendCommand(entries, plan.commands[i]);
      AddCommandsStep(base, plan.commands, i);
    }
    assert plan.commands[..|plan.commands|] == plan.commands;
    return Ok(hooks[plan.event := Array(entries)]);
  }

  method MergeHooks(hooks: Fields, plans: seq<Plan>, prune: bool) returns (merged: Result<Fields, Error>)
    ensures merged == MergeEvents(hooks, plans, prune)
  {
    hide MergeEvents;
    merged := Ok(hooks);
    NoPlans(hooks, prune);
    assert plans[..0] == [];
    for i := 0 to |plans|
      invariant merged.Ok? && merged == MergeEvents(hooks, plans[..i], prune)
    {
      assert plans[..i + 1] == plans[..i] + [plans[i]];
      merged := MergeEvent(merged.value, plans[..i], plans[i], prune, hooks);
      if merged.Err? {
        MergeFailsEarly(hooks, plans, i + 1, prune);
        return;
      }
    }
    assert plans[..|plans|] == plans;
  }

  lemma NoPlans(hooks: Fields, prune: bool)
    ensures MergeEvents(hooks, [], prune) == Ok(hooks)
  {
  }

  lemma {:induction false} MergeFailsEarly(hooks: Fields, plans: seq<Plan>, n: nat, prune: bool)
    requires n <= |plans| && MergeEvents(hooks, plans[..n], prune).Err?
    ensures MergeEvents(hooks, plans, prune) == MergeEvents(hooks, plans[..n], prune)
  {
    if n < |plans| {
      assert plans[..|plans| - 1][..n] == plans[..n];
      MergeFailsEarly(hooks, plans[..|plans| - 1], n, prune);
    } else {
      assert plans[..n] == plans;
    }
  }

  lemma ClaudeSteps(withNotifications: bool)
    ensures var plans := Claude(withNotifications);
            && |plans| == (if withNotifications then 3 else 2)
            && [] + [ClaudeStop()] == plans[..1] && plans[..1] + [ClaudeSubagentStop()] == plans[..2]
            && (if withNotifications then plans[..2] + [ClaudeNotification()] == plans else plans[..2] == plans)
  {
    hide ClaudeStop, ClaudeSubagentStop, ClaudeNotification;
  }

  method MergeClaudeHooks(config: Fields, withNotifications: bool) returns (merged: Result<Fields, Error>)
    ensures merged == MergeClaude(config, withNotifications)
  {
    hide MergeEvents, ClaudeStop, ClaudeSubagentStop, ClaudeNotification;
    merged := HooksOf(config);
    if merged.Err? { return; }
    ghost var hooks, plans := merged.value, Claude(withNotifications);
    ClaudeSteps(withNotifications);
    NoPlans(hooks, true);
    merged := MergeEvent(merged.value, [], ClaudeStop(), true, hooks);
    if merged.Err? {
      MergeFailsEarly(hooks, plans, 1, true);
      return;
    }
    merged := MergeEvent(merged.value, plans[..1], ClaudeSubagentStop(), true, hooks);
    if merged.Err? {
      MergeFailsEarly(hooks, plans, 2, true);
      return;
    }
    if withNotifications {
      merged := MergeEvent(merged.value, plans[..2], ClaudeNotification(), true, hooks);
      if merged.Err? { return; }
    }
    return Ok(config["hooks" := Object(merged.value)] - LEGACY_KEYS);
  }

  method MergeCodexHooks(config: Fields) returns (merged: Result<Fields, Error>)
    ensures merged == MergeCodex(config)
  {
    hide MergeEvents, Codex;
    merged := HooksOf(config);
    if merged.Err? { return; }
    merged := MergeHooks(merged.value, Codex(), false);
    if merged.Err? { return; }
    var described := config;
    if "description" !in config { described := described["description" := Str(DESCRIPTION)]; }
    return Ok(described["hooks" := Object(merged.value)]);
  }

  /** The loop over the events, in whatever order the map gives them. */
  method CleanHooks(hooks: Fields) returns (cleaned: Fields)
    ensures cleaned == CleanEvents(hooks)
  {
    cleaned := hooks;
    var left := hooks.Keys;
    while left != {}
      invariant left <= hooks.Keys
      invariant forall e :: e in cleaned <==> e in left || e in CleanEvents(hooks)
      invariant forall e <- cleaned :: cleaned[e] == if e in left then hooks[e] else CleanEvents(hooks)[e]
      decreases |left|
    {
      var event :| event in left;
      left := left - {event};
      if hooks[event].Array? {
        var entries := RemoveTaphapticEntries(hooks[event].items);
        if entries == [] { cleaned := cleaned - {event}; } else { cleaned := cleaned[event := Array(entries)]; }
      }
    }
  }

  // ---------------------------------------------------------------- files

  datatype Content = Missing | Blank | Garbage | Tree(config: Fields)

  /** A missing or blank file merges like an empty object. */
  function Parse(content: Content): Result<Fields, Error> {
    match content
    case Garbage => Err(InvalidJson)
    case Tree(config) => Ok(config)
    case _ => Ok(map[])
  }

  /** A file is replaced whole, or not at all. */
  function Write(content: Content, edited: Result<Fields, Error>, saveOk: bool): (Content, Option<Error>) {
    if edited.Err? then (content, Some(edited.error))
    else if saveOk then (Tree(edited.value), None) else (content, Some(NotSaved))
  }

  function PatchClaude(content: Content, withNotifications: bool, saveOk: bool): (Content, Option<Error>) {
    Write(content, if Parse(content).Ok? then MergeClaude(Parse(content).value, withNotifications)
        else Parse(content), saveOk)
  }

  function PatchCodex(content: Content, saveOk: bool): (Content, Option<Error>) {
    Write(content, if Parse(content).Ok? then MergeCodex(Parse(content).value) else Parse(content), saveOk)
  }

  /** Files without hooks are not written at all. */
  function RemoveFrom(content: Content, saveOk: bool): (Content, Option<Error>) {
    match content
    case Garbage => (content, Some(InvalidJson))
    case Tree(config) => if "hooks" in config then Write(content, RemoveHooks(config), saveOk) else (content, None)
    case _ => (content, None)
  }

  /** The tree a file stands for; an empty or missing one is an empty object. */
  function ConfigOf(content: Content): Fields {
    if content.Tree? then content.config else map[]
  }

  /** Editing replaces a file by the edited tree, or reports an error and leaves it as it was. */
  predicate EditPromise(content: Content, edited: Result<Fields, Error>, saveOk: bool, after: Content,
                        error: Option<Error>)
  {
    if content.Garbage? then error == Some(InvalidJson) && after == content
    else if edited.Err? then error == Some(edited.error) && after == content
    else if !saveOk then error == Some(NotSaved) && after == content
    else error.None? && after == Tree(edited.value)
  }

  lemma EditsKeepPromise(content: Content, withNotifications: bool, saveOk: bool)
    ensures var (after, error) := PatchClaude(content, withNotifications, saveOk);
            EditPromise(content, MergeClaude(ConfigOf(content), withNotifications), saveOk, after, error)
    ensures var (after, error) := PatchCodex(content, saveOk);
            EditPromise(content, MergeCodex(ConfigOf(content)), saveOk, after, error)
    ensures var (after, error) := RemoveFrom(content, saveOk);
            if !content.Garbage? && "hooks" !in ConfigOf(content)
            then error.None? && after == content
            else EditPromise(content, RemoveHooks(ConfigOf(content)), saveOk, after, error)
  {
    hide MergeClaude, MergeCodex, RemoveHooks;
  }

  class HookFile {
    var content: Content

    method PatchClaudeSettings(withNotifications: bool, saveOk: bool) returns (error: Option<Error>)
      modifies this
      ensures (content, error) == PatchClaude(old(content), withNotifications, saveOk)
    {
      hide MergeClaude;
      var config := Parse(content);
      if config.Err? { return Some(config.error); }
      var merged := MergeClaudeHooks(config.value, withNotifications);
      if merged.Err? { return Some(merged.error); }
      if !saveOk { return Some(NotSaved); }
      content := Tree(merged.value);
      return None;
    }

    method PatchCodexHooks(saveOk: bool) returns (error: Option<Error>)
      modifies this
      ensures (content, error) == PatchCodex(old(content), saveOk)
    {
      hide MergeCodex;
      var config := Parse(content);
      if config.Err? { return Some(config.error); }
      var merged := MergeCodexHooks(config.value);
      if merged.Err? { return Some(merged.error); }
      if !saveOk { return Some(NotSaved); }
      content := Tree(merged.value);
      return None;
    }

    method RemoveTaphapticHooks(saveOk: bool) returns (error: Option<Error>)
      modifies this
      ensures (content, error) == RemoveFrom(old(content), saveOk)
    {
      hide CleanEvents;
      if content.Missing? || content.Blank? { return None; }
      if content.Garbage? { return Some(InvalidJson); }
      var config := content.config;
      if "hooks" !in config { return None; }
      if !config["hooks"].Object? { return Some(HooksNotObject); }
      var hooks := CleanHooks(config["hooks"].fields);
      if hooks == map[] { config := config - {"hooks"}; } else { config := config["hooks" := Object(hooks)]; }
      if !saveOk { return Some(NotSaved); }
      content := Tree(config);
      return None;
    }
  }
}
