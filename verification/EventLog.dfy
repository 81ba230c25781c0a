/**
  The relay's bounded, deduplicating, persisted event log (internal/events/store.go).

  `Store` is the in-place store. The functions below give the meaning of its calls, and the
  lemmas speak about every run of appends, failed saves, removals and restarts.
 */
module EventLog {
  import opened Wrappers
  import opened Text

  datatype Kind = Completed | SubagentCompleted | Failed | Attention

  datatype Event = Event(id: int, schemaVersion: int, channel: string, kind: Kind,
                         createdAt: Time, occurredAt: Time, source: string, sourceEvent: string,
                         key: string, title: string, body: string)

  /** What a producer sends. `kind` is None when the type name parses as none of the four. */
  datatype Input = Input(schemaVersion: int, channel: string, kind: Option<Kind>,
                         occurredAt: Option<Time>, source: string, sourceEvent: string,
                         key: string, title: string, body: string)

  datatype Outcome = Appended(event: Event) | Duplicate(event: Event) | InvalidType | SaveFailed

  datatype Memory = Memory(events: seq<Event>, nextID: int)

  /** Memory and state file. A save makes the file equal to memory or changes nothing. */
  datatype Log = Log(mem: Memory, file: Option<Memory>)

  /** `persisted` is false for a store opened without a state path. */
  datatype Config = Config(max: nat, persisted: bool)

  const DEFAULT_MAX: nat := 32

  function SeededNextID(now: Time): int {
    var millis := now / 1_000_000;
    if millis <= 0 then 1 else millis
  }

  function TrimEvents(events: seq<Event>, max: nat): seq<Event> {
    if |events| <= max then events else events[|events| - max..]
  }

  function MaxID(events: seq<Event>): (id: int)
    ensures id >= 0
  {
    if events == [] then 0
    else var rest := MaxID(events[..|events| - 1]);
         if events[|events| - 1].id > rest then events[|events| - 1].id else rest
  }

  predicate SameKey(e: Event, channel: string, key: string) {
    Trim(e.channel) == channel && Trim(e.key) == key
  }

  /** The newest stored event with this channel and key. */
  function FindDuplicate(events: seq<Event>, channel: string, key: string): Option<Event> {
    if events == [] then None
    else if SameKey(events[|events| - 1], channel, key) then Some(events[|events| - 1])
    else FindDuplicate(events[..|events| - 1], channel, key)
  }

  function NewEvent(input: Input, kind: Kind, id: int, now: Time): Event {
    Event(id, if input.schemaVersion <= 0 then 1 else input.schemaVersion, Trim(input.channel), kind, now,
          if input.occurredAt.None? then now else input.occurredAt.value,
          Trim(input.source), Trim(input.sourceEvent), Trim(input.key), Trim(input.title), Trim(input.body))
  }

  /** What a commit of `next` leaves behind, and whether it succeeded. */
  function Commit(cfg: Config, log: Log, next: Memory, saveOk: bool): (Log, bool) {
    if !cfg.persisted then (Log(next, log.file), true)
    else if saveOk then (Log(next, Some(next)), true)
    else (log, false)
  }

  function Append(cfg: Config, log: Log, input: Input, now: Time, saveOk: bool): (Log, Outcome) {
    if input.kind.None? then (log, InvalidType)
    else
      var key := Trim(input.key);
      var duplicate := if key == "" then None else FindDuplicate(log.mem.events, Trim(input.channel), key);
      if duplicate.Some? then (log, Duplicate(duplicate.value))
      else
        var event := NewEvent(input, input.kind.value, log.mem.nextID, now);
        var (log', ok) := Commit(cfg, log, Memory(TrimEvents(log.mem.events + [event], cfg.max), log.mem.nextID + 1),
            saveOk);
        (log', if ok then Appended(event) else SaveFailed)
  }

  function Since(events: seq<Event>, channel: string, after: int): seq<Event> {
    if events == [] then []
    else
      var earlier, last := Since(events[..|events| - 1], channel, after), events[|events| - 1];
      if last.id > after && Trim(last.channel) == channel then earlier + [last] else earlier
  }

  function Without(events: seq<Event>, channel: string): seq<Event> {
    if events == [] then []
    else
      var kept, last := Without(events[..|events| - 1], channel), events[|events| - 1];
      if Trim(last.channel) != channel then kept + [last] else kept
  }

  function Remove(cfg: Config, log: Log, channel: string, saveOk: bool): (Log, bool) {
    var kept := Without(log.mem.events, Trim(channel));
    if Trim(channel) == "" || |kept| == |log.mem.events| then (log, true)
    else Commit(cfg, log, Memory(kept, log.mem.nextID), saveOk)
  }

  /** The id an opened file continues with. The maximum starts at zero, so the source's further
      re-seeding of a non-positive id can never run. */
  function LoadedNextID(events: seq<Event>, nextID: int): (next: int)
    ensures next > 0 && next > MaxID(events)
  {
    if nextID <= MaxID(events) then MaxID(events) + 1 else nextID
  }

  /** A restart: memory is lost, the file is read back. */
  function Reopen(cfg: Config, log: Log, now: Time): Log {
    if !cfg.persisted || log.file.None? then Log(Memory([], SeededNextID(now)), log.file)
    else
      var events := TrimEvents(log.file.value.events, cfg.max);
      Log(Memory(events, LoadedNextID(events, log.file.value.nextID)), log.file)
  }

  // ---------------------------------------------------------------- what a producer may rely on

  /** What a new event holds: the input's kind and instant, its texts without the white space around them, and the
      clock. */
  predicate Carries(e: Event, input: Input, now: Time) {
    && input.kind == Some(e.kind) && e.createdAt == now
    && e.occurredAt == (if input.occurredAt.Some? then input.occurredAt.value else now)
    && e.schemaVersion == (if input.schemaVersion > 0 then input.schemaVersion else 1)
    && e.channel == Trim(input.channel) && e.key == Trim(input.key)
    && e.source == Trim(input.source) && e.sourceEvent == Trim(input.sourceEvent)
    && e.title == Trim(input.title) && e.body == Trim(input.body)
  }

  /** The stored event has the input's channel and deduplication key. */
  predicate Twin(e: Event, input: Input) {
    Trim(input.key) != "" && Trim(e.channel) == Trim(input.channel) && Trim(e.key) == Trim(input.key)
  }

  predicate HasTwin(events: seq<Event>, input: Input) {
    exists e <- events :: Twin(e, input)
  }

  predicate NewestTwin(events: seq<Event>, input: Input, e: Event) {
    exists i | 0 <= i < |events| ::
      events[i] == e && Twin(e, input) && forall j | i < j < |events| :: !Twin(events[j], input)
  }

  /** `e` came last, behind as many of the newest old events as there is room for. */
  predicate StoredLast(before: seq<Event>, after: seq<Event>, max: nat, e: Event) {
    && after != [] && after[|after| - 1] == e
    && |after| == (if |before| < max then |before| + 1 else max)
    && after[..|after| - 1] == before[|before| + 1 - |after|..]
  }

  /** Which answer an append gets, what it says, and what is stored afterwards. */
  predicate AppendPromise(cfg: Config, log: Log, input: Input, now: Time, saveOk: bool, log': Log, outcome: Outcome)
    requires cfg.max > 0
  {
    match outcome
    case InvalidType => input.kind.None? && log' == log
    case Duplicate(e) => input.kind.Some? && NewestTwin(log.mem.events, input, e) && log' == log
    case SaveFailed =>
      input.kind.Some? && !HasTwin(log.mem.events, input) && cfg.persisted && !saveOk && log' == log
    case Appended(e) =>
      && input.kind.Some? && !HasTwin(log.mem.events, input) && (cfg.persisted ==> saveOk)
      && Carries(e, input, now) && e.id == log.mem.nextID && log'.mem.nextID == e.id + 1
      && StoredLast(log.mem.events, log'.mem.events, cfg.max, e)
      && log'.file == if cfg.persisted then Some(log'.mem) else log.file
  }

  lemma {:induction false} FoundIsNewest(events: seq<Event>, input: Input)
    requires Trim(input.key) != ""
    ensures var found := FindDuplicate(events, Trim(input.channel), Trim(input.key));
            if found.Some? then NewestTwin(events, input, found.value) else !HasTwin(events, input)
  {
    hide Trim;
    if events != [] {
      var front, n := events[..|events| - 1], |events| - 1;
      FoundIsNewest(front, input);
      var found := FindDuplicate(events, Trim(input.channel), Trim(input.key));
      if Twin(events[n], input) {
        assert NewestTwin(events, input, events[n]);
      } else if found.Some? {
        var i :| 0 <= i < n && front[i] == found.value && forall j | i < j < n :: !Twin(front[j], input);
        assert events[i] == found.value && forall j | i < j < |events| :: !Twin(events[j], input);
      } else {
        assert forall e <- events :: e in front || e == events[n];
      }
    }
  }

  /** An append keeps its promise in every state. */
  lemma AppendKeepsPromise(cfg: Config, log: Log, input: Input, now: Time, saveOk: bool)
    requires cfg.max > 0
    ensures var (log', outcome) := Append(cfg, log, input, now, saveOk);
            AppendPromise(cfg, log, input, now, saveOk, log', outcome)
  {
    hide Trim, FindDuplicate, TrimEvents, NewEvent, HasTwin, NewestTwin, StoredLast, Carries;
    if input.kind.None? { return; }
    DuplicateIsTwin(log.mem.events, input);
    var e := NewEvent(input, input.kind.value, log.mem.nextID, now);
    NewEventCarries(input, log.mem.nextID, now);
    TrimStoresLast(log.mem.events, cfg.max, e);
  }

  lemma DuplicateIsTwin(events: seq<Event>, input: Input)
    ensures var key := Trim(input.key);
            var duplicate := if key == "" then None else FindDuplicate(events, Trim(input.channel), key);
            if duplicate.Some? then NewestTwin(events, input, duplicate.value) else !HasTwin(events, input)
  {
    hide FindDuplicate;
    if Trim(input.key) != "" { FoundIsNewest(events, input); }
  }

  lemma NewEventCarries(input: Input, id: int, now: Time)
    requires input.kind.Some?
    ensures var e := NewEvent(input, input.kind.value, id, now); Carries(e, input, now) && e.id == id
  {
    hide Trim;
  }

  lemma TrimStoresLast(events: seq<Event>, max: nat, e: Event)
    requires max > 0
    ensures StoredLast(events, TrimEvents(events + [e], max), max, e)
  {
  }

  /** A removal takes exactly the channel's events, or nothing when the save fails. */
  ghost predicate RemovePromise(cfg: Config, log: Log, channel: string, saveOk: bool, log': Log, ok: bool) {
    var doomed := Trim(channel) != "" && exists e <- log.mem.events :: Trim(e.channel) == Trim(channel);
    && (ok <==> !doomed || (cfg.persisted ==> saveOk))
    && if !doomed || !ok then log' == log
       else
         && log'.mem.nextID == log.mem.nextID && log'.file == (if cfg.persisted then Some(log'.mem) else log.file)
         && (forall e :: e in log'.mem.events <==> e in log.mem.events && Trim(e.channel) != Trim(channel))
  }

  lemma {:induction false} WithoutKeeps(events: seq<Event>, channel: string)
    ensures forall e :: e in Without(events, channel) <==> e in events && Trim(e.channel) != channel
    ensures |Without(events, channel)| <= |events|
    ensures |Without(events, channel)| == |events| <==> forall e <- events :: Trim(e.channel) != channel
  {
    hide Trim;
    if events != [] {
      var front, last := events[..|events| - 1], events[|events| - 1];
      WithoutKeeps(front, channel);
      assert forall e :: e in events <==> e in front || e == last;
    }
  }

  lemma RemoveKeepsPromise(cfg: Config, log: Log, channel: string, saveOk: bool)
    ensures var (log', ok) := Remove(cfg, log, channel, saveOk); RemovePromise(cfg, log, channel, saveOk, log', ok)
  {
    hide Trim, Without;
    WithoutKeeps(log.mem.events, Trim(channel));
  }

  /** What is there after a restart: the newest events of the file that there is room for, and the file's next id unless
      some loaded event has it or a later one. Without a file the ids start with the clock's milliseconds. */
  predicate ReopenPromise(cfg: Config, log: Log, now: Time, log': Log) {
    && log'.file == log.file
    && if !cfg.persisted || log.file.None? then
         log'.mem == Memory([], if now < 1_000_000 then 1 else now / 1_000_000)
       else
         var stored := log.file.value;
         && |log'.mem.events| == (if |stored.events| < cfg.max then |stored.events| else cfg.max)
         && log'.mem.events == stored.events[|stored.events| - |log'.mem.events|..]
         && (forall e <- log'.mem.events :: 0 < log'.mem.nextID && e.id < log'.mem.nextID)
         && (stored.nextID > 0 && (forall e <- log'.mem.events :: e.id < stored.nextID) ==>
               log'.mem.nextID == stored.nextID)
  }

  lemma {:induction false} MaxIDMeaning(events: seq<Event>)
    ensures forall e <- events :: e.id <= MaxID(events)
    ensures MaxID(events) > 0 ==> exists e <- events :: e.id == MaxID(events)
  {
    if events != [] {
      var init, last := events[..|events| - 1], events[|events| - 1];
      MaxIDMeaning(init);
      assert last in events && forall e <- init :: e in events;
    }
  }

  lemma ReopenKeepsPromise(cfg: Config, log: Log, now: Time)
    ensures ReopenPromise(cfg, log, now, Reopen(cfg, log, now))
  {
    if cfg.persisted && log.file.Some? { MaxIDMeaning(TrimEvents(log.file.value.events, cfg.max)); }
    hide MaxID;
  }

  // ---------------------------------------------------------------- the store

  class Store {
    const maxEvents: nat
    const persisted: bool
    var events: seq<Event>
    var nextID: int
    var file: Option<Memory>

    function Cfg(): Config {
      Config(maxEvents, persisted)
    }

    function State(): Log
      reads this
    {
      Log(Memory(events, nextID), file)
    }

    constructor (maxEvents: int, persisted: bool, now: Time)
      ensures this.maxEvents == (if maxEvents <= 0 then DEFAULT_MAX else maxEvents) && this.persisted == persisted
      ensures State() == Log(Memory([], SeededNextID(now)), None)
    {
      this.maxEvents := if maxEvents <= 0 then DEFAULT_MAX else maxEvents;
      this.persisted := persisted;
      this.events, this.nextID, this.file := [], SeededNextID(now), None;
    }

    method Persist(saveOk: bool) returns (ok: bool)
      modifies this`file
      ensures ok == (!persisted || saveOk)
      ensures file == if persisted && saveOk then Some(Memory(events, nextID)) else old(file)
    {
      if !persisted { return true; }
      if saveOk { file := Some(Memory(events, nextID)); }
      return saveOk;
    }

    /** The backward search for an event with the same key. */
    method FindLatest(channel: string, key: string) returns (found: Option<Event>)
      ensures found == FindDuplicate(events, channel, key)
    {
      var index := |events| - 1;
      assert events[..|events|] == events;
      while index >= 0
        invariant -1 <= index < |events|
        invariant FindDuplicate(events, channel, key) == FindDuplicate(events[..index + 1], channel, key)
      {
        assert events[..index + 1][..index] == events[..index];
        if SameKey(events[index], channel, key) { return Some(events[index]); }
        index := index - 1;
      }
      return None;
    }

    method AppendUnique(input: Input, now: Time, saveOk: bool) returns (outcome: Outcome)
      modifies this
      ensures (State(), outcome) == Append(Cfg(), old(State()), input, now, saveOk)
      ensures maxEvents > 0 ==> AppendPromise(Cfg(), old(State()), input, now, saveOk, State(), outcome)
    {
      hide FindDuplicate, NewEvent, Trim, AppendPromise;
      if maxEvents > 0 { AppendKeepsPromise(Cfg(), State(), input, now, saveOk); }
      if input.kind.None? { return InvalidType; }
      var channel, key := Trim(input.channel), Trim(input.key);
      if key != "" {
        var duplicate := FindLatest(channel, key);
        if duplicate.Some? { return Duplicate(duplicate.value); }
      }
      var previousEvents, previousNextID := events, nextID;
      var event := NewEvent(input, input.kind.value, nextID, now);
      nextID := nextID + 1;
      events := events + [event];
      if |events| > maxEvents { events := TrimEvents(events, maxEvents); }
      var ok := Persist(saveOk);
      if !ok {
        events, nextID := previousEvents, previousNextID;
        return SaveFailed;
      }
      return Appended(event);
    }

    method SinceForChannel(channelID: string, after: int) returns (out: seq<Event>)
      ensures out == Since(events, Trim(channelID), after)
    {
      var channel := Trim(channelID);
      out := [];
      for i := 0 to |events|
        invariant out == Since(events[..i], channel, after)
      {
        assert events[..i + 1][..i] == events[..i];
        var event := events[i];
        if event.id <= after { continue; }
        if channel != "" && Trim(event.channel) != channel { continue; }
        if channel == "" && Trim(event.channel) != "" { continue; }
        out := out + [event];
      }
      assert events[..|events|] == events;
    }

    method LatestForChannel(channelID: string) returns (latest: Option<Event>)
      ensures match latest
              case Some(e) => exists i | 0 <= i < |events| ::
                && events[i] == e && Trim(e.channel) == Trim(channelID)
                && forall j | i < j < |events| :: Trim(events[j].channel) != Trim(channelID)
              case None => forall e <- events :: Trim(e.channel) != Trim(channelID)
    {
      var channel := Trim(channelID);
      var index := |events| - 1;
      while index >= 0
        invariant -1 <= index < |events|
        invariant forall j | index < j < |events| :: Trim(events[j].channel) != channel
      {
        var event := events[index];
        if (channel != "" && Trim(event.channel) != channel) || (channel == "" && Trim(event.channel) != "") {
          index := index - 1;
          continue;
        }
        return Some(event);
      }
      return None;
    }

    method RemoveForChannel(channelID: string, saveOk: bool) returns (ok: bool)
      modifies this
      ensures (State(), ok) == Remove(Cfg(), old(State()), channelID, saveOk)
      ensures RemovePromise(Cfg(), old(State()), channelID, saveOk, State(), ok)
    {
      hide RemovePromise, Trim;
      RemoveKeepsPromise(Cfg(), State(), channelID, saveOk);
      var channel := Trim(channelID);
      if channel == "" { return true; }
      var previousEvents := events;
      var filtered := [];
      for i := 0 to |events|
        invariant filtered == Without(events[..i], channel)
      {
        assert events[..i + 1][..i] == events[..i];
        if Trim(events[i].channel) != channel { filtered := filtered + [events[i]]; }
      }
      assert events[..|events|] == events;
      if |filtered| == |events| { return true; }
      events := filtered;
      ok := Persist(saveOk);
      if !ok { events := previousEvents; }
    }

    /** A process restart: the fields are rebuilt from the file alone. */
    method OpenStore(now: Time)
      modifies this`events, this`nextID
      ensures State() == Reopen(Cfg(), old(State()), now)
      ensures ReopenPromise(Cfg(), old(State()), now, State())
    {
      hide ReopenPromise;
      ReopenKeepsPromise(Cfg(), State(), now);
      events, nextID := [], SeededNextID(now);
      if !persisted || file.None? { return; }
      events := TrimEvents(file.value.events, maxEvents);
      var maxEventID := 0;
      for i := 0 to |events|
        invariant maxEventID == MaxID(events[..i])
      {
        assert events[..i + 1][..i] == events[..i];
        if events[i].id > maxEventID { maxEventID := events[i].id; }
      }
      assert events[..|events|] == events;
      nextID := file.value.nextID;
      if nextID <= maxEventID { nextID := maxEventID + 1; }
    }
  }

  // ---------------------------------------------------------------- runs

  datatype Step =
    | AppendStep(input: Input, now: Time, saveOk: bool)
    | RemoveStep(channel: string, saveOk: bool)
    | RestartStep(now: Time)

  /** The log together with every event it ever reported as appended, oldest first. */
  datatype History = History(log: Log, accepted: seq<Event>)

  function Start(now: Time): History {
    History(Log(Memory([], SeededNextID(now)), None), [])
  }

  function Next(cfg: Config, h: History, step: Step): History {
    match step
    case AppendStep(input, now, saveOk) =>
      var (log, outcome) := Append(cfg, h.log, input, now, saveOk);
      History(log, if outcome.Appended? then h.accepted + [outcome.event] else h.accepted)
    case RemoveStep(channel, saveOk) => History(Remove(cfg, h.log, channel, saveOk).0, h.accepted)
    case RestartStep(now) => History(Reopen(cfg, h.log, now), h.accepted)
  }

  function Run(cfg: Config, h: History, steps: seq<Step>): History {
    if steps == [] then h else Next(cfg, Run(cfg, h, steps[..|steps| - 1]), steps[|steps| - 1])
  }

  predicate Ascending(events: seq<Event>) {
    forall i, j :: 0 <= i < j < |events| ==> events[i].id < events[j].id
  }

  predicate KeysUnique(events: seq<Event>) {
    forall i, j :: 0 <= i < j < |events| && events[i].key != "" && events[i].key == events[j].key
                   ==> events[i].channel != events[j].channel
  }

  /** What holds of every reachable log, whatever was saved, lost, removed or restarted. */
  ghost predicate Inv(cfg: Config, h: History) {
    var mem := h.log.mem;
    && cfg.max > 0 && mem.nextID > 0
    && Ascending(h.accepted) && Ascending(mem.events)
    && (forall e <- h.accepted :: 0 < e.id < mem.nextID)
    && (forall e <- mem.events :: e in h.accepted)
    && (forall e <- h.accepted :: Trimmed(e.channel) && Trimmed(e.key))
    && |mem.events| <= cfg.max
    && KeysUnique(mem.events)
    && (h.log.file.Some? ==> h.log.file.value == mem)
    && (h.log.file.None? ==> h.accepted == [])
  }

  lemma {:induction false} MaxIDAbove(events: seq<Event>, bound: int)
    requires 0 < bound && forall e <- events :: e.id < bound
    ensures MaxID(events) < bound
  {
    if events != [] { MaxIDAbove(events[..|events| - 1], bound); }
  }

  /** FindDuplicate answers exactly when some stored event carries the channel and key. */
  lemma {:induction false} FindDuplicateMeaning(events: seq<Event>, channel: string, key: string)
    ensures var found := FindDuplicate(events, channel, key);
            match found
            case Some(e) => e in events && SameKey(e, channel, key)
            case None => forall e <- events :: !SameKey(e, channel, key)
  {
    hide Trim;
    if events != [] { FindDuplicateMeaning(events[..|events| - 1], channel, key); }
  }

  /** A read returns exactly the channel's events above the cursor, in id order. */
  lemma {:induction false} SinceMeaning(events: seq<Event>, channel: string, after: int)
    requires Ascending(events)
    ensures forall e ::
              e in Since(events, channel, after) <==> e in events && e.id > after && Trim(e.channel) == channel
    ensures Ascending(Since(events, channel, after))
  {
    hide Trim;
    if events != [] { SinceMeaning(events[..|events| - 1], channel, after); }
  }

  lemma {:induction false} WithoutMeaning(events: seq<Event>, channel: string)
    requires Ascending(events)
    ensures forall e :: e in Without(events, channel) <==> e in events && Trim(e.channel) != channel
    ensures Ascending(Without(events, channel))
  {
    hide Trim;
    if events != [] {
      var front, last := events[..|events| - 1], events[|events| - 1];
      WithoutMeaning(front, channel);
      var kept := Without(front, channel);
      assert forall e :: e in events <==> e in front || e == last;
      forall i | 0 <= i < |kept| ensures kept[i].id < last.id {
        assert kept[i] in front;
      }
    }
  }

  lemma {:induction false} WithoutLength(events: seq<Event>, channel: string)
    ensures |Without(events, channel)| <= |events|
    ensures |Without(events, channel)| == |events| ==> Without(events, channel) == events
  {
    hide Trim;
    if events != [] {
      WithoutLength(events[..|events| - 1], channel);
      if |Without(events, channel)| == |events| {
        assert events == events[..|events| - 1] + [events[|events| - 1]];
      }
    }
  }

  /** KeysUnique in membership form, for stores without repeated ids. */
  lemma KeysUniqueBySubset(events: seq<Event>, larger: seq<Event>)
    requires Ascending(events) && KeysUnique(larger)
    requires forall e <- events :: e in larger
    ensures KeysUnique(events)
  {
    forall i, j | 0 <= i < j < |events| && events[i].key != "" && events[i].key == events[j].key
      ensures events[i].channel != events[j].channel
    {
      assert events[i] in larger && events[j] in larger;
      var p :| 0 <= p < |larger| && larger[p] == events[i];
      var q :| 0 <= q < |larger| && larger[q] == events[j];
      assert p != q;
      assert p < q || q < p;
    }
  }

  /** The duplicate search guards the keys of the store it extends. */
  lemma FreshKey(events: seq<Event>, event: Event)
    requires KeysUnique(events) && forall e <- events :: Trimmed(e.channel) && Trimmed(e.key)
    requires event.key != "" ==> FindDuplicate(events, event.channel, event.key).None?
    ensures KeysUnique(events + [event])
  {
    FindDuplicateMeaning(events, event.channel, event.key);
    forall i | 0 <= i < |events| && event.key != "" && events[i].key == event.key
      ensures events[i].channel != event.channel
    {
      assert events[i] in events;
      TrimFixpoint(events[i].channel);
      TrimFixpoint(events[i].key);
      assert !SameKey(events[i], event.channel, event.key);
    }
  }

  lemma AppendKeepsInv(cfg: Config, h: History, input: Input, now: Time, saveOk: bool)
    requires cfg.persisted && Inv(cfg, h)
    ensures Inv(cfg, Next(cfg, h, AppendStep(input, now, saveOk)))
  {
    hide Append, Trim, Trimmed, Ascending, KeysUnique, TrimEvents, FindDuplicate, NewEvent;
    var h' := Next(cfg, h, AppendStep(input, now, saveOk));
    AppendShape(cfg, h, input, now, saveOk);
    if h' != h {
      var event := NewEvent(input, input.kind.value, h.log.mem.nextID, now);
      NewEventShape(input, h.log.mem.nextID, now);
      AscendingSnoc(h.accepted, event);
      KeptEvents(h.log.mem.events, event, cfg.max);
    }
  }

  lemma AppendShape(cfg: Config, h: History, input: Input, now: Time, saveOk: bool)
    requires cfg.persisted
    ensures var h' := Next(cfg, h, AppendStep(input, now, saveOk));
            h' == h ||
            (input.kind.Some? &&
             var event := NewEvent(input, input.kind.value, h.log.mem.nextID, now);
             var mem := Memory(TrimEvents(h.log.mem.events + [event], cfg.max), h.log.mem.nextID + 1);
             && (event.key != "" ==> FindDuplicate(h.log.mem.events, event.channel, event.key).None?)
             && h' == History(Log(mem, Some(mem)), h.accepted + [event]))
  {
    hide Trim, TrimEvents, FindDuplicate;
  }

  lemma NewEventShape(input: Input, id: int, now: Time)
    requires input.kind.Some?
    ensures var event := NewEvent(input, input.kind.value, id, now);
            event.id == id && Trimmed(event.channel) && Trimmed(event.key)
  {
    TrimFixpoint(input.channel);
    TrimFixpoint(input.key);
  }

  lemma KeptEvents(events: seq<Event>, event: Event, max: nat)
    requires max > 0 && Ascending(events) && KeysUnique(events) && |events| <= max
    requires forall e <- events :: e.id < event.id && Trimmed(e.channel) && Trimmed(e.key)
    requires event.key != "" ==> FindDuplicate(events, event.channel, event.key).None?
    ensures var kept := TrimEvents(events + [event], max);
            Ascending(kept) && KeysUnique(kept) && |kept| <= max && forall e <- kept :: e in events + [event]
  {
    FreshKey(events, event);
    AscendingSnoc(events, event);
    var kept := TrimEvents(events + [event], max);
    assert forall e <- kept :: e in events + [event];
    assert Ascending(kept);
    KeysUniqueBySubset(kept, events + [event]);
  }

  lemma AscendingSnoc(events: seq<Event>, event: Event)
    requires Ascending(events) && forall e <- events :: e.id < event.id
    ensures Ascending(events + [event])
  {
    forall i | 0 <= i < |events| ensures events[i].id < event.id { assert events[i] in events; }
  }

  lemma RemoveKeepsInv(cfg: Config, h: History, channel: string, saveOk: bool)
    requires cfg.persisted && Inv(cfg, h)
    ensures Inv(cfg, Next(cfg, h, RemoveStep(channel, saveOk)))
  {
    WithoutMeaning(h.log.mem.events, Trim(channel));
    WithoutLength(h.log.mem.events, Trim(channel));
    KeysUniqueBySubset(Without(h.log.mem.events, Trim(channel)), h.log.mem.events);
  }

  /** Crash atomicity: once the store has saved, a restart rebuilds its memory exactly. */
  lemma ReopenRestores(cfg: Config, h: History, now: Time)
    requires cfg.persisted && Inv(cfg, h)
    ensures h.log.file.Some? ==> Reopen(cfg, h.log, now) == h.log
    ensures h.log.file.None? ==> Reopen(cfg, h.log, now) == Log(Memory([], SeededNextID(now)), None)
    ensures Inv(cfg, Next(cfg, h, RestartStep(now)))
  {
    MaxIDAbove(h.log.mem.events, h.log.mem.nextID);
  }

  lemma StepKeepsInv(cfg: Config, h: History, step: Step)
    requires cfg.persisted && Inv(cfg, h)
    ensures Inv(cfg, Next(cfg, h, step))
  {
    match step
    case AppendStep(input, now, saveOk) => AppendKeepsInv(cfg, h, input, now, saveOk);
    case RemoveStep(channel, saveOk) => RemoveKeepsInv(cfg, h, channel, saveOk);
    case RestartStep(now) => ReopenRestores(cfg, h, now);
  }

  lemma {:induction false} RunKeepsInv(cfg: Config, h: History, steps: seq<Step>)
    requires cfg.persisted && Inv(cfg, h)
    ensures Inv(cfg, Run(cfg, h, steps))
  {
    if steps != [] {
      RunKeepsInv(cfg, h, steps[..|steps| - 1]);
      StepKeepsInv(cfg, Run(cfg, h, steps[..|steps| - 1]), steps[|steps| - 1]);
    }
  }

  /** Ids are never reused: every event an append, a duplicate answer or a read ever hands out is an
      accepted one, and no two accepted events of a run share an id. */
  lemma IdsNeverReused(cfg: Config, now: Time, steps: seq<Step>, step: Step, channel: string, after: int)
    requires cfg.persisted && cfg.max > 0
    ensures var h := Run(cfg, Start(now), steps);
            var h' := Next(cfg, h, step);
            && h.accepted <= h'.accepted
            && (forall e, f | e in h'.accepted && f in h'.accepted && e.id == f.id :: e == f)
            && (forall e <- Since(h.log.mem.events, channel, after) :: e in h'.accepted)
            && (step.AppendStep? ==>
                  match Append(cfg, h.log, step.input, step.now, step.saveOk).1
                  case Appended(e) => e in h'.accepted && e !in h.accepted
                  case Duplicate(e) => e in h.accepted
                  case _ => h' == h)
  {
    hide Run, Ascending, Since, FindDuplicate, Trim, KeysUnique, Without;
    var h := Run(cfg, Start(now), steps);
    RunKeepsInv(cfg, Start(now), steps);
    StepKeepsInv(cfg, h, step);
    AscendingDistinct(Next(cfg, h, step).accepted);
    SinceMeaning(h.log.mem.events, channel, after);
    if step.AppendStep? {
      FindDuplicateMeaning(h.log.mem.events, Trim(step.input.channel), Trim(step.input.key));
    }
  }

  lemma AscendingDistinct(events: seq<Event>)
    requires Ascending(events)
    ensures forall e, f | e in events && f in events && e.id == f.id :: e == f
  {
  }

  // ---------------------------------------------------------------- restarts without a file

  predicate NoRestarts(steps: seq<Step>) {
    forall i | 0 <= i < |steps| :: !steps[i].RestartStep?
  }

  /** An id of an event accepted before is given to another event afterwards. */
  ghost predicate Reuses(before: seq<Event>, after: seq<Event>) {
    exists e, j | e in before && |before| <= j < |after| :: after[j].id == e.id && after[j] != e
  }

  /** The store after a restart, and what it accepts until the next one. */
  function Continued(cfg: Config, h: History, now: Time, steps: seq<Step>): History {
    Run(cfg, Next(cfg, h, RestartStep(now)), steps)
  }

  lemma {:induction false} ContinuedIDs(cfg: Config, h: History, now: Time, steps: seq<Step>)
    requires !cfg.persisted && NoRestarts(steps)
    ensures var h' := Continued(cfg, h, now, steps);
            && h.accepted <= h'.accepted && h'.log.mem.nextID >= SeededNextID(now)
            && forall j | |h.accepted| <= j < |h'.accepted| :: h'.accepted[j].id >= SeededNextID(now)
  {
    hide FindDuplicate, Without, Trim, SeededNextID;
    if steps != [] { ContinuedIDs(cfg, h, now, steps[..|steps| - 1]); }
  }

  function Plain(kind: Kind): Input {
    Input(1, "", Some(kind), None, "", "", "", "", "")
  }

  function Appends(kind: Kind, count: nat): seq<Step> {
    seq(count, _ => AppendStep(Plain(kind), 0, true))
  }

  /** Appending on gives out every id from the seed upwards. */
  lemma {:induction false} AppendsFill(cfg: Config, h: History, now: Time, kind: Kind, count: nat)
    requires !cfg.persisted
    ensures var h' := Continued(cfg, h, now, Appends(kind, count));
            && |h'.accepted| == |h.accepted| + count && h.accepted <= h'.accepted
            && h'.log.mem.nextID == SeededNextID(now) + count
            && (count > 0 ==> var f := h'.accepted[|h'.accepted| - 1];
               f.id == SeededNextID(now) + count - 1 && f.kind == kind)
  {
    hide SeededNextID, FindDuplicate;
    if count > 0 {
      AppendsFill(cfg, h, now, kind, count - 1);
      assert Appends(kind, count)[..count - 1] == Appends(kind, count - 1);
      assert Trim("") == "";
    }
  }

  /** Without a file, a restart lets some continuation give an accepted id to another event exactly when the clock has
      not passed the last id that was given out. */
  lemma UnsavedRestart(cfg: Config, h: History, now: Time)
    requires !cfg.persisted && h.accepted != [] && Ascending(h.accepted)
    ensures (exists steps | NoRestarts(steps) :: Reuses(h.accepted, Continued(cfg, h, now, steps).accepted))
            <==> SeededNextID(now) <= h.accepted[|h.accepted| - 1].id
  {
    var last := h.accepted[|h.accepted| - 1];
    LastIsGreatest(h.accepted);
    if SeededNextID(now) <= last.id {
      var kind := if last.kind.Completed? then Failed else Completed;
      var steps := Appends(kind, last.id - SeededNextID(now) + 1);
      AppendsFill(cfg, h, now, kind, last.id - SeededNextID(now) + 1);
      hide Continued, SeededNextID;
      var h' := Continued(cfg, h, now, steps);
      assert last in h.accepted && h'.accepted[|h'.accepted| - 1].id == last.id
             && h'.accepted[|h'.accepted| - 1] != last;
      assert Reuses(h.accepted, h'.accepted);
    } else {
      hide Continued, SeededNextID;
      forall steps | NoRestarts(steps) ensures !Reuses(h.accepted, Continued(cfg, h, now, steps).accepted) {
        ContinuedIDs(cfg, h, now, steps);
      }
    }
  }

  /** Such a run: one event, a restart within the same millisecond, another event. */
  lemma IdGivenTwice(max: nat)
    requires max > 0
    ensures var cfg := Config(max, false);
            var h := Next(cfg, Start(5_000_000), AppendStep(Plain(Completed), 5_000_000, true));
            var h' := Continued(cfg, h, 5_000_000, [AppendStep(Plain(Failed), 5_000_000, true)]);
            && |h'.accepted| == 2 && h'.accepted[0].id == h'.accepted[1].id == 5
               && h'.accepted[0].kind != h'.accepted[1].kind
  {
    var cfg := Config(max, false);
    var h := Next(cfg, Start(5_000_000), AppendStep(Plain(Completed), 5_000_000, true));
    var step := AppendStep(Plain(Failed), 5_000_000, true);
    assert Trim("") == "" && [step][..0] == [];
    assert h.accepted == [NewEvent(Plain(Completed), Completed, 5, 5_000_000)];
    assert Continued(cfg, h, 5_000_000, [step]) == Next(cfg, Next(cfg, h, RestartStep(5_000_000)), step) by {
      assert Run(cfg, Next(cfg, h, RestartStep(5_000_000)), [step][..0]) == Next(cfg, h, RestartStep(5_000_000));
    }
  }

  // ---------------------------------------------------------------- the store as a window on the history

  predicate NoRemovals(steps: seq<Step>) {
    forall step <- steps :: !step.RemoveStep?
  }

  /** Equal keys of one channel sit more than `max` places apart, so `max` others lie between. */
  predicate DedupeSpaced(events: seq<Event>, max: nat) {
    forall i, j | 0 <= i < j < |events| && SameNonEmptyKey(events[i], events[j]) :: j - i > max
  }

  predicate SameNonEmptyKey(e: Event, f: Event) {
    e.key != "" && e.key == f.key && e.channel == f.channel
  }

  /** Without removals the store is exactly the newest min(n, max) accepted events, and two accepted
      events with one channel and one key have at least `max` others between them. */
  lemma {:induction false} LogIsWindow(cfg: Config, now: Time, steps: seq<Step>)
    requires cfg.persisted && cfg.max > 0 && NoRemovals(steps)
    ensures var h := Run(cfg, Start(now), steps);
            h.log.mem.events == TrimEvents(h.accepted, cfg.max) && DedupeSpaced(h.accepted, cfg.max)
  {
    if steps != [] {
      var front, step := steps[..|steps| - 1], steps[|steps| - 1];
      var h := Run(cfg, Start(now), front);
      assert step in steps;
      LogIsWindow(cfg, now, front);
      RunKeepsInv(cfg, Start(now), front);
      if step.AppendStep? {
        AppendKeepsWindow(cfg, h, step);
      } else {
        ReopenRestores(cfg, h, step.now);
      }
    }
  }

  lemma AppendKeepsWindow(cfg: Config, h: History, step: Step)
    requires cfg.persisted && Inv(cfg, h) && step.AppendStep?
    requires h.log.mem.events == TrimEvents(h.accepted, cfg.max) && DedupeSpaced(h.accepted, cfg.max)
    ensures var h' := Next(cfg, h, step);
            h'.log.mem.events == TrimEvents(h'.accepted, cfg.max) && DedupeSpaced(h'.accepted, cfg.max)
  {
    var h' := Next(cfg, h, step);
    if h' != h {
      var event := NewEvent(step.input, step.input.kind.value, h.log.mem.nextID, step.now);
      TrimFixpoint(step.input.channel);
      TrimFixpoint(step.input.key);
      assert h'.accepted == h.accepted + [event];
      TrimThenAppend(h.accepted, event, cfg.max);
      forall i | 0 <= i < |h.accepted| && SameNonEmptyKey(h.accepted[i], event)
        ensures |h.accepted| - i > cfg.max
      {
        if |h.accepted| - i <= cfg.max { StoredKeyRefused(cfg, h, event, i); }
      }
      SpacedSnoc(h.accepted, event, cfg.max);
    }
  }

  lemma TrimThenAppend(events: seq<Event>, event: Event, max: nat)
    requires max > 0
    ensures TrimEvents(TrimEvents(events, max) + [event], max) == TrimEvents(events + [event], max)
  {
  }

  lemma SpacedSnoc(events: seq<Event>, event: Event, max: nat)
    requires DedupeSpaced(events, max)
    requires forall i | 0 <= i < |events| && SameNonEmptyKey(events[i], event) :: |events| - i > max
    ensures DedupeSpaced(events + [event], max)
  {
  }

  /** A key still inside the window is answered as a duplicate. */
  lemma StoredKeyRefused(cfg: Config, h: History, event: Event, i: nat)
    requires Inv(cfg, h) && h.log.mem.events == TrimEvents(h.accepted, cfg.max)
    requires i < |h.accepted| <= i + cfg.max && SameNonEmptyKey(h.accepted[i], event)
    ensures FindDuplicate(h.log.mem.events, event.channel, event.key).Some?
  {
    var e := h.accepted[i];
    assert e in h.accepted;
    TrimFixpoint(e.channel);
    TrimFixpoint(e.key);
    assert h.log.mem.events[i - (|h.accepted| - |h.log.mem.events|)] == e;
    assert e in h.log.mem.events && SameKey(e, event.channel, event.key);
    FindDuplicateMeaning(h.log.mem.events, event.channel, event.key);
  }

  // ---------------------------------------------------------------- reading by cursor

  lemma LastRemoved(s: seq<Event>)
    requires Ascending(s) && s != []
    ensures Ascending(s[..|s| - 1])
    ensures forall e <- s :: e.id <= s[|s| - 1].id && (e.id == s[|s| - 1].id ==> e == s[|s| - 1])
    ensures forall e :: e in s[..|s| - 1] <==> e in s && e != s[|s| - 1]
  {
  }

  lemma BothEmpty(s: seq<Event>, t: seq<Event>)
    requires forall e :: e in s <==> e in t
    ensures s == [] ==> t == []
  {
    if t != [] { assert t[0] in t && t[0] in s; }
  }

  lemma {:induction false} AscendingUnique(s: seq<Event>, t: seq<Event>)
    requires Ascending(s) && Ascending(t) && forall e :: e in s <==> e in t
    ensures s == t
  {
    BothEmpty(s, t);
    if s != [] {
      assert s[|s| - 1] in t;
      var x, y := s[|s| - 1], t[|t| - 1];
      var s', t' := s[..|s| - 1], t[..|t| - 1];
      assert x in s && x in t && y in s;
      LastRemoved(s);
      LastRemoved(t);
      hide Ascending;
      assert x == y;
      forall e ensures e in s' <==> e in t' { assert e in s <==> e in t; }
      assert s == s' + [x] && t == t' + [y];
      AscendingUnique(s', t');
    }
  }

  /** Events never come back: what is stored later is either stored now or accepted in between. */
  lemma {:induction false} EventsNeverReturn(cfg: Config, h: History, steps: seq<Step>)
    requires cfg.persisted && Inv(cfg, h)
    ensures var h' := Run(cfg, h, steps);
            && Inv(cfg, h') && h.accepted <= h'.accepted
            && forall e <- h'.log.mem.events :: e in h.log.mem.events || e in h'.accepted[|h.accepted|..]
  {
    hide Inv, Next;
    if steps != [] {
      var front, step := steps[..|steps| - 1], steps[|steps| - 1];
      EventsNeverReturn(cfg, h, front);
      StepKeepsInv(cfg, Run(cfg, h, front), step);
      StepBringsAccepted(cfg, Run(cfg, h, front), step);
    }
  }

  /** One step's events were stored before, or it has just accepted them. */
  lemma StepBringsAccepted(cfg: Config, h: History, step: Step)
    requires cfg.persisted && Inv(cfg, h)
    ensures var h' := Next(cfg, h, step);
            && h.accepted <= h'.accepted
            && forall e <- h'.log.mem.events :: e in h.log.mem.events || e in h'.accepted[|h.accepted|..]
  {
    match step
    case AppendStep(input, now, saveOk) => AppendBrings(cfg, h, input, now, saveOk);
    case RemoveStep(channel, saveOk) => RemoveBrings(cfg, h, channel, saveOk);
    case RestartStep(now) => ReopenRestores(cfg, h, now);
  }

  lemma AppendBrings(cfg: Config, h: History, input: Input, now: Time, saveOk: bool)
    ensures var h' := Next(cfg, h, AppendStep(input, now, saveOk));
            && h.accepted <= h'.accepted
            && forall e <- h'.log.mem.events :: e in h.log.mem.events || e in h'.accepted[|h.accepted|..]
  {
    hide FindDuplicate, NewEvent, Trim;
  }

  lemma RemoveBrings(cfg: Config, h: History, channel: string, saveOk: bool)
    requires Ascending(h.log.mem.events)
    ensures var h' := Next(cfg, h, RemoveStep(channel, saveOk));
            h'.accepted == h.accepted && forall e <- h'.log.mem.events :: e in h.log.mem.events
  {
    hide Without, Trim;
    WithoutMeaning(h.log.mem.events, Trim(channel));
  }

  /** The part of an answer that is still stored. */
  function Surviving(answer: seq<Event>, events: seq<Event>): seq<Event> {
    if answer == [] then []
    else Surviving(answer[..|answer| - 1], events)
         + if answer[|answer| - 1] in events then [answer[|answer| - 1]] else []
  }

  lemma {:induction false} SurvivingMeaning(answer: seq<Event>, events: seq<Event>)
    requires Ascending(answer)
    ensures forall e :: e in Surviving(answer, events) <==> e in answer && e in events
    ensures Ascending(Surviving(answer, events))
  {
    if answer != [] {
      var front, last := answer[..|answer| - 1], answer[|answer| - 1];
      SurvivingMeaning(front, events);
      assert forall e :: e in answer <==> e in front || e == last;
      forall e <- Surviving(front, events) ensures e.id < last.id { assert e in front; }
      AscendingSnoc(Surviving(front, events), last);
    }
  }

  /** The cursor a reader holds after an answer. */
  function CursorAfter(answer: seq<Event>, cursor: int): int {
    if answer == [] then cursor else answer[|answer| - 1].id
  }

  /** What an old answer, a new one and the whole have in common. */
  lemma PagingParts(h: History, h': History, channel: string, cursor: int)
    requires Ascending(h.log.mem.events) && Ascending(h'.log.mem.events) && Ascending(h'.accepted)
             && h.accepted <= h'.accepted
    requires forall e <- h.log.mem.events :: e in h.accepted
    requires forall e <- h'.log.mem.events :: e in h.log.mem.events || e in h'.accepted[|h.accepted|..]
    ensures var first := Since(h.log.mem.events, channel, cursor);
            var kept := Surviving(first, h'.log.mem.events);
            var second := Since(h'.log.mem.events, channel, CursorAfter(first, cursor));
            && Ascending(kept) && Ascending(second)
            && (forall e, f | e in kept && f in second :: e.id < f.id)
            && (forall e :: e in Since(h'.log.mem.events, channel, cursor) <==> e in kept || e in second)
  {
    hide Ascending, Since, Surviving, Trim;
    var first := Since(h.log.mem.events, channel, cursor);
    var after := CursorAfter(first, cursor);
    SinceMeaning(h.log.mem.events, channel, cursor);
    SinceMeaning(h'.log.mem.events, channel, after);
    SinceMeaning(h'.log.mem.events, channel, cursor);
    SurvivingMeaning(first, h'.log.mem.events);
    LastIsGreatest(first);
    assert first != [] ==> first[|first| - 1] in first;
    forall e | e in h'.log.mem.events && e !in h.log.mem.events && Trim(e.channel) == channel && e.id > cursor
      ensures e.id > after
    {
      NewerThanAccepted(h.accepted, h'.accepted, e);
    }
  }

  /** Paging: however the log moves on, reading from the old cursor later gives what is left of the
      first answer followed by the answer from the new cursor. Nothing is skipped or repeated. */
  lemma PagingConcatenates(cfg: Config, h: History, steps: seq<Step>, channel: string, cursor: int)
    requires cfg.persisted && Inv(cfg, h)
    ensures var h' := Run(cfg, h, steps);
            var first := Since(h.log.mem.events, channel, cursor);
            var second := Since(h'.log.mem.events, channel, CursorAfter(first, cursor));
            Since(h'.log.mem.events, channel, cursor) == Surviving(first, h'.log.mem.events) + second
  {
    hide Since, Surviving, Run, Trim, KeysUnique, Ascending;
    var h' := Run(cfg, h, steps);
    var first := Since(h.log.mem.events, channel, cursor);
    var kept := Surviving(first, h'.log.mem.events);
    var second := Since(h'.log.mem.events, channel, CursorAfter(first, cursor));
    EventsNeverReturn(cfg, h, steps);
    PagingParts(h, h', channel, cursor);
    SinceMeaning(h'.log.mem.events, channel, cursor);
    AscendingConcat(kept, second);
    AscendingUnique(Since(h'.log.mem.events, channel, cursor), kept + second);
  }

  lemma LastIsGreatest(events: seq<Event>)
    requires Ascending(events)
    ensures events != [] ==> forall e <- events :: e.id <= events[|events| - 1].id
  {
  }

  lemma NewerThanAccepted(before: seq<Event>, later: seq<Event>, e: Event)
    requires before <= later && Ascending(later) && e in later[|before|..]
    ensures forall f <- before :: f.id < e.id
  {
    var j :| |before| <= j < |later| && later[j] == e;
    forall f <- before ensures f.id < e.id {
      var i :| 0 <= i < |before| && before[i] == f;
      assert later[i] == f;
    }
  }

  lemma AscendingConcat(s: seq<Event>, t: seq<Event>)
    requires Ascending(s) && Ascending(t) && forall e, f | e in s && f in t :: e.id < f.id
    ensures Ascending(s + t)
  {
    forall i, j | 0 <= i < j < |s + t| ensures (s + t)[i].id < (s + t)[j].id {
      if i < |s| <= j { assert s[i] in s && t[j - |s|] in t; }
    }
  }
}
