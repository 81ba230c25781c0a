/** Watch push registrations (internal/devices/store.go), keyed by watch installation. */
module Devices {
  import opened Wrappers
  import opened Text
  import opened Snapshots

  /** `createdAt` is None in a request, and filled in by the first Upsert. */
  datatype Device = Device(installation: string, watchID: string, token: string, environment: string,
                           topic: string, createdAt: Option<Time>, updatedAt: Time)

  type Table = map<string, Device>

  datatype Error = MissingID | InvalidToken | InvalidEnvironment | MissingTopic | NotSaved

  function IdOf(d: Device): string {
    d.watchID
  }

  predicate IsHex(c: char) { '0' <= c <= '9' || 'a' <= c <= 'f' || 'A' <= c <= 'F' }

  function NoSpaces(s: string): string {
    if s == "" then "" else NoSpaces(s[..|s| - 1]) + if IsSpace(s[|s| - 1]) then "" else [s[|s| - 1]]
  }

  /** Push tokens are compared without white space and in lower case. */
  function NormalizeToken(token: string): string {
    Lower(NoSpaces(token))
  }

  function NormalizeEnvironment(environment: string): Option<string> {
    match Lower(Trim(environment))
    case "" => Some("production")
    case "production" => Some("production")
    case "development" => Some("development")
    case "sandbox" => Some("development")
    case _ => None
  }

  function NormalizeDevice(device: Device): Result<Device, Error> {
    var token := NormalizeToken(device.token);
    var environment := NormalizeEnvironment(device.environment);
    if Trim(device.installation) == "" || Trim(device.watchID) == "" then Err(MissingID)
    else if |token| != 64 || exists c <- token :: !IsHex(c) then Err(InvalidToken)
    else if environment.None? then Err(InvalidEnvironment)
    else if Trim(device.topic) == "" then Err(MissingTopic)
    else Ok(Device(Trim(device.installation), Trim(device.watchID), token, environment.value, Trim(device.topic),
        device.createdAt, device.updatedAt))
  }

  function Upsert(persisted: bool, k: Kept<Table>, device: Device, now: Time, saveOk: bool)
    : (Kept<Table>, Result<Device, Error>)
  {
    var normalized := NormalizeDevice(device);
    if normalized.Err? then (k, normalized)
    else
      var id := normalized.value.watchID;
      var kept := if id in k.mem then k.mem[id].createdAt else normalized.value.createdAt;
      var d := normalized.value.(createdAt := if kept.None? then Some(now) else kept, updatedAt := now);
      var (k', ok) := Commit(persisted, k, k.mem[id := d], saveOk);
      (k', if ok then Ok(d) else Err(NotSaved))
  }

  datatype RemoveResult = Removed | NotFound | RemoveNotSaved

  function Remove(persisted: bool, k: Kept<Table>, installation: string, watchID: string, saveOk: bool)
    : (Kept<Table>, RemoveResult)
  {
    var id := Trim(watchID);
    if id !in k.mem || k.mem[id].installation != Trim(installation) then (k, NotFound)
    else
      var (k', ok) := Commit(persisted, k, k.mem - {id}, saveOk);
      (k', if ok then Removed else RemoveNotSaved)
  }

  function WithoutToken(table: Table, token: string): Table {
    Select(table, (d: Device) => d.token == token)
  }

  function RemoveByToken(persisted: bool, k: Kept<Table>, token: string, saveOk: bool): (Kept<Table>, bool) {
    var left := WithoutToken(k.mem, NormalizeToken(token));
    if left == k.mem then (k, false) else Commit(persisted, k, left, saveOk)
  }

  function WithoutInstallation(table: Table, installation: string): Table {
    Select(table, (d: Device) => d.installation == installation)
  }

  function RemoveForInstallation(persisted: bool, k: Kept<Table>, installation: string, saveOk: bool)
    : (Kept<Table>, bool)
  {
    var left := WithoutInstallation(k.mem, Trim(installation));
    if Trim(installation) == "" || left == k.mem then (k, true) else Commit(persisted, k, left, saveOk)
  }

  /** ForInstallation's answer, in whatever order: each of the installation's devices once. */
  predicate ListsInstallation(devices: seq<Device>, table: Table, installation: string) {
    && (forall d <- devices :: d.watchID in table && table[d.watchID] == d && d.installation == installation)
    && (forall i, j | 0 <= i < j < |devices| :: devices[i].watchID != devices[j].watchID)
    && (forall id <- table | table[id].installation == installation :: table[id] in devices)
  }

  function Load(device: Device): Option<Device> {
    var d := NormalizeDevice(device);
    if d.Err? then None else Some(d.value)
  }

  predicate Keyed(table: Table) {
    Loadable(table, Load, IdOf)
  }

  lemma {:induction false} NoSpacesShape(s: string)
    ensures forall c <- NoSpaces(s) :: !IsSpace(c)
    ensures (forall c <- s :: !IsSpace(c)) ==> NoSpaces(s) == s
  {
    if s != "" {
      NoSpacesShape(s[..|s| - 1]);
      assert s == s[..|s| - 1] + [s[|s| - 1]];
    }
  }

  lemma NormalizeTokenStable(token: string)
    ensures NormalizeToken(NormalizeToken(token)) == NormalizeToken(token)
  {
    hide NoSpaces, IsSpace, Lower;
    NoSpacesShape(token);
    LowerKeepsLetters(NoSpaces(token));
    NoSpacesShape(NormalizeToken(token));
  }

  lemma {:induction false} NoSpacesConcat(s: string, t: string)
    ensures NoSpaces(s + t) == NoSpaces(s) + NoSpaces(t)
  {
    hide IsSpace;
    if t == "" {
      assert s + t == s;
    } else {
      assert (s + t)[..|s + t| - 1] == s + t[..|t| - 1];
      NoSpacesConcat(s, t[..|t| - 1]);
    }
  }

  /** A stored token has no white space and no capital letters, and neither matters in what is sent. */
  lemma NormalizeTokenMeaning(s: string, t: string, space: char)
    requires IsSpace(space)
    ensures forall c <- NormalizeToken(s) :: !IsSpace(c) && !('A' <= c <= 'Z')
    ensures NormalizeToken(s + [space] + t) == NormalizeToken(s + t)
    ensures NormalizeToken(Lower(s)) == NormalizeToken(s)
  {
    hide IsSpace, Lower, NoSpaces;
    NoSpacesShape(s);
    LowerKeepsLetters(NoSpaces(s));
    LowerHasNoCapitals(NoSpaces(s));
    NoSpacesConcat(s, [space]);
    NoSpacesConcat(s + [space], t);
    NoSpacesConcat(s, t);
    SpaceGoes(space);
    assert NoSpaces(s) + "" + NoSpaces(t) == NoSpaces(s) + NoSpaces(t);
    LowerNoSpaces(s);
  }

  lemma SpaceGoes(space: char)
    requires IsSpace(space)
    ensures NoSpaces([space]) == ""
  {
    hide IsSpace;
    assert [space][..0] == "";
  }

  lemma LowerHasNoCapitals(s: string)
    ensures forall c <- Lower(s) :: !('A' <= c <= 'Z')
  {
  }

  lemma LowerSpace(c: char)
    ensures IsSpace(LowerChar(c)) <==> IsSpace(c)
    ensures IsSpace(c) ==> LowerChar(c) == c
    ensures LowerChar(LowerChar(c)) == LowerChar(c)
  {
  }

  lemma {:induction false} LowerNoSpaces(s: string)
    ensures Lower(NoSpaces(Lower(s))) == Lower(NoSpaces(s))
  {
    hide IsSpace, LowerChar;
    if s != "" {
      var init, c := s[..|s| - 1], s[|s| - 1];
      LowerNoSpaces(init);
      LowerSpace(c);
      var low := Lower(s);
      assert low[..|low| - 1] == Lower(init) && low[|low| - 1] == LowerChar(c);
      LowerSnoc(NoSpaces(Lower(init)), LowerChar(c));
      LowerSnoc(NoSpaces(init), c);
      var step := if IsSpace(c) then "" else [LowerChar(c)];
      assert NoSpaces(low) == NoSpaces(Lower(init)) + step;
      assert NoSpaces(s) == NoSpaces(init) + if IsSpace(c) then "" else [c];
      if IsSpace(c) {
        assert NoSpaces(low) == NoSpaces(Lower(init)) && NoSpaces(s) == NoSpaces(init);
      }
    }
  }

  lemma LowerSnoc(s: string, c: char)
    ensures Lower(s + [c]) == Lower(s) + [LowerChar(c)]
  {
  }

  lemma LowerKeepsLetters(s: string)
    requires forall c <- s :: !IsSpace(c)
    ensures (forall c <- Lower(s) :: !IsSpace(c)) && Lower(Lower(s)) == Lower(s)
  {
    forall i | 0 <= i < |s| ensures !IsSpace(LowerChar(s[i])) && LowerChar(LowerChar(s[i])) == LowerChar(s[i]) {
      assert s[i] in s;
    }
  }

  lemma NormalizeEnvironmentStable(environment: string)
    requires NormalizeEnvironment(environment).Some?
    ensures NormalizeEnvironment(NormalizeEnvironment(environment).value) == NormalizeEnvironment(environment)
  {
    TrimFixpoint("production");
    TrimFixpoint("development");
    assert Lower("production") == "production" && Lower("development") == "development";
  }

  /** A normalised device is normal: a stored record loads back as itself. */
  lemma NormalizedLoads(device: Device)
    requires NormalizeDevice(device).Ok?
    ensures Load(NormalizeDevice(device).value) == Some(NormalizeDevice(device).value)
  {
    hide NormalizeToken, NormalizeEnvironment, Trim;
    NormalizeTokenStable(device.token);
    NormalizeEnvironmentStable(device.environment);
    TrimFixpoint(device.installation);
    TrimFixpoint(device.watchID);
    TrimFixpoint(device.topic);
  }

  // ---------------------------------------------------------------- what the callers may rely on

  /** A registration the store accepts: both ids, 64 hexadecimal digits, a known environment and a topic. */
  predicate Acceptable(device: Device) {
    && Trim(device.installation) != "" && Trim(device.watchID) != "" && Trim(device.topic) != ""
    && |NormalizeToken(device.token)| == 64 && (forall c <- NormalizeToken(device.token) :: IsHex(c))
    && Lower(Trim(device.environment)) in {"", "production", "development", "sandbox"}
  }

  /** The stored form of a registration; the first registration of a watch dates it. */
  predicate Registers(d: Device, device: Device, before: Table, now: Time) {
    && d.installation == Trim(device.installation) && d.watchID == Trim(device.watchID)
    && d.topic == Trim(device.topic) && d.token == NormalizeToken(device.token)
    && d.environment == (if Lower(Trim(device.environment)) in {"", "production"} then "production" else "development")
    && d.updatedAt == now
    && var first := if d.watchID in before then before[d.watchID].createdAt else device.createdAt;
       d.createdAt == if first.Some? then first else Some(now)
  }

  predicate UpsertPromise(persisted: bool, k: Kept<Table>, device: Device, now: Time, saveOk: bool, k': Kept<Table>,
                          result: Result<Device, Error>)
  {
    match result
    case Err(NotSaved) => Acceptable(device) && persisted && !saveOk && k' == k
    case Err(_) => !Acceptable(device) && k' == k
    case Ok(d) =>
      && Acceptable(device) && (persisted ==> saveOk) && Registers(d, device, k.mem, now)
      && k'.mem == k.mem[Trim(device.watchID) := d] && k'.saved == if persisted then Some(k'.mem) else k.saved
  }

  lemma UpsertKeepsPromise(persisted: bool, k: Kept<Table>, device: Device, now: Time, saveOk: bool)
    ensures var (k', result) := Upsert(persisted, k, device, now, saveOk);
            UpsertPromise(persisted, k, device, now, saveOk, k', result)
  {
    hide Trim, NormalizeToken, Lower;
  }

  /** Only the installation's own device goes. */
  predicate RemovePromise(persisted: bool, k: Kept<Table>, installation: string, watchID: string, saveOk: bool,
                          k': Kept<Table>, result: RemoveResult)
  {
    var id := Trim(watchID);
    var own := id in k.mem && k.mem[id].installation == Trim(installation);
    match result
    case NotFound => !own && k' == k
    case RemoveNotSaved => own && persisted && !saveOk && k' == k
    case Removed =>
      && own && (persisted ==> saveOk) && k'.mem == k.mem - {id}
      && k'.saved == if persisted then Some(k'.mem) else k.saved
  }

  lemma RemoveKeepsPromise(persisted: bool, k: Kept<Table>, installation: string, watchID: string, saveOk: bool)
    ensures var (k', result) := Remove(persisted, k, installation, watchID, saveOk);
            RemovePromise(persisted, k, installation, watchID, saveOk, k', result)
  {
  }

  class Store {
    const persisted: bool
    var byWatchID: Table
    var file: Option<seq<Device>>

    predicate Valid()
      reads this
    {
      Keyed(byWatchID)
    }

    function State(): Kept<Table>
      reads this
    {
      Kept(byWatchID, if file.None? then None else Some(Rebuild(file.value, Load, IdOf)))
    }

    constructor (persisted: bool)
      ensures Valid() && this.persisted == persisted && State() == Kept(map[], None)
    {
      this.persisted := persisted;
      byWatchID, file := map[], None;
    }

    method Persist(saveOk: bool) returns (ok: bool)
      requires Valid()
      modifies this`file
      ensures ok == (!persisted || saveOk)
      ensures State() == Kept(byWatchID, if persisted && saveOk then Some(byWatchID) else old(State()).saved)
    {
      if !persisted { return true; }
      if saveOk {
        var items := Snapshot(byWatchID, Load, IdOf);
        file := Some(items);
      }
      return saveOk;
    }

    method UpsertDevice(device: Device, now: Time, saveOk: bool) returns (result: Result<Device, Error>)
      requires Valid()
      modifies this
      ensures Valid()
      ensures (State(), result) == Upsert(persisted, old(State()), device, now, saveOk)
      ensures UpsertPromise(persisted, old(State()), device, now, saveOk, State(), result)
    {
      hide Load, Rebuild, UpsertPromise;
      UpsertKeepsPromise(persisted, State(), device, now, saveOk);
      var normalized := NormalizeDevice(device);
      if normalized.Err? { return normalized; }
      var d := normalized.value;
      var previous := byWatchID;
      if d.watchID in byWatchID { d := d.(createdAt := byWatchID[d.watchID].createdAt); }
      if d.createdAt.None? { d := d.(createdAt := Some(now)); }
      d := d.(updatedAt := now);
      TimesDoNotMatter(device, d.createdAt, d.updatedAt);
      byWatchID := byWatchID[d.watchID := d];
      var ok := Persist(saveOk);
      if !ok {
        byWatchID := previous;
        return Err(NotSaved);
      }
      return Ok(d);
    }

    lemma TimesDoNotMatter(device: Device, createdAt: Option<Time>, updatedAt: Time)
      requires NormalizeDevice(device).Ok?
      ensures var d := NormalizeDevice(device).value.(createdAt := createdAt, updatedAt := updatedAt);
              Load(d) == Some(d)
    {
      NormalizedLoads(device.(createdAt := createdAt, updatedAt := updatedAt));
    }

    method ForInstallation(installationID: string) returns (out: seq<Device>)
      requires Valid()
      ensures ListsInstallation(out, State().mem, Trim(installationID))
    {
      hide Trim, Rebuild;
      var installation := Trim(installationID);
      out := [];
      var rest := byWatchID.Keys;
      while rest != {}
        invariant rest <= byWatchID.Keys
        invariant forall d <- out ::
                    && d.watchID in byWatchID.Keys - rest && byWatchID[d.watchID] == d
                    && d.installation == installation
        invariant forall i, j | 0 <= i < j < |out| :: out[i].watchID != out[j].watchID
        invariant forall id <- byWatchID.Keys - rest | byWatchID[id].installation == installation ::
                  byWatchID[id] in out
      {
        var id :| id in rest;
        rest := rest - {id};
        if byWatchID[id].installation == installation { out := out + [byWatchID[id]]; }
      }
    }

    method RemoveDevice(installationID: string, watchID: string, saveOk: bool) returns (result: RemoveResult)
      requires Valid()
      modifies this
      ensures Valid()
      ensures (State(), result) == Remove(persisted, old(State()), installationID, watchID, saveOk)
      ensures RemovePromise(persisted, old(State()), installationID, watchID, saveOk, State(), result)
    {
      var installation, id := Trim(installationID), Trim(watchID);
      if id !in byWatchID || byWatchID[id].installation != installation { return NotFound; }
      var previous := byWatchID;
      byWatchID := byWatchID - {id};
      var ok := Persist(saveOk);
      if !ok {
        byWatchID := previous;
        return RemoveNotSaved;
      }
      return Removed;
    }

    method RemoveToken(token: string, saveOk: bool) returns (ok: bool)
      requires Valid()
      modifies this
      ensures Valid()
      ensures (State(), ok) == RemoveByToken(persisted, old(State()), token, saveOk)
    {
      var normalized := NormalizeToken(token);
      var previous := byWatchID;
      var left, removed := DeleteWhere(byWatchID, (d: Device) => d.token == normalized);
      assert left == WithoutToken(previous, normalized);
      if !removed { return false; }
      byWatchID := left;
      ok := Persist(saveOk);
      if !ok { byWatchID := previous; }
    }

    method RemoveInstallation(installationID: string, saveOk: bool) returns (ok: bool)
      requires Valid()
      modifies this
      ensures Valid()
      ensures (State(), ok) == RemoveForInstallation(persisted, old(State()), installationID, saveOk)
    {
      var installation := Trim(installationID);
      if installation == "" { return true; }
      var previous := byWatchID;
      var left, removed := DeleteWhere(byWatchID, (d: Device) => d.installation == installation);
      assert left == WithoutInstallation(previous, installation);
      if !removed { return true; }
      byWatchID := left;
      ok := Persist(saveOk);
      if !ok { byWatchID := previous; }
    }

    method OpenStore()
      modifies this`byWatchID
      ensures Valid() && State() == Restart(persisted, old(State()))
    {
      byWatchID := map[];
      if !persisted || file.None? { return; }
      for i := 0 to |file.value|
        invariant byWatchID == Rebuild(file.value[..i], Load, IdOf)
        invariant file == old(file) && Valid()
      {
        assert file.value[..i + 1][..i] == file.value[..i];
        var device := Load(file.value[i]);
        if device.None? { continue; }
        NormalizedLoads(file.value[i]);
        byWatchID := byWatchID[device.value.watchID := device.value];
      }
      assert file.value[..|file.value|] == file.value;
    }
  }
}
