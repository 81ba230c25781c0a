/**
  The five stores as the request handlers tie them together (internal/api/server.go), one request at a
  time. Every save may fail. Random draws, the clock, push results and the limiter's verdict are inputs.
 */
module Relay {
  import opened Wrappers
  import opened Snapshots
  import Text
  import I = Installations
  import C = Channels
  import P = Pairings
  import D = Devices
  import L = EventLog

  datatype Relay = Relay(installations: Kept<I.Table>, channels: Kept<C.Table>, pairings: Kept<P.Codes>,
                         devices: Kept<D.Table>, log: L.Log)

  /** How the process was configured. An empty topic means push is off. */
  datatype Env = Env(persisted: bool, maxEvents: nat, sha: string -> string, pairingTTL: Time,
                     topic: string, environment: string, canPush: bool)

  function LogConfig(env: Env): L.Config {
    L.Config(env.maxEvents, env.persisted)
  }

  // ---------------------------------------------------------------- authentication

  datatype Auth =
    | Unknown
    | ByInstallation(token: string, installation: string)
    | ByProducer(channel: string, installation: string)
    | ByWatch(channel: string, installation: string)

  /** The first table that knows the token decides: installations, producers, watches. */
  ghost function Resolve(r: Relay, bearer: Option<string>): Auth {
    if bearer.None? || Text.Trim(bearer.value) == "" then Unknown
    else
      var token := Text.Trim(bearer.value);
      var i, p, w := I.Lookup(r.installations.mem, token), C.Lookup(r.channels.mem, C.Producer, token),
                     C.Lookup(r.channels.mem, C.Watch, token);
      if i.Some? then ByInstallation(token, i.value.id)
      else if p.Some? then ByProducer(p.value.id, p.value.installation)
      else if w.Some? then ByWatch(w.value.id, w.value.installation)
      else Unknown
  }

  /** resolveAuth also touches an installation's token, ignoring a failed save. */
  ghost function Touched(env: Env, r: Relay, auth: Auth, now: Time, saveOk: bool): Relay {
    if auth.ByInstallation? then r.(installations := I.Touch(env.persisted, r.installations, auth.token, now, saveOk).0)
    else r
  }

  // ---------------------------------------------------------------- requests

  datatype Push = Sent | PushFailed | TokenInvalid(saveOk: bool)

  datatype Saves = Saves(touch: bool, first: bool, second: bool, third: bool, fourth: bool, fifth: bool)

  datatype Request =
    | CreateInstallation(bearer: Option<string>, allowed: bool, id: string, token: string, channel: string,
                         producer: string, now: Time, saves: Saves)
    | DeleteInstallation(bearer: Option<string>, now: Time, saves: Saves)
    | CreatePairingCode(bearer: Option<string>, named: string, channel: string, producer: string,
                        tries: seq<string>, code: string, now: Time, saves: Saves)
    | ClaimPairingCode(allowed: bool, raw: string, pick: string, watchID: string, pushToken: string,
                       session: string, now: Time, saves: Saves)
    | CreateEvent(bearer: Option<string>, allowed: bool, input: L.Input, order: seq<D.Device>, pushes: seq<Push>,
                  now: Time, saves: Saves)
    | RegisterDevice(bearer: Option<string>, allowed: bool, watchID: string, pushToken: string, now: Time, saves: Saves)
    | DeleteDevice(bearer: Option<string>, watchID: string, now: Time, saves: Saves)
    | TestNotification(bearer: Option<string>, allowed: bool, order: seq<D.Device>, pushes: seq<Push>, now: Time,
        saves: Saves)
    | ReadEvents(bearer: Option<string>, after: int, now: Time, saves: Saves)
    | RestartProcess(now: Time)

  datatype Reply =
    | Success | NoContent | BadRequest | Unauthorized | TooManyRequests | ServerError | Unavailable
    | Created(token: string, installation: string, channel: string, producer: string)
    | Code(clear: string, code: string)
    | Session(session: string, channel: string)
    | ClaimRefused(why: P.ClaimResult)
    | EventReply(event: L.Event, deduplicated: bool)
    | SentCount(sent: nat)
    | Events(events: seq<L.Event>)

  /** The strings a request draws at random. */
  function Draws(q: Request): seq<string> {
    match q
    case CreateInstallation(_, _, id, token, channel, producer, _, _) => [id, token, channel, producer]
    case CreatePairingCode(_, _, channel, producer, _, code, _, _) => [channel, producer, code]
    case ClaimPairingCode(_, _, _, _, _, session, _, _) => [session]
    case _ => []
  }

  ghost function EnsureChannel(env: Env, r: Relay, installation: string, id: string, producer: string, now: Time,
      ok: bool)
    : (Relay, Result<C.Channel, C.Error>)
  {
    var (channels, result) := C.Ensure(env.persisted, r.channels, installation, id, producer, now, ok);
    (r.(channels := channels), result)
  }

  /** What a failed lookup leaves in the source's variable; no channel is ever ensured for it. */
  const NO_INSTALLATION := I.Installation("", "", 0, 0)

  /** The installation that asked, or a new one. */
  ghost function Identify(env: Env, r: Relay, auth: Auth, id: string, token: string, now: Time, ok: bool)
    : (Relay, Option<I.Installation>)
  {
    if auth.ByInstallation? then
      var known := I.Lookup(r.installations.mem, auth.token);
      (r, Some(if known.Some? then known.value else NO_INSTALLATION))
    else
      var (installations, created) := I.Create(env.persisted, r.installations, id, token, now, ok);
      (r.(installations := installations), created)
  }

  /** A new or known installation with its channel. */
  ghost function Enroll(env: Env, r: Relay, auth: Auth, q: Request): (Relay, Reply)
    requires q.CreateInstallation?
  {
    var (r, installation) := Identify(env, r, auth, q.id, q.token, q.now, q.saves.first);
    if installation.None? then (r, ServerError)
    else
      var (r, channel) := EnsureChannel(env, r, installation.value.id, q.channel, q.producer, q.now, q.saves.second);
      (r, if channel.Err? then ServerError
          else Created(installation.value.token, installation.value.id, channel.value.id, channel.value.producer))
  }

  ghost function HandleCreateInstallation(env: Env, r: Relay, q: Request): (Relay, Reply)
    requires q.CreateInstallation?
  {
    var auth := Resolve(r, q.bearer);
    var r := Touched(env, r, auth, q.now, q.saves.touch);
    if !auth.ByInstallation? && !q.allowed then (r, TooManyRequests) else Enroll(env, r, auth, q)
  }

  /** The records cleaned first: pairings, devices, the channel's events. */
  ghost function DeleteRecords(env: Env, r: Relay, installation: string, saves: Saves): (Relay, bool) {
    var channel := C.Lookup(r.channels.mem, C.Installation, Text.Trim(installation));
    var (pairings, ok1) := P.Remove(env.persisted, r.pairings, installation, saves.first);
    var r := r.(pairings := pairings);
    if !ok1 then (r, false) else
    var (devices, ok2) := D.RemoveForInstallation(env.persisted, r.devices, installation, saves.second);
    var r := r.(devices := devices);
    if !ok2 then (r, false) else
    var (log, ok3) := if channel.Some? then L.Remove(LogConfig(env), r.log, channel.value.id, saves.third)
        else (r.log, true);
    (r.(log := log), ok3)
  }

  /** The records cleaned last: the channel, then the installation. */
  ghost function DeleteIdentity(env: Env, r: Relay, installation: string, saves: Saves): (Relay, Reply) {
    var (channels, ok4) := C.Remove(env.persisted, r.channels, installation, saves.fourth);
    var r := r.(channels := channels);
    if !ok4 then (r, ServerError) else
    var (installations, ok5) := I.Remove(env.persisted, r.installations, installation, saves.fifth);
    (r.(installations := installations), if ok5 then NoContent else ServerError)
  }

  /** The cleanup of one installation, stopping at the first save that fails. */
  ghost function Delete(env: Env, r: Relay, installation: string, saves: Saves): (Relay, Reply) {
    var (r, ok3) := DeleteRecords(env, r, installation, saves);
    if ok3 then DeleteIdentity(env, r, installation, saves) else (r, ServerError)
  }

  ghost function HandleDeleteInstallation(env: Env, r: Relay, q: Request): (Relay, Reply)
    requires q.DeleteInstallation?
  {
    var auth := Resolve(r, q.bearer);
    var r := Touched(env, r, auth, q.now, q.saves.touch);
    if !auth.ByInstallation? then (r, Unauthorized) else Delete(env, r, auth.installation, q.saves)
  }

  ghost function IssueCode(env: Env, r: Relay, installation: string, q: Request): (Relay, Reply)
    requires q.CreatePairingCode? && |q.tries| == P.TRIES
  {
    var (r, channel) := EnsureChannel(env, r, installation, q.channel, q.producer, q.now, q.saves.first);
    if channel.Err? then (r, ServerError)
    else
      var (pairings, created) := P.Create(env.sha, env.persisted, r.pairings, installation, channel.value.id,
                                          env.pairingTTL, q.now, q.tries, q.code, q.saves.second);
      (r.(pairings := pairings), if created.Created? then Code(created.clear, created.code.id) else ServerError)
  }

  ghost function HandleCreatePairingCode(env: Env, r: Relay, q: Request): (Relay, Reply)
    requires q.CreatePairingCode? && |q.tries| == P.TRIES
  {
    var auth := Resolve(r, q.bearer);
    var r := Touched(env, r, auth, q.now, q.saves.touch);
    if !auth.ByInstallation? || (q.named != "" && Text.Trim(q.named) != auth.installation) then (r, Unauthorized)
    else IssueCode(env, r, auth.installation, q)
  }

  function Registration(env: Env, installation: string, watchID: string, pushToken: string): D.Device {
    D.Device(installation, watchID, pushToken, env.environment, env.topic, None, 0)
  }

  /** A claimed code opens a watch session; a failing device registration is ignored. */
  ghost function OpenSession(env: Env, r: Relay, installation: string, q: Request): (Relay, Reply)
    requires q.ClaimPairingCode?
  {
    var (channels, channel) := C.Rotate(env.persisted, r.channels, C.Watch, installation, q.session, q.now,
        q.saves.second);
    var r := r.(channels := channels);
    if channel.Err? then (r, ServerError)
    else
      var r := if Text.Trim(q.pushToken) != "" && env.topic != ""
               then r.(devices := D.Upsert(env.persisted, r.devices,
                   Registration(env, installation, q.watchID, q.pushToken),
                                           q.now, q.saves.third).0)
               else r;
      (r, Session(channel.value.watch, channel.value.id))
  }

  ghost function HandleClaimPairingCode(env: Env, r: Relay, q: Request): (Relay, Reply)
    requires q.ClaimPairingCode?
  {
    if !q.allowed then (r, TooManyRequests)
    else if Text.Trim(q.watchID) == "" then (r, BadRequest)
    else
      var (pairings, claimed) := P.Claim(env.sha, env.persisted, r.pairings, q.raw, q.pick, q.now, q.saves.first);
      var r := r.(pairings := pairings);
      if claimed.Claimed? then OpenSession(env, r, claimed.code.installation, q) else (r, ClaimRefused(claimed))
  }

  /** deliverEvent: pushes to each listed device; a token the push service calls invalid is removed. */
  function Deliver(persisted: bool, k: Kept<D.Table>, order: seq<D.Device>, pushes: seq<Push>): (Kept<D.Table>, nat)
    requires |pushes| == |order|
  {
    if order == [] then (k, 0)
    else
      var n := |order| - 1;
      var (k, sent) := Deliver(persisted, k, order[..n], pushes[..n]);
      match pushes[n]
      case Sent => (k, sent + 1)
      case PushFailed => (k, sent)
      case TokenInvalid(saveOk) => (D.RemoveByToken(persisted, k, order[n].token, saveOk).0, sent)
  }

  /** The installation's devices in the order delivery meets them; none when push is off. */
  predicate DeliveryOrder(env: Env, k: Kept<D.Table>, installation: string, order: seq<D.Device>, pushes: seq<Push>) {
    && |pushes| == |order|
    && if env.canPush then D.ListsInstallation(order, k.mem, Text.Trim(installation)) else order == []
  }

  ghost function RecordEvent(env: Env, r: Relay, channel: string, q: Request): (Relay, Reply)
    requires q.CreateEvent? && |q.pushes| == |q.order|
  {
    var (log, outcome) := L.Append(LogConfig(env), r.log, q.input.(channel := channel), q.now, q.saves.first);
    var r := r.(log := log);
    match outcome
    case Appended(event) => (r.(devices := Deliver(env.persisted, r.devices, q.order, q.pushes).0),
        EventReply(event, false))
    case Duplicate(event) => (r, EventReply(event, true))
    case _ => (r, ServerError)
  }

  ghost function HandleCreateEvent(env: Env, r: Relay, q: Request): (Relay, Reply)
    requires q.CreateEvent? && |q.pushes| == |q.order|
  {
    var auth := Resolve(r, q.bearer);
    var r := Touched(env, r, auth, q.now, q.saves.touch);
    if !auth.ByProducer? then (r, Unauthorized)
    else if !q.allowed then (r, TooManyRequests)
    else if q.input.kind.None? then (r, BadRequest)
    else RecordEvent(env, r, auth.channel, q)
  }

  ghost function HandleRegisterDevice(env: Env, r: Relay, q: Request): (Relay, Reply)
    requires q.RegisterDevice?
  {
    var auth := Resolve(r, q.bearer);
    var r := Touched(env, r, auth, q.now, q.saves.touch);
    if !auth.ByWatch? then (r, Unauthorized)
    else if !q.allowed then (r, TooManyRequests)
    else if env.topic == "" then (r, Unavailable)
    else
      var (devices, result) := D.Upsert(env.persisted, r.devices,
          Registration(env, auth.installation, q.watchID, q.pushToken),
                                        q.now, q.saves.first);
      (r.(devices := devices), if result.Ok? then Success else BadRequest)
  }

  ghost function HandleDeleteDevice(env: Env, r: Relay, q: Request): (Relay, Reply)
    requires q.DeleteDevice?
  {
    var auth := Resolve(r, q.bearer);
    var r := Touched(env, r, auth, q.now, q.saves.touch);
    if !auth.ByWatch? then (r, Unauthorized)
    else if Text.Trim(q.watchID) == "" then (r, BadRequest)
    else
      var (devices, result) := D.Remove(env.persisted, r.devices, auth.installation, q.watchID, q.saves.first);
      (r.(devices := devices), if result.RemoveNotSaved? then ServerError else NoContent)
  }

  ghost function HandleTestNotification(env: Env, r: Relay, q: Request): (Relay, Reply)
    requires q.TestNotification? && |q.pushes| == |q.order|
  {
    var auth := Resolve(r, q.bearer);
    var r := Touched(env, r, auth, q.now, q.saves.touch);
    if !auth.ByWatch? then (r, Unauthorized)
    else if !q.allowed then (r, TooManyRequests)
    else
      var (devices, sent) := Deliver(env.persisted, r.devices, q.order, q.pushes);
      (r.(devices := devices), SentCount(sent))
  }

  /** A poll: only a watch may read, and only its own channel. */
  ghost function HandleReadEvents(env: Env, r: Relay, q: Request): (Relay, Reply)
    requires q.ReadEvents?
  {
    var auth := Resolve(r, q.bearer);
    var r := Touched(env, r, auth, q.now, q.saves.touch);
    (r, if auth.ByWatch? then Events(L.Since(r.log.mem.events, Text.Trim(auth.channel), q.after)) else Unauthorized)
  }

  ghost function HandleRestart(env: Env, r: Relay, now: Time): Relay {
    Relay(Restart(env.persisted, r.installations), Restart(env.persisted, r.channels),
        Restart(env.persisted, r.pairings),
          Restart(env.persisted, r.devices), L.Reopen(LogConfig(env), r.log, now))
  }

  /** The answers that come after a delivery: a newly appended event, a test's count. */
  predicate Delivers(reply: Reply) {
    reply.SentCount? || (reply.EventReply? && !reply.deduplicated)
  }

  /** A new random string. */
  predicate Fresh(x: string, used: set<string>) {
    x !in used && x != "" && Text.Trimmed(x)
  }

  predicate FreshDraws(draws: seq<string>, used: set<string>) {
    && (forall i | 0 <= i < |draws| :: Fresh(draws[i], used))
    && (forall i, j | 0 <= i < j < |draws| :: draws[i] != draws[j])
  }

  /** Whether the inputs of the request fit: draws are new, listings list, candidates are newest. */
  ghost predicate Fits(env: Env, r: Relay, used: set<string>, q: Request) {
    && FreshDraws(Draws(q), used)
    && match q
       case CreatePairingCode(_, _, _, _, tries, _, _, _) => |tries| == P.TRIES
       case ClaimPairingCode(allowed, raw, pick, watchID, _, _, _, _) =>
         allowed && Text.Trim(watchID) != "" ==> P.CanPick(env.sha, r.pairings.mem, raw, pick)
       case CreateEvent(bearer, _, _, order, pushes, _, _) => |pushes| == |order| &&
         (Delivers(HandleCreateEvent(env, r, q).1) ==>
             DeliveryOrder(env, r.devices, Resolve(r, bearer).installation, order, pushes))
       case TestNotification(bearer, _, order, pushes, _, _) => |pushes| == |order| &&
         (Delivers(HandleTestNotification(env, r, q).1) ==>
             DeliveryOrder(env, r.devices, Resolve(r, bearer).installation, order, pushes))
       case _ => true
  }

  ghost function Handle(env: Env, r: Relay, used: set<string>, q: Request): (Relay, Reply)
    requires Fits(env, r, used, q)
  {
    match q
    case CreateInstallation(_, _, _, _, _, _, _, _) => HandleCreateInstallation(env, r, q)
    case DeleteInstallation(_, _, _) => HandleDeleteInstallation(env, r, q)
    case CreatePairingCode(_, _, _, _, _, _, _, _) => HandleCreatePairingCode(env, r, q)
    case ClaimPairingCode(_, _, _, _, _, _, _, _) => HandleClaimPairingCode(env, r, q)
    case CreateEvent(_, _, _, _, _, _, _) => HandleCreateEvent(env, r, q)
    case RegisterDevice(_, _, _, _, _, _) => HandleRegisterDevice(env, r, q)
    case DeleteDevice(_, _, _, _) => HandleDeleteDevice(env, r, q)
    case TestNotification(_, _, _, _, _, _) => HandleTestNotification(env, r, q)
    case ReadEvents(_, _, _, _) => HandleReadEvents(env, r, q)
    case RestartProcess(now) => (HandleRestart(env, r, now), Success)
  }
}
