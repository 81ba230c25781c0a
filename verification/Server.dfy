/**
  The request handlers over the five live stores (internal/api/server.go): each calls store methods in
  order and returns early on the first failure. Every method is tied to its meaning in Relay.
 */
module Server {
  import opened Wrappers
  import opened Snapshots
  import opened Relay
  import opened RelayRuns
  import Text
  import I = Installations
  import C = Channels
  import P = Pairings
  import D = Devices
  import L = EventLog

  /** The push service's answer for each device in turn. */
  function Verdicts(order: seq<D.Device>, verdict: D.Device -> Push): seq<Push> {
    seq(|order|, i requires 0 <= i < |order| => verdict(order[i]))
  }

  lemma DeliverStep(persisted: bool, k: Kept<D.Table>, order: seq<D.Device>, pushes: seq<Push>, i: nat)
    requires |pushes| == |order| && i < |order|
    ensures var (before, sent) := Deliver(persisted, k, order[..i], pushes[..i]);
            Deliver(persisted, k, order[..i + 1], pushes[..i + 1]) ==
              match pushes[i]
              case Sent => (before, sent + 1)
              case PushFailed => (before, sent)
              case TokenInvalid(saveOk) => (D.RemoveByToken(persisted, before, order[i].token, saveOk).0, sent)
  {
    assert order[..i + 1][..i] == order[..i] && pushes[..i + 1][..i] == pushes[..i];
  }

  class Handler {
    const installations: I.Store
    const channels: C.Store
    const watchPairings: P.Store
    const devices: D.Store
    const store: L.Store
    const pairingTTL: Time
    const apnsTopic: string
    const apnsEnvironment: string
    const hasPushSender: bool

    function Configuration(): Env {
      Env(store.persisted, store.maxEvents, watchPairings.sha, pairingTTL, apnsTopic, apnsEnvironment, hasPushSender)
    }

    function State(): Relay
      reads installations, channels, watchPairings, devices, store
    {
      Relay(installations.State(), channels.State(), watchPairings.State(), devices.State(), store.State())
    }

    predicate Valid()
      reads installations, channels, watchPairings, devices, store
    {
      && installations.Valid() && channels.Valid() && watchPairings.Valid() && devices.Valid()
      && store.persisted == installations.persisted == channels.persisted == watchPairings.persisted
         == devices.persisted
    }

    constructor (installations: I.Store, channels: C.Store, watchPairings: P.Store, devices: D.Store, store: L.Store,
                 pairingTTL: Time, topic: string, environment: string, hasPushSender: bool)
      ensures this.installations == installations && this.channels == channels && this.watchPairings == watchPairings
              && this.devices == devices && this.store == store && this.hasPushSender == hasPushSender
      ensures this.pairingTTL == if pairingTTL > 0 then pairingTTL else 600 * SECOND
      ensures this.apnsTopic == Text.Trim(topic)
      ensures var lowered := Text.Lower(Text.Trim(environment));
              this.apnsEnvironment == if lowered == "" then "production" else lowered
    {
      this.installations, this.channels, this.watchPairings, this.devices, this.store :=
        installations, channels, watchPairings, devices, store;
      this.pairingTTL := if pairingTTL <= 0 then 600 * SECOND else pairingTTL;
      this.apnsTopic, this.hasPushSender := Text.Trim(topic), hasPushSender;
      this.apnsEnvironment := if Text.Lower(Text.Trim(environment)) == "" then "production"
          else Text.Lower(Text.Trim(environment));
    }

    method ResolveAuth(bearer: Option<string>, now: Time, saveOk: bool) returns (auth: Auth)
      requires Valid()
      modifies installations
      ensures Valid() && auth == Resolve(old(State()), bearer) && (auth.ByInstallation? ==> Text.Trimmed(auth.token))
      ensures State() == Touched(Configuration(), old(State()), auth, now, saveOk)
    {
      if bearer.None? || Text.Trim(bearer.value) == "" { return Unknown; }
      var token := Text.Trim(bearer.value);
      Text.TrimFixpoint(bearer.value);
      var i := installations.GetByToken(token);
      if i.Some? {
        var _ := installations.TouchToken(token, now, saveOk);
        return ByInstallation(token, i.value.id);
      }
      var p := channels.GetByProducerToken(token);
      if p.Some? { return ByProducer(p.value.id, p.value.installation); }
      var w := channels.GetByWatchToken(token);
      if w.Some? { return ByWatch(w.value.id, w.value.installation); }
      return Unknown;
    }

    /** The first half of the cleanup: pairings, devices, the channel's events. */
    method DeleteRecordsOf(installation: string, saves: Saves) returns (ok: bool)
      requires Valid()
      modifies watchPairings, devices, store
      ensures Valid() && (State(), ok) == DeleteRecords(Configuration(), old(State()), installation, saves)
    {
      hide I.Store.State, C.Store.State, P.Store.State, D.Store.State, L.Store.State, I.Store.Valid, C.Store.Valid,
           P.Store.Valid, D.Store.Valid, P.Remove, D.RemoveForInstallation, L.Remove, C.Lookup, Text.Trim;
      var channel := channels.GetByInstallation(installation);
      ok := watchPairings.RemoveForInstallation(installation, saves.first);
      if !ok { return; }
      ok := devices.RemoveInstallation(installation, saves.second);
      if !ok { return; }
      if channel.Some? { ok := store.RemoveForChannel(channel.value.id, saves.third); }
    }

    method DeleteCurrent(q: Request) returns (reply: Reply)
      requires Valid() && q.DeleteInstallation?
      modifies installations, channels, watchPairings, devices, store
      ensures Valid() && (State(), reply) == HandleDeleteInstallation(Configuration(), old(State()), q)
    {
      hide I.Store.State, C.Store.State, P.Store.State, D.Store.State, L.Store.State, I.Store.Valid, C.Store.Valid,
           P.Store.Valid, D.Store.Valid, DeleteRecords, C.Remove, I.Remove, Resolve, Touched, Text.Trim;
      var auth := ResolveAuth(q.bearer, q.now, q.saves.touch);
      if !auth.ByInstallation? { return Unauthorized; }
      var ok := DeleteRecordsOf(auth.installation, q.saves);
      if !ok { return ServerError; }
      ok := channels.RemoveByInstallation(auth.installation, q.saves.fourth);
      if !ok { return ServerError; }
      ok := installations.RemoveByID(auth.installation, q.saves.fifth);
      return if ok then NoContent else ServerError;
    }

    /** What was never drawn is in no table and no index. */
    lemma NotStored(x: string, used: set<string>)
      requires Valid() && Drawn(State(), used) && Fresh(x, used)
      ensures x !in installations.byID && x !in installations.byToken
      ensures x !in channels.byID && x !in channels.byProducerToken && x !in channels.byWatchToken
    {
      hide I.Keyed, C.Keyed, I.Clean, C.Clean, Rebuild, P.Store.State, D.Store.State, L.Store.State, P.Store.Valid,
           D.Store.Valid, Text.Trimmed;
    }

    /** The caller's installation or a new one, with its channel. */
    method EnrollCaller(auth: Auth, q: Request, ghost used: set<string>) returns (reply: Reply)
      requires Valid() && q.CreateInstallation? && Drawn(State(), used)
               && (auth.ByInstallation? ==> Text.Trimmed(auth.token))
      requires Fresh(q.id, used) && Fresh(q.token, used) && Fresh(q.channel, used) && Fresh(q.producer, used)
      modifies installations, channels
      ensures Valid() && (State(), reply) == Enroll(Configuration(), old(State()), auth, q)
    {
      hide I.Store.State, C.Store.State, P.Store.State, D.Store.State, L.Store.State, I.Store.Valid, C.Store.Valid,
           P.Store.Valid, D.Store.Valid, Drawn, I.Lookup, I.Create, C.Ensure, Text.Trim;
      NotStored(q.id, used);
      NotStored(q.token, used);
      NotStored(q.channel, used);
      NotStored(q.producer, used);
      if auth.ByInstallation? { KnownTokenTrimmed(auth); }
      var installation := NO_INSTALLATION;
      if auth.ByInstallation? {
        var known := installations.GetByToken(auth.token);
        if known.Some? { installation := known.value; }
      } else {
        var created := installations.CreateInstallation(q.id, q.token, q.now, q.saves.first);
        if created.None? { return ServerError; }
        installation := created.value;
      }
      var channel := channels.EnsureForInstallation(installation.id, q.channel, q.producer, q.now, q.saves.second);
      if channel.Err? { return ServerError; }
      return Created(installation.token, installation.id, channel.value.id, channel.value.producer);
    }

    lemma KnownTokenTrimmed(auth: Auth)
      requires auth.ByInstallation?
      ensures Text.Trimmed(auth.token) ==> Text.Trim(auth.token) == auth.token
    {
      Text.TrimFixpoint(auth.token);
    }

    method CreateInstallationRequest(q: Request, ghost used: set<string>) returns (reply: Reply)
      requires Valid() && q.CreateInstallation? && Drawn(State(), used)
      requires Fresh(q.id, used) && Fresh(q.token, used) && Fresh(q.channel, used) && Fresh(q.producer, used)
      modifies installations, channels
      ensures Valid() && (State(), reply) == HandleCreateInstallation(Configuration(), old(State()), q)
    {
      hide I.Store.State, C.Store.State, P.Store.State, D.Store.State, L.Store.State, I.Store.Valid, C.Store.Valid,
           P.Store.Valid, D.Store.Valid, Drawn, Fresh, Resolve, Touched, Enroll, Text.Trimmed;
      TouchDrawsNothing(q.bearer, q.now, q.saves.touch, used);
      var auth := ResolveAuth(q.bearer, q.now, q.saves.touch);
      if !auth.ByInstallation? && !q.allowed { return TooManyRequests; }
      reply := EnrollCaller(auth, q, used);
    }

    lemma TouchedDraws(env: Env, r: Relay, auth: Auth, now: Time, ok: bool, used: set<string>)
      requires I.Keyed(r.installations.mem) && Drawn(r, used)
      ensures Drawn(Touched(env, r, auth, now, ok), used)
    {
      hide I.Lookup, I.WellFormed, Text.Trim;
      if auth.ByInstallation? { FoundByToken(r.installations.mem, Text.Trim(auth.token)); }
    }

    lemma TouchDrawsNothing(bearer: Option<string>, now: Time, ok: bool, used: set<string>)
      requires Valid() && Drawn(State(), used)
      ensures Drawn(Touched(Configuration(), State(), Resolve(State(), bearer), now, ok), used)
    {
      hide Valid, State, Drawn, Touched, Resolve, I.Keyed;
      KnownKeyed();
      TouchedDraws(Configuration(), State(), Resolve(State(), bearer), now, ok, used);
    }

    lemma KnownKeyed()
      requires Valid()
      ensures I.Keyed(State().installations.mem)
    {
      hide I.Keyed;
    }

    /** The channel is ensured and a code is created for it. */
    method IssueCodeFor(installation: string, q: Request, ghost used: set<string>) returns (reply: Reply)
      requires Valid() && q.CreatePairingCode? && |q.tries| == P.TRIES && Drawn(State(), used)
      requires Fresh(q.channel, used) && Fresh(q.producer, used) && Fresh(q.code, used)
      requires forall s :: Text.Trimmed(watchPairings.sha(s))
      modifies channels, watchPairings
      ensures Valid() && (State(), reply) == IssueCode(Configuration(), old(State()), installation, q)
    {
      hide I.Store.State, C.Store.State, P.Store.State, D.Store.State, L.Store.State, I.Store.Valid, C.Store.Valid,
           P.Store.Valid, D.Store.Valid, Drawn, C.Ensure, P.Create, Text.Trim;
      NotStored(q.channel, used);
      NotStored(q.producer, used);
      var channel := channels.EnsureForInstallation(installation, q.channel, q.producer, q.now, q.saves.first);
      if channel.Err? { return ServerError; }
      var created := watchPairings.CreateCode(installation, channel.value.id, pairingTTL, q.now, q.tries, q.code,
          q.saves.second);
      return if created.Created? then Code(created.clear, created.code.id) else ServerError;
    }

    method CreatePairingCodeRequest(q: Request, ghost used: set<string>) returns (reply: Reply)
      requires Valid() && q.CreatePairingCode? && |q.tries| == P.TRIES && Drawn(State(), used)
      requires Fresh(q.channel, used) && Fresh(q.producer, used) && Fresh(q.code, used)
      requires forall s :: Text.Trimmed(watchPairings.sha(s))
      modifies installations, channels, watchPairings
      ensures Valid() && (State(), reply) == HandleCreatePairingCode(Configuration(), old(State()), q)
    {
      hide I.Store.State, C.Store.State, P.Store.State, D.Store.State, L.Store.State, I.Store.Valid, C.Store.Valid,
           P.Store.Valid, D.Store.Valid, Drawn, Fresh, Resolve, Touched, IssueCode, Text.Trim, Text.Trimmed;
      TouchDrawsNothing(q.bearer, q.now, q.saves.touch, used);
      var auth := ResolveAuth(q.bearer, q.now, q.saves.touch);
      if !auth.ByInstallation? { return Unauthorized; }
      if q.named != "" && Text.Trim(q.named) != auth.installation { return Unauthorized; }
      reply := IssueCodeFor(auth.installation, q, used);
    }

    /** What follows an accepted code. */
    method OpenSessionFor(installation: string, q: Request) returns (reply: Reply)
      requires Valid() && q.ClaimPairingCode? && q.session != "" && Text.Trimmed(q.session)
               && q.session !in channels.byWatchToken
      modifies channels, devices
      ensures Valid() && (State(), reply) == OpenSession(Configuration(), old(State()), installation, q)
    {
      hide I.Store.State, C.Store.State, P.Store.State, D.Store.State, L.Store.State, I.Store.Valid, C.Store.Valid,
           P.Store.Valid, D.Store.Valid, C.Rotate, D.Upsert, Text.Trim, Text.Trimmed;
      var channel := channels.RotateWatchSession(installation, q.session, q.now, q.saves.second);
      if channel.Err? { return ServerError; }
      if Text.Trim(q.pushToken) != "" && apnsTopic != "" {
        var _ := devices.UpsertDevice(Registration(Configuration(), installation, q.watchID, q.pushToken), q.now,
            q.saves.third);
      }
      return Session(channel.value.watch, channel.value.id);
    }

    /** `pick` is the code the map order led to. */
    method ClaimPairingCodeRequest(q: Request, ghost used: set<string>) returns (reply: Reply, pick: string)
      requires Valid() && q.ClaimPairingCode? && Drawn(State(), used) && Fresh(q.session, used)
      modifies channels, watchPairings, devices
      ensures Valid() && (State(), reply) == HandleClaimPairingCode(Configuration(), old(State()), q.(pick := pick))
      ensures Fits(Configuration(), old(State()), used, q.(pick := pick))
    {
      hide I.Store.State, C.Store.State, P.Store.State, D.Store.State, L.Store.State, I.Store.Valid, C.Store.Valid,
           P.Store.Valid, D.Store.Valid, Drawn, P.Claim, P.CanPick, OpenSession, Text.Trim, Text.Trimmed;
      NotStored(q.session, used);
      assert FreshDraws([q.session], used);
      if !q.allowed { return TooManyRequests, ""; }
      if Text.Trim(q.watchID) == "" { return BadRequest, ""; }
      var claimed: P.ClaimResult;
      claimed, pick := watchPairings.ClaimCode(q.raw, q.now, q.saves.first);
      if !claimed.Claimed? { return ClaimRefused(claimed), pick; }
      reply := OpenSessionFor(claimed.code.installation, q.(pick := pick));
    }

    /** The loop of deliverEvent. */
    method DeliverTo(order: seq<D.Device>, verdict: D.Device -> Push) returns (sent: nat)
      requires devices.Valid()
      modifies devices
      ensures devices.Valid()
      ensures (devices.State(), sent)
              == Deliver(devices.persisted, old(devices.State()), order, Verdicts(order, verdict))
    {
      hide D.Store.Valid, D.Store.State, D.RemoveByToken;
      sent := 0;
      ghost var before, pushes := devices.State(), Verdicts(order, verdict);
      for i := 0 to |order|
        invariant devices.Valid()
        invariant (devices.State(), sent) == Deliver(devices.persisted, before, order[..i], pushes[..i])
      {
        DeliverStep(devices.persisted, before, order, pushes, i);
        match verdict(order[i]) {
          case Sent => sent := sent + 1;
          case PushFailed =>
          case TokenInvalid(saveOk) => var _ := devices.RemoveToken(order[i].token, saveOk);
        }
      }
      assert order[..|order|] == order && pushes[..|order|] == pushes;
    }

    /** deliverEvent: the push service's verdict on each device is an input. */
    method DeliverEvent(installation: string, verdict: D.Device -> Push) returns (sent: nat, order: seq<D.Device>)
      requires devices.Valid()
      modifies devices
      ensures devices.Valid()
      ensures DeliveryOrder(Configuration(), old(devices.State()), installation, order, Verdicts(order, verdict))
      ensures (devices.State(), sent)
              == Deliver(devices.persisted, old(devices.State()), order, Verdicts(order, verdict))
    {
      if !hasPushSender { return 0, []; }
      order := devices.ForInstallation(installation);
      sent := DeliverTo(order, verdict);
    }

    method CreateEventRequest(q: Request, verdict: D.Device -> Push) returns (reply: Reply, order: seq<D.Device>)
      requires Valid() && q.CreateEvent?
      modifies installations, devices, store
      ensures Valid()
      ensures var delivered := CreateEvent(q.bearer, q.allowed, q.input, order, Verdicts(order, verdict), q.now,
              q.saves);
              && Fits(Configuration(), old(State()), {}, delivered)
              && (State(), reply) == HandleCreateEvent(Configuration(), old(State()), delivered)
    {
      hide I.Store.State, C.Store.State, P.Store.State, D.Store.State, L.Store.State, I.Store.Valid, C.Store.Valid,
           P.Store.Valid, D.Store.Valid, Resolve, Touched, L.Append, Deliver, DeliveryOrder, Text.Trimmed;
      order := [];
      var auth := ResolveAuth(q.bearer, q.now, q.saves.touch);
      if !auth.ByProducer? { return Unauthorized, order; }
      if !q.allowed { return TooManyRequests, order; }
      if q.input.kind.None? { return BadRequest, order; }
      var outcome := store.AppendUnique(q.input.(channel := auth.channel), q.now, q.saves.first);
      if outcome.Duplicate? { return EventReply(outcome.event, true), order; }
      if !outcome.Appended? { return ServerError, order; }
      var _, listed := DeliverEvent(auth.installation, verdict);
      return EventReply(outcome.event, false), listed;
    }

    method RegisterDeviceRequest(q: Request) returns (reply: Reply)
      requires Valid() && q.RegisterDevice?
      modifies installations, devices
      ensures Valid() && (State(), reply) == HandleRegisterDevice(Configuration(), old(State()), q)
    {
      hide I.Store.State, C.Store.State, P.Store.State, D.Store.State, L.Store.State, I.Store.Valid, C.Store.Valid,
           P.Store.Valid, D.Store.Valid, Resolve, Touched, D.Upsert, Text.Trimmed;
      var auth := ResolveAuth(q.bearer, q.now, q.saves.touch);
      if !auth.ByWatch? { return Unauthorized; }
      if !q.allowed { return TooManyRequests; }
      if apnsTopic == "" { return Unavailable; }
      var device := devices.UpsertDevice(Registration(Configuration(), auth.installation, q.watchID, q.pushToken),
          q.now, q.saves.first);
      return if device.Ok? then Success else BadRequest;
    }

    method DeleteDeviceRequest(q: Request) returns (reply: Reply)
      requires Valid() && q.DeleteDevice?
      modifies installations, devices
      ensures Valid() && (State(), reply) == HandleDeleteDevice(Configuration(), old(State()), q)
    {
      hide I.Store.State, C.Store.State, P.Store.State, D.Store.State, L.Store.State, I.Store.Valid, C.Store.Valid,
           P.Store.Valid, D.Store.Valid, Resolve, Touched, D.Remove, Text.Trim, Text.Trimmed;
      var auth := ResolveAuth(q.bearer, q.now, q.saves.touch);
      if !auth.ByWatch? { return Unauthorized; }
      if Text.Trim(q.watchID) == "" { return BadRequest; }
      var removed := devices.RemoveDevice(auth.installation, q.watchID, q.saves.first);
      return if removed.RemoveNotSaved? then ServerError else NoContent;
    }

    method TestNotificationRequest(q: Request, verdict: D.Device -> Push) returns (reply: Reply, order: seq<D.Device>)
      requires Valid() && q.TestNotification?
      modifies installations, devices
      ensures Valid()
      ensures var delivered := TestNotification(q.bearer, q.allowed, order, Verdicts(order, verdict), q.now, q.saves);
              && Fits(Configuration(), old(State()), {}, delivered)
              && (State(), reply) == HandleTestNotification(Configuration(), old(State()), delivered)
    {
      hide I.Store.State, C.Store.State, P.Store.State, D.Store.State, L.Store.State, I.Store.Valid, C.Store.Valid,
           P.Store.Valid, D.Store.Valid, Resolve, Touched, Deliver, DeliveryOrder, Text.Trimmed;
      order := [];
      var auth := ResolveAuth(q.bearer, q.now, q.saves.touch);
      if !auth.ByWatch? { return Unauthorized, order; }
      if !q.allowed { return TooManyRequests, order; }
      var sent, listed := DeliverEvent(auth.installation, verdict);
      return SentCount(sent), listed;
    }

    method ReadEventsRequest(q: Request) returns (reply: Reply)
      requires Valid() && q.ReadEvents?
      modifies installations
      ensures Valid() && (State(), reply) == HandleReadEvents(Configuration(), old(State()), q)
    {
      hide I.Store.State, C.Store.State, P.Store.State, D.Store.State, I.Store.Valid, C.Store.Valid, P.Store.Valid,
           D.Store.Valid, Resolve, Touched, L.Since, Text.Trim, Text.Trimmed;
      var auth := ResolveAuth(q.bearer, q.now, q.saves.touch);
      if !auth.ByWatch? { return Unauthorized; }
      var events := store.SinceForChannel(auth.channel, q.after);
      TouchKeepsLog(old(State()), auth, q.now, q.saves.touch);
      return Events(events);
    }

    lemma TouchKeepsLog(r: Relay, auth: Auth, now: Time, ok: bool)
      ensures Touched(Configuration(), r, auth, now, ok).log == r.log
    {
      hide I.Touch;
    }

    /** The process restarts: every store is opened again from its file. */
    method Reopen(now: Time)
      requires Valid()
      modifies installations, channels, watchPairings, devices, store
      ensures Valid() && State() == HandleRestart(Configuration(), old(State()), now)
    {
      hide I.Store.State, C.Store.State, P.Store.State, D.Store.State, L.Store.State, I.Store.Valid, C.Store.Valid,
           P.Store.Valid, D.Store.Valid, Restart, L.Reopen;
      installations.OpenStore();
      channels.OpenStore();
      watchPairings.OpenStore();
      devices.OpenStore();
      store.OpenStore(now);
    }
  }
}
