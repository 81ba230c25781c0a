/**
  What deleting an installation promises (internal/api/server.go): its token keeps working until the
  DELETE answers 204, nothing of it is left then, nothing of it ever comes back, and nobody else notices.
 */
module RelayDeletion {
  import opened Wrappers
  import opened Snapshots
  import opened Relay
  import opened RelayRuns
  import Text
  import I = Installations
  import C = Channels
  import P = Pairings
  import D = Devices
  import L = EventLog

  // ---------------------------------------------------------------- one token, one meaning

  datatype Scope = InstallationScope | ProducerScope | WatchScope

  ghost function ResolveOne(r: Relay, scope: Scope, token: string): Auth {
    match scope
    case InstallationScope =>
      var i := I.Lookup(r.installations.mem, token); if i.Some? then ByInstallation(token, i.value.id) else Unknown
    case ProducerScope =>
      var c := C.Lookup(r.channels.mem, C.Producer, token);
          if c.Some? then ByProducer(c.value.id, c.value.installation) else Unknown
    case WatchScope =>
      var c := C.Lookup(r.channels.mem, C.Watch, token);
          if c.Some? then ByWatch(c.value.id, c.value.installation) else Unknown
  }

  /** Looking the token up table by table, in the given order. */
  ghost function ResolveIn(r: Relay, order: seq<Scope>, token: string): Auth {
    if order == [] then Unknown
    else
      var first := ResolveOne(r, order[0], token);
      if first.Unknown? then ResolveIn(r, order[1..], token) else first
  }

  lemma InstallationOrChannel(r: Relay, token: string, f: C.Field)
    requires Scopes(r) && (f.Producer? || f.Watch?)
    ensures I.Lookup(r.installations.mem, token).None? || C.Lookup(r.channels.mem, f, token).None?
  {
    FoundByToken(r.installations.mem, token);
    FoundChannel(r.channels.mem, f, token);
    hide I.Lookup, C.Lookup;
  }

  lemma ProducerOrWatch(r: Relay, token: string)
    requires Scopes(r)
    ensures C.Lookup(r.channels.mem, C.Producer, token).None? || C.Lookup(r.channels.mem, C.Watch, token).None?
  {
    FoundChannel(r.channels.mem, C.Producer, token);
    FoundChannel(r.channels.mem, C.Watch, token);
    hide C.Lookup;
  }

  lemma OneScope(env: Env, w: World, token: string, s: Scope, t: Scope)
    requires Inv(env, w) && s != t
    ensures ResolveOne(w.relay, s, token).Unknown? || ResolveOne(w.relay, t, token).Unknown?
  {
    assert Scopes(w.relay);
    hide Inv, Scopes, I.Lookup, C.Lookup;
    InstallationOrChannel(w.relay, token, C.Producer);
    InstallationOrChannel(w.relay, token, C.Watch);
    ProducerOrWatch(w.relay, token);
  }

  lemma {:induction false} OrderFindsKnown(env: Env, w: World, order: seq<Scope>, token: string, s: Scope)
    requires Inv(env, w) && s in order && !ResolveOne(w.relay, s, token).Unknown?
    ensures ResolveIn(w.relay, order, token) == ResolveOne(w.relay, s, token)
  {
    hide Inv;
    if order[0] != s {
      OneScope(env, w, token, order[0], s);
      OrderFindsKnown(env, w, order[1..], token, s);
    }
  }

  lemma {:induction false} OrderFindsNothing(r: Relay, order: seq<Scope>, token: string)
    requires forall s: Scope :: ResolveOne(r, s, token).Unknown?
    ensures ResolveIn(r, order, token).Unknown?
  {
    if order != [] { OrderFindsNothing(r, order[1..], token); }
  }

  /** A bearer token means at most one scope and one holder: any order of the lookups gives the answer
      resolveAuth gives. */
  lemma LookupOrderIrrelevant(env: Env, now: Time, requests: seq<Request>, order: seq<Scope>, bearer: string)
    requires env.persisted && env.maxEvents > 0 && Text.Trim(bearer) != ""
    requires forall s: Scope :: s in order
    ensures var r := Run(env, Start(now), requests).relay;
            ResolveIn(r, order, Text.Trim(bearer)) == Resolve(r, Some(bearer))
  {
    hide Inv;
    var w := Run(env, Start(now), requests);
    var token := Text.Trim(bearer);
    ReferentialIntegrity(env, now, requests);
    if s: Scope :| !ResolveOne(w.relay, s, token).Unknown? {
      OrderFindsKnown(env, w, order, token, s);
      forall t: Scope | t != s ensures ResolveOne(w.relay, t, token).Unknown? { OneScope(env, w, token, s, t); }
      assert ResolveOne(w.relay, InstallationScope, token).Unknown? || s == InstallationScope;
      assert ResolveOne(w.relay, ProducerScope, token).Unknown? || s == ProducerScope;
    } else {
      OrderFindsNothing(w.relay, order, token);
      assert ResolveOne(w.relay, InstallationScope, token).Unknown?
             && ResolveOne(w.relay, ProducerScope, token).Unknown?
             && ResolveOne(w.relay, WatchScope, token).Unknown?;
    }
  }

  // ---------------------------------------------------------------- where identities come from

  /** Identities and tokens afterwards are old ones or were drawn. */
  predicate Provenance(r: Relay, r': Relay, drawn: set<string>) {
    && (forall i <- r'.installations.mem :: InstallationFrom(r, i, r'.installations.mem[i], drawn))
    && (forall c <- r'.channels.mem :: ChannelFrom(r, c, r'.channels.mem[c], drawn))
  }

  predicate InstallationFrom(r: Relay, id: string, i: I.Installation, drawn: set<string>) {
    || (id in r.installations.mem && i.token == r.installations.mem[id].token)
    || (id in drawn && i.token in drawn)
  }

  predicate ChannelFrom(r: Relay, id: string, c: C.Channel, drawn: set<string>) {
    || (id in r.channels.mem && c.producer == r.channels.mem[id].producer
       && c.installation == r.channels.mem[id].installation
       && (c.watch == r.channels.mem[id].watch || c.watch in drawn))
    || (c.producer in drawn && (c.watch == "" || c.watch in drawn))
  }

  /** The installation is still there with its token. */
  predicate Identified(r: Relay, r': Relay, installation: string) {
    installation in r.installations.mem ==>
      installation in r'.installations.mem
          && r'.installations.mem[installation].token == r.installations.mem[installation].token
  }

  lemma ProvenanceTrans(r: Relay, r1: Relay, r2: Relay, drawn: set<string>)
    requires Provenance(r, r1, drawn) && Provenance(r1, r2, drawn)
    ensures Provenance(r, r2, drawn)
  {
    forall i <- r2.installations.mem ensures InstallationFrom(r, i, r2.installations.mem[i], drawn) {
      if i in r1.installations.mem { assert InstallationFrom(r, i, r1.installations.mem[i], drawn); }
    }
    forall c <- r2.channels.mem ensures ChannelFrom(r, c, r2.channels.mem[c], drawn) {
      if c in r1.channels.mem { assert ChannelFrom(r, c, r1.channels.mem[c], drawn); }
    }
  }

  // The store calls that touch identities or tokens.

  lemma TouchFrom(env: Env, w: World, bearer: Option<string>, now: Time, ok: bool, drawn: set<string>,
      installation: string)
    requires Inv(env, w)
    ensures var r' := Touched(env, w.relay, Resolve(w.relay, bearer), now, ok);
            Provenance(w.relay, r', drawn) && Identified(w.relay, r', installation)
  {
    hide Inv, Resolve, Touched;
    Authenticated(env, w, bearer, now, ok);
  }

  lemma IdentifyFrom(env: Env, r: Relay, auth: Auth, id: string, token: string, now: Time, ok: bool, drawn: set<string>,
      installation: string)
    requires id in drawn && token in drawn && id !in r.installations.mem
    ensures var r' := Identify(env, r, auth, id, token, now, ok).0;
            Provenance(r, r', drawn) && Identified(r, r', installation)
  {
    hide I.Lookup;
  }

  lemma EnsureFrom(env: Env, r: Relay, owner: string, id: string, producer: string, now: Time, ok: bool,
      drawn: set<string>, installation: string)
    requires producer in drawn
    ensures var r' := EnsureChannel(env, r, owner, id, producer, now, ok).0;
            Provenance(r, r', drawn) && Identified(r, r', installation)
  {
    hide C.Lookup, Text.Trim;
  }

  lemma OpenSessionFrom(env: Env, r: Relay, owner: string, q: Request, drawn: set<string>, installation: string)
    requires q.ClaimPairingCode? && q.session in drawn && C.Keyed(r.channels.mem)
    ensures var r' := OpenSession(env, r, owner, q).0; Provenance(r, r', drawn) && Identified(r, r', installation)
  {
    FoundChannel(r.channels.mem, C.Installation, Text.Trim(owner));
    hide C.Lookup, D.Upsert, Text.Trim, C.WellFormed;
    var found := C.Lookup(r.channels.mem, C.Installation, Text.Trim(owner));
    assert found.Some? ==> found.value.id in r.channels.mem && r.channels.mem[found.value.id] == found.value;
  }

  lemma DeleteRecordsFrom(env: Env, r: Relay, owner: string, saves: Saves)
    ensures var r' := DeleteRecords(env, r, owner, saves).0;
            r'.installations == r.installations && r'.channels == r.channels
  {
    hide C.Lookup, P.Remove, D.RemoveForInstallation, L.Remove;
  }

  lemma DeleteFrom(env: Env, r: Relay, owner: string, saves: Saves, drawn: set<string>, installation: string)
    ensures var (r', reply) := Delete(env, r, owner, saves);
            && Provenance(r, r', drawn)
            && (Identified(r, r', installation) || (reply == NoContent && Text.Trim(owner) == installation))
  {
    DeleteRecordsFrom(env, r, owner, saves);
    hide DeleteRecords, C.Lookup, Text.Trim;
  }

  // The requests.

  /** What one request can do to identities and tokens. */
  ghost predicate StepFrom(env: Env, w: World, q: Request, installation: string)
    requires Fits(env, w.relay, w.used, q)
  {
    var (r', reply) := Handle(env, w.relay, w.used, q);
    && Provenance(w.relay, r', DrawnBy(q))
    && (Identified(w.relay, r', installation) || Deletes(w.relay, q, reply, installation))
  }

  /** A DELETE of this installation that answered 204. */
  ghost predicate Deletes(r: Relay, q: Request, reply: Reply, installation: string) {
    && q.DeleteInstallation? && reply == NoContent
    && Resolve(r, q.bearer).ByInstallation? && Resolve(r, q.bearer).installation == installation
  }

  lemma CreateInstallationFrom(env: Env, w: World, q: Request, drawn: set<string>, installation: string)
    requires Inv(env, w) && q.CreateInstallation? && {q.id, q.token, q.channel, q.producer} <= drawn && q.id !in w.used
    ensures var r' := HandleCreateInstallation(env, w.relay, q).0;
            Provenance(w.relay, r', drawn) && Identified(w.relay, r', installation)
  {
    TouchFrom(env, w, q.bearer, q.now, q.saves.touch, drawn, installation);
    Authenticated(env, w, q.bearer, q.now, q.saves.touch);
    var auth := Resolve(w.relay, q.bearer);
    var r1 := Touched(env, w.relay, auth, q.now, q.saves.touch);
    assert q.id !in r1.installations.mem;
    hide Inv, Resolve, Touched, Identify, EnsureChannel;
    IdentifyFrom(env, r1, auth, q.id, q.token, q.now, q.saves.first, drawn, installation);
    var (r2, made) := Identify(env, r1, auth, q.id, q.token, q.now, q.saves.first);
    ProvenanceTrans(w.relay, r1, r2, drawn);
    hide Provenance;
    if made.Some? {
      EnsureFrom(env, r2, made.value.id, q.channel, q.producer, q.now, q.saves.second, drawn, installation);
      ProvenanceTrans(w.relay, r2,
          EnsureChannel(env, r2, made.value.id, q.channel, q.producer, q.now, q.saves.second).0, drawn);
    }
  }

  lemma DeleteInstallationFrom(env: Env, w: World, q: Request, drawn: set<string>, installation: string)
    requires Inv(env, w) && q.DeleteInstallation?
    ensures var (r', reply) := HandleDeleteInstallation(env, w.relay, q);
            Provenance(w.relay, r', drawn)
                && (Identified(w.relay, r', installation) || Deletes(w.relay, q, reply, installation))
  {
    TouchFrom(env, w, q.bearer, q.now, q.saves.touch, drawn, installation);
    AuthExists(env, w, q.bearer);
    var auth := Resolve(w.relay, q.bearer);
    if auth.ByInstallation? {
      assert w.relay.installations.mem[auth.installation].id == auth.installation;
      Text.TrimFixpoint(auth.installation);
    }
    hide Inv, Resolve, Touched, Delete, Provenance, Text.Trim;
    var r1 := Touched(env, w.relay, auth, q.now, q.saves.touch);
    if auth.ByInstallation? {
      DeleteFrom(env, r1, auth.installation, q.saves, drawn, installation);
      ProvenanceTrans(w.relay, r1, Delete(env, r1, auth.installation, q.saves).0, drawn);
    }
  }

  lemma CreatePairingCodeFrom(env: Env, w: World, q: Request, drawn: set<string>, installation: string)
    requires Inv(env, w) && q.CreatePairingCode? && |q.tries| == P.TRIES && q.producer in drawn
    ensures var r' := HandleCreatePairingCode(env, w.relay, q).0;
            Provenance(w.relay, r', drawn) && Identified(w.relay, r', installation)
  {
    hide Inv, Resolve, Touched, EnsureChannel, P.Create, Text.Trim;
    TouchFrom(env, w, q.bearer, q.now, q.saves.touch, drawn, installation);
    var auth := Resolve(w.relay, q.bearer);
    var r1 := Touched(env, w.relay, auth, q.now, q.saves.touch);
    if auth.ByInstallation? {
      EnsureFrom(env, r1, auth.installation, q.channel, q.producer, q.now, q.saves.first, drawn, installation);
      var r2 := EnsureChannel(env, r1, auth.installation, q.channel, q.producer, q.now, q.saves.first).0;
      ProvenanceTrans(w.relay, r1, r2, drawn);
    }
  }

  lemma SameBase(r: Relay, r1: Relay, r': Relay, drawn: set<string>, installation: string)
    requires r1.installations == r.installations && r1.channels == r.channels
    requires Provenance(r1, r', drawn) && Identified(r1, r', installation)
    ensures Provenance(r, r', drawn) && Identified(r, r', installation)
  {
    forall i <- r'.installations.mem ensures InstallationFrom(r, i, r'.installations.mem[i], drawn) {
      assert InstallationFrom(r1, i, r'.installations.mem[i], drawn);
    }
    forall c <- r'.channels.mem ensures ChannelFrom(r, c, r'.channels.mem[c], drawn) {
      assert ChannelFrom(r1, c, r'.channels.mem[c], drawn);
    }
  }

  lemma ChannelsKeyed(env: Env, w: World)
    requires Inv(env, w)
    ensures C.Keyed(w.relay.channels.mem)
  {
    hide C.Keyed;
  }

  lemma ClaimPairingCodeFrom(env: Env, w: World, q: Request, drawn: set<string>, installation: string)
    requires Inv(env, w) && q.ClaimPairingCode? && q.session in drawn
    ensures var r' := HandleClaimPairingCode(env, w.relay, q).0;
            Provenance(w.relay, r', drawn) && Identified(w.relay, r', installation)
  {
    hide Inv, P.Claim, OpenSession, Text.Trim, C.Keyed, Provenance, Identified;
    ChannelsKeyed(env, w);
    var (pairings, claimed) := P.Claim(env.sha, env.persisted, w.relay.pairings, q.raw, q.pick, q.now, q.saves.first);
    var r1 := w.relay.(pairings := pairings);
    NothingTouched(w.relay, drawn, installation);
    SameIdentities(w.relay, w.relay, r1, drawn, installation);
    if claimed.Claimed? {
      OpenSessionFrom(env, r1, claimed.code.installation, q, drawn, installation);
      SameBase(w.relay, r1, OpenSession(env, r1, claimed.code.installation, q).0, drawn, installation);
    }
  }

  /** The other requests leave identities and channels as authentication left them. */
  lemma DeviceRequestsFrom(env: Env, w: World, q: Request)
    requires Fits(env, w.relay, w.used, q)
    requires q.CreateEvent? || q.RegisterDevice? || q.DeleteDevice? || q.TestNotification? || q.ReadEvents?
    ensures var r' := Handle(env, w.relay, w.used, q).0;
            var r1 := Touched(env, w.relay, Resolve(w.relay, q.bearer), q.now, q.saves.touch);
            r'.installations == r1.installations && r'.channels == r1.channels
  {
    hide FreshDraws, Resolve, Touched, DeliveryOrder, L.Append, Deliver, D.Upsert, D.Remove, Text.Trim;
  }

  lemma SameIdentities(r: Relay, r1: Relay, r': Relay, drawn: set<string>, installation: string)
    requires Provenance(r, r1, drawn) && Identified(r, r1, installation)
    requires r'.installations == r1.installations && r'.channels == r1.channels
    ensures Provenance(r, r', drawn) && Identified(r, r', installation)
  {
    forall i <- r'.installations.mem ensures InstallationFrom(r, i, r'.installations.mem[i], drawn) {
      assert InstallationFrom(r, i, r1.installations.mem[i], drawn);
    }
    forall c <- r'.channels.mem ensures ChannelFrom(r, c, r'.channels.mem[c], drawn) {
      assert ChannelFrom(r, c, r1.channels.mem[c], drawn);
    }
  }

  lemma RequestFrom(env: Env, w: World, q: Request, installation: string)
    requires Inv(env, w) && Fits(env, w.relay, w.used, q)
    ensures StepFrom(env, w, q, installation)
  {
    hide Inv, FreshDraws, HandleCreateInstallation, HandleDeleteInstallation, HandleCreatePairingCode,
         HandleClaimPairingCode, HandleCreateEvent, HandleRegisterDevice, HandleDeleteDevice, HandleTestNotification,
         HandleReadEvents, HandleRestart, Resolve, DeliveryOrder, P.CanPick, Provenance, Identified;
    DrawsAreFresh(q, w.used);
    var drawn := DrawnBy(q);
    match q
    case CreateInstallation(_, _, _, _, _, _, _, _) => CreateInstallationFrom(env, w, q, drawn, installation);
    case DeleteInstallation(_, _, _) => DeleteInstallationFrom(env, w, q, drawn, installation);
    case CreatePairingCode(_, _, _, _, _, _, _, _) => CreatePairingCodeFrom(env, w, q, drawn, installation);
    case ClaimPairingCode(_, _, _, _, _, _, _, _) => ClaimPairingCodeFrom(env, w, q, drawn, installation);
    case RestartProcess(now) =>
      RestartKeeps(env, w, now);
      NothingTouched(w.relay, drawn, installation);
      SameIdentities(w.relay, w.relay, HandleRestart(env, w.relay, now), drawn, installation);
    case _ =>
      DeviceRequestsFrom(env, w, q);
      TouchFrom(env, w, q.bearer, q.now, q.saves.touch, drawn, installation);
      SameIdentities(w.relay, Touched(env, w.relay, Resolve(w.relay, q.bearer), q.now, q.saves.touch),
                     Handle(env, w.relay, w.used, q).0, drawn, installation);
  }

  lemma NothingTouched(r: Relay, drawn: set<string>, installation: string)
    ensures Provenance(r, r, drawn) && Identified(r, r, installation)
  {
  }

  // ---------------------------------------------------------------- deletion over whole runs

  /** No step of the run is a DELETE of this installation answered with 204. */
  ghost predicate NotDeleted(env: Env, w: World, requests: seq<Request>, installation: string) {
    requests == [] ||
    var front, q := requests[..|requests| - 1], requests[|requests| - 1];
    var mid := Run(env, w, front);
    && NotDeleted(env, w, front, installation)
    && (Fits(env, mid.relay, mid.used, q) ==>
       !Deletes(mid.relay, q, Handle(env, mid.relay, mid.used, q).1, installation))
  }

  lemma StillResolves(env: Env, w: World, installation: string, token: string)
    requires Inv(env, w) && installation in w.relay.installations.mem
             && w.relay.installations.mem[installation].token == token
    requires Text.Trimmed(token) && token != ""
    ensures Resolve(w.relay, Some(token)) == ByInstallation(token, installation)
  {
    Text.TrimFixpoint(token);
    ByToken(w.relay.installations.mem, installation);
    assert w.relay.installations.mem[installation].id == installation;
    hide Inv, I.Lookup, C.Lookup, Text.Trim;
  }

  /** Until a DELETE has answered 204 the installation's token keeps authenticating, whatever saves
      failed on the way and whatever else was requested in between. */
  lemma {:induction false} TokenOutlivesRetries(env: Env, w: World, requests: seq<Request>, installation: string,
      token: string)
    requires Inv(env, w) && installation in w.relay.installations.mem
             && w.relay.installations.mem[installation].token == token
    requires NotDeleted(env, w, requests, installation)
    ensures var w' := Run(env, w, requests);
            && Inv(env, w') && Resolve(w'.relay, Some(token)) == ByInstallation(token, installation)
            && installation in w'.relay.installations.mem && w'.relay.installations.mem[installation].token == token
  {
    assert Text.Trimmed(token) && token != "";
    hide Inv, Fits, Handle, Resolve, Deletes, Text.Trimmed;
    if requests != [] {
      var front, q := requests[..|requests| - 1], requests[|requests| - 1];
      var mid := Run(env, w, front);
      TokenOutlivesRetries(env, w, front, installation, token);
      RequestKeepsInv(env, mid, q);
      if Fits(env, mid.relay, mid.used, q) { RequestFrom(env, mid, q, installation); }
    }
    StillResolves(env, Run(env, w, requests), installation, token);
  }

  /** No identity, channel, pairing or device of the installation, no event of a channel of it, and no
      token that would authenticate as it. */
  ghost predicate NothingLeft(r: Relay, installation: string) {
    && Gone(r, installation)
    && (forall e <- r.log.mem.events ::
          e.channel in r.channels.mem && r.channels.mem[e.channel].installation != installation)
    && (forall bearer :: MeansOther(Resolve(r, bearer), installation))
  }

  predicate MeansOther(auth: Auth, installation: string) {
    auth.Unknown? || auth.installation != installation
  }

  lemma GoneMeansNothingLeft(env: Env, w: World, installation: string)
    requires Inv(env, w) && installation !in w.relay.installations.mem
    ensures NothingLeft(w.relay, installation)
  {
    hide Inv, Resolve, Gone;
    GoneFromTables(env, w, installation);
    forall bearer ensures MeansOther(Resolve(w.relay, bearer), installation) {
      AuthExists(env, w, bearer);
    }
  }

  lemma GoneFromTables(env: Env, w: World, installation: string)
    requires Inv(env, w) && installation !in w.relay.installations.mem
    ensures Gone(w.relay, installation)
    ensures forall e <- w.relay.log.mem.events ::
              e.channel in w.relay.channels.mem && w.relay.channels.mem[e.channel].installation != installation
  {
    assert Refs(w.relay);
    hide Inv;
    forall p <- w.relay.pairings.mem ensures w.relay.pairings.mem[p].installation != installation {
      assert PairingRef(w.relay, w.relay.pairings.mem[p]);
    }
  }

  /** One DELETE in any reachable state: others' records stay as they are; a 204 leaves nothing; any other
      answer leaves the token working; and when every save succeeds the answer is 204. */
  lemma DeleteConverges(env: Env, now: Time, before: seq<Request>, q: Request)
    requires env.persisted && env.maxEvents > 0 && q.DeleteInstallation?
    requires Resolve(Run(env, Start(now), before).relay, q.bearer).ByInstallation?
    ensures var w := Run(env, Start(now), before);
            var auth := Resolve(w.relay, q.bearer);
            var (r', reply) := HandleDeleteInstallation(env, w.relay, q);
            && OthersKept(w.relay, r', auth.installation)
            && (reply == NoContent ==> NothingLeft(r', auth.installation))
            && (reply != NoContent ==> reply == ServerError && Resolve(r', q.bearer) == auth)
            && (q.saves.first && q.saves.second && q.saves.third && q.saves.fourth && q.saves.fifth ==>
               reply == NoContent)
  {
    var w := Run(env, Start(now), before);
    ReferentialIntegrity(env, now, before);
    DeleteFromAnywhere(env, w, q);
  }

  lemma TouchedOthersKept(r: Relay, r1: Relay, r': Relay, installation: string)
    requires OthersKept(r1, r', installation) && r1 == r.(installations := r1.installations)
    requires r1.installations.mem - {installation} == r.installations.mem - {installation}
    ensures OthersKept(r, r', installation)
  {
    hide FewerChannels;
  }

  lemma TouchedSelf(env: Env, w: World, bearer: Option<string>, now: Time, ok: bool)
    requires Inv(env, w) && Resolve(w.relay, bearer).ByInstallation?
    ensures var auth := Resolve(w.relay, bearer);
            var r1 := Touched(env, w.relay, auth, now, ok);
            && r1.installations.mem - {auth.installation} == w.relay.installations.mem - {auth.installation}
            && auth.installation in r1.installations.mem && r1.installations.mem[auth.installation].token == auth.token
            && bearer.Some? && auth.token == Text.Trim(bearer.value) && auth.token != ""
  {
    hide Inv, Resolve, I.Lookup, Text.Trim;
    ByInstallationToken(w.relay, bearer);
    AuthExists(env, w, bearer);
    Authenticated(env, w, bearer, now, ok);
    Text.TrimFixpoint(bearer.value);
    KnownInstallation(env, w, Resolve(w.relay, bearer).installation);
  }

  lemma ByInstallationToken(r: Relay, bearer: Option<string>)
    requires Resolve(r, bearer).ByInstallation?
    ensures bearer.Some? && Resolve(r, bearer).token == Text.Trim(bearer.value) && Resolve(r, bearer).token != ""
  {
    hide I.Lookup, C.Lookup, Text.Trim;
  }

  lemma DeleteFromAnywhere(env: Env, w: World, q: Request)
    requires Inv(env, w) && q.DeleteInstallation? && Resolve(w.relay, q.bearer).ByInstallation?
    ensures var auth := Resolve(w.relay, q.bearer);
            var (r', reply) := HandleDeleteInstallation(env, w.relay, q);
            && OthersKept(w.relay, r', auth.installation)
            && (reply == NoContent ==> NothingLeft(r', auth.installation))
            && (reply != NoContent ==> reply == ServerError && Resolve(r', q.bearer) == auth)
            && (q.saves.first && q.saves.second && q.saves.third && q.saves.fourth && q.saves.fifth ==>
               reply == NoContent)
  {
    hide Inv, Resolve, Touched, Delete, OthersKept, NothingLeft, Text.Trim, Text.Trimmed;
    var auth := Resolve(w.relay, q.bearer);
    var w1 := w.(relay := Touched(env, w.relay, auth, q.now, q.saves.touch));
    Authenticated(env, w, q.bearer, q.now, q.saves.touch);
    TouchedSelf(env, w, q.bearer, q.now, q.saves.touch);
    DeleteKeeps(env, w1, auth.installation, q.saves);
    var (r', reply) := Delete(env, w1.relay, auth.installation, q.saves);
    TouchedOthersKept(w.relay, w1.relay, r', auth.installation);
    if reply == NoContent {
      GoneMeansNothingLeft(env, w1.(relay := r'), auth.installation);
    } else {
      ResolvesTrimmed(env, w1.(relay := r'), auth.installation, q.bearer.value);
    }
  }

  lemma ResolvesTrimmed(env: Env, w: World, installation: string, bearer: string)
    requires Inv(env, w) && installation in w.relay.installations.mem
    requires w.relay.installations.mem[installation].token == Text.Trim(bearer) && Text.Trim(bearer) != ""
    ensures Resolve(w.relay, Some(bearer)) == ByInstallation(Text.Trim(bearer), installation)
  {
    ByToken(w.relay.installations.mem, installation);
    assert w.relay.installations.mem[installation].id == installation;
    hide Inv, I.Lookup, C.Lookup, Text.Trim;
  }

  // ---------------------------------------------------------------- nothing comes back

  /** No installation or channel carries the token. */
  predicate NoToken(r: Relay, token: string) {
    && (forall i <- r.installations.mem :: r.installations.mem[i].token != token)
    && (forall c <- r.channels.mem :: r.channels.mem[c].producer != token && r.channels.mem[c].watch != token)
  }

  lemma DrawsMissUsed(q: Request, used: set<string>)
    requires FreshDraws(Draws(q), used)
    ensures DrawnBy(q) !! used
  {
  }

  lemma ProvenanceKeepsAway(r: Relay, r': Relay, drawn: set<string>, installation: string, token: string)
    requires Provenance(r, r', drawn) && installation !in drawn && token !in drawn && token != ""
    ensures installation !in r.installations.mem ==> installation !in r'.installations.mem
    ensures NoToken(r, token) ==> NoToken(r', token)
  {
    if installation in r'.installations.mem {
      assert InstallationFrom(r, installation, r'.installations.mem[installation], drawn);
    }
    if NoToken(r, token) {
      forall i <- r'.installations.mem ensures r'.installations.mem[i].token != token {
        assert InstallationFrom(r, i, r'.installations.mem[i], drawn);
      }
      forall c <- r'.channels.mem ensures r'.channels.mem[c].producer != token && r'.channels.mem[c].watch != token {
        assert ChannelFrom(r, c, r'.channels.mem[c], drawn);
      }
    }
  }

  lemma NoTokenIsUnknown(r: Relay, token: string)
    ensures NoToken(r, Text.Trim(token)) ==> Resolve(r, Some(token)).Unknown?
    ensures Text.Trim(token) != "" && Resolve(r, Some(token)).Unknown? ==> NoToken(r, Text.Trim(token))
  {
    FoundByToken(r.installations.mem, Text.Trim(token));
    FoundChannel(r.channels.mem, C.Producer, Text.Trim(token));
    FoundChannel(r.channels.mem, C.Watch, Text.Trim(token));
    hide I.Lookup, C.Lookup, Text.Trim;
    forall c <- r.channels.mem ensures C.Get(r.channels.mem[c], C.Producer) == r.channels.mem[c].producer
                                        && C.Get(r.channels.mem[c], C.Watch) == r.channels.mem[c].watch { }
  }

  /** Deleted is deleted: a drawn identity that is gone never returns, nothing ever refers to it again,
      and a drawn token that means nothing never means anything again. */
  lemma {:induction false} GoneForGood(env: Env, w: World, requests: seq<Request>, installation: string, token: string)
    requires Inv(env, w) && installation in w.used && installation !in w.relay.installations.mem
    requires Text.Trim(token) in w.used && Text.Trim(token) != "" && Resolve(w.relay, Some(token)).Unknown?
    ensures var w' := Run(env, w, requests);
            && Inv(env, w') && w.used <= w'.used && installation !in w'.relay.installations.mem
            && NothingLeft(w'.relay, installation) && Resolve(w'.relay, Some(token)).Unknown?
  {
    hide Inv, Fits, Handle, Resolve, NoToken, Provenance, NothingLeft, Text.Trim;
    var w' := Run(env, w, requests);
    if requests != [] {
      var front, q := requests[..|requests| - 1], requests[|requests| - 1];
      var mid := Run(env, w, front);
      GoneForGood(env, w, front, installation, token);
      RequestKeepsInv(env, mid, q);
      if Fits(env, mid.relay, mid.used, q) {
        RequestFrom(env, mid, q, installation);
        StepStaysAway(env, mid, q, installation, token);
      }
    }
    GoneMeansNothingLeft(env, w', installation);
  }

  lemma StepStaysAway(env: Env, w: World, q: Request, installation: string, token: string)
    requires Fits(env, w.relay, w.used, q) && StepFrom(env, w, q, installation)
    requires installation in w.used && installation !in w.relay.installations.mem
    requires Text.Trim(token) in w.used && Text.Trim(token) != "" && Resolve(w.relay, Some(token)).Unknown?
    ensures var r' := Handle(env, w.relay, w.used, q).0;
            installation !in r'.installations.mem && Resolve(r', Some(token)).Unknown?
  {
    hide Handle, Resolve, Provenance, NoToken, FreshDraws, Draws, DrawnBy, Text.Trim, Deletes, Identified;
    DrawsMissUsed(q, w.used);
    var r' := Handle(env, w.relay, w.used, q).0;
    NoTokenIsUnknown(w.relay, token);
    NoTokenIsUnknown(r', token);
    ProvenanceKeepsAway(w.relay, r', DrawnBy(q), installation, Text.Trim(token));
  }

  // ---------------------------------------------------------------- one deletion, from first token to last

  /** Nobody but the installation and its channels carries the token. */
  predicate HeldBy(r: Relay, token: string, installation: string) {
    && (forall i <- r.installations.mem | r.installations.mem[i].token == token :: i == installation)
    && (forall c <- r.channels.mem | r.channels.mem[c].producer == token || r.channels.mem[c].watch == token ::
          r.channels.mem[c].installation == installation)
  }

  lemma InstallationHolds(r: Relay, used: set<string>, id: string)
    requires Tables(r) && Scopes(r) && Drawn(r, used) && id in r.installations.mem
    ensures r.installations.mem[id].token in used && HeldBy(r, r.installations.mem[id].token, id)
  {
    hide I.Keyed, C.Keyed, C.Distinct;
  }

  lemma ChannelHolds(r: Relay, used: set<string>, id: string, f: C.Field)
    requires Tables(r) && Scopes(r) && Drawn(r, used) && id in r.channels.mem && (f.Producer? || f.Watch?)
    requires C.Get(r.channels.mem[id], f) != ""
    ensures var token := C.Get(r.channels.mem[id], f);
            token in used && HeldBy(r, token, r.channels.mem[id].installation)
  {
    hide I.Keyed, I.Distinct, C.Keyed;
    forall c | c in r.channels.mem && c != id
      ensures C.Get(r.channels.mem[c], f) != C.Get(r.channels.mem[id], f)
    {
    }
  }

  lemma MeaningHolds(env: Env, w: World, bearer: string)
    requires Inv(env, w) && !Resolve(w.relay, Some(bearer)).Unknown?
    ensures var token := Text.Trim(bearer);
            token != "" && token in w.used && HeldBy(w.relay, token, Resolve(w.relay, Some(bearer)).installation)
  {
    hide L.Inv, Tables, Refs, Scopes, Drawn, HeldBy, I.Lookup, C.Lookup, Text.Trim;
    var r, token := w.relay, Text.Trim(bearer);
    var auth := Resolve(r, Some(bearer));
    FoundByToken(r.installations.mem, token);
    FoundChannel(r.channels.mem, C.Producer, token);
    FoundChannel(r.channels.mem, C.Watch, token);
    if auth.ByInstallation? {
      var id :| id in r.installations.mem && I.Lookup(r.installations.mem, token) == Some(r.installations.mem[id]);
      KnownInstallation(env, w, id);
      InstallationHolds(r, w.used, id);
    } else {
      var f := if auth.ByProducer? then C.Producer else C.Watch;
      var id :| id in r.channels.mem && C.Lookup(r.channels.mem, f, token) == Some(r.channels.mem[id]);
      ChannelHolds(r, w.used, id, f);
    }
  }

  lemma ProvenanceKeepsHolder(r: Relay, r': Relay, drawn: set<string>, installation: string, token: string)
    requires Provenance(r, r', drawn) && token !in drawn && token != "" && HeldBy(r, token, installation)
    ensures HeldBy(r', token, installation)
  {
    forall i <- r'.installations.mem | r'.installations.mem[i].token == token ensures i == installation {
      assert InstallationFrom(r, i, r'.installations.mem[i], drawn);
    }
    forall c <- r'.channels.mem | r'.channels.mem[c].producer == token || r'.channels.mem[c].watch == token
      ensures r'.channels.mem[c].installation == installation
    {
      assert ChannelFrom(r, c, r'.channels.mem[c], drawn);
    }
  }

  lemma FitDraws(env: Env, w: World, q: Request)
    requires Fits(env, w.relay, w.used, q)
    ensures DrawnBy(q) !! w.used
  {
    DrawsMissUsed(q, w.used);
  }

  lemma StepKeepsHolder(env: Env, w: World, q: Request, installation: string, token: string)
    requires Inv(env, w) && token in w.used && token != "" && HeldBy(w.relay, token, installation)
    ensures var w' := Next(env, w, q);
            Inv(env, w') && w.used <= w'.used && HeldBy(w'.relay, token, installation)
  {
    hide Inv, Fits, Handle, Provenance, HeldBy, Deletes, FreshDraws, DrawnBy;
    RequestKeepsInv(env, w, q);
    if Fits(env, w.relay, w.used, q) {
      RequestFrom(env, w, q, installation);
      FitDraws(env, w, q);
      ProvenanceKeepsHolder(w.relay, Handle(env, w.relay, w.used, q).0, DrawnBy(q), installation, token);
    }
  }

  /** A drawn token never passes from one installation to another. */
  lemma {:induction false} TokenKeepsHolder(env: Env, w: World, requests: seq<Request>, installation: string,
                                            token: string)
    requires Inv(env, w) && token in w.used && token != "" && HeldBy(w.relay, token, installation)
    ensures var w' := Run(env, w, requests);
            Inv(env, w') && w.used <= w'.used && HeldBy(w'.relay, token, installation)
  {
    hide Inv, Next, HeldBy;
    if requests != [] {
      var mid := Run(env, w, requests[..|requests| - 1]);
      TokenKeepsHolder(env, w, requests[..|requests| - 1], installation, token);
      StepKeepsHolder(env, mid, requests[|requests| - 1], installation, token);
    }
  }

  lemma HolderGone(r: Relay, bearer: string, installation: string)
    requires NothingLeft(r, installation) && HeldBy(r, Text.Trim(bearer), installation)
    ensures Resolve(r, Some(bearer)).Unknown?
  {
    hide Resolve, Text.Trim;
    assert NoToken(r, Text.Trim(bearer));
    NoTokenIsUnknown(r, bearer);
  }

  /** A holder that is deleted stays deleted, and its token is dead. */
  lemma TokenDies(env: Env, w: World, requests: seq<Request>, installation: string, bearer: string)
    requires Inv(env, w) && installation in w.used && installation !in w.relay.installations.mem
    requires Text.Trim(bearer) in w.used && Text.Trim(bearer) != ""
    requires HeldBy(w.relay, Text.Trim(bearer), installation)
    ensures var w' := Run(env, w, requests);
            NothingLeft(w'.relay, installation) && Resolve(w'.relay, Some(bearer)).Unknown?
  {
    hide Inv, Resolve, NothingLeft, HeldBy, Text.Trim, Next;
    GoneMeansNothingLeft(env, w, installation);
    HolderGone(w.relay, bearer, installation);
    GoneForGood(env, w, requests, installation, bearer);
  }

  lemma {:induction false} RunKeepsInv(env: Env, w: World, requests: seq<Request>)
    requires Inv(env, w)
    ensures Inv(env, Run(env, w, requests))
  {
    hide Inv, Fits, Handle;
    if requests != [] {
      RunKeepsInv(env, w, requests[..|requests| - 1]);
      RequestKeepsInv(env, Run(env, w, requests[..|requests| - 1]), requests[|requests| - 1]);
    }
  }

  lemma KnownDrawn(env: Env, w: World, installation: string)
    requires Inv(env, w) && installation in w.relay.installations.mem
    ensures installation in w.used
  {
  }

  lemma NextDeletes(env: Env, w: World, q: Request)
    requires Inv(env, w) && q.DeleteInstallation? && Resolve(w.relay, q.bearer).ByInstallation?
    requires HandleDeleteInstallation(env, w.relay, q).1 == NoContent
    ensures var w', installation := Next(env, w, q), Resolve(w.relay, q.bearer).installation;
            Inv(env, w') && installation in w'.used && installation !in w'.relay.installations.mem && q.bearer.Some?
  {
    hide Inv, Resolve, HandleDeleteInstallation, OthersKept;
    RequestKeepsInv(env, w, q);
    DeleteFromAnywhere(env, w, q);
    AuthExists(env, w, q.bearer);
    KnownDrawn(env, w, Resolve(w.relay, q.bearer).installation);
    ByInstallationToken(w.relay, q.bearer);
  }

  /** What a 204 means for the rest of time: nothing of the installation is ever stored again, and no bearer that
      meant the installation or one of its channels at any moment before the deletion means anything again. */
  lemma DeletedForGood(env: Env, now: Time, early: seq<Request>, before: seq<Request>, q: Request,
                       after: seq<Request>, bearer: string)
    requires env.persisted && env.maxEvents > 0 && q.DeleteInstallation?
    ensures var w0 := Run(env, Start(now), early);
            var w := Run(env, w0, before);
            var w' := Run(env, Next(env, w, q), after);
            var auth := Resolve(w.relay, q.bearer);
            auth.ByInstallation? && HandleDeleteInstallation(env, w.relay, q).1 == NoContent ==>
              && NothingLeft(w'.relay, auth.installation)
              && (!MeansOther(Resolve(w0.relay, Some(bearer)), auth.installation) ==>
                    Resolve(w'.relay, Some(bearer)).Unknown?)
  {
    hide Inv, Resolve, Run, Next, Handle, NothingLeft, HeldBy, HandleDeleteInstallation, Text.Trim;
    var w0 := Run(env, Start(now), early);
    var w := Run(env, w0, before);
    var auth := Resolve(w.relay, q.bearer);
    ReferentialIntegrity(env, now, early);
    RunKeepsInv(env, w0, before);
    if auth.ByInstallation? && HandleDeleteInstallation(env, w.relay, q).1 == NoContent {
      NextDeletes(env, w, q);
      MeaningHolds(env, w, q.bearer.value);
      StepKeepsHolder(env, w, q, auth.installation, Text.Trim(q.bearer.value));
      TokenDies(env, Next(env, w, q), after, auth.installation, q.bearer.value);
      if !MeansOther(Resolve(w0.relay, Some(bearer)), auth.installation) {
        MeaningHolds(env, w0, bearer);
        TokenKeepsHolder(env, w0, before, auth.installation, Text.Trim(bearer));
        StepKeepsHolder(env, w, q, auth.installation, Text.Trim(bearer));
        TokenDies(env, Next(env, w, q), after, auth.installation, bearer);
      }
    }
  }
}
