/**
  What each request answers and what its answer is good for (internal/api/server.go), in every reachable state: the
  tokens, codes and events handed out are the ones that work afterwards, and refusals happen exactly when they should.
 */
module RelayAnswers {
  import opened Wrappers
  import opened Snapshots
  import opened Relay
  import opened RelayRuns
  import RelayDeletion
  import Text
  import I = Installations
  import C = Channels
  import P = Pairings
  import D = Devices
  import L = EventLog

  predicate HasChannel(r: Relay, installation: string) {
    exists c <- r.channels.mem :: r.channels.mem[c].installation == installation
  }

  // ---------------------------------------------------------------- installations

  /** A producer token resolves to its channel. */
  lemma ProducerResolves(env: Env, w: World, id: string)
    requires Inv(env, w) && id in w.relay.channels.mem
    ensures var c := w.relay.channels.mem[id];
            Resolve(w.relay, Some(c.producer)) == ByProducer(id, c.installation)
  {
    hide I.Lookup, C.Lookup, Text.Trim, Refs, Disk, Drawn, L.Inv;
    KnownChannel(env, w, id);
    var token := w.relay.channels.mem[id].producer;
    assert token != "" && Text.Trimmed(token);
    Text.TrimFixpoint(token);
    FoundByToken(w.relay.installations.mem, token);
    C.LookupIs(w.relay.channels.mem, C.Producer, id);
  }

  /** The installation's channel, or the drawn one with nothing in it yet. */
  predicate Ensured(r: Relay, owner: string, id: string, producer: string, now: Time, ok: bool, r': Relay,
                    result: Result<C.Channel, C.Error>)
  {
    match result
    case Ok(c) =>
      && r' == r.(channels := r'.channels) && c.id in r'.channels.mem && r'.channels.mem[c.id] == c
      && c.installation == owner
      && if HasChannel(r, owner) then r' == r
         else ok && c == C.Channel(id, owner, producer, "", "", "", now, now, None)
              && r'.channels.mem == r.channels.mem[id := c]
    case Err(_) => !HasChannel(r, owner) && !ok && r' == r
  }

  lemma EnsureShape(env: Env, w: World, owner: string, id: string, producer: string, now: Time, ok: bool)
    requires Inv(env, w) && owner in w.relay.installations.mem
    ensures var (r', result) := EnsureChannel(env, w.relay, owner, id, producer, now, ok);
            Ensured(w.relay, owner, id, producer, now, ok, r', result)
  {
    hide C.Lookup, L.Inv, Refs, Scopes, Drawn;
    KnownInstallation(env, w, owner);
    Text.TrimFixpoint(owner);
    FoundChannel(w.relay.channels.mem, C.Installation, owner);
    ChannelsAreKeyed(env, w);
  }

  lemma ChannelsAreKeyed(env: Env, w: World)
    requires Inv(env, w)
    ensures forall c <- w.relay.channels.mem :: w.relay.channels.mem[c].id == c
  {
    forall c <- w.relay.channels.mem { KnownChannel(env, w, c); }
  }

  /** The caller's installation or the drawn one. */
  lemma IdentifyShape(env: Env, w: World, bearer: Option<string>, id: string, token: string, now: Time, touch: bool,
                      ok: bool)
    requires Inv(env, w)
    ensures var auth := Resolve(w.relay, bearer);
            var r1 := Touched(env, w.relay, auth, now, touch);
            var (r2, made) := Identify(env, r1, auth, id, token, now, ok);
            && (auth.ByInstallation? ==> r2 == r1 && made.Some? && made.value.id == auth.installation
                                         && made.value.token == auth.token)
            && (!auth.ByInstallation? && ok ==> made == Some(I.Installation(id, token, now, now))
                                                && r2.installations.mem == r1.installations.mem[id := made.value])
            && (!auth.ByInstallation? && !ok ==> r2 == r1 && made.None?)
            && (made.Some? ==> made.value.id in r2.installations.mem
                               && r2.installations.mem[made.value.id].token == made.value.token)
            && r2.channels == w.relay.channels
  {
    hide Inv, Resolve, I.Lookup, Touched;
    var auth := Resolve(w.relay, bearer);
    AuthExists(env, w, bearer);
    Authenticated(env, w, bearer, now, touch);
    Persisted(env, w);
    var r1 := Touched(env, w.relay, auth, now, touch);
    if auth.ByInstallation? {
      KnownToken(env, w.(relay := r1), auth.installation);
    }
  }

  lemma KnownToken(env: Env, w: World, installation: string)
    requires Inv(env, w) && installation in w.relay.installations.mem
    ensures var i := w.relay.installations.mem[installation];
            i.id == installation && I.Lookup(w.relay.installations.mem, i.token) == Some(i)
            && Text.Trimmed(i.token) && i.token != ""
  {
    hide I.Lookup, L.Inv, Scopes, Refs;
    ByToken(w.relay.installations.mem, installation);
  }

  /** The answer to POST /v1/installations: the tokens it carries are the installation's and its channel's, each in its
      own field, new where there was none; without an answer some save failed that was needed. */
  ghost predicate EnrollPromise(w: World, q: Request, r': Relay, reply: Reply)
    requires q.CreateInstallation?
  {
    var auth := Resolve(w.relay, q.bearer);
    match reply
    case TooManyRequests => !auth.ByInstallation? && !q.allowed && r' == w.relay
    case Created(token, installation, channel, producer) =>
      && (auth.ByInstallation? || q.allowed)
      && Resolve(r', Some(token)) == ByInstallation(token, installation)
      && Resolve(r', Some(producer)) == ByProducer(channel, installation)
      && (if auth.ByInstallation? then token == auth.token && installation == auth.installation
          else token == q.token && installation == q.id)
      && (if auth.ByInstallation? && HasChannel(w.relay, installation) then r'.channels == w.relay.channels
          else channel == q.channel && producer == q.producer && r'.channels.mem == w.relay.channels.mem[channel :=
                 C.Channel(channel, installation, producer, "", "", "", q.now, q.now, None)])
    case ServerError =>
      && r'.channels == w.relay.channels
      && if auth.ByInstallation? then !HasChannel(w.relay, auth.installation) && !q.saves.second
         else q.allowed && !(q.saves.first && q.saves.second)
    case _ => false
  }

  /** What the answer's tokens mean once the channel is there. */
  lemma EnrolledTokens(env: Env, w: World, q: Request, owner: I.Installation)
    requires Inv(env, w) && q.CreateInstallation? && owner.id in w.relay.installations.mem
    requires w.relay.installations.mem[owner.id].token == owner.token
    requires Fresh(q.channel, w.used) && Fresh(q.producer, w.used)
    ensures var (r', result) := EnsureChannel(env, w.relay, owner.id, q.channel, q.producer, q.now, q.saves.second);
            && Ensured(w.relay, owner.id, q.channel, q.producer, q.now, q.saves.second, r', result)
            && (result.Ok? ==>
                  && Resolve(r', Some(owner.token)) == ByInstallation(owner.token, owner.id)
                  && Resolve(r', Some(result.value.producer)) == ByProducer(result.value.id, owner.id))
  {
    hide Inv, Fresh, Resolve, EnsureChannel, HasChannel, Text.Trimmed;
    EnsureShape(env, w, owner.id, q.channel, q.producer, q.now, q.saves.second);
    EnsureKeeps(env, w, owner.id, q.channel, q.producer, q.now, q.saves.second);
    var (r', result) := EnsureChannel(env, w.relay, owner.id, q.channel, q.producer, q.now, q.saves.second);
    if result.Ok? {
      var w' := World(r', w.accepted, w.used + {q.channel, q.producer});
      KnownToken(env, w', owner.id);
      RelayDeletion.StillResolves(env, w', owner.id, owner.token);
      ProducerResolves(env, w', result.value.id);
    }
  }

  lemma EnrollFinish(w: World, q: Request, r2: Relay, owner: I.Installation, r': Relay,
                     result: Result<C.Channel, C.Error>)
    requires q.CreateInstallation? && r2.channels == w.relay.channels
    requires var auth := Resolve(w.relay, q.bearer);
             if auth.ByInstallation? then owner.id == auth.installation && owner.token == auth.token
             else q.allowed && owner.id == q.id && owner.token == q.token && !HasChannel(w.relay, q.id)
    requires Ensured(r2, owner.id, q.channel, q.producer, q.now, q.saves.second, r', result)
    requires result.Ok? ==>
             && Resolve(r', Some(owner.token)) == ByInstallation(owner.token, owner.id)
             && Resolve(r', Some(result.value.producer)) == ByProducer(result.value.id, owner.id)
    ensures EnrollPromise(w, q, r', if result.Err? then ServerError
                                    else Created(owner.token, owner.id, result.value.id, result.value.producer))
  {
    hide Resolve;
    assert HasChannel(r2, owner.id) <==> HasChannel(w.relay, owner.id);
  }

  lemma OnlyInstallationsTouched(env: Env, r: Relay, auth: Auth, now: Time, ok: bool)
    ensures !auth.ByInstallation? ==> Touched(env, r, auth, now, ok) == r
  {
  }

  lemma EnrollAnswers(env: Env, w: World, q: Request)
    requires Inv(env, w) && q.CreateInstallation? && Fits(env, w.relay, w.used, q)
    ensures var (r', reply) := HandleCreateInstallation(env, w.relay, q); EnrollPromise(w, q, r', reply)
  {
    hide Inv, Fresh, FreshDraws, DrawnBy, Draws, Resolve, Touched, Identify, EnsureChannel, HasChannel, Text.Trimmed,
         Ensured;
    DrawsAreFresh(q, w.used);
    OnlyInstallationsTouched(env, w.relay, Resolve(w.relay, q.bearer), q.now, q.saves.touch);
    var auth := Resolve(w.relay, q.bearer);
    var r1 := Touched(env, w.relay, auth, q.now, q.saves.touch);
    Authenticated(env, w, q.bearer, q.now, q.saves.touch);
    IdentifyShape(env, w, q.bearer, q.id, q.token, q.now, q.saves.touch, q.saves.first);
    var (r2, made) := Identify(env, r1, auth, q.id, q.token, q.now, q.saves.first);
    IdentifyKeeps(env, w.(relay := r1), auth, q.id, q.token, q.now, q.saves.first);
    if (auth.ByInstallation? || q.allowed) && made.Some? {
      EnrolledTokens(env, World(r2, w.accepted, w.used + {q.id, q.token}), q, made.value);
      if !auth.ByInstallation? { NobodysChannel(env, w, q.id); }
      var (r3, result) := EnsureChannel(env, r2, made.value.id, q.channel, q.producer, q.now, q.saves.second);
      EnrollFinish(w, q, r2, made.value, r3, result);
    }
  }

  lemma NobodysChannel(env: Env, w: World, id: string)
    requires Inv(env, w) && Fresh(id, w.used)
    ensures !HasChannel(w.relay, id)
  {
  }

  // ---------------------------------------------------------------- pairing codes

  predicate MayIssue(auth: Auth, q: Request)
    requires q.CreatePairingCode?
  {
    auth.ByInstallation? && (q.named == "" || Text.Trim(q.named) == auth.installation)
  }

  /** One new stored code for the installation's channel, answered with its clear text and its id; without it a needed
      save failed or every draw was taken. */
  predicate IssuePromise(env: Env, r: Relay, installation: string, q: Request, r': Relay, reply: Reply)
    requires q.CreatePairingCode?
  {
    match reply
    case Code(clear, id) =>
      && id == q.code && id in r'.pairings.mem && clear in q.tries
      && P.Free(env.sha, r.pairings.mem, installation, q.now, clear)
      && var code := r'.pairings.mem[id];
         && code.channel in r'.channels.mem && r'.channels.mem[code.channel].installation == installation
         && P.FreshCode(code, id, installation, code.channel, P.HashCode(env.sha, clear), env.pairingTTL, q.now)
    case ServerError =>
      && r'.pairings == r.pairings
      && (|| (!HasChannel(r, installation) && !q.saves.first) || !q.saves.second
          || forall d <- q.tries :: !P.Free(env.sha, r.pairings.mem, installation, q.now, d))
    case _ => false
  }

  /** The answer to POST /v1/watch/pairings/code. */
  ghost predicate CodePromise(env: Env, w: World, q: Request, r': Relay, reply: Reply)
    requires q.CreatePairingCode?
  {
    var auth := Resolve(w.relay, q.bearer);
    if MayIssue(auth, q) then IssuePromise(env, w.relay, auth.installation, q, r', reply)
    else reply.Unauthorized? && r'.pairings == w.relay.pairings && r'.channels == w.relay.channels
  }

  lemma IssueShape(env: Env, w: World, installation: string, q: Request)
    requires Inv(env, w) && q.CreatePairingCode? && |q.tries| == P.TRIES && installation in w.relay.installations.mem
    requires Fresh(q.channel, w.used) && Fresh(q.producer, w.used)
    ensures var (r', reply) := IssueCode(env, w.relay, installation, q);
            var (r2, channel) := EnsureChannel(env, w.relay, installation, q.channel, q.producer, q.now, q.saves.first);
            && Ensured(w.relay, installation, q.channel, q.producer, q.now, q.saves.first, r2, channel)
            && r'.channels == r2.channels && r2.pairings == w.relay.pairings
            && Text.Trim(installation) == installation && installation != ""
            && (channel.Ok? ==> Text.Trim(channel.value.id) == channel.value.id && channel.value.id != "")
  {
    hide Inv, Fresh, EnsureChannel, P.Create, Text.Trim, Text.Trimmed;
    EnsureShape(env, w, installation, q.channel, q.producer, q.now, q.saves.first);
    EnsureKeeps(env, w, installation, q.channel, q.producer, q.now, q.saves.first);
    KnownInstallation(env, w, installation);
    Text.TrimFixpoint(installation);
    var (r2, channel) := EnsureChannel(env, w.relay, installation, q.channel, q.producer, q.now, q.saves.first);
    if channel.Ok? {
      KnownChannelID(env, World(r2, w.accepted, w.used + {q.channel, q.producer}), channel.value.id);
    }
  }

  lemma KnownChannelID(env: Env, w: World, id: string)
    requires Inv(env, w) && id in w.relay.channels.mem
    ensures Text.Trim(id) == id && id != ""
  {
    hide Text.Trim, L.Inv, Refs, Scopes, Drawn;
    assert C.WellFormed(w.relay.channels.mem[id]) && w.relay.channels.mem[id].id == id;
    Text.TrimFixpoint(id);
  }

  lemma IssueAnswers(env: Env, w: World, installation: string, q: Request)
    requires Inv(env, w) && q.CreatePairingCode? && |q.tries| == P.TRIES && installation in w.relay.installations.mem
    requires Fresh(q.channel, w.used) && Fresh(q.producer, w.used)
    ensures var (r', reply) := IssueCode(env, w.relay, installation, q);
            IssuePromise(env, w.relay, installation, q, r', reply)
  {
    hide Inv, Fresh, EnsureChannel, P.Create, Text.Trim, Text.Trimmed, P.Free, HasChannel, P.Survives;
    IssueShape(env, w, installation, q);
    var (r2, channel) := EnsureChannel(env, w.relay, installation, q.channel, q.producer, q.now, q.saves.first);
    if channel.Ok? {
      P.CreateKeepsPromise(env.sha, env.persisted, r2.pairings, installation, channel.value.id, env.pairingTTL, q.now,
                           q.tries, q.code, q.saves.second);
    }
  }

  lemma CodeAnswers(env: Env, w: World, q: Request)
    requires Inv(env, w) && q.CreatePairingCode? && Fits(env, w.relay, w.used, q)
    ensures var (r', reply) := HandleCreatePairingCode(env, w.relay, q); CodePromise(env, w, q, r', reply)
  {
    hide Inv, Fresh, FreshDraws, DrawnBy, Draws, Resolve, Touched, IssueCode, IssuePromise, Text.Trim;
    DrawsAreFresh(q, w.used);
    var auth := Resolve(w.relay, q.bearer);
    var r1 := Touched(env, w.relay, auth, q.now, q.saves.touch);
    Authenticated(env, w, q.bearer, q.now, q.saves.touch);
    if MayIssue(auth, q) {
      IssueAnswers(env, w.(relay := r1), auth.installation, q);
      var (r', reply) := IssueCode(env, r1, auth.installation, q);
      SameIssue(env, w.relay, r1, auth.installation, q, r', reply);
    }
  }

  lemma SameIssue(env: Env, r: Relay, r1: Relay, installation: string, q: Request, r': Relay, reply: Reply)
    requires q.CreatePairingCode? && IssuePromise(env, r1, installation, q, r', reply)
    requires r1.pairings == r.pairings && r1.channels == r.channels
    ensures IssuePromise(env, r, installation, q, r', reply)
  {
    hide P.Free, P.FreshCode;
    assert HasChannel(r1, installation) <==> HasChannel(r, installation);
  }

  /** From the code to the session: the clear text that an installation is answered with, typed in any way, opens a
      session of its channel on an allowed watch at any time before it expires, as long as no other code of the same
      hash is as new. */
  lemma CodeOpensSession(env: Env, now: Time, requests: seq<Request>, q: Request, claim: Request)
    requires env.persisted && env.maxEvents > 0 && claim.ClaimPairingCode?
    requires q.CreatePairingCode? && |q.tries| == P.TRIES
    ensures var w := Run(env, Start(now), requests);
            Fits(env, w.relay, w.used, q) && HandleCreatePairingCode(env, w.relay, q).1.Code? ==>
            var w' := Next(env, w, q);
            var installation := Resolve(w.relay, q.bearer).installation;
            var clear := HandleCreatePairingCode(env, w.relay, q).1.clear;
            && q.code in w'.relay.pairings.mem
            && var code := w'.relay.pairings.mem[q.code];
               && code.installation == installation
               && (Fits(env, w'.relay, w'.used, claim) && Uncontested(w'.relay.pairings.mem, code)
                   && P.Normalize(claim.raw) == P.Normalize(clear) && claim.now < code.expiresAt
                   && claim.allowed && Text.Trim(claim.watchID) != "" && claim.saves.first && claim.saves.second ==>
                     var (r'', reply) := HandleClaimPairingCode(env, w'.relay, claim);
                     && reply == Session(claim.session, code.channel)
                     && Resolve(r'', Some(claim.session)) == ByWatch(code.channel, installation))
  {
    hide Inv, Fits, Resolve, Run, HandleCreatePairingCode, HandleClaimPairingCode, Text.Trim, P.Normalize;
    var w := Run(env, Start(now), requests);
    ReferentialIntegrity(env, now, requests);
    if Fits(env, w.relay, w.used, q) && HandleCreatePairingCode(env, w.relay, q).1.Code? {
      FitsCode(env, w, q);
      CodeAnswers(env, w, q);
      RequestKeepsInv(env, w, q);
      var w' := Next(env, w, q);
      var clear := HandleCreatePairingCode(env, w.relay, q).1.clear;
      if Fits(env, w'.relay, w'.used, claim) && claim.allowed && Text.Trim(claim.watchID) != "" {
        FreshCodeClaims(env, w', w'.relay.pairings.mem[q.code], clear, claim);
      }
    }
  }

  lemma FitsCode(env: Env, w: World, q: Request)
    requires q.CreatePairingCode? && Fits(env, w.relay, w.used, q)
    ensures |q.tries| == P.TRIES && Next(env, w, q).relay == HandleCreatePairingCode(env, w.relay, q).0
  {
    hide FreshDraws, HandleCreatePairingCode;
  }

  /** Any other code of the same hash is older. */
  predicate Uncontested(codes: P.Codes, code: P.Code) {
    forall p | p in codes && p != code.id && codes[p].hash == code.hash :: codes[p].createdAt < code.createdAt
  }

  lemma FreshCodeClaims(env: Env, w: World, code: P.Code, clear: string, claim: Request)
    requires Inv(env, w) && claim.ClaimPairingCode? && Fits(env, w.relay, w.used, claim)
    requires claim.allowed && Text.Trim(claim.watchID) != ""
    requires code.id in w.relay.pairings.mem && w.relay.pairings.mem[code.id] == code
    requires code.claimedAt.None? && code.attempts == 0
    requires code.hash == P.HashCode(env.sha, clear) && code.hash != ""
    ensures Uncontested(w.relay.pairings.mem, code) && P.Normalize(claim.raw) == P.Normalize(clear)
            && claim.now < code.expiresAt && claim.saves.first && claim.saves.second ==>
              var (r', reply) := HandleClaimPairingCode(env, w.relay, claim);
              && reply == Session(claim.session, code.channel)
              && Resolve(r', Some(claim.session)) == ByWatch(code.channel, code.installation)
  {
    hide Inv, Fresh, FreshDraws, DrawnBy, Draws, Resolve, HandleClaimPairingCode, Text.Trim;
    if Uncontested(w.relay.pairings.mem, code) && P.Normalize(claim.raw) == P.Normalize(clear)
       && claim.now < code.expiresAt && claim.saves.first && claim.saves.second
    {
      DrawsAreFresh(claim, w.used);
      UncontestedPick(env, w.relay.pairings, code, clear, claim);
      ClaimOpens(env, w, claim);
    }
  }

  lemma UncontestedPick(env: Env, k: Kept<P.Codes>, code: P.Code, clear: string, claim: Request)
    requires claim.ClaimPairingCode? && P.CanPick(env.sha, k.mem, claim.raw, claim.pick)
    requires code.id in k.mem && k.mem[code.id] == code && Uncontested(k.mem, code)
    requires code.claimedAt.None? && code.attempts == 0 && claim.now < code.expiresAt && claim.saves.first
    requires P.Normalize(claim.raw) == P.Normalize(clear) && code.hash == P.HashCode(env.sha, clear) && code.hash != ""
    ensures var result := P.Claim(env.sha, true, k, claim.raw, claim.pick, claim.now, claim.saves.first).1;
            result.Claimed? && result.code.channel == code.channel && result.code.installation == code.installation
  {
    hide P.Normalize;
    P.HashOfNormal(env.sha, claim.raw);
    P.HashOfNormal(env.sha, clear);
    hide P.HashCode;
    assert P.HasHash(k.mem, code.hash);
  }

  // ---------------------------------------------------------------- events

  /** The answer to POST /v1/events: a producer's event is appended to its own channel as the log promises. */
  ghost predicate EventPromise(env: Env, w: World, q: Request, r': Relay, reply: Reply)
    requires q.CreateEvent? && env.maxEvents > 0
  {
    var auth := Resolve(w.relay, q.bearer);
    var entitled := auth.ByProducer? && q.allowed && q.input.kind.Some?;
    match reply
    case Unauthorized => !auth.ByProducer? && r'.log == w.relay.log
    case TooManyRequests => auth.ByProducer? && !q.allowed && r'.log == w.relay.log
    case BadRequest => auth.ByProducer? && q.allowed && q.input.kind.None? && r'.log == w.relay.log
    case EventReply(e, deduplicated) =>
      entitled && L.AppendPromise(LogConfig(env), w.relay.log, q.input.(channel := auth.channel), q.now, q.saves.first,
                                  r'.log, if deduplicated then L.Duplicate(e) else L.Appended(e))
    case ServerError =>
      entitled && L.AppendPromise(LogConfig(env), w.relay.log, q.input.(channel := auth.channel), q.now, q.saves.first,
                                  r'.log, L.SaveFailed)
    case _ => false
  }

  lemma EventAnswers(env: Env, w: World, q: Request)
    requires Inv(env, w) && q.CreateEvent? && |q.pushes| == |q.order|
    ensures env.maxEvents > 0
    ensures var (r', reply) := HandleCreateEvent(env, w.relay, q); EventPromise(env, w, q, r', reply)
  {
    hide Inv, Resolve, Touched, L.Append, Deliver, L.AppendPromise;
    HasRoom(env, w);
    Authenticated(env, w, q.bearer, q.now, q.saves.touch);
    var auth := Resolve(w.relay, q.bearer);
    if auth.ByProducer? {
      var input := q.input.(channel := auth.channel);
      L.AppendKeepsPromise(LogConfig(env), w.relay.log, input, q.now, q.saves.first);
      if input.kind.Some? { NoInvalidType(env, w.relay.log, input, q.now, q.saves.first); }
    }
  }

  lemma HasRoom(env: Env, w: World)
    requires Inv(env, w)
    ensures env.persisted && env.maxEvents > 0
  {
  }

  lemma NoInvalidType(env: Env, log: L.Log, input: L.Input, now: Time, ok: bool)
    requires input.kind.Some?
    ensures !L.Append(LogConfig(env), log, input, now, ok).1.InvalidType?
  {
    hide L.FindDuplicate, Text.Trim, L.TrimEvents;
  }

  /** The answer to GET /v1/events: a watch is given the stored events of its own channel above the cursor, in order. */
  ghost predicate ReadPromise(w: World, q: Request, r': Relay, reply: Reply)
    requires q.ReadEvents?
  {
    var auth := Resolve(w.relay, q.bearer);
    && r'.log == w.relay.log
    && match reply
       case Unauthorized => !auth.ByWatch?
       case Events(events) =>
         && auth.ByWatch? && L.Ascending(events)
         && forall e :: e in events <==> e in w.relay.log.mem.events && e.channel == auth.channel && q.after < e.id
       case _ => false
  }

  lemma ReadAnswers(env: Env, w: World, q: Request)
    requires Inv(env, w) && q.ReadEvents?
    ensures var (r', reply) := HandleReadEvents(env, w.relay, q); ReadPromise(w, q, r', reply)
  {
    hide Inv, Resolve, Touched, L.Since, Text.Trim;
    Authenticated(env, w, q.bearer, q.now, q.saves.touch);
    var auth := Resolve(w.relay, q.bearer);
    AuthExists(env, w, q.bearer);
    if auth.ByWatch? {
      KnownChannelID(env, w, auth.channel);
      StoredEvents(env, w);
      L.SinceMeaning(w.relay.log.mem.events, auth.channel, q.after);
    }
  }

  lemma StoredEvents(env: Env, w: World)
    requires Inv(env, w)
    ensures L.Ascending(w.relay.log.mem.events)
    ensures forall e <- w.relay.log.mem.events :: Text.Trim(e.channel) == e.channel
  {
    hide Tables, Refs, Scopes, Drawn, L.Ascending, Text.Trim;
    forall e <- w.relay.log.mem.events ensures Text.Trim(e.channel) == e.channel { Text.TrimFixpoint(e.channel); }
  }

  /** What a watch is given of an event that is the last one stored. */
  ghost predicate GivenLast(env: Env, w: World, e: L.Event, read: Request)
    requires read.ReadEvents?
  {
    var watch := Resolve(w.relay, read.bearer);
    var answer := HandleReadEvents(env, w.relay, read).1;
    watch.ByWatch? ==>
      && answer.Events?
      && if watch.channel == e.channel && read.after < e.id
         then answer.events != [] && answer.events[|answer.events| - 1] == e
         else e !in answer.events
  }

  lemma LastIsGiven(env: Env, w: World, e: L.Event, read: Request)
    requires Inv(env, w) && read.ReadEvents?
    requires w.relay.log.mem.events != [] && w.relay.log.mem.events[|w.relay.log.mem.events| - 1] == e
    ensures GivenLast(env, w, e, read)
  {
    hide Inv, Resolve, HandleReadEvents, L.Ascending;
    ReadAnswers(env, w, read);
    StoredEvents(env, w);
    if Resolve(w.relay, read.bearer).ByWatch? {
      LastGiven(w.relay.log.mem.events, HandleReadEvents(env, w.relay, read).1.events, e);
    }
  }

  /** From the producer to the watch: an event answered as new is the last one a watch of the same channel is given when
      it asks from below its id, and no watch of another channel is given it. */
  lemma PostedIsRead(env: Env, now: Time, requests: seq<Request>, q: Request, read: Request)
    requires env.persisted && env.maxEvents > 0 && q.CreateEvent? && read.ReadEvents? && |q.pushes| == |q.order|
    ensures var w := Run(env, Start(now), requests);
            var reply := HandleCreateEvent(env, w.relay, q).1;
            Fits(env, w.relay, w.used, q) && reply.EventReply? && !reply.deduplicated ==>
              && reply.event.channel == Resolve(w.relay, q.bearer).channel
              && GivenLast(env, Next(env, w, q), reply.event, read)
  {
    hide Inv, Fits, Resolve, Run, Next, HandleCreateEvent, GivenLast, L.Carries, EventPromise;
    var w := Run(env, Start(now), requests);
    ReferentialIntegrity(env, now, requests);
    var reply := HandleCreateEvent(env, w.relay, q).1;
    if Fits(env, w.relay, w.used, q) && reply.EventReply? && !reply.deduplicated {
      FitsEvent(env, w, q);
      EventAnswers(env, w, q);
      NewEventStored(env, w, q, HandleCreateEvent(env, w.relay, q).0, reply);
      PostedTo(env, w, q, reply.event);
      RequestKeepsInv(env, w, q);
      LastIsGiven(env, Next(env, w, q), reply.event, read);
    }
  }

  lemma NewEventStored(env: Env, w: World, q: Request, r': Relay, reply: Reply)
    requires q.CreateEvent? && env.maxEvents > 0 && EventPromise(env, w, q, r', reply)
    requires reply.EventReply? && !reply.deduplicated
    ensures Resolve(w.relay, q.bearer).ByProducer?
    ensures L.Carries(reply.event, q.input.(channel := Resolve(w.relay, q.bearer).channel), q.now)
    ensures r'.log.mem.events != [] && r'.log.mem.events[|r'.log.mem.events| - 1] == reply.event
  {
    hide Resolve, L.Carries;
  }

  lemma FitsEvent(env: Env, w: World, q: Request)
    requires q.CreateEvent? && Fits(env, w.relay, w.used, q)
    ensures |q.pushes| == |q.order| && Next(env, w, q).relay == HandleCreateEvent(env, w.relay, q).0
  {
    hide FreshDraws, HandleCreateEvent, DeliveryOrder, Resolve;
  }

  lemma PostedTo(env: Env, w: World, q: Request, e: L.Event)
    requires Inv(env, w) && q.CreateEvent? && Resolve(w.relay, q.bearer).ByProducer?
    requires L.Carries(e, q.input.(channel := Resolve(w.relay, q.bearer).channel), q.now)
    ensures e.channel == Resolve(w.relay, q.bearer).channel
  {
    hide Inv, Resolve, Text.Trim;
    AuthExists(env, w, q.bearer);
    KnownChannelID(env, w, Resolve(w.relay, q.bearer).channel);
  }

  lemma LastGiven(events: seq<L.Event>, given: seq<L.Event>, last: L.Event)
    requires L.Ascending(events) && L.Ascending(given) && events != [] && events[|events| - 1] == last
    requires forall e <- given :: e in events
    ensures last in given ==> given[|given| - 1] == last
  {
    if last in given {
      var i :| 0 <= i < |given| && given[i] == last;
      assert given[|given| - 1] in events;
    }
  }

  // ---------------------------------------------------------------- devices and deliveries

  /** What a registration by a watch of the installation asks the store for: its own ids and token under the topic and
      environment this relay pushes with. */
  function Wish(env: Env, installation: string, watchID: string, pushToken: string): D.Device {
    D.Device(installation, watchID, pushToken, topic := env.topic, environment := env.environment, createdAt := None,
             updatedAt := 0)
  }

  /** The answer to POST /v1/watch/devices. */
  ghost predicate RegisterPromise(env: Env, w: World, q: Request, r': Relay, reply: Reply)
    requires q.RegisterDevice?
  {
    var auth := Resolve(w.relay, q.bearer);
    var entitled := auth.ByWatch? && q.allowed && env.topic != "";
    var wish := Wish(env, if auth.ByWatch? then auth.installation else "", q.watchID, q.pushToken);
    var id := Text.Trim(q.watchID);
    match reply
    case Unauthorized => !auth.ByWatch? && r'.devices == w.relay.devices
    case TooManyRequests => auth.ByWatch? && !q.allowed && r'.devices == w.relay.devices
    case Unavailable => auth.ByWatch? && q.allowed && env.topic == "" && r'.devices == w.relay.devices
    case BadRequest => entitled && (!D.Acceptable(wish) || !q.saves.first) && r'.devices == w.relay.devices
    case Success =>
      && entitled && D.Acceptable(wish) && q.saves.first && id in r'.devices.mem
      && D.Registers(r'.devices.mem[id], wish, w.relay.devices.mem, q.now)
      && r'.devices.mem == w.relay.devices.mem[id := r'.devices.mem[id]]
    case _ => false
  }

  lemma RegisterAnswers(env: Env, w: World, q: Request)
    requires Inv(env, w) && q.RegisterDevice?
    ensures var (r', reply) := HandleRegisterDevice(env, w.relay, q); RegisterPromise(env, w, q, r', reply)
  {
    hide Inv, Resolve, Touched, D.Upsert, Text.Trim, D.Acceptable, D.Registers;
    HasRoom(env, w);
    Authenticated(env, w, q.bearer, q.now, q.saves.touch);
    var auth := Resolve(w.relay, q.bearer);
    if auth.ByWatch? {
      D.UpsertKeepsPromise(env.persisted, w.relay.devices, Wish(env, auth.installation, q.watchID, q.pushToken), q.now,
                           q.saves.first);
    }
  }

  /** The answer to DELETE /v1/watch/devices: the caller's own device goes, and a missing one is no error. */
  ghost predicate ForgetPromise(w: World, q: Request, r': Relay, reply: Reply)
    requires q.DeleteDevice?
  {
    var auth := Resolve(w.relay, q.bearer);
    var id, table := Text.Trim(q.watchID), w.relay.devices.mem;
    match reply
    case Unauthorized => !auth.ByWatch? && r'.devices == w.relay.devices
    case BadRequest => auth.ByWatch? && id == "" && r'.devices == w.relay.devices
    case _ =>
      && auth.ByWatch? && id != ""
      && if id !in table || table[id].installation != auth.installation
         then reply == NoContent && r'.devices == w.relay.devices
         else if q.saves.first then reply == NoContent && r'.devices.mem == table - {id}
         else reply == ServerError && r'.devices == w.relay.devices
  }

  lemma ForgetAnswers(env: Env, w: World, q: Request)
    requires Inv(env, w) && q.DeleteDevice?
    ensures var (r', reply) := HandleDeleteDevice(env, w.relay, q); ForgetPromise(w, q, r', reply)
  {
    hide Inv, Resolve, Touched, D.Remove, Text.Trim, Text.Trimmed;
    HasRoom(env, w);
    Authenticated(env, w, q.bearer, q.now, q.saves.touch);
    AuthExists(env, w, q.bearer);
    var auth := Resolve(w.relay, q.bearer);
    if auth.ByWatch? {
      KnownInstallation(env, w, auth.installation);
      Text.TrimFixpoint(auth.installation);
      D.RemoveKeepsPromise(env.persisted, w.relay.devices, auth.installation, q.watchID, q.saves.first);
      var (k', result) := D.Remove(env.persisted, w.relay.devices, auth.installation, q.watchID, q.saves.first);
      assert D.RemovePromise(true, w.relay.devices, auth.installation, q.watchID, q.saves.first, k', result);
    }
  }

  function CountSent(pushes: seq<Push>): nat {
    if pushes == [] then 0 else CountSent(pushes[..|pushes| - 1]) + if pushes[|pushes| - 1].Sent? then 1 else 0
  }

  /** The push service called a token of the list invalid, and its removal was saved. */
  predicate Reported(order: seq<D.Device>, pushes: seq<Push>, token: string)
    requires |pushes| == |order|
  {
    exists i | 0 <= i < |order| ::
      pushes[i].TokenInvalid? && pushes[i].saveOk && D.NormalizeToken(order[i].token) == token
  }

  /** The devices a delivery leaves: all but those whose token was reported. */
  predicate Undeliverable(before: D.Table, after: D.Table, order: seq<D.Device>, pushes: seq<Push>)
    requires |pushes| == |order|
  {
    && (forall d <- after :: d in before && after[d] == before[d])
    && (forall d <- before :: d !in after <==> Reported(order, pushes, before[d].token))
  }

  /** A delivery counts the pushes that were sent and forgets the tokens that were reported. */
  lemma {:induction false} DeliverMeaning(env: Env, k: Kept<D.Table>, order: seq<D.Device>, pushes: seq<Push>)
    requires |pushes| == |order| && env.persisted
    ensures var (k', sent) := Deliver(env.persisted, k, order, pushes);
            sent == CountSent(pushes) && Undeliverable(k.mem, k'.mem, order, pushes)
  {
    if order != [] {
      var n := |order| - 1;
      DeliverMeaning(env, k, order[..n], pushes[..n]);
      var (k1, _) := Deliver(env.persisted, k, order[..n], pushes[..n]);
      var (k', _) := Deliver(env.persisted, k, order, pushes);
      forall token { ReportedStep(order, pushes, token); }
      if pushes[n].TokenInvalid? { TokenForgotten(env, k1, order[n].token, pushes[n].saveOk); }
      hide Reported, D.NormalizeToken;
    }
  }

  lemma ReportedStep(order: seq<D.Device>, pushes: seq<Push>, token: string)
    requires |pushes| == |order| && order != []
    ensures var n := |order| - 1;
            Reported(order, pushes, token) <==>
            Reported(order[..n], pushes[..n], token)
            || (pushes[n].TokenInvalid? && pushes[n].saveOk && D.NormalizeToken(order[n].token) == token)
  {
    hide D.NormalizeToken;
    var n := |order| - 1;
    assert forall i | 0 <= i < n :: order[..n][i] == order[i] && pushes[..n][i] == pushes[i];
  }

  lemma TokenForgotten(env: Env, k: Kept<D.Table>, token: string, ok: bool)
    requires env.persisted
    ensures var k' := D.RemoveByToken(env.persisted, k, token, ok).0;
            && (forall d <- k'.mem :: d in k.mem && k'.mem[d] == k.mem[d])
            && (forall d <- k.mem :: d !in k'.mem <==> ok && k.mem[d].token == D.NormalizeToken(token))
  {
    hide D.NormalizeToken;
  }

  /** The answer to POST /v1/watch/test-notification. */
  ghost predicate TestPromise(w: World, q: Request, r': Relay, reply: Reply)
    requires q.TestNotification? && |q.pushes| == |q.order|
  {
    var auth := Resolve(w.relay, q.bearer);
    match reply
    case Unauthorized => !auth.ByWatch? && r'.devices == w.relay.devices
    case TooManyRequests => auth.ByWatch? && !q.allowed && r'.devices == w.relay.devices
    case SentCount(sent) =>
      && auth.ByWatch? && q.allowed && sent == CountSent(q.pushes)
      && Undeliverable(w.relay.devices.mem, r'.devices.mem, q.order, q.pushes)
    case _ => false
  }

  lemma TestAnswers(env: Env, w: World, q: Request)
    requires Inv(env, w) && q.TestNotification? && |q.pushes| == |q.order|
    ensures var (r', reply) := HandleTestNotification(env, w.relay, q); TestPromise(w, q, r', reply)
  {
    hide Inv, Resolve, Touched, Deliver, Undeliverable;
    HasRoom(env, w);
    Authenticated(env, w, q.bearer, q.now, q.saves.touch);
    DeliverMeaning(env, w.relay.devices, q.order, q.pushes);
  }

  // ---------------------------------------------------------------- claims

  /** The device a claim registers beside its session, when it brings a token and push is on. */
  ghost predicate ClaimedDevice(env: Env, installation: string, q: Request, before: Kept<D.Table>, after: Kept<D.Table>)
    requires q.ClaimPairingCode?
  {
    var wish, id := Wish(env, installation, q.watchID, q.pushToken), Text.Trim(q.watchID);
    if Text.Trim(q.pushToken) != "" && env.topic != "" && D.Acceptable(wish) && q.saves.third
    then id in after.mem && D.Registers(after.mem[id], wish, before.mem, q.now)
         && after.mem == before.mem[id := after.mem[id]]
    else after == before
  }

  /** The answer to POST /v1/watch/pairings/claim. A session is the drawn token for the channel of the picked code; that
      channel has it instead of its old one, and nothing else changes in the channels. */
  ghost predicate ClaimAnswer(env: Env, w: World, q: Request, r': Relay, reply: Reply)
    requires q.ClaimPairingCode?
  {
    var r := w.relay;
    match reply
    case TooManyRequests => !q.allowed && r' == r
    case BadRequest => q.allowed && Text.Trim(q.watchID) == "" && r' == r
    case ClaimRefused(why) =>
      && q.allowed && Text.Trim(q.watchID) != "" && !why.Claimed? && r' == r.(pairings := r'.pairings)
      && P.ClaimPromise(env.sha, true, r.pairings, q.raw, q.pick, q.now, q.saves.first, r'.pairings, why)
    case Session(session, channel) =>
      && q.allowed && Text.Trim(q.watchID) != "" && session == q.session && q.saves.second
      && q.pick in r.pairings.mem && channel in r.channels.mem
      && var code := r.pairings.mem[q.pick];
         && channel == code.channel && q.pick in r'.pairings.mem
         && P.ClaimPromise(env.sha, true, r.pairings, q.raw, q.pick, q.now, q.saves.first, r'.pairings,
                           P.Claimed(r'.pairings.mem[q.pick]))
         && r'.channels.mem == r.channels.mem[channel := r.channels.mem[channel].(watch := session, updatedAt := q.now,
                                                                                  pairedAt := Some(q.now))]
         && Resolve(r', Some(session)) == ByWatch(channel, code.installation)
         && r'.log == r.log && r'.installations == r.installations
         && ClaimedDevice(env, code.installation, q, r.devices, r'.devices)
    case ServerError =>
      && q.allowed && Text.Trim(q.watchID) != "" && !q.saves.second && r' == r.(pairings := r'.pairings)
      && q.pick in r.pairings.mem && q.pick in r'.pairings.mem
      && P.ClaimPromise(env.sha, true, r.pairings, q.raw, q.pick, q.now, q.saves.first, r'.pairings,
                        P.Claimed(r'.pairings.mem[q.pick]))
    case _ => false
  }

  lemma SessionRegisters(env: Env, r: Relay, installation: string, q: Request)
    requires q.ClaimPairingCode? && env.persisted
    ensures var (r', reply) := OpenSession(env, r, installation, q);
            reply.Session? ==> ClaimedDevice(env, installation, q, r.devices, r'.devices)
                               && r'.log == r.log && r'.installations == r.installations && r'.pairings == r.pairings
  {
    hide C.Rotate, D.Upsert, Text.Trim, D.Acceptable, D.Registers;
    D.UpsertKeepsPromise(env.persisted, r.devices, Wish(env, installation, q.watchID, q.pushToken), q.now,
                         q.saves.third);
  }

  lemma SessionRotates(env: Env, w: World, code: P.Code, q: Request)
    requires Inv(env, w) && q.ClaimPairingCode? && Fresh(q.session, w.used)
    requires code.installation in w.relay.installations.mem && code.channel in w.relay.channels.mem
    requires w.relay.channels.mem[code.channel].installation == code.installation
    ensures var (r', reply) := OpenSession(env, w.relay, code.installation, q);
            var c := w.relay.channels.mem[code.channel];
            && reply == (if q.saves.second then Session(q.session, code.channel) else ServerError)
            && (if q.saves.second
                then r'.channels.mem == w.relay.channels.mem[code.channel :=
                       c.(watch := q.session, updatedAt := q.now, pairedAt := Some(q.now))]
                else r' == w.relay)
  {
    hide C.Rotate, D.Upsert, Inv, Text.Trim, Fresh;
    HasRoom(env, w);
    OpenSessionKeeps(env, w, code, q);
    KnownChannel(env, w, code.channel);
    KnownTables(env, w);
    RotatedKept(env, w.relay, code.channel, q.session, q.now, q.saves.second);
  }

  lemma KnownTables(env: Env, w: World)
    requires Inv(env, w)
    ensures Tables(w.relay) && OnDisk(w.relay.channels)
  {
    hide Tables;
  }

  lemma ClaimAnswers(env: Env, w: World, q: Request)
    requires Inv(env, w) && q.ClaimPairingCode? && Fits(env, w.relay, w.used, q)
    ensures var (r', reply) := HandleClaimPairingCode(env, w.relay, q); ClaimAnswer(env, w, q, r', reply)
  {
    hide Inv, Fresh, FreshDraws, DrawnBy, Draws, Resolve, OpenSession, P.Claim, Text.Trim, ClaimedDevice;
    DrawsAreFresh(q, w.used);
    HasRoom(env, w);
    if q.allowed && Text.Trim(q.watchID) != "" {
      P.ClaimKeepsPromise(env.sha, true, w.relay.pairings, q.raw, q.pick, q.now, q.saves.first);
      var (pairings, claimed) := P.Claim(env.sha, true, w.relay.pairings, q.raw, q.pick, q.now, q.saves.first);
      var w1 := w.(relay := w.relay.(pairings := pairings));
      CodeClaimed(env, w, q.raw, q.pick, q.now, q.saves.first);
      if claimed.Claimed? {
        SessionRotates(env, w1, claimed.code, q);
        SessionRegisters(env, w1.relay, claimed.code.installation, q);
        if q.saves.second { ClaimOpens(env, w, q); }
      }
    }
  }

  // ---------------------------------------------------------------- nobody else notices

  /** The request is the installation's own: it, its producer or its watch asks, or the picked code is its. */
  ghost predicate Acts(w: World, q: Request, installation: string) {
    match q
    case ClaimPairingCode(_, _, pick, _, _, _, _, _) =>
      pick in w.relay.pairings.mem && w.relay.pairings.mem[pick].installation == installation
    case RestartProcess(_) => false
    case _ => var auth := Resolve(w.relay, q.bearer); !auth.Unknown? && auth.installation == installation
  }

  /** The identity with its token and times, and its channel with all its tokens. */
  predicate IdentityKept(r: Relay, r': Relay, j: string) {
    && (j in r.installations.mem ==> j in r'.installations.mem && r'.installations.mem[j] == r.installations.mem[j])
    && (forall c <- r.channels.mem | r.channels.mem[c].installation == j ::
          c in r'.channels.mem && r'.channels.mem[c] == r.channels.mem[c])
  }

  /** Its devices, unless their watch id is registered anew or their token is reported by the push service. */
  predicate DevicesKept(q: Request, r: Relay, r': Relay, j: string) {
    forall d <- r.devices.mem | r.devices.mem[d].installation == j ::
      || (d in r'.devices.mem && r'.devices.mem[d] == r.devices.mem[d])
      || ((q.RegisterDevice? || q.ClaimPairingCode?) && Text.Trim(q.watchID) == d)
      || ((q.CreateEvent? || q.TestNotification?) && |q.pushes| == |q.order|
          && Reported(q.order, q.pushes, r.devices.mem[d].token))
  }

  /** Its codes, until they expire. */
  predicate CodesKept(q: Request, r: Relay, r': Relay, j: string) {
    forall p <- r.pairings.mem | r.pairings.mem[p].installation == j ::
      || (p in r'.pairings.mem && r'.pairings.mem[p] == r.pairings.mem[p])
      || (q.CreatePairingCode? && r.pairings.mem[p].expiresAt <= q.now)
  }

  /** Its events, unless another one has to make room in a full log. */
  predicate EventsStay(env: Env, q: Request, r: Relay, r': Relay, j: string) {
    forall e <- r.log.mem.events | e.channel in r.channels.mem && r.channels.mem[e.channel].installation == j ::
      e in r'.log.mem.events || (q.CreateEvent? && |r.log.mem.events| >= env.maxEvents)
  }

  ghost predicate Spared(env: Env, q: Request, r: Relay, r': Relay, j: string) {
    IdentityKept(r, r', j) && DevicesKept(q, r, r', j) && CodesKept(q, r, r', j) && EventsStay(env, q, r, r', j)
  }

  /** Authentication touches the caller's own record. */
  lemma OthersUntouched(env: Env, w: World, bearer: Option<string>, now: Time, ok: bool, j: string)
    requires Inv(env, w)
    requires var auth := Resolve(w.relay, bearer); auth.Unknown? || auth.installation != j
    ensures var r' := Touched(env, w.relay, Resolve(w.relay, bearer), now, ok);
            r' == w.relay.(installations := r'.installations) && IdentityKept(w.relay, r', j)
  {
    hide Inv, Resolve, I.Touch;
    if Resolve(w.relay, bearer).ByInstallation? {
      RelayDeletion.TouchedSelf(env, w, bearer, now, ok);
      var r' := Touched(env, w.relay, Resolve(w.relay, bearer), now, ok);
      var own := Resolve(w.relay, bearer).installation;
      assert j in w.relay.installations.mem ==> j in w.relay.installations.mem - {own};
      assert forall i <- w.relay.installations.mem - {own} :: i in r'.installations.mem - {own};
    }
  }

  /** What stays of the other stores when only some of them changed. */
  lemma SparedBy(env: Env, q: Request, r: Relay, r': Relay, j: string)
    ensures r'.devices == r.devices ==> DevicesKept(q, r, r', j)
    ensures r'.pairings == r.pairings ==> CodesKept(q, r, r', j)
    ensures r'.log == r.log ==> EventsStay(env, q, r, r', j)
  {
  }

  lemma IdentityStays(r: Relay, r1: Relay, r': Relay, j: string)
    requires IdentityKept(r, r1, j) && r'.installations == r1.installations && r'.channels == r1.channels
    ensures IdentityKept(r, r', j)
  {
  }

  lemma KeptTwice(r: Relay, r1: Relay, r2: Relay, j: string)
    requires IdentityKept(r, r1, j) && IdentityKept(r1, r2, j)
    ensures IdentityKept(r, r2, j)
  {
  }

  lemma IdentifySpares(env: Env, w: World, auth: Auth, id: string, token: string, now: Time, ok: bool, j: string)
    requires Inv(env, w) && Fresh(id, w.used)
    ensures var r' := Identify(env, w.relay, auth, id, token, now, ok).0;
            IdentityKept(w.relay, r', j) && r' == w.relay.(installations := r'.installations)
  {
    hide I.Lookup, L.Inv, Tables, Refs, Scopes;
  }

  lemma EnsureSpares(env: Env, w: World, owner: string, id: string, producer: string, now: Time, ok: bool, j: string)
    requires Inv(env, w) && Fresh(id, w.used) && owner in w.relay.installations.mem
    ensures var r' := EnsureChannel(env, w.relay, owner, id, producer, now, ok).0;
            IdentityKept(w.relay, r', j) && r' == w.relay.(channels := r'.channels)
  {
    hide L.Inv, Tables, Refs, Scopes, EnsureChannel, HasChannel;
    EnsureShape(env, w, owner, id, producer, now, ok);
  }

  lemma EnrollSpares(env: Env, w: World, q: Request, j: string)
    requires Inv(env, w) && q.CreateInstallation? && Fits(env, w.relay, w.used, q) && !Acts(w, q, j)
    ensures Spared(env, q, w.relay, HandleCreateInstallation(env, w.relay, q).0, j)
  {
    hide Inv, Fresh, FreshDraws, DrawnBy, Draws, Resolve, Touched, Identify, EnsureChannel, IdentityKept, DevicesKept,
         CodesKept, EventsStay;
    DrawsAreFresh(q, w.used);
    var auth := Resolve(w.relay, q.bearer);
    var r1 := Touched(env, w.relay, auth, q.now, q.saves.touch);
    var r' := HandleCreateInstallation(env, w.relay, q).0;
    OthersUntouched(env, w, q.bearer, q.now, q.saves.touch, j);
    Authenticated(env, w, q.bearer, q.now, q.saves.touch);
    var w1 := w.(relay := r1);
    IdentifyShape(env, w, q.bearer, q.id, q.token, q.now, q.saves.touch, q.saves.first);
    IdentifyKeeps(env, w1, auth, q.id, q.token, q.now, q.saves.first);
    IdentifySpares(env, w1, auth, q.id, q.token, q.now, q.saves.first, j);
    var (r2, made) := Identify(env, r1, auth, q.id, q.token, q.now, q.saves.first);
    KeptTwice(w.relay, r1, r2, j);
    if (auth.ByInstallation? || q.allowed) && made.Some? {
      EnsureSpares(env, World(r2, w.accepted, w.used + {q.id, q.token}), made.value.id, q.channel, q.producer, q.now,
                   q.saves.second, j);
      KeptTwice(w.relay, r2, r', j);
    }
    SparedBy(env, q, w.relay, r', j);
  }

  lemma DeleteSpares(env: Env, w: World, q: Request, j: string)
    requires Inv(env, w) && q.DeleteInstallation? && !Acts(w, q, j)
    ensures Spared(env, q, w.relay, HandleDeleteInstallation(env, w.relay, q).0, j)
  {
    hide Inv, Resolve, Touched, HandleDeleteInstallation, OthersKept, Spared;
    var r' := HandleDeleteInstallation(env, w.relay, q).0;
    if Resolve(w.relay, q.bearer).ByInstallation? {
      RelayDeletion.DeleteFromAnywhere(env, w, q);
      EventsHaveChannels(env, w);
      OthersKeptSpares(env, q, w.relay, r', Resolve(w.relay, q.bearer).installation, j);
    } else {
      RefusedDelete(env, w.relay, q);
      NothingChanged(env, q, w.relay, j);
    }
  }

  lemma RefusedDelete(env: Env, r: Relay, q: Request)
    requires q.DeleteInstallation? && !Resolve(r, q.bearer).ByInstallation?
    ensures HandleDeleteInstallation(env, r, q).0 == r
  {
    hide Resolve;
  }

  lemma NothingChanged(env: Env, q: Request, r: Relay, j: string)
    ensures Spared(env, q, r, r, j)
  {
  }

  lemma EventsHaveChannels(env: Env, w: World)
    requires Inv(env, w)
    ensures L.Ascending(w.relay.log.mem.events)
    ensures forall e <- w.relay.log.mem.events :: Text.Trim(e.channel) == e.channel
    ensures forall c <- w.relay.channels.mem :: Text.Trim(c) == c
  {
    hide Inv, L.Ascending, Text.Trim;
    StoredEvents(env, w);
    forall c <- w.relay.channels.mem { KnownChannelID(env, w, c); }
  }

  lemma OthersKeptSpares(env: Env, q: Request, r: Relay, r': Relay, own: string, j: string)
    requires OthersKept(r, r', own) && j != own && L.Ascending(r.log.mem.events)
    requires forall e <- r.log.mem.events :: Text.Trim(e.channel) == e.channel
    ensures Spared(env, q, r, r', j)
  {
    hide Text.Trim, L.Ascending, EventsStay;
    assert j in r.installations.mem ==> j in r.installations.mem - {own};
    assert forall i <- r.installations.mem - {own} :: i in r'.installations.mem - {own};
    forall p <- r.pairings.mem | r.pairings.mem[p].installation == j
      ensures p in r'.pairings.mem && r'.pairings.mem[p] == r.pairings.mem[p]
    {
      assert p in P.WithoutInstallation(r.pairings.mem, own);
      assert p in P.WithoutInstallation(r'.pairings.mem, own);
    }
    forall d <- r.devices.mem | r.devices.mem[d].installation == j
      ensures d in r'.devices.mem && r'.devices.mem[d] == r.devices.mem[d]
    {
      assert d in D.WithoutInstallation(r.devices.mem, own);
      assert d in D.WithoutInstallation(r'.devices.mem, own);
    }
    EventsKeptStay(env, q, r, r', own, j);
  }

  lemma EventsKeptStay(env: Env, q: Request, r: Relay, r': Relay, own: string, j: string)
    requires EventsKept(r, r', own) && j != own && L.Ascending(r.log.mem.events)
    requires forall e <- r.log.mem.events :: Text.Trim(e.channel) == e.channel
    ensures EventsStay(env, q, r, r', j)
  {
    hide Text.Trim, L.Ascending;
    forall e <- r.log.mem.events | e.channel in r.channels.mem && r.channels.mem[e.channel].installation == j
      ensures e in r'.log.mem.events
    {
      L.SinceMeaning(r.log.mem.events, e.channel, e.id - 1);
      assert L.Since(r'.log.mem.events, e.channel, e.id - 1) == L.Since(r.log.mem.events, e.channel, e.id - 1);
      SinceFrom(r'.log.mem.events, e.channel, e.id - 1);
    }
  }

  lemma {:induction false} SinceFrom(events: seq<L.Event>, channel: string, after: int)
    ensures forall e <- L.Since(events, channel, after) :: e in events
  {
    hide Text.Trim;
    if events != [] { SinceFrom(events[..|events| - 1], channel, after); }
  }

  lemma CodeSpares(env: Env, w: World, q: Request, j: string)
    requires Inv(env, w) && q.CreatePairingCode? && Fits(env, w.relay, w.used, q) && !Acts(w, q, j)
    ensures Spared(env, q, w.relay, HandleCreatePairingCode(env, w.relay, q).0, j)
  {
    hide Inv, FreshDraws, DrawnBy, Draws, Resolve, Touched, IssueCode, IdentityKept, DevicesKept, CodesKept, EventsStay,
         Text.Trim;
    DrawsAreFresh(q, w.used);
    var auth := Resolve(w.relay, q.bearer);
    var r1 := Touched(env, w.relay, auth, q.now, q.saves.touch);
    var r' := HandleCreatePairingCode(env, w.relay, q).0;
    OthersUntouched(env, w, q.bearer, q.now, q.saves.touch, j);
    Authenticated(env, w, q.bearer, q.now, q.saves.touch);
    SparedBy(env, q, w.relay, r', j);
    if MayIssue(auth, q) {
      IssueSpares(env, w.(relay := r1), auth.installation, q, j);
      KeptTwice(w.relay, r1, r', j);
      SameCodesKept(q, w.relay, r1, r', j);
    }
  }

  lemma SameCodesKept(q: Request, r: Relay, r1: Relay, r': Relay, j: string)
    requires CodesKept(q, r1, r', j) && r1.pairings == r.pairings
    ensures CodesKept(q, r, r', j)
  {
  }

  lemma IssueSpares(env: Env, w: World, installation: string, q: Request, j: string)
    requires Inv(env, w) && q.CreatePairingCode? && |q.tries| == P.TRIES && installation in w.relay.installations.mem
    requires Fresh(q.channel, w.used) && Fresh(q.producer, w.used) && Fresh(q.code, w.used) && j != installation
    ensures var r' := IssueCode(env, w.relay, installation, q).0;
            && IdentityKept(w.relay, r', j) && CodesKept(q, w.relay, r', j)
            && r'.devices == w.relay.devices && r'.log == w.relay.log
  {
    hide Inv, Fresh, EnsureChannel, P.Create, Text.Trim, Text.Trimmed, P.Free, P.FreshCode, IdentityKept;
    IssueShape(env, w, installation, q);
    EnsureSpares(env, w, installation, q.channel, q.producer, q.now, q.saves.first, j);
    var (r2, channel) := EnsureChannel(env, w.relay, installation, q.channel, q.producer, q.now, q.saves.first);
    var r' := IssueCode(env, w.relay, installation, q).0;
    IdentityStays(w.relay, r2, r', j);
    CodeNotStored(env, w, q.code);
    if channel.Ok? {
      P.CreateKeepsPromise(env.sha, env.persisted, r2.pairings, installation, channel.value.id, env.pairingTTL, q.now,
                           q.tries, q.code, q.saves.second);
    }
  }

  lemma CodeNotStored(env: Env, w: World, id: string)
    requires Inv(env, w) && Fresh(id, w.used)
    ensures id !in w.relay.pairings.mem
  {
  }

  lemma ClaimSpares(env: Env, w: World, q: Request, j: string)
    requires Inv(env, w) && q.ClaimPairingCode? && Fits(env, w.relay, w.used, q) && !Acts(w, q, j)
    ensures Spared(env, q, w.relay, HandleClaimPairingCode(env, w.relay, q).0, j)
  {
    hide Inv, Fits, Resolve, HandleClaimPairingCode, P.HashCode, P.Normalize, P.HasHash, D.Registers, D.Acceptable,
         Text.Trim;
    ClaimAnswers(env, w, q);
    if q.pick in w.relay.pairings.mem { PickedChannel(env, w, q.pick); }
  }

  lemma PickedChannel(env: Env, w: World, pick: string)
    requires Inv(env, w) && pick in w.relay.pairings.mem
    ensures PairingRef(w.relay, w.relay.pairings.mem[pick])
  {
  }

  predicate OnDevices(q: Request) {
    q.CreateEvent? || q.RegisterDevice? || q.DeleteDevice? || q.TestNotification? || q.ReadEvents?
  }

  lemma OtherStores(env: Env, w: World, q: Request)
    requires Fits(env, w.relay, w.used, q) && OnDevices(q)
    ensures var r' := Handle(env, w.relay, w.used, q).0;
            && r'.pairings == w.relay.pairings && (!q.CreateEvent? ==> r'.log == w.relay.log)
            && (q.ReadEvents? ==> r'.devices == w.relay.devices)
  {
    hide FreshDraws, Resolve, DeliveryOrder, L.Append, Deliver, D.Upsert, D.Remove, Text.Trim, I.Touch;
  }

  lemma AppendKeepsOld(env: Env, log: L.Log, input: L.Input, now: Time, ok: bool, log': L.Log, outcome: L.Outcome)
    requires env.maxEvents > 0 && L.AppendPromise(LogConfig(env), log, input, now, ok, log', outcome)
    ensures |log.mem.events| < env.maxEvents ==> forall e <- log.mem.events :: e in log'.mem.events
  {
    hide L.Carries, L.NewestTwin, L.HasTwin;
  }

  lemma EventKeepsOld(env: Env, w: World, q: Request, j: string)
    requires Inv(env, w) && q.CreateEvent? && |q.pushes| == |q.order|
    ensures EventsStay(env, q, w.relay, HandleCreateEvent(env, w.relay, q).0, j)
  {
    hide Inv, Resolve, HandleCreateEvent, L.AppendPromise;
    EventAnswers(env, w, q);
    var auth := Resolve(w.relay, q.bearer);
    var (r', reply) := HandleCreateEvent(env, w.relay, q);
    if auth.ByProducer? {
      var input := q.input.(channel := auth.channel);
      if reply.EventReply? {
        AppendKeepsOld(env, w.relay.log, input, q.now, q.saves.first, r'.log,
                       if reply.deduplicated then L.Duplicate(reply.event) else L.Appended(reply.event));
      } else if reply.ServerError? {
        AppendKeepsOld(env, w.relay.log, input, q.now, q.saves.first, r'.log, L.SaveFailed);
      }
    }
  }

  lemma EventDevices(env: Env, w: World, q: Request, j: string)
    requires Inv(env, w) && q.CreateEvent? && |q.pushes| == |q.order|
    ensures DevicesKept(q, w.relay, HandleCreateEvent(env, w.relay, q).0, j)
  {
    hide Inv, Resolve, L.Append, Deliver, Reported;
    HasRoom(env, w);
    DeliverMeaning(env, w.relay.devices, q.order, q.pushes);
  }

  lemma DeviceRequestSpares(env: Env, w: World, q: Request, j: string)
    requires Inv(env, w) && OnDevices(q) && Fits(env, w.relay, w.used, q) && !Acts(w, q, j)
    ensures DevicesKept(q, w.relay, Handle(env, w.relay, w.used, q).0, j)
  {
    hide Inv, FreshDraws, Resolve, DeliveryOrder, HandleCreateEvent, HandleRegisterDevice, HandleDeleteDevice,
         HandleTestNotification, HandleReadEvents, D.Registers, D.Acceptable, Text.Trim, Reported;
    match q
    case CreateEvent(_, _, _, _, _, _, _) => EventDevices(env, w, q, j);
    case RegisterDevice(_, _, _, _, _, _) => RegisterAnswers(env, w, q);
    case DeleteDevice(_, _, _, _) => ForgetAnswers(env, w, q);
    case TestNotification(_, _, _, _, _, _) => TestAnswers(env, w, q);
    case _ => OtherStores(env, w, q);
  }

  lemma OnDevicesSpares(env: Env, w: World, q: Request, j: string)
    requires Inv(env, w) && OnDevices(q) && Fits(env, w.relay, w.used, q) && !Acts(w, q, j)
    ensures Spared(env, q, w.relay, Handle(env, w.relay, w.used, q).0, j)
  {
    hide Inv, FreshDraws, Resolve, Touched, DeliveryOrder, HandleCreateEvent, HandleRegisterDevice, HandleDeleteDevice,
         HandleTestNotification, HandleReadEvents, IdentityKept, DevicesKept, CodesKept, EventsStay;
    var r' := Handle(env, w.relay, w.used, q).0;
    var r1 := Touched(env, w.relay, Resolve(w.relay, q.bearer), q.now, q.saves.touch);
    OthersUntouched(env, w, q.bearer, q.now, q.saves.touch, j);
    RelayDeletion.DeviceRequestsFrom(env, w, q);
    IdentityStays(w.relay, r1, r', j);
    OtherStores(env, w, q);
    SparedBy(env, q, w.relay, r', j);
    DeviceRequestSpares(env, w, q, j);
    if q.CreateEvent? { EventKeepsOld(env, w, q, j); }
  }

  lemma RestartSpares(env: Env, w: World, q: Request, j: string)
    requires Inv(env, w) && q.RestartProcess?
    ensures Spared(env, q, w.relay, HandleRestart(env, w.relay, q.now), j)
  {
    hide Inv, HandleRestart, L.Reopen, IdentityKept, DevicesKept, CodesKept;
    RestartKeeps(env, w, q.now);
    NothingChanged(env, q, w.relay, j);
    if w.accepted == [] { NoEventsYet(env, w); }
    var r' := HandleRestart(env, w.relay, q.now);
    SparedBy(env, q, w.relay, r', j);
    IdentityStays(w.relay, w.relay, r', j);
  }

  lemma NoEventsYet(env: Env, w: World)
    requires Inv(env, w) && w.accepted == []
    ensures w.relay.log.mem.events == []
  {
    hide Tables, Refs, Scopes, Drawn;
    NoneOfNone(w.relay.log.mem.events, w.accepted);
  }

  lemma NoneOfNone(s: seq<L.Event>, t: seq<L.Event>)
    requires forall e <- s :: e in t
    ensures t == [] ==> s == []
  {
    if s != [] { assert s[0] in t; }
  }

  /** Whatever one installation asks for, by itself, its producer or its watches, and whatever saves fail: every other
      one keeps its identity, tokens and channel, its codes until they expire, its devices unless their watch id or
      their reported push token is involved, and its events until a full log needs the room. */
  lemma NobodyElseNotices(env: Env, now: Time, requests: seq<Request>, q: Request, j: string)
    requires env.persisted && env.maxEvents > 0
    ensures var w := Run(env, Start(now), requests);
            !Acts(w, q, j) ==> Spared(env, q, w.relay, Next(env, w, q).relay, j)
  {
    hide Inv, Run, FreshDraws, Resolve, DeliveryOrder, P.CanPick, HandleCreateInstallation, HandleDeleteInstallation,
         HandleCreatePairingCode, HandleClaimPairingCode, HandleCreateEvent, HandleRegisterDevice, HandleDeleteDevice,
         HandleTestNotification, HandleReadEvents, HandleRestart, Spared, Acts;
    var w := Run(env, Start(now), requests);
    ReferentialIntegrity(env, now, requests);
    if !Acts(w, q, j) {
      if Fits(env, w.relay, w.used, q) {
        match q
        case CreateInstallation(_, _, _, _, _, _, _, _) => EnrollSpares(env, w, q, j);
        case DeleteInstallation(_, _, _) => DeleteSpares(env, w, q, j);
        case CreatePairingCode(_, _, _, _, _, _, _, _) => CodeSpares(env, w, q, j);
        case ClaimPairingCode(_, _, _, _, _, _, _, _) => ClaimSpares(env, w, q, j);
        case RestartProcess(_) => RestartSpares(env, w, q, j);
        case _ => OnDevicesSpares(env, w, q, j);
      } else {
        NothingChanged(env, q, w.relay, j);
      }
    }
  }

  // ---------------------------------------------------------------- every answer

  /** Which stores a request may change; an installation's time of last use moves with any of them. */
  predicate StoresChanged(q: Request, r: Relay, r': Relay) {
    && (!(q.CreateInstallation? || q.CreatePairingCode? || q.ClaimPairingCode? || q.DeleteInstallation?) ==>
          r'.channels == r.channels)
    && (!(q.CreatePairingCode? || q.ClaimPairingCode? || q.DeleteInstallation?) ==> r'.pairings == r.pairings)
    && (q.CreateInstallation? || q.CreatePairingCode? || q.ReadEvents? || q.RestartProcess? ==> r'.devices == r.devices)
    && (!(q.CreateEvent? || q.DeleteInstallation? || q.RestartProcess?) ==> r'.log == r.log)
  }

  lemma StoresOfOthers(env: Env, w: World, q: Request)
    requires Fits(env, w.relay, w.used, q) && (q.CreateInstallation? || q.CreatePairingCode? || q.ClaimPairingCode?)
    ensures StoresChanged(q, w.relay, Handle(env, w.relay, w.used, q).0)
  {
    hide FreshDraws, Resolve, P.CanPick, I.Lookup, I.Create, C.Ensure, P.Create, P.Claim, C.Rotate, D.Upsert, Text.Trim,
         I.Touch;
  }

  lemma StoresOfAll(env: Env, w: World, q: Request)
    requires Inv(env, w) && Fits(env, w.relay, w.used, q)
    ensures StoresChanged(q, w.relay, Handle(env, w.relay, w.used, q).0)
  {
    hide Inv, FreshDraws, Resolve, Touched, DeliveryOrder, P.CanPick, HandleCreateInstallation,
         HandleDeleteInstallation, HandleCreatePairingCode, HandleClaimPairingCode, HandleCreateEvent,
         HandleRegisterDevice, HandleDeleteDevice, HandleTestNotification, HandleReadEvents, HandleRestart;
    if OnDevices(q) {
      OtherStores(env, w, q);
      RelayDeletion.DeviceRequestsFrom(env, w, q);
      Authenticated(env, w, q.bearer, q.now, q.saves.touch);
    } else if q.RestartProcess? {
      RestartKeeps(env, w, q.now);
    } else if !q.DeleteInstallation? {
      StoresOfOthers(env, w, q);
    }
  }

  /** The time of last use of the asking installation, and of no other, is the request's. */
  ghost predicate UseRecorded(w: World, q: Request, r': Relay)
    requires !q.ClaimPairingCode? && !q.RestartProcess?
  {
    var auth := Resolve(w.relay, q.bearer);
    forall i <- w.relay.installations.mem | i in r'.installations.mem ::
      r'.installations.mem[i] == if auth.ByInstallation? && auth.installation == i && q.saves.touch
                                 then w.relay.installations.mem[i].(lastUsedAt := q.now)
                                 else w.relay.installations.mem[i]
  }

  lemma TouchRecords(env: Env, w: World, q: Request)
    requires Inv(env, w) && !q.ClaimPairingCode? && !q.RestartProcess?
    ensures UseRecorded(w, q, Touched(env, w.relay, Resolve(w.relay, q.bearer), q.now, q.saves.touch))
  {
    hide Inv, Resolve, I.Touch, I.Keyed, I.Distinct, Text.Trim, Text.Trimmed;
    KnownInstallations(env, w);
    HasRoom(env, w);
    AuthExists(env, w, q.bearer);
    var auth := Resolve(w.relay, q.bearer);
    I.KeyedIDs(w.relay.installations.mem);
    if auth.ByInstallation? {
      KnownToken(env, w, auth.installation);
      Text.TrimFixpoint(auth.token);
      I.TouchKeepsPromise(env.persisted, w.relay.installations, auth.token, q.now, q.saves.touch);
      OnlyHolder(w.relay.installations.mem, auth.installation);
    }
  }

  lemma KnownInstallations(env: Env, w: World)
    requires Inv(env, w)
    ensures I.Keyed(w.relay.installations.mem) && I.Distinct(w.relay.installations.mem)
  {
    hide I.Keyed, I.Distinct;
  }

  lemma OnlyHolder(table: I.Table, id: string)
    requires I.Distinct(table) && id in table
    ensures forall i <- table :: table[i].token == table[id].token <==> i == id
  {
  }

  lemma SameUse(w: World, q: Request, r1: Relay, r': Relay)
    requires !q.ClaimPairingCode? && !q.RestartProcess? && UseRecorded(w, q, r1)
    requires r1.installations.mem.Keys == w.relay.installations.mem.Keys
    requires SameRecords(r1, r')
    ensures UseRecorded(w, q, r')
  {
    hide Resolve;
  }

  predicate SameRecords(r: Relay, r': Relay) {
    forall i <- r.installations.mem | i in r'.installations.mem :: r'.installations.mem[i] == r.installations.mem[i]
  }

  lemma EnrollKeepsRecords(env: Env, w: World, auth: Auth, q: Request)
    requires Inv(env, w) && q.CreateInstallation? && Fresh(q.id, w.used)
    ensures SameRecords(w.relay, Enroll(env, w.relay, auth, q).0)
  {
    hide I.Lookup, C.Ensure, L.Inv, Tables, Refs, Scopes;
  }

  lemma IssueKeepsRecords(env: Env, r: Relay, installation: string, q: Request)
    requires q.CreatePairingCode? && |q.tries| == P.TRIES
    ensures IssueCode(env, r, installation, q).0.installations == r.installations
  {
    hide C.Ensure, P.Create;
  }

  lemma DeleteKeepsRecords(env: Env, r: Relay, installation: string, saves: Saves)
    ensures SameRecords(r, Delete(env, r, installation, saves).0)
  {
    hide DeleteRecords, C.Remove, Text.Trim;
    RelayDeletion.DeleteRecordsFrom(env, r, installation, saves);
  }

  /** What follows authentication leaves the installations' records as they are. */
  lemma RecordsStay(env: Env, w: World, q: Request)
    requires Inv(env, w) && Fits(env, w.relay, w.used, q) && !q.ClaimPairingCode? && !q.RestartProcess?
    ensures var r1 := Touched(env, w.relay, Resolve(w.relay, q.bearer), q.now, q.saves.touch);
            var r' := Handle(env, w.relay, w.used, q).0;
            SameRecords(r1, r')
  {
    hide Inv, FreshDraws, DrawnBy, Draws, Resolve, Touched, DeliveryOrder, P.CanPick, Identify, EnsureChannel,
         IssueCode, Delete, RecordEvent, HandleRegisterDevice, HandleDeleteDevice, HandleTestNotification,
         HandleReadEvents, HandleCreateEvent, Text.Trim, Fresh;
    var auth := Resolve(w.relay, q.bearer);
    var r1 := Touched(env, w.relay, auth, q.now, q.saves.touch);
    var w1 := w.(relay := r1);
    Authenticated(env, w, q.bearer, q.now, q.saves.touch);
    if OnDevices(q) {
      RelayDeletion.DeviceRequestsFrom(env, w, q);
    } else {
      DrawsAreFresh(q, w.used);
      match q
      case CreateInstallation(_, _, _, _, _, _, _, _) => EnrollKeepsRecords(env, w1, auth, q);
      case CreatePairingCode(_, _, _, _, _, _, _, _) =>
        if MayIssue(auth, q) { IssueKeepsRecords(env, r1, auth.installation, q); }
      case DeleteInstallation(_, _, _) =>
        if auth.ByInstallation? { DeleteKeepsRecords(env, r1, auth.installation, q.saves); }
    }
  }

  /** The answer to DELETE /v1/installations/current. */
  ghost predicate DeletePromise(w: World, q: Request, r': Relay, reply: Reply)
    requires q.DeleteInstallation?
  {
    var auth := Resolve(w.relay, q.bearer);
    if !auth.ByInstallation? then reply == Unauthorized && r' == w.relay
    else
      && (reply == NoContent ==> RelayDeletion.NothingLeft(r', auth.installation))
      && (reply != NoContent ==> reply == ServerError && Resolve(r', q.bearer) == auth)
      && (q.saves.first && q.saves.second && q.saves.third && q.saves.fourth && q.saves.fifth ==> reply == NoContent)
  }

  ghost predicate AnswerPromise(env: Env, w: World, q: Request, r': Relay, reply: Reply)
    requires env.maxEvents > 0
  {
    match q
    case CreateInstallation(_, _, _, _, _, _, _, _) => EnrollPromise(w, q, r', reply)
    case DeleteInstallation(_, _, _) => DeletePromise(w, q, r', reply)
    case CreatePairingCode(_, _, _, _, _, _, _, _) => CodePromise(env, w, q, r', reply)
    case ClaimPairingCode(_, _, _, _, _, _, _, _) => ClaimAnswer(env, w, q, r', reply)
    case CreateEvent(_, _, _, _, _, _, _) => EventPromise(env, w, q, r', reply)
    case RegisterDevice(_, _, _, _, _, _) => RegisterPromise(env, w, q, r', reply)
    case DeleteDevice(_, _, _, _) => ForgetPromise(w, q, r', reply)
    case TestNotification(_, _, _, _, _, _) => |q.pushes| == |q.order| && TestPromise(w, q, r', reply)
    case ReadEvents(_, _, _, _) => ReadPromise(w, q, r', reply)
    case RestartProcess(_) => w.accepted != [] ==> r' == w.relay
  }

  lemma DeleteAnswers(env: Env, w: World, q: Request)
    requires Inv(env, w) && q.DeleteInstallation?
    ensures var (r', reply) := HandleDeleteInstallation(env, w.relay, q); DeletePromise(w, q, r', reply)
  {
    hide Inv, Resolve, Delete, OthersKept, RelayDeletion.NothingLeft;
    if Resolve(w.relay, q.bearer).ByInstallation? {
      RelayDeletion.DeleteFromAnywhere(env, w, q);
    } else {
      OnlyInstallationsTouched(env, w.relay, Resolve(w.relay, q.bearer), q.now, q.saves.touch);
    }
  }

  lemma UseIsRecorded(env: Env, w: World, q: Request)
    requires Inv(env, w) && Fits(env, w.relay, w.used, q) && !q.ClaimPairingCode? && !q.RestartProcess?
    ensures UseRecorded(w, q, Handle(env, w.relay, w.used, q).0)
  {
    hide Inv, Fits, Handle, Resolve, Touched, UseRecorded;
    Authenticated(env, w, q.bearer, q.now, q.saves.touch);
    TouchRecords(env, w, q);
    RecordsStay(env, w, q);
    SameUse(w, q, Touched(env, w.relay, Resolve(w.relay, q.bearer), q.now, q.saves.touch),
            Handle(env, w.relay, w.used, q).0);
  }

  /** In every reachable state every request keeps the promise of its kind, records its caller's use, and changes no
      other store. */
  lemma EveryAnswer(env: Env, now: Time, requests: seq<Request>, q: Request)
    requires env.persisted && env.maxEvents > 0
    ensures var w := Run(env, Start(now), requests);
            Fits(env, w.relay, w.used, q) ==>
              var (r', reply) := Handle(env, w.relay, w.used, q);
              && AnswerPromise(env, w, q, r', reply) && StoresChanged(q, w.relay, r')
              && (q.ClaimPairingCode? || q.RestartProcess? || UseRecorded(w, q, r'))
  {
    hide Inv, Run, FreshDraws, Resolve, DeliveryOrder, P.CanPick, HandleCreateInstallation, HandleDeleteInstallation,
         HandleCreatePairingCode, HandleClaimPairingCode, HandleCreateEvent, HandleRegisterDevice, HandleDeleteDevice,
         HandleTestNotification, HandleReadEvents, HandleRestart, EnrollPromise, DeletePromise, CodePromise,
         ClaimAnswer, EventPromise, RegisterPromise, ForgetPromise, TestPromise, ReadPromise, UseRecorded,
         StoresChanged;
    var w := Run(env, Start(now), requests);
    ReferentialIntegrity(env, now, requests);
    if Fits(env, w.relay, w.used, q) {
      StoresOfAll(env, w, q);
      if !q.ClaimPairingCode? && !q.RestartProcess? { UseIsRecorded(env, w, q); }
      match q
      case CreateInstallation(_, _, _, _, _, _, _, _) => EnrollAnswers(env, w, q);
      case DeleteInstallation(_, _, _) => DeleteAnswers(env, w, q);
      case CreatePairingCode(_, _, _, _, _, _, _, _) => CodeAnswers(env, w, q);
      case ClaimPairingCode(_, _, _, _, _, _, _, _) => ClaimAnswers(env, w, q);
      case CreateEvent(_, _, _, _, _, _, _) => EventAnswers(env, w, q);
      case RegisterDevice(_, _, _, _, _, _) => RegisterAnswers(env, w, q);
      case DeleteDevice(_, _, _, _) => ForgetAnswers(env, w, q);
      case TestNotification(_, _, _, _, _, _) => TestAnswers(env, w, q);
      case ReadEvents(_, _, _, _) => ReadAnswers(env, w, q);
      case RestartProcess(_) => RestartKeeps(env, w, q.now);
    }
  }
}
