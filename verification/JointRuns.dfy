/**
  The modelled request handlers and one watch together. The watch protocol knows the relay only as a log and a set of
  honoured tokens; here every request is shown to be steps of that relay, so what the protocol promises holds of the
  handlers over the five stores.
 */
module JointRuns {
  import opened Wrappers
  import opened Snapshots
  import opened Relay
  import Text
  import C = Channels
  import D = Devices
  import L = EventLog
  import P = Pairings
  import PR = RelayProtocol
  import RR = RelayRuns

  /** A token is honoured exactly when it is the watch token of the channel it was issued for. */
  predicate WatchTokens(table: C.Table, s: PR.System) {
    && (forall c <- table | table[c].watch != "" ::
          table[c].watch in s.honoured && table[c].watch in s.issued && s.issued[table[c].watch] == c)
    && (forall t <- s.honoured :: t != "" && t in s.issued && s.issued[t] in table && table[s.issued[t]].watch == t)
  }

  predicate Linked(w: RR.World, s: PR.System) {
    && s.h == L.History(w.relay.log, w.accepted)
    && s.issued.Keys <= w.used
    && WatchTokens(w.relay.channels.mem, s)
  }

  predicate SameWatches(a: C.Table, b: C.Table) {
    && (forall c <- a | a[c].watch != "" :: c in b && b[c].watch == a[c].watch)
    && (forall c <- b | b[c].watch != "" :: c in a && a[c].watch == b[c].watch)
  }

  lemma SameWatchesLinked(a: C.Table, b: C.Table, s: PR.System)
    requires WatchTokens(a, s) && SameWatches(a, b)
    ensures WatchTokens(b, s)
  {
  }

  // ---------------------------------------------------------------- what a request is to the protocol

  /** Whether a deletion gets as far as the log. */
  function ReachesLog(env: Env, r: Relay, installation: string, saves: Saves): bool {
    && P.Remove(env.persisted, r.pairings, installation, saves.first).1
    && D.RemoveForInstallation(env.persisted, r.devices, installation, saves.second).1
  }

  ghost function DeleteActions(env: Env, r: Relay, installation: string, saves: Saves): seq<PR.Action> {
    var channel := C.Lookup(r.channels.mem, C.Installation, Text.Trim(installation));
    if channel.None? then []
    else
      (if ReachesLog(env, r, installation, saves) then [PR.LogAction(L.RemoveStep(channel.value.id, saves.third))]
          else [])
      + (if Delete(env, r, installation, saves).0.channels.mem == r.channels.mem then []
          else [PR.Revoke(channel.value.id)])
  }

  /** The protocol steps a request amounts to. */
  ghost function Actions(env: Env, w: RR.World, q: Request): seq<PR.Action>
    requires Fits(env, w.relay, w.used, q)
  {
    match q
    case ClaimPairingCode(_, _, _, _, _, _, _, _) =>
      var reply := HandleClaimPairingCode(env, w.relay, q).1;
      if reply.Session? then [PR.Issue(reply.session, reply.channel)] else []
    case DeleteInstallation(bearer, now, saves) =>
      var auth := Resolve(w.relay, bearer);
      if auth.ByInstallation? then DeleteActions(env, Touched(env, w.relay, auth, now, saves.touch), auth.installation,
          saves)
      else []
    case CreateEvent(bearer, allowed, input, _, _, now, saves) =>
      var auth := Resolve(w.relay, bearer);
      if auth.ByProducer? && allowed && input.kind.Some?
      then [PR.LogAction(L.AppendStep(input.(channel := auth.channel), now, saves.first))] else []
    case RestartProcess(now) => [PR.LogAction(L.RestartStep(now))]
    case _ => []
  }

  lemma NoActions(cfg: L.Config, s: PR.System)
    ensures PR.Run(cfg, s, []) == s
  {
  }

  lemma OneAction(cfg: L.Config, s: PR.System, a: PR.Action)
    ensures PR.Run(cfg, s, [a]) == PR.Step(cfg, s, a)
  {
    assert [a][..0] == [];
    NoActions(cfg, s);
  }

  lemma TwoActions(cfg: L.Config, s: PR.System, a: PR.Action, b: PR.Action)
    ensures PR.Run(cfg, s, [a, b]) == PR.Step(cfg, PR.Step(cfg, s, a), b)
  {
    assert [a, b][..1] == [a];
    OneAction(cfg, s, a);
  }

  // ---------------------------------------------------------------- requests that issue and revoke nothing

  lemma EnsureKeepsWatches(env: Env, r: Relay, installation: string, id: string, producer: string, now: Time, ok: bool)
    requires id !in r.channels.mem
    ensures var r' := EnsureChannel(env, r, installation, id, producer, now, ok).0;
            r'.log == r.log && SameWatches(r.channels.mem, r'.channels.mem)
  {
    hide C.Lookup, Text.Trim;
  }

  lemma IdentifyKeepsChannels(env: Env, r: Relay, auth: Auth, id: string, token: string, now: Time, ok: bool)
    ensures var r' := Identify(env, r, auth, id, token, now, ok).0; r'.log == r.log && r'.channels == r.channels
  {
  }

  predicate IsQuiet(q: Request) {
    q.CreateInstallation? || q.CreatePairingCode? || q.RegisterDevice? || q.DeleteDevice? || q.TestNotification?
        || q.ReadEvents?
  }

  lemma TouchKeepsRest(env: Env, r: Relay, auth: Auth, now: Time, ok: bool)
    ensures var r' := Touched(env, r, auth, now, ok);
            r'.log == r.log && r'.channels == r.channels && r'.pairings == r.pairings && r'.devices == r.devices
  {
  }

  lemma CreateInstallationQuiet(env: Env, w: RR.World, q: Request)
    requires q.CreateInstallation? && q.channel !in w.relay.channels.mem
    ensures var r' := HandleCreateInstallation(env, w.relay, q).0;
            r'.log == w.relay.log && SameWatches(w.relay.channels.mem, r'.channels.mem)
  {
    hide Resolve, Touched, Identify, EnsureChannel;
    var auth := Resolve(w.relay, q.bearer);
    var r1 := Touched(env, w.relay, auth, q.now, q.saves.touch);
    TouchKeepsRest(env, w.relay, auth, q.now, q.saves.touch);
    IdentifyKeepsChannels(env, r1, auth, q.id, q.token, q.now, q.saves.first);
    var (r2, installation) := Identify(env, r1, auth, q.id, q.token, q.now, q.saves.first);
    if installation.Some? {
      EnsureKeepsWatches(env, r2, installation.value.id, q.channel, q.producer, q.now, q.saves.second);
    }
  }

  lemma CreatePairingCodeQuiet(env: Env, w: RR.World, q: Request)
    requires q.CreatePairingCode? && |q.tries| == P.TRIES && q.channel !in w.relay.channels.mem
    ensures var r' := HandleCreatePairingCode(env, w.relay, q).0;
            r'.log == w.relay.log && SameWatches(w.relay.channels.mem, r'.channels.mem)
  {
    hide Resolve, Touched, EnsureChannel, P.Create, Text.Trim;
    var auth := Resolve(w.relay, q.bearer);
    var r1 := Touched(env, w.relay, auth, q.now, q.saves.touch);
    TouchKeepsRest(env, w.relay, auth, q.now, q.saves.touch);
    if auth.ByInstallation? {
      EnsureKeepsWatches(env, r1, auth.installation, q.channel, q.producer, q.now, q.saves.first);
    }
  }

  lemma DeviceRequestsQuiet(env: Env, w: RR.World, q: Request)
    requires q.RegisterDevice? || q.DeleteDevice? || q.ReadEvents? || (q.TestNotification? && |q.pushes| == |q.order|)
    ensures var r' := if q.RegisterDevice? then HandleRegisterDevice(env, w.relay, q).0
                      else if q.DeleteDevice? then HandleDeleteDevice(env, w.relay, q).0
                      else if q.ReadEvents? then HandleReadEvents(env, w.relay, q).0
                      else HandleTestNotification(env, w.relay, q).0;
            r'.log == w.relay.log && r'.channels == w.relay.channels
  {
    hide Resolve, Touched, Deliver, D.Upsert, D.Remove, L.Since, Text.Trim;
    TouchKeepsRest(env, w.relay, Resolve(w.relay, q.bearer), q.now, q.saves.touch);
  }

  lemma QuietRequest(env: Env, w: RR.World, q: Request)
    requires RR.Inv(env, w) && Fits(env, w.relay, w.used, q) && IsQuiet(q)
    ensures var r' := Handle(env, w.relay, w.used, q).0;
            r'.log == w.relay.log && SameWatches(w.relay.channels.mem, r'.channels.mem)
  {
    hide RR.Inv, FreshDraws, HandleCreateInstallation, HandleCreatePairingCode, HandleRegisterDevice,
         HandleDeleteDevice, HandleTestNotification, HandleReadEvents, HandleCreateEvent, Resolve, DeliveryOrder,
         RR.DrawnBy;
    RR.DrawsAreFresh(q, w.used);
    DrawnChannels(env, w);
    match q
    case CreateInstallation(_, _, _, _, _, _, _, _) => CreateInstallationQuiet(env, w, q);
    case CreatePairingCode(_, _, _, _, _, _, _, _) => CreatePairingCodeQuiet(env, w, q);
    case _ => DeviceRequestsQuiet(env, w, q);
  }

  lemma DrawnChannels(env: Env, w: RR.World)
    requires RR.Inv(env, w)
    ensures forall c <- w.relay.channels.mem :: c in w.used
  {
    assert RR.Drawn(w.relay, w.used);
    hide RR.Inv;
  }

  /** Nothing issued or revoked: the link stays. */
  lemma QuietLinked(w: RR.World, w': RR.World, s: PR.System)
    requires Linked(w, s) && w'.relay.log == w.relay.log && w'.accepted == w.accepted && w.used <= w'.used
    requires SameWatches(w.relay.channels.mem, w'.relay.channels.mem)
    ensures Linked(w', s)
  {
    SameWatchesLinked(w.relay.channels.mem, w'.relay.channels.mem, s);
  }

  // ---------------------------------------------------------------- claims

  function Paired(c: C.Channel, q: Request): (paired: C.Channel)
    requires q.ClaimPairingCode?
    ensures paired.watch == q.session
  {
    C.Rotated(c, C.Watch, q.session, q.now)
  }

  predicate ClaimChanges(r: Relay, r': Relay, reply: Reply, q: Request)
    requires q.ClaimPairingCode?
  {
    && r'.log == r.log
    && match reply
       case Session(session, channel) =>
         session == q.session && channel in r.channels.mem
             && r'.channels.mem == r.channels.mem[channel := Paired(r.channels.mem[channel], q)]
       case _ => r'.channels.mem == r.channels.mem
  }

  /** A claim that opens a session gives one channel a new watch token; any other leaves the channels alone. */
  lemma ClaimWatches(env: Env, w: RR.World, q: Request)
    requires RR.Inv(env, w) && q.ClaimPairingCode? && Fresh(q.session, w.used)
    ensures var (r', reply) := HandleClaimPairingCode(env, w.relay, q); ClaimChanges(w.relay, r', reply, q)
  {
    hide P.Claim, OpenSession, RR.Inv, Text.Trim, Fresh, ClaimChanges, Resolve;
    RR.Persisted(env, w);
    var (pairings, claimed) := P.Claim(env.sha, env.persisted, w.relay.pairings, q.raw, q.pick, q.now, q.saves.first);
    var r1 := w.relay.(pairings := pairings);
    NothingClaimed(w.relay, w.relay, TooManyRequests, q);
    NothingClaimed(w.relay, w.relay, BadRequest, q);
    NothingClaimed(w.relay, r1, ClaimRefused(claimed), q);
    if claimed.Claimed? {
      RR.CodeClaimed(env, w, q.raw, q.pick, q.now, q.saves.first);
      SessionWatches(env, w.(relay := r1), claimed.code, q);
      var (r', reply) := OpenSession(env, r1, claimed.code.installation, q);
      ClaimedOnTop(w.relay, r1, r', reply, q);
    }
  }

  lemma NothingClaimed(r: Relay, r': Relay, reply: Reply, q: Request)
    requires q.ClaimPairingCode? && !reply.Session? && r'.log == r.log && r'.channels == r.channels
    ensures ClaimChanges(r, r', reply, q)
  {
  }

  lemma ClaimedOnTop(r: Relay, r1: Relay, r': Relay, reply: Reply, q: Request)
    requires q.ClaimPairingCode? && r1.log == r.log && r1.channels == r.channels && ClaimChanges(r1, r', reply, q)
    ensures ClaimChanges(r, r', reply, q)
  {
  }

  lemma SessionWatches(env: Env, w: RR.World, code: P.Code, q: Request)
    requires RR.Inv(env, w) && q.ClaimPairingCode? && Fresh(q.session, w.used)
    requires code.installation in w.relay.installations.mem
    requires code.channel in w.relay.channels.mem
             && w.relay.channels.mem[code.channel].installation == code.installation
    ensures var (r', reply) := OpenSession(env, w.relay, code.installation, q); ClaimChanges(w.relay, r', reply, q)
  {
    hide C.Rotate, D.Upsert, RR.Inv, Text.Trim, Fresh;
    RR.OpenSessionKeeps(env, w, code, q);
    RR.KnownChannel(env, w, code.channel);
    RR.RotateKeeps(env, w, code.channel, q.session, q.now, q.saves.second);
    RR.RotatedChannel(env, w, code.channel, q.session, q.now);
    FailedRotation(env, w, code.installation, q.session, q.now);
  }

  lemma FailedRotation(env: Env, w: RR.World, installation: string, session: string, now: Time)
    requires RR.Inv(env, w)
    ensures C.Rotate(env.persisted, w.relay.channels, C.Watch, installation, session, now, false).0 == w.relay.channels
  {
    hide C.Lookup, Text.Trim, RR.Inv;
    RR.Persisted(env, w);
  }

  /** The watch token a claim gives is the issued one, and takes over from the channel's old one. */
  lemma IssueLinked(cfg: L.Config, w: RR.World, w': RR.World, s: PR.System, id: string, c: C.Channel)
    requires Linked(w, s) && w'.relay.log == w.relay.log && w'.accepted == w.accepted
    requires c.watch !in w.used && c.watch != "" && Text.Trimmed(c.watch) && w'.used == w.used + {c.watch}
    requires id in w.relay.channels.mem && w'.relay.channels.mem == w.relay.channels.mem[id := c]
    ensures Linked(w', PR.Step(cfg, s, PR.Issue(c.watch, id)))
  {
    var s' := PR.Step(cfg, s, PR.Issue(c.watch, id));
    assert s'.honoured == s.honoured - PR.ChannelTokens(s, id) + {c.watch} && s'.issued == s.issued[c.watch := id];
  }

  lemma NextIsClaim(env: Env, w: RR.World, q: Request)
    requires q.ClaimPairingCode? && Fits(env, w.relay, w.used, q)
    ensures var w' := RR.Next(env, w, q);
            && w'.relay == HandleClaimPairingCode(env, w.relay, q).0 && w'.accepted == w.accepted
            && w'.used == w.used + {q.session} && Fresh(q.session, w.used)
  {
    RR.DrawsAreFresh(q, w.used);
    RR.PlainReply(env, w.relay, w.used, q);
  }

  lemma ClaimLinked(env: Env, cfg: L.Config, w: RR.World, s: PR.System, q: Request)
    requires RR.Inv(env, w) && Linked(w, s) && q.ClaimPairingCode? && Fits(env, w.relay, w.used, q)
    ensures Linked(RR.Next(env, w, q), PR.Run(cfg, s, Actions(env, w, q)))
  {
    hide HandleClaimPairingCode, RR.Inv, RR.Next, Handle, Linked, Fits;
    NextIsClaim(env, w, q);
    ClaimWatches(env, w, q);
    var (r', reply) := HandleClaimPairingCode(env, w.relay, q);
    var w' := RR.Next(env, w, q);
    if reply.Session? {
      OneAction(cfg, s, PR.Issue(reply.session, reply.channel));
      IssueLinked(cfg, w, w', s, reply.channel, Paired(w.relay.channels.mem[reply.channel], q));
    } else {
      NoActions(cfg, s);
      QuietLinked(w, w', s);
    }
  }

  // ---------------------------------------------------------------- deletions

  lemma DeleteShape(env: Env, r: Relay, installation: string, saves: Saves)
    ensures var r' := Delete(env, r, installation, saves).0;
            var channel := C.Lookup(r.channels.mem, C.Installation, Text.Trim(installation));
            && r'.log == (if channel.Some? && ReachesLog(env, r, installation, saves)
                          then L.Remove(LogConfig(env), r.log, channel.value.id, saves.third).0 else r.log)
            && (r'.channels.mem == r.channels.mem
               || (channel.Some? && r'.channels.mem == r.channels.mem - {channel.value.id}))
  {
    hide C.Lookup, P.Remove, D.RemoveForInstallation, L.Remove, Text.Trim;
  }

  /** Removing a channel revokes its token. */
  lemma RevokeLinked(cfg: L.Config, w: RR.World, w': RR.World, s: PR.System, id: string)
    requires Linked(w, s) && w'.relay.log == w.relay.log && w'.accepted == w.accepted && w'.used == w.used
    requires w'.relay.channels.mem == w.relay.channels.mem - {id}
    ensures Linked(w', PR.Step(cfg, s, PR.Revoke(id)))
  {
    var s' := PR.Step(cfg, s, PR.Revoke(id));
    assert s'.honoured == s.honoured - PR.ChannelTokens(s, id) && s'.issued == s.issued;
  }

  /** A log step of the relay is the same log step of the protocol. */
  lemma LogLinked(cfg: L.Config, w: RR.World, w': RR.World, s: PR.System, step: L.Step)
    requires Linked(w, s) && w'.relay.channels == w.relay.channels && w'.used == w.used
    requires L.History(w'.relay.log, w'.accepted) == L.Next(cfg, L.History(w.relay.log, w.accepted), step)
    ensures Linked(w', PR.Step(cfg, s, PR.LogAction(step)))
  {
    hide L.Next;
  }

  lemma DeleteLinked(env: Env, w: RR.World, s: PR.System, installation: string, saves: Saves)
    requires Linked(w, s)
    ensures Linked(w.(relay := Delete(env, w.relay, installation, saves).0),
                   PR.Run(LogConfig(env), s, DeleteActions(env, w.relay, installation, saves)))
  {
    var cfg := LogConfig(env);
    var channel := C.Lookup(w.relay.channels.mem, C.Installation, Text.Trim(installation));
    DeleteShape(env, w.relay, installation, saves);
    NoActions(cfg, s);
    var r' := Delete(env, w.relay, installation, saves).0;
    hide Delete, C.Lookup, Text.Trim, L.Remove, ReachesLog, Linked, PR.Step, PR.Run;
    if channel.Some? {
      var id := channel.value.id;
      var w1 := w.(relay := w.relay.(log := r'.log));
      var remove, revoke := PR.LogAction(L.RemoveStep(id, saves.third)), PR.Revoke(id);
      var s1 := if ReachesLog(env, w.relay, installation, saves) then PR.Step(cfg, s, remove) else s;
      if ReachesLog(env, w.relay, installation, saves) { LogLinked(cfg, w, w1, s, L.RemoveStep(id, saves.third)); }
      assert Linked(w1, s1);
      OneAction(cfg, s, remove);
      OneAction(cfg, s, revoke);
      TwoActions(cfg, s, remove, revoke);
      var reaches, revokes := ReachesLog(env, w.relay, installation, saves), r'.channels.mem != w.relay.channels.mem;
      assert DeleteActions(env, w.relay, installation, saves)
          == if reaches && revokes then [remove, revoke] else if reaches then [remove] else if revokes then [revoke]
              else [];
      if r'.channels.mem == w.relay.channels.mem {
        SameChannelsLinked(w1, w.(relay := r'), s1);
      } else {
        RevokeLinked(cfg, w1, w.(relay := r'), s1, id);
      }
    } else {
      SameChannelsLinked(w, w.(relay := r'), s);
    }
  }

  lemma SameChannelsLinked(w: RR.World, w': RR.World, s: PR.System)
    requires Linked(w, s) && w'.relay.log == w.relay.log && w'.accepted == w.accepted && w.used <= w'.used
    requires w'.relay.channels.mem == w.relay.channels.mem
    ensures Linked(w', s)
  {
  }

  /** Authenticating first changes nothing the protocol sees. */
  lemma TouchedLinked(env: Env, w: RR.World, s: PR.System, auth: Auth, now: Time, ok: bool)
    requires Linked(w, s)
    ensures Linked(w.(relay := Touched(env, w.relay, auth, now, ok)), s)
  {
    TouchKeepsRest(env, w.relay, auth, now, ok);
  }

  lemma DeleteRequestLinked(env: Env, w: RR.World, s: PR.System, q: Request)
    requires Linked(w, s) && q.DeleteInstallation? && Fits(env, w.relay, w.used, q)
    ensures Linked(RR.Next(env, w, q), PR.Run(LogConfig(env), s, Actions(env, w, q)))
  {
    hide Linked, Touched, Resolve, Delete, DeleteActions, PR.Run;
    var auth := Resolve(w.relay, q.bearer);
    var r1 := Touched(env, w.relay, auth, q.now, q.saves.touch);
    TouchedLinked(env, w, s, auth, q.now, q.saves.touch);
    NoActions(LogConfig(env), s);
    RR.PlainReply(env, w.relay, w.used, q);
    if auth.ByInstallation? { DeleteLinked(env, w.(relay := r1), s, auth.installation, q.saves); }
    assert RR.Next(env, w, q) == w.(relay := HandleDeleteInstallation(env, w.relay, q).0) by { NothingDrawn(w, q); }
  }

  lemma NothingDrawn(w: RR.World, q: Request)
    requires Draws(q) == []
    ensures w.used + RR.DrawnBy(q) == w.used
  {
  }

  // ---------------------------------------------------------------- events and restarts

  lemma EventShape(env: Env, w: RR.World, q: Request)
    requires q.CreateEvent? && |q.pushes| == |q.order|
    ensures var (r', reply) := HandleCreateEvent(env, w.relay, q);
            var auth := Resolve(w.relay, q.bearer);
            && r'.channels == w.relay.channels
            && L.History(r'.log, RR.Accepting(w.accepted, reply)) ==
               (if auth.ByProducer? && q.allowed && q.input.kind.Some?
                then L.Next(LogConfig(env), L.History(w.relay.log, w.accepted),
                            L.AppendStep(q.input.(channel := auth.channel), q.now, q.saves.first))
                else L.History(w.relay.log, w.accepted))
  {
    hide Resolve, Touched, L.Append, Deliver;
    TouchKeepsRest(env, w.relay, Resolve(w.relay, q.bearer), q.now, q.saves.touch);
  }

  lemma EventLinked(env: Env, w: RR.World, s: PR.System, q: Request)
    requires Linked(w, s) && q.CreateEvent? && Fits(env, w.relay, w.used, q)
    ensures Linked(RR.Next(env, w, q), PR.Run(LogConfig(env), s, Actions(env, w, q)))
  {
    hide Linked, Resolve, HandleCreateEvent, PR.Run, PR.Step, L.Next, DeliveryOrder;
    EventShape(env, w, q);
    NothingDrawn(w, q);
    NoActions(LogConfig(env), s);
    var auth, w' := Resolve(w.relay, q.bearer), RR.Next(env, w, q);
    if auth.ByProducer? && q.allowed && q.input.kind.Some? {
      var step := L.AppendStep(q.input.(channel := auth.channel), q.now, q.saves.first);
      OneAction(LogConfig(env), s, PR.LogAction(step));
      LogLinked(LogConfig(env), w, w', s, step);
    } else {
      SameChannelsLinked(w, w', s);
    }
  }

  lemma RestartLinked(env: Env, w: RR.World, s: PR.System, now: Time)
    requires RR.Inv(env, w) && Linked(w, s) && Fits(env, w.relay, w.used, RestartProcess(now))
    ensures Linked(RR.Next(env, w, RestartProcess(now)), PR.Run(LogConfig(env), s, [PR.LogAction(L.RestartStep(now))]))
  {
    hide Linked, HandleRestart, PR.Run, PR.Step, RR.Inv, L.Reopen;
    RR.RestartKeeps(env, w, now);
    NothingDrawn(w, RestartProcess(now));
    OneAction(LogConfig(env), s, PR.LogAction(L.RestartStep(now)));
    LogLinked(LogConfig(env), w, RR.Next(env, w, RestartProcess(now)), s, L.RestartStep(now));
  }

  lemma QuietRequestLinked(env: Env, w: RR.World, s: PR.System, q: Request)
    requires RR.Inv(env, w) && Linked(w, s) && IsQuiet(q) && Fits(env, w.relay, w.used, q)
    ensures Linked(RR.Next(env, w, q), s)
  {
    hide Linked, Handle, Fits, RR.Inv, SameWatches;
    RR.PlainReply(env, w.relay, w.used, q);
    QuietRequest(env, w, q);
    QuietLinked(w, RR.Next(env, w, q), s);
  }

  /** Every request is, to the watch protocol, the relay steps named by Actions. */
  lemma RequestLinked(env: Env, w: RR.World, s: PR.System, q: Request)
    requires RR.Inv(env, w) && Linked(w, s) && Fits(env, w.relay, w.used, q)
    ensures Linked(RR.Next(env, w, q), PR.Run(LogConfig(env), s, Actions(env, w, q)))
  {
    hide RR.Inv, Linked, Fits, RR.Next, PR.Run, Handle, HandleClaimPairingCode, Resolve, Touched, DeleteActions;
    match q
    case ClaimPairingCode(_, _, _, _, _, _, _, _) => ClaimLinked(env, LogConfig(env), w, s, q);
    case DeleteInstallation(_, _, _) => DeleteRequestLinked(env, w, s, q);
    case CreateEvent(_, _, _, _, _, _, _) => EventLinked(env, w, s, q);
    case RestartProcess(now) => RestartLinked(env, w, s, now);
    case _ =>
      NoActions(LogConfig(env), s);
      QuietRequestLinked(env, w, s, q);
  }

  // ---------------------------------------------------------------- joint runs

  datatype Joint = Joint(world: RR.World, system: PR.System)

  /** The relay serves a request, or the watch does something of its own. */
  datatype JointStep = Serve(request: Request) | OnWatch(action: PR.Action)

  predicate IsRelayAction(a: PR.Action) {
    a.LogAction? || a.Issue? || a.Revoke?
  }

  ghost function JointNext(env: Env, j: Joint, step: JointStep): Joint {
    match step
    case Serve(q) =>
      if Fits(env, j.world.relay, j.world.used, q)
      then Joint(RR.Next(env, j.world, q), PR.Run(LogConfig(env), j.system, Actions(env, j.world, q))) else j
    case OnWatch(a) => if IsRelayAction(a) then j else j.(system := PR.Step(LogConfig(env), j.system, a))
  }

  ghost function JointRun(env: Env, j: Joint, steps: seq<JointStep>): Joint {
    if steps == [] then j else JointNext(env, JointRun(env, j, steps[..|steps| - 1]), steps[|steps| - 1])
  }

  function JointStart(now: Time, storedCursor: int): Joint {
    Joint(RR.Start(now), PR.Init(now, storedCursor))
  }

  lemma {:induction false} ActionsKeep(cfg: L.Config, s: PR.System, actions: seq<PR.Action>)
    requires PR.Inv(cfg, s) && PR.NoGap(s)
    ensures PR.Inv(cfg, PR.Run(cfg, s, actions)) && PR.NoGap(PR.Run(cfg, s, actions))
  {
    hide PR.Inv, PR.NoGap, PR.Step;
    if actions != [] {
      ActionsKeep(cfg, s, actions[..|actions| - 1]);
      PR.ActionKeeps(cfg, PR.Run(cfg, s, actions[..|actions| - 1]), actions[|actions| - 1]);
    }
  }

  lemma WatchActionLinked(cfg: L.Config, w: RR.World, s: PR.System, a: PR.Action)
    requires Linked(w, s) && !IsRelayAction(a)
    ensures Linked(w, PR.Step(cfg, s, a))
  {
    hide PR.Receive, PR.AnswerTo;
    WatchActionKeepsRelay(cfg, s, a);
  }

  lemma WatchActionKeepsRelay(cfg: L.Config, s: PR.System, a: PR.Action)
    requires !IsRelayAction(a)
    ensures var s' := PR.Step(cfg, s, a); s'.h == s.h && s'.issued == s.issued && s'.honoured == s.honoured
  {
    hide PR.AnswerTo;
  }

  ghost predicate JointInv(env: Env, j: Joint) {
    && RR.Inv(env, j.world) && Linked(j.world, j.system)
    && PR.Inv(LogConfig(env), j.system) && PR.NoGap(j.system)
  }

  lemma JointStepKeeps(env: Env, j: Joint, step: JointStep)
    requires JointInv(env, j)
    ensures JointInv(env, JointNext(env, j, step))
  {
    hide RR.Inv, Linked, PR.Inv, PR.NoGap, Fits, Actions, PR.Run, PR.Step, RR.Next;
    match step
    case Serve(q) =>
      if Fits(env, j.world.relay, j.world.used, q) {
        RR.RequestKeepsInv(env, j.world, q);
        RequestLinked(env, j.world, j.system, q);
        ActionsKeep(LogConfig(env), j.system, Actions(env, j.world, q));
      }
    case OnWatch(a) =>
      if !IsRelayAction(a) {
        WatchActionLinked(LogConfig(env), j.world, j.system, a);
        PR.ActionKeeps(LogConfig(env), j.system, a);
      }
  }

  /** No silent gap behind the real handlers: over every run of requests against the five stores, with any save
      failing, and of one watch's polls, deliveries, timers, resets and pairings, every event the relay accepted
      for the session's channel between the session's first and current cursor was handed to the watch or had left
      the store before the answer that moved the cursor past it. */
  lemma {:induction false} NoGapBehindHandlers(env: Env, now: Time, storedCursor: int, steps: seq<JointStep>)
    requires env.persisted && env.maxEvents > 0
    ensures var j := JointRun(env, JointStart(now, storedCursor), steps);
            JointInv(env, j) && forall e <- j.world.accepted | PR.InSessionRange(j.system, e) ::
                PR.Accounted(j.system, e)
  {
    hide RR.Inv, PR.Inv, JointNext, PR.Accounted, PR.InSessionRange;
    if steps == [] {
      RR.ReferentialIntegrity(env, now, []);
      PR.StartsWithoutGap(LogConfig(env), now, storedCursor);
    } else {
      NoGapBehindHandlers(env, now, storedCursor, steps[..|steps| - 1]);
      JointStepKeeps(env, JointRun(env, JointStart(now, storedCursor), steps[..|steps| - 1]), steps[|steps| - 1]);
    }
  }

  /** And the answer the protocol gives a poll is the answer the events handler gives its token and cursor. */
  lemma AnswerIsTheHandlers(env: Env, j: Joint, poll: PR.Poll, now: Time, saves: Saves)
    requires JointInv(env, j) && poll.token in j.system.issued
    ensures var reply := HandleReadEvents(env, j.world.relay, ReadEvents(Some(poll.token), poll.since, now, saves)).1;
            match PR.AnswerTo(j.system, poll)
            case Answered(events, _, _) => reply == Events(events)
            case Unauthorized => reply == Reply.Unauthorized
            case _ => false
  {
    var w, s, token := j.world, j.system, poll.token;
    var auth := Resolve(w.relay, Some(token));
    assert token != "" && Text.Trimmed(token);
    hide RR.Inv, PR.Inv, PR.NoGap, Resolve, Touched, L.Since, Text.Trimmed;
    Text.TrimFixpoint(token);
    TouchKeepsRest(env, w.relay, auth, now, saves.touch);
    if token in s.honoured {
      RR.WatchResolves(env, w, s.issued[token], token);
      ChannelIDTrimmed(env, w, s.issued[token]);
    } else if auth.ByWatch? {
      ByWatchMeans(env, w, token);
    }
  }

  lemma ChannelIDTrimmed(env: Env, w: RR.World, id: string)
    requires RR.Inv(env, w) && id in w.relay.channels.mem
    ensures Text.Trim(id) == id
  {
    assert C.Keyed(w.relay.channels.mem);
    Text.TrimFixpoint(id);
  }

  /** Only a stored watch token makes a watch. */
  lemma ByWatchMeans(env: Env, w: RR.World, token: string)
    requires RR.Inv(env, w) && Text.Trim(token) == token && Resolve(w.relay, Some(token)).ByWatch?
    ensures token != "" && exists c <- w.relay.channels.mem :: w.relay.channels.mem[c].watch == token
  {
    RR.FoundChannel(w.relay.channels.mem, C.Watch, token);
    hide RR.Inv, C.Lookup, Text.Trim;
  }
}
