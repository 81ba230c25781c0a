/**
  Every run of requests, one at a time, with any save failing: the five stores never refer to what is
  not there, a bearer token means one thing, and deleting an installation converges.
 */
module RelayRuns {
  import opened Wrappers
  import opened Snapshots
  import opened Relay
  import Text
  import I = Installations
  import C = Channels
  import P = Pairings
  import D = Devices
  import L = EventLog

  // ---------------------------------------------------------------- the invariant

  /** Each channel, pairing, device and event names something that exists. */
  predicate Refs(r: Relay) {
    && (forall c <- r.channels.mem :: r.channels.mem[c].installation in r.installations.mem)
    && (forall p <- r.pairings.mem :: PairingRef(r, r.pairings.mem[p]))
    && (forall d <- r.devices.mem :: r.devices.mem[d].installation in r.installations.mem)
    && (forall e <- r.log.mem.events :: e.channel in r.channels.mem)
  }

  /** A pairing names its installation's current channel. */
  predicate PairingRef(r: Relay, p: P.Code) {
    && p.installation in r.installations.mem
    && p.channel in r.channels.mem && r.channels.mem[p.channel].installation == p.installation
  }

  /** No token serves two scopes. */
  predicate Scopes(r: Relay) {
    && (forall i <- r.installations.mem, c <- r.channels.mem ::
          r.installations.mem[i].token != r.channels.mem[c].producer
              && r.installations.mem[i].token != r.channels.mem[c].watch)
    && (forall c <- r.channels.mem, d <- r.channels.mem :: r.channels.mem[c].producer != r.channels.mem[d].watch)
  }

  predicate OnDisk<M(==)>(k: Kept<map<string, M>>) {
    k.saved == Some(k.mem) || (k.saved.None? && k.mem == map[])
  }

  predicate Disk(r: Relay) {
    OnDisk(r.installations) && OnDisk(r.channels) && OnDisk(r.pairings) && OnDisk(r.devices)
  }

  /** Every identifier and token in the stores was drawn. */
  predicate Drawn(r: Relay, used: set<string>) {
    && (forall i <- r.installations.mem :: i in used && r.installations.mem[i].token in used)
    && (forall c <- r.channels.mem :: c in used && r.channels.mem[c].producer in used
                                     && (r.channels.mem[c].watch != "" ==> r.channels.mem[c].watch in used))
    && (forall p <- r.pairings.mem :: p in used)
  }

  predicate Tables(r: Relay) {
    && I.Keyed(r.installations.mem) && I.Distinct(r.installations.mem)
    && C.Keyed(r.channels.mem)
    && C.Distinct(r.channels.mem, C.Installation) && C.Distinct(r.channels.mem, C.Producer)
       && C.Distinct(r.channels.mem, C.Watch)
  }

  /** The relay, every event it ever accepted, and every random string it ever drew. */
  datatype World = World(relay: Relay, accepted: seq<L.Event>, used: set<string>)

  ghost predicate Inv(env: Env, w: World) {
    && env.persisted && env.maxEvents > 0
    && Tables(w.relay) && Refs(w.relay) && Scopes(w.relay) && Disk(w.relay) && Drawn(w.relay, w.used)
    && L.Inv(LogConfig(env), L.History(w.relay.log, w.accepted))
  }

  // ---------------------------------------------------------------- scans of sound tables

  lemma ByToken(table: I.Table, id: string)
    requires I.Distinct(table) && id in table
    ensures I.Lookup(table, table[id].token) == Some(table[id])
  {
  }

  lemma FoundByToken(table: I.Table, token: string)
    ensures var found := I.Lookup(table, token);
            match found
            case Some(i) => i.token == token && exists id | id in table :: table[id] == i
            case None => forall id <- table :: table[id].token != token
  {
  }

  lemma FoundChannel(table: C.Table, f: C.Field, value: string)
    ensures var found := C.Lookup(table, f, value);
            match found
            case Some(c) => value != "" && C.Get(c, f) == value && exists id | id in table :: table[id] == c
            case None => value == "" || forall id <- table :: C.Get(table[id], f) != value
  {
  }

  // ---------------------------------------------------------------- store calls, one at a time

  /** New usage times change no reference and no token. */
  lemma InstallationsTouched(r: Relay, k: Kept<I.Table>, used: set<string>)
    requires Tables(r) && Refs(r) && Scopes(r) && Drawn(r, used)
    requires k.mem.Keys == r.installations.mem.Keys
    requires forall i <- k.mem :: k.mem[i].id == i && k.mem[i].token == r.installations.mem[i].token
    ensures var r' := r.(installations := k); Tables(r') && Refs(r') && Scopes(r') && Drawn(r', used)
  {
    forall p <- r.pairings.mem ensures PairingRef(r.(installations := k), r.pairings.mem[p]) {
      assert PairingRef(r, r.pairings.mem[p]);
    }
  }

  lemma TouchedTable(env: Env, k: Kept<I.Table>, token: string, now: Time, ok: bool)
    requires I.Keyed(k.mem) && env.persisted && OnDisk(k)
    ensures var k' := I.Touch(env.persisted, k, token, now, ok).0;
            && OnDisk(k') && k'.mem.Keys == k.mem.Keys
            && forall i <- k.mem :: k'.mem[i].id == i && k'.mem[i].token == k.mem[i].token
  {
    FoundByToken(k.mem, Text.Trim(token));
  }

  lemma TouchKeeps(env: Env, w: World, token: string, now: Time, ok: bool)
    requires Inv(env, w)
    ensures var r' := w.relay.(installations := I.Touch(env.persisted, w.relay.installations, token, now, ok).0);
            Inv(env, w.(relay := r'))
  {
    var k := I.Touch(env.persisted, w.relay.installations, token, now, ok).0;
    TouchedTable(env, w.relay.installations, token, now, ok);
    hide I.Touch, L.Inv;
    InstallationsTouched(w.relay, k, w.used);
    hide Tables, Refs, Scopes, Drawn;
  }

  lemma InstallationAdded(r: Relay, i: I.Installation, k: Kept<I.Table>, used: set<string>)
    requires Tables(r) && Scopes(r) && Drawn(r, used) && Fresh(i.id, used) && Fresh(i.token, used)
    requires k.mem == r.installations.mem[i.id := i]
    ensures var r' := r.(installations := k); Tables(r') && Scopes(r')
  {
    hide C.Distinct;
  }

  lemma InstallationAddedRefs(r: Relay, i: I.Installation, k: Kept<I.Table>, used: set<string>)
    requires Refs(r) && Drawn(r, used) && i.id !in used && k.mem == r.installations.mem[i.id := i]
    ensures var r' := r.(installations := k); Refs(r') && Drawn(r', used + {i.id, i.token})
  {
    var r' := r.(installations := k);
    forall p <- r.pairings.mem ensures PairingRef(r', r.pairings.mem[p]) { assert PairingRef(r, r.pairings.mem[p]); }
  }

  lemma CreateKeeps(env: Env, w: World, id: string, token: string, now: Time, ok: bool)
    requires Inv(env, w) && Fresh(id, w.used) && Fresh(token, w.used)
    ensures var (k, created) := I.Create(env.persisted, w.relay.installations, id, token, now, ok);
            && Inv(env, World(w.relay.(installations := k), w.accepted, w.used + {id, token}))
            && (created.Some? ==> created.value.id in k.mem)
            && (forall i <- w.relay.installations.mem :: i in k.mem && k.mem[i] == w.relay.installations.mem[i])
  {
    hide L.Inv, Tables, Scopes, Refs, PairingRef;
    var k := I.Create(env.persisted, w.relay.installations, id, token, now, ok).0;
    if ok {
      var i := I.Installation(id, token, now, now);
      InstallationAdded(w.relay, i, k, w.used);
      InstallationAddedRefs(w.relay, i, k, w.used);
    } else {
      MoreDrawn(w.relay, w.used, w.used + {id, token});
    }
  }

  lemma ChannelAddedTables(r: Relay, c: C.Channel, k: Kept<C.Table>, used: set<string>)
    requires Tables(r) && Drawn(r, used) && C.WellFormed(c) && c.watch == "" && c.producer !in used
             && c.id !in r.channels.mem
    requires forall o <- r.channels.mem :: r.channels.mem[o].installation != c.installation
    requires k.mem == r.channels.mem[c.id := c]
    ensures Tables(r.(channels := k))
  {
    hide C.Distinct, I.Keyed, I.Distinct, C.WellFormed;
    C.DistinctAdd(r.channels.mem, C.Installation, c);
    C.DistinctAdd(r.channels.mem, C.Producer, c);
    C.DistinctAdd(r.channels.mem, C.Watch, c);
  }

  lemma ChannelAddedScopes(r: Relay, c: C.Channel, k: Kept<C.Table>, used: set<string>)
    requires Tables(r) && Scopes(r) && Drawn(r, used)
    requires c.producer !in used && c.producer != "" && c.watch == "" && k.mem == r.channels.mem[c.id := c]
    ensures Scopes(r.(channels := k))
  {
    hide C.Distinct, I.Distinct;
  }

  lemma ChannelAddedRefs(r: Relay, c: C.Channel, k: Kept<C.Table>, used: set<string>)
    requires Refs(r) && Drawn(r, used) && c.installation in r.installations.mem
    requires c.id !in used && c.producer !in used && c.watch == "" && k.mem == r.channels.mem[c.id := c]
    ensures var r' := r.(channels := k); Refs(r') && Drawn(r', used + {c.id, c.producer})
  {
    var r' := r.(channels := k);
    forall p <- r.pairings.mem ensures PairingRef(r', r.pairings.mem[p]) {
      assert PairingRef(r, r.pairings.mem[p]);
    }
  }

  lemma MoreDrawn(r: Relay, used: set<string>, more: set<string>)
    requires Drawn(r, used) && used <= more
    ensures Drawn(r, more)
  {
  }

  lemma EnsureKeeps(env: Env, w: World, installation: string, id: string, producer: string, now: Time, ok: bool)
    requires Inv(env, w) && installation in w.relay.installations.mem
    requires Fresh(id, w.used) && Fresh(producer, w.used)
    ensures var (r', channel) := EnsureChannel(env, w.relay, installation, id, producer, now, ok);
            && Inv(env, World(r', w.accepted, w.used + {id, producer}))
            && r'.installations == w.relay.installations
            && (channel.Ok? ==>
                  && channel.value.id in r'.channels.mem && r'.channels.mem[channel.value.id] == channel.value
                  && channel.value.installation == installation)
  {
    hide L.Inv, Refs, Scopes;
    var (r', channel) := EnsureChannel(env, w.relay, installation, id, producer, now, ok);
    assert w.relay.installations.mem[installation].id == installation;
    Text.TrimFixpoint(installation);
    FoundChannel(w.relay.channels.mem, C.Installation, installation);
    if r' == w.relay {
      MoreDrawn(r', w.used, w.used + {id, producer});
    } else {
      var c := C.NewChannel(installation, id, producer, now);
      ChannelAddedTables(w.relay, c, r'.channels, w.used);
      ChannelAddedScopes(w.relay, c, r'.channels, w.used);
      ChannelAddedRefs(w.relay, c, r'.channels, w.used);
    }
  }

  lemma PairingsChanged(env: Env, w: World, k: Kept<P.Codes>, drawn: set<string>)
    requires Inv(env, w) && OnDisk(k)
    requires forall p <- k.mem :: PairingRef(w.relay, k.mem[p]) && p in w.used + drawn
    ensures Inv(env, World(w.relay.(pairings := k), w.accepted, w.used + drawn))
  {
    hide L.Inv, Tables, Refs, Scopes, Drawn, PairingRef;
    PairingRefs(w.relay, k);
    OnlyPairings(w.relay, k, w.used, drawn);
  }

  lemma PairingRefs(r: Relay, k: Kept<P.Codes>)
    requires Refs(r) && forall p <- k.mem :: PairingRef(r, k.mem[p])
    ensures Refs(r.(pairings := k))
  {
    forall p <- k.mem ensures PairingRef(r.(pairings := k), k.mem[p]) { assert PairingRef(r, k.mem[p]); }
  }

  lemma OnlyPairings(r: Relay, k: Kept<P.Codes>, used: set<string>, drawn: set<string>)
    requires Tables(r) && Scopes(r) && Drawn(r, used) && forall p <- k.mem :: p in used + drawn
    ensures var r' := r.(pairings := k); Tables(r') && Scopes(r') && Drawn(r', used + drawn)
  {
  }

  lemma CreatedCodes(env: Env, k: Kept<P.Codes>, installation: string, channel: string, now: Time, tries: seq<string>,
                     id: string, ok: bool)
    requires env.persisted && OnDisk(k) && |tries| == P.TRIES && Text.Trimmed(installation) && Text.Trimmed(channel)
    ensures var k' := P.Create(env.sha, env.persisted, k, installation, channel, env.pairingTTL, now, tries, id, ok).0;
            && OnDisk(k')
            && forall p <- k'.mem :: (p in k.mem && k'.mem[p] == k.mem[p])
                                     || (p == id && k'.mem[p].installation == installation
                                        && k'.mem[p].channel == channel)
  {
    Text.TrimFixpoint(installation);
    Text.TrimFixpoint(channel);
  }

  lemma KnownPairings(env: Env, w: World, channel: C.Channel)
    requires Inv(env, w) && channel.id in w.relay.channels.mem && w.relay.channels.mem[channel.id] == channel
    ensures env.persisted && OnDisk(w.relay.pairings) && channel.installation in w.relay.installations.mem
    ensures Text.Trimmed(channel.installation) && Text.Trimmed(channel.id)
    ensures forall p <- w.relay.pairings.mem :: PairingRef(w.relay, w.relay.pairings.mem[p]) && p in w.used
  {
    hide L.Inv, Scopes, Text.Trimmed;
    assert C.Keyed(w.relay.channels.mem);
  }

  lemma CodeCreated(env: Env, w: World, channel: C.Channel, now: Time, tries: seq<string>, id: string, ok: bool)
    requires Inv(env, w) && id !in w.used && |tries| == P.TRIES
    requires channel.id in w.relay.channels.mem && w.relay.channels.mem[channel.id] == channel
    ensures var k := P.Create(env.sha, env.persisted, w.relay.pairings, channel.installation, channel.id,
                              env.pairingTTL, now, tries, id, ok).0;
            Inv(env, World(w.relay.(pairings := k), w.accepted, w.used + {id}))
  {
    hide P.Create, Inv, Text.Trimmed;
    KnownPairings(env, w, channel);
    var k := P.Create(env.sha, env.persisted, w.relay.pairings, channel.installation, channel.id, env.pairingTTL, now,
                      tries, id, ok).0;
    CreatedCodes(env, w.relay.pairings, channel.installation, channel.id, now, tries, id, ok);
    forall p <- k.mem ensures PairingRef(w.relay, k.mem[p]) && p in w.used + {id} {
      if p in w.relay.pairings.mem { assert PairingRef(w.relay, w.relay.pairings.mem[p]); }
    }
    PairingsChanged(env, w, k, {id});
  }

  lemma ClaimedCodes(env: Env, k: Kept<P.Codes>, raw: string, pick: string, now: Time, ok: bool)
    requires env.persisted && OnDisk(k)
    ensures var (k', claimed) := P.Claim(env.sha, env.persisted, k, raw, pick, now, ok);
            && OnDisk(k')
            && (forall p <- k'.mem ::
                  && p in k.mem && k'.mem[p].installation == k.mem[p].installation
                  && k'.mem[p].channel == k.mem[p].channel)
            && (claimed.Claimed? ==> pick in k.mem && claimed.code.installation == k.mem[pick].installation
                                     && claimed.code.channel == k.mem[pick].channel)
  {
    hide P.Normalize, P.HashCode, P.HasHash;
  }

  /** A successful claim always finds its installation's channel. */
  lemma CodeClaimed(env: Env, w: World, raw: string, pick: string, now: Time, ok: bool)
    requires Inv(env, w)
    ensures var (k, claimed) := P.Claim(env.sha, env.persisted, w.relay.pairings, raw, pick, now, ok);
            && Inv(env, w.(relay := w.relay.(pairings := k)))
            && (claimed.Claimed? ==>
                  && claimed.code.installation in w.relay.installations.mem
                  && claimed.code.channel in w.relay.channels.mem
                  && w.relay.channels.mem[claimed.code.channel].installation == claimed.code.installation)
  {
    hide P.Claim, L.Inv, Tables, Scopes;
    var (k, claimed) := P.Claim(env.sha, env.persisted, w.relay.pairings, raw, pick, now, ok);
    ClaimedCodes(env, w.relay.pairings, raw, pick, now, ok);
    forall p <- k.mem ensures PairingRef(w.relay, k.mem[p]) && p in w.used + {} {
      assert PairingRef(w.relay, w.relay.pairings.mem[p]);
    }
    if claimed.Claimed? { assert PairingRef(w.relay, w.relay.pairings.mem[pick]); }
    PairingsChanged(env, w, k, {});
    assert w.used + {} == w.used;
  }

  lemma RotatedTables(r: Relay, id: string, session: string, now: Time, k: Kept<C.Table>, used: set<string>)
    requires Tables(r) && Drawn(r, used) && id in r.channels.mem && Fresh(session, used)
    requires k.mem == r.channels.mem[id := C.Rotated(r.channels.mem[id], C.Watch, session, now)]
    ensures Tables(r.(channels := k))
  {
    hide C.Distinct, I.Distinct, I.Keyed;
    C.RotationKeepsDistinct(r.channels.mem, C.Watch, id, session, now, C.Installation);
    C.RotationKeepsDistinct(r.channels.mem, C.Watch, id, session, now, C.Producer);
    C.RotationKeepsDistinct(r.channels.mem, C.Watch, id, session, now, C.Watch);
  }

  lemma RotatedScopes(r: Relay, id: string, session: string, now: Time, k: Kept<C.Table>, used: set<string>)
    requires Scopes(r) && Drawn(r, used) && id in r.channels.mem && session !in used
    requires k.mem == r.channels.mem[id := C.Rotated(r.channels.mem[id], C.Watch, session, now)]
    ensures Scopes(r.(channels := k))
  {
  }

  lemma RotatedRefs(r: Relay, id: string, session: string, now: Time, k: Kept<C.Table>, used: set<string>)
    requires Refs(r) && Drawn(r, used) && id in r.channels.mem
    requires k.mem == r.channels.mem[id := C.Rotated(r.channels.mem[id], C.Watch, session, now)]
    ensures var r' := r.(channels := k); Refs(r') && Drawn(r', used + {session})
  {
    var r' := r.(channels := k);
    forall p <- r.pairings.mem ensures PairingRef(r', r.pairings.mem[p]) {
      assert PairingRef(r, r.pairings.mem[p]);
    }
  }

  lemma RotatedKept(env: Env, r: Relay, id: string, session: string, now: Time, ok: bool)
    requires env.persisted && Tables(r) && OnDisk(r.channels) && id in r.channels.mem
    ensures var c := C.Rotated(r.channels.mem[id], C.Watch, session, now);
            C.Rotate(env.persisted, r.channels, C.Watch, r.channels.mem[id].installation, session, now, ok)
            == if ok then (Kept(r.channels.mem[id := c], Some(r.channels.mem[id := c])), Ok(c))
               else (r.channels, Err(C.NotSaved))
  {
    hide C.Lookup, Text.Trim;
    assert C.Keyed(r.channels.mem);
    Text.TrimFixpoint(r.channels.mem[id].installation);
    C.LookupIs(r.channels.mem, C.Installation, id);
  }

  lemma RotateKeeps(env: Env, w: World, id: string, session: string, now: Time, ok: bool)
    requires Inv(env, w) && id in w.relay.channels.mem && Fresh(session, w.used)
    ensures var (k, channel) := C.Rotate(env.persisted, w.relay.channels, C.Watch,
            w.relay.channels.mem[id].installation, session, now, ok);
            && Inv(env, World(w.relay.(channels := k), w.accepted, w.used + {session}))
            && (channel.Ok? <==> ok)
            && (ok ==> channel.value == C.Rotated(w.relay.channels.mem[id], C.Watch, session, now))
  {
    hide C.Rotate, L.Inv, Tables, Scopes, Refs, Drawn, Text.Trimmed;
    var c := w.relay.channels.mem[id];
    var (k, channel) := C.Rotate(env.persisted, w.relay.channels, C.Watch, c.installation, session, now, ok);
    RotatedKept(env, w.relay, id, session, now, ok);
    if ok {
      RotatedTables(w.relay, id, session, now, k, w.used);
      RotatedScopes(w.relay, id, session, now, k, w.used);
      RotatedRefs(w.relay, id, session, now, k, w.used);
    } else {
      MoreDrawn(w.relay, w.used, w.used + {session});
    }
  }

  lemma DeviceRefs(r: Relay, k: Kept<D.Table>)
    requires Refs(r) && forall d <- k.mem :: k.mem[d].installation in r.installations.mem
    ensures Refs(r.(devices := k))
  {
    var r' := r.(devices := k);
    forall p <- r'.pairings.mem ensures PairingRef(r', r'.pairings.mem[p]) { assert PairingRef(r, r'.pairings.mem[p]); }
  }

  /** Tables, scopes and draws speak of installations, channels and pairings only. */
  lemma SameTables(r: Relay, r': Relay, used: set<string>)
    requires Tables(r) && Scopes(r) && Drawn(r, used)
    requires r'.installations == r.installations && r'.channels == r.channels && r'.pairings == r.pairings
    ensures Tables(r') && Scopes(r') && Drawn(r', used)
  {
  }

  lemma DevicesChanged(env: Env, w: World, k: Kept<D.Table>)
    requires Inv(env, w) && OnDisk(k)
    requires forall d <- k.mem :: k.mem[d].installation in w.relay.installations.mem
    ensures Inv(env, w.(relay := w.relay.(devices := k)))
  {
    hide L.Inv, Tables, Refs, Scopes, Drawn;
    DeviceRefs(w.relay, k);
    SameTables(w.relay, w.relay.(devices := k), w.used);
  }

  lemma UpsertKeeps(env: Env, w: World, installation: string, watchID: string, pushToken: string, now: Time, ok: bool)
    requires Inv(env, w) && installation in w.relay.installations.mem
    ensures var k := D.Upsert(env.persisted, w.relay.devices, Registration(env, installation, watchID, pushToken), now,
            ok).0;
            Inv(env, w.(relay := w.relay.(devices := k)))
  {
    var k := D.Upsert(env.persisted, w.relay.devices, Registration(env, installation, watchID, pushToken), now, ok).0;
    assert w.relay.installations.mem[installation].id == installation;
    Text.TrimFixpoint(installation);
    DevicesChanged(env, w, k);
  }

  lemma {:induction false} DeliverSubset(env: Env, k: Kept<D.Table>, order: seq<D.Device>, pushes: seq<Push>)
    requires |pushes| == |order| && env.persisted && OnDisk(k)
    ensures var k' := Deliver(env.persisted, k, order, pushes).0;
            OnDisk(k') && forall d <- k'.mem :: d in k.mem && k'.mem[d] == k.mem[d]
  {
    if order != [] { DeliverSubset(env, k, order[..|order| - 1], pushes[..|order| - 1]); }
  }

  lemma DeliverKeeps(env: Env, w: World, order: seq<D.Device>, pushes: seq<Push>)
    requires Inv(env, w) && |pushes| == |order|
    ensures Inv(env, w.(relay := w.relay.(devices := Deliver(env.persisted, w.relay.devices, order, pushes).0)))
  {
    DeliverSubset(env, w.relay.devices, order, pushes);
    DevicesChanged(env, w, Deliver(env.persisted, w.relay.devices, order, pushes).0);
  }

  lemma LogRefs(r: Relay, log: L.Log)
    requires Refs(r) && forall e <- log.mem.events :: e.channel in r.channels.mem
    ensures Refs(r.(log := log))
  {
    var r' := r.(log := log);
    forall p <- r'.pairings.mem ensures PairingRef(r', r'.pairings.mem[p]) { assert PairingRef(r, r'.pairings.mem[p]); }
  }

  lemma LogChanged(env: Env, w: World, log: L.Log, accepted: seq<L.Event>)
    requires Inv(env, w) && L.Inv(LogConfig(env), L.History(log, accepted))
    requires forall e <- log.mem.events :: e.channel in w.relay.channels.mem
    ensures Inv(env, World(w.relay.(log := log), accepted, w.used))
  {
    hide L.Inv, Tables, Scopes, Drawn, Refs;
    LogRefs(w.relay, log);
    SameTables(w.relay, w.relay.(log := log), w.used);
  }

  lemma AppendedChannels(cfg: L.Config, h: L.History, input: L.Input, now: Time, ok: bool)
    ensures forall e <- L.Next(cfg, h, L.AppendStep(input, now, ok)).log.mem.events ::
              e in h.log.mem.events || e.channel == Text.Trim(input.channel)
  {
    hide L.FindDuplicate, Text.Trim;
  }

  lemma AppendKeeps(env: Env, w: World, input: L.Input, now: Time, ok: bool)
    requires Inv(env, w) && input.channel in w.relay.channels.mem
    ensures var h := L.Next(LogConfig(env), L.History(w.relay.log, w.accepted), L.AppendStep(input, now, ok));
            Inv(env, World(w.relay.(log := h.log), h.accepted, w.used))
  {
    var h0 := L.History(w.relay.log, w.accepted);
    var h := L.Next(LogConfig(env), h0, L.AppendStep(input, now, ok));
    L.AppendKeepsInv(LogConfig(env), h0, input, now, ok);
    assert w.relay.channels.mem[input.channel].id == input.channel;
    Text.TrimFixpoint(input.channel);
    AppendedChannels(LogConfig(env), h0, input, now, ok);
    hide L.Next, L.Inv, Tables, Scopes, Disk, Drawn, Text.Trim;
    LogChanged(env, w, h.log, h.accepted);
  }

  // ---------------------------------------------------------------- deletion, step by step

  /** The cleanup's first k calls have left nothing of the installation in their stores. */
  predicate NoPairings(r: Relay, installation: string) {
    forall p <- r.pairings.mem :: r.pairings.mem[p].installation != installation
  }

  predicate NoDevices(r: Relay, installation: string) {
    forall d <- r.devices.mem :: r.devices.mem[d].installation != installation
  }

  predicate NoEvents(r: Relay, installation: string) {
    forall e <- r.log.mem.events :: e.channel in r.channels.mem ==>
        r.channels.mem[e.channel].installation != installation
  }

  predicate NoChannel(r: Relay, installation: string) {
    forall c <- r.channels.mem :: r.channels.mem[c].installation != installation
  }

  lemma RemovedCodes(env: Env, k: Kept<P.Codes>, installation: string, ok: bool)
    requires env.persisted && OnDisk(k) && installation != "" && Text.Trimmed(installation)
    ensures var (k', done) := P.Remove(env.persisted, k, installation, ok);
            && OnDisk(k') && (ok ==> done)
            && (forall p <- k'.mem :: p in k.mem && k'.mem[p] == k.mem[p])
            && (done ==> forall p <- k'.mem :: k'.mem[p].installation != installation)
            && P.WithoutInstallation(k'.mem, installation) == P.WithoutInstallation(k.mem, installation)
  {
    Text.TrimFixpoint(installation);
    if P.WithoutInstallation(k.mem, installation) == k.mem {
      forall p <- k.mem ensures k.mem[p].installation != installation {
        assert p in P.WithoutInstallation(k.mem, installation);
      }
    }
  }

  lemma RemovePairingsKeeps(env: Env, w: World, installation: string, ok: bool)
    requires Inv(env, w) && installation != "" && Text.Trimmed(installation)
    ensures var (k, done) := P.Remove(env.persisted, w.relay.pairings, installation, ok);
            var r' := w.relay.(pairings := k);
            && Inv(env, w.(relay := r')) && (done ==> NoPairings(r', installation)) && (ok ==> done)
            && P.WithoutInstallation(k.mem, installation) == P.WithoutInstallation(w.relay.pairings.mem, installation)
  {
    hide P.Remove, P.WithoutInstallation, L.Inv, Tables, Scopes;
    var (k, done) := P.Remove(env.persisted, w.relay.pairings, installation, ok);
    RemovedCodes(env, w.relay.pairings, installation, ok);
    forall p <- k.mem ensures PairingRef(w.relay, k.mem[p]) && p in w.used + {} {
      assert PairingRef(w.relay, w.relay.pairings.mem[p]);
    }
    PairingsChanged(env, w, k, {});
    assert w.used + {} == w.used;
  }

  lemma RemoveDevicesKeeps(env: Env, w: World, installation: string, ok: bool)
    requires Inv(env, w) && installation != "" && Text.Trimmed(installation)
    ensures var (k, done) := D.RemoveForInstallation(env.persisted, w.relay.devices, installation, ok);
            var r' := w.relay.(devices := k);
            && Inv(env, w.(relay := r')) && (done ==> NoDevices(r', installation)) && (ok ==> done)
            && D.WithoutInstallation(k.mem, installation) == D.WithoutInstallation(w.relay.devices.mem, installation)
  {
    hide L.Inv, Tables, Scopes, Drawn, Text.Trim, D.RemoveForInstallation, D.WithoutInstallation;
    RemovedDevices(env, w.relay.devices, installation, ok);
    DevicesChanged(env, w, D.RemoveForInstallation(env.persisted, w.relay.devices, installation, ok).0);
  }

  lemma RemovedDevices(env: Env, k: Kept<D.Table>, installation: string, ok: bool)
    requires env.persisted && OnDisk(k) && installation != "" && Text.Trimmed(installation)
    ensures var (k', done) := D.RemoveForInstallation(env.persisted, k, installation, ok);
            && OnDisk(k') && (forall d <- k'.mem :: d in k.mem && k'.mem[d] == k.mem[d]) && (ok ==> done)
            && (done ==> forall d <- k'.mem :: k'.mem[d].installation != installation)
            && D.WithoutInstallation(k'.mem, installation) == D.WithoutInstallation(k.mem, installation)
  {
    Text.TrimFixpoint(installation);
    hide Text.Trim;
  }

  lemma RemoveEventsKeeps(env: Env, w: World, channel: string, ok: bool)
    requires Inv(env, w) && channel in w.relay.channels.mem
    ensures var (log, done) := L.Remove(LogConfig(env), w.relay.log, channel, ok);
            var r' := w.relay.(log := log);
            && Inv(env, w.(relay := r')) && (ok ==> done)
            && (done ==> forall e <- log.mem.events :: e.channel != channel)
            && (forall other, after | other != channel ::
               L.Since(log.mem.events, other, after) == L.Since(w.relay.log.mem.events, other, after))
  {
    var (log, done) := L.Remove(LogConfig(env), w.relay.log, channel, ok);
    var events := w.relay.log.mem.events;
    assert w.relay.channels.mem[channel].id == channel;
    Text.TrimFixpoint(channel);
    L.RemoveKeepsInv(LogConfig(env), L.History(w.relay.log, w.accepted), channel, ok);
    L.WithoutMeaning(events, channel);
    L.WithoutLength(events, channel);
    forall other, after | other != channel
        ensures L.Since(log.mem.events, other, after) == L.Since(events, other, after) {
      SinceOfOthers(events, channel, other, after);
    }
    if done {
      forall e <- log.mem.events ensures e.channel != channel { assert Text.Trim(e.channel) != channel; }
    }
    LogChanged(env, w, log, w.accepted);
  }

  lemma {:induction false} SinceOfOthers(events: seq<L.Event>, channel: string, other: string, after: int)
    requires other != channel
    ensures L.Since(L.Without(events, channel), other, after) == L.Since(events, other, after)
  {
    if events != [] {
      var front, last := events[..|events| - 1], events[|events| - 1];
      SinceOfOthers(front, channel, other, after);
      var kept := L.Without(events, channel);
      if Text.Trim(last.channel) != channel {
        assert kept == L.Without(front, channel) + [last] && kept[..|kept| - 1] == L.Without(front, channel);
        assert kept != [] && kept[|kept| - 1] == last;
      } else {
        assert kept == L.Without(front, channel);
        assert L.Since(events, other, after) == L.Since(front, other, after) + [];
      }
    }
  }

  lemma RemovedChannels(env: Env, k: Kept<C.Table>, installation: string, ok: bool)
    requires env.persisted && OnDisk(k) && installation != "" && Text.Trimmed(installation)
    requires C.Keyed(k.mem) && C.Distinct(k.mem, C.Installation)
    ensures var (k', done) := C.Remove(env.persisted, k, installation, ok);
            && OnDisk(k') && (ok ==> done) && FewerChannels(k.mem, k'.mem, installation)
            && (done ==> forall c <- k'.mem :: k'.mem[c].installation != installation)
  {
    Text.TrimFixpoint(installation);
    FoundChannel(k.mem, C.Installation, installation);
    hide C.Lookup, C.WellFormed;
    var found := C.Lookup(k.mem, C.Installation, installation);
    if found.Some? {
      assert k.mem[found.value.id] == found.value;
      forall c | c in k.mem && c != found.value.id ensures k.mem[c].installation != installation {
        assert C.Get(k.mem[c], C.Installation) != C.Get(k.mem[found.value.id], C.Installation);
      }
    } else {
      assert forall c <- k.mem :: C.Get(k.mem[c], C.Installation) == k.mem[c].installation;
    }
  }

  /** Only the installation's own channels may have gone. */
  predicate FewerChannels(before: C.Table, after: C.Table, installation: string) {
    && (forall c <- after :: c in before && after[c] == before[c])
    && (forall c <- before | before[c].installation != installation :: c in after)
  }

  lemma RemoveChannelKeeps(env: Env, w: World, installation: string, ok: bool)
    requires Inv(env, w) && installation != "" && Text.Trimmed(installation)
    requires NoPairings(w.relay, installation) && NoEvents(w.relay, installation)
    ensures var (k, done) := C.Remove(env.persisted, w.relay.channels, installation, ok);
            var r' := w.relay.(channels := k);
            && Inv(env, w.(relay := r')) && (done ==> NoChannel(r', installation)) && (ok ==> done)
            && FewerChannels(w.relay.channels.mem, k.mem, installation)
  {
    hide C.Remove, L.Inv, Refs, NoPairings, NoEvents, Drawn;
    var (k, done) := C.Remove(env.persisted, w.relay.channels, installation, ok);
    RemovedChannels(env, w.relay.channels, installation, ok);
    ChannelRemovedRefs(w.relay, installation, k, w.used);
    ChannelRemovedTables(w.relay, installation, k);
  }

  lemma ChannelRemovedTables(r: Relay, installation: string, k: Kept<C.Table>)
    requires Tables(r) && Scopes(r) && FewerChannels(r.channels.mem, k.mem, installation)
    ensures var r' := r.(channels := k); Tables(r') && Scopes(r')
  {
    hide I.Keyed, I.Distinct, C.WellFormed;
    assert C.Distinct(k.mem, C.Installation) && C.Distinct(k.mem, C.Producer) && C.Distinct(k.mem, C.Watch);
  }

  lemma ChannelRemovedRefs(r: Relay, installation: string, k: Kept<C.Table>, used: set<string>)
    requires Refs(r) && Drawn(r, used) && NoPairings(r, installation) && NoEvents(r, installation)
    requires FewerChannels(r.channels.mem, k.mem, installation)
    ensures var r' := r.(channels := k); Refs(r') && Drawn(r', used)
  {
    var r' := r.(channels := k);
    forall p <- r.pairings.mem ensures PairingRef(r', r.pairings.mem[p]) { assert PairingRef(r, r.pairings.mem[p]); }
  }

  lemma RemoveInstallationKeeps(env: Env, w: World, installation: string, ok: bool)
    requires Inv(env, w) && Text.Trimmed(installation)
    requires NoPairings(w.relay, installation) && NoDevices(w.relay, installation) && NoChannel(w.relay, installation)
    ensures var (k, done) := I.Remove(env.persisted, w.relay.installations, installation, ok);
            var r' := w.relay.(installations := k);
            && Inv(env, w.(relay := r')) && (done ==> installation !in k.mem) && (ok ==> done)
            && k.mem - {installation} == w.relay.installations.mem - {installation}
            && (!done ==> k == w.relay.installations)
  {
    var (k, done) := I.Remove(env.persisted, w.relay.installations, installation, ok);
    Text.TrimFixpoint(installation);
    hide L.Inv;
    InstallationRemoved(w.relay, installation, k, w.used);
  }

  lemma InstallationRemoved(r: Relay, installation: string, k: Kept<I.Table>, used: set<string>)
    requires Tables(r) && Refs(r) && Scopes(r) && Drawn(r, used)
    requires NoPairings(r, installation) && NoDevices(r, installation) && NoChannel(r, installation)
    requires k.mem == r.installations.mem || k.mem == r.installations.mem - {installation}
    ensures var r' := r.(installations := k); Tables(r') && Refs(r') && Scopes(r') && Drawn(r', used)
  {
    hide Refs, C.Keyed, C.Distinct;
    RefsWithout(r, installation, k);
  }

  lemma RefsWithout(r: Relay, installation: string, k: Kept<I.Table>)
    requires Refs(r) && NoPairings(r, installation) && NoDevices(r, installation) && NoChannel(r, installation)
    requires k.mem == r.installations.mem || k.mem == r.installations.mem - {installation}
    ensures Refs(r.(installations := k))
  {
    var r' := r.(installations := k);
    forall p <- r.pairings.mem ensures PairingRef(r', r.pairings.mem[p]) { assert PairingRef(r, r.pairings.mem[p]); }
  }

  /** Every other installation's records are exactly as before. */
  ghost predicate OthersKept(r: Relay, r': Relay, installation: string) {
    && r'.installations.mem - {installation} == r.installations.mem - {installation}
    && FewerChannels(r.channels.mem, r'.channels.mem, installation)
    && P.WithoutInstallation(r'.pairings.mem, installation) == P.WithoutInstallation(r.pairings.mem, installation)
    && D.WithoutInstallation(r'.devices.mem, installation) == D.WithoutInstallation(r.devices.mem, installation)
    && EventsKept(r, r', installation)
  }

  ghost predicate EventsKept(r: Relay, r': Relay, installation: string) {
    forall c, after | c in r.channels.mem && r.channels.mem[c].installation != installation ::
      L.Since(r'.log.mem.events, c, after) == L.Since(r.log.mem.events, c, after)
  }

  /** Nothing of the installation remains: no identity, channel, pairing, device or event. */
  predicate Gone(r: Relay, installation: string) {
    && installation !in r.installations.mem && NoChannel(r, installation) && NoPairings(r, installation)
    && NoDevices(r, installation)
  }

  lemma EventsGone(env: Env, w: World, w': World, installation: string, channel: C.Channel)
    requires Inv(env, w) && channel.id in w.relay.channels.mem && w.relay.channels.mem[channel.id] == channel
    requires channel.installation == installation && w'.relay.channels == w.relay.channels
    requires forall e <- w'.relay.log.mem.events :: e.channel != channel.id
    ensures NoEvents(w'.relay, installation)
  {
    forall c | c in w.relay.channels.mem && c != channel.id
        ensures w.relay.channels.mem[c].installation != installation {
      assert C.Get(w.relay.channels.mem[c], C.Installation) != C.Get(w.relay.channels.mem[channel.id], C.Installation);
    }
  }

  lemma FoundKept(env: Env, w: World, installation: string)
    requires Inv(env, w)
    ensures var channel := C.Lookup(w.relay.channels.mem, C.Installation, installation);
            && (channel.Some? ==>
                  && channel.value.id in w.relay.channels.mem
                  && w.relay.channels.mem[channel.value.id] == channel.value
                  && channel.value.installation == installation)
            && (channel.None? ==> forall c <- w.relay.channels.mem ::
               w.relay.channels.mem[c].installation != installation)
  {
    hide C.Lookup, L.Inv, Refs, Scopes, Drawn;
    FoundChannel(w.relay.channels.mem, C.Installation, installation);
    assert C.Keyed(w.relay.channels.mem);
  }

  /** The first three calls of the cleanup. */
  lemma DeleteRecordsKeeps(env: Env, w: World, installation: string, saves: Saves)
    requires Inv(env, w) && installation != "" && Text.Trimmed(installation)
    ensures var (r', ok) := DeleteRecords(env, w.relay, installation, saves);
            && Inv(env, w.(relay := r')) && (saves.first && saves.second && saves.third ==> ok)
            && (ok ==> NoPairings(r', installation) && NoDevices(r', installation) && NoEvents(r', installation))
            && r'.installations == w.relay.installations && r'.channels == w.relay.channels
            && EventsKept(w.relay, r', installation)
            && P.WithoutInstallation(r'.pairings.mem, installation)
               == P.WithoutInstallation(w.relay.pairings.mem, installation)
            && D.WithoutInstallation(r'.devices.mem, installation)
               == D.WithoutInstallation(w.relay.devices.mem, installation)
  {
    hide C.Lookup, P.Remove, D.RemoveForInstallation, L.Remove, P.WithoutInstallation, D.WithoutInstallation, Inv,
         Text.Trim;
    var channel := C.Lookup(w.relay.channels.mem, C.Installation, Text.Trim(installation));
    Text.TrimFixpoint(installation);
    FoundKept(env, w, installation);
    var (pairings, ok1) := P.Remove(env.persisted, w.relay.pairings, installation, saves.first);
    RemovePairingsKeeps(env, w, installation, saves.first);
    var w1 := w.(relay := w.relay.(pairings := pairings));
    var (devices, ok2) := D.RemoveForInstallation(env.persisted, w1.relay.devices, installation, saves.second);
    RemoveDevicesKeeps(env, w1, installation, saves.second);
    var w2 := w.(relay := w1.relay.(devices := devices));
    if channel.Some? {
      RemoveEventsKeeps(env, w2, channel.value.id, saves.third);
      var (log, ok3) := L.Remove(LogConfig(env), w2.relay.log, channel.value.id, saves.third);
      if ok3 { EventsGone(env, w2, w2.(relay := w2.relay.(log := log)), installation, channel.value); }
    }
  }

  lemma KnownInstallation(env: Env, w: World, installation: string)
    requires Inv(env, w) && installation in w.relay.installations.mem
    ensures w.relay.installations.mem[installation].id == installation && Text.Trimmed(installation)
            && installation != ""
  {
    assert I.Keyed(w.relay.installations.mem);
  }

  lemma DeleteIdentityKeeps(env: Env, w: World, installation: string, saves: Saves)
    requires Inv(env, w) && installation != "" && Text.Trimmed(installation)
    requires NoPairings(w.relay, installation) && NoDevices(w.relay, installation) && NoEvents(w.relay, installation)
    ensures var (r', reply) := DeleteIdentity(env, w.relay, installation, saves);
            && Inv(env, w.(relay := r')) && (reply == NoContent || reply == ServerError)
            && r'.pairings == w.relay.pairings && r'.devices == w.relay.devices && r'.log == w.relay.log
            && r'.installations.mem - {installation} == w.relay.installations.mem - {installation}
            && FewerChannels(w.relay.channels.mem, r'.channels.mem, installation)
            && (reply == NoContent ==> Gone(r', installation))
            && (reply == ServerError ==> r'.installations == w.relay.installations)
            && (saves.fourth && saves.fifth ==> reply == NoContent)
  {
    hide C.Remove, I.Remove, Inv, FewerChannels;
    RemoveChannelKeeps(env, w, installation, saves.fourth);
    var (channels, ok4) := C.Remove(env.persisted, w.relay.channels, installation, saves.fourth);
    if ok4 { RemoveInstallationKeeps(env, w.(relay := w.relay.(channels := channels)), installation, saves.fifth); }
  }

  /** One DELETE, whatever fails: references stay whole and others are untouched; a failure keeps the
      identity, and 204 means nothing is left. */
  lemma DeleteKeeps(env: Env, w: World, installation: string, saves: Saves)
    requires Inv(env, w) && installation in w.relay.installations.mem
    ensures var (r', reply) := Delete(env, w.relay, installation, saves);
            && Inv(env, w.(relay := r')) && OthersKept(w.relay, r', installation)
            && (reply == NoContent || reply == ServerError)
            && (reply == NoContent ==> Gone(r', installation))
            && (reply == ServerError ==> r'.installations == w.relay.installations)
            && (saves.first && saves.second && saves.third && saves.fourth && saves.fifth ==> reply == NoContent)
  {
    hide DeleteRecords, DeleteIdentity, P.WithoutInstallation, D.WithoutInstallation, Inv, EventsKept, FewerChannels,
         Gone, NoPairings, NoDevices, NoEvents;
    KnownInstallation(env, w, installation);
    DeleteRecordsKeeps(env, w, installation, saves);
    SameChannels(w.relay.channels.mem, installation);
    var (r3, ok3) := DeleteRecords(env, w.relay, installation, saves);
    if ok3 {
      DeleteIdentityKeeps(env, w.(relay := r3), installation, saves);
      SameEventsKept(w.relay, r3, DeleteIdentity(env, r3, installation, saves).0, installation);
    }
  }

  lemma SameChannels(table: C.Table, installation: string)
    ensures FewerChannels(table, table, installation)
  {
  }

  lemma SameEventsKept(r: Relay, r3: Relay, r4: Relay, installation: string)
    requires EventsKept(r, r3, installation) && r4.log == r3.log
    ensures EventsKept(r, r4, installation)
  {
  }

  // ---------------------------------------------------------------- requests

  function DrawnBy(q: Request): set<string> {
    set x <- Draws(q)
  }

  function Accepting(accepted: seq<L.Event>, reply: Reply): seq<L.Event> {
    if reply.EventReply? && !reply.deduplicated then accepted + [reply.event] else accepted
  }

  function After(w: World, q: Request, outcome: (Relay, Reply)): World {
    World(outcome.0, Accepting(w.accepted, outcome.1), w.used + DrawnBy(q))
  }

  /** A request that does not fit leaves the world alone. */
  ghost function Next(env: Env, w: World, q: Request): World {
    if Fits(env, w.relay, w.used, q) then After(w, q, Handle(env, w.relay, w.used, q)) else w
  }

  ghost function Run(env: Env, w: World, requests: seq<Request>): World {
    if requests == [] then w else Next(env, Run(env, w, requests[..|requests| - 1]), requests[|requests| - 1])
  }

  function Start(now: Time): World {
    World(Relay(Kept(map[], None), Kept(map[], None), Kept(map[], None), Kept(map[], None), L.Start(now).log), [], {})
  }

  lemma InvMore(env: Env, w: World, more: set<string>)
    requires Inv(env, w) && w.used <= more
    ensures Inv(env, w.(used := more))
  {
    MoreDrawn(w.relay, w.used, more);
  }

  /** Whoever authenticates exists. */
  lemma AuthExists(env: Env, w: World, bearer: Option<string>)
    requires Inv(env, w)
    ensures match Resolve(w.relay, bearer)
            case Unknown => true
            case ByInstallation(token, i) =>
              && i in w.relay.installations.mem && w.relay.installations.mem[i].token == token
              && I.Lookup(w.relay.installations.mem, token) == Some(w.relay.installations.mem[i])
            case ByProducer(c, i) =>
              && c in w.relay.channels.mem && w.relay.channels.mem[c].installation == i
              && i in w.relay.installations.mem
            case ByWatch(c, i) =>
              && c in w.relay.channels.mem && w.relay.channels.mem[c].installation == i
              && i in w.relay.installations.mem
  {
    hide L.Inv, I.Lookup, C.Lookup, Scopes, Disk, Drawn, Text.Trim;
    if bearer.Some? {
      var token := Text.Trim(bearer.value);
      FoundByToken(w.relay.installations.mem, token);
      FoundChannel(w.relay.channels.mem, C.Producer, token);
      FoundChannel(w.relay.channels.mem, C.Watch, token);
    }
  }

  /** What authentication leaves to the handler. */
  lemma Authenticated(env: Env, w: World, bearer: Option<string>, now: Time, ok: bool)
    requires Inv(env, w)
    ensures var auth := Resolve(w.relay, bearer);
            var r' := Touched(env, w.relay, auth, now, ok);
            && Inv(env, w.(relay := r')) && r' == w.relay.(installations := r'.installations)
            && r'.installations.mem.Keys == w.relay.installations.mem.Keys
            && (forall i <- w.relay.installations.mem ::
               r'.installations.mem[i].token == w.relay.installations.mem[i].token)
            && (auth.ByInstallation? ==> auth.installation in r'.installations.mem)
            && (auth.ByProducer? ==>
                  auth.channel in r'.channels.mem && r'.channels.mem[auth.channel].installation == auth.installation)
            && (auth.ByWatch? ==> auth.installation in r'.installations.mem)
  {
    var auth := Resolve(w.relay, bearer);
    AuthExists(env, w, bearer);
    hide Resolve;
    if auth.ByInstallation? {
      TouchKeeps(env, w, auth.token, now, ok);
      TouchedTable(env, w.relay.installations, auth.token, now, ok);
    }
    hide Inv, I.Touch;
  }

  lemma IdentifyKeeps(env: Env, w: World, auth: Auth, id: string, token: string, now: Time, ok: bool)
    requires Inv(env, w) && Fresh(id, w.used) && Fresh(token, w.used)
    ensures var (r', installation) := Identify(env, w.relay, auth, id, token, now, ok);
            && Inv(env, World(r', w.accepted, w.used + {id, token}))
            && (installation.Some? ==>
               installation.value.id in r'.installations.mem || installation.value == NO_INSTALLATION)
            && (forall i <- w.relay.installations.mem ::
                  i in r'.installations.mem && r'.installations.mem[i] == w.relay.installations.mem[i])
  {
    FoundByToken(w.relay.installations.mem, if auth.ByInstallation? then auth.token else "");
    CreateKeeps(env, w, id, token, now, ok);
    InvMore(env, w, w.used + {id, token});
    assert I.Keyed(w.relay.installations.mem);
    hide Inv, I.Create;
  }

  lemma NobodyGetsNoChannel(env: Env, r: Relay, id: string, producer: string, now: Time, ok: bool)
    ensures EnsureChannel(env, r, NO_INSTALLATION.id, id, producer, now, ok) == (r, Err(C.IDRequired))
  {
    hide C.Lookup;
  }

  lemma EnrollKeeps(env: Env, w: World, auth: Auth, q: Request)
    requires Inv(env, w) && q.CreateInstallation? && Fresh(q.id, w.used) && Fresh(q.token, w.used)
    requires Fresh(q.channel, w.used + {q.id, q.token}) && Fresh(q.producer, w.used + {q.id, q.token})
    ensures Inv(env, World(Enroll(env, w.relay, auth, q).0, w.accepted,
            w.used + {q.id, q.token} + {q.channel, q.producer}))
  {
    hide Identify, EnsureChannel, Inv;
    IdentifyKeeps(env, w, auth, q.id, q.token, q.now, q.saves.first);
    var (r2, installation) := Identify(env, w.relay, auth, q.id, q.token, q.now, q.saves.first);
    var w2 := World(r2, w.accepted, w.used + {q.id, q.token});
    InvMore(env, w2, w2.used + {q.channel, q.producer});
    if installation.Some? {
      if installation.value == NO_INSTALLATION {
        NobodyGetsNoChannel(env, r2, q.channel, q.producer, q.now, q.saves.second);
      } else {
        EnsureKeeps(env, w2, installation.value.id, q.channel, q.producer, q.now, q.saves.second);
      }
    }
  }

  lemma CreateInstallationKeeps(env: Env, w: World, q: Request)
    requires Inv(env, w) && q.CreateInstallation? && Fresh(q.id, w.used) && Fresh(q.token, w.used)
    requires Fresh(q.channel, w.used + {q.id, q.token}) && Fresh(q.producer, w.used + {q.id, q.token})
    ensures Inv(env, World(HandleCreateInstallation(env, w.relay, q).0, w.accepted,
            w.used + {q.id, q.token} + {q.channel, q.producer}))
  {
    hide Fresh, Resolve, Touched, Enroll, Inv;
    Authenticated(env, w, q.bearer, q.now, q.saves.touch);
    var auth := Resolve(w.relay, q.bearer);
    var w1 := w.(relay := Touched(env, w.relay, auth, q.now, q.saves.touch));
    InvMore(env, w1, w.used + {q.id, q.token} + {q.channel, q.producer});
    EnrollKeeps(env, w1, auth, q);
  }

  lemma DeleteInstallationKeeps(env: Env, w: World, q: Request)
    requires Inv(env, w) && q.DeleteInstallation?
    ensures Inv(env, w.(relay := HandleDeleteInstallation(env, w.relay, q).0))
  {
    hide Resolve, Touched, Delete, Inv, OthersKept, Gone;
    Authenticated(env, w, q.bearer, q.now, q.saves.touch);
    var auth := Resolve(w.relay, q.bearer);
    var w1 := w.(relay := Touched(env, w.relay, auth, q.now, q.saves.touch));
    if auth.ByInstallation? { DeleteKeeps(env, w1, auth.installation, q.saves); }
  }

  lemma IssueCodeKeeps(env: Env, w: World, installation: string, q: Request)
    requires Inv(env, w) && q.CreatePairingCode? && installation in w.relay.installations.mem && |q.tries| == P.TRIES
    requires Fresh(q.channel, w.used) && Fresh(q.producer, w.used) && Fresh(q.code, w.used + {q.channel, q.producer})
    ensures Inv(env, World(IssueCode(env, w.relay, installation, q).0, w.accepted,
            w.used + {q.channel, q.producer} + {q.code}))
  {
    hide EnsureChannel, P.Create, Inv, Text.Trimmed;
    EnsureKeeps(env, w, installation, q.channel, q.producer, q.now, q.saves.first);
    var (r2, channel) := EnsureChannel(env, w.relay, installation, q.channel, q.producer, q.now, q.saves.first);
    var w2 := World(r2, w.accepted, w.used + {q.channel, q.producer});
    InvMore(env, w2, w2.used + {q.code});
    if channel.Ok? { CodeCreated(env, w2, channel.value, q.now, q.tries, q.code, q.saves.second); }
  }

  lemma CreatePairingCodeKeeps(env: Env, w: World, q: Request)
    requires Inv(env, w) && q.CreatePairingCode? && |q.tries| == P.TRIES
    requires Fresh(q.channel, w.used) && Fresh(q.producer, w.used) && Fresh(q.code, w.used + {q.channel, q.producer})
    ensures Inv(env, World(HandleCreatePairingCode(env, w.relay, q).0, w.accepted,
            w.used + {q.channel, q.producer} + {q.code}))
  {
    hide Fresh, Resolve, Touched, IssueCode, Inv, Text.Trim;
    Authenticated(env, w, q.bearer, q.now, q.saves.touch);
    var auth := Resolve(w.relay, q.bearer);
    var w1 := w.(relay := Touched(env, w.relay, auth, q.now, q.saves.touch));
    InvMore(env, w1, w.used + {q.channel, q.producer} + {q.code});
    if auth.ByInstallation? { IssueCodeKeeps(env, w1, auth.installation, q); }
  }

  lemma KnownChannel(env: Env, w: World, channel: string)
    requires Inv(env, w) && channel in w.relay.channels.mem
    ensures w.relay.channels.mem[channel].id == channel
  {
    assert C.Keyed(w.relay.channels.mem);
  }

  /** What a claim does after the code was accepted. */
  lemma OpenSessionKeeps(env: Env, w: World, code: P.Code, q: Request)
    requires Inv(env, w) && q.ClaimPairingCode? && code.installation in w.relay.installations.mem
    requires code.channel in w.relay.channels.mem
             && w.relay.channels.mem[code.channel].installation == code.installation
    requires Fresh(q.session, w.used)
    ensures Inv(env, World(OpenSession(env, w.relay, code.installation, q).0, w.accepted, w.used + {q.session}))
    ensures OpenSession(env, w.relay, code.installation, q).1 == if q.saves.second then Session(q.session, code.channel)
            else ServerError
  {
    hide C.Rotate, D.Upsert, Inv, Text.Trim, Fresh;
    KnownChannel(env, w, code.channel);
    RotateKeeps(env, w, code.channel, q.session, q.now, q.saves.second);
    var (channels, channel) := C.Rotate(env.persisted, w.relay.channels, C.Watch, code.installation, q.session, q.now,
        q.saves.second);
    var w2 := World(w.relay.(channels := channels), w.accepted, w.used + {q.session});
    assert Inv(env, w2);
    UpsertKeeps(env, w2, code.installation, q.watchID, q.pushToken, q.now, q.saves.third);
  }

  lemma ClaimPairingCodeKeeps(env: Env, w: World, q: Request)
    requires Inv(env, w) && q.ClaimPairingCode? && Fresh(q.session, w.used)
    ensures Inv(env, World(HandleClaimPairingCode(env, w.relay, q).0, w.accepted, w.used + {q.session}))
  {
    hide P.Claim, OpenSession, Inv, Text.Trim, Fresh;
    InvMore(env, w, w.used + {q.session});
    CodeClaimed(env, w, q.raw, q.pick, q.now, q.saves.first);
    var (pairings, claimed) := P.Claim(env.sha, env.persisted, w.relay.pairings, q.raw, q.pick, q.now, q.saves.first);
    var w1 := w.(relay := w.relay.(pairings := pairings));
    InvMore(env, w1, w.used + {q.session});
    if claimed.Claimed? { OpenSessionKeeps(env, w1, claimed.code, q); }
  }

  /** What an event request does once it is authenticated as a producer's. */
  lemma RecordEventKeeps(env: Env, w: World, channel: string, q: Request)
    requires Inv(env, w) && q.CreateEvent? && |q.pushes| == |q.order| && channel in w.relay.channels.mem
             && q.input.kind.Some?
    ensures var (r, reply) := RecordEvent(env, w.relay, channel, q);
            Inv(env, World(r, Accepting(w.accepted, reply), w.used))
  {
    hide Deliver, Inv, L.Append;
    var input := q.input.(channel := channel);
    AppendKeeps(env, w, input, q.now, q.saves.first);
    var (log, outcome) := L.Append(LogConfig(env), w.relay.log, input, q.now, q.saves.first);
    var w2 := World(w.relay.(log := log), if outcome.Appended? then w.accepted + [outcome.event]
        else w.accepted, w.used);
    assert Inv(env, w2);
    if outcome.Appended? { DeliverKeeps(env, w2, q.order, q.pushes); }
  }

  lemma CreateEventKeeps(env: Env, w: World, q: Request)
    requires Inv(env, w) && q.CreateEvent? && |q.pushes| == |q.order|
    ensures var (r, reply) := HandleCreateEvent(env, w.relay, q);
            Inv(env, World(r, Accepting(w.accepted, reply), w.used))
  {
    hide Resolve, Touched, RecordEvent, Inv;
    Authenticated(env, w, q.bearer, q.now, q.saves.touch);
    var auth := Resolve(w.relay, q.bearer);
    var w1 := w.(relay := Touched(env, w.relay, auth, q.now, q.saves.touch));
    if auth.ByProducer? && q.input.kind.Some? { RecordEventKeeps(env, w1, auth.channel, q); }
  }

  lemma RegisterDeviceKeeps(env: Env, w: World, q: Request)
    requires Inv(env, w) && q.RegisterDevice?
    ensures Inv(env, w.(relay := HandleRegisterDevice(env, w.relay, q).0))
  {
    hide Resolve, Touched, D.Upsert, Inv;
    Authenticated(env, w, q.bearer, q.now, q.saves.touch);
    var auth := Resolve(w.relay, q.bearer);
    var r1 := Touched(env, w.relay, auth, q.now, q.saves.touch);
    if auth.ByWatch? {
      UpsertKeeps(env, w.(relay := r1), auth.installation, q.watchID, q.pushToken, q.now, q.saves.first);
    }
  }

  lemma RemovedDevice(env: Env, k: Kept<D.Table>, installation: string, watchID: string, ok: bool)
    requires env.persisted && OnDisk(k)
    ensures var k' := D.Remove(env.persisted, k, installation, watchID, ok).0;
            OnDisk(k') && forall d <- k'.mem :: d in k.mem && k'.mem[d] == k.mem[d]
  {
  }

  lemma ForgetDeviceKeeps(env: Env, w: World, installation: string, watchID: string, ok: bool)
    requires Inv(env, w)
    ensures Inv(env, w.(relay := w.relay.(devices := D.Remove(env.persisted, w.relay.devices, installation, watchID,
            ok).0)))
  {
    hide D.Remove, L.Inv, Tables, Scopes, Drawn, PairingRef;
    RemovedDevice(env, w.relay.devices, installation, watchID, ok);
    DevicesChanged(env, w, D.Remove(env.persisted, w.relay.devices, installation, watchID, ok).0);
  }

  lemma DeleteDeviceKeeps(env: Env, w: World, q: Request)
    requires Inv(env, w) && q.DeleteDevice?
    ensures Inv(env, w.(relay := HandleDeleteDevice(env, w.relay, q).0))
  {
    hide Resolve, Touched, D.Remove, Inv, Text.Trim;
    Authenticated(env, w, q.bearer, q.now, q.saves.touch);
    var auth := Resolve(w.relay, q.bearer);
    var w1 := w.(relay := Touched(env, w.relay, auth, q.now, q.saves.touch));
    if auth.ByWatch? { ForgetDeviceKeeps(env, w1, auth.installation, q.watchID, q.saves.first); }
  }

  lemma TestNotificationKeeps(env: Env, w: World, q: Request)
    requires Inv(env, w) && q.TestNotification? && |q.pushes| == |q.order|
    ensures Inv(env, w.(relay := HandleTestNotification(env, w.relay, q).0))
  {
    hide Resolve, Touched, Deliver, Inv;
    Authenticated(env, w, q.bearer, q.now, q.saves.touch);
    var auth := Resolve(w.relay, q.bearer);
    var r1 := Touched(env, w.relay, auth, q.now, q.saves.touch);
    DeliverKeeps(env, w.(relay := r1), q.order, q.pushes);
  }

  lemma ReadEventsKeeps(env: Env, w: World, q: Request)
    requires Inv(env, w) && q.ReadEvents?
    ensures Inv(env, w.(relay := HandleReadEvents(env, w.relay, q).0))
  {
    hide Resolve, Touched, Inv, L.Since;
    Authenticated(env, w, q.bearer, q.now, q.saves.touch);
  }

  /** A restart changes nothing but, before the first event is saved, the id the log continues with. */
  lemma RestartKeeps(env: Env, w: World, now: Time)
    requires Inv(env, w)
    ensures Inv(env, w.(relay := HandleRestart(env, w.relay, now)))
    ensures HandleRestart(env, w.relay, now) == w.relay.(log := L.Reopen(LogConfig(env), w.relay.log, now))
    ensures w.accepted != [] ==> HandleRestart(env, w.relay, now) == w.relay
  {
    var h := L.History(w.relay.log, w.accepted);
    L.ReopenRestores(LogConfig(env), h, now);
    assert Restart(env.persisted, w.relay.installations) == w.relay.installations;
    assert Restart(env.persisted, w.relay.channels) == w.relay.channels;
    assert Restart(env.persisted, w.relay.pairings) == w.relay.pairings;
    assert Restart(env.persisted, w.relay.devices) == w.relay.devices;
    hide Tables, Scopes, Drawn, Restart;
    LogChanged(env, w, L.Reopen(LogConfig(env), w.relay.log, now), w.accepted);
  }

  /** Only an event request answers with an event. */
  lemma PlainReply(env: Env, r: Relay, used: set<string>, q: Request)
    requires Fits(env, r, used, q) && !q.CreateEvent?
    ensures !Handle(env, r, used, q).1.EventReply?
  {
    hide FreshDraws, Resolve, Touched, DeliveryOrder, P.CanPick, Identify, EnsureChannel, P.Create, P.Claim, C.Rotate,
         D.Upsert, D.Remove, Deliver, DeleteRecords, C.Remove, I.Remove, HandleRestart;
  }

  lemma DrawsAreFresh(q: Request, used: set<string>)
    requires FreshDraws(Draws(q), used)
    ensures match q
            case CreateInstallation(_, _, id, token, channel, producer, _, _) =>
              && Fresh(id, used) && Fresh(token, used) && Fresh(channel, used + {id, token})
                 && Fresh(producer, used + {id, token})
              && used + {id, token} + {channel, producer} == used + DrawnBy(q)
            case CreatePairingCode(_, _, channel, producer, _, code, _, _) =>
              && Fresh(channel, used) && Fresh(producer, used) && Fresh(code, used + {channel, producer})
              && used + {channel, producer} + {code} == used + DrawnBy(q)
            case ClaimPairingCode(_, _, _, _, _, session, _, _) => Fresh(session, used)
                && used + {session} == used + DrawnBy(q)
            case _ => used + DrawnBy(q) == used
  {
    var d := Draws(q);
    match q
    case CreateInstallation(_, _, id, token, channel, producer, _, _) =>
      assert d[0] == id && d[1] == token && d[2] == channel && d[3] == producer;
    case CreatePairingCode(_, _, channel, producer, _, code, _, _) =>
      assert d[0] == channel && d[1] == producer && d[2] == code;
    case ClaimPairingCode(_, _, _, _, _, session, _, _) =>
      assert d[0] == session;
    case _ =>
  }

  lemma RequestKeepsInv(env: Env, w: World, q: Request)
    requires Inv(env, w)
    ensures Inv(env, Next(env, w, q))
  {
    if Fits(env, w.relay, w.used, q) {
      DrawsAreFresh(q, w.used);
      if !q.CreateEvent? { PlainReply(env, w.relay, w.used, q); }
      hide Inv, Fresh, FreshDraws, DrawnBy, Draws, Resolve, DeliveryOrder, P.CanPick, HandleCreateInstallation,
           HandleDeleteInstallation, HandleCreatePairingCode, HandleClaimPairingCode, HandleCreateEvent,
           HandleRegisterDevice, HandleDeleteDevice, HandleTestNotification, HandleReadEvents, HandleRestart;
      match q
      case CreateInstallation(_, _, _, _, _, _, _, _) => CreateInstallationKeeps(env, w, q);
      case DeleteInstallation(_, _, _) => DeleteInstallationKeeps(env, w, q);
      case CreatePairingCode(_, _, _, _, _, _, _, _) => CreatePairingCodeKeeps(env, w, q);
      case ClaimPairingCode(_, _, _, _, _, _, _, _) => ClaimPairingCodeKeeps(env, w, q);
      case CreateEvent(_, _, _, _, _, _, _) => CreateEventKeeps(env, w, q);
      case RegisterDevice(_, _, _, _, _, _) => RegisterDeviceKeeps(env, w, q);
      case DeleteDevice(_, _, _, _) => DeleteDeviceKeeps(env, w, q);
      case TestNotification(_, _, _, _, _, _) => TestNotificationKeeps(env, w, q);
      case ReadEvents(_, _, _, _) => ReadEventsKeeps(env, w, q);
      case RestartProcess(now) => RestartKeeps(env, w, now);
    }
  }

  /** Referential integrity: on every run, with any save failing and restarts in between, each channel,
      pairing and device names an existing installation, each pairing its installation's current channel,
      each event an existing channel, and no token serves two scopes or two holders. */
  lemma {:induction false} ReferentialIntegrity(env: Env, now: Time, requests: seq<Request>)
    requires env.persisted && env.maxEvents > 0
    ensures Inv(env, Run(env, Start(now), requests))
  {
    if requests != [] {
      ReferentialIntegrity(env, now, requests[..|requests| - 1]);
      RequestKeepsInv(env, Run(env, Start(now), requests[..|requests| - 1]), requests[|requests| - 1]);
    }
  }

  /** In every reachable state an accepted code finds its channel: unless the second save fails, the claim
      answers with the drawn session, and that session now authenticates as the code's channel. */
  lemma ClaimOpensSession(env: Env, now: Time, requests: seq<Request>, q: Request)
    requires env.persisted && env.maxEvents > 0 && q.ClaimPairingCode? && q.allowed && Text.Trim(q.watchID) != ""
    requires var w := Run(env, Start(now), requests);
             Fits(env, w.relay, w.used, q)
             && P.Claim(env.sha, true, w.relay.pairings, q.raw, q.pick, q.now, q.saves.first).1.Claimed?
    ensures var w := Run(env, Start(now), requests);
            var code := P.Claim(env.sha, true, w.relay.pairings, q.raw, q.pick, q.now, q.saves.first).1.code;
            var (r', reply) := HandleClaimPairingCode(env, w.relay, q);
            && reply == (if q.saves.second then Session(q.session, code.channel) else ServerError)
            && (q.saves.second ==> Resolve(r', Some(q.session)) == ByWatch(code.channel, code.installation))
  {
    var w := Run(env, Start(now), requests);
    ReferentialIntegrity(env, now, requests);
    ClaimOpens(env, w, q);
  }

  lemma ClaimOpens(env: Env, w: World, q: Request)
    requires Inv(env, w) && q.ClaimPairingCode? && q.allowed && Text.Trim(q.watchID) != "" && Fresh(q.session, w.used)
    requires P.Claim(env.sha, true, w.relay.pairings, q.raw, q.pick, q.now, q.saves.first).1.Claimed?
    ensures var code := P.Claim(env.sha, true, w.relay.pairings, q.raw, q.pick, q.now, q.saves.first).1.code;
            var (r', reply) := HandleClaimPairingCode(env, w.relay, q);
            && reply == (if q.saves.second then Session(q.session, code.channel) else ServerError)
            && (q.saves.second ==> Resolve(r', Some(q.session)) == ByWatch(code.channel, code.installation))
  {
    hide P.Claim, OpenSession, Inv, Text.Trim, Fresh, Resolve;
    Persisted(env, w);
    var (pairings, claimed) := P.Claim(env.sha, env.persisted, w.relay.pairings, q.raw, q.pick, q.now, q.saves.first);
    var w1 := w.(relay := w.relay.(pairings := pairings));
    CodeClaimed(env, w, q.raw, q.pick, q.now, q.saves.first);
    OpenSessionKeeps(env, w1, claimed.code, q);
    if q.saves.second { SessionResolves(env, w1, claimed.code, q); }
  }

  lemma Persisted(env: Env, w: World)
    requires Inv(env, w)
    ensures env.persisted
  {
  }

  lemma SessionResolves(env: Env, w: World, code: P.Code, q: Request)
    requires Inv(env, w) && q.ClaimPairingCode? && q.saves.second && Fresh(q.session, w.used)
    requires code.installation in w.relay.installations.mem
    requires code.channel in w.relay.channels.mem
             && w.relay.channels.mem[code.channel].installation == code.installation
    ensures Resolve(OpenSession(env, w.relay, code.installation, q).0, Some(q.session))
            == ByWatch(code.channel, code.installation)
  {
    hide C.Rotate, D.Upsert, Inv, Text.Trim, Resolve;
    OpenSessionKeeps(env, w, code, q);
    KnownChannel(env, w, code.channel);
    RotateKeeps(env, w, code.channel, q.session, q.now, q.saves.second);
    RotatedChannel(env, w, code.channel, q.session, q.now);
    var w' := World(OpenSession(env, w.relay, code.installation, q).0, w.accepted, w.used + {q.session});
    WatchResolves(env, w', code.channel, q.session);
  }

  lemma RotatedChannel(env: Env, w: World, id: string, session: string, now: Time)
    requires Inv(env, w) && id in w.relay.channels.mem
    ensures C.Rotate(env.persisted, w.relay.channels, C.Watch, w.relay.channels.mem[id].installation, session, now,
            true).0.mem
            == w.relay.channels.mem[id := C.Rotated(w.relay.channels.mem[id], C.Watch, session, now)]
  {
    hide C.Lookup, L.Inv, Refs, Scopes, Drawn;
    Text.TrimFixpoint(w.relay.channels.mem[id].installation);
    C.LookupIs(w.relay.channels.mem, C.Installation, id);
    assert C.Keyed(w.relay.channels.mem);
  }

  /** A stored watch token resolves to its channel. */
  lemma WatchResolves(env: Env, w: World, id: string, session: string)
    requires Inv(env, w) && id in w.relay.channels.mem && w.relay.channels.mem[id].watch == session
    requires session != "" && Text.Trimmed(session)
    ensures Resolve(w.relay, Some(session)) == ByWatch(id, w.relay.channels.mem[id].installation)
  {
    hide I.Lookup, C.Lookup, Text.Trim, Refs, Disk, Drawn, L.Inv;
    KnownChannel(env, w, id);
    Text.TrimFixpoint(session);
    FoundByToken(w.relay.installations.mem, session);
    FoundChannel(w.relay.channels.mem, C.Producer, session);
    C.LookupIs(w.relay.channels.mem, C.Watch, id);
  }
}
