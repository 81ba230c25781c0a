/**
  The relay's channels (internal/channels/store.go): five maps updated together by every call, rolled
  back on a failed save and rebuilt from the file on a restart.

  The meaning of a store is the map from channel id to channel; a lookup means a scan of that map.
 */
module Channels {
  import opened Wrappers
  import opened Text
  import opened Snapshots

  /** An absent session token is the empty string; `legacy` is only ever read from old files. */
  datatype Channel = Channel(id: string, installation: string, producer: string, legacy: string, phone: string,
                             watch: string, createdAt: Time, updatedAt: Time, pairedAt: Option<Time>)

  type Table = map<string, Channel>

  datatype Field = Installation | Producer | Phone | Watch

  datatype Error = IDRequired | NotRegistered | NotSaved

  function Get(c: Channel, f: Field): string {
    match f
    case Installation => c.installation
    case Producer => c.producer
    case Phone => c.phone
    case Watch => c.watch
  }

  function IdOf(c: Channel): string {
    c.id
  }

  // ---------------------------------------------------------------- the calls on a table

  /** A linear scan: some channel whose field holds the value. */
  ghost function Lookup(table: Table, f: Field, value: string): Option<Channel> {
    if value == "" then None
    else if id :| id in table && Get(table[id], f) == value then Some(table[id])
    else None
  }

  function NewChannel(installation: string, id: string, token: string, now: Time): Channel {
    Channel(id, installation, token, "", "", "", now, now, None)
  }

  ghost function Ensure(persisted: bool, k: Kept<Table>, installationID: string, id: string, token: string, now: Time,
                        saveOk: bool): (Kept<Table>, Result<Channel, Error>)
  {
    var installation := Trim(installationID);
    if installation == "" then (k, Err(IDRequired))
    else if Lookup(k.mem, Installation, installation).Some?
        then (k, Ok(Lookup(k.mem, Installation, installation).value))
    else
      var channel := NewChannel(installation, id, token, now);
      var (k', ok) := Commit(persisted, k, k.mem[id := channel], saveOk);
      (k', if ok then Ok(channel) else Err(NotSaved))
  }

  /** `kind` is Phone or Watch. */
  function Rotated(c: Channel, kind: Field, token: string, now: Time): Channel {
    var c' := c.(updatedAt := now, pairedAt := Some(now));
    if kind.Phone? then c'.(phone := token) else c'.(watch := token)
  }

  ghost function Rotate(persisted: bool, k: Kept<Table>, kind: Field, installationID: string, token: string, now: Time,
                        saveOk: bool): (Kept<Table>, Result<Channel, Error>)
  {
    var installation := Trim(installationID);
    var found := Lookup(k.mem, Installation, installation);
    if installation == "" then (k, Err(IDRequired))
    else if found.None? then (k, Err(NotRegistered))
    else
      var channel := Rotated(found.value, kind, token, now);
      var (k', ok) := Commit(persisted, k, k.mem[channel.id := channel], saveOk);
      (k', if ok then Ok(channel) else Err(NotSaved))
  }

  ghost function Remove(persisted: bool, k: Kept<Table>, installationID: string, saveOk: bool): (Kept<Table>, bool) {
    var found := Lookup(k.mem, Installation, Trim(installationID));
    if found.None? then (k, true) else Commit(persisted, k, k.mem - {found.value.id}, saveOk)
  }

  /** OpenStore's treatment of one record; creation times are always written. */
  function Load(channel: Channel): Option<Channel> {
    var legacy := Trim(channel.legacy);
    var c := channel.(id := Trim(channel.id), installation := Trim(channel.installation), legacy := "",
                      producer := if Trim(channel.producer) == "" then legacy else Trim(channel.producer),
                      phone := Trim(channel.phone), watch := Trim(channel.watch));
    if c.id == "" || c.installation == "" || c.producer == "" then None else Some(c)
  }

  /** A record needs an id, an installation and a producer token, which an old file has under its legacy name. */
  lemma LoadMeaning(record: Channel)
    ensures var producer := if Trim(record.producer) != "" then Trim(record.producer) else Trim(record.legacy);
            Load(record) ==
              if Trim(record.id) == "" || Trim(record.installation) == "" || producer == "" then None
              else Some(Channel(Trim(record.id), Trim(record.installation), producer, "", Trim(record.phone),
                                Trim(record.watch), record.createdAt, record.updatedAt, record.pairedAt))
  {
    hide Trim;
  }

  predicate WellFormed(c: Channel) {
    && c.id != "" && c.installation != "" && c.producer != "" && c.legacy == ""
    && Trimmed(c.id) && Trimmed(c.installation) && Trimmed(c.producer) && Trimmed(c.phone) && Trimmed(c.watch)
  }

  lemma LoadKeepsWellFormed(c: Channel)
    ensures Load(c) == Some(c) <==> WellFormed(c)
  {
    TrimFixpoint(c.id);
    TrimFixpoint(c.installation);
    TrimFixpoint(c.producer);
    TrimFixpoint(c.phone);
    TrimFixpoint(c.watch);
  }

  // ---------------------------------------------------------------- indexes

  predicate Indexed(index: map<string, string>, table: Table, f: Field) {
    && (forall v <- index :: v != "" && index[v] in table && Get(table[index[v]], f) == v)
    && (forall id <- table | Get(table[id], f) != "" :: Get(table[id], f) in index && index[Get(table[id], f)] == id)
  }

  predicate Keyed(table: Table) {
    forall id <- table :: WellFormed(table[id]) && table[id].id == id
  }

  /** No two channels share a non-empty value of the field. */
  predicate Distinct(table: Table, f: Field) {
    forall p, q | p in table && q in table && p != q && Get(table[p], f) != "" :: Get(table[p], f) != Get(table[q], f)
  }

  lemma IndexMeansScan(index: map<string, string>, table: Table, f: Field, value: string)
    requires Indexed(index, table, f)
    ensures Distinct(table, f)
    ensures value in index ==> index[value] in table && Get(table[index[value]], f) == value
    ensures Lookup(table, f, value) == if value in index then Some(table[index[value]]) else None
  {
  }

  lemma Located(byInstallation: map<string, string>, table: Table, installation: string)
    requires Keyed(table) && Indexed(byInstallation, table, Installation)
    ensures "" !in byInstallation
    ensures installation in byInstallation ==>
              byInstallation[installation] in table
                  && table[byInstallation[installation]].id == byInstallation[installation]
    ensures Lookup(table, Installation, installation)
            == if installation in byInstallation then Some(table[byInstallation[installation]]) else None
  {
    IndexMeansScan(byInstallation, table, Installation, installation);
  }

  /** An index is determined by the table, so a rebuilt one is the one that was lost. */
  lemma IndexUnique(i: map<string, string>, j: map<string, string>, table: Table, f: Field)
    requires Indexed(i, table, f) && Indexed(j, table, f)
    ensures i == j
  {
    forall v ensures v in i <==> v in j {
      if v in i { assert Get(table[i[v]], f) == v; }
      if v in j { assert Get(table[j[v]], f) == v; }
    }
    forall v <- i ensures i[v] == j[v] { assert Get(table[i[v]], f) == v; }
  }

  lemma EmptyIndexed()
    ensures Clean([]) && forall f: Field :: Indexed(map[], map[], f)
  {
  }

  lemma IndexAdd(index: map<string, string>, table: Table, f: Field, c: Channel)
    requires Indexed(index, table, f) && c.id !in table && (Get(c, f) == "" || Get(c, f) !in index)
    ensures Indexed(if Get(c, f) == "" then index else index[Get(c, f) := c.id], table[c.id := c], f)
  {
  }

  /** A new channel goes into the table and all four indexes. */
  lemma AddToIndexes(table: Table, byInstallation: map<string, string>, byProducer: map<string, string>,
                     byPhone: map<string, string>, byWatch: map<string, string>, c: Channel)
    requires Keyed(table) && WellFormed(c) && c.id !in table
    requires Indexed(byInstallation, table, Installation) && Indexed(byProducer, table, Producer)
    requires Indexed(byPhone, table, Phone) && Indexed(byWatch, table, Watch)
    requires c.installation !in byInstallation && c.producer !in byProducer
    requires (c.phone == "" || c.phone !in byPhone) && (c.watch == "" || c.watch !in byWatch)
    ensures Keyed(table[c.id := c])
    ensures Indexed(byInstallation[c.installation := c.id], table[c.id := c], Installation)
    ensures Indexed(byProducer[c.producer := c.id], table[c.id := c], Producer)
    ensures Indexed(if c.phone == "" then byPhone else byPhone[c.phone := c.id], table[c.id := c], Phone)
    ensures Indexed(if c.watch == "" then byWatch else byWatch[c.watch := c.id], table[c.id := c], Watch)
  {
    hide Indexed;
    IndexAdd(byInstallation, table, Installation, c);
    IndexAdd(byProducer, table, Producer, c);
    IndexAdd(byPhone, table, Phone, c);
    IndexAdd(byWatch, table, Watch, c);
  }

  lemma NewToIndex(index: map<string, string>, table: Table, f: Field, c: Channel)
    requires Indexed(index, table, f) && forall id <- table :: Apart(table[id], c)
    ensures Get(c, f) != "" ==> Get(c, f) !in index
  {
  }

  lemma IndexKeep(index: map<string, string>, table: Table, f: Field, c: Channel)
    requires Indexed(index, table, f) && c.id in table && Get(c, f) == Get(table[c.id], f)
    ensures Indexed(index, table[c.id := c], f)
  {
  }

  lemma IndexRotate(index: map<string, string>, table: Table, f: Field, c: Channel)
    requires Indexed(index, table, f) && c.id in table && Get(c, f) != "" && Get(c, f) !in index
    ensures var before := Get(table[c.id], f);
            Indexed((if before == "" then index else index - {before})[Get(c, f) := c.id], table[c.id := c], f)
  {
  }

  /** Replacing a channel by its rotation keeps the table and all four indexes sound. */
  lemma RotationIndexes(table: Table, byInstallation: map<string, string>, byProducer: map<string, string>,
                        byOther: map<string, string>, byKind: map<string, string>, kind: Field, id: string,
                            token: string, now: Time)
    requires Keyed(table) && id in table && token != "" && Trimmed(token) && token !in byKind
             && (kind.Phone? || kind.Watch?)
    requires Indexed(byInstallation, table, Installation) && Indexed(byProducer, table, Producer)
    requires Indexed(byOther, table, if kind.Phone? then Watch else Phone) && Indexed(byKind, table, kind)
    ensures var c := Rotated(table[id], kind, token, now);
            var before := Get(table[id], kind);
            && c.id == id && Keyed(table[id := c])
            && Indexed(byInstallation, table[id := c], Installation) && Indexed(byProducer, table[id := c], Producer)
            && Indexed(byOther, table[id := c], if kind.Phone? then Watch else Phone)
            && Indexed((if before == "" then byKind else byKind - {before})[token := id], table[id := c], kind)
  {
    hide Keyed, WellFormed, Indexed;
    var c := Rotated(table[id], kind, token, now);
    KeyedRotated(table, kind, id, token, now);
    IndexRotate(byKind, table, kind, c);
    IndexKeep(byInstallation, table, Installation, c);
    IndexKeep(byProducer, table, Producer, c);
    IndexKeep(byOther, table, if kind.Phone? then Watch else Phone, c);
  }

  lemma KeyedRotated(table: Table, kind: Field, id: string, token: string, now: Time)
    requires Keyed(table) && id in table && token != "" && Trimmed(token) && (kind.Phone? || kind.Watch?)
    ensures Rotated(table[id], kind, token, now).id == id && Keyed(table[id := Rotated(table[id], kind, token, now)])
  {
  }

  lemma IndexRemove(index: map<string, string>, table: Table, f: Field, id: string)
    requires Indexed(index, table, f) && id in table
    ensures var before := Get(table[id], f);
            Indexed(if before == "" then index else index - {before}, table - {id}, f)
  {
  }

  lemma KeyedRemove(table: Table, id: string)
    requires Keyed(table) && id in table
    ensures Keyed(table - {id}) && table[id].installation != "" && table[id].producer != ""
  {
  }

  /** Records that list each channel once with no value shared: what a save writes. */
  predicate Clean(items: seq<Channel>) {
    && (forall c <- items :: WellFormed(c))
    && (forall i, j | 0 <= i < j < |items| :: Apart(items[i], items[j]))
  }

  /** The index entry a loaded record makes. */
  function Put(index: map<string, string>, c: Channel, f: Field): map<string, string> {
    if Get(c, f) == "" then index else index[Get(c, f) := c.id]
  }

  function LoadedIndex(items: seq<Channel>, f: Field): map<string, string> {
    if items == [] then map[]
    else
      var front, last := LoadedIndex(items[..|items| - 1], f), Load(items[|items| - 1]);
      if last.None? then front else Put(front, last.value, f)
  }

  /** The table and indexes read from a file that a save wrote agree. */
  lemma {:induction false} LoadedAgrees(items: seq<Channel>)
    requires Clean(items)
    ensures var table := Rebuild(items, Load, IdOf);
            && Keyed(table) && (forall id <- table :: table[id] in items)
            && forall f: Field :: Indexed(LoadedIndex(items, f), table, f)
  {
    hide Indexed, Load, WellFormed;
    EmptyIndexed();
    if items != [] {
      var init, last := items[..|items| - 1], items[|items| - 1];
      LoadedAgrees(init);
      LoadKeepsWellFormed(last);
      var table := Rebuild(init, Load, IdOf);
      forall id <- table ensures Apart(table[id], last) {
        var j :| 0 <= j < |init| && init[j] == table[id];
        assert items[j] == init[j];
      }
      LoadedNext(init, last);
    }
  }

  lemma LoadedNext(init: seq<Channel>, last: Channel)
    requires var table := Rebuild(init, Load, IdOf);
             && Keyed(table) && (forall f: Field :: Indexed(LoadedIndex(init, f), table, f))
             && Load(last) == Some(last) && (forall id <- table :: Apart(table[id], last))
    ensures var table := Rebuild(init, Load, IdOf)[last.id := last];
            Keyed(table) && forall f: Field :: Indexed(Put(LoadedIndex(init, f), last, f), table, f)
  {
    hide Rebuild, LoadedIndex, Indexed, Load, WellFormed;
    var table := Rebuild(init, Load, IdOf);
    LoadKeepsWellFormed(last);
    assert last.id !in table;
    forall f: Field ensures Indexed(Put(LoadedIndex(init, f), last, f), table[last.id := last], f) {
      NewToIndex(LoadedIndex(init, f), table, f, last);
      IndexAdd(LoadedIndex(init, f), table, f, last);
    }
  }

  predicate Apart(c: Channel, d: Channel) {
    c.id != d.id && forall f: Field | Get(c, f) != "" :: Get(c, f) != Get(d, f)
  }

  lemma DistinctAdd(table: Table, f: Field, c: Channel)
    requires Distinct(table, f) && c.id !in table
    requires forall o <- table :: Get(c, f) == "" || Get(table[o], f) != Get(c, f)
    ensures Distinct(table[c.id := c], f)
  {
  }

  /** Scans are unambiguous: no second channel answers to the value. */
  lemma LookupIs(table: Table, f: Field, id: string)
    requires Distinct(table, f) && id in table && Get(table[id], f) != ""
    ensures Lookup(table, f, Get(table[id], f)) == Some(table[id])
  {
  }

  lemma LookupNone(table: Table, f: Field, value: string)
    requires forall id <- table :: Get(table[id], f) != value
    ensures Lookup(table, f, value) == None
  {
  }

  lemma RotationKeepsDistinct(table: Table, kind: Field, id: string, token: string, now: Time, f: Field)
    requires Distinct(table, f) && id in table && (kind.Phone? || kind.Watch?) && token != ""
    requires forall other <- table :: Get(table[other], kind) != token
    ensures Distinct(table[id := Rotated(table[id], kind, token, now)], f)
    ensures f != kind ==> Get(Rotated(table[id], kind, token, now), f) == Get(table[id], f)
    ensures Get(Rotated(table[id], kind, token, now), kind) == token
  {
  }

  /** Rotating a session revokes exactly the old token of its kind; the new one finds the channel, and
      every other lookup still leads to the channel it led to. */
  lemma RotationRevokes(table: Table, kind: Field, id: string, token: string, now: Time, f: Field, value: string)
    requires Distinct(table, f) && id in table && (kind.Phone? || kind.Watch?) && token != "" && value != ""
    requires forall other <- table :: Get(table[other], kind) != token
    ensures var rotated := Rotated(table[id], kind, token, now);
            var after := table[id := rotated];
            if f == kind then
              Lookup(after, f, value) == if value == token then Some(rotated)
                                         else if value == Get(table[id], kind) then None
                                         else Lookup(table, f, value)
            else
              Lookup(after, f, value) == if Lookup(table, f, value) == Some(table[id]) then Some(rotated)
                                         else Lookup(table, f, value)
  {
    var rotated := Rotated(table[id], kind, token, now);
    var after := table[id := rotated];
    RotationKeepsDistinct(table, kind, id, token, now, f);
    hide Rotated, Distinct, Lookup;
    if k :| k in after && Get(after[k], f) == value {
      LookupIs(after, f, k);
      if k != id {
        LookupIs(table, f, k);
        if f == kind && value == Get(table[id], kind) { LookupIs(table, f, id); }
      } else if f != kind {
        LookupIs(table, f, id);
      }
    } else {
      LookupNone(after, f, value);
      assert Get(after[id], f) != value && Get(rotated, f) != value;
      assert forall other <- table | other != id :: after[other] == table[other];
      if f != kind || value != Get(table[id], kind) { LookupNone(table, f, value); }
    }
  }

  // ---------------------------------------------------------------- the store

  class Store {
    const persisted: bool
    var byID: Table
    var byInstallation: map<string, string>
    var byProducerToken: map<string, string>
    var byPhoneToken: map<string, string>
    var byWatchToken: map<string, string>
    var file: Option<seq<Channel>>

    predicate Valid()
      reads this
    {
      && Keyed(byID)
      && Indexed(byInstallation, byID, Installation) && Indexed(byProducerToken, byID, Producer)
      && Indexed(byPhoneToken, byID, Phone) && Indexed(byWatchToken, byID, Watch)
      && (file.Some? ==> Clean(file.value))
    }

    function State(): Kept<Table>
      reads this
    {
      Kept(byID, if file.None? then None else Some(Rebuild(file.value, Load, IdOf)))
    }

    constructor (persisted: bool)
      ensures Valid() && this.persisted == persisted && State() == Kept(map[], None)
    {
      this.persisted := persisted;
      byID, byInstallation, byProducerToken, byPhoneToken, byWatchToken := map[], map[], map[], map[], map[];
      file := None;
    }

    method Persist(saveOk: bool) returns (ok: bool)
      requires Valid()
      modifies this`file
      ensures Valid() && ok == (!persisted || saveOk)
      ensures State() == Kept(byID, if persisted && saveOk then Some(byID) else old(State()).saved)
    {
      if !persisted { return true; }
      if saveOk {
        forall id <- byID ensures Load(byID[id]) == Some(byID[id]) { LoadKeepsWellFormed(byID[id]); }
        var items := Snapshot(byID, Load, IdOf);
        SnapshotClean(items);
        file := Some(items);
      }
      return saveOk;
    }

    lemma SnapshotClean(items: seq<Channel>)
      requires Valid()
      requires forall i | 0 <= i < |items| :: items[i].id in byID && items[i] == byID[items[i].id]
      requires forall i, j | 0 <= i < j < |items| :: items[i].id != items[j].id
      ensures Clean(items)
    {
      forall i, j | 0 <= i < j < |items| ensures Apart(items[i], items[j]) {
        var c, d := byID[items[i].id], byID[items[j].id];
        forall f: Field | Get(c, f) != "" ensures Get(c, f) != Get(d, f) {
          match f
          case Installation => assert byInstallation[c.installation] == c.id;
          case Producer => assert byProducerToken[c.producer] == c.id;
          case Phone => assert byPhoneToken[c.phone] == c.id;
          case Watch => assert byWatchToken[c.watch] == c.id;
        }
      }
    }

    method EnsureForInstallation(installationID: string, id: string, token: string, now: Time, saveOk: bool)
      returns (result: Result<Channel, Error>)
      requires Valid()
      requires id != "" && Trimmed(id) && id !in byID
      requires token != "" && Trimmed(token) && token !in byProducerToken
      modifies this
      ensures Valid()
      ensures (State(), result) == Ensure(persisted, old(State()), installationID, id, token, now, saveOk)
    {
      hide Indexed, Keyed, Clean, Rebuild, Lookup;
      var installation := Trim(installationID);
      if installation == "" { return Err(IDRequired); }
      TrimFixpoint(installationID);
      Located(byInstallation, byID, installation);
      if installation in byInstallation {
        return Ok(byID[byInstallation[installation]]);
      }
      var p0, p1, p2 := byID, byInstallation, byProducerToken;
      var channel := NewChannel(installation, id, token, now);
      AddToIndexes(byID, byInstallation, byProducerToken, byPhoneToken, byWatchToken, channel);
      byID := byID[channel.id := channel];
      byInstallation := byInstallation[channel.installation := channel.id];
      byProducerToken := byProducerToken[channel.producer := channel.id];
      var ok := Persist(saveOk);
      if !ok {
        byID, byInstallation, byProducerToken := p0, p1, p2;
        return Err(NotSaved);
      }
      return Ok(channel);
    }

    method RotatePhoneSession(installationID: string, token: string, now: Time, saveOk: bool)
      returns (result: Result<Channel, Error>)
      requires Valid() && token != "" && Trimmed(token) && token !in byPhoneToken
      modifies this
      ensures Valid()
      ensures (State(), result) == Rotate(persisted, old(State()), Phone, installationID, token, now, saveOk)
    {
      hide Indexed, Keyed, Clean, Rebuild, WellFormed, Lookup;
      var installation := Trim(installationID);
      if installation == "" { return Err(IDRequired); }
      IndexMeansScan(byInstallation, byID, Installation, installation);
      if installation !in byInstallation { return Err(NotRegistered); }
      var channel := byID[byInstallation[installation]];
      var p0, p1 := byID, byPhoneToken;
      RotationIndexes(byID, byInstallation, byProducerToken, byWatchToken, byPhoneToken, Phone,
          byInstallation[installation], token, now);
      if channel.phone != "" { byPhoneToken := byPhoneToken - {channel.phone}; }
      channel := channel.(phone := token, updatedAt := now, pairedAt := Some(now));
      byID := byID[channel.id := channel];
      byPhoneToken := byPhoneToken[channel.phone := channel.id];
      var ok := Persist(saveOk);
      if !ok {
        byID, byPhoneToken := p0, p1;
        return Err(NotSaved);
      }
      return Ok(channel);
    }

    method RotateWatchSession(installationID: string, token: string, now: Time, saveOk: bool)
      returns (result: Result<Channel, Error>)
      requires Valid() && token != "" && Trimmed(token) && token !in byWatchToken
      modifies this
      ensures Valid()
      ensures (State(), result) == Rotate(persisted, old(State()), Watch, installationID, token, now, saveOk)
    {
      hide Indexed, Keyed, Clean, Rebuild, WellFormed, Lookup;
      var installation := Trim(installationID);
      if installation == "" { return Err(IDRequired); }
      IndexMeansScan(byInstallation, byID, Installation, installation);
      if installation !in byInstallation { return Err(NotRegistered); }
      var channel := byID[byInstallation[installation]];
      var p0, p1 := byID, byWatchToken;
      RotationIndexes(byID, byInstallation, byProducerToken, byPhoneToken, byWatchToken, Watch,
          byInstallation[installation], token, now);
      if channel.watch != "" { byWatchToken := byWatchToken - {channel.watch}; }
      channel := channel.(watch := token, updatedAt := now, pairedAt := Some(now));
      byID := byID[channel.id := channel];
      byWatchToken := byWatchToken[channel.watch := channel.id];
      var ok := Persist(saveOk);
      if !ok {
        byID, byWatchToken := p0, p1;
        return Err(NotSaved);
      }
      return Ok(channel);
    }

    /** The key is the channel's own id, so the answer is the one channel that carries the trimmed id. */
    method GetByID(channelID: string) returns (found: Option<Channel>)
      requires Valid()
      ensures match found
              case Some(c) => c.id == Trim(channelID) && c in byID.Values && forall d <- byID.Values :: d.id == c.id ==>
                  d == c
              case None => forall d <- byID.Values :: d.id != Trim(channelID)
    {
      var id := Trim(channelID);
      return if id in byID then Some(byID[id]) else None;
    }

    method GetByInstallation(installationID: string) returns (found: Option<Channel>)
      requires Valid()
      ensures found == Lookup(State().mem, Installation, Trim(installationID))
    {
      var value := Trim(installationID);
      IndexMeansScan(byInstallation, byID, Installation, value);
      return if value in byInstallation then Some(byID[byInstallation[value]]) else None;
    }

    method GetByProducerToken(token: string) returns (found: Option<Channel>)
      requires Valid()
      ensures found == Lookup(State().mem, Producer, Trim(token))
    {
      var value := Trim(token);
      IndexMeansScan(byProducerToken, byID, Producer, value);
      return if value in byProducerToken then Some(byID[byProducerToken[value]]) else None;
    }

    method GetByPhoneToken(token: string) returns (found: Option<Channel>)
      requires Valid()
      ensures found == Lookup(State().mem, Phone, Trim(token))
    {
      var value := Trim(token);
      IndexMeansScan(byPhoneToken, byID, Phone, value);
      return if value in byPhoneToken then Some(byID[byPhoneToken[value]]) else None;
    }

    method GetByWatchToken(token: string) returns (found: Option<Channel>)
      requires Valid()
      ensures found == Lookup(State().mem, Watch, Trim(token))
    {
      var value := Trim(token);
      IndexMeansScan(byWatchToken, byID, Watch, value);
      return if value in byWatchToken then Some(byID[byWatchToken[value]]) else None;
    }

    method DeleteChannel(channel: Channel)
      requires Valid() && channel.id in byID && byID[channel.id] == channel
      modifies this`byID, this`byInstallation, this`byProducerToken, this`byPhoneToken, this`byWatchToken
      ensures Valid() && byID == old(byID) - {channel.id}
    {
      hide Indexed, Keyed, Clean, WellFormed;
      KeyedRemove(byID, channel.id);
      IndexRemove(byInstallation, byID, Installation, channel.id);
      IndexRemove(byProducerToken, byID, Producer, channel.id);
      IndexRemove(byPhoneToken, byID, Phone, channel.id);
      IndexRemove(byWatchToken, byID, Watch, channel.id);
      byID := byID - {channel.id};
      byInstallation := byInstallation - {channel.installation};
      byProducerToken := byProducerToken - {channel.producer};
      if channel.phone != "" { byPhoneToken := byPhoneToken - {channel.phone}; }
      if channel.watch != "" { byWatchToken := byWatchToken - {channel.watch}; }
    }

    method RemoveByInstallation(installationID: string, saveOk: bool) returns (ok: bool)
      requires Valid()
      modifies this
      ensures Valid()
      ensures (State(), ok) == Remove(persisted, old(State()), installationID, saveOk)
    {
      hide Indexed, Keyed, Clean, Rebuild, Lookup, WellFormed;
      var installation := Trim(installationID);
      Located(byInstallation, byID, installation);
      if installation == "" { return true; }
      if installation !in byInstallation { return true; }
      var channel := byID[byInstallation[installation]];
      var p0, p1, p2, p3, p4 := byID, byInstallation, byProducerToken, byPhoneToken, byWatchToken;
      DeleteChannel(channel);
      ok := Persist(saveOk);
      if !ok {
        byID, byInstallation, byProducerToken, byPhoneToken, byWatchToken := p0, p1, p2, p3, p4;
      }
    }

    /** One record of the file: it is normalised or skipped, and it overrides whatever it collides with. */
    method AddLoaded(record: Channel)
      modifies this`byID, this`byInstallation, this`byProducerToken, this`byPhoneToken, this`byWatchToken
      ensures match Load(record)
              case None =>
                && byID == old(byID) && byInstallation == old(byInstallation) && byProducerToken == old(byProducerToken)
                && byPhoneToken == old(byPhoneToken) && byWatchToken == old(byWatchToken)
              case Some(c) =>
                && byID == old(byID)[c.id := c] && byInstallation == Put(old(byInstallation), c, Installation)
                && byProducerToken == Put(old(byProducerToken), c, Producer)
                   && byPhoneToken == Put(old(byPhoneToken), c, Phone)
                && byWatchToken == Put(old(byWatchToken), c, Watch)
    {
      hide Trim;
      var channel := record.(id := Trim(record.id), installation := Trim(record.installation),
          legacy := Trim(record.legacy));
      channel := channel.(producer := Trim(channel.producer), phone := Trim(channel.phone),
          watch := Trim(channel.watch));
      if channel.producer == "" { channel := channel.(producer := channel.legacy); }
      channel := channel.(legacy := "");
      if channel.id == "" || channel.installation == "" || channel.producer == "" { return; }
      byID := byID[channel.id := channel];
      byInstallation := byInstallation[channel.installation := channel.id];
      byProducerToken := byProducerToken[channel.producer := channel.id];
      if channel.phone != "" { byPhoneToken := byPhoneToken[channel.phone := channel.id]; }
      if channel.watch != "" { byWatchToken := byWatchToken[channel.watch := channel.id]; }
    }

    /** The records a restart reads. */
    function Records(): seq<Channel>
      reads this
    {
      if persisted && file.Some? then file.value else []
    }

    /** A process restart, whatever the file holds. Once the store has saved, all five maps come back exactly. */
    method OpenStore()
      modifies this`byID, this`byInstallation, this`byProducerToken, this`byPhoneToken, this`byWatchToken
      ensures State() == Restart(persisted, old(State()))
      ensures byInstallation == LoadedIndex(Records(), Installation)
              && byProducerToken == LoadedIndex(Records(), Producer)
      ensures byPhoneToken == LoadedIndex(Records(), Phone) && byWatchToken == LoadedIndex(Records(), Watch)
      ensures old(Valid()) ==> Valid()
      ensures old(Valid()) && byID == old(byID) ==>
                && byInstallation == old(byInstallation) && byProducerToken == old(byProducerToken)
                && byPhoneToken == old(byPhoneToken) && byWatchToken == old(byWatchToken)
    {
      hide Load, Put, Indexed, Keyed, Clean;
      byID, byInstallation, byProducerToken, byPhoneToken, byWatchToken := map[], map[], map[], map[], map[];
      ghost var items := Records();
      if persisted && file.Some? {
        for i := 0 to |file.value|
          invariant file == old(file) && byID == Rebuild(items[..i], Load, IdOf)
          invariant byInstallation == LoadedIndex(items[..i], Installation)
                    && byProducerToken == LoadedIndex(items[..i], Producer)
          invariant byPhoneToken == LoadedIndex(items[..i], Phone) && byWatchToken == LoadedIndex(items[..i], Watch)
        {
          assert items[..i + 1][..i] == items[..i];
          AddLoaded(file.value[i]);
        }
        assert items[..|items|] == items;
      }
      EmptyIndexed();
      if old(Valid()) { LoadedAgrees(items); }
      if old(Valid()) && byID == old(byID) {
        IndexUnique(byInstallation, old(byInstallation), byID, Installation);
        IndexUnique(byProducerToken, old(byProducerToken), byID, Producer);
        IndexUnique(byPhoneToken, old(byPhoneToken), byID, Phone);
        IndexUnique(byWatchToken, old(byWatchToken), byID, Watch);
      }
    }
  }
}
