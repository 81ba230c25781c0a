/** Installations and their bearer tokens (internal/installations/store.go). */
module Installations {
  import opened Wrappers
  import opened Text
  import opened Snapshots

  datatype Installation = Installation(id: string, token: string, createdAt: Time, lastUsedAt: Time)

  type Table = map<string, Installation>

  function IdOf(i: Installation): string {
    i.id
  }

  /** A linear scan for the token. */
  ghost function Lookup(table: Table, token: string): Option<Installation> {
    if id :| id in table && table[id].token == token then Some(table[id]) else None
  }

  ghost function Create(persisted: bool, k: Kept<Table>, id: string, token: string, now: Time, saveOk: bool)
    : (Kept<Table>, Option<Installation>)
  {
    var installation := Installation(id, token, now, now);
    var (k', ok) := Commit(persisted, k, k.mem[id := installation], saveOk);
    (k', if ok then Some(installation) else None)
  }

  /** A failed touch is ignored by its caller. */
  ghost function Touch(persisted: bool, k: Kept<Table>, token: string, now: Time, saveOk: bool): (Kept<Table>, bool) {
    var found := Lookup(k.mem, Trim(token));
    if Trim(token) == "" || found.None? then (k, false)
    else Commit(persisted, k, k.mem[found.value.id := found.value.(lastUsedAt := now)], saveOk)
  }

  function Remove(persisted: bool, k: Kept<Table>, installationID: string, saveOk: bool): (Kept<Table>, bool) {
    if Trim(installationID) !in k.mem then (k, true)
    else Commit(persisted, k, k.mem - {Trim(installationID)}, saveOk)
  }

  function Load(installation: Installation): Option<Installation> {
    var i := installation.(id := Trim(installation.id), token := Trim(installation.token));
    if i.id == "" || i.token == "" then None else Some(i)
  }

  lemma LoadMeaning(record: Installation)
    ensures Load(record) == if Trim(record.id) == "" || Trim(record.token) == "" then None
                            else Some(Installation(Trim(record.id), Trim(record.token), record.createdAt,
                                                   record.lastUsedAt))
  {
    hide Trim;
  }

  predicate WellFormed(i: Installation) {
    i.id != "" && i.token != "" && Trimmed(i.id) && Trimmed(i.token)
  }

  lemma LoadKeepsWellFormed(i: Installation)
    ensures Load(i) == Some(i) <==> WellFormed(i)
  {
    TrimFixpoint(i.id);
    TrimFixpoint(i.token);
  }

  predicate Keyed(table: Table) {
    forall id <- table :: WellFormed(table[id]) && table[id].id == id
  }

  predicate Indexed(index: map<string, string>, table: Table) {
    && (forall t <- index :: index[t] in table && table[index[t]].token == t)
    && (forall id <- table :: table[id].token in index && index[table[id].token] == id)
  }

  predicate Distinct(table: Table) {
    forall p, q | p in table && q in table && p != q :: table[p].token != table[q].token
  }

  lemma IndexMeansScan(index: map<string, string>, table: Table, token: string)
    requires Indexed(index, table)
    ensures Distinct(table)
    ensures token in index ==> index[token] in table
    ensures Lookup(table, token) == if token in index then Some(table[index[token]]) else None
  {
  }

  lemma IndexUnique(i: map<string, string>, j: map<string, string>, table: Table)
    requires Indexed(i, table) && Indexed(j, table)
    ensures i == j
  {
    forall t ensures t in i <==> t in j {
      if t in i { assert table[i[t]].token == t; }
      if t in j { assert table[j[t]].token == t; }
    }
    forall t <- i ensures i[t] == j[t] { assert table[i[t]].token == t; }
  }

  function LoadedIndex(items: seq<Installation>): map<string, string> {
    if items == [] then map[]
    else
      var front, last := LoadedIndex(items[..|items| - 1]), Load(items[|items| - 1]);
      if last.None? then front else front[last.value.token := last.value.id]
  }

  lemma KeyedLoads(table: Table)
    requires Keyed(table)
    ensures Loadable(table, Load, IdOf)
  {
    forall id <- table ensures Load(table[id]) == Some(table[id]) { LoadKeepsWellFormed(table[id]); }
  }

  predicate Clean(items: seq<Installation>) {
    && (forall i <- items :: WellFormed(i))
    && (forall i, j | 0 <= i < j < |items| :: items[i].id != items[j].id && items[i].token != items[j].token)
  }

  /** A listing of the table is what a save may write. */
  lemma SnapshotClean(index: map<string, string>, table: Table, items: seq<Installation>)
    requires Keyed(table) && Indexed(index, table)
    requires forall i | 0 <= i < |items| :: items[i].id in table && items[i] == table[items[i].id]
    requires forall i, j | 0 <= i < j < |items| :: items[i].id != items[j].id
    ensures Clean(items)
  {
    hide WellFormed;
    assert forall i | 0 <= i < |items| :: index[items[i].token] == items[i].id;
  }

  lemma TouchAgrees(index: map<string, string>, table: Table, id: string, now: Time)
    requires Keyed(table) && Indexed(index, table) && id in table
    ensures var touched := table[id := table[id].(lastUsedAt := now)]; Keyed(touched) && Indexed(index, touched)
    ensures table[id].id == id
  {
  }

  lemma RemovalAgrees(index: map<string, string>, table: Table, id: string)
    requires Keyed(table) && Indexed(index, table) && id in table
    ensures Keyed(table - {id}) && Indexed(index - {table[id].token}, table - {id})
  {
  }

  lemma NoBlankID(table: Table)
    requires Keyed(table)
    ensures "" !in table
  {
  }

  lemma NewAgrees(index: map<string, string>, table: Table, i: Installation)
    requires Keyed(table) && Indexed(index, table) && WellFormed(i) && i.id !in table && i.token !in index
    ensures Keyed(table[i.id := i]) && Indexed(index[i.token := i.id], table[i.id := i])
  {
    hide WellFormed;
  }

  lemma EmptyIndexed()
    ensures Indexed(map[], map[])
  {
  }

  lemma IndexedPut(index: map<string, string>, table: Table, last: Installation)
    requires Indexed(index, table) && forall id <- table :: id != last.id && table[id].token != last.token
    ensures Indexed(index[last.token := last.id], table[last.id := last])
  {
  }

  /** The table and index read from a file that a save wrote agree. */
  lemma {:induction false} LoadedAgrees(items: seq<Installation>)
    requires Clean(items)
    ensures var table := Rebuild(items, Load, IdOf);
            Keyed(table) && (forall id <- table :: table[id] in items) && Indexed(LoadedIndex(items), table)
  {
    hide Load, WellFormed, Indexed;
    EmptyIndexed();
    if items != [] {
      var init, last := items[..|items| - 1], items[|items| - 1];
      LoadedAgrees(init);
      LoadKeepsWellFormed(last);
      var table := Rebuild(init, Load, IdOf);
      forall id <- table ensures id != last.id && table[id].token != last.token {
        var j :| 0 <= j < |init| && init[j] == table[id];
        assert items[j] == init[j];
      }
      IndexedPut(LoadedIndex(init), table, last);
    }
  }

  lemma EmptyClean()
    ensures Clean([])
  {
  }

  /** A touch moves the time of last use of the token's holder, and nothing else. */
  predicate TouchPromise(persisted: bool, k: Kept<Table>, token: string, now: Time, saveOk: bool, k': Kept<Table>,
                         ok: bool)
  {
    var known := exists id <- k.mem :: k.mem[id].token == Trim(token);
    && (ok <==> Trim(token) != "" && known && (persisted ==> saveOk))
    && k'.mem.Keys == k.mem.Keys
    && (forall id <- k.mem :: k'.mem[id] == if ok && k.mem[id].token == Trim(token)
                                            then k.mem[id].(lastUsedAt := now) else k.mem[id])
    && k'.saved == if ok && persisted then Some(k'.mem) else k.saved
  }

  lemma KeyedIDs(table: Table)
    requires Keyed(table)
    ensures forall id <- table :: table[id].id == id
  {
  }

  lemma TouchKeepsPromise(persisted: bool, k: Kept<Table>, token: string, now: Time, saveOk: bool)
    requires Distinct(k.mem) && forall id <- k.mem :: k.mem[id].id == id
    ensures var (k', ok) := Touch(persisted, k, token, now, saveOk);
            TouchPromise(persisted, k, token, now, saveOk, k', ok)
  {
    hide Trim;
  }

  class Store {
    const persisted: bool
    var byID: Table
    var byToken: map<string, string>
    var file: Option<seq<Installation>>

    predicate Valid()
      reads this
    {
      Keyed(byID) && Indexed(byToken, byID) && (file.Some? ==> Clean(file.value))
    }

    function State(): Kept<Table>
      reads this
    {
      Kept(byID, if file.None? then None else Some(Rebuild(file.value, Load, IdOf)))
    }

    constructor (persisted: bool)
      ensures Valid() && this.persisted == persisted && State() == Kept(map[], None)
    {
      this.persisted := persisted;
      byID, byToken, file := map[], map[], None;
    }

    method Persist(saveOk: bool) returns (ok: bool)
      requires Valid()
      modifies this`file
      ensures Valid() && ok == (!persisted || saveOk)
      ensures State() == Kept(byID, if persisted && saveOk then Some(byID) else old(State()).saved)
    {
      hide Keyed, Indexed, Clean, Load, WellFormed;
      if !persisted { return true; }
      if saveOk {
        KeyedLoads(byID);
        var items := Snapshot(byID, Load, IdOf);
        SnapshotClean(byToken, byID, items);
        file := Some(items);
      }
      return saveOk;
    }

    method CreateInstallation(id: string, token: string, now: Time, saveOk: bool)
        returns (created: Option<Installation>)
      requires Valid()
      requires id != "" && Trimmed(id) && id !in byID && token != "" && Trimmed(token) && token !in byToken
      modifies this
      ensures Valid()
      ensures (State(), created) == Create(persisted, old(State()), id, token, now, saveOk)
    {
      hide Clean, Rebuild, Keyed, Indexed;
      var p0, p1 := byID, byToken;
      var installation := Installation(id, token, now, now);
      NewAgrees(byToken, byID, installation);
      byID := byID[id := installation];
      byToken := byToken[token := id];
      var ok := Persist(saveOk);
      if !ok {
        byID, byToken := p0, p1;
        return None;
      }
      return Some(installation);
    }

    method GetByToken(token: string) returns (found: Option<Installation>)
      requires Valid()
      ensures found == Lookup(State().mem, Trim(token))
    {
      var value := Trim(token);
      IndexMeansScan(byToken, byID, value);
      return if value in byToken then Some(byID[byToken[value]]) else None;
    }

    method TouchToken(token: string, now: Time, saveOk: bool) returns (ok: bool)
      requires Valid()
      modifies this
      ensures Valid()
      ensures (State(), ok) == Touch(persisted, old(State()), token, now, saveOk)
      ensures TouchPromise(persisted, old(State()), token, now, saveOk, State(), ok)
    {
      hide Keyed, Indexed, Clean, Rebuild, WellFormed, Lookup, Distinct, Trim, TouchPromise;
      var value := Trim(token);
      IndexMeansScan(byToken, byID, value);
      KeyedIDs(byID);
      TouchKeepsPromise(persisted, State(), token, now, saveOk);
      if value == "" || value !in byToken { return false; }
      var id := byToken[value];
      var previous := byID;
      TouchAgrees(byToken, byID, id, now);
      byID := byID[id := byID[id].(lastUsedAt := now)];
      ok := Persist(saveOk);
      if !ok { byID := previous; }
    }

    method RemoveByID(installationID: string, saveOk: bool) returns (ok: bool)
      requires Valid()
      modifies this
      ensures Valid()
      ensures (State(), ok) == Remove(persisted, old(State()), installationID, saveOk)
    {
      hide Keyed, Indexed, Clean, Rebuild, WellFormed, Trim;
      var id := Trim(installationID);
      NoBlankID(byID);
      if id == "" { return true; }
      if id !in byID { return true; }
      var p0, p1 := byID, byToken;
      RemovalAgrees(byToken, byID, id);
      byToken := byToken - {byID[id].token};
      byID := byID - {id};
      ok := Persist(saveOk);
      if !ok { byID, byToken := p0, p1; }
    }

    /** One record of the file: it is normalised or skipped, and it overrides whatever it collides with. */
    method AddLoaded(record: Installation)
      modifies this`byID, this`byToken
      ensures match Load(record)
              case None => byID == old(byID) && byToken == old(byToken)
              case Some(i) => byID == old(byID)[i.id := i] && byToken == old(byToken)[i.token := i.id]
    {
      var installation := record.(id := Trim(record.id), token := Trim(record.token));
      if installation.id == "" || installation.token == "" { return; }
      byID := byID[installation.id := installation];
      byToken := byToken[installation.token := installation.id];
    }

    /** The records a restart reads. */
    function Records(): seq<Installation>
      reads this
    {
      if persisted && file.Some? then file.value else []
    }

    /** A process restart, whatever the file holds; once the store has saved, the token index comes back with
        the table. */
    method OpenStore()
      modifies this`byID, this`byToken
      ensures State() == Restart(persisted, old(State())) && byToken == LoadedIndex(Records())
      ensures old(Valid()) ==> Valid()
      ensures old(Valid()) && byID == old(byID) ==> byToken == old(byToken)
    {
      hide Load, Indexed, Keyed, Clean;
      byID, byToken := map[], map[];
      ghost var items := Records();
      if persisted && file.Some? {
        for i := 0 to |file.value|
          invariant file == old(file)
          invariant byID == Rebuild(items[..i], Load, IdOf) && byToken == LoadedIndex(items[..i])
        {
          assert items[..i + 1][..i] == items[..i];
          AddLoaded(file.value[i]);
        }
        assert items[..|items|] == items;
      }
      EmptyClean();
      if old(Valid()) { LoadedAgrees(items); }
      if old(Valid()) && byID == old(byID) { IndexUnique(byToken, old(byToken), byID); }
    }
  }
}
