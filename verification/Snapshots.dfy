/**
  Saving and loading shared by the relay's keyed stores: a store's records are listed into a file in
  map-iteration order and read back one by one.
 */
module Snapshots {
  import opened Wrappers

  /** Memory and what the state file would load as; None while no file exists. */
  datatype Kept<M> = Kept(mem: M, saved: Option<M>)

  /** A save makes the file equal to memory, or fails and the call is rolled back. */
  function Commit<M>(persisted: bool, kept: Kept<M>, next: M, saveOk: bool): (Kept<M>, bool) {
    if !persisted then (Kept(next, kept.saved), true)
    else if saveOk then (Kept(next, Some(next)), true)
    else (kept, false)
  }

  /** A restart: only the file survives. */
  function Restart<V>(persisted: bool, kept: Kept<map<string, V>>): Kept<map<string, V>> {
    if persisted && kept.saved.Some? then Kept(kept.saved.value, kept.saved) else Kept(map[], kept.saved)
  }

  /** Reading a file: each record is normalised or skipped, and a later record wins its key. */
  function Rebuild<V>(items: seq<V>, load: V -> Option<V>, key: V -> string): map<string, V> {
    if items == [] then map[]
    else
      var front, last := Rebuild(items[..|items| - 1], load, key), load(items[|items| - 1]);
      if last.None? then front else front[key(last.value) := last.value]
  }

  /** The records a load keeps as they are, each under its own key. */
  predicate Loadable<V(==)>(m: map<string, V>, load: V -> Option<V>, key: V -> string) {
    forall k <- m :: load(m[k]) == Some(m[k]) && key(m[k]) == k
  }

  /** Lists the records in whatever order the map yields them. */
  method Snapshot<V>(m: map<string, V>, ghost load: V -> Option<V>, ghost key: V -> string) returns (items: seq<V>)
    requires Loadable(m, load, key)
    ensures Rebuild(items, load, key) == m
    ensures forall i | 0 <= i < |items| :: key(items[i]) in m && items[i] == m[key(items[i])]
    ensures forall i, j | 0 <= i < j < |items| :: key(items[i]) != key(items[j])
  {
    items := [];
    var rest := m.Keys;
    while rest != {}
      invariant rest <= m.Keys
      invariant forall i | 0 <= i < |items| :: key(items[i]) in m.Keys - rest && items[i] == m[key(items[i])]
      invariant forall i, j | 0 <= i < j < |items| :: key(items[i]) != key(items[j])
      invariant Rebuild(items, load, key) == map k | k in m.Keys - rest :: m[k]
    {
      var k :| k in rest;
      rest := rest - {k};
      ghost var before := items;
      items := items + [m[k]];
      assert items[..|items| - 1] == before;
    }
  }

  function Select<V>(m: map<string, V>, doomed: V -> bool): map<string, V> {
    map k | k in m && !doomed(m[k]) :: m[k]
  }

  /** Deletes records while ranging over the map. */
  method DeleteWhere<V>(m: map<string, V>, doomed: V -> bool) returns (left: map<string, V>, removed: bool)
    ensures left == Select(m, doomed)
    ensures removed <==> left != m
  {
    left, removed := m, false;
    var rest := m.Keys;
    while rest != {}
      invariant rest <= m.Keys
      invariant left == map k | k in m && (k in rest || !doomed(m[k])) :: m[k]
      invariant removed <==> exists k | k in m.Keys - rest :: doomed(m[k])
    {
      var k :| k in rest;
      rest := rest - {k};
      if doomed(m[k]) { left, removed := left - {k}, true; }
    }
    if removed {
      ghost var k :| k in m && doomed(m[k]);
      assert k !in left;
    }
  }
}
