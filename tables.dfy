/**
 * A JavaScript `Map<string, T>` as the in-memory store uses it: keys in
 * insertion order, `set` appends a new key and overwrites an existing one
 * in place, `values()` lists the entries in key order.
 */
module Tables {
  import opened Wrappers

  /** Record identifiers; the store draws them from a counter. */
  type Id = nat

  datatype Table<T> = Table(keys: seq<Id>, rows: map<Id, T>) {

    /** Keys are distinct and are exactly the map's domain. */
    ghost predicate Valid() {
      && (forall i, j :: 0 <= i < j < |keys| ==> keys[i] != keys[j])
      && (forall k :: k in rows <==> k in keys)
    }

    /** `Array.from(map.values())`. */
    function Values(): (vs: seq<T>)
      requires Valid()
      ensures |vs| == |keys|
    {
      seq(|keys|, i requires 0 <= i < |keys| && keys[i] in rows => rows[keys[i]])
    }

    /** `map.get(id)`. */
    function Get(id: Id): (r: Option<T>)
      ensures r.Some? <==> id in rows
      ensures r.Some? ==> r.value == rows[id]
    {
      if id in rows then Some(rows[id]) else None
    }

    /** `map.set(id, v)`. */
    function Set(id: Id, v: T): (t: Table<T>)
      ensures t.rows == rows[id := v]
    {
      if id in rows then Table(keys, rows[id := v]) else Table(keys + [id], rows[id := v])
    }

    /** The position of a present key. */
    function IndexOf(id: Id): (i: nat)
      requires Valid() && id in rows
      ensures i < |keys| && keys[i] == id
    {
      Position(keys, id)
    }
  }

  function Position(ks: seq<Id>, id: Id): (i: nat)
    requires id in ks
    ensures i < |ks| && ks[i] == id
  {
    if ks[0] == id then 0 else 1 + Position(ks[1..], id)
  }

  function Empty<T>(): (t: Table<T>)
    ensures t.Valid() && t.Values() == []
  {
    Table([], map[])
  }

  /** Setting a key that is not present appends exactly one value at the end. */
  lemma SetNew<T>(t: Table<T>, id: Id, v: T)
    requires t.Valid() && id !in t.rows
    ensures t.Set(id, v).Valid()
    ensures t.Set(id, v).Values() == t.Values() + [v]
    ensures t.Set(id, v).Get(id) == Some(v)
    ensures forall k :: k != id ==> t.Set(id, v).Get(k) == t.Get(k)
  {
    var u := t.Set(id, v);
    assert u.keys == t.keys + [id];
    forall i | 0 <= i < |u.keys| ensures u.Values()[i] == (t.Values() + [v])[i] {
      if i < |t.keys| {
        assert u.keys[i] == t.keys[i] != id;
      }
    }
  }

  /**
   * Setting a present key keeps every key in its position and replaces
   * exactly the one value stored under it.
   */
  lemma SetExisting<T>(t: Table<T>, id: Id, v: T)
    requires t.Valid() && id in t.rows
    ensures t.Set(id, v).Valid()
    ensures t.Set(id, v).keys == t.keys
    ensures t.Set(id, v).Values() == t.Values()[t.IndexOf(id) := v]
    ensures t.Set(id, v).Get(id) == Some(v)
    ensures forall k :: k != id ==> t.Set(id, v).Get(k) == t.Get(k)
  {
    var u := t.Set(id, v);
    var p := t.IndexOf(id);
    forall i | 0 <= i < |u.keys| ensures u.Values()[i] == t.Values()[p := v][i] {
      if i != p {
        assert t.keys[i] != t.keys[p];
      }
    }
  }
}
