/**
 * A JavaScript `Map<number, V>`: a finite map that also remembers the order
 * in which its keys were first set, which is the order `values()` yields.
 * Integer keys stand for the JavaScript numbers used as ids.
 */
module OrderedMaps {
  import opened Wrappers

  datatype OrderedMap<V> = OrderedMap(keys: seq<int>, entries: map<int, V>) {

    /** The keys in insertion order are exactly the map's keys, each once. */
    ghost predicate Valid() {
      && (forall i, j :: 0 <= i < j < |keys| ==> keys[i] != keys[j])
      && (forall k :: k in entries <==> k in keys)
    }

    /** `m.get(k)`: the entry under `k`, or undefined. */
    function Get(k: int): (r: Option<V>)
      ensures r.None? <==> k !in entries
      ensures r.Some? ==> r.value == entries[k]
    {
      if k in entries then Some(entries[k]) else None
    }

    /** `m.set(k, v)`: a new key goes to the end of the order, an existing key keeps its place. */
    function Set(k: int, v: V): (r: OrderedMap<V>)
      ensures r.entries == entries[k := v]
      ensures k in keys ==> r.keys == keys
      ensures k !in keys ==> r.keys == keys + [k]
    {
      OrderedMap(if k in keys then keys else keys + [k], entries[k := v])
    }

    /** `Array.from(m.values())`: the entries in insertion order. */
    function Values(): seq<V> {
      ValuesOf(keys, entries)
    }
  }

  /** The empty `new Map()`. */
  function Empty<V>(): (m: OrderedMap<V>)
    ensures m.Valid() && m.keys == [] && m.entries == map[]
  {
    OrderedMap([], map[])
  }

  /** The entries listed under `ks`, in that order (keys missing from `m` are skipped). */
  function ValuesOf<V>(ks: seq<int>, m: map<int, V>): (r: seq<V>)
    ensures (forall i :: 0 <= i < |ks| ==> ks[i] in m) ==>
      |r| == |ks| && forall i :: 0 <= i < |ks| ==> r[i] == m[ks[i]]
  {
    if ks == [] then []
    else (if ks[0] in m then [m[ks[0]]] else []) + ValuesOf(ks[1..], m)
  }

  /** Listing is unaffected by entries whose keys are not listed. */
  lemma {:induction false} ValuesOfOtherKey<V>(ks: seq<int>, m: map<int, V>, k: int, v: V)
    requires k !in ks
    ensures ValuesOf(ks, m[k := v]) == ValuesOf(ks, m)
  {
    if ks != [] {
      ValuesOfOtherKey(ks[1..], m, k, v);
    }
  }

  /** Listing keys one after another lists their entries one after another. */
  lemma {:induction false} ValuesOfAppend<V>(ks: seq<int>, k: int, m: map<int, V>)
    ensures ValuesOf(ks + [k], m) == ValuesOf(ks, m) + (if k in m then [m[k]] else [])
  {
    if ks == [] {
      assert [k][1..] == [];
    } else {
      var head := if ks[0] in m then [m[ks[0]]] else [];
      var tail := if k in m then [m[k]] else [];
      assert (ks + [k])[0] == ks[0] && (ks + [k])[1..] == ks[1..] + [k];
      assert ValuesOf(ks + [k], m) == head + ValuesOf(ks[1..] + [k], m);
      ValuesOfAppend(ks[1..], k, m);
      assert head + (ValuesOf(ks[1..], m) + tail) == (head + ValuesOf(ks[1..], m)) + tail;
    }
  }

  /**
   * The invariant of an auto-increment table: ids are positive, below the
   * next id to be handed out, inserted in increasing order, and every row
   * carries its own key as its id.
   */
  ghost predicate TableOk<V>(t: OrderedMap<V>, idOf: V -> int, next: int) {
    && t.Valid()
    && next >= 1
    && (forall i :: 0 <= i < |t.keys| ==> 1 <= t.keys[i] < next)
    && (forall i, j :: 0 <= i < j < |t.keys| ==> t.keys[i] < t.keys[j])
    && (forall k :: k in t.entries ==> idOf(t.entries[k]) == k)
  }

  /**
   * Storing a row under the next id of a table: the id was never used,
   * the invariant holds with the counter one higher, the row can be read
   * back under its id, every other key reads as before, and the listing
   * gains the row at its end.
   */
  lemma TableInsert<V>(t: OrderedMap<V>, idOf: V -> int, next: int, row: V)
    requires TableOk(t, idOf, next)
    requires idOf(row) == next
    ensures next !in t.entries && next !in t.keys
    ensures TableOk(t.Set(next, row), idOf, next + 1)
    ensures t.Set(next, row).Get(next) == Some(row)
    ensures forall k :: k != next ==> t.Set(next, row).Get(k) == t.Get(k)
    ensures t.Set(next, row).Values() == t.Values() + [row]
  {
    TableInsertOk(t, idOf, next, row);
    TableInsertValues(t, idOf, next, row);
  }

  /** The invariant part of TableInsert. */
  lemma TableInsertOk<V>(t: OrderedMap<V>, idOf: V -> int, next: int, row: V)
    requires TableOk(t, idOf, next)
    requires idOf(row) == next
    ensures next !in t.entries && next !in t.keys
    ensures TableOk(t.Set(next, row), idOf, next + 1)
  {
    assert next !in t.keys;
    var u := t.Set(next, row);
    assert u.keys == t.keys + [next];
    assert forall i :: 0 <= i < |t.keys| ==> u.keys[i] == t.keys[i];
  }

  /** The listing part of TableInsert. */
  lemma TableInsertValues<V>(t: OrderedMap<V>, idOf: V -> int, next: int, row: V)
    requires TableOk(t, idOf, next)
    ensures t.Set(next, row).Values() == t.Values() + [row]
  {
    assert next !in t.keys;
    var u := t.Set(next, row);
    assert u.keys == t.keys + [next];
    ValuesOfAppend(t.keys, next, u.entries);
    ValuesOfOtherKey(t.keys, t.entries, next, row);
  }

  /**
   * What a listing of a table holds: one row per stored entry, exactly the
   * stored rows, each row once, in strictly increasing id order.
   */
  lemma TableValues<V>(t: OrderedMap<V>, idOf: V -> int, next: int)
    requires TableOk(t, idOf, next)
    ensures |t.Values()| == |t.entries|
    ensures forall i :: 0 <= i < |t.Values()| ==>
      idOf(t.Values()[i]) in t.entries && t.entries[idOf(t.Values()[i])] == t.Values()[i]
    ensures forall k :: k in t.entries ==> t.entries[k] in t.Values()
    ensures forall i, j :: 0 <= i < j < |t.Values()| ==> idOf(t.Values()[i]) < idOf(t.Values()[j])
  {
    var vs := t.Values();
    assert |vs| == |t.keys|;
    assert forall i :: 0 <= i < |vs| ==> idOf(vs[i]) == t.keys[i] by {
      forall i | 0 <= i < |vs| ensures idOf(vs[i]) == t.keys[i] {
        assert vs[i] == t.entries[t.keys[i]];
      }
    }
    DistinctKeysCount(t.keys, t.entries);
    forall k | k in t.entries ensures t.entries[k] in vs {
      var i :| 0 <= i < |t.keys| && t.keys[i] == k;
      assert vs[i] == t.entries[k];
    }
  }

  /** Position `i` of a listing holds the row stored under that row's own id. */
  lemma TableAt<V>(t: OrderedMap<V>, idOf: V -> int, next: int, i: int)
    requires TableOk(t, idOf, next) && 0 <= i < |t.Values()|
    ensures idOf(t.Values()[i]) == t.keys[i]
    ensures idOf(t.Values()[i]) in t.entries && t.entries[idOf(t.Values()[i])] == t.Values()[i]
  {
    assert t.Values()[i] == t.entries[t.keys[i]];
  }

  /** A listing's ids increase with the position. */
  lemma TableOrdered<V>(t: OrderedMap<V>, idOf: V -> int, next: int, i: int, j: int)
    requires TableOk(t, idOf, next) && 0 <= i < |t.Values()| && 0 <= j < |t.Values()|
    requires idOf(t.Values()[i]) < idOf(t.Values()[j])
    ensures i < j
  {
    TableAt(t, idOf, next, i);
    TableAt(t, idOf, next, j);
  }

  /** A duplicate-free listing of a map's keys is as long as the map. */
  lemma DistinctKeysCount<V>(ks: seq<int>, m: map<int, V>)
    requires forall i, j :: 0 <= i < j < |ks| ==> ks[i] != ks[j]
    requires forall k :: k in m <==> k in ks
    ensures |m| == |ks|
  {
    KeysSetSize(ks);
    var ksSet := set k | k in ks;
    assert forall k :: k in m.Keys <==> k in ksSet;
    assert m.Keys == ksSet;
  }

  lemma {:induction false} KeysSetSize(ks: seq<int>)
    requires forall i, j :: 0 <= i < j < |ks| ==> ks[i] != ks[j]
    ensures |set k | k in ks| == |ks|
  {
    if ks != [] {
      KeysSetSize(ks[1..]);
      assert (set k | k in ks) == {ks[0]} + (set k | k in ks[1..]);
      assert ks[0] !in ks[1..];
    }
  }
}
