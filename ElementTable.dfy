/** A JavaScript object used as a table keyed by element name, as both wizard
    screens keep their elements: `Object.keys` lists the names in insertion
    order, assigning to an existing name replaces its entry where it stands,
    assigning to a new name adds it last, and `delete` removes one name. */
module ElementTable {

  ghost predicate NoDuplicates(s: seq<string>) {
    forall i, j :: 0 <= i < j < |s| ==> s[i] != s[j]
  }

  datatype Table<V> = Table(keys: seq<string>, entries: map<string, V>) {
    /** Every name is listed once, and the listed names are exactly those with an entry. */
    ghost predicate Valid() {
      && NoDuplicates(keys)
      && (forall k :: k in entries <==> k in keys)
    }
  }

  function Empty<V>(): (t: Table<V>)
    ensures t.Valid() && t.keys == [] && t.entries == map[]
  {
    Table([], map[])
  }

  /** `table[k] = v`: afterwards `k` maps to `v`, every other name keeps its
      entry, an existing `k` keeps its place and a new `k` is listed last. */
  function Put<V>(t: Table<V>, k: string, v: V): (r: Table<V>)
    requires t.Valid()
    ensures r.Valid()
    ensures k in r.entries && r.entries[k] == v
    ensures forall x :: x != k ==> (x in r.entries <==> x in t.entries)
    ensures forall x :: x != k && x in t.entries ==> r.entries[x] == t.entries[x]
    ensures k in t.entries ==> r.keys == t.keys
    ensures k !in t.entries ==> r.keys == t.keys + [k]
  {
    if k in t.entries then Table(t.keys, t.entries[k := v])
    else Table(t.keys + [k], t.entries[k := v])
  }

  /** The names of `keys` other than `k`, in their order. */
  function RemoveKey(keys: seq<string>, k: string): (r: seq<string>)
    ensures forall x :: x in r <==> x in keys && x != k
    ensures NoDuplicates(keys) ==> NoDuplicates(r)
    ensures k !in keys ==> r == keys
  {
    if keys == [] then []
    else
      var rest := RemoveKey(keys[1..], k);
      if keys[0] == k then rest
      else
        assert NoDuplicates(keys) ==> keys[0] !in keys[1..];
        [keys[0]] + rest
  }

  /** Removing a name listed once at position `i` closes the gap at `i`. */
  lemma {:induction false} RemoveKeyAt(keys: seq<string>, k: string, i: nat)
    requires NoDuplicates(keys) && i < |keys| && keys[i] == k
    ensures RemoveKey(keys, k) == keys[..i] + keys[i + 1..]
  {
    if i == 0 {
      assert k !in keys[1..];
    } else {
      RemoveKeyAt(keys[1..], k, i - 1);
      assert keys[1..][..i - 1] + keys[1..][i..] == (keys[..i] + keys[i + 1..])[1..];
    }
  }

  /** `delete table[k]`: exactly `k` is gone, every other name keeps its
      entry and its relative order; an absent `k` changes nothing. */
  function Delete<V>(t: Table<V>, k: string): (r: Table<V>)
    requires t.Valid()
    ensures r.Valid()
    ensures k !in r.entries
    ensures forall x :: x != k ==> (x in r.entries <==> x in t.entries)
    ensures forall x :: x != k && x in t.entries ==> r.entries[x] == t.entries[x]
    ensures k !in t.entries ==> r == t
    ensures k in t.entries ==> |r.keys| == |t.keys| - 1
  {
    RemoveKeyLength(t, k);
    Table(RemoveKey(t.keys, k), t.entries - {k})
  }

  lemma RemoveKeyLength<V>(t: Table<V>, k: string)
    requires t.Valid()
    ensures k in t.entries ==> |RemoveKey(t.keys, k)| == |t.keys| - 1
    ensures k !in t.entries ==> t.entries - {k} == t.entries
  {
    if k in t.entries {
      var i :| 0 <= i < |t.keys| && t.keys[i] == k;
      RemoveKeyAt(t.keys, k, i);
    }
  }

  /** Adding a new name and deleting it again gives back the table. */
  lemma PutThenDelete<V>(t: Table<V>, k: string, v: V)
    requires t.Valid() && k !in t.entries
    ensures Delete(Put(t, k, v), k) == t
  {
    var p := Put(t, k, v);
    RemoveKeyAt(p.keys, k, |t.keys|);
    assert p.keys[..|t.keys|] == t.keys;
    assert p.entries - {k} == t.entries;
  }

  /** The last assignment to a name wins. */
  lemma PutTwice<V>(t: Table<V>, k: string, v: V, w: V)
    requires t.Valid()
    ensures Put(Put(t, k, v), k, w) == Put(t, k, w)
  {
    assert t.entries[k := v][k := w] == t.entries[k := w];
  }
}
