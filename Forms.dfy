/** A `FormData` object: an ordered list of name/value entries, where `get`
    answers the first value under a name (or null), `delete` removes every
    entry under a name, and `set` overwrites the first entry under a name in
    place and drops the others, or appends when there is none. */
module Forms {
  import opened Options

  datatype Entry = Entry(name: string, value: string)

  /** `formData.get(name)`: the first value under `name`, or null. */
  function Lookup(es: seq<Entry>, name: string): (r: Option<string>)
    ensures r.None? <==> forall e :: e in es ==> e.name != name
    ensures r.Some? ==> Entry(name, r.value) in es
  {
    if es == [] then None
    else if es[0].name == name then Some(es[0].value)
    else Lookup(es[1..], name)
  }

  /** `get` answers the value of the first entry under the name, whatever
      the later entries under it hold. */
  lemma {:induction false} LookupIsFirst(es: seq<Entry>, name: string, i: int)
    requires 0 <= i < |es| && es[i].name == name
    requires forall j :: 0 <= j < i ==> es[j].name != name
    ensures Lookup(es, name) == Some(es[i].value)
    decreases i
  {
    if i > 0 {
      assert es[0].name != name;
      LookupIsFirst(es[1..], name, i - 1);
    }
  }

  /** `formData.delete(name)`: the entries under other names, in their order. */
  function Without(es: seq<Entry>, name: string): (r: seq<Entry>)
    ensures forall e :: e in r <==> e in es && e.name != name
  {
    if es == [] then []
    else if es[0].name == name then Without(es[1..], name)
    else [es[0]] + Without(es[1..], name)
  }

  /** Deleting a name twice is deleting it once. */
  lemma {:induction false} WithoutTwice(es: seq<Entry>, name: string)
    ensures Without(Without(es, name), name) == Without(es, name)
    decreases |es|
  {
    if es != [] {
      WithoutTwice(es[1..], name);
      if es[0].name != name {
        assert ([es[0]] + Without(es[1..], name))[1..] == Without(es[1..], name);
      }
    }
  }

  /** `formData.set(name, value)`: the first entry under `name` takes the
      value where it stands and the later ones go; with none, it is appended.
      The entries under other names stay, in their order. */
  function SetEntry(es: seq<Entry>, name: string, value: string): (r: seq<Entry>)
    ensures Entry(name, value) in r
    ensures Without(r, name) == Without(es, name)
    decreases |es|
  {
    if es == [] then [Entry(name, value)]
    else if es[0].name == name then
      var r := [Entry(name, value)] + Without(es[1..], name);
      assert r[1..] == Without(es[1..], name);
      WithoutTwice(es[1..], name);
      r
    else
      var tail := SetEntry(es[1..], name, value);
      var r := [es[0]] + tail;
      assert r[1..] == tail;
      r
  }

  /** After `set(name, value)` exactly one entry carries `name`. */
  lemma {:induction false} SetEntryNamesOnce(es: seq<Entry>, name: string, value: string)
    ensures forall i, j :: 0 <= i < j < |SetEntry(es, name, value)| ==>
              SetEntry(es, name, value)[i].name != name || SetEntry(es, name, value)[j].name != name
    decreases |es|
  {
    var r := SetEntry(es, name, value);
    if es != [] && es[0].name != name {
      SetEntryNamesOnce(es[1..], name, value);
      assert r[1..] == SetEntry(es[1..], name, value);
    } else if es != [] {
      assert r[1..] == Without(es[1..], name);
      assert forall k :: 1 <= k < |r| ==> r[k] in Without(es[1..], name);
    }
  }

  /** After `delete(name)` nothing is found under `name`, and every other
      name answers what it answered before. */
  lemma {:induction false} LookupWithout(es: seq<Entry>, name: string, other: string)
    ensures Lookup(Without(es, name), name) == None
    ensures other != name ==> Lookup(Without(es, name), other) == Lookup(es, other)
    decreases |es|
  {
    if es != [] {
      LookupWithout(es[1..], name, other);
      if es[0].name != name {
        assert ([es[0]] + Without(es[1..], name))[1..] == Without(es[1..], name);
      }
    }
  }

  /** After `set(name, value)` the value under `name` is `value`, and every
      other name answers what it answered before. */
  lemma {:induction false} LookupSetEntry(es: seq<Entry>, name: string, value: string, other: string)
    ensures Lookup(SetEntry(es, name, value), name) == Some(value)
    ensures other != name ==> Lookup(SetEntry(es, name, value), other) == Lookup(es, other)
    decreases |es|
  {
    if es != [] {
      if es[0].name == name {
        LookupWithout(es[1..], name, other);
        assert ([Entry(name, value)] + Without(es[1..], name))[1..] == Without(es[1..], name);
      } else {
        LookupSetEntry(es[1..], name, value, other);
        assert ([es[0]] + SetEntry(es[1..], name, value))[1..] == SetEntry(es[1..], name, value);
      }
    }
  }

  /** A `FormData` object, changed in place by `set` and `delete`. */
  class FormData {
    var entries: seq<Entry>

    constructor (es: seq<Entry>)
      ensures entries == es
    {
      entries := es;
    }

    function Get(name: string): Option<string>
      reads this
    {
      Lookup(entries, name)
    }

    function Has(name: string): bool
      reads this
    {
      Lookup(entries, name).Some?
    }

    method Delete(name: string)
      modifies this
      ensures entries == Without(old(entries), name)
      ensures Get(name) == None
    {
      entries := Without(entries, name);
      LookupWithout(old(entries), name, name);
    }

    method Set(name: string, value: string)
      modifies this
      ensures entries == SetEntry(old(entries), name, value)
      ensures Get(name) == Some(value)
    {
      entries := SetEntry(entries, name, value);
      LookupSetEntry(old(entries), name, value, name);
    }
  }
}
