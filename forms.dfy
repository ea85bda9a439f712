/** The browser's `FormData`, as the FormData interface of the WHATWG
    XMLHttpRequest Standard defines it: an ordered list of name/value entries;
    `get` returns the first value for a name or `null`; `delete` removes every
    entry with the name; `set` replaces the first entry with the name and drops
    the others, or appends when there is none. */
module Forms {
  import opened Base

  datatype Entry = Entry(name: string, value: string)

  type Entries = seq<Entry>

  /** `formData.get(name)`. */
  function Get(entries: Entries, name: string): (r: Option<string>)
    ensures r == None <==> forall i :: 0 <= i < |entries| ==> entries[i].name != name
    ensures r.Some? ==> exists i :: (0 <= i < |entries| && entries[i] == Entry(name, r.value) &&
                                     forall j :: 0 <= j < i ==> entries[j].name != name)
  {
    if entries == [] then None
    else if entries[0].name == name then Some(entries[0].value)
    else
      var r := Get(entries[1..], name);
      assert forall i :: 1 <= i < |entries| ==> entries[i] == entries[1..][i - 1];
      if r.Some? then
        var k :| (0 <= k < |entries[1..]| && entries[1..][k] == Entry(name, r.value) &&
                  forall j :: 0 <= j < k ==> entries[1..][j].name != name);
        assert entries[k + 1] == Entry(name, r.value);
        r
      else r
  }

  /** The entries without those named `name` (`formData.delete(name)`). */
  function Deleted(entries: Entries, name: string): (r: Entries)
    ensures forall e :: e in r <==> e in entries && e.name != name
    ensures |r| <= |entries|
  {
    if entries == [] then []
    else if entries[0].name == name then Deleted(entries[1..], name)
    else [entries[0]] + Deleted(entries[1..], name)
  }

  /** The entries with the first one named `name` replaced and the later ones removed. */
  function ReplaceFirst(entries: Entries, name: string, value: string): Entries
  {
    if entries == [] then []
    else if entries[0].name == name then [Entry(name, value)] + Deleted(entries[1..], name)
    else [entries[0]] + ReplaceFirst(entries[1..], name, value)
  }

  /** `formData.set(name, value)`. */
  function WithSet(entries: Entries, name: string, value: string): Entries
  {
    if exists i :: 0 <= i < |entries| && entries[i].name == name
    then ReplaceFirst(entries, name, value)
    else entries + [Entry(name, value)]
  }

  /** After `set(name, value)`, `get(name)` returns `value`. */
  lemma {:induction false} GetAfterSet(entries: Entries, name: string, value: string)
    ensures Get(WithSet(entries, name, value), name) == Some(value)
  {
    if exists i :: 0 <= i < |entries| && entries[i].name == name {
      ReplaceFirstGet(entries, name, value, name);
    } else {
      GetAppended(entries, Entry(name, value), name);
    }
  }

  /** `set(name, ...)` leaves `get` of every other name as it was. */
  lemma {:induction false} GetAfterSetOther(entries: Entries, name: string, value: string, other: string)
    requires other != name
    ensures Get(WithSet(entries, name, value), other) == Get(entries, other)
  {
    if exists i :: 0 <= i < |entries| && entries[i].name == name {
      ReplaceFirstGet(entries, name, value, other);
    } else {
      GetAppended(entries, Entry(name, value), other);
    }
  }

  /** After `delete(name)`, `get(name)` is null and `get` of other names is unchanged. */
  lemma {:induction false} GetAfterDelete(entries: Entries, name: string, other: string)
    ensures Get(Deleted(entries, name), name) == None
    ensures other != name ==> Get(Deleted(entries, name), other) == Get(entries, other)
  {
    if entries != [] {
      GetAfterDelete(entries[1..], name, other);
    }
  }

  lemma {:induction false} ReplaceFirstGet(entries: Entries, name: string, value: string, query: string)
    requires exists i :: 0 <= i < |entries| && entries[i].name == name
    ensures Get(ReplaceFirst(entries, name, value), query) ==
      if query == name then Some(value) else Get(entries, query)
  {
    if entries[0].name == name {
      GetAfterDelete(entries[1..], name, query);
    } else {
      assert exists i :: 0 <= i < |entries[1..]| && entries[1..][i].name == name by {
        var i :| 0 <= i < |entries| && entries[i].name == name;
        assert entries[1..][i - 1] == entries[i];
      }
      ReplaceFirstGet(entries[1..], name, value, query);
    }
  }

  lemma {:induction false} GetAppended(entries: Entries, e: Entry, query: string)
    requires forall i :: 0 <= i < |entries| ==> entries[i].name != e.name
    ensures Get(entries + [e], query) == if query == e.name then Some(e.value) else Get(entries, query)
  {
    if entries != [] {
      assert (entries + [e])[1..] == entries[1..] + [e];
      GetAppended(entries[1..], e, query);
    }
  }

  /** A `FormData` object, mutated in place by its `set` and `delete` methods. */
  class FormData {
    var entries: Entries

    /** `new FormData()`. */
    constructor ()
      ensures entries == []
    {
      entries := [];
    }

    method Set(name: string, value: string)
      modifies this
      ensures entries == WithSet(old(entries), name, value)
    {
      entries := WithSet(entries, name, value);
    }

    method Delete(name: string)
      modifies this
      ensures entries == Deleted(old(entries), name)
    {
      entries := Deleted(entries, name);
    }
  }
}
