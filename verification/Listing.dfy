/**
 How a store's map becomes a document and comes back: the keys are collected in any order and
 sorted, one entry is written for each, and the loader rebuilds the map, refusing duplicates
 (cutover_store.go:240-281, ingress_store.go:294-360).
 */
module Listing {
  import opened Text

  datatype Entry<V> = Entry(name: string, value: V)

  function EntryName<V>(entry: Entry<V>): string { entry.name }

  /** The map the loader builds; later entries would win, but duplicates are refused. */
  function EntryMap<V>(entries: seq<Entry<V>>): map<string, V> {
    if entries == [] then map[]
    else
      var n := |entries| - 1;
      EntryMap(entries[..n])[entries[n].name := entries[n].value]
  }

  /** The entries of `m`, each once, in strictly ascending order of name. */
  ghost predicate Lists<V>(entries: seq<Entry<V>>, m: map<string, V>) {
    && Ascending(Keys(entries, EntryName))
    && (forall i :: 0 <= i < |entries| ==> entries[i].name in m && m[entries[i].name] == entries[i].value)
    && (forall name :: name in m ==> name in Keys(entries, EntryName))
  }

  lemma {:induction false} EntryMapMeaning<V(!new)>(entries: seq<Entry<V>>)
    requires DistinctKeys(entries, EntryName)
    ensures EntryMap(entries).Keys == (set i | 0 <= i < |entries| :: entries[i].name)
    ensures forall i :: 0 <= i < |entries| ==> EntryMap(entries)[entries[i].name] == entries[i].value
  {
    if entries != [] {
      var n := |entries| - 1;
      var m := EntryMap(entries[..n]);
      EntryMapMeaning(entries[..n]);
      assert EntryMap(entries) == m[entries[n].name := entries[n].value];
      LastIsDistinct(entries);
      hide EntryMap, DistinctKeys;
      assert forall i :: 0 <= i < n ==> entries[..n][i] == entries[i];
      forall name ensures name in EntryMap(entries) <==> exists i :: 0 <= i < |entries| && entries[i].name == name {
        if name in EntryMap(entries) && name != entries[n].name {
          assert name in m.Keys;
          var i :| 0 <= i < n && entries[..n][i].name == name;
          assert entries[i].name == name;
        }
      }
    }
  }

  lemma LastIsDistinct<V(!new)>(entries: seq<Entry<V>>)
    requires DistinctKeys(entries, EntryName) && entries != []
    ensures forall i :: 0 <= i < |entries| - 1 ==> entries[i].name != entries[|entries| - 1].name
  {
    var n := |entries| - 1;
    forall i | 0 <= i < n ensures entries[i].name != entries[n].name {
      assert EntryName(entries[i]) != EntryName(entries[n]);
    }
  }

  lemma ListedAt<V>(entries: seq<Entry<V>>, m: map<string, V>, name: string) returns (i: nat)
    requires Lists(entries, m) && name in m
    ensures i < |entries| && entries[i] == Entry(name, m[name])
  {
    hide Ascending;
    i :| 0 <= i < |entries| && Keys(entries, EntryName)[i] == name;
  }

  lemma ListedEntry<V>(entries: seq<Entry<V>>, m: map<string, V>, i: nat)
    requires Lists(entries, m) && i < |entries|
    ensures entries[i].name in m && m[entries[i].name] == entries[i].value
  {
  }

  lemma SameMap<V>(entries: seq<Entry<V>>, m: map<string, V>)
    requires Lists(entries, m)
    requires EntryMap(entries).Keys == (set i | 0 <= i < |entries| :: entries[i].name)
    requires forall i :: 0 <= i < |entries| ==> EntryMap(entries)[entries[i].name] == entries[i].value
    ensures EntryMap(entries) == m
  {
    hide Lists, EntryMap;
    forall name | name in EntryMap(entries).Keys ensures name in m {
      var i :| 0 <= i < |entries| && entries[i].name == name;
      ListedEntry(entries, m, i);
    }
    forall name | name in m ensures name in EntryMap(entries).Keys && EntryMap(entries)[name] == m[name] {
      var i := ListedAt(entries, m, name);
      assert entries[i].name == name;
    }
  }

  /** Reading a listing gives back the map it lists, with one entry for each key. */
  lemma ListingDenotesItsMap<V(!new)>(entries: seq<Entry<V>>, m: map<string, V>)
    requires Lists(entries, m)
    ensures EntryMap(entries) == m
    ensures DistinctKeys(entries, EntryName)
    ensures |entries| == |m|
  {
    hide Ascending, DistinctKeys, EntryMap;
    AscendingKeysAreDistinct(entries, EntryName);
    EntryMapMeaning(entries);
    SameMap(entries, m);
    ListingSize(entries, m);
  }

  lemma {:induction false} ListingSize<V(!new)>(entries: seq<Entry<V>>, m: map<string, V>)
    requires DistinctKeys(entries, EntryName)
    requires m.Keys == EntryMap(entries).Keys
    ensures |entries| == |m|
    decreases |entries|
  {
    if entries != [] {
      var n := |entries| - 1;
      assert DistinctKeys(entries[..n], EntryName);
      EntryMapMeaning(entries);
      EntryMapMeaning(entries[..n]);
      var name := entries[n].name;
      forall i | 0 <= i < n ensures entries[..n][i].name != name {
        assert EntryName(entries[i]) != EntryName(entries[n]);
      }
      ListingSize(entries[..n], EntryMap(entries[..n]));
      assert name !in EntryMap(entries[..n]);
      assert m.Keys == EntryMap(entries[..n]).Keys + {name};
      assert |m| == |m.Keys| && |EntryMap(entries[..n])| == |EntryMap(entries[..n]).Keys|;
    }
  }

  /** Every entry of a listing satisfies a rule exactly when every pair of its map does. */
  lemma RuleOfListing<V>(entries: seq<Entry<V>>, m: map<string, V>, rule: Entry<V> -> bool)
    requires Lists(entries, m)
    ensures (forall i :: 0 <= i < |entries| ==> rule(entries[i])) <==>
      (forall name :: name in m ==> rule(Entry(name, m[name])))
  {
    hide Lists;
    if forall i :: 0 <= i < |entries| ==> rule(entries[i]) {
      forall name | name in m ensures rule(Entry(name, m[name])) {
        var i := ListedAt(entries, m, name);
      }
    }
    forall i | 0 <= i < |entries| && (forall name :: name in m ==> rule(Entry(name, m[name])))
      ensures rule(entries[i])
    {
      ListedEntry(entries, m, i);
      assert entries[i] == Entry(entries[i].name, m[entries[i].name]);
    }
  }

  /** The same of entries that repeat no name, in whatever order, and the map they denote. */
  lemma RuleOfEntries<V(!new)>(entries: seq<Entry<V>>, rule: Entry<V> -> bool)
    requires DistinctKeys(entries, EntryName)
    ensures |entries| == |EntryMap(entries)|
    ensures (forall i :: 0 <= i < |entries| ==> rule(entries[i])) <==>
      (forall name :: name in EntryMap(entries) ==> rule(Entry(name, EntryMap(entries)[name])))
  {
    hide DistinctKeys, EntryMap;
    var m := EntryMap(entries);
    EntryMapMeaning(entries);
    ListingSize(entries, m);
    forall i | 0 <= i < |entries|
      ensures entries[i].name in m && entries[i] == Entry(entries[i].name, m[entries[i].name])
    {
      assert entries[i].name in m.Keys;
    }
    forall name | name in m && (forall i :: 0 <= i < |entries| ==> rule(entries[i]))
      ensures rule(Entry(name, m[name]))
    {
      assert name in m.Keys;
      var i :| 0 <= i < |entries| && entries[i].name == name;
    }
  }

  /** Collects the keys in whatever order the map yields them, and sorts them. */
  method SortedKeys<V>(m: map<string, V>) returns (keys: seq<string>)
    ensures Ascending(keys)
    ensures forall key :: key in keys <==> key in m
  {
    hide Less, SortBy;
    var remaining := m.Keys;
    var found: seq<string> := [];
    while remaining != {}
      invariant remaining <= m.Keys
      invariant forall key :: key in found <==> key in m && key !in remaining
      invariant DistinctKeys(found, Identity)
      decreases remaining
    {
      var key :| key in remaining;
      assert forall j :: 0 <= j < |found| ==> found[j] in found;
      found, remaining := found + [key], remaining - {key};
    }
    keys := SortBy(found, Identity);
    SortByIgnoresOrder(found, found, Identity);
    assert Keys(keys, Identity) == keys;
    forall key ensures key in keys <==> key in found {
      assert key in multiset(keys) <==> key in multiset(found);
    }
  }

  function Identity(key: string): string { key }

  method ListEntries<V>(m: map<string, V>) returns (entries: seq<Entry<V>>)
    ensures Lists(entries, m)
  {
    hide Ascending, Less;
    var keys := SortedKeys(m);
    entries := [];
    var i := 0;
    while i < |keys|
      invariant i <= |keys| && |entries| == i
      invariant forall j :: 0 <= j < i ==> entries[j].name == keys[j] && entries[j].value == m[keys[j]]
    {
      entries := entries + [Entry(keys[i], m[keys[i]])];
      i := i + 1;
    }
    assert Keys(entries, EntryName) == keys;
  }

  /** Rebuilds the map, refusing the first entry that breaks the rule or repeats a name. */
  method ReadEntries<V(!new)>(entries: seq<Entry<V>>, rule: Entry<V> -> bool)
    returns (accepted: bool, m: map<string, V>)
    ensures accepted <==> (forall i :: 0 <= i < |entries| ==> rule(entries[i])) && DistinctKeys(entries, EntryName)
    ensures accepted ==> m == EntryMap(entries)
  {
    m := map[];
    var i := 0;
    while i < |entries|
      invariant i <= |entries|
      invariant forall j :: 0 <= j < i ==> rule(entries[j])
      invariant DistinctKeys(entries[..i], EntryName)
      invariant m == EntryMap(entries[..i])
      invariant forall name :: name in m <==> exists j :: 0 <= j < i && entries[j].name == name
    {
      if !rule(entries[i]) { return false, map[]; }
      if entries[i].name in m {
        ghost var j :| 0 <= j < i && entries[j].name == entries[i].name;
        assert EntryName(entries[j]) == EntryName(entries[i]);
        return false, map[];
      }
      assert entries[..i + 1][..i] == entries[..i];
      m := m[entries[i].name := entries[i].value];
      i := i + 1;
    }
    assert entries[..i] == entries;
    return true, m;
  }
}
