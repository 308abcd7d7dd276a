/**
 The device cache as one thread sees it when no other call is under way, and the loader that
 fills it from the database. The methods are the calls of CacheProtocol run alone; they are
 specified by the same operations on the plain map.
 */
module DeviceCache {
  import opened Wrappers
  import opened PlainMap
  import CacheProtocol
  import CacheTheorems

  class DeviceCacheEntry {
    var addresses: Pair<Addresses>
    var readers: Pair<int>
    var current: int

    /** No reader is inside a copy. */
    ghost predicate Quiet()
      reads this
    {
      0 <= current <= 1 && readers == Pair(0, 0)
    }

    function Contents(): Addresses
      reads this
    {
      addresses.At(current)
    }

    constructor ()
      ensures Quiet() && Contents() == []
    {
      addresses, readers, current := Pair([], []), Pair(0, 0), 0;
    }

    method GetAddresses() returns (r: Addresses)
      requires Quiet()
      modifies this`readers
      ensures Quiet() && r == Contents()
    {
      var id := current;
      readers := readers.With(id, readers.At(id) + 1);
      r := addresses.At(id);
      readers := readers.With(id, readers.At(id) - 1);
    }

    /** The new vector goes into the spare buffer, and the one served so far stays in the other. */
    method SetAddresses(updated: Addresses)
      requires Quiet()
      modifies this
      ensures Quiet()
      ensures current == 1 - old(current) && addresses == old(addresses).With(current, updated)
      ensures Contents() == updated && addresses.At(1 - current) == old(Contents())
    {
      var spare := if current == 0 then 1 else 0;
      assert readers.At(spare) == 0;  // the wait for readers of the spare buffer is over at once
      addresses := addresses.With(spare, updated);
      current := (current + 1) % 2;
    }
  }

  class Cache {
    var entries: map<Key, DeviceCacheEntry>
    var sceneList: seq<Key>

    ghost predicate Valid()
      reads this, entries.Values
    {
      && (forall k <- entries :: entries[k].Quiet())
      && (forall k <- entries, j <- entries :: entries[k] == entries[j] ==> k == j)
    }

    /** The list names each scene of the map once. */
    ghost predicate Tidy()
      reads this
    {
      CacheTheorems.Lists(sceneList, entries.Keys)
    }

    ghost function Contents(): map<Key, Addresses>
      reads this, entries.Values
    {
      map k | k in entries :: entries[k].Contents()
    }

    constructor ()
      ensures Valid() && Tidy() && Contents() == map[]
    {
      entries, sceneList := map[], [];
    }

    method AddScene(k: Key)
      requires Valid()
      modifies this
      ensures Valid()
      ensures Contents() == Apply(old(Contents()), Added(k))
      ensures sceneList == old(sceneList) + [k]
      ensures old(Tidy()) ==> (Tidy() <==> k !in old(entries))
    {
      hide CacheTheorems.Lists;
      if Tidy() {
        CacheTheorems.AddKeepsListExactly(sceneList, entries.Keys, k);
      }
      ghost var was := Contents();
      sceneList := sceneList + [k];
      var e := new DeviceCacheEntry();
      PutEntry(k, e, was);
    }

    /** The map part of add_scene: a new entry under the key. */
    method PutEntry(k: Key, e: DeviceCacheEntry, ghost was: map<Key, Addresses>)
      requires Valid() && Contents() == was && e.Quiet() && e.Contents() == [] && forall j <- entries :: entries[j] != e
      modifies this`entries
      ensures Valid() && entries == old(entries)[k := e] && Contents() == was[k := []]
      ensures entries.Keys == old(entries).Keys + {k}
    {
      ghost var keys := entries.Keys;
      entries := entries[k := e];
      assert entries.Keys == keys + {k};
      assert Contents().Keys == was[k := []].Keys;
    }

    /** Erasing a key that is not in the list is undefined. */
    method RemoveScene(k: Key)
      requires Valid() && k in sceneList
      modifies this
      ensures Valid()
      ensures Contents() == Apply(old(Contents()), Removed(k))
      ensures sceneList == CacheProtocol.EraseFirst(old(sceneList), k)
      ensures exists i :: 0 <= i < |old(sceneList)| && old(sceneList)[i] == k && k !in old(sceneList)[..i]
                && sceneList == old(sceneList)[..i] + old(sceneList)[i + 1..]
      ensures old(Tidy()) ==> Tidy()
    {
      hide CacheProtocol.EraseFirst, CacheTheorems.Lists;
      ghost var i := FirstPlace(sceneList, k);
      CacheTheorems.EraseFirstIs(sceneList, k, i);
      if Tidy() {
        CacheTheorems.EraseFirstLists(sceneList, entries.Keys, k);
      }
      sceneList := CacheProtocol.EraseFirst(sceneList, k);
      assert Valid() && Contents() == old(Contents());
      DropEntry(k);
    }

    /** The map part of remove_scene. */
    method DropEntry(k: Key)
      requires Valid()
      modifies this`entries
      ensures Valid() && Contents() == Apply(old(Contents()), Removed(k))
      ensures entries.Keys == old(entries).Keys - {k}
    {
      ghost var was := Contents();
      ghost var keys := entries.Keys;
      entries := entries - {k};
      assert entries.Keys == keys - {k};
      assert Contents() == was - {k};
    }

    method GetDevices(k: Key) returns (r: Option<Addresses>)
      requires Valid()
      modifies entries.Values
      ensures Valid() && Contents() == old(Contents())
      ensures r == if k in Contents() then Some(Contents()[k]) else None
    {
      if k !in entries {
        return None;
      }
      var devices := entries[k].GetAddresses();
      r := Some(devices);
    }

    method SetDevices(k: Key, devices: Addresses)
      requires Valid() && k in entries
      modifies entries[k]
      ensures Valid() && Contents() == Apply(old(Contents()), Put(k, devices))
    {
      entries[k].SetAddresses(devices);
    }

    // -------------------------------------------------------------- the loader

    /** The rows are what the query for this scene returned; None is a query that failed. */
    method LoadScene(k: Key, results: Option<seq<Row>>)
      requires Valid() && (HasDevices(results) ==> k in entries)
      modifies if k in entries then {entries[k]} else {}
      ensures Valid()
      ensures Contents().Keys == old(Contents()).Keys
      ensures results.Some? && results.value != [] && results.value[0].Device? ==>
        k in Contents() && ReadFrom(Contents()[k], results.value)
      ensures results.None? || results.value == [] || results.value[0].NotANode? ==> Contents() == old(Contents())
      ensures forall j <- Contents() :: j != k ==> Contents()[j] == old(Contents())[j]
      ensures Contents() == Loaded(old(Contents()), k, results)
    {
      hide LeadingDevices, ReadFrom;
      ghost var was := Contents();
      if results.Some? {
        SomeDevices(results.value);
        var devices := DeviceRows(results.value);
        if |devices| > 0 {
          SetDevices(k, devices);
        }
      }
      assert Contents() == Loaded(was, k, results);
      LoadedIs(was, k, results);
    }

    /** Every listed scene whose query returned leading device rows holds exactly those, in order;
        every other scene keeps its addresses; no scene comes or goes. A key may be listed twice; a
        listed key that has no entry must not have devices. */
    method LoadScenes(db: Key -> Option<seq<Row>>)
      requires Valid() && forall k <- sceneList :: HasDevices(db(k)) ==> k in entries
      modifies entries.Values
      ensures Valid()
      ensures Contents().Keys == old(Contents()).Keys
      ensures forall k <- Contents() ::
        if k in sceneList && db(k).Some? && db(k).value != [] && db(k).value[0].Device?
        then ReadFrom(Contents()[k], db(k).value)
        else Contents()[k] == old(Contents())[k]
    {
      var keys := sceneList;
      ghost var was := Contents();
      for i := 0 to |keys|
        invariant Valid() && entries == old(entries)
        invariant Contents() == LoadedAll(was, keys[..i], db)
      {
        assert keys[..i + 1][..i] == keys[..i];
        LoadScene(keys[i], db(keys[i]));
      }
      assert keys[..|keys|] == keys;
      LoadedAllIs(was, keys, db);
      forall k <- was | k in keys && HasDevices(db(k))
        ensures ReadFrom(Contents()[k], db(k).value)
      {
        LeadingDevicesAre(db(k).value);
      }
    }
  }

  lemma {:induction false} FirstPlace(l: seq<Key>, k: Key) returns (i: nat)
    requires k in l
    ensures i < |l| && l[i] == k && k !in l[..i]
    ensures forall j :: 0 <= j < i ==> l[j] != k
  {
    if l[0] == k {
      i := 0;
    } else {
      var j := FirstPlace(l[1..], k);
      i := j + 1;
      assert l[..i] == [l[0]] + l[1..][..j];
      assert forall m :: 0 < m < i ==> l[m] == l[1..][m - 1];
    }
  }

  /** The row loop of load_scene. */
  method DeviceRows(rows: seq<Row>) returns (devices: Addresses)
    ensures |devices| <= |rows|
    ensures forall i :: 0 <= i < |devices| ==>
      && rows[i].Device?
      && devices[i].0 == (if rows[i].hostname.Some? then rows[i].hostname.value else "")
      && devices[i].1 == (if rows[i].port.Some? then rows[i].port.value else 0)
    ensures |devices| < |rows| ==> rows[|devices|].NotANode?
    ensures devices == LeadingDevices(rows)
  {
    hide LeadingDevices;
    devices := [];
    var i := 0;
    while i < |rows|
      invariant 0 <= i <= |rows| && |devices| == i
      invariant forall j :: 0 <= j < i ==>
        rows[j].Device? && devices[j] == (Or(rows[j].hostname, ""), Or(rows[j].port, 0))
    {
      if rows[i].NotANode? {
        break;
      }
      var host := if rows[i].hostname.Some? then rows[i].hostname.value else "";
      var port := if rows[i].port.Some? then rows[i].port.value else 0;
      devices := devices + [(host, port)];
      i := i + 1;
    }
    LeadingDevicesAre(rows);
    ReadFromOnce(devices, LeadingDevices(rows), rows);
  }

  /** One row of the loader's query: something that is no node, or a device node. */
  datatype Row = NotANode | Device(hostname: Option<string>, port: Option<int>)

  /** The address pairs of the device rows before the first row that is no node. */
  function LeadingDevices(rows: seq<Row>): Addresses {
    if rows == [] || rows[0].NotANode? then []
    else
      [(if rows[0].hostname.Some? then rows[0].hostname.value else "",
        if rows[0].port.Some? then rows[0].port.value else 0)] + LeadingDevices(rows[1..])
  }

  /** One pair of hostname and port, or their defaults, for every row before the first that is no node. */
  ghost predicate ReadFrom(devices: Addresses, rows: seq<Row>) {
    && |devices| <= |rows|
    && (forall i :: 0 <= i < |devices| ==>
         rows[i].Device? && devices[i] == (Or(rows[i].hostname, ""), Or(rows[i].port, 0)))
    && (|devices| < |rows| ==> rows[|devices|].NotANode?)
  }

  lemma {:induction false} LeadingDevicesAre(rows: seq<Row>)
    ensures ReadFrom(LeadingDevices(rows), rows)
  {
    if rows != [] && rows[0].Device? {
      LeadingDevicesAre(rows[1..]);
      var rest := LeadingDevices(rows[1..]);
      forall i | 0 <= i < |rest| + 1
        ensures rows[i].Device? && LeadingDevices(rows)[i] == (Or(rows[i].hostname, ""), Or(rows[i].port, 0))
      {
        assert i > 0 ==> LeadingDevices(rows)[i] == rest[i - 1] && rows[i] == rows[1..][i - 1];
      }
    }
  }

  /** Nothing else can be read from the rows. */
  lemma ReadFromOnce(a: Addresses, b: Addresses, rows: seq<Row>)
    requires ReadFrom(a, rows) && ReadFrom(b, rows)
    ensures a == b
  {
    assert !(|a| < |b|) && !(|b| < |a|);
  }

  /** The query succeeded and its first row is a device. */
  predicate HasDevices(results: Option<seq<Row>>) {
    results.Some? && results.value != [] && results.value[0].Device?
  }

  function Loaded(m: map<Key, Addresses>, k: Key, results: Option<seq<Row>>): map<Key, Addresses> {
    if HasDevices(results) then m[k := LeadingDevices(results.value)] else m
  }

  lemma SomeDevices(rows: seq<Row>)
    ensures LeadingDevices(rows) != [] <==> HasDevices(Some(rows))
  {
  }

  lemma LoadedIs(m: map<Key, Addresses>, k: Key, results: Option<seq<Row>>)
    requires HasDevices(results) ==> k in m
    ensures var after := Loaded(m, k, results);
      && after.Keys == m.Keys
      && (HasDevices(results) ==> ReadFrom(after[k], results.value))
      && (!HasDevices(results) ==> after == m)
      && forall j <- m :: j != k ==> after[j] == m[j]
  {
    hide LeadingDevices, ReadFrom;
    if results.Some? {
      LeadingDevicesAre(results.value);
    }
  }

  function LoadedAll(m: map<Key, Addresses>, keys: seq<Key>, db: Key -> Option<seq<Row>>): map<Key, Addresses> {
    if keys == [] then m
    else Loaded(LoadedAll(m, keys[..|keys| - 1], db), keys[|keys| - 1], db(keys[|keys| - 1]))
  }

  lemma {:induction false} LoadedAllIs(m: map<Key, Addresses>, keys: seq<Key>, db: Key -> Option<seq<Row>>)
    requires forall k <- keys :: HasDevices(db(k)) ==> k in m
    ensures LoadedAll(m, keys, db).Keys == m.Keys
    ensures forall k <- m ::
      LoadedAll(m, keys, db)[k] == if k in keys && HasDevices(db(k))
                                   then LeadingDevices(db(k).value) else m[k]
  {
    if keys != [] {
      var n := |keys| - 1;
      assert keys == keys[..n] + [keys[n]];
      LoadedAllIs(m, keys[..n], db);
    }
  }
}
