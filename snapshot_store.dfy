/** The Cache API both workers drive, and the snapshot operations built on it:
    populating a versioned cache from a manifest (`precache`), deleting stale
    versioned caches (`cleanOld` / `cleanupOldCaches`) and searching caches
    in order for the first stored response. */
module SnapshotStore {
  import opened JsText

  /** A response as far as the workers look at it. */
  datatype Resp = Resp(status: int, body: string) {
    /** `response.ok` */
    predicate Ok() { 200 <= status <= 299 }
  }

  /** What one `fetch` gives: a response of any status, or a rejected promise. */
  datatype Fetched = Answer(resp: Resp) | NetworkError

  /** The network as an oracle from request URL to outcome. */
  type Network = string -> Fetched

  /** A fetch that the code keeps: it answered, with an ok status. */
  predicate Fetchable(net: Network, url: string) {
    net(url).Answer? && net(url).resp.Ok()
  }

  /** The Cache API of the origin: cache names in creation order (what
      `caches.keys()` lists) and each cache's map from request URL to response. */
  datatype Caches = Caches(names: seq<string>, stores: map<string, map<string, Resp>>) {

    ghost predicate Valid() {
      forall n :: n in names <==> n in stores
    }

    /** `caches.open(name)`: the named cache, created empty and listed last
        when it did not exist. */
    function Open(name: string): (r: Caches)
      ensures Valid() ==> r.Valid()
      ensures name in r.stores && r.stores.Keys == stores.Keys + {name}
      ensures forall n :: n in stores ==> r.stores[n] == stores[n]
      ensures name !in stores ==> r.stores[name] == map[] && r.names == names + [name]
      ensures name in stores ==> r == this
    {
      if name in stores then this else Caches(names + [name], stores[name := map[]])
    }

    /** `cache.put(key, resp)` on an open cache. */
    function Put(name: string, key: string, resp: Resp): (r: Caches)
      requires name in stores
      ensures Valid() ==> r.Valid()
      ensures r.names == names && r.stores.Keys == stores.Keys
      ensures r.Match(name, key) == Some(resp)
      ensures forall k :: k != key ==> r.Match(name, k) == Match(name, k)
      ensures forall n :: n in stores && n != name ==> r.stores[n] == stores[n]
    {
      this.(stores := stores[name := stores[name][key := resp]])
    }

    /** `(await caches.open(name)).match(key)`, read without creating anything. */
    function Match(name: string, key: string): Option<Resp> {
      if name in stores && key in stores[name] then Some(stores[name][key]) else None
    }
  }

  /** The name test of the cleanup filter: a prefixed name that does NOT end
      with the kept version. It tests a suffix, not equality. */
  predicate Stale(prefix: string, keep: string, name: string) {
    StartsWith(name, prefix) && !EndsWith(name, keep)
  }

  function KeepNames(names: seq<string>, prefix: string, keep: string): (r: seq<string>)
    ensures forall n :: n in r <==> n in names && !Stale(prefix, keep, n)
  {
    if names == [] then []
    else if Stale(prefix, keep, names[0]) then KeepNames(names[1..], prefix, keep)
    else [names[0]] + KeepNames(names[1..], prefix, keep)
  }

  /** Deletes every stale cache; every other cache keeps its contents. */
  function Purge(c: Caches, prefix: string, keep: string): (r: Caches)
    ensures c.Valid() ==> r.Valid()
    ensures forall n :: n in r.stores <==> n in c.stores && !Stale(prefix, keep, n)
    ensures forall n :: n in r.stores ==> r.stores[n] == c.stores[n]
  {
    Caches(KeepNames(c.names, prefix, keep),
           map n | n in c.stores && !Stale(prefix, keep, n) :: c.stores[n])
  }

  /** The cache an asset loop writes into after `paths` have been tried in
      order: each fetchable path is put, each failing one skipped. */
  function Fill(c: Caches, name: string, paths: seq<string>, net: Network): (r: Caches)
    requires name in c.stores
    ensures r.names == c.names && r.stores.Keys == c.stores.Keys
    ensures forall n :: n in c.stores && n != name ==> r.stores[n] == c.stores[n]
    decreases |paths|
  {
    if paths == [] then c
    else
      var c' := Fill(c, name, paths[..|paths| - 1], net);
      var p := paths[|paths| - 1];
      if Fetchable(net, p) then c'.Put(name, p, net(p).resp) else c'
  }

  /** `precache`: open the named cache, then fill it from the manifest. */
  function Populate(c: Caches, name: string, paths: seq<string>, net: Network): Caches {
    Fill(c.Open(name), name, paths, net)
  }

  /** After filling, a key holds the network's response exactly when it is in
      the manifest and was fetchable; any other key is as it was. */
  lemma {:induction false} FillMatch(c: Caches, name: string, paths: seq<string>, net: Network, key: string)
    requires name in c.stores
    ensures Fill(c, name, paths, net).Match(name, key)
         == if key in paths && Fetchable(net, key) then Some(net(key).resp) else c.Match(name, key)
    decreases |paths|
  {
    if paths != [] {
      var init := paths[..|paths| - 1];
      FillMatch(c, name, init, net, key);
      assert paths == init + [paths[|paths| - 1]];
      assert key in paths <==> key in init || key == paths[|paths| - 1];
    }
  }

  /** Populating a snapshot and then looking up every manifest path finds the
      network's response for each path that was fetchable; other caches are
      untouched. */
  lemma PopulateRoundTrip(c: Caches, name: string, paths: seq<string>, net: Network)
    ensures var r := Populate(c, name, paths, net);
      && name in r.stores
      && (forall p :: p in paths && Fetchable(net, p) ==> r.Match(name, p) == Some(net(p).resp))
      && (forall n :: n in c.stores && n != name ==> r.stores[n] == c.stores[n])
  {
    forall p | p in paths && Fetchable(net, p)
      ensures Populate(c, name, paths, net).Match(name, p) == Some(net(p).resp)
    {
      FillMatch(c.Open(name), name, paths, net, p);
    }
  }

  /** The asset loop of `precache`: a failing asset is skipped and the loop
      goes on. */
  method FillCache(c: Caches, name: string, paths: seq<string>, net: Network) returns (r: Caches)
    requires name in c.stores
    ensures r == Fill(c, name, paths, net)
  {
    r := c;
    for i := 0 to |paths|
      invariant r == Fill(c, name, paths[..i], net)
    {
      assert paths[..i + 1][..i] == paths[..i];
      var p := paths[i];
      match net(p) {
        case Answer(resp) =>
          if resp.Ok() {
            r := r.Put(name, p, resp);
          }
        case NetworkError =>
      }
    }
    assert paths[..|paths|] == paths;
  }

  /** The purge filters each part of a name list on its own: the caches it
      keeps stay in their creation order. */
  lemma {:induction false} KeepNamesConcat(a: seq<string>, b: seq<string>, prefix: string, keep: string)
    ensures KeepNames(a + b, prefix, keep) == KeepNames(a, prefix, keep) + KeepNames(b, prefix, keep)
  {
    if a == [] {
      assert a + b == b;
    } else {
      assert (a + b)[0] == a[0];
      assert (a + b)[1..] == a[1..] + b;
      KeepNamesConcat(a[1..], b, prefix, keep);
    }
  }

  /** A cache created after the others and spared by the purge stays last. */
  lemma KeepNamesAppend(names: seq<string>, prefix: string, keep: string, extra: string)
    requires !Stale(prefix, keep, extra)
    ensures KeepNames(names + [extra], prefix, keep) == KeepNames(names, prefix, keep) + [extra]
  {
    KeepNamesConcat(names, [extra], prefix, keep);
    assert [extra][1..] == [];
  }

  lemma {:induction false} PurgeFill(c: Caches, name: string, paths: seq<string>, net: Network, prefix: string, keep: string)
    requires name in c.stores && !Stale(prefix, keep, name)
    ensures name in Purge(c, prefix, keep).stores
    ensures Purge(Fill(c, name, paths, net), prefix, keep) == Fill(Purge(c, prefix, keep), name, paths, net)
    decreases |paths|
  {
    if paths != [] {
      var init := paths[..|paths| - 1];
      PurgeFill(c, name, init, net, prefix, keep);
      var p := paths[|paths| - 1];
      if Fetchable(net, p) {
        var f := Fill(c, name, init, net);
        var lhs := Purge(f.Put(name, p, net(p).resp), prefix, keep);
        var rhs := Purge(f, prefix, keep).Put(name, p, net(p).resp);
        assert lhs.names == rhs.names;
        assert lhs.stores == rhs.stores;
      }
    }
  }

  lemma PurgeOpenNew(c: Caches, prefix: string, keep: string, name: string)
    requires !Stale(prefix, keep, name) && name !in c.stores
    ensures Purge(c.Open(name), prefix, keep) == Purge(c, prefix, keep).Open(name)
  {
    var lhs := Purge(c.Open(name), prefix, keep);
    var rhs := Purge(c, prefix, keep).Open(name);
    assert lhs.names == rhs.names by {
      KeepNamesAppend(c.names, prefix, keep, name);
    }
    assert lhs.stores == rhs.stores by {
      assert lhs.stores.Keys == rhs.stores.Keys;
      forall n | n in lhs.stores
        ensures lhs.stores[n] == rhs.stores[n]
      {
        if n == name {
          assert lhs.stores[n] == map[] == rhs.stores[n];
        } else {
          assert lhs.stores[n] == c.stores[n] == rhs.stores[n];
        }
      }
    }
  }

  lemma PurgeOpen(c: Caches, prefix: string, keep: string, name: string)
    requires !Stale(prefix, keep, name)
    ensures Purge(c.Open(name), prefix, keep) == Purge(c, prefix, keep).Open(name)
  {
    if name !in c.stores {
      PurgeOpenNew(c, prefix, keep, name);
    }
  }

  /** The two workers order a version change differently (the root worker
      populates the new snapshot and then purges, the PWA worker purges and
      then populates), yet both orders leave the same caches behind: the new
      snapshot's name ends with the kept version, so the purge never touches
      it, and populating writes nothing else. */
  lemma PurgeCommutesWithPopulate(c: Caches, prefix: string, v: string, paths: seq<string>, net: Network)
    ensures Purge(Populate(c, prefix + v, paths, net), prefix, v)
         == Populate(Purge(c, prefix, v), prefix + v, paths, net)
  {
    var name := prefix + v;
    assert name[..|prefix|] == prefix;
    assert name[|name| - |v|..] == v;
    assert !Stale(prefix, v, name);
    PurgeFill(c.Open(name), name, paths, net, prefix, v);
    PurgeOpen(c, prefix, v, name);
  }

  /** The first key whose entry the store holds, in key order. */
  function FirstMatch(store: map<string, Resp>, keys: seq<string>): (r: Option<Resp>)
    ensures r.None? <==> forall k :: k in keys ==> k !in store
    ensures r.Some? ==> exists i :: 0 <= i < |keys| && keys[i] in store && store[keys[i]] == r.value
                                    && forall j :: 0 <= j < i ==> keys[j] !in store
  {
    if keys == [] then None
    else if keys[0] in store then Some(store[keys[0]])
    else
      var r := FirstMatch(store, keys[1..]);
      assert r.Some? ==> exists i :: 1 <= i < |keys| && keys[i] in store && store[keys[i]] == r.value
                                     && forall j :: 0 <= j < i ==> keys[j] !in store by {
        if r.Some? {
          var i :| 0 <= i < |keys[1..]| && keys[1..][i] in store && store[keys[1..][i]] == r.value
                   && forall j :: 0 <= j < i ==> keys[1..][j] !in store;
          assert forall j :: 1 <= j < i + 1 ==> keys[j] == keys[1..][j - 1];
        }
      }
      r
  }

  /** The caches a fallback scan looks in: versioned (prefixed) names, except
      one name the caller has already searched. */
  predicate Eligible(prefix: string, skip: Option<string>, name: string) {
    StartsWith(name, prefix) && (skip.None? || name != skip.value)
  }

  /** Scans caches in `names` order, skipping ineligible names, and inside each
      cache tries the keys in order; the first stored response wins. */
  function ScanCaches(c: Caches, names: seq<string>, prefix: string, skip: Option<string>, keys: seq<string>): (r: Option<Resp>)
    ensures r.None? <==> forall n, k :: n in names && Eligible(prefix, skip, n) && n in c.stores && k in keys ==> k !in c.stores[n]
    ensures r.Some? ==> exists n, k :: n in names && Eligible(prefix, skip, n) && n in c.stores && k in keys
                                       && k in c.stores[n] && c.stores[n][k] == r.value
  {
    if names == [] then None
    else
      var n := names[0];
      if Eligible(prefix, skip, n) && n in c.stores && FirstMatch(c.stores[n], keys).Some? then
        var m := FirstMatch(c.stores[n], keys);
        assert exists k :: k in keys && k in c.stores[n] && c.stores[n][k] == m.value by {
          var i :| 0 <= i < |keys| && keys[i] in c.stores[n] && c.stores[n][keys[i]] == m.value;
          assert keys[i] in keys;
        }
        m
      else
        ScanCaches(c, names[1..], prefix, skip, keys)
  }

  /** A cache the scan stops at: eligible, present, and holding some key. */
  predicate Holds(c: Caches, prefix: string, skip: Option<string>, keys: seq<string>, n: string) {
    Eligible(prefix, skip, n) && n in c.stores && FirstMatch(c.stores[n], keys).Some?
  }

  /** The position in `names` of the first cache that holds any key, or
      `|names|` when none does. */
  function HolderIndex(c: Caches, names: seq<string>, prefix: string, skip: Option<string>, keys: seq<string>): (i: nat)
    ensures i <= |names|
    ensures i < |names| ==> Holds(c, prefix, skip, keys, names[i])
    ensures forall j :: 0 <= j < i ==> !Holds(c, prefix, skip, keys, names[j])
  {
    if names == [] || Holds(c, prefix, skip, keys, names[0]) then 0
    else
      var i := HolderIndex(c, names[1..], prefix, skip, keys);
      assert forall j :: 1 <= j < i + 1 ==> names[j] == names[1..][j - 1];
      i + 1
  }

  /** A scan hit is the first match inside the FIRST cache in `names` order
      that holds any key; when no cache holds one the scan finds nothing. */
  lemma {:induction false} ScanCachesFirst(c: Caches, names: seq<string>, prefix: string, skip: Option<string>, keys: seq<string>)
    ensures var i := HolderIndex(c, names, prefix, skip, keys);
      ScanCaches(c, names, prefix, skip, keys) == if i < |names| then FirstMatch(c.stores[names[i]], keys) else None
  {
    if names != [] && !Holds(c, prefix, skip, keys, names[0]) {
      ScanCachesFirst(c, names[1..], prefix, skip, keys);
      var i := HolderIndex(c, names[1..], prefix, skip, keys);
      assert HolderIndex(c, names, prefix, skip, keys) == i + 1;
      if i < |names[1..]| {
        assert names[i + 1] == names[1..][i];
      }
    }
  }

  /** The inner `for (const key of keys) { hit = await cache.match(key); if (hit) return hit; }`. */
  method LookupFirst(store: map<string, Resp>, keys: seq<string>) returns (hit: Option<Resp>)
    ensures hit == FirstMatch(store, keys)
  {
    for i := 0 to |keys|
      invariant FirstMatch(store, keys) == FirstMatch(store, keys[i..])
    {
      if keys[i] in store {
        return Some(store[keys[i]]);
      }
      assert keys[i..][1..] == keys[i + 1..];
    }
    return None;
  }

  /** The outer loop over `caches.keys()` with an early return on the first hit. */
  method Scan(c: Caches, prefix: string, skip: Option<string>, keys: seq<string>) returns (hit: Option<Resp>)
    ensures hit == ScanCaches(c, c.names, prefix, skip, keys)
  {
    for i := 0 to |c.names|
      invariant ScanCaches(c, c.names, prefix, skip, keys) == ScanCaches(c, c.names[i..], prefix, skip, keys)
    {
      var n := c.names[i];
      assert c.names[i..][1..] == c.names[i + 1..];
      if Eligible(prefix, skip, n) && n in c.stores {
        hit := LookupFirst(c.stores[n], keys);
        if hit.Some? {
          return;
        }
      }
    }
    return None;
  }

  /** First activation's probe: open the version's cache and populate it
      only when its sentinel page is missing, so a restarted worker whose
      snapshot is already there skips the download. */
  function PopulateIfMissing(c: Caches, name: string, sentinel: string, paths: seq<string>, net: Network): (r: Caches)
    ensures c.Open(name).Match(name, sentinel).Some? ==> r == c.Open(name)
    ensures c.Open(name).Match(name, sentinel).None? ==> r == Populate(c, name, paths, net)
  {
    var withName := c.Open(name);
    if withName.Match(name, sentinel).None? then Populate(withName, name, paths, net) else withName
  }
}
