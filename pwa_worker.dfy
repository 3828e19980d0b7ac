/** The PWA-scope service worker (PWA/sw.js): the same versioned-snapshot
    design under its own cache prefix and a smaller manifest, with a version
    check that blocks the first request of each epoch and reports how it
    ended. */
module PwaWorker {
  import opened JsText
  import opened SnapshotStore
  import opened WorkerCommon

  const CACHE_PREFIX: string := "slopeplusweb-cache-v"

  /** The site shell; also the sentinel a first activation probes for. */
  const SHELL: string := "/index.html"

  /** The manifest precached for every version, in order. */
  const PRECACHE_PATHS: seq<string> := [
    "/index.html", "/style.css",
    "/Build/SlopePlusWeb.asm.code.unityweb", "/Build/SlopePlusWeb.asm.framework.unityweb",
    "/Build/SlopePlusWeb.asm.memory.unityweb", "/Build/SlopePlusWeb.data.unityweb",
    "/Build/SlopePlusWeb.json", "/Build/SlopePlusWeb.wasm.code.unityweb",
    "/Build/SlopePlusWeb.wasm.framework.unityweb", "/Build/UnityLoader.js",
    "/Patches/mobile.js", "/Patches/settings.js", "/Patches/freezegame.js",
    "/TemplateData/style.css", "/TemplateData/UnityProgress.js", "/TemplateData/favicon.ico",
    "/TemplateData/fullscreen.png", "/TemplateData/progressEmpty.Dark.png",
    "/TemplateData/progressFull.Dark.png", "/TemplateData/progressLogo.Dark.png",
    "/TemplateData/webgl-logo.png"
  ]

  /** The reload broadcast; unlike the root worker's it carries no version. */
  datatype Message = VersionUpdate

  /** The caches after `precache(version)`. */
  function Precached(c: Caches, version: string, net: Network): Caches {
    Populate(c, CACHE_PREFIX + version, PRECACHE_PATHS, net)
  }

  /** The caches after `cleanupOldCaches(keepVersion)`. */
  function CleanedUp(c: Caches, keepVersion: string): Caches {
    Purge(c, CACHE_PREFIX, keepVersion)
  }

  /** The caches after a first activation: the version's cache is opened and
      precached unless it already holds the shell. */
  function PrecachedIfMissing(c: Caches, version: string, net: Network): Caches {
    PopulateIfMissing(c, CACHE_PREFIX + version, SHELL, PRECACHE_PATHS, net)
  }

  /** How `ensureVersionChecked()` ended. */
  datatype Status = Cached | Unknown | Same | Different

  /** Where one version check lands: the version served, the caches, and the
      status reported. */
  datatype Landing = Landing(current: Option<string>, caches: Caches, status: Status)

  /** The decision after the version fetch: offline is `unknown` and changes
      nothing; with no version served (null or empty) the fetched one is
      adopted, its snapshot populated only if the shell is missing, and the
      status is `same`; a different version purges the stale snapshots, then
      populates the new one, then is adopted, and the status is `different`;
      the same version is `same` and changes nothing. */
  function Reconcile(current: Option<string>, c: Caches, latest: Option<string>, net: Network): (l: Landing)
    ensures l.status != Cached
    ensures l.status == Unknown <==> latest.None?
    ensures l.status == Different <==> latest.Some? && Truthy(current) && latest != current
    ensures l.status != Different ==> l.caches == c || (!Truthy(current) && latest.Some?)
    ensures latest.Some? ==> l.current == latest
    ensures latest.None? ==> l == Landing(current, c, Unknown)
  {
    match latest
    case None => Landing(current, c, Unknown)
    case Some(v) =>
      if !Truthy(current) then
        Landing(latest, PrecachedIfMissing(c, v, net), Same)
      else if v != current.value then
        Landing(latest, Precached(CleanedUp(c, v), v, net), Different)
      else
        Landing(current, c, Same)
  }

  /** `ensureVersionChecked()` as a whole: `cached` without fetching once the
      epoch is checked, otherwise the reconciliation with the fetched version. */
  function Check(checked: bool, current: Option<string>, c: Caches, net: Network): Landing {
    if checked then Landing(current, c, Cached) else Reconcile(current, c, FetchVersion(net), net)
  }

  /** Purging before populating, as this worker does, leaves the same caches
      as the root worker's populate-then-purge order would. */
  lemma MismatchOrderIsImmaterial(current: Option<string>, c: Caches, v: string, net: Network)
    requires Truthy(current) && v != current.value
    ensures Reconcile(current, c, Some(v), net).caches
         == Purge(Populate(c, CACHE_PREFIX + v, PRECACHE_PATHS, net), CACHE_PREFIX, v)
  {
    PurgeCommutesWithPopulate(c, CACHE_PREFIX, v, PRECACHE_PATHS, net);
  }

  /** After a mismatch every versioned cache left ends with the new version,
      every other cache is untouched, and the new snapshot holds every path
      the network served. */
  lemma MismatchRetainsOnlyNewSnapshot(current: Option<string>, c: Caches, v: string, net: Network)
    requires Truthy(current) && v != current.value
    ensures var l := Reconcile(current, c, Some(v), net);
      && l.status == Different && l.current == Some(v)
      && (forall n :: n in l.caches.stores && StartsWith(n, CACHE_PREFIX) ==> EndsWith(n, v))
      && (forall n :: n in c.stores && !StartsWith(n, CACHE_PREFIX) ==> n in l.caches.stores && l.caches.stores[n] == c.stores[n])
      && (forall p :: p in PRECACHE_PATHS && Fetchable(net, p) ==> l.caches.Match(CACHE_PREFIX + v, p) == Some(net(p).resp))
  {
    var name := CACHE_PREFIX + v;
    var purged := Purge(c, CACHE_PREFIX, v);
    var l := Reconcile(current, c, Some(v), net);
    PopulateRoundTrip(purged, name, PRECACHE_PATHS, net);
    assert name[|name| - |v|..] == v;
    forall n | n in l.caches.stores && StartsWith(n, CACHE_PREFIX)
      ensures EndsWith(n, v)
    {
      if n != name {
        assert n in purged.stores;
      }
    }
    forall n | n in c.stores && !StartsWith(n, CACHE_PREFIX)
      ensures n in l.caches.stores && l.caches.stores[n] == c.stores[n]
    {
      assert n != name by {
        assert name[..|CACHE_PREFIX|] == CACHE_PREFIX;
      }
      assert n in purged.stores;
    }
  }

  /** `cleanupOldCaches` tests a suffix, like the root worker's purge. */
  lemma CleanupSparesSuffixMatches(c: Caches)
    requires "slopeplusweb-cache-v11.0" in c.stores
    ensures "slopeplusweb-cache-v11.0" in Purge(c, CACHE_PREFIX, "1.0").stores
  {
    var n := "slopeplusweb-cache-v11.0";
    assert n[|n| - |"1.0"|..] == "1.0";
  }

  class Worker {
    var currentVersion: Option<string>
    var hasCheckedVersion: bool
    var handlingMismatch: bool
    /** The origin's Cache API, shared with every other worker instance. */
    var caches: Caches
    /** Every reload broadcast this worker has sent, oldest first. */
    var broadcasts: seq<Message>
    /** How many times this worker has fetched the version file. */
    ghost var versionFetches: nat

    /** The store is well formed, and the worker broadcasts at most once in
        its lifetime: exactly once if the guard is set, never otherwise. */
    ghost predicate Valid()
      reads this
    {
      && caches.Valid()
      && (if handlingMismatch then broadcasts == [VersionUpdate] else broadcasts == [])
    }

    /** A fresh worker over the origin's existing caches. */
    constructor (existing: Caches)
      requires existing.Valid()
      ensures Valid()
      ensures currentVersion == None && !hasCheckedVersion && !handlingMismatch
      ensures caches == existing && broadcasts == [] && versionFetches == 0
    {
      currentVersion := None;
      hasCheckedVersion := false;
      handlingMismatch := false;
      caches := existing;
      broadcasts := [];
      versionFetches := 0;
    }

    /** `precache(version)`: `cache.add` stores a path only when its fetch
        succeeds with an ok status. */
    method Precache(version: string, net: Network)
      requires Valid()
      modifies this`caches
      ensures Valid()
      ensures caches == Precached(old(caches), version, net)
    {
      var name := CACHE_PREFIX + version;
      caches := FillCache(caches.Open(name), name, PRECACHE_PATHS, net);
    }

    /** `cleanupOldCaches(keepVersion)` */
    method CleanupOldCaches(keepVersion: string)
      requires Valid()
      modifies this`caches
      ensures Valid()
      ensures caches == CleanedUp(old(caches), keepVersion)
    {
      caches := Purge(caches, CACHE_PREFIX, keepVersion);
    }

    /** `notifyClientsVersionUpdate()`: only the first call of the worker's
        lifetime posts; the guard is never cleared. */
    method NotifyClientsVersionUpdate()
      requires Valid()
      modifies this`handlingMismatch, this`broadcasts
      ensures Valid() && handlingMismatch
      ensures broadcasts == [VersionUpdate]
      ensures old(handlingMismatch) ==> broadcasts == old(broadcasts)
    {
      if handlingMismatch {
        return;
      }
      handlingMismatch := true;
      broadcasts := broadcasts + [VersionUpdate];
    }

    /** The first-activation branch of `ensureVersionChecked()`: adopt the
        version, and precache it unless its cache already holds the shell. */
    method Adopt(newVersion: string, net: Network)
      requires Valid()
      modifies this`currentVersion, this`caches
      ensures Valid()
      ensures currentVersion == Some(newVersion) && caches == PrecachedIfMissing(old(caches), newVersion, net)
    {
      currentVersion := Some(newVersion);
      var name := CACHE_PREFIX + newVersion;
      caches := caches.Open(name);
      if caches.Match(name, SHELL).None? {
        Precache(newVersion, net);
      }
    }

    /** The mismatch branch of `ensureVersionChecked()`: purge the stale
        snapshots, then build the new one, adopt the version, notify. */
    method SwitchTo(newVersion: string, net: Network)
      requires Valid()
      modifies this`currentVersion, this`caches, this`handlingMismatch, this`broadcasts
      ensures Valid() && handlingMismatch
      ensures currentVersion == Some(newVersion) && caches == Precached(CleanedUp(old(caches), newVersion), newVersion, net)
    {
      CleanupOldCaches(newVersion);
      Precache(newVersion, net);
      currentVersion := Some(newVersion);
      NotifyClientsVersionUpdate();
    }

    /** The rest of `ensureVersionChecked()`, from the version fetch on. */
    method FinishCheck(net: Network) returns (status: Status)
      requires Valid()
      modifies this`currentVersion, this`caches, this`handlingMismatch, this`broadcasts, this`versionFetches
      ensures Valid()
      ensures var l := Reconcile(old(currentVersion), old(caches), FetchVersion(net), net);
        && status == l.status && currentVersion == l.current && caches == l.caches
        && handlingMismatch == (old(handlingMismatch) || l.status == Different)
      ensures versionFetches == old(versionFetches) + 1
    {
      var newVersion := FetchVersion(net);
      versionFetches := versionFetches + 1;
      if newVersion.None? {
        return Unknown;
      }
      if !Truthy(currentVersion) {
        Adopt(newVersion.value, net);
        return Same;
      }
      if newVersion.value != currentVersion.value {
        SwitchTo(newVersion.value, net);
        return Different;
      }
      return Same;
    }

    /** `ensureVersionChecked()`: `cached` at once in a checked epoch;
        otherwise the flag is set before the fetch and the check runs. */
    method EnsureVersionChecked(net: Network) returns (status: Status)
      requires Valid()
      modifies this`currentVersion, this`hasCheckedVersion, this`caches, this`handlingMismatch,
               this`broadcasts, this`versionFetches
      ensures Valid() && hasCheckedVersion
      ensures var l := Check(old(hasCheckedVersion), old(currentVersion), old(caches), net);
        && status == l.status && currentVersion == l.current && caches == l.caches
        && handlingMismatch == (old(handlingMismatch) || l.status == Different)
      ensures versionFetches == old(versionFetches) + if old(hasCheckedVersion) then 0 else 1
    {
      if hasCheckedVersion {
        return Cached;
      }
      hasCheckedVersion := true;
      status := FinishCheck(net);
    }

    /** The install handler: fetch the version and, when one is known,
        adopt it and precache it. */
    method Install(net: Network)
      requires Valid()
      modifies this`currentVersion, this`caches, this`versionFetches
      ensures Valid()
      ensures var v := FetchVersion(net);
        if Truthy(v) then currentVersion == v && caches == Precached(old(caches), v.value, net)
        else currentVersion == old(currentVersion) && caches == old(caches)
      ensures versionFetches == old(versionFetches) + 1
    {
      var v := FetchVersion(net);
      versionFetches := versionFetches + 1;
      if Truthy(v) {
        currentVersion := v;
        Precache(v.value, net);
      }
    }

    /** The activate handler: purge stale snapshots when a version is served. */
    method Activate()
      requires Valid()
      modifies this`caches
      ensures Valid()
      ensures caches == if Truthy(currentVersion) then CleanedUp(old(caches), currentVersion.value) else old(caches)
    {
      if Truthy(currentVersion) {
        CleanupOldCaches(currentVersion.value);
      }
    }

    /** The fetch handler. Non-GET requests pass through untouched. A GET
        with `vcheck` in its query opens a new epoch first. The version file
        goes to the network with the version served as offline answer.
        Every other GET first runs the version check to completion when the
        epoch is unchecked, then runs the generic chain with the version the
        check left. */
    method HandleFetch(req: Request, net: Network) returns (reply: Reply)
      requires Valid()
      modifies this`currentVersion, this`hasCheckedVersion, this`caches, this`handlingMismatch,
               this`broadcasts, this`versionFetches
      ensures Valid()
      ensures req.verb != "GET" ==>
        && reply == PassThrough && hasCheckedVersion == old(hasCheckedVersion)
        && currentVersion == old(currentVersion) && caches == old(caches) && versionFetches == old(versionFetches)
        && handlingMismatch == old(handlingMismatch) && broadcasts == old(broadcasts)
      ensures req.verb == "GET" && req.path == VERSION_FILE ==>
        && reply == VersionFileReply(currentVersion, net)
        && hasCheckedVersion == (old(hasCheckedVersion) && !req.vcheck)
        && currentVersion == old(currentVersion) && caches == old(caches) && versionFetches == old(versionFetches)
        && handlingMismatch == old(handlingMismatch) && broadcasts == old(broadcasts)
      ensures req.verb == "GET" && req.path != VERSION_FILE ==>
        var l := Check(old(hasCheckedVersion) && !req.vcheck, old(currentVersion), old(caches), net);
        && hasCheckedVersion && currentVersion == l.current
        && handlingMismatch == (old(handlingMismatch) || l.status == Different)
        && (reply, caches) == AssetOutcome(l.caches, CACHE_PREFIX, l.current, PRECACHE_PATHS, req.path, net)
        && versionFetches == old(versionFetches) + if old(hasCheckedVersion) && !req.vcheck then 0 else 1
    {
      if req.verb != "GET" {
        return PassThrough;
      }
      if req.vcheck {
        hasCheckedVersion := false;
      }
      if req.path == VERSION_FILE {
        return VersionFileReply(currentVersion, net);
      }
      if !hasCheckedVersion {
        var _ := EnsureVersionChecked(net);
      }
      reply, caches := AssetChain(caches, CACHE_PREFIX, currentVersion, PRECACHE_PATHS, req.path, net);
    }

    /** The message handler: `FORCE_VERSION_CHECK` opens a new epoch and runs
        the check; anything else, or no data, is ignored. */
    method HandleMessage(msgType: Option<string>, net: Network)
      requires Valid()
      modifies this`currentVersion, this`hasCheckedVersion, this`caches, this`handlingMismatch,
               this`broadcasts, this`versionFetches
      ensures Valid()
      ensures msgType == Some("FORCE_VERSION_CHECK") ==>
        var l := Reconcile(old(currentVersion), old(caches), FetchVersion(net), net);
        && hasCheckedVersion && currentVersion == l.current && caches == l.caches
        && handlingMismatch == (old(handlingMismatch) || l.status == Different)
        && versionFetches == old(versionFetches) + 1
      ensures msgType != Some("FORCE_VERSION_CHECK") ==>
        && currentVersion == old(currentVersion) && caches == old(caches)
        && hasCheckedVersion == old(hasCheckedVersion) && handlingMismatch == old(handlingMismatch)
        && broadcasts == old(broadcasts) && versionFetches == old(versionFetches)
    {
      if msgType == Some("FORCE_VERSION_CHECK") {
        hasCheckedVersion := false;
        var _ := EnsureVersionChecked(net);
      }
    }
  }
}
