/** The root-scope service worker (sw.js): a versioned snapshot of the site's
    assets, a version check run at most once per epoch, a fetch router with a
    navigation fallback chain, and a one-shot reload broadcast. */
module RootWorker {
  import opened JsText
  import opened SnapshotStore
  import opened WorkerCommon

  const CACHE_PREFIX: string := "spw-v"

  /** The site shell; also the sentinel a first activation probes for. */
  const SHELL: string := "/index.html"

  /** The manifest precached for every version, in order. */
  const ASSETS: seq<string> := [
    "/", "/index.html", "/style.css", "/manifest.json", "/icon.png", "/sitemap.xml",
    "/Build/SlopePlusWeb.asm.code.unityweb", "/Build/SlopePlusWeb.asm.framework.unityweb",
    "/Build/SlopePlusWeb.asm.memory.unityweb", "/Build/SlopePlusWeb.data.unityweb",
    "/Build/SlopePlusWeb.json", "/Build/SlopePlusWeb.wasm.code.unityweb",
    "/Build/SlopePlusWeb.wasm.framework.unityweb", "/Build/UnityLoader.js",
    "/Patches/mobile.js", "/Patches/settings.js", "/Patches/freezegame.js",
    "/TemplateData/style.css", "/TemplateData/UnityProgress.js", "/TemplateData/favicon.ico",
    "/TemplateData/fullscreen.png", "/TemplateData/progressEmpty.Dark.png",
    "/TemplateData/progressFull.Dark.png", "/TemplateData/progressLogo.Dark.png",
    "/TemplateData/webgl-logo.png", "/TemplateData/download.svg",
    "/home/index.html", "/home/style.css", "/home/icon.png", "/home/keyboard.png",
    "/home/play.png", "/home/wallpaper.png", "/home/github-icon.png", "/home/githubpushes.js",
    "/home/Inter18pt-Medium.woff", "/home/Inter18pt-Medium.woff2",
    "/home/Inter18pt-Regular.woff", "/home/Inter18pt-Regular.woff2",
    "/home/medium.ttf", "/home/regular.ttf",
    "/PWA/192.png", "/PWA/512.png", "/PWA/icon.png"
  ]

  /** The caches after `precache(version)`. */
  function Precached(c: Caches, version: string, net: Network): Caches {
    Populate(c, CACHE_PREFIX + version, ASSETS, net)
  }

  /** The caches after `cleanOld(keep)`. */
  function CleanedUp(c: Caches, keep: string): Caches {
    Purge(c, CACHE_PREFIX, keep)
  }

  /** The caches after a first activation: the version's cache is opened and
      precached unless it already holds the shell. */
  function PrecachedIfMissing(c: Caches, version: string, net: Network): Caches {
    PopulateIfMissing(c, CACHE_PREFIX + version, SHELL, ASSETS, net)
  }

  /** Messages posted to pages: the reload broadcast, and the answer to a
      version query. */
  datatype Message = VersionUpdate(version: Option<string>) | VersionInfo(version: Option<string>)

  // ---------------------------------------------------------------------------
  // Version reconciliation

  /** Where one version check lands: the version in use, the caches, and
      whether `notifyClients` is called. */
  datatype Landing = Landing(active: Option<string>, caches: Caches, notify: bool)

  /** The decision `ensureVersion` takes after its fetch, given the version in
      use, the caches and the fetched version (null when offline): offline
      changes nothing; with no version in use (null or empty) the fetched one
      is adopted and its snapshot populated only if the shell is missing, with
      no notification; a different version is populated, then stale snapshots
      are purged, then it is adopted and the pages are notified; the same
      version changes nothing. */
  function Reconcile(active: Option<string>, c: Caches, latest: Option<string>, net: Network): (l: Landing)
    ensures latest.None? ==> l == Landing(active, c, false)
    ensures latest.Some? ==> l.active == latest
    ensures l.notify <==> latest.Some? && Truthy(active) && latest.value != active.value
    ensures Truthy(active) && latest == active ==> l == Landing(active, c, false)
  {
    match latest
    case None => Landing(active, c, false)
    case Some(v) =>
      if !Truthy(active) then
        Landing(latest, PrecachedIfMissing(c, v, net), false)
      else if v != active.value then
        Landing(latest, CleanedUp(Precached(c, v, net), v), true)
      else
        Landing(active, c, false)
  }

  /** After a version change every versioned cache left ends with the new
      version, the new snapshot is there and holds every asset the network
      served, and a notification is due. */
  lemma VersionChangeRetainsOnlyNewSnapshot(active: Option<string>, c: Caches, v: string, net: Network)
    requires Truthy(active) && v != active.value
    ensures var l := Reconcile(active, c, Some(v), net);
      && l.active == Some(v) && l.notify
      && (forall n :: n in l.caches.stores && StartsWith(n, CACHE_PREFIX) ==> EndsWith(n, v))
      && CACHE_PREFIX + v in l.caches.stores
      && (forall p :: p in ASSETS && Fetchable(net, p) ==> l.caches.Match(CACHE_PREFIX + v, p) == Some(net(p).resp))
  {
    var name := CACHE_PREFIX + v;
    var populated := Populate(c, name, ASSETS, net);
    PopulateRoundTrip(c, name, ASSETS, net);
    assert name[..|CACHE_PREFIX|] == CACHE_PREFIX && name[|name| - |v|..] == v;
    assert !Stale(CACHE_PREFIX, v, name);
    var l := Reconcile(active, c, Some(v), net);
    forall p | p in ASSETS && Fetchable(net, p)
      ensures l.caches.Match(name, p) == Some(net(p).resp)
    {
      assert populated.Match(name, p) == Some(net(p).resp);
    }
  }

  /** A first activation adopts the fetched version without notifying; when
      the shell is already in that version's cache nothing is fetched and
      nothing but the (existing) cache is opened, otherwise every fetchable
      asset ends up in it. */
  lemma FirstActivationAdopts(active: Option<string>, c: Caches, v: string, net: Network)
    requires !Truthy(active)
    ensures var l := Reconcile(active, c, Some(v), net);
      && l.active == Some(v) && !l.notify
      && (c.Match(CACHE_PREFIX + v, SHELL).Some? ==> l.caches == c)
      && (c.Match(CACHE_PREFIX + v, SHELL).None? ==>
            forall p :: p in ASSETS && Fetchable(net, p) ==> l.caches.Match(CACHE_PREFIX + v, p) == Some(net(p).resp))
  {
    var name := CACHE_PREFIX + v;
    if c.Match(name, SHELL).None? {
      PopulateRoundTrip(c.Open(name), name, ASSETS, net);
      assert c.Open(name).Open(name) == c.Open(name);
    }
  }

  /** `cleanOld` tests a suffix: a cache of another version whose name
      happens to end with the kept version survives the purge. */
  lemma CleanOldSparesSuffixMatches(c: Caches)
    requires "spw-v11.0" in c.stores
    ensures "spw-v11.0" in Purge(c, CACHE_PREFIX, "1.0").stores
  {
    assert "spw-v11.0"[|"spw-v11.0"| - |"1.0"|..] == "1.0";
  }

  // ---------------------------------------------------------------------------
  // Navigation requests

  predicate IsAlnum(ch: char) {
    'a' <= ch <= 'z' || 'A' <= ch <= 'Z' || '0' <= ch <= '9'
  }

  /** Length of the run of ASCII letters and digits that ends the path. */
  function AlnumRun(p: string): (k: nat)
    ensures k <= |p|
    ensures forall j :: |p| - k <= j < |p| ==> IsAlnum(p[j])
    ensures k < |p| ==> !IsAlnum(p[|p| - k - 1])
  {
    if p != [] && IsAlnum(p[|p| - 1]) then AlnumRun(p[..|p| - 1]) + 1 else 0
  }

  /** `/\.[a-zA-Z0-9]+$/.test(p)` */
  predicate HasExtension(p: string) {
    var k := AlnumRun(p);
    0 < k < |p| && p[|p| - k - 1] == '.'
  }

  /** The run-length test is the regular expression: some dot is followed
      only by letters and digits, at least one, up to the end. */
  lemma HasExtensionMeans(p: string)
    ensures HasExtension(p) <==>
            exists i :: 0 <= i < |p| - 1 && p[i] == '.' && forall j :: i < j < |p| ==> IsAlnum(p[j])
  {
    var k := AlnumRun(p);
    if HasExtension(p) {
      var i := |p| - k - 1;
      assert forall j :: i < j < |p| ==> IsAlnum(p[j]);
    }
    if i :| 0 <= i < |p| - 1 && p[i] == '.' && forall j :: i < j < |p| ==> IsAlnum(p[j]) {
      assert !IsAlnum(p[i]);
      assert k == |p| - 1 - i;
    }
  }

  predicate EndsWithIndex(p: string) {
    EndsWith(p, "index.html")
  }

  lemma IndexSuffix(p: string)
    ensures EndsWithIndex(p + "index.html") && EndsWithIndex(p + "/index.html")
  {
    var a := p + "index.html";
    var b := p + "/index.html";
    assert a[|a| - 10..] == "index.html";
    assert b[|b| - 10..] == "index.html";
  }

  /** The candidates the handler pushes before the shell fallback: a
      directory index derived from an extensionless path, the index of a
      path ending in a slash, and the path itself. */
  function Pushed(reqPath: string): (c: seq<string>)
    ensures 1 <= |c| <= 3 && c[|c| - 1] == reqPath
    ensures EndsWith(reqPath, "/") ==> |c| >= 2 && c[|c| - 2] == reqPath + "index.html"
    ensures reqPath != "/" && !HasExtension(reqPath) ==>
              c[0] == if EndsWith(reqPath, "/") then reqPath + "index.html" else reqPath + "/index.html"
    ensures forall i :: 0 <= i < |c| - 1 ==> EndsWithIndex(c[i])
  {
    IndexSuffix(reqPath);
    var dir := if reqPath != "/" && !HasExtension(reqPath) then
                 (if EndsWith(reqPath, "/") then [reqPath + "index.html"] else [reqPath + "/index.html"])
               else [];
    var slash := if EndsWith(reqPath, "/") then [reqPath + "index.html"] else [];
    dir + slash + [reqPath]
  }

  /** `if (!xs.includes(x)) xs.push(x)` */
  function AppendIfAbsent(xs: seq<string>, x: string): (r: seq<string>)
    ensures |r| == if x in xs then |xs| else |xs| + 1
    ensures forall i :: 0 <= i < |xs| ==> r[i] == xs[i]
    ensures x !in xs ==> r[|xs|] == x
  {
    if x in xs then xs else xs + [x]
  }

  /** The shell documents a navigation tries, in order: the pushed
      candidates, then the site shell unless already listed. The path and
      the shell are always tried, the shell last unless the path is. */
  function Candidates(reqPath: string): (c: seq<string>)
    ensures reqPath in c && SHELL in c
    ensures 1 <= |c| <= 4
    ensures c[|c| - 1] == SHELL || c[|c| - 1] == reqPath
  {
    var listed := Pushed(reqPath);
    var c := AppendIfAbsent(listed, SHELL);
    assert c[|listed| - 1] == reqPath;
    c
  }

  /** An extensionless path, the root included, is tried first as a
      directory index. */
  lemma CandidatesStartWithDirectoryIndex(reqPath: string)
    requires !HasExtension(reqPath)
    ensures Candidates(reqPath)[0] == if EndsWith(reqPath, "/") then reqPath + "index.html" else reqPath + "/index.html"
  {
    var listed := Pushed(reqPath);
    if reqPath == "/" {
      assert EndsWith(reqPath, "/");
      assert listed == [] + ["/" + "index.html"] + ["/"];
    }
    assert Candidates(reqPath)[0] == listed[0];
  }

  /** Every candidate other than the path itself is an index document. */
  lemma CandidatesAreIndexes(reqPath: string)
    ensures var c := Candidates(reqPath);
      forall i :: 0 <= i < |c| && c[i] != reqPath ==> EndsWithIndex(c[i])
  {
    var listed := Pushed(reqPath);
    var c := Candidates(reqPath);
    assert SHELL[|SHELL| - 10..] == "index.html";
    forall i | 0 <= i < |c| && c[i] != reqPath
      ensures EndsWithIndex(c[i])
    {
      if i < |listed| {
        assert c[i] == listed[i];
      } else {
        assert c[i] == SHELL;
      }
    }
  }

  predicate IsPageShell(p: string) {
    EndsWith(p, "/index.html") && p != SHELL
  }

  /** The position of the first page-specific index among the candidates,
      or their count when there is none. */
  function PageShellIndex(cands: seq<string>): (i: nat)
    ensures i <= |cands|
    ensures i < |cands| ==> IsPageShell(cands[i])
    ensures forall j :: 0 <= j < i ==> !IsPageShell(cands[j])
  {
    if cands == [] || IsPageShell(cands[0]) then 0
    else
      var i := PageShellIndex(cands[1..]);
      assert forall j :: 1 <= j < i + 1 ==> cands[j] == cands[1..][j - 1];
      i + 1
  }

  /** `candidates.find(p => p.endsWith('/index.html') && p !== '/index.html')` */
  function FirstPageShell(cands: seq<string>): (r: Option<string>)
    ensures r.None? <==> forall p :: p in cands ==> !IsPageShell(p)
    ensures r.Some? ==> IsPageShell(r.value)
    ensures r.Some? ==> exists i :: (0 <= i < |cands| && cands[i] == r.value
                                     && forall j :: 0 <= j < i ==> !IsPageShell(cands[j]))
  {
    var i := PageShellIndex(cands);
    if i < |cands| then Some(cands[i]) else None
  }

  /** The on-demand caching of a path-specific page shell: with a version in
      use, the first page-specific index is fetched and stored in that
      version's cache when it is missing there and the network serves it. */
  function PrimeShell(c: Caches, active: Option<string>, cands: seq<string>, net: Network): (r: Caches)
    ensures c.Valid() ==> r.Valid()
    ensures !Truthy(active) || FirstPageShell(cands).None? ==> r == c
    ensures Truthy(active) && FirstPageShell(cands).Some? ==>
      var name := CACHE_PREFIX + active.value;
      var page := FirstPageShell(cands).value;
      && r.stores.Keys == c.stores.Keys + {name}
      && r.Match(name, page) == (if c.Match(name, page).None? && Fetchable(net, page) then Some(net(page).resp)
                                 else c.Match(name, page))
      && (forall k :: k != page ==> r.Match(name, k) == c.Match(name, k))
      && (forall n :: n in c.stores && n != name ==> r.stores[n] == c.stores[n])
  {
    var page := FirstPageShell(cands);
    if Truthy(active) && page.Some? then
      var name := CACHE_PREFIX + active.value;
      var cOpen := c.Open(name);
      if cOpen.Match(name, page.value).None? && Fetchable(net, page.value)
      then cOpen.Put(name, page.value, net(page.value).resp) else cOpen
    else c
  }

  const OFFLINE_HEAD: string := "<!DOCTYPE html><html><head><meta charset=\"utf-8\"><title>Offline</title></head><body><h1>Offline</h1><p>The page <code>"
  const OFFLINE_TAIL: string := "</code> is not cached.</p><p>Try again when you are back online.</p></body></html>"

  /** The offline notice for a navigation nothing can serve: status 503, the
      requested path quoted in the page. */
  function OfflinePage(reqPath: string): (r: Resp)
    ensures r.status == 503 && !r.Ok()
    ensures |OFFLINE_HEAD| + |reqPath| <= |r.body|
    ensures r.body[|OFFLINE_HEAD|..|OFFLINE_HEAD| + |reqPath|] == reqPath
  {
    Resp(503, OFFLINE_HEAD + reqPath + OFFLINE_TAIL)
  }

  /** The navigation lookup over caches already holding the version in use's
      cache: that cache first, candidate by candidate; then every other
      versioned cache in creation order; then the network; then the offline
      notice. */
  function ShellOutcome(c: Caches, active: Option<string>, cands: seq<string>, reqPath: string, net: Network): Reply {
    match ActiveHit(c, CACHE_PREFIX, active, cands)
    case Some(r) => Serve(r)
    case None =>
      match ScanCaches(c, c.names, CACHE_PREFIX, Some(JsConcat(CACHE_PREFIX, active)), cands)
      case Some(r) => Serve(r)
      case None =>
        match net(reqPath)
        case Answer(r) => Serve(r)
        case NetworkError => Serve(OfflinePage(reqPath))
  }

  /** The versioned caches a navigation searches: all of them when a version
      is in use; otherwise all but the one named `spw-v` + "null" or `spw-v`,
      which the loop skips although no active lookup ran. */
  predicate Searched(c: Caches, active: Option<string>, n: string) {
    n in c.names && n in c.stores && StartsWith(n, CACHE_PREFIX)
    && (Truthy(active) || n != JsConcat(CACHE_PREFIX, active))
  }

  /** A navigation is never a network error: it is served from a searched
      cache when any holds a candidate, and it is the offline notice exactly
      when the network is down too. */
  lemma NavigationFallback(c: Caches, active: Option<string>, cands: seq<string>, reqPath: string, net: Network)
    requires Truthy(active) ==> CACHE_PREFIX + active.value in c.stores && CACHE_PREFIX + active.value in c.names
    ensures ShellOutcome(c, active, cands, reqPath, net).Serve?
    ensures (exists n, k :: Searched(c, active, n) && k in cands && k in c.stores[n]) ==>
              exists n, k :: Searched(c, active, n) && k in cands && k in c.stores[n]
                             && ShellOutcome(c, active, cands, reqPath, net) == Serve(c.stores[n][k])
    ensures ActiveHit(c, CACHE_PREFIX, active, cands).Some? ==>
              ShellOutcome(c, active, cands, reqPath, net) == Serve(ActiveHit(c, CACHE_PREFIX, active, cands).value)
    ensures (forall n, k :: Searched(c, active, n) && k in cands ==> k !in c.stores[n]) && net(reqPath).Answer? ==>
              ShellOutcome(c, active, cands, reqPath, net) == Serve(net(reqPath).resp)
    ensures (forall n, k :: Searched(c, active, n) && k in cands ==> k !in c.stores[n]) && net(reqPath).NetworkError? ==>
              ShellOutcome(c, active, cands, reqPath, net) == Serve(OfflinePage(reqPath))
  {
    var skip := Some(JsConcat(CACHE_PREFIX, active));
    var activeHit := ActiveHit(c, CACHE_PREFIX, active, cands);
    var scanned := ScanCaches(c, c.names, CACHE_PREFIX, skip, cands);
    if Truthy(active) {
      var name := CACHE_PREFIX + active.value;
      assert JsConcat(CACHE_PREFIX, active) == name;
      assert name[..|CACHE_PREFIX|] == CACHE_PREFIX;
      if activeHit.Some? {
        var i :| 0 <= i < |cands| && cands[i] in c.stores[name] && c.stores[name][cands[i]] == activeHit.value
                 && forall j :: 0 <= j < i ==> cands[j] !in c.stores[name];
        assert Searched(c, active, name) && cands[i] in cands;
      }
      forall n, k | Searched(c, active, n) && k in cands && k in c.stores[n] && activeHit.None?
        ensures scanned.Some?
      {
        assert n != name;
        assert Eligible(CACHE_PREFIX, skip, n);
      }
    } else {
      forall n, k | Searched(c, active, n) && k in cands && k in c.stores[n]
        ensures scanned.Some?
      {
        assert Eligible(CACHE_PREFIX, skip, n);
      }
    }
    if activeHit.None? && scanned.Some? {
      var n, k :| n in c.names && Eligible(CACHE_PREFIX, skip, n) && n in c.stores && k in cands
                  && k in c.stores[n] && c.stores[n][k] == scanned.value;
      assert Searched(c, active, n);
    }
  }

  /** The navigation lookups with their loops and early returns. */
  method ShellChain(c: Caches, active: Option<string>, cands: seq<string>, reqPath: string, net: Network)
    returns (reply: Reply)
    ensures reply == ShellOutcome(c, active, cands, reqPath, net)
  {
    if Truthy(active) && CACHE_PREFIX + active.value in c.stores {
      var hit := LookupFirst(c.stores[CACHE_PREFIX + active.value], cands);
      if hit.Some? {
        return Serve(hit.value);
      }
    }
    var other := Scan(c, CACHE_PREFIX, Some(JsConcat(CACHE_PREFIX, active)), cands);
    if other.Some? {
      return Serve(other.value);
    }
    match net(reqPath) {
      case Answer(r) => reply := Serve(r);
      case NetworkError => reply := Serve(OfflinePage(reqPath));
    }
  }

  /** Every URL ending in a slash counts as a manifest member, because "/" is
      in the manifest and the membership test is a suffix test. */
  lemma EveryDirectoryUrlIsInManifest(url: string)
    requires EndsWith(url, "/")
    ensures InManifest(url, ASSETS)
  {
    assert ASSETS[0] == "/";
  }

  // ---------------------------------------------------------------------------
  // The worker's module state and its event handlers

  class Worker {
    var activeVersion: Option<string>
    var versionChecked: bool
    var reloadNotified: bool
    /** The origin's Cache API, shared with every other worker instance. */
    var caches: Caches
    /** Every reload broadcast this worker has sent, oldest first. */
    var broadcasts: seq<Message>
    /** How many times this worker has fetched the version file. */
    ghost var versionFetches: nat

    /** The store is well formed, and the worker broadcasts at most once in
        its lifetime: exactly once if the guard is set, never otherwise. */
    ghost predicate Valid()
      reads this
    {
      && caches.Valid()
      && (if reloadNotified then |broadcasts| == 1 && broadcasts[0].VersionUpdate? else broadcasts == [])
    }

    /** A fresh worker over the origin's existing caches. */
    constructor (existing: Caches)
      requires existing.Valid()
      ensures Valid()
      ensures activeVersion == None && !versionChecked && !reloadNotified
      ensures caches == existing && broadcasts == [] && versionFetches == 0
    {
      activeVersion := None;
      versionChecked := false;
      reloadNotified := false;
      caches := existing;
      broadcasts := [];
      versionFetches := 0;
    }

    /** `precache(version)` */
    method Precache(version: string, net: Network)
      requires Valid()
      modifies this`caches
      ensures Valid()
      ensures caches == Precached(old(caches), version, net)
    {
      var name := CACHE_PREFIX + version;
      caches := FillCache(caches.Open(name), name, ASSETS, net);
    }

    /** `cleanOld(keep)` */
    method CleanOld(keep: string)
      requires Valid()
      modifies this`caches
      ensures Valid()
      ensures caches == CleanedUp(old(caches), keep)
    {
      caches := Purge(caches, CACHE_PREFIX, keep);
    }

    /** `notifyClients()`: the guard is set on the first call and never
        cleared, so only the first call of the worker's lifetime posts. */
    method NotifyClients()
      requires Valid()
      modifies this`reloadNotified, this`broadcasts
      ensures Valid() && reloadNotified
      ensures broadcasts == if old(reloadNotified) then old(broadcasts) else old(broadcasts) + [VersionUpdate(activeVersion)]
    {
      if reloadNotified {
        return;
      }
      reloadNotified := true;
      broadcasts := broadcasts + [VersionUpdate(activeVersion)];
    }

    /** The synchronous start of `ensureVersion()`: it returns at once when the
        epoch is already checked, and otherwise sets the flag before its
        first suspension. */
    method BeginCheck() returns (started: bool)
      modifies this`versionChecked
      ensures started == !old(versionChecked) && versionChecked
    {
      if versionChecked {
        return false;
      }
      versionChecked := true;
      started := true;
    }

    /** The first-activation branch of `ensureVersion()`: adopt the version,
        and precache it unless its cache already holds the shell. */
    method Adopt(latest: string, net: Network)
      requires Valid()
      modifies this`activeVersion, this`caches
      ensures Valid()
      ensures activeVersion == Some(latest) && caches == PrecachedIfMissing(old(caches), latest, net)
    {
      activeVersion := Some(latest);
      var name := CACHE_PREFIX + latest;
      caches := caches.Open(name);
      if caches.Match(name, SHELL).None? {
        Precache(latest, net);
      }
    }

    /** The version-change branch of `ensureVersion()`: build the new
        snapshot, purge the stale ones, adopt the version, notify. */
    method SwitchTo(latest: string, net: Network)
      requires Valid()
      modifies this`activeVersion, this`caches, this`reloadNotified, this`broadcasts
      ensures Valid() && reloadNotified
      ensures activeVersion == Some(latest) && caches == CleanedUp(Precached(old(caches), latest, net), latest)
      ensures broadcasts == if old(reloadNotified) then old(broadcasts) else old(broadcasts) + [VersionUpdate(Some(latest))]
    {
      Precache(latest, net);
      CleanOld(latest);
      activeVersion := Some(latest);
      NotifyClients();
    }

    /** What `ensureVersion()` does with the fetched version. */
    method Land(latest: Option<string>, net: Network)
      requires Valid()
      modifies this`activeVersion, this`caches, this`reloadNotified, this`broadcasts
      ensures Valid()
      ensures var l := Reconcile(old(activeVersion), old(caches), latest, net);
        && activeVersion == l.active && caches == l.caches
        && reloadNotified == (old(reloadNotified) || l.notify)
        && broadcasts == if l.notify && !old(reloadNotified) then old(broadcasts) + [VersionUpdate(l.active)] else old(broadcasts)
    {
      if latest.None? {
        return;
      }
      if !Truthy(activeVersion) {
        Adopt(latest.value, net);
      } else if latest.value != activeVersion.value {
        SwitchTo(latest.value, net);
      }
    }

    /** The rest of `ensureVersion()`, from the version fetch on. */
    method FinishCheck(net: Network)
      requires Valid()
      modifies this`activeVersion, this`caches, this`reloadNotified, this`broadcasts, this`versionFetches
      ensures Valid()
      ensures var l := Reconcile(old(activeVersion), old(caches), FetchVersion(net), net);
        && activeVersion == l.active && caches == l.caches
        && reloadNotified == (old(reloadNotified) || l.notify)
        && broadcasts == if l.notify && !old(reloadNotified) then old(broadcasts) + [VersionUpdate(l.active)] else old(broadcasts)
      ensures versionFetches == old(versionFetches) + 1
    {
      var latest := FetchVersion(net);
      versionFetches := versionFetches + 1;
      Land(latest, net);
    }

    /** `ensureVersion()` run to completion: once the epoch is checked it
        neither fetches nor touches anything. */
    method EnsureVersion(net: Network)
      requires Valid()
      modifies this
      ensures Valid() && versionChecked
      ensures old(versionChecked) ==>
        && activeVersion == old(activeVersion) && caches == old(caches)
        && reloadNotified == old(reloadNotified) && broadcasts == old(broadcasts)
        && versionFetches == old(versionFetches)
      ensures !old(versionChecked) ==>
        var l := Reconcile(old(activeVersion), old(caches), FetchVersion(net), net);
        && activeVersion == l.active && caches == l.caches
        && reloadNotified == (old(reloadNotified) || l.notify)
        && broadcasts == (if l.notify && !old(reloadNotified) then old(broadcasts) + [VersionUpdate(l.active)] else old(broadcasts))
        && versionFetches == old(versionFetches) + 1
    {
      var started := BeginCheck();
      if started {
        FinishCheck(net);
      }
    }

    /** The install handler: fetch the version and, when one is known,
        adopt it and precache it. The epoch flag is left alone. */
    method Install(net: Network)
      requires Valid()
      modifies this`activeVersion, this`caches, this`versionFetches
      ensures Valid()
      ensures var v := FetchVersion(net);
        if Truthy(v) then activeVersion == v && caches == Precached(old(caches), v.value, net)
        else activeVersion == old(activeVersion) && caches == old(caches)
      ensures versionFetches == old(versionFetches) + 1
    {
      var v := FetchVersion(net);
      versionFetches := versionFetches + 1;
      if Truthy(v) {
        activeVersion := v;
        Precache(v.value, net);
      }
    }

    /** The activate handler: purge stale snapshots when a version is in use. */
    method Activate()
      requires Valid()
      modifies this`caches
      ensures Valid()
      ensures caches == if Truthy(activeVersion) then CleanedUp(old(caches), activeVersion.value) else old(caches)
    {
      if Truthy(activeVersion) {
        CleanOld(activeVersion.value);
      }
    }

    /** The fetch handler. Non-GET requests pass through; the version file goes
        to the network with the version in use as offline answer; navigations
        and the root path run the shell chain; everything else runs the
        generic chain. Both chains start the version check without waiting
        for it (`checkStarted`), so they route with the version in use
        before the check; the caller runs `FinishCheck` afterwards when it
        was started. */
    method HandleFetch(req: Request, net: Network) returns (reply: Reply, checkStarted: bool)
      requires Valid()
      modifies this`versionChecked, this`caches
      ensures Valid()
      ensures req.verb != "GET" || req.path == VERSION_FILE ==>
        && !checkStarted && versionChecked == old(versionChecked) && caches == old(caches)
        && reply == if req.verb != "GET" then PassThrough else VersionFileReply(activeVersion, net)
      ensures req.verb == "GET" && req.path != VERSION_FILE ==>
        checkStarted == !old(versionChecked) && versionChecked
      ensures req.verb == "GET" && req.path != VERSION_FILE && (req.navigate || req.path == "/") ==>
        var cands := Candidates(req.path);
        && caches == OpenActive(PrimeShell(old(caches), activeVersion, cands, net), CACHE_PREFIX, activeVersion)
        && reply == ShellOutcome(caches, activeVersion, cands, req.path, net)
      ensures req.verb == "GET" && req.path != VERSION_FILE && !(req.navigate || req.path == "/") ==>
        (reply, caches) == AssetOutcome(old(caches), CACHE_PREFIX, activeVersion, ASSETS, req.path, net)
    {
      checkStarted := false;
      if req.verb != "GET" {
        return PassThrough, false;
      }
      if req.path == VERSION_FILE {
        return VersionFileReply(activeVersion, net), false;
      }
      if req.navigate || req.path == "/" {
        checkStarted := BeginCheck();
        var cands := Candidates(req.path);
        var primed := PrimeShell(caches, activeVersion, cands, net);
        assert primed.Valid();
        caches := OpenActive(primed, CACHE_PREFIX, activeVersion);
        reply := ShellChain(caches, activeVersion, cands, req.path, net);
        return;
      }
      checkStarted := BeginCheck();
      reply, caches := AssetChain(caches, CACHE_PREFIX, activeVersion, ASSETS, req.path, net);
    }

    /** The message handler: `FORCE_CHECK` opens a new epoch and runs the
        check; `GET_VERSION` answers with the version in use; anything else,
        or no data, is ignored. */
    method HandleMessage(msgType: Option<string>, net: Network) returns (answer: Option<Message>)
      requires Valid()
      modifies this
      ensures Valid()
      ensures msgType == Some("FORCE_CHECK") ==>
        var l := Reconcile(old(activeVersion), old(caches), FetchVersion(net), net);
        && answer.None? && versionChecked
        && activeVersion == l.active && caches == l.caches
        && reloadNotified == (old(reloadNotified) || l.notify)
        && broadcasts == (if l.notify && !old(reloadNotified) then old(broadcasts) + [VersionUpdate(l.active)] else old(broadcasts))
        && versionFetches == old(versionFetches) + 1
      ensures msgType != Some("FORCE_CHECK") ==>
        && activeVersion == old(activeVersion) && caches == old(caches) && versionChecked == old(versionChecked)
        && reloadNotified == old(reloadNotified) && broadcasts == old(broadcasts)
        && versionFetches == old(versionFetches)
        && answer == if msgType == Some("GET_VERSION") then Some(VersionInfo(activeVersion)) else None
    {
      answer := None;
      if msgType == Some("FORCE_CHECK") {
        versionChecked := false;
        EnsureVersion(net);
      } else if msgType == Some("GET_VERSION") {
        answer := Some(VersionInfo(activeVersion));
      }
    }
  }
}
