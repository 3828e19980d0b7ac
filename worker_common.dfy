/** What the root worker (sw.js) and the PWA worker (PWA/sw.js) share word for
    word: the version oracle, the answer for the version file, and the
    generic cache / network / any-version chain for asset requests. Each
    worker supplies its own cache prefix and manifest. */
module WorkerCommon {
  import opened JsText
  import opened SnapshotStore

  const VERSION_FILE: string := "/version.txt"

  /** A request as the fetch handler sees it: its HTTP method, the URL path
      (which is also the cache key), whether the browser marked it as a
      navigation, and whether its query string carries `vcheck`. */
  datatype Request = Request(verb: string, path: string, navigate: bool, vcheck: bool)

  /** What a fetch handler does with a request: leave it to the browser (no
      `respondWith`), answer with a response, or answer with a rejected
      promise (the page sees a network error). */
  datatype Reply = PassThrough | Serve(resp: Resp) | Rejected

  /** `v || ''` */
  function OrEmpty(v: Option<string>): string {
    if Truthy(v) then v.value else ""
  }

  /** `prefix + v`, where a null `v` is spelled "null". */
  function JsConcat(prefix: string, v: Option<string>): string {
    prefix + (if v.Some? then v.value else "null")
  }

  /** `fetchVersion()`: the trimmed body of the version file, or null when the
      fetch is rejected or its status is not ok. An empty body is a version
      (the empty string), not null. */
  function FetchVersion(net: Network): (v: Option<string>)
    ensures v.None? <==> !Fetchable(net, VERSION_FILE)
    ensures v.Some? ==> v.value == [] || (!IsSpace(v.value[0]) && !IsSpace(v.value[|v.value| - 1]))
  {
    if Fetchable(net, VERSION_FILE) then Some(Trim(net(VERSION_FILE).resp.body)) else None
  }

  /** White space around the version file's text does not change the version. */
  lemma FetchVersionIgnoresPadding(net: Network, pre: string, core: string, post: string)
    requires Fetchable(net, VERSION_FILE)
    requires net(VERSION_FILE).resp.body == pre + core + post
    requires AllSpace(pre) && AllSpace(post)
    requires core == [] || (!IsSpace(core[0]) && !IsSpace(core[|core| - 1]))
    ensures FetchVersion(net) == Some(core)
  {
    TrimPadded(pre, core, post);
  }

  /** The answer for a GET of the version file: whatever the network says,
      of any status; when the network is down, a 200 whose body is the
      version in use (or empty), so the probe never fails. */
  function VersionFileReply(active: Option<string>, net: Network): (r: Reply)
    ensures r.Serve?
    ensures net(VERSION_FILE).Answer? ==> r.resp == net(VERSION_FILE).resp
    ensures net(VERSION_FILE).NetworkError? ==> r.resp.status == 200 && r.resp.Ok()
    ensures net(VERSION_FILE).NetworkError? && Truthy(active) ==> r.resp.body == active.value
    ensures net(VERSION_FILE).NetworkError? && !Truthy(active) ==> r.resp.body == ""
  {
    match net(VERSION_FILE)
    case Answer(resp) => Serve(resp)
    case NetworkError => Serve(Resp(200, OrEmpty(active)))
  }

  /** `manifest.some(a => url.endsWith(a))` */
  predicate InManifest(url: string, manifest: seq<string>) {
    exists a :: a in manifest && EndsWith(url, a)
  }

  /** The caches after `caches.open(prefix + active)` when a version is in use. */
  function OpenActive(c: Caches, prefix: string, active: Option<string>): (r: Caches)
    ensures c.Valid() ==> r.Valid()
    ensures Truthy(active) ==> prefix + active.value in r.stores
    ensures forall n :: n in c.stores ==> n in r.stores && r.stores[n] == c.stores[n]
  {
    if Truthy(active) then c.Open(prefix + active.value) else c
  }

  /** The first of `keys` in the cache of the version in use, if any. */
  function ActiveHit(c: Caches, prefix: string, active: Option<string>, keys: seq<string>): Option<Resp> {
    if Truthy(active) && prefix + active.value in c.stores then FirstMatch(c.stores[prefix + active.value], keys)
    else None
  }

  /** The generic GET chain, as the reply it produces and the caches it
      leaves: the version in use's cache; else the network, storing an ok
      answer into that cache when a version is in use and the URL ends with a
      manifest entry; else, when the network is down, the first versioned
      cache holding the URL; else the network error. */
  function AssetOutcome(c: Caches, prefix: string, active: Option<string>, manifest: seq<string>,
                        key: string, net: Network): (Reply, Caches)
  {
    var cOpen := OpenActive(c, prefix, active);
    var hit := ActiveHit(cOpen, prefix, active, [key]);
    if hit.Some? then (Serve(hit.value), cOpen)
    else match net(key)
      case Answer(resp) =>
        (Serve(resp),
         if resp.Ok() && Truthy(active) && InManifest(key, manifest)
         then cOpen.Put(prefix + active.value, key, resp) else cOpen)
      case NetworkError =>
        (match ScanCaches(cOpen, cOpen.names, prefix, None, [key])
         case Some(r) => Serve(r)
         case None => Rejected,
         cOpen)
  }

  /** The handler code of the generic GET chain. Beyond computing
      `AssetOutcome`, it keeps the store well formed, answers from the version
      in use's cache whenever that holds the URL (touching nothing), writes
      only into that cache, and fails only when the network is down and no
      versioned cache holds the URL. */
  method AssetChain(c: Caches, prefix: string, active: Option<string>, manifest: seq<string>,
                    key: string, net: Network)
    returns (reply: Reply, c': Caches)
    ensures (reply, c') == AssetOutcome(c, prefix, active, manifest, key, net)
    ensures c.Valid() ==> c'.Valid()
    ensures var hit := ActiveHit(c, prefix, active, [key]);
      hit.Some? ==> reply == Serve(hit.value) && c' == c
    ensures forall n :: n in c.stores && (!Truthy(active) || n != prefix + active.value) ==>
              n in c'.stores && c'.stores[n] == c.stores[n]
    ensures reply.Rejected? <==>
              && ActiveHit(c, prefix, active, [key]).None?
              && net(key).NetworkError?
              && forall n :: n in c'.names && StartsWith(n, prefix) && n in c'.stores ==> key !in c'.stores[n]
  {
    c' := c;
    if Truthy(active) {
      var name := prefix + active.value;
      c' := c'.Open(name);
      var cached := LookupFirst(c'.stores[name], [key]);
      if cached.Some? {
        return Serve(cached.value), c';
      }
    }
    match net(key) {
      case Answer(resp) =>
        if resp.Ok() && Truthy(active) && InManifest(key, manifest) {
          c' := c'.Put(prefix + active.value, key, resp);
        }
        reply := Serve(resp);
      case NetworkError =>
        var fallback := Scan(c', prefix, None, [key]);
        reply := if fallback.Some? then Serve(fallback.value) else Rejected;
    }
  }
}
