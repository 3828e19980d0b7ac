# Versioned offline cache for the Slope Plus web build, in Dafny

This project models the offline machinery of the Slope Plus web port: the
root-scope service worker (`sw.js`), its older PWA-scope variant
(`PWA/sw.js`), and the home page's translation script
(`Patches/i18n.js`).

Both workers keep one snapshot of the site per deployed version. A snapshot
is a named cache (`spw-v<version>` or `slopeplusweb-cache-v<version>`)
holding the assets of a fixed manifest. The deployed version is the trimmed
text of `/version.txt`. Each worker checks it at most once per epoch. An
epoch ends only when a page asks for a forced check, or (PWA only) when a
request carries `vcheck`. When the version changes, the worker replaces the
old snapshots by the new one, adopts the new version and tells the open
pages to reload. The root worker builds the new snapshot first and then
deletes the stale ones; the PWA worker deletes the stale ones first and then
builds the new one.

Requests are routed through fixed fallback chains:
- In both workers the version file goes to the network.
- In the root worker, navigations (and the root path) try a list of
  candidate shell documents in the active snapshot, then in the other
  snapshots, then on the network, then get a 503 offline page.
- Every other GET, and in the PWA worker every GET but the version file
  (navigations included), tries the active snapshot, then the network, then
  any snapshot.

The translation script picks a language by priority: the URL, then
storage, then the browser. It loads that language's bundle, falling back to
English. It then writes the value of each element's dotted key into that
element.

Modules:
- `JsText` (`js_text.dfy`): the JavaScript string built-ins the code relies
  on: `trim`, ASCII `toLowerCase`, `split`, `startsWith`/`endsWith`, and
  truthiness.
- `SnapshotStore` (`snapshot_store.dfy`): the Cache API as a value.
  `Caches` is the cache names in creation order (what `caches.keys()`
  lists) plus a map from cache name to a map from path to response. It also
  holds the precache fill, the stale-snapshot purge and the lookup loops.
  The network is an oracle `string -> Fetched`: a response of any status,
  or a transport error.
- `WorkerCommon` (`worker_common.dfy`): code both workers share: the
  version fetch, the version-file reply, and the generic asset chain.
- `RootWorker` (`root_worker.dfy`): `sw.js`. The module state is the class
  `Worker`. The version decision is the pure function `Reconcile`. The
  navigation chain is `Candidates` / `ShellOutcome` / `ShellChain`.
- `PwaWorker` (`pwa_worker.dfy`): `PWA/sw.js`. It has its own `Reconcile`
  with a status result, and a blocking check in the fetch handler.
- `I18n` (`i18n.dfy`): `Patches/i18n.js`. It holds the language choice,
  the bundle fallback and the dotted-key walk. The class `Page` holds the
  page state that `applyI18n`, `init` and `setLang` update.

The model follows the code's quirks:
- The reload guard (`reloadNotified`, `handlingMismatch`) is never cleared,
  so a worker broadcasts at most once in its lifetime. This is the `Valid()`
  invariant of both `Worker` classes.
- The stale-cache purge keeps every prefixed name that ends with the kept
  version. It does not test equality.
- `"/"` is in the root manifest and membership is a suffix test, so every
  URL that ends in a slash counts as a manifest member.
- The empty string counts as a version (the file was fetched) but is falsy
  (the worker treats it as no version).
- With no version in use, the navigation scan still skips one cache as if
  it had been searched: the one named `spw-vnull` when the version is null,
  or `spw-v` when it is the empty string.

In four places the intended behaviour of the cache controller differs from
what the code does. The model follows the code:
- Intended: the reload guard is reset for each version transition, so each
  transition notifies once. Code: the guard is never reset.
- Intended: the new snapshot is built before the old ones are purged, so
  a failed download never leaves the site without a snapshot. Code:
  `PWA/sw.js` purges first. `PwaWorker.MismatchOrderIsImmaterial` shows
  that the two orders end in the same caches when nothing fails.
- Intended: every versioned snapshot other than the kept version is
  deleted. Code: a snapshot survives when its name merely ends with the
  kept version.
- Intended: the first request of a cold worker waits for the version
  check. Code: the root worker never waits; only the PWA worker does.

## Model

Functions that only compute (`Fill`, `Populate`, `AssetOutcome`,
`ShellOutcome`, `PwaWorker.Check`, `HasExtension`, `InManifest`, `Step`,
`Walk`, `Lookup`) carry no contract of their own. The rows of the lemmas
and methods about them state their properties:
- `Fill`, `Populate` (sw.js:84-97): `FillMatch`, `PopulateRoundTrip`,
  `FillCache`.
- `AssetOutcome` (sw.js:236-271): `AssetChain`.
- `ShellOutcome` (sw.js:208-231): `NavigationFallback`, `ShellChain`.
- `PwaWorker.Check` (PWA/sw.js:77-104): `EnsureVersionChecked`,
  `HandleFetch`.
- `HasExtension` (sw.js:172): `HasExtensionMeans`.
- `InManifest` (sw.js:254): `EveryDirectoryUrlIsInManifest`.
- `Step`, `Walk`, `Lookup` (Patches/i18n.js:42): `WalkFromNull`,
  `WalkAppend`, `LookupNested`, `LookupPlain`.

| member | source | states |
|---|---|---|
| JsText.Trim | sw.js:75 | the trimmed text neither starts nor ends with ECMAScript white space and is no longer than the input |
| JsText.TrimPadded | sw.js:75 | trimming any white-space padding around a core that has no surrounding space gives back exactly the core |
| JsText.Lower | Patches/i18n.js:14 | lowercasing keeps the length and maps each character through the ASCII lowercase map |
| JsText.LowerIdempotent | Patches/i18n.js:14 | lowercasing twice is lowercasing once |
| JsText.Split | Patches/i18n.js:19 | a split yields at least one piece and no piece contains the separator |
| JsText.JoinSplit | Patches/i18n.js:42 | joining the pieces of a split gives back the original string |
| JsText.SplitJoin | Patches/i18n.js:42 | splitting a join of separator-free pieces gives back the pieces |
| SnapshotStore.Caches.Open | sw.js:86 | opening creates an empty cache at the end of the name list when it is missing and otherwise changes nothing; other caches are untouched |
| SnapshotStore.Caches.Put | sw.js:91 | after a put the key holds the response, every other key and every other cache is unchanged, and no cache is created |
| SnapshotStore.KeepNames | sw.js:101 | the names kept are exactly those that are not prefixed-and-not-ending-with the kept version |
| SnapshotStore.KeepNamesConcat | sw.js:100-101 | the purge filters each part of the name list on its own, so the caches it keeps stay in creation order |
| SnapshotStore.KeepNamesAppend | sw.js:118-119 | a cache created last and spared by the purge stays last among the kept names |
| SnapshotStore.Purge | sw.js:99-102 | after the purge a cache exists exactly when it existed and is not stale, and the surviving caches keep their contents |
| SnapshotStore.FillMatch | sw.js:87-95 | after the fill a key holds the network's answer exactly when it is in the manifest and was fetched with an ok status; any other key is as before, so one failed asset never stops the loop |
| SnapshotStore.PopulateRoundTrip | sw.js:84-97 | after precaching, the version's cache exists, looking up any manifest path that was fetchable returns the network's response, and other caches are untouched |
| SnapshotStore.FillCache | sw.js:87-95 | the asset loop computes exactly the fill |
| SnapshotStore.PurgeFill | sw.js:118-119 | filling a cache the purge spares commutes with the purge |
| SnapshotStore.PurgeOpen | sw.js:118-119 | opening a cache the purge spares commutes with the purge |
| SnapshotStore.PurgeCommutesWithPopulate | PWA/sw.js:97-98 | purging to version v and precaching v give the same caches in either order |
| SnapshotStore.FirstMatch | sw.js:211-214 | no hit exactly when no key is in the cache; a hit is the response of some key that is present |
| SnapshotStore.ScanCaches | sw.js:217-225 | no hit exactly when no eligible cache (prefixed, not skipped) holds any key; a hit comes from an eligible cache |
| SnapshotStore.HolderIndex | sw.js:218-224 | the position of the first eligible cache holding some key: no cache listed before it holds one |
| SnapshotStore.ScanCachesFirst | sw.js:218-224 | a scan hit is the first key's response inside the first cache, in creation order, that holds any key |
| SnapshotStore.LookupFirst | sw.js:211-214 | the candidate loop with early return computes the first match |
| SnapshotStore.Scan | sw.js:217-225 | the loop over the cache names with early return computes the scan, in creation order |
| SnapshotStore.PopulateIfMissing | sw.js:111-112 | when the sentinel is already in the version's cache only the open happens; otherwise the version is precached |
| WorkerCommon.FetchVersion | sw.js:71-82 | the version is null exactly when the version file is not fetchable (transport error or non-ok status); otherwise it is the trimmed body, which may be empty |
| WorkerCommon.FetchVersionIgnoresPadding | sw.js:75 | white space around the version file's text does not change the version |
| WorkerCommon.VersionFileReply | sw.js:159-162 | the version file always gets a response: the network's answer of any status, or when offline a 200 whose body is the version in use or empty |
| WorkerCommon.OpenActive | sw.js:241-242 | with a version in use its cache exists afterwards; no existing cache changes |
| WorkerCommon.AssetChain | sw.js:236-271 | the generic chain: an active-cache hit is served and nothing changes; only the active cache is ever written; the request fails exactly when there is no active hit, the network is down and no prefixed cache holds the path |
| RootWorker.Reconcile | sw.js:104-123 | offline changes nothing; a fetched version is always adopted; a notification is due exactly when a version was in use and the fetched one differs; the same version changes nothing |
| RootWorker.VersionChangeRetainsOnlyNewSnapshot | sw.js:116-122 | after a change, every prefixed cache left ends with the new version, the new snapshot holds every fetchable asset, and a notification is due |
| RootWorker.FirstActivationAdopts | sw.js:109-115 | a first activation adopts the version without notifying, precaches only when the shell is missing, and then holds every fetchable asset |
| RootWorker.CleanOldSparesSuffixMatches | sw.js:101 | a cache of version 11.0 survives the purge that keeps version 1.0 |
| RootWorker.AlnumRun | sw.js:172 | the trailing run of ASCII letters and digits is maximal |
| RootWorker.HasExtensionMeans | sw.js:172 | the extension test holds exactly when some dot is followed, up to the end, by one or more ASCII letters or digits |
| RootWorker.Pushed | sw.js:171-184 | the pushed candidates end with the path itself, right after its `index.html` when the path ends in a slash; they start with the directory index for an extensionless non-root path; every other one ends with index.html |
| RootWorker.AppendIfAbsent | sw.js:186 | the list grows by exactly the new element when it was absent and is unchanged when present; earlier entries keep their places |
| RootWorker.Candidates | sw.js:171-186 | the path and the site shell are always candidates, there are one to four of them, and the last one is the shell or the path itself |
| RootWorker.CandidatesStartWithDirectoryIndex | sw.js:172-182 | an extensionless path, the root included, is tried first as its directory index, with or without an added slash; so `/` tries `/index.html` before `/` |
| RootWorker.CandidatesAreIndexes | sw.js:171-186 | every candidate other than the path itself ends with index.html |
| RootWorker.PageShellIndex | sw.js:190 | the position of the first page-specific index: every earlier candidate is not one, and the one found is |
| RootWorker.FirstPageShell | sw.js:190 | none exactly when no candidate is a page-specific index; otherwise the first such candidate |
| RootWorker.PrimeShell | sw.js:188-206 | without a version in use or a page-specific candidate nothing changes; otherwise only the active cache is opened and written: the page shell's entry becomes the network's ok answer exactly when it was missing, and every other entry and cache stays as it was |
| RootWorker.OfflinePage | sw.js:230 | the offline page has status 503 and quotes the requested path |
| RootWorker.NavigationFallback | sw.js:208-231 | a navigation is always answered; a hit in the active cache wins; otherwise it is served from a searched cache when one holds a candidate; when none does, it is the network's answer of any status, or the offline page when the network is down |
| RootWorker.ShellChain | sw.js:208-231 | the lookup loops compute the navigation outcome |
| RootWorker.EveryDirectoryUrlIsInManifest | sw.js:254 | every URL ending in a slash passes the manifest test |
| RootWorker.Worker.constructor | sw.js:67-69 | a fresh worker has no version, an unchecked epoch, no broadcast, and the origin's caches |
| RootWorker.Worker.Precache | sw.js:84-97 | the caches become the populated snapshot of that version |
| RootWorker.Worker.CleanOld | sw.js:99-102 | the caches become the purge that keeps that version |
| RootWorker.Worker.NotifyClients | sw.js:125-131 | only the first call of a lifetime broadcasts, with the version in use; the guard stays set |
| RootWorker.Worker.BeginCheck | sw.js:105-106 | the check starts exactly when the epoch was unchecked, and the epoch is checked afterwards |
| RootWorker.Worker.Adopt | sw.js:109-115 | the version is adopted and the caches become the snapshot precached only when its shell was missing; no broadcast |
| RootWorker.Worker.SwitchTo | sw.js:116-122 | the caches become the new snapshot followed by the purge; the version is adopted; the guard is set and a broadcast is added only if it was clear |
| RootWorker.Worker.Land | sw.js:108-122 | the state becomes the reconciliation of the old state with the fetched version; the broadcast log grows only for a notification before the guard was set |
| RootWorker.Worker.FinishCheck | sw.js:107-122 | the state lands where the reconciliation with the fetched version says, broadcasting only for a change and only once per lifetime |
| RootWorker.Worker.EnsureVersion | sw.js:104-123 | within a checked epoch nothing is fetched or changed; otherwise one fetch and the reconciliation |
| RootWorker.Worker.Install | sw.js:133-143 | a truthy fetched version is adopted and precached; otherwise nothing changes |
| RootWorker.Worker.Activate | sw.js:145-152 | with a version in use the stale snapshots are purged; otherwise nothing changes |
| RootWorker.Worker.HandleFetch | sw.js:154-272 | non-GET passes through; the version file never starts a check; navigations prime the page shell and run the shell chain; other GETs run the generic chain; both chains start the check exactly when the epoch was unchecked |
| RootWorker.Worker.HandleMessage | sw.js:274-283 | a forced check reopens the epoch and reconciles; a version query answers with the version in use and changes nothing; anything else is ignored |
| PwaWorker.Reconcile | PWA/sw.js:77-104 | `unknown` exactly when offline, and then nothing changes; `different` exactly when a version was in use and the fetched one differs; the fetched version is always adopted |
| PwaWorker.MismatchOrderIsImmaterial | PWA/sw.js:95-102 | purging before precaching ends in the same caches as precaching before purging |
| PwaWorker.MismatchRetainsOnlyNewSnapshot | PWA/sw.js:95-102 | after a mismatch every prefixed cache left ends with the new version, unprefixed caches are untouched, and the new snapshot holds every fetchable path |
| PwaWorker.CleanupSparesSuffixMatches | PWA/sw.js:72 | a cache of version 11.0 survives the cleanup that keeps version 1.0 |
| PwaWorker.Worker.constructor | PWA/sw.js:38-40 | a fresh worker has no version, an unchecked epoch, no broadcast, and the origin's caches |
| PwaWorker.Worker.Precache | PWA/sw.js:58-67 | the caches become the populated snapshot of that version |
| PwaWorker.Worker.CleanupOldCaches | PWA/sw.js:69-75 | the caches become the purge that keeps that version |
| PwaWorker.Worker.NotifyClientsVersionUpdate | PWA/sw.js:106-113 | only the first call of a lifetime broadcasts a version-less update; the guard stays set |
| PwaWorker.Worker.Adopt | PWA/sw.js:85-94 | the version is adopted and the caches become the snapshot precached only when its shell was missing |
| PwaWorker.Worker.SwitchTo | PWA/sw.js:95-102 | the caches become the purge followed by the new snapshot; the version is adopted and the guard is set |
| PwaWorker.Worker.FinishCheck | PWA/sw.js:80-103 | one version fetch; the state and the status are the reconciliation's, and the guard is set after a mismatch |
| PwaWorker.Worker.EnsureVersionChecked | PWA/sw.js:77-104 | `cached` with no fetch and no change in a checked epoch; otherwise one fetch, the reconciliation and its status, and the epoch is checked |
| PwaWorker.Worker.Install | PWA/sw.js:116-125 | a truthy fetched version is adopted and precached; otherwise nothing changes |
| PwaWorker.Worker.Activate | PWA/sw.js:128-133 | with a version in use the stale snapshots are purged; otherwise nothing changes |
| PwaWorker.Worker.HandleFetch | PWA/sw.js:136-193 | non-GET passes through untouched; `vcheck` reopens the epoch; the version file is answered without a check; any other GET first completes the check when the epoch is open and then routes with the version it left |
| PwaWorker.Worker.HandleMessage | PWA/sw.js:196-202 | a forced check reopens the epoch and reconciles; anything else changes nothing |
| I18n.NavLanguage | Patches/i18n.js:13 | the first of the navigator's languages when non-empty, else the navigator's language when non-empty, else `en`; never empty |
| I18n.ResolveNav | Patches/i18n.js:13-22 | the navigator's language always resolves to a supported language |
| I18n.ExactStepIsSubsumed | Patches/i18n.js:16-21 | the exact-match step never changes the outcome: resolution equals the rule by base language alone |
| I18n.ResolveNavIgnoresCase | Patches/i18n.js:14 | resolution is insensitive to the case of the navigator's language |
| I18n.ChineseFamily | Patches/i18n.js:19-20 | `zh` and every `zh-` tag, in any case, resolve to zh-CN |
| I18n.PickLang | Patches/i18n.js:8-23 | the result is always supported; a supported URL value wins, then a supported stored value, then the navigator's language by base |
| I18n.ParamIsCaseSensitive | Patches/i18n.js:9-12 | a URL value in the wrong case is ignored and the navigator decides |
| I18n.LangAttr | Patches/i18n.js:53 | zh-CN maps to zh-Hans and every other language to itself |
| I18n.LoadBundle | Patches/i18n.js:25-35 | one or two requests, the second only for a non-default language whose bundle failed and always for English; the bundle is the language's, else English's, else the empty object |
| I18n.WalkFromNull | Patches/i18n.js:42 | once a key walk reaches null it stays null |
| I18n.WalkAppend | Patches/i18n.js:42 | walking a path is walking its first part and then the rest from there |
| I18n.LookupNested | Patches/i18n.js:42 | a dotted key `a.rest` is `rest` looked up in the value of `a`, or null when `a` is missing |
| I18n.LookupPlain | Patches/i18n.js:42 | a key without dots is one property lookup |
| I18n.RenderIdempotent | Patches/i18n.js:55 | translating an element twice with the same bundle is translating it once, so reapplying over elements already translated changes nothing |
| I18n.Digits | Patches/i18n.js:43 | a number is displayed as decimal digits without leading zeros that spell its value |
| I18n.Render | Patches/i18n.js:41-43 | an element keeps its key; a key that resolves to null leaves the text unchanged; a string value becomes the text |
| I18n.Page.ApplyI18n | Patches/i18n.js:37-45 | the bundle is remembered and every element is rendered with it |
| I18n.Page.Reapply | Patches/i18n.js:55 | with a truthy last bundle every element is rendered again; otherwise nothing changes |
| I18n.Page.Init | Patches/i18n.js:47-53 | the picked language is stored, its bundle loaded and applied, and the lang attribute set |
| I18n.Page.SetLang | Patches/i18n.js:56-65 | an unsupported language changes nothing and loads nothing; a supported one is stored, loaded, applied, set as the lang attribute and written into the URL |

## Left out

- Real I/O is not modelled: `fetch`, the Cache API, `clients.matchAll`/`postMessage`, `localStorage`, `history.replaceState` and the DOM. The network is a function from URL to answer, so within one handler step the same URL always gets the same answer. The Cache API is a value, and a broadcast is one entry in a log whatever the number of open windows.
- Interleaving of asynchronous handlers is not modelled. Each handler is one atomic step. The root worker's un-awaited check is split: `BeginCheck` is the part before the first suspension, which routing sees; `FinishCheck` is the continuation, which the caller runs afterwards. The un-awaited `cache.put` of the generic chain is taken as done at once.
- URL parsing is not modelled. A request is given as its path, which is also its cache key, plus a `vcheck` flag. Query strings and the origin are ignored, and the manifest suffix test is applied to the path.
- The offline page's viewport `<meta>`, its inline style sheet and the response headers are left out. The body keeps the charset, the title, the quoted path and the closing text.
- `skipWaiting`, `clients.claim`, console logging, `Response.clone` and HTTP cache modes (`reload`, `no-cache`, `force-cache`) are left out: they do not change what is stored or served.
- Failures of `caches.open`, `cache.put` and `caches.delete` (for example when the quota is exceeded) are not modelled.
- RootWorker.Worker.HandleMessage: the version answer is returned to the caller; when the message has no source (`evt.source` is null) the page gets nothing, which is not modelled.
- I18n.Step: only objects have properties. Array indexing, the `length` of strings and inherited properties such as `constructor` are not modelled. JSON numbers are integers only.
- I18n.Page.Init: the storage write is taken to succeed. A failing `localStorage.setItem` (caught in `init`, uncaught in `setLang`) is not modelled.
- I18n.Page: the marked elements are a fixed array. `querySelectorAll` running again on fragments added later, and the `DOMContentLoaded` scheduling, are not modelled.
- JsText.Lower: only ASCII letters are lowercased, where `toLowerCase` maps all of Unicode. The supported tags use only ASCII letters, digits and `-`, and no non-ASCII character lowercases to one of the letters they use, so language resolution gives the same result either way.
- `Patches/mobile.js` is touch and keyboard glue with no decision logic, and it is not part of this model.
