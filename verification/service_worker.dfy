/** The service worker (public/sw.js): cache generations, the install and
    activate lifecycle steps, the SKIP_WAITING message handler and the
    first-match-wins fetch policy.

    Every handler is one atomic step over the cache storage. The network is an
    input: the outcome of the single fetch a handler issues (`NetOutcome`), or,
    for precaching, a function from URL to outcome. */
module ServiceWorker {
  import opened Wrappers
  import opened Strings
  import opened JsValues

  const CacheName: string := "bajyas-market-v2"
  const OfflinePath: string := "/offline.html"
  const ConfigPath: string := "/env.json"
  const SkipWaitingType: string := "SKIP_WAITING"

  /** The precache manifest, in order. It deliberately omits the configuration endpoint. */
  const PrecacheAssets: seq<string> := [
    "/",
    "/offline.html",
    "/manifest.webmanifest",
    "/assets/generated/pwa-icon-192.dim_192x192.png",
    "/assets/generated/pwa-icon-512.dim_512x512.png",
    "/assets/generated/pwa-icon-maskable-512.dim_512x512.png"
  ]

  /** One deployed worker: the cache generation it owns and the origin it is served from. */
  datatype Worker = Worker(cacheName: string, origin: string)

  /** The worker as deployed, on a given origin. */
  function Deployed(origin: string): Worker {
    Worker(CacheName, origin)
  }

  datatype RequestMode = Navigate | SameOrigin | NoCors | Cors

  /** An intercepted request (`verb` is the HTTP method), with the parts of `new URL(request.url)` the worker reads. */
  datatype Request = Request(
    verb: string,
    url: string,
    origin: string,
    hostname: string,
    pathname: string,
    mode: RequestMode)

  datatype Response = Response(status: int, contentType: string, body: string)

  /** What one network fetch produced: a response, or a rejection (offline, DNS, ...). */
  datatype NetOutcome = Ok(response: Response) | Failed

  /** The reply synthesized when the configuration endpoint cannot be fetched. */
  const ConfigUnavailable: Response :=
    Response(503, "application/json", "{\"error\":\"Configuration unavailable\"}")

  /** The reply synthesized for a failed non-navigation request with no cached copy. */
  const NetworkError: Response := Response(408, "text/plain", "Network error")

  /** The URL a site-relative path resolves to against the worker's location. */
  function Resolve(worker: Worker, path: string): string {
    worker.origin + path
  }

  // ---------------------------------------------------------------------------
  // Cache storage: an ordered list of named generations, each a map from
  // request URL to stored response. Order is creation order, the order in
  // which `caches.match` searches.

  datatype Generation = Generation(name: string, entries: map<string, Response>)

  type Store = seq<Generation>

  function Names(store: Store): (r: seq<string>)
    ensures |r| == |store|
    ensures forall i | 0 <= i < |store| :: r[i] == store[i].name
  {
    if store == [] then [] else [store[0].name] + Names(store[1..])
  }

  /** Cache storage never holds two generations with the same name. */
  predicate UniqueNames(store: Store) {
    store == [] || (store[0].name !in Names(store[1..]) && UniqueNames(store[1..]))
  }

  /** `(await caches.open(name)).match(key)` without creating the generation. */
  function Lookup(store: Store, name: string, key: string): Option<Response> {
    if store == [] then None
    else if store[0].name == name then
      (if key in store[0].entries then Some(store[0].entries[key]) else None)
    else Lookup(store[1..], name, key)
  }

  /** `caches.match(key)`: the entry of the first generation, in creation
      order, that holds `key`, whatever its name. */
  function Match(store: Store, key: string): (r: Option<Response>)
    ensures r.None? <==> forall i | 0 <= i < |store| :: key !in store[i].entries
  {
    if store == [] then None
    else if key in store[0].entries then Some(store[0].entries[key])
    else
      var r := Match(store[1..], key);
      assert forall i | 1 <= i < |store| :: store[i] == store[1..][i - 1];
      r
  }

  /** `caches.open(name)`: creates an empty generation at the end if none has that name. */
  function Open(store: Store, name: string): (r: Store)
    ensures Names(r) == if name in Names(store) then Names(store) else Names(store) + [name]
    ensures UniqueNames(store) ==> UniqueNames(r)
    ensures forall n, k :: Lookup(r, n, k) == Lookup(store, n, k)
  {
    if name in Names(store) then store
    else
      AppendFacts(store, Generation(name, map[]));
      store + [Generation(name, map[])]
  }

  /** `cache.put(key, response)` on the generation `name`, opening it first. */
  function Put(store: Store, name: string, key: string, resp: Response): (r: Store)
    ensures Lookup(r, name, key) == Some(resp)
    ensures forall n, k | n != name || k != key :: Lookup(r, n, k) == Lookup(store, n, k)
    ensures Names(r) == if name in Names(store) then Names(store) else Names(store) + [name]
    ensures UniqueNames(store) ==> UniqueNames(r)
  {
    if store == [] then [Generation(name, map[key := resp])]
    else if store[0].name == name then
      var g := Generation(name, store[0].entries[key := resp]);
      assert ([g] + store[1..])[1..] == store[1..];
      [g] + store[1..]
    else
      var rest := Put(store[1..], name, key, resp);
      assert ([store[0]] + rest)[1..] == rest;
      [store[0]] + rest
  }

  /** Appending a generation with a fresh name appends its name and keeps names unique. */
  lemma {:induction false} AppendFacts(store: Store, g: Generation)
    ensures Names(store + [g]) == Names(store) + [g.name]
    ensures UniqueNames(store) && g.name !in Names(store) ==> UniqueNames(store + [g])
    ensures g.name !in Names(store) ==> forall n, k :: Lookup(store + [g], n, k) == Lookup(store, n, k) || n == g.name
    ensures g.name !in Names(store) && g.entries == map[] ==> forall n, k :: Lookup(store + [g], n, k) == Lookup(store, n, k)
  {
    if store != [] {
      assert (store + [g])[1..] == store[1..] + [g];
      AppendFacts(store[1..], g);
    }
  }

  /** Keeps only the generations named `name`, in order. */
  function Keep(store: Store, name: string): (r: Store)
    ensures forall i | 0 <= i < |r| :: r[i].name == name
    ensures forall k :: Lookup(r, name, k) == Lookup(store, name, k)
    ensures forall n, k | n != name :: Lookup(r, n, k) == None
    ensures name in Names(r) <==> name in Names(store)
    ensures UniqueNames(store) ==> |r| <= 1
  {
    if store == [] then []
    else
      var rest := Keep(store[1..], name);
      if store[0].name == name then
        assert ([store[0]] + rest)[1..] == rest;
        assert forall i | 1 <= i < |[store[0]] + rest| :: ([store[0]] + rest)[i] == rest[i - 1];
        [store[0]] + rest
      else rest
  }

  // ---------------------------------------------------------------------------
  // Lifecycle: install, the SKIP_WAITING message, activate.

  /** The worker's own lifecycle state, as the browser tracks it. */
  datatype Phase = Installing | Waiting | Activating | Activated | Redundant

  /** A response `addAll` accepts: an ok status (200 to 299) other than
      206 Partial Content, as the Cache API's `addAll` demands. */
  predicate OkStatus(resp: Response) {
    200 <= resp.status <= 299 && resp.status != 206
  }

  /** Every URL fetched successfully with an accepted status, the condition under which `addAll` stores anything. */
  predicate AllFetched(urls: seq<string>, fetch: string -> NetOutcome) {
    forall i | 0 <= i < |urls| :: fetch(urls[i]).Ok? && OkStatus(fetch(urls[i]).response)
  }

  /** The batch of puts `addAll` performs once every fetch has succeeded. */
  function StoreAll(store: Store, name: string, urls: seq<string>, fetch: string -> NetOutcome): (r: Store)
    requires AllFetched(urls, fetch)
    requires name in Names(store)
    decreases |urls|
    ensures forall i | 0 <= i < |urls| :: Lookup(r, name, urls[i]) == Some(fetch(urls[i]).response)
    ensures forall n, k | n != name || k !in urls :: Lookup(r, n, k) == Lookup(store, n, k)
    ensures Names(r) == Names(store)
    ensures UniqueNames(store) ==> UniqueNames(r)
  {
    if urls == [] then store
    else
      var s1 := Put(store, name, urls[0], fetch(urls[0]).response);
      assert forall i | 1 <= i < |urls| :: urls[i] == urls[1..][i - 1];
      StoreAll(s1, name, urls[1..], fetch)
  }

  /** `(await caches.open(name)).addAll(urls)`: all-or-nothing. The generation
      is opened in any case; entries are written only if every fetch succeeded
      with a 2xx status, otherwise the call rejects and nothing is written. */
  function AddAll(store: Store, name: string, urls: seq<string>, fetch: string -> NetOutcome): (r: Store)
    ensures name in Names(r)
    ensures UniqueNames(store) ==> UniqueNames(r)
    ensures AllFetched(urls, fetch) ==>
      forall i | 0 <= i < |urls| :: Lookup(r, name, urls[i]) == Some(fetch(urls[i]).response)
    ensures AllFetched(urls, fetch) ==>
      forall n, k | n != name || k !in urls :: Lookup(r, n, k) == Lookup(store, n, k)
    ensures !AllFetched(urls, fetch) ==> forall n, k :: Lookup(r, n, k) == Lookup(store, n, k)
  {
    var s1 := Open(store, name);
    if AllFetched(urls, fetch) then StoreAll(s1, name, urls, fetch) else s1
  }

  function PrecacheUrls(worker: Worker): (urls: seq<string>)
    ensures |urls| == |PrecacheAssets|
    ensures forall i | 0 <= i < |urls| :: urls[i] == Resolve(worker, PrecacheAssets[i])
  {
    seq(|PrecacheAssets|, i requires 0 <= i < |PrecacheAssets| => Resolve(worker, PrecacheAssets[i]))
  }

  /** Outcome of the install event: the cache storage after it, and the phase it leaves the worker in. */
  datatype Installation = Installation(store: Store, phase: Phase)

  /** The install handler. Only a failure to open the cache fails the install;
      a failed precache is swallowed, and the handler never skips waiting, so a
      successful install leaves the worker waiting. */
  function OnInstall(store: Store, worker: Worker, fetch: string -> NetOutcome, openFails: bool): (r: Installation)
    ensures r.phase == if openFails then Redundant else Waiting
    ensures openFails ==> r.store == store
    ensures !openFails ==> worker.cacheName in Names(r.store)
    ensures UniqueNames(store) ==> UniqueNames(r.store)
    ensures !openFails && AllFetched(PrecacheUrls(worker), fetch) ==>
      forall i | 0 <= i < |PrecacheAssets| ::
        Lookup(r.store, worker.cacheName, Resolve(worker, PrecacheAssets[i]))
          == Some(fetch(Resolve(worker, PrecacheAssets[i])).response)
    ensures forall n, k | n != worker.cacheName || k !in PrecacheUrls(worker) ::
      Lookup(r.store, n, k) == Lookup(store, n, k)
    ensures !AllFetched(PrecacheUrls(worker), fetch) ==>
      forall n, k :: Lookup(r.store, n, k) == Lookup(store, n, k)
  {
    if openFails then Installation(store, Redundant)
    else
      var urls := PrecacheUrls(worker);
      var s := AddAll(store, worker.cacheName, urls, fetch);
      assert forall i | 0 <= i < |PrecacheAssets| :: Resolve(worker, PrecacheAssets[i]) == urls[i];
      Installation(s, Waiting)
  }

  /** The message handler: `event.data && event.data.type === 'SKIP_WAITING'`. */
  predicate RequestsSkipWaiting(data: JsValue) {
    data.Truthy() && data.Get("type") == Str(SkipWaitingType)
  }

  /** `self.skipWaiting()` promotes a waiting worker; any other message, or any other phase, changes nothing. */
  function OnMessage(phase: Phase, data: JsValue): (p: Phase)
    ensures p != phase <==>
      phase == Waiting && (data.Object? || data.ErrorInstance? || data.Function?)
      && data.HasProperty("type") && data.Get("type") == Str(SkipWaitingType)
    ensures p != phase ==> p == Activating
  {
    if RequestsSkipWaiting(data) && phase == Waiting then Activating else phase
  }

  /** The activate handler: deletes every generation not named after this worker. */
  function OnActivate(store: Store, worker: Worker): (r: Store)
    ensures forall i | 0 <= i < |r| :: r[i].name == worker.cacheName
    ensures forall k :: Lookup(r, worker.cacheName, k) == Lookup(store, worker.cacheName, k)
    ensures forall n, k | n != worker.cacheName :: Lookup(r, n, k) == None
    ensures worker.cacheName in Names(r) <==> worker.cacheName in Names(store)
    ensures UniqueNames(store) ==> |r| <= 1
  {
    Keep(store, worker.cacheName)
  }

  // ---------------------------------------------------------------------------
  // The fetch policy.

  /** The worker answers only GET requests whose URL starts with "http". */
  predicate Intercepted(req: Request) {
    req.verb == "GET" && StartsWith(req.url, "http")
  }

  predicate IsConfigRequest(req: Request) {
    Intercepted(req) && req.pathname == ConfigPath
  }

  /** A call to the backend canister: by path, or by the Internet Computer host names. */
  predicate IsBackendCall(req: Request) {
    Contains(req.pathname, "/api/") || Contains(req.hostname, ".ic0.app") || Contains(req.hostname, ".icp0.io")
  }

  /** The four routes of the first-match-wins classifier, in decision order. */
  datatype Route = Ignored | ConfigFetch | BackendBypass | NetworkFirst

  function Classify(req: Request): (r: Route)
    ensures r == Ignored <==> !Intercepted(req)
    ensures r == ConfigFetch <==> IsConfigRequest(req)
    ensures r == BackendBypass <==> Intercepted(req) && !IsConfigRequest(req) && IsBackendCall(req)
    ensures r == NetworkFirst <==> Intercepted(req) && !IsConfigRequest(req) && !IsBackendCall(req)
  {
    if !Intercepted(req) then Ignored
    else if req.pathname == ConfigPath then ConfigFetch
    else if IsBackendCall(req) then BackendBypass
    else NetworkFirst
  }

  /** How the worker's own fetch treats the HTTP cache. */
  datatype CacheMode = DefaultCache | NoStore

  /** `Unanswered`: `respondWith` is not called and the browser handles the
      request. `RespondWith(None)`: the handler resolved to `undefined`. */
  datatype Reply = Unanswered | RespondWith(response: Option<Response>)

  /** One fetch event: the reply, the cache storage after it, and the worker's own network fetch, if any. */
  datatype FetchStep = FetchStep(reply: Reply, store: Store, networkFetch: Option<CacheMode>)

  /** Only a same-origin 200 is written to the cache. */
  predicate Cacheable(worker: Worker, req: Request, resp: Response) {
    resp.status == 200 && req.origin == worker.origin
  }

  /** The reply after the network failed: a cached copy from any generation,
      then for a navigation the cached offline page (which may be missing),
      then a synthesized 408. */
  function OfflineReply(store: Store, worker: Worker, req: Request): (r: Option<Response>)
    ensures Match(store, req.url).Some? ==> r == Match(store, req.url)
    ensures Match(store, req.url).None? && req.mode == Navigate ==> r == Match(store, Resolve(worker, OfflinePath))
    ensures Match(store, req.url).None? && req.mode != Navigate ==> r == Some(NetworkError)
    ensures r.None? ==> req.mode == Navigate
  {
    match Match(store, req.url)
    case Some(cached) => Some(cached)
    case None =>
      if req.mode == Navigate then Match(store, Resolve(worker, OfflinePath)) else Some(NetworkError)
  }

  /** The fetch handler. `net` is what the worker's fetch of this request
      produces; it is ignored on the routes that do not fetch. */
  function OnFetch(store: Store, worker: Worker, req: Request, net: NetOutcome): (r: FetchStep)
    ensures !Intercepted(req) ==> r == FetchStep(Unanswered, store, None)
    ensures IsConfigRequest(req) ==>
      && r.store == store
      && r.networkFetch == Some(NoStore)
      && r.reply == RespondWith(Some(if net.Ok? then net.response else ConfigUnavailable))
    ensures Intercepted(req) && !IsConfigRequest(req) && IsBackendCall(req) ==>
      r == FetchStep(Unanswered, store, None)
    ensures Classify(req) == NetworkFirst ==> r.networkFetch == Some(DefaultCache)
    ensures Classify(req) == NetworkFirst && net.Ok? ==>
      && r.reply == RespondWith(Some(net.response))
      && Names(r.store) == (if Cacheable(worker, req, net.response) then Names(Open(store, worker.cacheName)) else Names(store))
      && forall n, k ::
           Lookup(r.store, n, k)
             == if Cacheable(worker, req, net.response) && n == worker.cacheName && k == req.url
                then Some(net.response) else Lookup(store, n, k)
    ensures Classify(req) == NetworkFirst && net.Failed? ==>
      r.store == store && r.reply == RespondWith(OfflineReply(store, worker, req))
    ensures UniqueNames(store) ==> UniqueNames(r.store)
  {
    match Classify(req)
    case Ignored => FetchStep(Unanswered, store, None)
    case ConfigFetch =>
      FetchStep(RespondWith(Some(if net.Ok? then net.response else ConfigUnavailable)), store, Some(NoStore))
    case BackendBypass => FetchStep(Unanswered, store, None)
    case NetworkFirst =>
      match net
      case Ok(resp) =>
        var s := if Cacheable(worker, req, resp) then Put(store, worker.cacheName, req.url, resp) else store;
        FetchStep(RespondWith(Some(resp)), s, Some(DefaultCache))
      case Failed =>
        FetchStep(RespondWith(OfflineReply(store, worker, req)), store, Some(DefaultCache))
  }
}
