/** Properties of the service worker that span several events: the
    online-then-offline round trip, cross-generation fallback reads, the
    configuration endpoint never reaching the cache over any run, and the
    generation left behind by install followed by activate. */
module OfflinePolicy {
  import opened Wrappers
  import opened JsValues
  import opened ServiceWorker

  /** One event delivered to the worker. */
  datatype WorkerEvent =
    | FetchEvent(req: Request, net: NetOutcome)
    | InstallEvent(fetch: string -> NetOutcome, openFails: bool)
    | ActivateEvent
    | MessageEvent(data: JsValue)

  function Apply(store: Store, worker: Worker, e: WorkerEvent): Store {
    match e
    case FetchEvent(req, net) => OnFetch(store, worker, req, net).store
    case InstallEvent(fetch, openFails) => OnInstall(store, worker, fetch, openFails).store
    case ActivateEvent => OnActivate(store, worker)
    case MessageEvent(_) => store
  }

  function RunEvents(store: Store, worker: Worker, events: seq<WorkerEvent>): Store
    decreases |events|
  {
    if events == [] then store else RunEvents(Apply(store, worker, events[0]), worker, events[1..])
  }

  /** The URL of the configuration endpoint on the worker's origin. */
  function ConfigUrl(worker: Worker): string {
    Resolve(worker, ConfigPath)
  }

  // ---------------------------------------------------------------------------
  // Facts about `caches.match`.

  /** `caches.match` returns the entry of the first generation that holds the key. */
  lemma {:induction false} MatchFindsFirst(store: Store, key: string, i: nat)
    requires i < |store| && key in store[i].entries
    requires forall j | 0 <= j < i :: key !in store[j].entries
    ensures Match(store, key) == Some(store[i].entries[key])
  {
    if i > 0 {
      assert key !in store[0].entries;
      MatchFindsFirst(store[1..], key, i - 1);
    }
  }

  /** With unique names, a key held by generation `i` is what a lookup by that generation's name finds. */
  lemma {:induction false} LookupAt(store: Store, i: nat, key: string)
    requires UniqueNames(store) && i < |store|
    ensures Lookup(store, store[i].name, key)
      == if key in store[i].entries then Some(store[i].entries[key]) else None
  {
    if i > 0 {
      assert Names(store[1..])[i - 1] == store[i].name;
      LookupAt(store[1..], i - 1, key);
    }
  }

  /** A key held by no generation is found by no lookup. */
  lemma {:induction false} LookupOfAbsentKey(store: Store, name: string, key: string)
    requires forall i | 0 <= i < |store| :: key !in store[i].entries
    ensures Lookup(store, name, key) == None
  {
    if store != [] && store[0].name != name {
      LookupOfAbsentKey(store[1..], name, key);
    }
  }

  /** With unique names, `caches.match` misses exactly when every per-generation lookup misses. */
  lemma MatchMissIffNoLookup(store: Store, key: string)
    requires UniqueNames(store)
    ensures Match(store, key).None? <==> forall n :: Lookup(store, n, key).None?
  {
    if Match(store, key).None? {
      forall n ensures Lookup(store, n, key).None? {
        LookupOfAbsentKey(store, n, key);
      }
    } else {
      var i :| 0 <= i < |store| && key in store[i].entries;
      LookupAt(store, i, key);
    }
  }

  /** After a put, `caches.match` finds the new response unless another generation holds the key. */
  lemma {:induction false} MatchAfterPut(store: Store, name: string, key: string, resp: Response)
    requires forall i | 0 <= i < |store| :: store[i].name != name ==> key !in store[i].entries
    ensures Match(Put(store, name, key, resp), key) == Some(resp)
  {
    if store != [] && store[0].name != name {
      assert key !in store[0].entries;
      MatchAfterPut(store[1..], name, key, resp);
    }
  }

  // ---------------------------------------------------------------------------
  // The fetch policy over several requests.

  /** Network-first round trip: a same-origin 200 fetched online is what the
      same request gets back offline, as long as no other generation holds that URL. */
  lemma OnlineThenOffline(store: Store, worker: Worker, req: Request, resp: Response)
    requires Classify(req) == NetworkFirst && Cacheable(worker, req, resp)
    requires forall i | 0 <= i < |store| :: store[i].name != worker.cacheName ==> req.url !in store[i].entries
    ensures
      var online := OnFetch(store, worker, req, Ok(resp));
      OnFetch(online.store, worker, req, Failed).reply == RespondWith(Some(resp))
  {
    MatchAfterPut(store, worker.cacheName, req.url, resp);
  }

  /** A network-first response changes the cache storage only if it is a
      same-origin 200: a 201, a 304, an opaque cross-origin reply (status 0)
      or an error status is served but never stored. */
  lemma OnlyCacheableIsStored(store: Store, worker: Worker, req: Request, resp: Response)
    requires Classify(req) == NetworkFirst
    ensures OnFetch(store, worker, req, Ok(resp)).store != store ==> resp.status == 200 && req.origin == worker.origin
    ensures resp.status == 200 && req.origin == worker.origin ==>
      Lookup(OnFetch(store, worker, req, Ok(resp)).store, worker.cacheName, req.url) == Some(resp)
  {
  }

  /** The fallback lookup reads every generation, not only the worker's own:
      while a newer worker waits, the active one answers an offline request from
      the newer generation. */
  lemma FallbackReadsOtherGenerations()
    ensures
      var w := Deployed("https://a.shop");
      var url := "https://a.shop/new.js";
      var req := Request("GET", url, "https://a.shop", "a.shop", "/n", Cors);
      var newer := Response(200, "text/javascript", "v3");
      var store := [Generation(CacheName, map[]), Generation("bajyas-market-v3", map[url := newer])];
      Lookup(store, CacheName, url) == None
      && OnFetch(store, w, req, Failed).reply == RespondWith(Some(newer))
  {
    var w := Deployed("https://a.shop");
    var url := "https://a.shop/new.js";
    var req := Request("GET", url, "https://a.shop", "a.shop", "/n", Cors);
    var newer := Response(200, "text/javascript", "v3");
    var store := [Generation(CacheName, map[]), Generation("bajyas-market-v3", map[url := newer])];
    assert Intercepted(req);
    assert !IsBackendCall(req);
    assert Classify(req) == NetworkFirst;
    MatchFindsFirst(store, url, 1);
  }

  /** The configuration endpoint is classified before the backend bypass, so
      it is answered even on an Internet Computer host. */
  lemma ConfigBeforeBackendBypass()
    ensures
      var req := Request("GET", "https://x.ic0.app/env.json", "https://x.ic0.app", "x.ic0.app", ConfigPath, SameOrigin);
      IsBackendCall(req) && Classify(req) == ConfigFetch
      && OnFetch([], Deployed("https://x.ic0.app"), req, Failed).reply == RespondWith(Some(ConfigUnavailable))
  {
    Strings.ContainsAt("x.ic0.app", ".ic0.app", 1);
  }

  /** The configuration reply does not depend on what is cached. */
  lemma ConfigReplyIgnoresCache(s1: Store, s2: Store, worker: Worker, req: Request, net: NetOutcome)
    requires IsConfigRequest(req)
    ensures OnFetch(s1, worker, req, net).reply == OnFetch(s2, worker, req, net).reply
  {
  }

  lemma ConfigUrlNotPrecached(worker: Worker)
    ensures ConfigPath !in PrecacheAssets
    ensures ConfigUrl(worker) !in PrecacheUrls(worker)
  {
    var urls := PrecacheUrls(worker);
    forall i | 0 <= i < |urls|
      ensures urls[i] != ConfigUrl(worker)
    {
      assert |PrecacheAssets[i]| != |ConfigPath|;
    }
  }

  /** One event leaves the configuration URL uncached if it was uncached before. */
  lemma ConfigStaysUncachedStep(store: Store, worker: Worker, e: WorkerEvent)
    requires forall n :: Lookup(store, n, ConfigUrl(worker)).None?
    requires e.FetchEvent? && e.req.url == ConfigUrl(worker) ==> e.req.pathname == ConfigPath
    ensures forall n :: Lookup(Apply(store, worker, e), n, ConfigUrl(worker)).None?
  {
    var u := ConfigUrl(worker);
    match e
    case FetchEvent(req, net) =>
    case InstallEvent(fetch, openFails) =>
      ConfigUrlNotPrecached(worker);
    case ActivateEvent =>
    case MessageEvent(_) =>
  }

  /** Over any run of events, the configuration endpoint never enters any
      cache generation, provided every request for its URL has its path (as URL
      parsing guarantees). */
  lemma {:induction false} ConfigNeverCached(store: Store, worker: Worker, events: seq<WorkerEvent>)
    requires UniqueNames(store)
    requires Match(store, ConfigUrl(worker)).None?
    requires forall i | 0 <= i < |events| ::
      events[i].FetchEvent? && events[i].req.url == ConfigUrl(worker) ==> events[i].req.pathname == ConfigPath
    ensures UniqueNames(RunEvents(store, worker, events))
    ensures Match(RunEvents(store, worker, events), ConfigUrl(worker)).None?
    decreases |events|
  {
    MatchMissIffNoLookup(store, ConfigUrl(worker));
    if events != [] {
      var next := Apply(store, worker, events[0]);
      ConfigStaysUncachedStep(store, worker, events[0]);
      MatchMissIffNoLookup(next, ConfigUrl(worker));
      assert forall i | 1 <= i < |events| :: events[1..][i - 1] == events[i];
      ConfigNeverCached(next, worker, events[1..]);
    }
  }

  // ---------------------------------------------------------------------------
  // Cache generations across install and activate.

  /** After a successful install and the activation that follows, exactly one
      generation is left, the worker's own. */
  lemma InstallThenActivate(store: Store, worker: Worker, fetch: string -> NetOutcome)
    requires UniqueNames(store)
    ensures Names(OnActivate(OnInstall(store, worker, fetch, false).store, worker)) == [worker.cacheName]
  {
    var s := OnActivate(OnInstall(store, worker, fetch, false).store, worker);
    assert worker.cacheName in Names(s);
    assert |s| == 1;
  }

  /** Deploying v1 and then v2 leaves only v2's generation. */
  lemma UpgradeKeepsOnlyNewGeneration(store: Store, origin: string, fetch1: string -> NetOutcome, fetch2: string -> NetOutcome)
    requires UniqueNames(store)
    ensures
      var v1 := Worker("v1", origin);
      var v2 := Worker("v2", origin);
      var s1 := OnActivate(OnInstall(store, v1, fetch1, false).store, v1);
      Names(OnActivate(OnInstall(s1, v2, fetch2, false).store, v2)) == ["v2"]
  {
    var v1 := Worker("v1", origin);
    var v2 := Worker("v2", origin);
    InstallThenActivate(store, v1, fetch1);
    var s1 := OnActivate(OnInstall(store, v1, fetch1, false).store, v1);
    InstallThenActivate(s1, v2, fetch2);
  }

  /** Precaching is all-or-nothing: with the manifest ["/", "/offline.html"] and
      the offline page failing, the install still completes but nothing is stored,
      not even "/". */
  lemma PartialPrecacheStoresNothing(store: Store, origin: string, fetch: string -> NetOutcome)
    requires fetch(origin + "/offline.html") == Failed
    ensures
      var w := Deployed(origin);
      var r := AddAll(store, CacheName, [origin + "/", origin + "/offline.html"], fetch);
      CacheName in Names(r) && forall n, k :: Lookup(r, n, k) == Lookup(store, n, k)
  {
    var urls := [origin + "/", origin + "/offline.html"];
    assert !fetch(urls[1]).Ok?;
  }

  /** In a store of one generation, `caches.match` is a lookup in that generation. */
  lemma SingleGenerationMatch(store: Store, key: string)
    requires |store| == 1
    ensures Match(store, key) == Lookup(store, store[0].name, key)
  {
  }

  /** An offline navigation in a one-generation store that misses its URL gets the cached offline page. */
  lemma NavigationFallsBackToOfflinePage(s: Store, worker: Worker, req: Request)
    requires |s| == 1 && s[0].name == worker.cacheName
    requires req.mode == Navigate && Classify(req) == NetworkFirst
    requires Lookup(s, worker.cacheName, req.url) == None
    ensures OnFetch(s, worker, req, Failed).reply
      == RespondWith(Lookup(s, worker.cacheName, Resolve(worker, OfflinePath)))
  {
    SingleGenerationMatch(s, req.url);
    SingleGenerationMatch(s, Resolve(worker, OfflinePath));
  }

  /** The offline page is the second manifest entry. */
  lemma OfflinePageIsPrecached(worker: Worker)
    ensures PrecacheUrls(worker)[1] == Resolve(worker, OfflinePath)
  {
    assert PrecacheAssets[1] == OfflinePath;
  }

  /** A navigation made offline, after a successful install and activation,
      for a page that was never cached, gets the precached offline page. */
  lemma OfflineNavigationGetsOfflinePage(store: Store, worker: Worker, fetch: string -> NetOutcome, req: Request)
    requires UniqueNames(store)
    requires AllFetched(PrecacheUrls(worker), fetch)
    requires req.mode == Navigate && Classify(req) == NetworkFirst
    requires req.url !in PrecacheUrls(worker) && Lookup(store, worker.cacheName, req.url).None?
    ensures
      var s := OnActivate(OnInstall(store, worker, fetch, false).store, worker);
      var page := fetch(Resolve(worker, OfflinePath));
      page.Ok? && OnFetch(s, worker, req, Failed).reply == RespondWith(Some(page.response))
  {
    var offline := Resolve(worker, OfflinePath);
    OfflinePageIsPrecached(worker);
    var installed := OnInstall(store, worker, fetch, false).store;
    assert Lookup(installed, worker.cacheName, offline) == Some(fetch(offline).response);
    assert Lookup(installed, worker.cacheName, req.url) == None;
    var s := OnActivate(installed, worker);
    InstallThenActivate(store, worker, fetch);
    NavigationFallsBackToOfflinePage(s, worker, req);
  }

  /** A non-navigation request that fails with nothing cached gets the 408 reply. */
  lemma OfflineMissIsNetworkError(store: Store, worker: Worker, req: Request)
    requires Classify(req) == NetworkFirst && req.mode != Navigate
    requires forall i | 0 <= i < |store| :: req.url !in store[i].entries
    ensures OnFetch(store, worker, req, Failed).reply == RespondWith(Some(NetworkError))
    ensures NetworkError.status == 408 && NetworkError.contentType == "text/plain"
  {
  }
}
