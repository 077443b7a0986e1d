# bajya's market: offline layer, update protocol and form logic in Dafny

This project models the decision logic of the bajya's market progressive web
app's front end and proves properties of it. Each modelled source file has
its own module:

- `ServiceWorker` (`public/sw.js`): cache generations, install and activate,
  the `SKIP_WAITING` message handler, and the first-match-wins fetch policy.
  Its routes are: ignored, `/env.json`, backend bypass, and network-first
  with offline fallback.
- `OfflinePolicy`: properties that span several worker events.
- `SwRegistration` (`src/pwa/registerServiceWorker.ts`): the page-side glue.
  It decides when `swUpdateReady` and `swControllerChange` are dispatched.
- `UpdateBanner` (`src/components/PwaUpdateBanner.tsx`): the update banner
  and its Refresh button, which posts `SKIP_WAITING` to the waiting worker.
- `InstallPrompt` (`src/components/PwaInstallPrompt.tsx`): the deferred
  install prompt and the component's three-way render decision.
- `Catalog` (`src/pages/ProductsPage.tsx`): the search filter, the four sort
  modes, and the result-count wording.
- `ShopifyStorefront` (`src/lib/shopifyStorefront.ts`): the endpoint URL, and
  how the connection test and the products fetch classify a reply.
- `ShopifySync` (`src/hooks/useShopifySync.ts`): mapping a Shopify product to
  the canister's input, and the checks the sync mutation makes.
- `ProductForm` (`src/components/admin/AdminProductForm.tsx`): the initial
  state, validation, image acceptance, image removal and the submitted
  payload.
- `EnvConfig` (`src/config/index.ts`): `loadConfig` derivation and
  memoisation, and the host and root-key decision of
  `createActorWithConfig`.
- `UserMessage` (`src/utils/toUserMessage.ts`): turning any thrown value
  into text.

Shared modules:

- `Wrappers`: `Option`.
- `Strings`: `trim`, `includes`, `replace` with a string pattern, `toLowerCase`, the `a || fallback` idiom on strings, and decimal rendering.
- `JsValues`: untyped JavaScript values with truthiness, `typeof`,
  `instanceof Error`, property reads and `String()`.
- `Lists`: `filter` and a stable sort.
- `Backend`: the canister's product record.

Every handler is one atomic step over immutable state. Whatever the
program gets from the outside world is an input to the step. This covers
network outcomes (`NetOutcome`, `Transport`, `EnvFetch`), `parseFloat`
(`string -> Option<real>`, with `None` for NaN), `localeCompare`
(an abstract "sorts before" relation), the `FileReader` result, and browser
callbacks. The side effects the program causes become outputs:
dispatched window events, posted messages and a scheduled reload.

Three consequences of the code as written shape the cache model:

- Precaching uses `Cache.addAll`, which is all-or-nothing in the Cache API
  (the `addAll(requests)` method of the Cache interface in W3C Service Workers):
  every fetch must yield an ok status other than 206, or nothing is stored.
  So one failed asset leaves the generation empty. The install still
  completes, because the rejection is caught and only logged.
- The offline fallback uses `caches.match`. It searches every cache
  generation in creation order, not only the worker's own. The cache store
  is therefore an ordered sequence of named generations rather than a map.
- Activate deletes every generation whose name differs from the worker's,
  so at most one generation remains (`OnActivate`). Exactly one remains
  when the install before it opened the worker's generation
  (`InstallThenActivate`).

## Model

| member | source | states |
|---|---|---|
| ServiceWorker.Match | src/frontend/public/sw.js:98 | `caches.match` misses exactly when no generation of any name holds the key |
| ServiceWorker.Open | src/frontend/public/sw.js:18 | opening appends an empty generation only when the name is new; no stored response changes and names stay unique |
| ServiceWorker.Put | src/frontend/public/sw.js:89-91 | after a put the entry reads back; every other (generation, key) lookup is unchanged; names stay unique |
| ServiceWorker.StoreAll | src/frontend/public/sw.js:19 | once every fetch succeeded, each URL reads back its fetched response and nothing outside the batch changes |
| ServiceWorker.AddAll | src/frontend/public/sw.js:19 | all-or-nothing: the generation exists afterwards; when every fetch succeeds with a status in 200..299 other than 206, all URLs are stored; otherwise no lookup changes at all |
| ServiceWorker.PrecacheUrls | src/frontend/public/sw.js:6-13 | the precache list is the manifest resolved against the worker's origin, entry by entry |
| ServiceWorker.OnInstall | src/frontend/public/sw.js:16-25 | install fails only when the cache cannot be opened; otherwise the worker is left waiting (never skips waiting) with its generation present; a failed precache stores nothing |
| ServiceWorker.OnMessage | src/frontend/public/sw.js:44-48 | the phase changes exactly when a waiting worker receives an object whose `type` is `SKIP_WAITING`, and then it becomes activating |
| ServiceWorker.Keep | src/frontend/public/sw.js:30-37 | only generations with the kept name survive, with their entries intact; other names read nothing |
| ServiceWorker.OnActivate | src/frontend/public/sw.js:28-39 | after activate every other generation is gone and the current one, if present, is untouched; at most one generation remains |
| ServiceWorker.Classify | src/frontend/public/sw.js:52-81 | the route is "ignored" exactly for non-GET or non-http requests, "configuration" exactly for an intercepted `/env.json`, "bypass" exactly for other intercepted backend calls, and network-first for the rest |
| ServiceWorker.OfflineReply | src/frontend/public/sw.js:96-112 | a cached copy of the URL wins; on a miss a navigation gets the cached offline page (possibly none) and anything else gets the 408 reply; only a navigation can get no response |
| ServiceWorker.OnFetch | src/frontend/public/sw.js:51-116 | the first-match-wins policy: non-GET or non-http is unanswered; `/env.json` is fetched no-store, never cached, 503 JSON when offline; backend calls bypass; otherwise network-first, storing exactly a same-origin 200 under the request URL, with fallback to any cached copy, the offline page for navigations, else 408 |
| OfflinePolicy.MatchFindsFirst | src/frontend/public/sw.js:98 | `caches.match` answers from the first generation, in creation order, that holds the key |
| OfflinePolicy.MatchMissIffNoLookup | src/frontend/public/sw.js:98 | with unique names, a store-wide miss is the same as a miss in every named generation |
| OfflinePolicy.MatchAfterPut | src/frontend/public/sw.js:89-100 | a response put under a key is what `caches.match` returns for it, unless another generation holds the key |
| OfflinePolicy.OnlineThenOffline | src/frontend/public/sw.js:83-101 | a same-origin 200 served online is served again for the same request offline, when no generation other than the worker's own holds that URL |
| OfflinePolicy.OnlyCacheableIsStored | src/frontend/public/sw.js:86-92 | a network-first response changes the cache only if it is a 200 from the worker's origin, and such a response is then stored under the request URL |
| OfflinePolicy.FallbackReadsOtherGenerations | src/frontend/public/sw.js:98-101 | an offline request can be answered from a generation other than the worker's own |
| OfflinePolicy.ConfigBeforeBackendBypass | src/frontend/public/sw.js:66-81 | `/env.json` on an `.ic0.app` host takes the configuration route, not the bypass |
| OfflinePolicy.ConfigReplyIgnoresCache | src/frontend/public/sw.js:66-76 | the configuration reply is independent of the cache contents |
| OfflinePolicy.ConfigUrlNotPrecached | src/frontend/public/sw.js:4-13 | the precache manifest excludes `/env.json` |
| OfflinePolicy.ConfigStaysUncachedStep | src/frontend/public/sw.js:64-76 | no single worker event writes the configuration URL into any generation |
| OfflinePolicy.ConfigNeverCached | src/frontend/public/sw.js:64-91 | over any run of fetch, install, activate and message events the configuration URL never enters the cache |
| OfflinePolicy.InstallThenActivate | src/frontend/public/sw.js:16-39 | a successful install followed by activate leaves exactly the worker's own generation |
| OfflinePolicy.UpgradeKeepsOnlyNewGeneration | src/frontend/public/sw.js:28-39 | deploying a second version and activating it removes the first version's generation |
| OfflinePolicy.PartialPrecacheStoresNothing | src/frontend/public/sw.js:19-21 | one failed precache URL leaves every lookup unchanged, even for the URLs that did load |
| OfflinePolicy.SingleGenerationMatch | src/frontend/public/sw.js:98 | in a one-generation store `caches.match` is a lookup in that generation |
| OfflinePolicy.NavigationFallsBackToOfflinePage | src/frontend/public/sw.js:103-106 | an offline navigation that misses the cache gets the cached offline page, which may be absent |
| OfflinePolicy.OfflinePageIsPrecached | src/frontend/public/sw.js:6-8 | the offline page is in the precache list |
| OfflinePolicy.OfflineNavigationGetsOfflinePage | src/frontend/public/sw.js:96-106 | after a complete install and activate, an offline navigation to an uncached page gets the precached offline page |
| OfflinePolicy.OfflineMissIsNetworkError | src/frontend/public/sw.js:108-112 | an offline non-navigation miss gets 408, `text/plain`, "Network error" |
| SwRegistration.OnEvent | src/frontend/src/pwa/registerServiceWorker.ts:1-43 | `load` starts registering only from the initial state; a resolved registration is adopted with nothing watched and a rejected one ends in the failed state, both only while registering; `updatefound` before registration changes nothing; at most one window event per callback; `swUpdateReady` exactly when a watched worker reaches `installed` under a controller, carrying the registration; one `swControllerChange` per `controllerchange` once registered; only the `installing` worker of an `updatefound` becomes watched |
| SwRegistration.Init | src/frontend/src/pwa/registerServiceWorker.ts:2-3 | without `serviceWorker` in `navigator` nothing is attached; otherwise the glue waits for `load` |
| SwRegistration.ResolvedRegistrationIsAnnounced | src/frontend/src/pwa/registerServiceWorker.ts:2-21 | from page start, after `load` and a resolved `register()` the glue stays registered with that registration, and every later `swUpdateReady` carries it |
| SwRegistration.UnsupportedIsSilent | src/frontend/src/pwa/registerServiceWorker.ts:2-42 | without service-worker support nothing is ever dispatched |
| SwRegistration.FailedRegistrationIsSilent | src/frontend/src/pwa/registerServiceWorker.ts:35-38 | a rejected registration is absorbed and nothing is dispatched afterwards |
| SwRegistration.OneControllerChangeEach | src/frontend/src/pwa/registerServiceWorker.ts:28-33 | the number of `swControllerChange` events equals the number of `controllerchange` callbacks |
| SwRegistration.UpdateReadyCarriesRegistration | src/frontend/src/pwa/registerServiceWorker.ts:19-21 | every `swUpdateReady` over a run carries the registration |
| SwRegistration.UnwatchedWorkerIsSilent | src/frontend/src/pwa/registerServiceWorker.ts:10-23 | a worker never reported as `installing` is never watched, and no update is announced on its behalf |
| SwRegistration.FirstInstallIsSilent | src/frontend/src/pwa/registerServiceWorker.ts:14-22 | without a controller no update is announced |
| UpdateBanner.OnPageEvent | src/frontend/src/components/PwaUpdateBanner.tsx:10-19 | `swUpdateReady` shows the banner and stores its registration; `swControllerChange` hides it and keeps the registration |
| UpdateBanner.OnDismiss | src/frontend/src/components/PwaUpdateBanner.tsx:42-44 | dismiss hides and keeps the registration |
| UpdateBanner.OnRefresh | src/frontend/src/components/PwaUpdateBanner.tsx:30-40 | Refresh has effects exactly when a registration and a waiting worker exist: it posts `{type:'SKIP_WAITING'}` to that worker, then schedules a reload in 100 ms |
| UpdateBanner.VisibleIffLastIsUpdateReady | src/frontend/src/components/PwaUpdateBanner.tsx:46-48 | after any events the banner renders exactly when the last event was `swUpdateReady` |
| UpdateBanner.RegistrationComesFromEvents | src/frontend/src/components/PwaUpdateBanner.tsx:10-14 | the remembered registration is the initial one or one carried by an event |
| UpdateBanner.RefreshMessageSkipsWaiting | src/frontend/src/components/PwaUpdateBanner.tsx:33 | the posted message is the one the worker's handler accepts, moving a waiting worker to activation |
| UpdateBanner.UpdateFlowReachesWorker | src/frontend/src/components/PwaUpdateBanner.tsx:10-40 | an announced update shows the banner with the registration, and Refresh then messages the waiting worker |
| InstallPrompt.Mount | src/frontend/src/components/PwaInstallPrompt.tsx:20-46 | standalone mode counts as installed and attaches no listener; otherwise listeners are attached with nothing deferred |
| InstallPrompt.OnEvent | src/frontend/src/components/PwaInstallPrompt.tsx:27-66 | `beforeinstallprompt` defers and shows; `appinstalled` installs, hides, clears; install click prompts exactly when an event is deferred, then clears and hides; dismiss hides only; each handler changes no other field; before listeners are attached the events change nothing; the invariant show ⇒ deferred is kept |
| InstallPrompt.Render | src/frontend/src/components/PwaInstallPrompt.tsx:69-136 | installed → nothing; deferred and shown → Install button; nothing deferred → instructions; deferred but hidden → nothing |
| InstallPrompt.RunKeepsInv | src/frontend/src/components/PwaInstallPrompt.tsx:74 | every reachable state shows the offer only while an event is deferred |
| InstallPrompt.InstalledRendersNothing | src/frontend/src/components/PwaInstallPrompt.tsx:69-71 | once installed, the component renders nothing after any events |
| InstallPrompt.StandaloneRendersNothing | src/frontend/src/components/PwaInstallPrompt.tsx:22-25 | in standalone mode nothing is ever rendered |
| InstallPrompt.ReachableRender | src/frontend/src/components/PwaInstallPrompt.tsx:73-95 | in reachable states the Install button shows exactly when not installed and the offer is on |
| Lists.Filter | src/frontend/src/pages/ProductsPage.tsx:24-28 | each element occurs in the result exactly as often as in the input if it satisfies the predicate, and not at all otherwise; the result is a subsequence of the input |
| Lists.Insert | src/frontend/src/pages/ProductsPage.tsx:32-41 | insertion adds exactly the one element |
| Lists.Sort | src/frontend/src/pages/ProductsPage.tsx:32-41 | the sort is a permutation |
| Lists.SortSorted | src/frontend/src/pages/ProductsPage.tsx:32-41 | under a strict weak order the output is sorted |
| Lists.SortIsStable | src/frontend/src/pages/ProductsPage.tsx:32-41 | elements that compare equal keep their relative order |
| Lists.SortKeepsSorted | src/frontend/src/pages/ProductsPage.tsx:33-35 | an already sorted input is returned unchanged |
| Catalog.Search | src/frontend/src/pages/ProductsPage.tsx:21-29 | a blank term keeps the list; otherwise a product is kept, with its multiplicity, iff its lowercased name, description or category contains the lowercased, untrimmed term; the result is a subsequence |
| Catalog.MatchIgnoresCase | src/frontend/src/pages/ProductsPage.tsx:23-28 | the search predicate gives the same answer for a term and its lowercase form, and a term found verbatim in the name, description or category matches |
| Catalog.Arrange | src/frontend/src/pages/ProductsPage.tsx:31-44 | every mode permutes; `default` keeps the order; the other modes sort by their comparator |
| Catalog.FilterAndSort | src/frontend/src/pages/ProductsPage.tsx:16-47 | no data gives the empty list; the result is a permutation of the filtered list, price-ascending, price-descending or name-ordered by mode, unchanged in `default` |
| Catalog.SortModesAreOrders | src/frontend/src/pages/ProductsPage.tsx:33-41 | the price comparators are strict weak orders, and so is the name comparator when the collation is |
| Catalog.TiesKeepFilteredOrder | src/frontend/src/pages/ProductsPage.tsx:31-44 | equal prices or names keep their filtered order |
| Catalog.BlankTermShowsEverything | src/frontend/src/pages/ProductsPage.tsx:22 | a white-space-only term returns every product in its original order |
| Catalog.OrderedCatalogUnchanged | src/frontend/src/pages/ProductsPage.tsx:33-35 | a catalog already in price order is shown as it is under `price-asc` |
| Catalog.CountNoun | src/frontend/src/pages/ProductsPage.tsx:115 | "product" exactly for a count of one, "products" otherwise |
| Catalog.EmptyMessage | src/frontend/src/pages/ProductsPage.tsx:109 | "No products available." exactly for an empty term |
| Catalog.BlankSearchReportedAsSearch | src/frontend/src/pages/ProductsPage.tsx:106-111 | a white-space-only term applies no filter, yet an empty list is reported as a failed search |
| Strings.Trim | src/frontend/src/pages/ProductsPage.tsx:22 | `trim()` is an infix of the input with only white space around it; it is empty exactly when every character is white space; a non-empty result starts and ends with a non-space |
| Strings.ReplaceFirst | src/frontend/src/hooks/useShopifySync.ts:24 | without an occurrence of the pattern the string is unchanged; otherwise exactly the first occurrence is replaced |
| Strings.IndexOf | src/frontend/src/pages/ProductsPage.tsx:25-27 | the first occurrence is found, and none exists when nothing is found |
| Strings.ToLower | src/frontend/src/pages/ProductsPage.tsx:23 | lowercasing maps each character and keeps the length |
| Strings.NatToStringRoundTrip | src/frontend/src/lib/shopifyStorefront.ts:113 | the decimal rendering of a status reads back as the same number |
| ShopifyStorefront.StripScheme | src/frontend/src/lib/shopifyStorefront.ts:85 | at most one leading `https://` or `http://` is removed |
| ShopifyStorefront.StripTrailingSlash | src/frontend/src/lib/shopifyStorefront.ts:85 | exactly one trailing slash is removed when present |
| ShopifyStorefront.CleanDomain | src/frontend/src/lib/shopifyStorefront.ts:85 | the cleaned domain is a prefix of the input after its scheme, if any, and at most one character shorter than it |
| ShopifyStorefront.BuildStorefrontUrl | src/frontend/src/lib/shopifyStorefront.ts:83-87 | the URL starts with `https://` and ends with the API path, around the cleaned domain |
| ShopifyStorefront.DomainOfBuild | src/frontend/src/lib/shopifyStorefront.ts:83-87 | the cleaned domain can be read back from the URL |
| ShopifyStorefront.CleanDomainRecoversHost | src/frontend/src/lib/shopifyStorefront.ts:85 | a bare host survives any one scheme and any one trailing slash |
| ShopifyStorefront.SchemeStrippedOnce | src/frontend/src/lib/shopifyStorefront.ts:85 | a doubled scheme keeps its inner copy |
| ShopifyStorefront.HttpError | src/frontend/src/lib/shopifyStorefront.ts:113 | the message starts with "HTTP " and ends with ": " and the status text |
| ShopifyStorefront.HttpErrorShowsStatus | src/frontend/src/lib/shopifyStorefront.ts:110-115 | the message carries the status number in decimal |
| ShopifyStorefront.TestConnection | src/frontend/src/lib/shopifyStorefront.ts:92-133 | success iff a 2xx reply parses with no GraphQL errors; otherwise the HTTP line, the first error message, or the caught message with "Network error" as fallback |
| ShopifyStorefront.QueryLimit | src/frontend/src/lib/shopifyStorefront.ts:141 | the default limit is 50 |
| ShopifyStorefront.FetchProducts | src/frontend/src/lib/shopifyStorefront.ts:138-189 | no error iff a 2xx reply parses with no errors and has edges, and then the products are the nodes in order; every failure has no products and its specific error |
| ShopifyStorefront.ConnectionAndFetchAgree | src/frontend/src/lib/shopifyStorefront.ts:92-189 | the two calls report the same error on every failure the connection test sees; otherwise the fetch fails only for a missing product list |
| ShopifySync.MapProduct | src/frontend/src/hooks/useShopifySync.ts:9-37 | price, currency and stock come from the first variant, with 0, "USD" (also for an empty currency code) and true as defaults; the image is the first URL or ""; the category is the product type, or "Other" exactly when the type is empty; the external id and source are set |
| ShopifySync.ExternalId | src/frontend/src/hooks/useShopifySync.ts:24 | an id without the global-id prefix is unchanged; one containing it is shortened by exactly the prefix's length |
| ShopifySync.ExternalIdOfGid | src/frontend/src/hooks/useShopifySync.ts:24 | a global id loses exactly its prefix |
| ShopifySync.ExternalIdWithoutGid | src/frontend/src/hooks/useShopifySync.ts:24 | an id without the prefix is unchanged |
| ShopifySync.ExternalIdRemovesOnce | src/frontend/src/hooks/useShopifySync.ts:24 | only the first occurrence is removed |
| ShopifySync.Sync | src/frontend/src/hooks/useShopifySync.ts:52-73 | no actor, a non-empty fetch error, or an empty list each fail with their own message (the last "No products found in your Shopify store"); otherwise one mapped input per product, in order, and the count is the number of products |
| ShopifySync.FetchFailureStopsSync | src/frontend/src/hooks/useShopifySync.ts:56-60 | any failed products fetch stops the sync |
| ShopifySync.EmptyGraphqlMessageLooksLikeEmptyStore | src/frontend/src/hooks/useShopifySync.ts:58-64 | a GraphQL error with an empty message is reported as an empty store |
| ShopifySync.SuccessfulFetchImportsAll | src/frontend/src/hooks/useShopifySync.ts:62-72 | a successful fetch of a non-empty store imports every product in order |
| ProductForm.InitialState | src/frontend/src/components/admin/AdminProductForm.tsx:44-55 | create starts empty with USD, Other and in stock; edit copies the product's fields with the same defaults |
| ProductForm.Validate | src/frontend/src/components/admin/AdminProductForm.tsx:66-88 | the name error iff the name is blank; the price error is "required" iff blank, else "not positive" iff it does not parse to a positive number; the currency error iff empty |
| ProductForm.ValidIff | src/frontend/src/components/admin/AdminProductForm.tsx:66-88 | the form is valid exactly when the name is not blank, the price parses positive, and a currency is set |
| ProductForm.ChooseImage | src/frontend/src/components/admin/AdminProductForm.tsx:90-103 | a rejected or missing file leaves the state unchanged; a non-image and an oversized image each get their toast |
| ProductForm.ChooseImageAccepts | src/frontend/src/components/admin/AdminProductForm.tsx:92-101 | a file is accepted iff its type starts with `image/` and it is at most 5 MiB |
| ProductForm.FiveMebibytesAccepted | src/frontend/src/components/admin/AdminProductForm.tsx:97 | exactly 5 MiB is accepted, one byte more is not |
| ProductForm.RemoveImage | src/frontend/src/components/admin/AdminProductForm.tsx:105-109 | clears file, preview and image URL and leaves every other field unchanged |
| ProductForm.MakePayload | src/frontend/src/components/admin/AdminProductForm.tsx:127-135 | only name and description are trimmed; for a valid form the price is the parsed positive number |
| ProductForm.Submit | src/frontend/src/components/admin/AdminProductForm.tsx:111-152 | rejected with the field errors exactly when validation fails; otherwise the form is valid and the send step decides |
| ProductForm.Send | src/frontend/src/components/admin/AdminProductForm.tsx:119-151 | an unreadable file fails with the mode's toast; otherwise create sends the payload, edit with a product sends it with the product's id, edit without one sends nothing |
| ProductForm.UntouchedEditSendsSameId | src/frontend/src/components/admin/AdminProductForm.tsx:44-146 | editing a product whose name and price text start with a visible character, and whose positive price reads back from its text, updates that product id with its own price and trimmed name |
| EnvConfig.FromEnvJson | src/frontend/src/config/index.ts:28-32 | the canister id is `BACKEND_CANISTER_ID` if truthy, else `canisterId`; the host is mainnet iff `DFX_NETWORK` is `ic`, else local |
| EnvConfig.Fallback | src/frontend/src/config/index.ts:39-45 | the host is local iff DEV; the canister id is the build variable or the default id |
| EnvConfig.LoadConfig | src/frontend/src/config/index.ts:18-48 | a cached config is returned without a request; otherwise the config comes from a usable `env.json` or the fallback, and is cached |
| EnvConfig.LoadIsMemoised | src/frontend/src/config/index.ts:19-21 | a second call returns the first config without fetching |
| EnvConfig.OfflineWorkerReplyFallsBack | src/frontend/src/config/index.ts:25-45 | the worker's offline 503 for `/env.json` makes the page use the fallback |
| EnvConfig.PlanActor | src/frontend/src/config/index.ts:117-136 | a non-empty host option overrides the config host; the root key is fetched iff the host names localhost or 127.0.0.1 |
| EnvConfig.LocalHostFetchesRootKey | src/frontend/src/config/index.ts:130 | the local replica host fetches the root key |
| EnvConfig.MainnetIsNotLocal | src/frontend/src/config/index.ts:130 | the mainnet host does not |
| EnvConfig.FallbackRootKey | src/frontend/src/config/index.ts:40-43 | a development fallback fetches the root key and a production one does not |
| UserMessage.ToUserMessage | src/frontend/src/utils/toUserMessage.ts:6-20 | a string is returned as is; an `Error` gives its message; an object with `message` gives `String(message)`; anything else gives the default text |
| UserMessage.Idempotent | src/frontend/src/utils/toUserMessage.ts:7-9 | converting a result again changes nothing |
| UserMessage.ErrorBranchAgreesWithObjectBranch | src/frontend/src/utils/toUserMessage.ts:11-17 | for an `Error` the object branch would have produced the same text |
| UserMessage.AgreesWithCaughtMessage | src/frontend/src/utils/toUserMessage.ts:11-13 | for an `Error` the text matches what the Shopify client's `catch` blocks report |
| UserMessage.NoMessageGivesDefault | src/frontend/src/utils/toUserMessage.ts:19 | null, undefined, numbers, functions and objects without `message` give the default text |
| UserMessage.NonStringMessageIsStringified | src/frontend/src/utils/toUserMessage.ts:15-17 | a non-string `message` is rendered with `String()`, an `Error` as its name and message joined by ": " |

## Left out

- Concurrency: each handler is one atomic step. The fire-and-forget `cache.put` in `sw.js` completes within its fetch event, and fetch handlers never interleave.
- `self.clients.claim()` in `sw.js` is not modelled. The browser's worker lifecycle is reduced to the phases the handlers observe.
- URL parsing: a `Request` carries its origin, host name and path as separate fields, and `ConfigNeverCached` assumes they agree with the URL. Headers other than `Content-Type` are not modelled.
- The worker fetching with `cache: 'no-store'` is recorded as a flag; the HTTP cache itself is not modelled.
- Floating point: prices are exact reals. `parseFloat` is an abstract parameter, and `toString` on prices is one as well. NaN and Infinity are not modelled beyond `parseFloat`'s `None`.
- `localeCompare` collation: the name comparator is a parameter. Sorting by name is proved sorted only when that comparator is a strict weak order.
- `toLowerCase` maps ASCII letters only; other scripts' case mapping is not modelled.
- Strings.ReplaceFirst: `$` substitution patterns in the replacement string are not modelled; the code only ever replaces with the empty string.
- JavaScript values (`JsValues`) have no arrays, symbols, getters or custom `toString`. A number is represented by its decimal text, and a function by the source text `String()` gives for it.
- Foreign calls are outcomes or effects, not code: `fetch`, `response.json()`, `HttpAgent`, `Actor.createActor`, the IDL factory, `agent.fetchRootKey`, `FileReader`/`imageToDataUrl`, `URL.createObjectURL`, `window.location.reload` and `setTimeout`.
- The mutations after a successful `Submit` (`createProduct`, `updateProduct`, with their success toasts and `onSuccess`) and the sync's `bulkUpsertShopifyProducts` call are not modelled. The canister interface (`backend.d.ts`) does not declare `ProductInput` or `bulkUpsertShopifyProducts`, which the sync hook uses.
- InstallPrompt.OnEvent: the install click and the settling of `userChoice` are one step; events arriving while the choice is pending are not interleaved.
- React plumbing is not modelled: `useState`, `useEffect` cleanup, `useMemo` dependencies, query invalidation and JSX rendering beyond the render decision.
- ShopifyStorefront.FetchProducts: the GraphQL document is given already decoded (error messages and product nodes); malformed nodes inside `edges` are not modelled.

## Behaviour worth knowing

These are behaviours of the code as written that a reader might not expect. Each is stated as a lemma about the model. None is claimed to be a bug.

- `ShopifySync.EmptyGraphqlMessageLooksLikeEmptyStore`: a GraphQL error whose message is empty is falsy, so the sync reports "No products found in your Shopify store" instead of the API error.
- `Catalog.BlankSearchReportedAsSearch`: a white-space-only search term filters nothing, yet an empty list is then reported as "No products found matching your search.".
- `ProductForm.Send`: in edit mode without a product nothing is sent, yet the code goes on to call `onSuccess`.
- `EnvConfig.FromEnvJson`: when `env.json` has neither canister id, the configured canister id is `undefined`.
- `OfflinePolicy.FallbackReadsOtherGenerations`: while a new worker waits, the old one can answer offline requests from the new worker's cache.
