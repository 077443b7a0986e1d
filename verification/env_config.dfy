/** Runtime configuration (src/config/index.ts): `loadConfig` derives the
    canister id and host from `/env.json` or from the build environment and
    memoises the result; `createActorWithConfig` picks the agent host and
    decides whether to fetch the root key. The fetch, the agent and the actor
    are outside the model; their outcomes are inputs. */
module EnvConfig {
  import opened Wrappers
  import opened Strings
  import opened JsValues
  import ServiceWorker

  const MainnetHost: string := "https://icp-api.io"
  const LocalHost: string := "http://localhost:4943"
  const DefaultCanisterId: string := "rrkah-fqaaa-aaaaa-aaaaq-cai"

  /** `canisterId` is whatever `BACKEND_CANISTER_ID || canisterId` yields,
      which is `undefined` when `env.json` has neither. */
  datatype Config = Config(canisterId: JsValue, host: string, iiDerivationOrigin: JsValue)

  /** The build-time `import.meta.env` values read by the fallback. */
  datatype ViteEnv = ViteEnv(dev: bool, canisterId: Option<string>, iiDerivationOrigin: Option<string>)

  /** What `fetch('/env.json')` and `response.json()` produced: the fetch
      threw, or a status and the parsed body (`None` when it is not JSON). */
  datatype EnvFetch = FetchThrew | Answered(status: int, json: Option<JsValue>)

  /** The result of one `loadConfig` call: the config, the module cache
      afterwards, and whether `/env.json` was requested. */
  datatype Load = Load(config: Config, cache: Option<Config>, fetched: bool)

  function OptionalString(v: Option<string>): JsValue {
    if v.Some? then Str(v.value) else Undefined
  }

  /** The configuration a successful `env.json` describes. */
  function FromEnvJson(env: JsValue): (c: Config)
    requires !env.Null? && !env.Undefined?
    ensures c.host == MainnetHost <==> env.Get("DFX_NETWORK") == Str("ic")
    ensures c.host != MainnetHost ==> c.host == LocalHost
    ensures env.Get("BACKEND_CANISTER_ID").Truthy() ==> c.canisterId == env.Get("BACKEND_CANISTER_ID")
    ensures !env.Get("BACKEND_CANISTER_ID").Truthy() ==> c.canisterId == env.Get("canisterId")
    ensures c.iiDerivationOrigin == env.Get("II_DERIVATION_ORIGIN")
  {
    var primary := env.Get("BACKEND_CANISTER_ID");
    Config(
      if primary.Truthy() then primary else env.Get("canisterId"),
      if env.Get("DFX_NETWORK") == Str("ic") then MainnetHost else LocalHost,
      env.Get("II_DERIVATION_ORIGIN"))
  }

  /** The configuration of the build environment. */
  function Fallback(vite: ViteEnv): (c: Config)
    ensures c.host == LocalHost <==> vite.dev
    ensures !vite.dev ==> c.host == MainnetHost
    ensures c.canisterId.Str? && c.canisterId.s != []
    ensures vite.canisterId.Some? && vite.canisterId.value != [] ==> c.canisterId == Str(vite.canisterId.value)
    ensures vite.canisterId.None? || vite.canisterId.value == [] ==> c.canisterId == Str(DefaultCanisterId)
  {
    Config(
      Str(if vite.canisterId.Some? && vite.canisterId.value != [] then vite.canisterId.value else DefaultCanisterId),
      if vite.dev then LocalHost else MainnetHost,
      OptionalString(vite.iiDerivationOrigin))
  }

  /** `env.json` is used when the response is ok and its body is a JSON
      value whose properties can be read; anything else (a thrown fetch, a
      non-ok status, a body that is not JSON, a `null` body) falls back. */
  predicate UsesEnvJson(fetch: EnvFetch) {
    && fetch.Answered? && 200 <= fetch.status <= 299 && fetch.json.Some?
    && !fetch.json.value.Null? && !fetch.json.value.Undefined?
  }

  /** `loadConfig`. */
  function LoadConfig(cache: Option<Config>, fetch: EnvFetch, vite: ViteEnv): (r: Load)
    ensures cache.Some? ==> r == Load(cache.value, cache, false)
    ensures cache.None? ==> r.fetched && r.cache == Some(r.config)
    ensures cache.None? && UsesEnvJson(fetch) ==> r.config == FromEnvJson(fetch.json.value)
    ensures cache.None? && !UsesEnvJson(fetch) ==> r.config == Fallback(vite)
  {
    if cache.Some? then Load(cache.value, cache, false)
    else
      var config := if UsesEnvJson(fetch) then FromEnvJson(fetch.json.value)
                    else Fallback(vite);
      Load(config, Some(config), true)
  }

  /** Memoisation: a second call returns the first call's config without a
      request, whatever the network would have said. */
  lemma LoadIsMemoised(fetch1: EnvFetch, fetch2: EnvFetch, vite: ViteEnv)
    ensures var first := LoadConfig(None, fetch1, vite);
      var second := LoadConfig(first.cache, fetch2, vite);
      second.config == first.config && !second.fetched && second.cache == first.cache
  {
  }

  /** When the service worker answers the config request offline with its
      503 reply, the page falls back to the build environment. */
  lemma OfflineWorkerReplyFallsBack(store: ServiceWorker.Store, worker: ServiceWorker.Worker,
                                    req: ServiceWorker.Request, json: Option<JsValue>, vite: ViteEnv)
    requires ServiceWorker.IsConfigRequest(req)
    ensures var step := ServiceWorker.OnFetch(store, worker, req, ServiceWorker.Failed);
      step.reply.RespondWith? && step.reply.response.Some?
      && var status := step.reply.response.value.status;
      LoadConfig(None, Answered(status, json), vite).config == Fallback(vite)
  {
  }

  /** `createActorWithConfig` up to the agent: the host used, and whether
      the root key is fetched (a failure there is only logged). */
  datatype ActorPlan = ActorPlan(host: string, canisterId: JsValue, fetchRootKey: bool)

  predicate IsLocalHost(host: string) {
    Contains(host, "localhost") || Contains(host, "127.0.0.1")
  }

  function PlanActor(config: Config, hostOverride: Option<string>): (r: ActorPlan)
    ensures hostOverride.Some? && hostOverride.value != [] ==> r.host == hostOverride.value
    ensures hostOverride.None? || hostOverride.value == [] ==> r.host == config.host
    ensures r.fetchRootKey <==> IsLocalHost(r.host)
    ensures r.canisterId == config.canisterId
  {
    var host := if hostOverride.Some? && hostOverride.value != [] then hostOverride.value else config.host;
    ActorPlan(host, config.canisterId, IsLocalHost(host))
  }

  /** The local replica host triggers the root-key fetch. */
  lemma LocalHostFetchesRootKey(config: Config)
    requires config.host == LocalHost
    ensures PlanActor(config, None).fetchRootKey
  {
    assert LocalHost[7..16] == "localhost";
    ContainsAt(LocalHost, "localhost", 7);
  }

  /** A development build without `env.json` talks to the local replica and
      fetches its root key; a production build does not. */
  lemma FallbackRootKey(vite: ViteEnv)
    ensures vite.dev ==> PlanActor(Fallback(vite), None).fetchRootKey
    ensures !vite.dev ==> !PlanActor(Fallback(vite), None).fetchRootKey
  {
    if vite.dev {
      LocalHostFetchesRootKey(Fallback(vite));
    } else {
      MainnetIsNotLocal();
    }
  }

  /** The mainnet host has no 'l' and no '1', the first characters of the
      two local markers. */
  lemma MainnetIsNotLocal()
    ensures !IsLocalHost(MainnetHost)
  {
    var m := MainnetHost;
    assert forall i | 0 <= i < |m| :: m[i] != 'l' && m[i] != '1';
    forall j: nat ensures !OccursAt(m, "localhost", j) && !OccursAt(m, "127.0.0.1", j) {
      if j + 9 <= |m| {
        assert m[j..j + 9][0] == m[j];
      }
    }
  }
}
