/** The Shopify Storefront client (src/lib/shopifyStorefront.ts): the
    endpoint URL derived from a store domain, and how `testShopifyConnection`
    and `fetchShopifyProducts` classify what comes back. `fetch` and
    `response.json()` are replaced by their outcome, a `Transport` value. */
module ShopifyStorefront {
  import opened Wrappers
  import opened Strings
  import opened JsValues

  const ApiPath: string := "/api/2024-01/graphql.json"
  const DefaultLimit: nat := 50
  const InvalidFormat: string := "Invalid response format from Shopify"
  const NetworkErrorText: string := "Network error"

  datatype Variant = Variant(id: string, amount: string, currencyCode: string, availableForSale: bool)
  datatype Image = Image(url: string, altText: Option<string>)

  /** A product node; `variants` and `images` are the nodes of their edges
      (the query asks for the first one of each). */
  datatype ShopifyProduct = ShopifyProduct(
    id: string,
    title: string,
    description: string,
    productType: string,
    variants: seq<Variant>,
    images: seq<Image>)

  /** The parsed JSON body: the messages of `errors` (an absent array is
      empty) and `data.products.edges` mapped to their nodes, `None` when any
      link of that path is missing. */
  datatype Document = Document(errors: seq<string>, edges: Option<seq<ShopifyProduct>>)

  /** What `response.json()` yields: a document, or the error it throws. */
  datatype Body = Parsed(doc: Document) | Unparsable(error: JsValue)

  datatype HttpReply = HttpReply(status: nat, statusText: string, body: Body)

  /** What `await fetch(...)` yields: a reply, or the value it throws. */
  datatype Transport = Replied(reply: HttpReply) | Threw(error: JsValue)

  datatype ConnectionResult = ConnectionResult(success: bool, error: Option<string>)
  datatype FetchResult = FetchResult(products: seq<ShopifyProduct>, error: Option<string>)

  /** `response.ok`. */
  predicate Ok(reply: HttpReply) {
    200 <= reply.status <= 299
  }

  function StripScheme(s: string): (r: string)
    ensures r == s || (StartsWith(s, "https://") && r == s[8..]) || (StartsWith(s, "http://") && r == s[7..])
  {
    if StartsWith(s, "https://") then s[8..] else if StartsWith(s, "http://") then s[7..] else s
  }

  function StripTrailingSlash(s: string): (r: string)
    ensures EndsWith(s, "/") ==> r == s[..|s| - 1]
    ensures !EndsWith(s, "/") ==> r == s
  {
    if EndsWith(s, "/") then s[..|s| - 1] else s
  }

  /** The host part: at most one leading `http://` or `https://` and at most
      one trailing `/` removed. */
  function CleanDomain(storeDomain: string): (r: string)
    ensures |r| <= |storeDomain| <= |r| + 9
    ensures StartsWith(storeDomain, "https://") ==> StartsWith(storeDomain[8..], r) && |storeDomain| - |r| <= 9
    ensures StartsWith(storeDomain, "http://") ==> StartsWith(storeDomain[7..], r) && |storeDomain| - |r| <= 8
    ensures !StartsWith(storeDomain, "https://") && !StartsWith(storeDomain, "http://") ==>
      StartsWith(storeDomain, r) && |storeDomain| - |r| <= 1
  {
    // the two schemes differ in their fifth character, so at most one applies
    assert StartsWith(storeDomain, "https://") ==> storeDomain[..8][4] == 's';
    assert StartsWith(storeDomain, "http://") ==> storeDomain[..7][4] == ':';
    StripTrailingSlash(StripScheme(storeDomain))
  }

  /** `buildStorefrontUrl`. */
  function BuildStorefrontUrl(storeDomain: string): (r: string)
    ensures StartsWith(r, "https://") && EndsWith(r, ApiPath)
    ensures |r| == 8 + |CleanDomain(storeDomain)| + |ApiPath|
  {
    var r := "https://" + CleanDomain(storeDomain) + ApiPath;
    assert r[..8] == "https://";
    assert r[|r| - |ApiPath|..] == ApiPath;
    r
  }

  /** The domain part of an endpoint URL. */
  function DomainOf(url: string): string
    requires StartsWith(url, "https://") && EndsWith(url, ApiPath) && 8 + |ApiPath| <= |url|
  {
    url[8..|url| - |ApiPath|]
  }

  /** The endpoint URL determines the cleaned domain it was built from. */
  lemma DomainOfBuild(storeDomain: string)
    ensures DomainOf(BuildStorefrontUrl(storeDomain)) == CleanDomain(storeDomain)
  {
    var d := CleanDomain(storeDomain);
    var r := BuildStorefrontUrl(storeDomain);
    assert r == "https://" + d + ApiPath;
    assert r[8..|r| - |ApiPath|] == d;
  }

  /** A bare host (no `/` in it) survives any combination of one scheme and
      one trailing slash around it. */
  lemma CleanDomainRecoversHost(scheme: string, host: string, slash: bool)
    requires scheme == "" || scheme == "http://" || scheme == "https://"
    requires forall i | 0 <= i < |host| :: host[i] != '/'
    ensures CleanDomain(scheme + host + (if slash then "/" else "")) == host
  {
    var tail := host + (if slash then "/" else "");
    assert scheme + host + (if slash then "/" else "") == scheme + tail;
    StripSchemeOnce(scheme, tail);
    StripSlashOnce(host, slash);
  }

  lemma StripSchemeOnce(scheme: string, tail: string)
    requires scheme == "" || scheme == "http://" || scheme == "https://"
    requires forall i | 0 <= i < |tail| - 1 :: tail[i] != '/'
    ensures StripScheme(scheme + tail) == tail
  {
    var s := scheme + tail;
    if scheme == "" {
      assert s == tail;
      // a scheme would put a '/' at index 5 or 6, before the last character
      assert |tail| < 7 || tail[5] != '/';
      assert |tail| < 8 || tail[6] != '/';
    } else if scheme == "http://" {
      assert s[..7] == "http://" && s[7..] == tail;
      assert s[4] == ':';
    } else {
      assert s[..8] == "https://" && s[8..] == tail;
    }
  }

  lemma StripSlashOnce(host: string, slash: bool)
    requires forall i | 0 <= i < |host| :: host[i] != '/'
    ensures StripTrailingSlash(host + (if slash then "/" else "")) == host
  {
    var tail := host + (if slash then "/" else "");
    if slash {
      assert tail[..|tail| - 1] == host;
    } else {
      assert tail == host;
      assert host == [] || host[|host| - 1] != '/';
    }
  }

  /** Only one scheme is removed: a doubled scheme keeps the inner one. */
  lemma SchemeStrippedOnce()
    ensures CleanDomain("https://http://shop.example") == "http://shop.example"
    ensures BuildStorefrontUrl("https://http://shop.example") == "https://http://shop.example" + ApiPath
  {
    var s := "https://http://shop.example";
    assert StartsWith(s, "https://");
    assert s[8..] == "http://shop.example";
    assert !EndsWith("http://shop.example", "/");
  }

  /** `HTTP <status>: <statusText>`. */
  function HttpError(reply: HttpReply): (r: string)
    ensures StartsWith(r, "HTTP ")
    ensures EndsWith(r, ": " + reply.statusText)
  {
    var r := "HTTP " + NatToString(reply.status) + ": " + reply.statusText;
    assert r[..5] == "HTTP ";
    assert r[|r| - |": " + reply.statusText|..] == ": " + reply.statusText;
    r
  }

  /** `testShopifyConnection` (the `{ shop { name } }` query). */
  function TestConnection(outcome: Transport): (r: ConnectionResult)
    ensures r.success <==> r.error.None?
    ensures r.success <==>
      outcome.Replied? && Ok(outcome.reply) && outcome.reply.body.Parsed? && outcome.reply.body.doc.errors == []
    ensures outcome.Threw? ==> r.error == Some(CaughtMessage(outcome.error, NetworkErrorText))
    ensures outcome.Replied? && !Ok(outcome.reply) ==> r.error == Some(HttpError(outcome.reply))
    ensures outcome.Replied? && Ok(outcome.reply) && outcome.reply.body.Parsed? && outcome.reply.body.doc.errors != [] ==>
      r.error == Some(outcome.reply.body.doc.errors[0])
  {
    match outcome
    case Threw(e) => ConnectionResult(false, Some(CaughtMessage(e, NetworkErrorText)))
    case Replied(reply) =>
      if !Ok(reply) then ConnectionResult(false, Some(HttpError(reply)))
      else match reply.body
        case Unparsable(e) => ConnectionResult(false, Some(CaughtMessage(e, NetworkErrorText)))
        case Parsed(doc) =>
          if doc.errors != [] then ConnectionResult(false, Some(doc.errors[0]))
          else ConnectionResult(true, None)
  }

  /** The `first` variable of the products query. */
  function QueryLimit(limit: Option<nat>): (r: nat)
    ensures limit.None? ==> r == DefaultLimit
    ensures limit.Some? ==> r == limit.value
  {
    limit.GetOr(DefaultLimit)
  }

  /** `fetchShopifyProducts`. */
  function FetchProducts(outcome: Transport): (r: FetchResult)
    ensures r.error.None? <==>
      outcome.Replied? && Ok(outcome.reply) && outcome.reply.body.Parsed?
      && outcome.reply.body.doc.errors == [] && outcome.reply.body.doc.edges.Some?
    ensures r.error.Some? ==> r.products == []
    ensures r.error.None? ==> r.products == outcome.reply.body.doc.edges.value
    ensures outcome.Threw? ==> r.error == Some(CaughtMessage(outcome.error, NetworkErrorText))
    ensures outcome.Replied? && !Ok(outcome.reply) ==> r.error == Some(HttpError(outcome.reply))
    ensures outcome.Replied? && Ok(outcome.reply) && outcome.reply.body.Parsed? ==>
      var doc := outcome.reply.body.doc;
      && (doc.errors != [] ==> r.error == Some(doc.errors[0]))
      && (doc.errors == [] && doc.edges.None? ==> r.error == Some(InvalidFormat))
  {
    match outcome
    case Threw(e) => FetchResult([], Some(CaughtMessage(e, NetworkErrorText)))
    case Replied(reply) =>
      if !Ok(reply) then FetchResult([], Some(HttpError(reply)))
      else match reply.body
        case Unparsable(e) => FetchResult([], Some(CaughtMessage(e, NetworkErrorText)))
        case Parsed(doc) =>
          if doc.errors != [] then FetchResult([], Some(doc.errors[0]))
          else if doc.edges.None? then FetchResult([], Some(InvalidFormat))
          else FetchResult(doc.edges.value, None)
  }

  /** The two calls agree on every failure they both can see: a connection
      test fails with the same message whenever the products fetch fails for
      a reason other than a missing product list. */
  lemma ConnectionAndFetchAgree(outcome: Transport)
    ensures !TestConnection(outcome).success ==>
      FetchProducts(outcome).error == TestConnection(outcome).error
    ensures TestConnection(outcome).success ==>
      FetchProducts(outcome).error.None? || FetchProducts(outcome).error == Some(InvalidFormat)
  {
  }

  /** A rejected status is reported with its number, which reads back. */
  lemma HttpErrorShowsStatus(reply: HttpReply)
    ensures var e := HttpError(reply); var digits := NatToString(reply.status);
      e[5..5 + |digits|] == digits && DecimalValue(digits) == reply.status
  {
    NatToStringRoundTrip(reply.status);
  }
}
