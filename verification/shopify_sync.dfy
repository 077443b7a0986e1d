/** The Shopify import (src/hooks/useShopifySync.ts): mapping a Storefront
    product to the canister's product input, and the checks the sync
    mutation makes before the bulk upsert. `parseFloat` is a parameter, with
    `None` standing for NaN. */
module ShopifySync {
  import opened Wrappers
  import opened Strings
  import opened ShopifyStorefront

  const GidPrefix: string := "gid://shopify/Product/"
  const ActorMissing: string := "Actor not initialized"
  const NoProducts: string := "No products found in your Shopify store"
  const ApiErrorPrefix: string := "Shopify API error: "

  datatype ExternalSource = Shopify

  /** The canister's product input for an imported product. `price` is
      `None` when the amount does not parse (JavaScript's NaN). */
  datatype ProductInput = ProductInput(
    name: string,
    description: string,
    price: Option<real>,
    currency: string,
    category: string,
    imageUrl: string,
    inStock: bool,
    externalId: string,
    externalSource: ExternalSource)

  /** The id with the first occurrence of the global-id prefix removed. */
  function ExternalId(id: string): (r: string)
    ensures (forall j: nat :: !OccursAt(id, GidPrefix, j)) ==> r == id
    ensures Contains(id, GidPrefix) ==> |r| + |GidPrefix| == |id|
  {
    ReplaceFirst(id, GidPrefix, "")
  }

  /** `mapShopifyProductToInput`. */
  function MapProduct(p: ShopifyProduct, parseFloat: string -> Option<real>): (r: ProductInput)
    ensures r.name == p.title && r.description == p.description
    ensures r.price == if p.variants == [] then Some(0.0) else parseFloat(p.variants[0].amount)
    ensures r.currency == if p.variants == [] || p.variants[0].currencyCode == [] then "USD" else p.variants[0].currencyCode
    ensures r.currency == "USD" <==> p.variants == [] || p.variants[0].currencyCode in {"", "USD"}
    ensures p.variants != [] && p.variants[0].currencyCode != [] ==> r.currency == p.variants[0].currencyCode
    ensures r.inStock <==> p.variants == [] || p.variants[0].availableForSale
    ensures r.imageUrl == if p.images == [] then "" else p.images[0].url
    ensures r.category == if p.productType == [] then "Other" else p.productType
    ensures r.externalId == ExternalId(p.id)
    ensures r.externalSource == Shopify
  {
    var first: Option<Variant> := if p.variants == [] then None else Some(p.variants[0]);
    ProductInput(
      p.title,
      OrElse(p.description, ""),
      if first.Some? then parseFloat(first.value.amount) else Some(0.0),
      OrElse(if first.Some? then first.value.currencyCode else "", "USD"),
      OrElse(p.productType, "Other"),
      OrElse(if p.images == [] then "" else p.images[0].url, ""),
      if first.Some? then first.value.availableForSale else true,
      ExternalId(p.id),
      Shopify)
  }

  /** A global id loses exactly its prefix. */
  lemma ExternalIdOfGid(n: string)
    ensures ExternalId(GidPrefix + n) == n
  {
    var id := GidPrefix + n;
    assert OccursAt(id, GidPrefix, 0);
    assert id[|GidPrefix|..] == n;
  }

  /** An id without the prefix is kept as it is. */
  lemma ExternalIdWithoutGid(id: string)
    requires !Contains(id, GidPrefix)
    ensures ExternalId(id) == id
  {
  }

  /** Only the first occurrence is removed. */
  lemma ExternalIdRemovesOnce()
    ensures ExternalId(GidPrefix + GidPrefix) == GidPrefix
  {
    ExternalIdOfGid(GidPrefix);
  }

  datatype SyncOutcome = SyncFailed(message: string) | Synced(inputs: seq<ProductInput>, count: nat)

  /** The sync mutation up to the bulk upsert. An error string counts only
      when it is non-empty (JavaScript truthiness). */
  function Sync(actorReady: bool, fetched: FetchResult, parseFloat: string -> Option<real>): (r: SyncOutcome)
    ensures !actorReady ==> r == SyncFailed(ActorMissing)
    ensures actorReady && fetched.error.Some? && fetched.error.value != [] ==>
      r == SyncFailed(ApiErrorPrefix + fetched.error.value)
    ensures actorReady && (fetched.error.None? || fetched.error.value == []) && fetched.products == [] ==>
      r == SyncFailed(NoProducts)
    ensures r.Synced? <==> actorReady && (fetched.error.None? || fetched.error.value == []) && fetched.products != []
    ensures r.Synced? ==> r.count == |r.inputs| == |fetched.products|
    ensures r.Synced? ==> forall i | 0 <= i < |r.inputs| :: r.inputs[i] == MapProduct(fetched.products[i], parseFloat)
  {
    if !actorReady then SyncFailed(ActorMissing)
    else if fetched.error.Some? && fetched.error.value != [] then SyncFailed(ApiErrorPrefix + fetched.error.value)
    else if fetched.products == [] then SyncFailed(NoProducts)
    else
      var inputs := seq(|fetched.products|, i requires 0 <= i < |fetched.products| => MapProduct(fetched.products[i], parseFloat));
      Synced(inputs, |fetched.products|)
  }

  /** Every failure of the products fetch stops the sync: it never reaches
      the upsert with an empty or partial list. */
  lemma FetchFailureStopsSync(outcome: Transport, parseFloat: string -> Option<real>)
    ensures FetchProducts(outcome).error.Some? ==> Sync(true, FetchProducts(outcome), parseFloat).SyncFailed?
  {
  }

  /** A GraphQL error with an empty message is not reported as an API error:
      the sync blames an empty store instead. */
  lemma EmptyGraphqlMessageLooksLikeEmptyStore(parseFloat: string -> Option<real>)
    ensures var outcome := Replied(HttpReply(200, "OK", Parsed(Document([""], None))));
      Sync(true, FetchProducts(outcome), parseFloat) == SyncFailed(NoProducts)
  {
  }

  /** A successful fetch of a non-empty store imports one input per product, in order. */
  lemma SuccessfulFetchImportsAll(products: seq<ShopifyProduct>, parseFloat: string -> Option<real>)
    requires products != []
    ensures var r := Sync(true, FetchProducts(Replied(HttpReply(200, "OK", Parsed(Document([], Some(products)))))), parseFloat);
      r.Synced? && r.count == |products| && forall i | 0 <= i < |products| :: r.inputs[i].name == products[i].title
  {
  }
}
