/** The catalog page's list logic (src/pages/ProductsPage.tsx): the search
    filter, the four sort modes and the result-count wording. The page works
    on a copy of the fetched list, which value semantics make automatic here. */
module Catalog {
  import opened Wrappers
  import opened Strings
  import opened Lists
  import opened Backend

  /** The sort selector: `default`, `price-asc`, `price-desc`, `name`. */
  datatype SortMode = Default | PriceAsc | PriceDesc | ByName

  /** The search predicate: the lowercased term occurs in the lowercased
      name, description or category. The term is not trimmed. */
  predicate Matches(p: Product, term: string) {
    var t := ToLower(term);
    Contains(ToLower(p.name), t) || Contains(ToLower(p.description), t) || Contains(ToLower(p.category), t)
  }

  /** The search is case-insensitive in the term, and a term occurring
      verbatim in the name, description or category always matches. */
  lemma MatchIgnoresCase(p: Product, term: string)
    ensures Matches(p, ToLower(term)) == Matches(p, term)
    ensures Contains(p.name, term) || Contains(p.description, term) || Contains(p.category, term) ==> Matches(p, term)
  {
    ToLowerIdempotent(term);
    var t := ToLower(term);
    if Contains(p.name, term) {
      ToLowerKeepsOccurrence(p.name, term, IndexOf(p.name, term).value);
      ContainsAt(ToLower(p.name), t, IndexOf(p.name, term).value);
    } else if Contains(p.description, term) {
      ToLowerKeepsOccurrence(p.description, term, IndexOf(p.description, term).value);
      ContainsAt(ToLower(p.description), t, IndexOf(p.description, term).value);
    } else if Contains(p.category, term) {
      ToLowerKeepsOccurrence(p.category, term, IndexOf(p.category, term).value);
      ContainsAt(ToLower(p.category), t, IndexOf(p.category, term).value);
    }
  }

  /** The filter step: a blank term (empty or white space only) keeps everything. */
  function Search(products: seq<Product>, term: string): (r: seq<Product>)
    ensures Blank(term) ==> r == products
    ensures forall p :: p in r <==> p in products && (Blank(term) || Matches(p, term))
    ensures forall p :: multiset(r)[p] == if Blank(term) || Matches(p, term) then multiset(products)[p] else 0
    ensures IsSubsequence(r, products)
  {
    if Blank(term) then
      SubsequenceOfItself(products);
      products
    else Filter(products, p => Matches(p, term))
  }

  /** The comparator of each sort mode, as "sorts strictly before". Price
      comparators subtract prices, so only the sign of the difference counts;
      `nameBefore` stands for `a.localeCompare(b) < 0`. */
  function Before(mode: SortMode, nameBefore: (string, string) -> bool): (Product, Product) -> bool {
    match mode
    case PriceDesc => (a: Product, b: Product) => b.price < a.price
    case ByName => (a: Product, b: Product) => nameBefore(a.name, b.name)
    case _ => (a: Product, b: Product) => a.price < b.price
  }

  /** `filteredAndSortedProducts`: `products` is `None` while the query has no data. */
  function FilterAndSort(products: Option<seq<Product>>, term: string, mode: SortMode,
                         nameBefore: (string, string) -> bool): (r: seq<Product>)
    ensures products.None? ==> r == []
    ensures products.Some? ==> multiset(r) == multiset(Search(products.value, term))
    ensures forall p :: p in r <==> products.Some? && p in products.value && (Blank(term) || Matches(p, term))
    ensures mode == Default && products.Some? ==> r == Search(products.value, term)
    ensures mode == PriceAsc ==> forall i, j | 0 <= i < j < |r| :: r[i].price <= r[j].price
    ensures mode == PriceDesc ==> forall i, j | 0 <= i < j < |r| :: r[i].price >= r[j].price
    ensures mode == ByName && StrictWeakOrder(nameBefore) ==>
      forall i, j | 0 <= i < j < |r| :: !nameBefore(r[j].name, r[i].name)
  {
    match products
    case None => []
    case Some(ps) =>
      var filtered := Search(ps, term);
      var r := Arrange(filtered, mode, nameBefore);
      SortedMeaning(r, mode, nameBefore);
      r
  }

  /** What "sorted by the mode's comparator" says about prices and names. */
  lemma SortedMeaning(r: seq<Product>, mode: SortMode, nameBefore: (string, string) -> bool)
    ensures mode != Default && SortedBy(r, Before(mode, nameBefore)) ==>
      && (mode == PriceAsc ==> forall i, j | 0 <= i < j < |r| :: r[i].price <= r[j].price)
      && (mode == PriceDesc ==> forall i, j | 0 <= i < j < |r| :: r[i].price >= r[j].price)
      && (mode == ByName ==> forall i, j | 0 <= i < j < |r| :: !nameBefore(r[j].name, r[i].name))
  {
    if mode != Default && SortedBy(r, Before(mode, nameBefore)) {
      var lt := Before(mode, nameBefore);
      forall i, j | 0 <= i < j < |r| ensures !lt(r[j], r[i]) {
      }
    }
  }

  /** The sort step of each mode; `default` keeps the order. */
  function Arrange(s: seq<Product>, mode: SortMode, nameBefore: (string, string) -> bool): (r: seq<Product>)
    ensures multiset(r) == multiset(s)
    ensures forall p :: p in r <==> p in s
    ensures mode == Default ==> r == s
    ensures mode != Default && (mode != ByName || StrictWeakOrder(nameBefore)) ==> SortedBy(r, Before(mode, nameBefore))
  {
    if mode == Default then s
    else
      assert forall p :: p in Sort(s, Before(mode, nameBefore)) <==> p in multiset(s);
      SortModesAreOrders(mode, nameBefore);
      SortSorted(s, Before(mode, nameBefore));
      Sort(s, Before(mode, nameBefore))
  }

  /** Both price comparators are strict weak orders, and so is the name
      comparator when the collation is one. */
  lemma SortModesAreOrders(mode: SortMode, nameBefore: (string, string) -> bool)
    ensures mode != ByName || StrictWeakOrder(nameBefore) ==> StrictWeakOrder(Before(mode, nameBefore))
  {
    var lt := Before(mode, nameBefore);
    if mode != ByName {
      forall a, b, c | lt(a, c) ensures lt(a, b) || lt(b, c) {
      }
    } else if StrictWeakOrder(nameBefore) {
      forall a, b | lt(a, b) ensures !lt(b, a) {
        assert lt(a, b) == nameBefore(a.name, b.name) && lt(b, a) == nameBefore(b.name, a.name);
      }
      forall a, b, c | lt(a, c) ensures lt(a, b) || lt(b, c) {
        assert lt(a, c) == nameBefore(a.name, c.name);
        assert lt(a, b) == nameBefore(a.name, b.name) && lt(b, c) == nameBefore(b.name, c.name);
      }
    }
  }

  /** Products that compare equal under the chosen mode (same price, or names
      the collation does not separate) keep their filtered order. */
  lemma TiesKeepFilteredOrder(ps: seq<Product>, term: string, mode: SortMode,
                              nameBefore: (string, string) -> bool, z: Product)
    requires mode != Default
    requires mode != ByName || StrictWeakOrder(nameBefore)
    ensures var lt := Before(mode, nameBefore);
      ClassOf(FilterAndSort(Some(ps), term, mode, nameBefore), lt, z) == ClassOf(Search(ps, term), lt, z)
  {
    SortModesAreOrders(mode, nameBefore);
    SortIsStable(Search(ps, term), Before(mode, nameBefore), z);
  }

  /** A white-space-only term neither filters nor, in the default mode, reorders. */
  lemma BlankTermShowsEverything(ps: seq<Product>, term: string)
    requires Blank(term)
    ensures FilterAndSort(Some(ps), term, Default, (a: string, b: string) => false) == ps
  {
  }

  /** An already price-ordered catalog is shown as it is under `price-asc`. */
  lemma OrderedCatalogUnchanged(ps: seq<Product>, term: string, nameBefore: (string, string) -> bool)
    requires Blank(term)
    requires forall i, j | 0 <= i < j < |ps| :: ps[i].price <= ps[j].price
    ensures FilterAndSort(Some(ps), term, PriceAsc, nameBefore) == ps
  {
    SortKeepsSorted(ps, Before(PriceAsc, nameBefore));
  }

  /** The noun after the count in "Showing N product(s)". */
  function CountNoun(n: nat): (r: string)
    ensures r == "product" <==> n == 1
    ensures r != "product" ==> r == "products"
  {
    if n == 1 then "product" else "products"
  }

  /** The text shown when nothing is listed: it depends on whether the term
      is non-empty, not on whether a search was applied. */
  function EmptyMessage(term: string): (r: string)
    ensures r == "No products available." <==> term == []
  {
    if term != [] then "No products found matching your search." else "No products available."
  }

  /** A white-space-only term applies no filter, yet an empty catalog is then
      reported as a failed search. */
  lemma BlankSearchReportedAsSearch()
    ensures var term := " ";
      Blank(term) && FilterAndSort(Some([]), term, Default, (a: string, b: string) => false) == []
      && EmptyMessage(term) == "No products found matching your search."
  {
    assert IsSpace(' ');
  }
}
