/** The product list page (frontend/src/components/ProductListPage.tsx): the
    category, brand, price and text filters over the page's product list,
    the five orderings, the brand toggle and the reset button. */
module ProductList {
  import opened AppState
  import Text
  import Seqs

  const PriceCeiling: int := 200000

  /** The filter inputs: the category and query come from the app state, the
      brands, price range and ordering from the page. */
  datatype ListState = ListState(category: string, query: string, brands: seq<string>,
                                 priceLow: int, priceHigh: int, sortBy: string)

  predicate CategoryPasses(p: Product, category: string) {
    category == "all" || category == "" || p.category == category
  }

  predicate BrandPasses(p: Product, brands: seq<string>) {
    |brands| == 0 || p.brand in brands
  }

  predicate PricePasses(p: Product, low: int, high: int) {
    low <= p.price <= high
  }

  /** `${name} ${description} ${brand}` lower-cased. */
  function SearchTarget(p: Product): string {
    Text.Lower(p.name + " " + p.description + " " + p.brand)
  }

  predicate QueryPasses(p: Product, query: string) {
    Text.Strip(query) == "" || Text.Contains(SearchTarget(p), Text.Lower(Text.Strip(query)))
  }

  /** The `filteredProducts` predicate. */
  predicate Passes(st: ListState, p: Product) {
    CategoryPasses(p, st.category) && BrandPasses(p, st.brands) &&
    PricePasses(p, st.priceLow, st.priceHigh) && QueryPasses(p, st.query)
  }

  /** `filteredProducts`: the products passing every filter, in order. */
  function Filtered(st: ListState, products: seq<Product>): (r: seq<Product>)
    ensures forall p :: p in r <==> p in products && Passes(st, p)
    ensures Seqs.IsSubsequence(r, products)
    ensures multiset(r) <= multiset(products)
    ensures forall p :: p in products ==> multiset(r)[p] == if Passes(st, p) then multiset(products)[p] else 0
  {
    Seqs.FilterMultiset((p: Product) => Passes(st, p), products);
    Seqs.Filter((p: Product) => Passes(st, p), products)
  }

  function Price(p: Product): int { p.price }
  function NegPrice(p: Product): int { -p.price }
  function NegRating(p: Product): int { -p.rating }
  function NegReviews(p: Product): int { -p.reviewCount }

  /** `sortedProducts`: a reordering of the list, reversed for "latest",
      otherwise by the chosen key, ascending price or descending price,
      rating or (by default) review count. */
  function Sorted(list: seq<Product>, sortBy: string): (r: seq<Product>)
    ensures multiset(r) == multiset(list)
    ensures |r| == |list|
    ensures sortBy == "latest" ==> forall i :: 0 <= i < |list| ==> r[i] == list[|list| - 1 - i]
    ensures sortBy == "price-low" ==> forall i, j :: 0 <= i < j < |r| ==> r[i].price <= r[j].price
    ensures sortBy == "price-high" ==> forall i, j :: 0 <= i < j < |r| ==> r[i].price >= r[j].price
    ensures sortBy == "rating" ==> forall i, j :: 0 <= i < j < |r| ==> r[i].rating >= r[j].rating
    ensures sortBy !in ["latest", "price-low", "price-high", "rating"] ==>
      forall i, j :: 0 <= i < j < |r| ==> r[i].reviewCount >= r[j].reviewCount
  {
    if sortBy == "latest" then
      Seqs.ReverseMultiset(list);
      Seqs.Reverse(list)
    else if sortBy == "price-low" then Seqs.SortBy(Price, list)
    else if sortBy == "price-high" then Seqs.SortBy(NegPrice, list)
    else if sortBy == "rating" then Seqs.SortBy(NegRating, list)
    else Seqs.SortBy(NegReviews, list)
  }

  /** What the page shows: exactly the passing products, in the chosen order. */
  lemma ShownAreFiltered(st: ListState, products: seq<Product>)
    ensures multiset(Sorted(Filtered(st, products), st.sortBy)) == multiset(Filtered(st, products))
    ensures forall p :: p in Sorted(Filtered(st, products), st.sortBy) <==> p in products && Passes(st, p)
    ensures multiset(Sorted(Filtered(st, products), st.sortBy)) <= multiset(products)
    ensures forall p :: p in products ==>
      multiset(Sorted(Filtered(st, products), st.sortBy))[p] == if Passes(st, p) then multiset(products)[p] else 0
  {
    var f := Filtered(st, products);
    var r := Sorted(f, st.sortBy);
    forall p
      ensures p in r <==> p in f
    {
      assert p in r <==> p in multiset(r);
      assert p in f <==> p in multiset(f);
    }
  }

  /** `toggleBrand`. */
  function ToggleBrand(st: ListState, brand: string): (r: ListState)
    ensures brand in r.brands <==> brand !in st.brands
    ensures r == st.(brands := r.brands)
  {
    st.(brands := Seqs.Toggle(st.brands, brand))
  }

  /** `handleResetFilters`; the ordering is kept. */
  function Reset(st: ListState): (r: ListState)
    ensures r.category == "all" && r.query == "" && r.brands == [] && r.priceLow == 0 && r.priceHigh == PriceCeiling
    ensures r.sortBy == st.sortBy
  {
    ListState("all", "", [], 0, PriceCeiling, st.sortBy)
  }

  /** After a reset a product is hidden only by its price. */
  lemma ResetPassesAll(st: ListState, products: seq<Product>)
    requires forall p :: p in products ==> 0 <= p.price <= PriceCeiling
    ensures Filtered(Reset(st), products) == products
  {
    Seqs.FilterAll((p: Product) => Passes(Reset(st), p), products);
  }

  /** Each filter on its own: a blank query, an empty brand list and the
      "all" category let a product through. */
  lemma NeutralFilters(st: ListState, p: Product)
    requires Text.Strip(st.query) == "" && st.brands == [] && (st.category == "all" || st.category == "")
    ensures Passes(st, p) <==> st.priceLow <= p.price <= st.priceHigh
  {
  }

  /** A product whose name contains the query, whatever the case of either
      and the whitespace around the query, passes the text filter. */
  lemma QueryMatchesName(p: Product, query: string)
    requires Text.Contains(Text.Lower(p.name), Text.Lower(Text.Strip(query)))
    ensures QueryPasses(p, query)
  {
    var q := Text.Lower(Text.Strip(query));
    var t := p.name + " " + p.description + " " + p.brand;
    ContainsPrefix(Text.Lower(p.name), q, Text.Lower(t));
  }

  lemma {:induction false} ContainsPrefix(s: string, q: string, t: string)
    requires Text.Contains(s, q) && s <= t
    ensures Text.Contains(t, q)
    decreases |s|
  {
    if q <= s {
      assert q <= t;
    } else {
      ContainsPrefix(s[1..], q, t[1..]);
    }
  }
}
