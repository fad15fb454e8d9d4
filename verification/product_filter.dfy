/**
 * The attribute filter on the storefront: the choices it offers (vendors,
 * product types, tags) and the test each product must pass. Price bounds,
 * date ranges and sorting are not part of this model.
 */
module ProductFilter {
  import opened Wrappers
  import opened Text
  import opened Seqs
  import opened Catalog
  import HomePage

  /** The criteria the filter panel holds; `""` and `[]` mean "not set". */
  datatype Filters = Filters(
    title: string,
    vendor: string,
    productType: string,
    tags: seq<string>,
    availability: string)

  /** The state after "Clear Filters": every criterion empty. */
  const Cleared: Filters := Filters("", "", "", [], "")

  /** The title criterion: unset, or a case-insensitive substring of the title. */
  predicate TitleMatches(f: Filters, p: Product) {
    f.title == "" || Includes(ToLower(p.title), ToLower(f.title))
  }

  /** Vendor and product type, when set, must be equal to the product's. */
  predicate VendorMatches(f: Filters, p: Product) {
    f.vendor == "" || p.vendor == f.vendor
  }

  predicate TypeMatches(f: Filters, p: Product) {
    f.productType == "" || p.productType == f.productType
  }

  /** Every selected tag is one of the product's tags (a product without tags has none). */
  predicate TagsMatch(f: Filters, p: Product) {
    forall t :: t in f.tags ==> t in p.tags.GetOr([])
  }

  /** Some variant of the product can be bought. */
  predicate IsAvailable(p: Product) {
    exists i :: 0 <= i < |p.variants| && p.variants[i].availableForSale
  }

  /** `in_stock` needs an available variant, `out_of_stock` needs none; other values pass. */
  predicate AvailabilityMatches(f: Filters, p: Product) {
    && (f.availability == "in_stock" ==> IsAvailable(p))
    && (f.availability == "out_of_stock" ==> !IsAvailable(p))
  }

  /** The product passes every criterion. */
  predicate Passes(f: Filters, p: Product) {
    TitleMatches(f, p) && VendorMatches(f, p) && TypeMatches(f, p) && TagsMatch(f, p) && AvailabilityMatches(f, p)
  }

  /** The products that pass, in their original order (no sort key chosen). */
  function ApplyFilters(products: seq<Product>, f: Filters): (r: seq<Product>)
    ensures |r| <= |products|
    ensures forall p :: p in r <==> p in products && Passes(f, p)
  {
    Filter(products, (p: Product) => Passes(f, p))
  }

  /** The filter only drops products; the rest keep their order. */
  lemma {:induction false} ApplyFiltersKeepsOrder(products: seq<Product>, f: Filters)
    ensures IsSubseq(ApplyFilters(products, f), products)
  {
    FilterIsSubseq(products, (p: Product) => Passes(f, p));
  }

  /** With a title query set, a product passes it exactly when the lower-cased query occurs in its lower-cased title. */
  lemma TitleMatchesIffOccurs(f: Filters, p: Product)
    requires f.title != ""
    ensures TitleMatches(f, p) <==> exists i :: OccursAt(ToLower(p.title), ToLower(f.title), i)
  {
    var hay, needle := ToLower(p.title), ToLower(f.title);
    IncludesIffOccurs(hay, needle);
    if TitleMatches(f, p) {
      assert Includes(hay, needle);
      var i :| OccursAt(hay, needle, i);
      assert OccursAt(ToLower(p.title), ToLower(f.title), i);
      assert exists j :: OccursAt(ToLower(p.title), ToLower(f.title), j);
    } else {
      assert !Includes(hay, needle);
      assert !exists j :: OccursAt(ToLower(p.title), ToLower(f.title), j);
    }
  }

  /** The title query ignores the ASCII case of both sides: only the lower-cased texts matter. */
  lemma TitleMatchIgnoresCase(f: Filters, g: Filters, p: Product, q: Product)
    requires ToLower(f.title) == ToLower(g.title) && ToLower(p.title) == ToLower(q.title)
    ensures TitleMatches(f, p) <==> TitleMatches(g, q)
  {
    assert |f.title| == |ToLower(f.title)| && |g.title| == |ToLower(g.title)|;
  }

  /** A product always passes a title query equal to its own title. */
  lemma {:induction false} OwnTitleMatches(f: Filters, p: Product)
    requires f.title != "" && p.title == f.title
    ensures TitleMatches(f, p)
  {
    var t := ToLower(p.title);
    assert StartsWith(t, t);
    assert t[..|t|] == t;
  }

  /** After "Clear Filters" every product is shown, in order. */
  lemma {:induction false} ClearedShowsAll(products: seq<Product>)
    ensures ApplyFilters(products, Cleared) == products
  {
    forall p | p in products
      ensures Passes(Cleared, p)
    {
    }
    FilterAll(products, (p: Product) => Passes(Cleared, p));
  }

  /** In-stock and out-of-stock split the catalog: each product is in exactly one. */
  lemma {:induction false} StockSplit(products: seq<Product>)
    ensures var inStock := ApplyFilters(products, Cleared.(availability := "in_stock"));
      var outOfStock := ApplyFilters(products, Cleared.(availability := "out_of_stock"));
      multiset(inStock + outOfStock) == multiset(products)
  {
    var fi, fo := Cleared.(availability := "in_stock"), Cleared.(availability := "out_of_stock");
    FilterPartition(products, (p: Product) => Passes(fi, p), (p: Product) => Passes(fo, p));
  }

  // ---------------------------------------------------------------- option lists

  function Vendors(products: seq<Product>): seq<string> {
    seq(|products|, i requires 0 <= i < |products| => products[i].vendor)
  }

  function ProductTypes(products: seq<Product>): seq<string> {
    seq(|products|, i requires 0 <= i < |products| => products[i].productType)
  }

  function TagLists(products: seq<Product>): seq<seq<string>> {
    seq(|products|, i requires 0 <= i < |products| => products[i].tags.GetOr([]))
  }

  /** The vendor choices: each non-empty vendor once, in first-seen order. */
  function VendorOptions(products: seq<Product>): (r: seq<string>)
    ensures NoDups(r)
    ensures forall v :: v in r <==> v != "" && exists i :: 0 <= i < |products| && products[i].vendor == v
  {
    var vs := Vendors(products);
    var r := Dedup(Filter(vs, (v: string) => v != ""));
    assert forall v :: v in vs <==> exists i :: 0 <= i < |products| && products[i].vendor == v by {
      forall v | exists i :: 0 <= i < |products| && products[i].vendor == v
        ensures v in vs
      {
        var i :| 0 <= i < |products| && products[i].vendor == v;
        assert vs[i] == v;
      }
    }
    r
  }

  /** The product type choices: each non-empty type once, in first-seen order. */
  function TypeOptions(products: seq<Product>): (r: seq<string>)
    ensures NoDups(r)
    ensures forall t :: t in r <==> t != "" && exists i :: 0 <= i < |products| && products[i].productType == t
  {
    var ts := ProductTypes(products);
    var r := Dedup(Filter(ts, (t: string) => t != ""));
    assert forall t :: t in ts <==> exists i :: 0 <= i < |products| && products[i].productType == t by {
      forall t | exists i :: 0 <= i < |products| && products[i].productType == t
        ensures t in ts
      {
        var i :| 0 <= i < |products| && products[i].productType == t;
        assert ts[i] == t;
      }
    }
    r
  }

  /** The tag choices: every tag of every product, once each, in first-seen order. */
  function TagOptions(products: seq<Product>): (r: seq<string>)
    ensures NoDups(r)
    ensures forall t :: t in r <==> exists i :: 0 <= i < |products| && t in products[i].tags.GetOr([])
  {
    var tls := TagLists(products);
    var r := Dedup(Flatten(tls));
    assert forall i :: 0 <= i < |products| ==> tls[i] == products[i].tags.GetOr([]);
    r
  }

  /**
   * Choosing any offered tag keeps at least the products carrying it: no
   * offered choice is a dead end.
   */
  lemma OfferedTagMatchesSome(products: seq<Product>, t: string)
    requires t in TagOptions(products)
    ensures ApplyFilters(products, Cleared.(tags := [t])) != []
  {
    var i :| 0 <= i < |products| && t in products[i].tags.GetOr([]);
    assert Passes(Cleared.(tags := [t]), products[i]);
    assert products[i] in ApplyFilters(products, Cleared.(tags := [t]));
  }

  /** Choosing any offered vendor keeps at least the products of that vendor. */
  lemma OfferedVendorMatchesSome(products: seq<Product>, v: string)
    requires v in VendorOptions(products)
    ensures ApplyFilters(products, Cleared.(vendor := v)) != []
  {
    var i :| 0 <= i < |products| && products[i].vendor == v;
    assert Passes(Cleared.(vendor := v), products[i]);
    assert products[i] in ApplyFilters(products, Cleared.(vendor := v));
  }

  /**
   * The home page's list after a filter change while a category is selected:
   * exactly the catalog products that pass the filter and list the category,
   * in catalog order.
   */
  lemma {:induction false} FilteredCategoryView(h: HomePage.Home, f: Filters)
    requires Truthy(h.selected)
    ensures var shown := HomePage.FilterChange(h, ApplyFilters(h.all, f)).filtered;
      && (forall p :: p in shown <==> p in h.all && Passes(f, p) && h.selected.value in CollectionIds(p))
      && IsSubseq(shown, h.all)
  {
    var results := ApplyFilters(h.all, f);
    ApplyFiltersKeepsOrder(h.all, f);
    HomePage.FilterChangeKeepsOrder(h, results);
    SubseqTrans(HomePage.FilterChange(h, results).filtered, results, h.all);
  }
}
