/**
 * The storefront home page: the merged product list, the category and
 * attribute filters that narrow it, and fixed-size pagination over the result.
 * Loading spinners and timers are not part of the state.
 */
module HomePage {
  import opened Wrappers
  import opened Text
  import opened Seqs
  import opened Catalog

  /** Products shown per page. */
  const PerPage: nat := 9

  /**
   * The page state: the merged catalog, the list currently shown, the selected
   * category (`None` for null) and the current page number.
   */
  datatype Home = Home(all: seq<Product>, filtered: seq<Product>, selected: Option<string>, page: int)

  const Initial: Home := Home([], [], None, 1)

  /** The two fetches on mount: a thrown error, or the remote and local product lists (either may be missing). */
  datatype Loaded = LoadFailed | Loaded(remote: Option<seq<Product>>, local: Option<seq<Product>>)

  /**
   * Loading the catalog: the remote products followed by the local ones, shown
   * unfiltered. A failed fetch leaves the state as it was.
   */
  function Load(h: Home, l: Loaded): (r: Home)
    ensures l.LoadFailed? ==> r == h
    ensures l.Loaded? ==>
      && |r.all| == |l.remote.GetOr([])| + |l.local.GetOr([])|
      && r.all[..|l.remote.GetOr([])|] == l.remote.GetOr([])
      && r.all[|l.remote.GetOr([])|..] == l.local.GetOr([])
      && r.filtered == r.all
      && r.selected == h.selected && r.page == h.page
  {
    match l
    case LoadFailed => h
    case Loaded(remote, local) =>
      var merged := remote.GetOr([]) + local.GetOr([]);
      h.(all := merged, filtered := merged)
  }

  /** The product lists the collection among its collection edges. */
  predicate InCategory(p: Product, id: string) {
    id in CollectionIds(p)
  }

  /** The products of `ps` in the given category, in order. */
  function InCategoryOf(ps: seq<Product>, id: string): (r: seq<Product>)
    ensures forall p :: p in r <==> p in ps && id in CollectionIds(p)
  {
    Filter(ps, (p: Product) => InCategory(p, id))
  }

  /**
   * Choosing a category: with no category (null or empty) every product is
   * shown, otherwise the products listing that collection. The page resets to 1.
   */
  function SelectCategory(h: Home, categoryId: Option<string>): (r: Home)
    ensures r.selected == categoryId && r.page == 1 && r.all == h.all
    ensures !Truthy(categoryId) ==> r.filtered == h.all
    ensures Truthy(categoryId) ==>
      forall p :: p in r.filtered <==> p in h.all && categoryId.value in CollectionIds(p)
  {
    var shown := if !Truthy(categoryId) then h.all else InCategoryOf(h.all, categoryId.value);
    h.(selected := categoryId, page := 1, filtered := shown)
  }

  /**
   * A new result from the attribute filter: while a category is selected only
   * the results in that category are kept. The page resets to 1.
   */
  function FilterChange(h: Home, results: seq<Product>): (r: Home)
    ensures r.selected == h.selected && r.page == 1 && r.all == h.all
    ensures !Truthy(h.selected) ==> r.filtered == results
    ensures Truthy(h.selected) ==>
      forall p :: p in r.filtered <==> p in results && h.selected.value in CollectionIds(p)
  {
    var shown := if Truthy(h.selected) then InCategoryOf(results, h.selected.value) else results;
    h.(page := 1, filtered := shown)
  }

  /** Moving to another page changes nothing but the page number. */
  function PageChange(h: Home, page: int): (r: Home)
    ensures r.page == page && r.all == h.all && r.filtered == h.filtered && r.selected == h.selected
  {
    h.(page := page)
  }

  /** The category filter keeps the products in their catalog order. */
  lemma {:induction false} SelectCategoryKeepsOrder(h: Home, categoryId: Option<string>)
    ensures IsSubseq(SelectCategory(h, categoryId).filtered, h.all)
  {
    if Truthy(categoryId) {
      FilterIsSubseq(h.all, (p: Product) => InCategory(p, categoryId.value));
    } else {
      SubseqSelf(h.all);
    }
  }

  /** The filter result narrowed to the selected category keeps its order. */
  lemma {:induction false} FilterChangeKeepsOrder(h: Home, results: seq<Product>)
    ensures IsSubseq(FilterChange(h, results).filtered, results)
  {
    if Truthy(h.selected) {
      FilterIsSubseq(results, (p: Product) => InCategory(p, h.selected.value));
    } else {
      SubseqSelf(results);
    }
  }

  /**
   * A category no product lists (the "Unassigned" entry selects the id
   * `unassigned`) shows nothing.
   */
  lemma UnknownCategoryShowsNothing(h: Home, id: string)
    requires id != ""
    requires forall p :: p in h.all ==> id !in CollectionIds(p)
    ensures SelectCategory(h, Some(id)).filtered == []
  {
    FilterNone(h.all, (p: Product) => InCategory(p, id));
  }

  /** Going back to "all" after any category shows the whole catalog again. */
  lemma BackToAll(h: Home, categoryId: Option<string>)
    ensures SelectCategory(SelectCategory(h, categoryId), None).filtered == h.all
  {
  }

  // ---------------------------------------------------------------- pagination

  /** `Math.ceil(n / 9)`. */
  function TotalPages(n: nat): (r: nat)
    ensures n <= r * PerPage
    ensures r > 0 ==> (r - 1) * PerPage < n
    ensures r == 0 <==> n == 0
  {
    (n + PerPage - 1) / PerPage
  }

  /**
   * Page `p` of `xs`: the items from position `(p - 1) * 9` on, at most 9 of
   * them, and none once that position is past the end.
   */
  function PageOf<T>(xs: seq<T>, p: int): (r: seq<T>)
    ensures p >= 1 ==> |r| == (if |xs| <= (p - 1) * PerPage then 0 else Min(PerPage, |xs| - (p - 1) * PerPage))
    ensures p >= 1 ==> forall k :: 0 <= k < |r| ==> r[k] == xs[(p - 1) * PerPage + k]
  {
    Slice(xs, (p - 1) * PerPage, (p - 1) * PerPage + PerPage)
  }

  /** The products the page shows. */
  function CurrentProducts(h: Home): seq<Product> {
    PageOf(h.filtered, h.page)
  }

  /** The page buttons are rendered. */
  predicate ShowsButtons(h: Home) {
    TotalPages(|h.filtered|) > 1
  }

  function Min(a: int, b: int): int {
    if a < b then a else b
  }

  /**
   * Every page from 1 to the last is the run of at most 9 items starting at
   * `(p - 1) * 9`, and is never empty.
   */
  lemma PageBounds<T>(xs: seq<T>, p: int)
    requires 1 <= p <= TotalPages(|xs|)
    ensures (p - 1) * PerPage < |xs|
    ensures PageOf(xs, p) == xs[(p - 1) * PerPage..Min(p * PerPage, |xs|)]
    ensures 0 < |PageOf(xs, p)| <= PerPage
  {
    var t := TotalPages(|xs|);
    assert (p - 1) * PerPage <= (t - 1) * PerPage;
  }

  /** A page number past the last page shows nothing. */
  lemma PagePastEndEmpty<T>(xs: seq<T>, p: int)
    requires p > TotalPages(|xs|)
    ensures PageOf(xs, p) == []
  {
    var t := TotalPages(|xs|);
    assert (p - 1) * PerPage >= t * PerPage;
  }

  /** Pages 1 to k one after another. */
  function PagesUpTo<T>(xs: seq<T>, k: nat): seq<T> {
    if k == 0 then [] else PagesUpTo(xs, k - 1) + PageOf(xs, k)
  }

  lemma {:induction false} PagesUpToPrefix<T>(xs: seq<T>, k: nat)
    ensures PagesUpTo(xs, k) == xs[..Min(k * PerPage, |xs|)]
  {
    if k > 0 {
      PagesUpToPrefix(xs, k - 1);
      var a, b := Min((k - 1) * PerPage, |xs|), Min(k * PerPage, |xs|);
      assert xs[..a] + xs[a..b] == xs[..b];
    }
  }

  /** The pages, in order, add up to exactly the list: nothing lost, nothing repeated. */
  lemma PagesCoverList<T>(xs: seq<T>)
    ensures PagesUpTo(xs, TotalPages(|xs|)) == xs
  {
    PagesUpToPrefix(xs, TotalPages(|xs|));
  }

  /** The buttons appear exactly when the list does not fit on one page. */
  lemma ButtonsWhenMoreThanOnePage(h: Home)
    ensures ShowsButtons(h) <==> |h.filtered| > PerPage
  {
  }

  /** After a category choice the first page shows the first up to 9 products. */
  lemma SelectShowsFirstPage(h: Home, categoryId: Option<string>)
    ensures var r := SelectCategory(h, categoryId);
      CurrentProducts(r) == r.filtered[..Min(PerPage, |r.filtered|)]
  {
  }
}
