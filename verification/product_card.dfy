/**
 * A product card on the storefront: the tag chips it shows, its price and
 * stock labels, and the link to the product page.
 */
module ProductCard {
  import opened Wrappers
  import opened Text
  import opened Catalog
  import ProductFilter

  /** How many tag chips a card shows at most. */
  const MaxTags: nat := 3

  /** The tag area: the placeholder, or the visible chips and a `+N` badge when some are hidden. */
  datatype TagView = NoTags | Chips(visible: seq<string>, more: Option<nat>)

  /** The tag area of a product. */
  function RenderTags(p: Product): (r: TagView)
    ensures r.NoTags? <==> p.tags.None? || p.tags.value == []
    ensures r.Chips? ==> |r.visible| == (if |p.tags.value| < MaxTags then |p.tags.value| else MaxTags)
    ensures r.Chips? ==> r.visible == p.tags.value[..|r.visible|]
    ensures r.Chips? ==> (r.more.Some? <==> |p.tags.value| > MaxTags)
    ensures r.Chips? && r.more.Some? ==> r.more.value == |p.tags.value| - MaxTags
  {
    if p.tags.None? || p.tags.value == [] then NoTags
    else
      var tags := p.tags.value;
      var visible := if |tags| < MaxTags then tags else tags[..MaxTags];
      Chips(visible, if |tags| > MaxTags then Some(|tags| - MaxTags) else None)
  }

  /** The chips and the badge account for every tag: the shown ones plus the hidden count is all of them. */
  lemma {:induction false} TagsAccountedFor(p: Product)
    requires RenderTags(p).Chips?
    ensures var v := RenderTags(p);
      && v.visible + p.tags.value[|v.visible|..] == p.tags.value
      && |v.visible| + v.more.GetOr(0) == |p.tags.value|
  {
    var v := RenderTags(p);
    assert v.visible + p.tags.value[|v.visible|..] == p.tags.value[..|v.visible|] + p.tags.value[|v.visible|..];
  }

  /** The price amount shown: the first variant's, or `"0"` when it is missing or empty. */
  function PriceShown(p: Product): (r: string)
    ensures r != ""
    ensures |p.variants| > 0 && p.variants[0].price.amount != "" ==> r == p.variants[0].price.amount
    ensures |p.variants| > 0 && p.variants[0].price.amount == "" ==> r == "0"
    ensures |p.variants| == 0 ==> r == "0"
  {
    if |p.variants| > 0 then OrElse(Some(p.variants[0].price.amount), "0") else "0"
  }

  /**
   * The card says "In Stock" exactly when the product has a variant and the
   * filter's availability test, applied to the first variant alone, holds.
   */
  function InStockLabel(p: Product): (r: bool)
    ensures r ==> ProductFilter.IsAvailable(p)
    ensures r <==> |p.variants| > 0 && ProductFilter.IsAvailable(p.(variants := p.variants[..1]))
  {
    |p.variants| > 0 && p.variants[0].availableForSale
  }

  /** The product page link. */
  function Url(p: Product): (r: string)
    ensures |r| == |"/product/"| + |p.handle|
    ensures r[..|"/product/"|] == "/product/" && r[|"/product/"|..] == p.handle
  {
    "/product/" + p.handle
  }

  /** Two products link to the same page exactly when their handles are equal. */
  lemma UrlInjective(p: Product, q: Product)
    ensures Url(p) == Url(q) <==> p.handle == q.handle
  {
    if Url(p) == Url(q) {
      assert p.handle == Url(p)[|"/product/"|..];
    }
  }

  /** A card labelled "In Stock" passes the in-stock filter. */
  lemma InStockLabelPassesFilter(p: Product)
    requires InStockLabel(p)
    ensures ProductFilter.Passes(ProductFilter.Cleared.(availability := "in_stock"), p)
  {
    assert ProductFilter.IsAvailable(p) by {
      assert p.variants[0].availableForSale;
    }
  }

  /**
   * The converse does not hold: a product whose first variant is sold out but
   * whose second is not passes the in-stock filter and is labelled
   * "Out of Stock".
   */
  lemma InStockFilterLabelledOut(p: Product)
    requires |p.variants| >= 2 && !p.variants[0].availableForSale && p.variants[1].availableForSale
    ensures ProductFilter.Passes(ProductFilter.Cleared.(availability := "in_stock"), p) && !InStockLabel(p)
  {
    assert ProductFilter.IsAvailable(p) by {
      assert p.variants[1].availableForSale;
    }
  }
}
