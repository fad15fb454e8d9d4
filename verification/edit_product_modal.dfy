/**
 * The edit-product form: the form state derived from the product being
 * edited, tag editing, and the payload the form submits to the products
 * endpoint's full update.
 */
module EditProductModal {
  import opened Wrappers
  import opened Text
  import opened Seqs
  import opened Catalog
  import CollectionsApi
  import ProductsApi

  /** The form fields this model follows (images are left out). */
  datatype EditState = EditState(
    title: string,
    description: string,
    price: string,
    compareAtPrice: string,
    sku: string,
    vendor: string,
    collections: seq<string>,
    tags: seq<string>,
    productType: string,
    stockQuantity: string,
    newTag: string)

  /** `n.toString()` for the numbers a stock field holds. */
  function NumText(n: Num): (r: string)
    ensures r != ""
    ensures ProductsApi.FormStock(Some(r)) == n
  {
    match n
    case NaN =>
      ParseIntNoDigits("NaN");
      "NaN"
    case Int(v) =>
      ParseIntOfIntToString(v);
      IntToString(v)
  }

  /** The first variant of the product, if it has one. */
  function First(p: Product): Option<Variant> {
    if |p.variants| > 0 then Some(p.variants[0]) else None
  }

  /**
   * The stock text the form starts with: the first variant's stock as text,
   * or `"0"` when there is no variant or it has no stock.
   */
  function InitialStock(p: Product): (r: string)
    ensures ProductsApi.FormStock(Some(r)) == (if First(p).Some? then First(p).value.stockQuantity.GetOr(Int(0)) else Int(0))
  {
    match First(p)
    case None => ParseIntOfIntToString(0); "0"
    case Some(v) =>
      match v.stockQuantity
      case None => ParseIntOfIntToString(0); "0"
      case Some(n) => NumText(n)
  }

  /**
   * The collection ids the form starts with, as the code derives them: an id
   * containing `gid://` is cut down to its last `/` segment.
   */
  function InitialCollectionsAsWritten(p: Product): (r: seq<string>)
    ensures |r| == |CollectionIds(p)|
    ensures forall i :: 0 <= i < |r| ==>
      r[i] == (if Includes(CollectionIds(p)[i], "gid://") then LastSegment(CollectionIds(p)[i]) else CollectionIds(p)[i])
  {
    var ids := CollectionIds(p);
    seq(|ids|, i requires 0 <= i < |ids| => if Includes(ids[i], "gid://") then LastSegment(ids[i]) else ids[i])
  }

  /** The collection ids the form should start with: the product's own, unchanged. */
  function InitialCollections(p: Product): (r: seq<string>)
    ensures forall id :: id in r <==> p.collections.Some? && exists c :: c in p.collections.value && c.id == id
  {
    var ids := CollectionIds(p);
    assert p.collections.Some? ==> forall c :: c in p.collections.value ==> c.id in ids by {
      if p.collections.Some? {
        forall c | c in p.collections.value
          ensures c.id in ids
        {
          var i :| 0 <= i < |p.collections.value| && p.collections.value[i] == c;
          assert ids[i] == c.id;
        }
      }
    }
    ids
  }

  /**
   * The form state for `p`: title, description, vendor and type as they are;
   * price, compare-at price and SKU from the first variant or `""`; the stock
   * as text; the tags or none.
   */
  function InitialState(p: Product): (r: EditState)
    ensures r.price == (if First(p).Some? then First(p).value.price.amount else "")
    ensures r.compareAtPrice == (if First(p).Some? && First(p).value.compareAtPrice.Some? then First(p).value.compareAtPrice.value.amount else "")
    ensures r.sku == (if First(p).Some? then First(p).value.sku else "")
    ensures r.tags == p.tags.GetOr([]) && r.collections == InitialCollections(p)
    ensures r.title == p.title && r.description == p.description && r.vendor == p.vendor && r.productType == p.productType
    ensures r.newTag == ""
  {
    var first := First(p);
    EditState(
      p.title, p.description,
      if first.Some? then first.value.price.amount else "",
      if first.Some? && first.value.compareAtPrice.Some? then first.value.compareAtPrice.value.amount else "",
      if first.Some? then first.value.sku else "",
      p.vendor, InitialCollections(p), p.tags.GetOr([]), p.productType,
      InitialStock(p), "")
  }

  /** The form state exactly as the code derives it, stripped collection ids included. */
  function InitialStateAsWritten(p: Product): (r: EditState)
    ensures r == InitialState(p).(collections := InitialCollectionsAsWritten(p))
  {
    InitialState(p).(collections := InitialCollectionsAsWritten(p))
  }

  // ---------------------------------------------------------------- tags

  /** "Add": the trimmed input is appended when non-empty (repeats allowed) and the input cleared. */
  function AddTag(st: EditState): (r: EditState)
    ensures Trim(st.newTag) != "" ==> r == st.(tags := st.tags + [Trim(st.newTag)], newTag := "")
    ensures Trim(st.newTag) == "" ==> r == st
  {
    var t := Trim(st.newTag);
    if t != "" then st.(tags := st.tags + [t], newTag := "") else st
  }

  /** The remove button of the tag at `index`: exactly that tag goes, the others keep their order. */
  function RemoveTag(st: EditState, index: nat): (r: EditState)
    requires index < |st.tags|
    ensures |r.tags| == |st.tags| - 1
    ensures r.tags[..index] == st.tags[..index] && r.tags[index..] == st.tags[index + 1..]
    ensures multiset(r.tags) + multiset{st.tags[index]} == multiset(st.tags)
    ensures r.(tags := st.tags) == st
  {
    st.(tags := RemoveAt(st.tags, index))
  }

  /** Adding a tag and removing it again restores the tag list. */
  lemma AddThenRemove(st: EditState)
    requires !AllWhitespace(st.newTag)
    ensures var a := AddTag(st);
      |a.tags| == |st.tags| + 1 && RemoveTag(a, |st.tags|).tags == st.tags
  {
    var a := AddTag(st);
    assert RemoveTag(a, |st.tags|).tags == a.tags[..|st.tags|];
  }

  // ---------------------------------------------------------------- submit

  /** The `{id, title}` entry the form sends for a fetched collection. */
  function SentEntry(c: CollectionsApi.ListedCollection): CollectionItem {
    RefObject(Some(c.id), Some(c.title), None)
  }

  /** Every fetched collection as the entry the form would send for it, in fetched order. */
  function SentEntries(cs: seq<CollectionsApi.ListedCollection>): (r: seq<CollectionItem>)
    ensures |r| == |cs|
    ensures forall i :: 0 <= i < |cs| ==> r[i] == SentEntry(cs[i])
  {
    seq(|cs|, i requires 0 <= i < |cs| => SentEntry(cs[i]))
  }

  /** An entry naming one of the chosen ids. */
  predicate IsChosenEntry(chosen: seq<string>, e: CollectionItem) {
    e.RefObject? && e.objId.Some? && e.objId.value in chosen
  }

  /** The fetched collections whose id is chosen, in fetched order, as `{id, title}` entries. */
  function SubmittedCollections(fetched: seq<CollectionsApi.ListedCollection>, chosen: seq<string>): (r: seq<CollectionItem>)
    ensures |r| <= |fetched|
    ensures forall item :: item in r <==>
      exists c :: c in fetched && c.id in chosen && item == RefObject(Some(c.id), Some(c.title), None)
  {
    var picked := Filter(fetched, (c: CollectionsApi.ListedCollection) => c.id in chosen);
    var r := SentEntries(picked);
    assert forall item :: item in r <==> exists c :: c in picked && item == SentEntry(c) by {
      forall item | exists c :: c in picked && item == SentEntry(c)
        ensures item in r
      {
        var c :| c in picked && item == SentEntry(c);
        var i :| 0 <= i < |picked| && picked[i] == c;
        assert r[i] == item;
      }
    }
    r
  }

  /**
   * Filtering then mapping is mapping then filtering: the form sends, in
   * fetched order, one entry for each fetched collection whose id is chosen,
   * so the sent list is an order-preserving selection of all fetched entries.
   */
  lemma SubmittedInFetchedOrder(fetched: seq<CollectionsApi.ListedCollection>, chosen: seq<string>)
    ensures SubmittedCollections(fetched, chosen) == Filter(SentEntries(fetched), (e: CollectionItem) => IsChosenEntry(chosen, e))
    ensures IsSubseq(SubmittedCollections(fetched, chosen), SentEntries(fetched))
  {
    SubmittedIsFilteredEntries(fetched, chosen);
    FilterIsSubseq(SentEntries(fetched), (e: CollectionItem) => IsChosenEntry(chosen, e));
  }

  lemma {:induction false} SubmittedIsFilteredEntries(fetched: seq<CollectionsApi.ListedCollection>, chosen: seq<string>)
    ensures SubmittedCollections(fetched, chosen) == Filter(SentEntries(fetched), (e: CollectionItem) => IsChosenEntry(chosen, e))
    decreases |fetched|
  {
    if |fetched| > 0 {
      var keep := (e: CollectionItem) => IsChosenEntry(chosen, e);
      var pick := (c: CollectionsApi.ListedCollection) => c.id in chosen;
      var init, last := fetched[..|fetched| - 1], fetched[|fetched| - 1];
      SubmittedIsFilteredEntries(init, chosen);
      assert fetched[..|fetched| - 1] == init;
      var tail := if last.id in chosen then [last] else [];
      var sentTail := if last.id in chosen then [SentEntry(last)] else [];
      assert Filter(fetched, pick) == Filter(init, pick) + tail;
      SentEntriesAppend(Filter(init, pick), tail);
      assert SentEntries(tail) == sentTail;
      assert SubmittedCollections(fetched, chosen) == SubmittedCollections(init, chosen) + sentTail;
      var es := SentEntries(fetched);
      assert es[..|es| - 1] == SentEntries(init);
      assert es[|es| - 1] == SentEntry(last);
      assert Filter(es, keep) == Filter(SentEntries(init), keep) + sentTail;
    }
  }

  /** Two chosen collections are sent both, in the order they were fetched. */
  lemma TwoChosenSentInOrder(a: CollectionsApi.ListedCollection, b: CollectionsApi.ListedCollection)
    ensures SubmittedCollections([a, b], [a.id, b.id]) == [SentEntry(a), SentEntry(b)]
  {
    var pick := (c: CollectionsApi.ListedCollection) => c.id in [a.id, b.id];
    assert [a, b][..1] == [a] && [a][..0] == [];
    assert Filter([a, b], pick) == [a, b];
    assert SentEntries([a, b]) == [SentEntry(a), SentEntry(b)];
  }

  lemma SentEntriesAppend(a: seq<CollectionsApi.ListedCollection>, b: seq<CollectionsApi.ListedCollection>)
    ensures SentEntries(a + b) == SentEntries(a) + SentEntries(b)
  {
    assert forall i :: 0 <= i < |a + b| ==> SentEntries(a + b)[i] == (SentEntries(a) + SentEntries(b))[i];
  }

  /**
   * The variants sent: a "Default Variant" built from the form in CZK, with the
   * first variant's id (or `variant-<product id>`), followed by every other
   * variant unchanged.
   */
  function SubmittedVariants(p: Product, st: EditState): (r: seq<Variant>)
    ensures |r| == if |p.variants| == 0 then 1 else |p.variants|
    ensures |p.variants| > 0 ==> r[1..] == p.variants[1..]
    ensures r[0].id == (if |p.variants| > 0 && p.variants[0].id != "" then p.variants[0].id else "variant-" + p.id)
    ensures r[0].title == Some("Default Variant") && r[0].sku == st.sku && r[0].availableForSale
    ensures r[0].price == Price(st.price, Currency) && r[0].compareAtPrice == Some(Price(st.compareAtPrice, Currency))
  {
    var first := First(p);
    var id := if first.Some? && first.value.id != "" then first.value.id else "variant-" + p.id;
    var dv := Variant(id, Some("Default Variant"), Price(st.price, Currency),
                      Some(Price(st.compareAtPrice, Currency)), st.sku, None, true, false);
    [dv] + (if |p.variants| > 0 then p.variants[1..] else [])
  }

  /**
   * The availability flag the form sends along. The endpoint recomputes it
   * from the same field with `|| '0'` applied first; the two always agree, an
   * empty field giving NaN here and 0 there, neither of them positive.
   */
  function SubmittedAvailable(st: EditState): (r: bool)
    ensures r <==> IsPositive(ProductsApi.FormStock(Some(st.stockQuantity)))
  {
    if st.stockQuantity == "" then
      ParseIntOfIntToString(0);
      assert IntToString(0) == "0";
      assert TrimStart("") == "";
      IsPositive(ParseInt(st.stockQuantity))
    else
      IsPositive(ParseInt(st.stockQuantity))
  }

  /** The full-update form the submit sends for product `p` from state `st`. */
  function Submit(p: Product, st: EditState, fetched: seq<CollectionsApi.ListedCollection>): (f: ProductsApi.UpdateForm)
    ensures ProductsApi.UpdateParses(f)
    ensures f.title == Some(st.title) && f.vendor == Some(st.vendor) && f.tags == Parsed(st.tags)
    ensures f.collections == Parsed(SubmittedCollections(fetched, st.collections))
    ensures f.variants == Parsed(VariantEdges(SubmittedVariants(p, st)))
    ensures f.stockQuantity == Some(st.stockQuantity)
  {
    ProductsApi.UpdateForm(
      Some(st.title), Some(st.description), Some(st.vendor), Some(st.productType),
      Parsed(st.tags), Parsed(SubmittedCollections(fetched, st.collections)),
      Parsed(VariantEdges(SubmittedVariants(p, st))), Some(st.stockQuantity))
  }

  /**
   * Saving the form untouched writes back the first variant's stock (none
   * reads as 0) and makes it available exactly when that stock is positive;
   * the other variants are stored as they were.
   */
  lemma UntouchedSaveKeepsStock(store: Store, p: Product, fetched: seq<CollectionsApi.ListedCollection>,
                                now: int, parseObjectId: string -> Option<string>)
    requires |p.variants| > 0 && p.id != ""
    requires ProductsApi.Find(store.products, ProductsApi.ChooseQuery(p.id, parseObjectId)).Some?
    ensures var f := Submit(p, InitialState(p), fetched);
      var i := ProductsApi.Find(store.products, ProductsApi.ChooseQuery(p.id, parseObjectId)).value;
      var stored := ProductsApi.Update(store, Some(p.id), f, now, parseObjectId).store.products[i];
      var stock := p.variants[0].stockQuantity.GetOr(Int(0));
      && stored.variants.VariantEdges?
      && |stored.variants.edges| == |p.variants|
      && stored.variants.edges[0].stockQuantity == Some(stock)
      && (stored.variants.edges[0].availableForSale <==> IsPositive(stock))
      && stored.variants.edges[1..] == p.variants[1..]
  {
    var f := Submit(p, InitialState(p), fetched);
    ProductsApi.UpdateTouchesOnlyFirstVariant(store, Some(p.id), f, now, parseObjectId);
  }

  /**
   * The availability flag the form sends always agrees with the one the
   * endpoint stores on the first variant, even for an empty stock field
   * (NaN on one side, 0 on the other).
   */
  lemma SentFlagMatchesStored(store: Store, p: Product, st: EditState, fetched: seq<CollectionsApi.ListedCollection>,
                              now: int, parseObjectId: string -> Option<string>)
    requires p.id != ""
    requires ProductsApi.Find(store.products, ProductsApi.ChooseQuery(p.id, parseObjectId)).Some?
    ensures var i := ProductsApi.Find(store.products, ProductsApi.ChooseQuery(p.id, parseObjectId)).value;
      var stored := ProductsApi.Update(store, Some(p.id), Submit(p, st, fetched), now, parseObjectId).store.products[i];
      && stored.variants.VariantEdges? && |stored.variants.edges| > 0
      && (stored.variants.edges[0].availableForSale <==> SubmittedAvailable(st))
  {
    var f := Submit(p, st, fetched);
    ProductsApi.UpdateTouchesOnlyFirstVariant(store, Some(p.id), f, now, parseObjectId);
    if st.stockQuantity == "" {
      ParseIntOfIntToString(0);
      assert IntToString(0) == "0";
      assert TrimStart("") == "";
      assert ParseInt("") == NaN;
    }
  }

  /** Every fetched collection the product lists is sent, with the fetched title. */
  lemma ListedCollectionsResubmitted(p: Product, fetched: seq<CollectionsApi.ListedCollection>)
    ensures forall c :: c in fetched && c.id in InitialCollections(p) ==>
      RefObject(Some(c.id), Some(c.title), None) in Submit(p, InitialState(p), fetched).collections.value
  {
    var st := InitialState(p);
    assert st.collections == InitialCollections(p);
    var sent := SubmittedCollections(fetched, st.collections);
    assert Submit(p, st, fetched).collections.value == sent;
    forall c | c in fetched && c.id in st.collections
      ensures RefObject(Some(c.id), Some(c.title), None) in sent
    {
      SentWhenChosen(fetched, st.collections, c);
    }
  }

  lemma SentWhenChosen(fetched: seq<CollectionsApi.ListedCollection>, chosen: seq<string>, c: CollectionsApi.ListedCollection)
    requires c in fetched && c.id in chosen
    ensures RefObject(Some(c.id), Some(c.title), None) in SubmittedCollections(fetched, chosen)
  {
  }

  // ---------------------------------------------------------------- the gid collections

  /** A text containing `gid://` contains a slash. */
  lemma GidHasSlash(s: string)
    requires Includes(s, "gid://")
    ensures '/' in s
  {
    IncludesIffOccurs(s, "gid://");
    var i :| OccursAt(s, "gid://", i);
    assert s[i + 4] == "gid://"[4];
  }

  /** With the ids as the code derives them, a `gid://` id is never among the chosen ones. */
  lemma GidNeverChosenAsWritten(p: Product, id: string)
    requires Includes(id, "gid://")
    ensures id !in InitialCollectionsAsWritten(p)
  {
    var chosen := InitialCollectionsAsWritten(p);
    var ids := CollectionIds(p);
    GidHasSlash(id);
    forall k | 0 <= k < |chosen|
      ensures chosen[k] != id
    {
      if !Includes(ids[k], "gid://") {
        assert chosen[k] == ids[k];
      } else {
        assert '/' !in chosen[k];
      }
    }
  }

  /**
   * With the ids as the code derives them, no fetched collection whose id is a
   * `gid://` id is ever among the chosen ones, so saving the form untouched
   * sends none of them, whatever the product listed.
   */
  lemma AsWrittenDropsGidCollections(p: Product, fetched: seq<CollectionsApi.ListedCollection>)
    ensures forall c :: c in fetched && Includes(c.id, "gid://") ==>
      RefObject(Some(c.id), Some(c.title), None) !in Submit(p, InitialStateAsWritten(p), fetched).collections.value
  {
    forall c | c in fetched && Includes(c.id, "gid://")
      ensures c.id !in InitialCollectionsAsWritten(p)
    {
      GidNeverChosenAsWritten(p, c.id);
    }
  }

  /**
   * The concrete case: a product in one synced collection, opened and saved
   * untouched, sends no collections under the code as written, and sends that
   * collection with the ids left unchanged.
   */
  lemma GidCollectionNotSent(p: Product, c: CollectionsApi.ListedCollection)
    requires p.collections == Some([RefNode(c.id, Some(c.title), Some(c.handle))])
    requires Includes(c.id, "gid://")
    ensures Submit(p, InitialStateAsWritten(p), [c]).collections.value == []
    ensures Submit(p, InitialState(p), [c]).collections.value == [RefObject(Some(c.id), Some(c.title), None)]
  {
    var asWritten, corrected := InitialCollectionsAsWritten(p), InitialCollections(p);
    GidNeverChosenAsWritten(p, c.id);
    FilterNone([c], (x: CollectionsApi.ListedCollection) => x.id in asWritten);
    assert SubmittedCollections([c], asWritten) == [];
    assert c.id in corrected by {
      assert p.collections.value[0].id == c.id;
    }
    assert Filter([c], (x: CollectionsApi.ListedCollection) => x.id in corrected) == [c] by {
      assert [c][..0] == [];
    }
    assert SubmittedCollections([c], corrected) == [RefObject(Some(c.id), Some(c.title), None)];
  }

  /** The endpoint stores a sent `{id, title}` entry as that id and title. */
  lemma SentCollectionStored(id: string, title: string)
    ensures ProductsApi.PutCollections([RefObject(Some(id), Some(title), None)]) == [Some(RefNode(id, Some(title), None))]
  {
    var sent := [RefObject(Some(id), Some(title), None)];
    assert ProductsApi.PutCollections(sent)[0] == Some(ProductsApi.PutCollection(sent[0]));
  }

  /**
   * The same save as the endpoint stores it: under the code as written the
   * product is left with no collections at all; with the ids left unchanged
   * it keeps that collection.
   */
  lemma GidCollectionLostOnSave(store: Store, p: Product, c: CollectionsApi.ListedCollection,
                                now: int, parseObjectId: string -> Option<string>)
    requires p.collections == Some([RefNode(c.id, Some(c.title), Some(c.handle))])
    requires Includes(c.id, "gid://")
    requires p.id != ""
    requires ProductsApi.Find(store.products, ProductsApi.ChooseQuery(p.id, parseObjectId)).Some?
    ensures var i := ProductsApi.Find(store.products, ProductsApi.ChooseQuery(p.id, parseObjectId)).value;
      && ProductsApi.Update(store, Some(p.id), Submit(p, InitialStateAsWritten(p), [c]), now, parseObjectId)
           .store.products[i].collections == EdgeList([])
      && ProductsApi.Update(store, Some(p.id), Submit(p, InitialState(p), [c]), now, parseObjectId)
           .store.products[i].collections == EdgeList([Some(RefNode(c.id, Some(c.title), None))])
  {
    var asWritten, corrected := Submit(p, InitialStateAsWritten(p), [c]), Submit(p, InitialState(p), [c]);
    var i := ProductsApi.Find(store.products, ProductsApi.ChooseQuery(p.id, parseObjectId)).value;
    GidCollectionNotSent(p, c);
    var none := ProductsApi.ListOr(asWritten.collections);
    var sent := ProductsApi.ListOr(corrected.collections);
    assert none == [];
    assert sent == [RefObject(Some(c.id), Some(c.title), None)];
    ProductsApi.UpdateStoresCollections(store, Some(p.id), asWritten, now, parseObjectId);
    ProductsApi.UpdateStoresCollections(store, Some(p.id), corrected, now, parseObjectId);
    var r1 := ProductsApi.Update(store, Some(p.id), asWritten, now, parseObjectId);
    var r2 := ProductsApi.Update(store, Some(p.id), corrected, now, parseObjectId);
    assert r1.store.products[i].collections == EdgeList(ProductsApi.PutCollections(none));
    assert r2.store.products[i].collections == EdgeList(ProductsApi.PutCollections(sent));
    assert ProductsApi.PutCollections(none) == [];
    SentCollectionStored(c.id, c.title);
  }
}
