/**
 * The `/api/products` route: lookup-key choice, create and add-variant (POST),
 * product and variant delete (DELETE), full update (PUT) and the read-side
 * normalisation of the list and single-product responses (GET).
 *
 * Every handler is a pure function of the store it starts from and returns
 * the HTTP status together with the store it leaves behind. The clock, the
 * storage id a new document receives, the URLs of uploaded images and the
 * driver's storage-id check are parameters.
 */
module ProductsApi {
  import opened Wrappers
  import opened Text
  import opened Seqs
  import opened Catalog

  // ---------------------------------------------------------------- lookup

  /** A `findOne`/`updateOne` filter: `{id: key}` or `{_id: ObjectId(key)}`. */
  datatype Query = ByLogicalId(key: string) | ByObjectId(key: string)

  /**
   * The filter an id from the query string selects. A Shopify gid always looks
   * up the logical id; anything else that `new ObjectId(id)` accepts looks up
   * `_id` by the storage id it parses to; when the constructor throws, the
   * lookup falls back to the logical id. `parseObjectId` is the driver's parse:
   * the storage id in the form documents carry it, or `None` when it throws.
   */
  function ChooseQuery(id: string, parseObjectId: string -> Option<string>): (q: Query)
    ensures q.ByObjectId? <==> !StartsWith(id, "gid://") && parseObjectId(id).Some?
    ensures q.ByObjectId? ==> q.key == parseObjectId(id).value
    ensures q.ByLogicalId? ==> q.key == id
  {
    if StartsWith(id, "gid://") then ByLogicalId(id)
    else match parseObjectId(id)
      case Some(oid) => ByObjectId(oid)
      case None => ByLogicalId(id)
  }

  predicate Matches(d: Doc, q: Query) {
    match q
    case ByLogicalId(k) => d.id == k
    case ByObjectId(k) => d.oid == k
  }

  /** The document a filter selects: the first match in natural order. */
  function Find(docs: seq<Doc>, q: Query): (r: Option<nat>)
    ensures r.None? <==> forall i :: 0 <= i < |docs| ==> !Matches(docs[i], q)
    ensures r.Some? ==> r.value < |docs| && Matches(docs[r.value], q)
    ensures r.Some? ==> forall j :: 0 <= j < r.value ==> !Matches(docs[j], q)
  {
    FirstIndex(docs, (d: Doc) => Matches(d, q))
  }

  /** `{id: key}` lookups, which the POST and DELETE handlers use directly. */
  function FindById(docs: seq<Doc>, key: string): (r: Option<nat>)
    ensures r.None? <==> forall i :: 0 <= i < |docs| ==> docs[i].id != key
    ensures r.Some? ==> r.value < |docs| && docs[r.value].id == key
    ensures r.Some? ==> forall j :: 0 <= j < r.value ==> docs[j].id != key
  {
    Find(docs, ByLogicalId(key))
  }

  /**
   * With a gid, the lookup is by logical id whatever the storage-id check says,
   * and it finds the first document carrying that id.
   */
  lemma GidLooksUpLogicalId(docs: seq<Doc>, id: string, parseObjectId: string -> Option<string>)
    requires StartsWith(id, "gid://")
    ensures ChooseQuery(id, parseObjectId) == ByLogicalId(id)
    ensures Find(docs, ChooseQuery(id, parseObjectId)) == FindById(docs, id)
  {
  }

  /**
   * An id the driver parses is looked up by the storage id it denotes, so any
   * spelling the driver accepts finds the same document.
   */
  lemma ObjectIdLooksUpParsedId(docs: seq<Doc>, id: string, parseObjectId: string -> Option<string>)
    requires !StartsWith(id, "gid://") && parseObjectId(id).Some?
    ensures var r := Find(docs, ChooseQuery(id, parseObjectId));
      && (r.None? <==> forall i :: 0 <= i < |docs| ==> docs[i].oid != parseObjectId(id).value)
      && (r.Some? ==> docs[r.value].oid == parseObjectId(id).value)
  {
  }

  // ---------------------------------------------------------------- POST

  /**
   * The multipart form a POST carries. JSON-valued fields are given already
   * parsed; an empty `tags` or `collections` field counts as absent, as `|| '[]'`
   * makes it.
   */
  datatype PostForm = PostForm(
    isVariant: Option<string>,
    parentProductId: Option<string>,
    title: Option<string>,
    description: Option<string>,
    productType: Option<string>,
    vendor: Option<string>,
    price: Option<string>,
    compareAtPrice: Option<string>,
    sku: Option<string>,
    stockQuantity: Option<string>,
    tags: JsonField<seq<string>>,
    collections: JsonField<seq<string>>)

  /** The stock a form carries: `parseInt(stockQuantity || '0')`. */
  function FormStock(stockQuantity: Option<string>): Num {
    ParseInt(OrElse(stockQuantity, "0"))
  }

  /** The variant the add-variant branch pushes. */
  function NewVariant(f: PostForm, now: int): (v: Variant)
    ensures v.stockQuantity == Some(FormStock(f.stockQuantity))
    ensures v.availableForSale <==> IsPositive(FormStock(f.stockQuantity))
    ensures v.price.amount == OrElse(f.price, "0") && v.price.currencyCode == Currency
    ensures v.compareAtPrice == Some(Price(OrElse(f.compareAtPrice, ""), Currency))
  {
    var stock := FormStock(f.stockQuantity);
    Variant(
      "variant-" + IntToString(now), f.title,
      Price(OrElse(f.price, "0"), Currency),
      Some(Price(OrElse(f.compareAtPrice, ""), Currency)),
      OrElse(f.sku, ""), Some(stock), IsPositive(stock), false)
  }

  /**
   * `$push` onto `variants.edges` of the first document with the parent's
   * logical id, setting `updatedAt`. A missing `variants` field is created; a
   * `variants` value without edges (an array) makes the database reject the
   * update, which the handler reports as 500.
   */
  function AddVariant(store: Store, parentId: string, f: PostForm, now: int): (r: Outcome)
    ensures r.status in {Ok, NotFound, ServerError}
    ensures r.status != Ok ==> r.store == store
    ensures r.status == NotFound <==> FindById(store.products, parentId).None?
    ensures r.status == ServerError <==>
      FindById(store.products, parentId).Some? &&
      store.products[FindById(store.products, parentId).value].variants.VariantsOther?
    ensures r.store.collections == store.collections
    ensures |r.store.products| == |store.products|
    ensures r.status == Ok ==>
      var i := FindById(store.products, parentId).value;
      var old_, new_ := store.products[i], r.store.products[i];
      && (forall j :: 0 <= j < |store.products| && j != i ==> r.store.products[j] == store.products[j])
      && EdgesOf(new_.variants) == EdgesOf(old_.variants) + [NewVariant(f, now)]
      && new_.variants.VariantEdges?
      && new_.updatedAt == now
      && new_.(variants := old_.variants, updatedAt := old_.updatedAt) == old_
  {
    match FindById(store.products, parentId)
    case None => Outcome(NotFound, store)
    case Some(i) =>
      var d := store.products[i];
      if d.variants.VariantsOther? then Outcome(ServerError, store)
      else
        var d' := d.(variants := VariantEdges(EdgesOf(d.variants) + [NewVariant(f, now)]), updatedAt := now);
        Outcome(Ok, store.(products := store.products[i := d']))
  }

  /** The default variant a new product starts with; it is for sale whatever the stock. */
  function CreatedVariant(f: PostForm, now: int): Variant {
    Variant(
      "variant-" + IntToString(now), Some("Default Variant"),
      Price(OrElse(f.price, "0"), Currency),
      Some(Price(OrElse(f.compareAtPrice, ""), Currency)),
      OrElse(f.sku, ""), None, true, false)
  }

  /** Collection edges for the given ids, titles left empty for the read side to fill. */
  function IdEdges(ids: seq<string>): (r: seq<Option<RefNode>>)
    ensures |r| == |ids|
    ensures forall i :: 0 <= i < |ids| ==> r[i] == Some(RefNode(ids[i], Some(""), None))
  {
    seq(|ids|, i requires 0 <= i < |ids| => Some(RefNode(ids[i], Some(""), None)))
  }

  /** The document a create inserts; `uploads` are the URLs of the images that were stored. */
  function CreatedDoc(f: PostForm, title: string, tags: seq<string>, ids: seq<string>,
                      now: int, oid: string, uploads: seq<string>): (d: Doc)
    ensures d.oid == oid && d.title == Some(title) && d.handle == Some(Handle(title))
    ensures d.description == Some(OrElse(f.description, ""))
    ensures d.productType == Some(OrElse(f.productType, "")) && d.vendor == Some(OrElse(f.vendor, ""))
    ensures d.tags == Some(tags)
    ensures d.images.Some? && |d.images.value| == |uploads|
    ensures forall i :: 0 <= i < |uploads| ==> d.images.value[i] == Image(uploads[i], Some(title))
    ensures d.createdAt == now && d.updatedAt == now
    ensures d.isCustom && !d.isShopifyProduct && d.source.None?
  {
    Doc(oid, "custom-" + IntToString(now), Some(title),
        Some(OrElse(f.description, "")), Some(Handle(title)),
        Some(OrElse(f.productType, "")), Some(OrElse(f.vendor, "")),
        Some(tags), VariantEdges([CreatedVariant(f, now)]),
        Some(seq(|uploads|, i requires 0 <= i < |uploads| => Image(uploads[i], Some(title)))),
        EdgeList(IdEdges(ids)), now, now, true, false, None)
  }

  /** A JSON field with `|| '[]'` applied: absent reads as the empty list. */
  function ListOr<T>(f: JsonField<seq<T>>): seq<T>
    requires !f.Malformed?
  {
    if f.Parsed? then f.value else []
  }

  /**
   * The create branch of POST: a falsy title is refused with 400; an
   * unparseable `collections` or `tags` field fails with 500; otherwise exactly
   * one document is appended.
   */
  function CreateProduct(store: Store, f: PostForm, now: int, oid: string, uploads: seq<string>): (r: Outcome)
    ensures r.status in {Ok, BadRequest, ServerError}
    ensures r.status == BadRequest <==> !Truthy(f.title)
    ensures r.status == ServerError <==> Truthy(f.title) && (f.collections.Malformed? || f.tags.Malformed?)
    ensures r.status != Ok ==> r.store == store
    ensures r.store.collections == store.collections
    ensures r.status == Ok ==>
      && |r.store.products| == |store.products| + 1
      && r.store.products[..|store.products|] == store.products
  {
    if !Truthy(f.title) then Outcome(BadRequest, store)
    else if f.collections.Malformed? || f.tags.Malformed? then Outcome(ServerError, store)
    else
      var d := CreatedDoc(f, f.title.value, ListOr(f.tags), ListOr(f.collections), now, oid, uploads);
      Outcome(Ok, store.(products := store.products + [d]))
  }

  /**
   * The document a successful create appends: a `custom-` id, the custom flag,
   * a handle that is a slug, one default variant that is for sale regardless
   * of the stock field, and one collection edge per given id, in order, each
   * with an empty title.
   */
  lemma CreatedProductShape(store: Store, f: PostForm, now: int, oid: string, uploads: seq<string>)
    requires CreateProduct(store, f, now, oid, uploads).status == Ok
    ensures var d := CreateProduct(store, f, now, oid, uploads).store.products[|store.products|];
      && StartsWith(d.id, "custom-")
      && d.isCustom
      && d.title == f.title
      && d.handle.Some? && IsSlug(d.handle.value)
      && |EdgesOf(d.variants)| == 1
      && EdgesOf(d.variants)[0].availableForSale
      && EdgesOf(d.variants)[0].price == Price(OrElse(f.price, "0"), Currency)
      && d.collections.EdgeList?
      && |d.collections.edges| == |ListOr(f.collections)|
      && (forall i :: 0 <= i < |d.collections.edges| ==>
            d.collections.edges[i] == Some(RefNode(ListOr(f.collections)[i], Some(""), None)))
  {
    var d := CreateProduct(store, f, now, oid, uploads).store.products[|store.products|];
    assert ("custom-" + IntToString(now))[..|"custom-"|] == "custom-";
    ReplaceRunsIsSlug(ToLower(f.title.value));
  }

  /** The whole POST handler: the variant branch when `isVariant` is `'true'` and a parent id is given. */
  function Post(store: Store, f: PostForm, now: int, oid: string, uploads: seq<string>): (r: Outcome)
    ensures f.isVariant == Some("true") && Truthy(f.parentProductId) ==>
      r == AddVariant(store, f.parentProductId.value, f, now)
    ensures !(f.isVariant == Some("true") && Truthy(f.parentProductId)) ==>
      r == CreateProduct(store, f, now, oid, uploads)
  {
    if f.isVariant == Some("true") && Truthy(f.parentProductId) then AddVariant(store, f.parentProductId.value, f, now)
    else CreateProduct(store, f, now, oid, uploads)
  }

  // ---------------------------------------------------------------- DELETE

  /**
   * Variant delete: the first document with the logical id keeps exactly the
   * variants whose id differs from `variantId`. A document whose `variants`
   * has no edges makes the handler throw (500).
   */
  function DeleteVariant(store: Store, productId: string, variantId: string): (r: Outcome)
    ensures r.status in {Ok, NotFound, ServerError}
    ensures r.status != Ok ==> r.store == store
    ensures r.status == NotFound <==> FindById(store.products, productId).None?
    ensures r.status == ServerError <==>
      FindById(store.products, productId).Some?
      && !store.products[FindById(store.products, productId).value].variants.VariantEdges?
    ensures r.store.collections == store.collections
    ensures |r.store.products| == |store.products|
    ensures r.status == Ok ==>
      var i := FindById(store.products, productId).value;
      && store.products[i].variants.VariantEdges?
      && (forall j :: 0 <= j < |store.products| && j != i ==> r.store.products[j] == store.products[j])
      && r.store.products[i].variants.VariantEdges?
      && r.store.products[i].(variants := store.products[i].variants) == store.products[i]
  {
    match FindById(store.products, productId)
    case None => Outcome(NotFound, store)
    case Some(i) =>
      var d := store.products[i];
      if !d.variants.VariantEdges? then Outcome(ServerError, store)
      else
        var kept := Filter(d.variants.edges, (v: Variant) => v.id != variantId);
        Outcome(Ok, store.(products := store.products[i := d.(variants := VariantEdges(kept))]))
  }

  /**
   * What variant delete leaves: the variants with a different id, in their
   * original order, and the removed and the kept variants together are the
   * original ones. Nothing protects the first or the only variant.
   */
  lemma DeleteVariantKeepsOthers(store: Store, productId: string, variantId: string)
    requires DeleteVariant(store, productId, variantId).status == Ok
    ensures var i := FindById(store.products, productId).value;
      var before := store.products[i].variants.edges;
      var after := DeleteVariant(store, productId, variantId).store.products[i].variants.edges;
      && (forall v :: v in after <==> v in before && v.id != variantId)
      && IsSubseq(after, before)
      && multiset(after) + multiset(Filter(before, (v: Variant) => v.id == variantId)) == multiset(before)
  {
    var i := FindById(store.products, productId).value;
    var before := store.products[i].variants.edges;
    var keep := (v: Variant) => v.id != variantId;
    var drop := (v: Variant) => v.id == variantId;
    FilterIsSubseq(before, keep);
    FilterPartition(before, keep, drop);
  }

  /** Deleting the only variant succeeds and leaves an empty edge list. */
  lemma DeleteSoleVariant(store: Store, productId: string, v: Variant)
    requires FindById(store.products, productId).Some?
    requires store.products[FindById(store.products, productId).value].variants == VariantEdges([v])
    ensures var r := DeleteVariant(store, productId, v.id);
      && r.status == Ok
      && r.store.products[FindById(store.products, productId).value].variants == VariantEdges([])
  {
    assert [v][..0] == [];
  }

  /** Product delete: `deleteOne` removes the first document with the logical id. */
  function DeleteProduct(store: Store, productId: string): (r: Outcome)
    ensures r.status in {Ok, NotFound}
    ensures r.status == NotFound <==> forall i :: 0 <= i < |store.products| ==> store.products[i].id != productId
    ensures r.status == NotFound ==> r.store == store
    ensures r.store.collections == store.collections
    ensures r.status == Ok ==>
      && |r.store.products| == |store.products| - 1
      && store.products[FindById(store.products, productId).value].id == productId
      && multiset(r.store.products) + multiset{store.products[FindById(store.products, productId).value]}
           == multiset(store.products)
  {
    match FindById(store.products, productId)
    case None => Outcome(NotFound, store)
    case Some(i) => Outcome(Ok, store.(products := RemoveAt(store.products, i)))
  }

  /** Product delete removes one record and leaves the relative order of the rest. */
  lemma DeleteProductKeepsOrder(store: Store, productId: string)
    requires DeleteProduct(store, productId).status == Ok
    ensures IsSubseq(DeleteProduct(store, productId).store.products, store.products)
    ensures forall j :: 0 <= j < FindById(store.products, productId).value ==>
      DeleteProduct(store, productId).store.products[j] == store.products[j]
  {
    var i := FindById(store.products, productId).value;
    var xs := store.products;
    var notI := (k: nat) => k != i;
    RemoveAtIsSubseq(xs, i);
  }

  lemma {:induction false} RemoveAtIsSubseq<T(!new)>(xs: seq<T>, i: nat)
    requires i < |xs|
    ensures IsSubseq(RemoveAt(xs, i), xs)
  {
    SkipOneIsSubseq(xs[..i], xs[i], xs[i + 1..]);
    assert xs[..i] + [xs[i]] + xs[i + 1..] == xs;
  }

  /** The DELETE handler: 400 without an id, else a variant or a product delete. */
  function Delete(store: Store, productId: Option<string>, variantId: Option<string>): (r: Outcome)
    ensures !Truthy(productId) ==> r == Outcome(BadRequest, store)
    ensures Truthy(productId) && Truthy(variantId) ==> r == DeleteVariant(store, productId.value, variantId.value)
    ensures Truthy(productId) && !Truthy(variantId) ==> r == DeleteProduct(store, productId.value)
  {
    if !Truthy(productId) then Outcome(BadRequest, store)
    else if Truthy(variantId) then DeleteVariant(store, productId.value, variantId.value)
    else DeleteProduct(store, productId.value)
  }

  // ---------------------------------------------------------------- PUT

  /**
   * The form of a full update. In `variants`, `Parsed(NoVariants)` stands for
   * the JSON text `null`.
   */
  datatype UpdateForm = UpdateForm(
    title: Option<string>,
    description: Option<string>,
    vendor: Option<string>,
    productType: Option<string>,
    tags: JsonField<seq<string>>,
    collections: JsonField<seq<CollectionItem>>,
    variants: JsonField<VariantsField>,
    stockQuantity: Option<string>)

  /** The first variant, stamped with the form's stock; the others are left alone. */
  function StampFirstVariant(es: seq<Variant>, stock: Num): (r: seq<Variant>)
    requires |es| > 0
    ensures |r| == |es|
    ensures r[1..] == es[1..]
    ensures r[0].stockQuantity == Some(stock)
    ensures r[0].availableForSale <==> IsPositive(stock)
    ensures r[0].(stockQuantity := es[0].stockQuantity, availableForSale := es[0].availableForSale) == es[0]
  {
    [es[0].(stockQuantity := Some(stock), availableForSale := IsPositive(stock))] + es[1..]
  }

  /** The stored `variants` a PUT writes; absent text parses as `[]`, which has no edges. */
  function UpdatedVariants(v: JsonField<VariantsField>, stock: Num): (r: VariantsField)
    requires v.Absent? || (v.Parsed? && !v.value.NoVariants?)
    ensures |EdgesOf(r)| == if v.Parsed? then |EdgesOf(v.value)| else 0
    ensures v.Parsed? && v.value.VariantEdges? ==> r.VariantEdges?
  {
    if v.Absent? then VariantsOther
    else if v.value.VariantEdges? && |v.value.edges| > 0 then VariantEdges(StampFirstVariant(v.value.edges, stock))
    else v.value
  }

  /** One collection entry of a PUT, normalised to `{id, title}` with `''` defaults. */
  function PutCollection(c: CollectionItem): (n: RefNode)
    ensures n.handle.None? && n.title.Some?
    ensures c.IdText? ==> n.id == c.text && n.title == Some("")
    ensures c.RefObject? ==> n.id == OrElse(c.objId, "") && n.title == Some(OrElse(c.objTitle, ""))
  {
    match c
    case IdText(s) => RefNode(s, Some(""), None)
    case RefObject(id, t, _) => RefNode(OrElse(id, ""), Some(OrElse(t, "")), None)
  }

  function PutCollections(items: seq<CollectionItem>): (r: seq<Option<RefNode>>)
    ensures |r| == |items|
    ensures forall i :: 0 <= i < |items| ==> r[i] == Some(PutCollection(items[i]))
  {
    seq(|items|, i requires 0 <= i < |items| => Some(PutCollection(items[i])))
  }

  /** Whether a PUT form gets past its JSON parsing (each failure throws, giving 500). */
  predicate UpdateParses(f: UpdateForm) {
    !f.collections.Malformed? && !f.tags.Malformed? && !f.variants.Malformed? && f.variants != Parsed(NoVariants)
  }

  /**
   * The `$set` of a PUT applied to the matched document: the form's text
   * fields as sent (`null` when absent), the sent tags (`[]` when absent), the
   * sent collections normalised to `{id, title}`, the sent variants with the
   * first one stamped, and the time; every other field is left as it was.
   */
  function Applied(d: Doc, f: UpdateForm, now: int): (r: Doc)
    requires UpdateParses(f)
    ensures r.title == f.title && r.description == f.description
    ensures r.vendor == f.vendor && r.productType == f.productType
    ensures r.tags == Some(if f.tags.Parsed? then f.tags.value else [])
    ensures r.collections.EdgeList?
    ensures |r.collections.edges| == |ListOr(f.collections)|
    ensures forall i :: 0 <= i < |ListOr(f.collections)| ==>
      r.collections.edges[i] == Some(PutCollection(ListOr(f.collections)[i]))
    ensures f.variants.Absent? ==> EdgesOf(r.variants) == []
    ensures f.variants.Parsed? && f.variants.value.VariantEdges? && |f.variants.value.edges| > 0 ==>
      r.variants == VariantEdges(StampFirstVariant(f.variants.value.edges, FormStock(f.stockQuantity)))
    ensures f.variants.Parsed? && !(f.variants.value.VariantEdges? && |f.variants.value.edges| > 0) ==>
      r.variants == f.variants.value
    ensures r.updatedAt == now
    ensures r.(title := d.title, description := d.description, vendor := d.vendor,
               productType := d.productType, tags := d.tags, collections := d.collections,
               variants := d.variants, updatedAt := d.updatedAt) == d
  {
    d.(title := f.title, description := f.description, vendor := f.vendor,
       productType := f.productType, tags := Some(ListOr(f.tags)),
       collections := EdgeList(PutCollections(ListOr(f.collections))),
       variants := UpdatedVariants(f.variants, FormStock(f.stockQuantity)),
       updatedAt := now)
  }

  /**
   * The PUT handler. Missing id: 400. Unparseable JSON (or variants `null`):
   * 500. No document for the chosen filter: 404. Otherwise only the matched
   * document changes, and in it only the fields the form sets.
   */
  function Update(store: Store, productId: Option<string>, f: UpdateForm, now: int,
                  parseObjectId: string -> Option<string>): (r: Outcome)
    ensures r.status in {Ok, BadRequest, NotFound, ServerError}
    ensures r.status == BadRequest <==> !Truthy(productId)
    ensures r.status == ServerError <==> Truthy(productId) && !UpdateParses(f)
    ensures r.status == NotFound <==>
      Truthy(productId) && UpdateParses(f) && Find(store.products, ChooseQuery(productId.value, parseObjectId)).None?
    ensures r.status != Ok ==> r.store == store
    ensures r.store.collections == store.collections
    ensures |r.store.products| == |store.products|
    ensures r.status == Ok ==>
      var i := Find(store.products, ChooseQuery(productId.value, parseObjectId)).value;
      var old_, new_ := store.products[i], r.store.products[i];
      && (forall j :: 0 <= j < |store.products| && j != i ==> r.store.products[j] == store.products[j])
      && new_.oid == old_.oid && new_.id == old_.id && new_.handle == old_.handle
      && new_.images == old_.images && new_.createdAt == old_.createdAt
      && new_.isCustom == old_.isCustom && new_.isShopifyProduct == old_.isShopifyProduct
      && new_.source == old_.source
      && new_.updatedAt == now
      && new_ == Applied(old_, f, now)
  {
    if !Truthy(productId) then Outcome(BadRequest, store)
    else if !UpdateParses(f) then Outcome(ServerError, store)
    else
      match Find(store.products, ChooseQuery(productId.value, parseObjectId))
      case None => Outcome(NotFound, store)
      case Some(i) => Outcome(Ok, store.(products := store.products[i := Applied(store.products[i], f, now)]))
  }

  /**
   * In a successful PUT, only the first variant of the sent list is stamped
   * with the stock and its availability; the rest are stored as sent, and the
   * collection entries keep their number and order.
   */
  lemma UpdateTouchesOnlyFirstVariant(store: Store, productId: Option<string>, f: UpdateForm, now: int,
                                      parseObjectId: string -> Option<string>)
    requires Truthy(productId) && UpdateParses(f)
    requires Find(store.products, ChooseQuery(productId.value, parseObjectId)).Some?
    requires f.variants.Parsed? && f.variants.value.VariantEdges? && |f.variants.value.edges| > 0
    ensures var i := Find(store.products, ChooseQuery(productId.value, parseObjectId)).value;
      var sent := f.variants.value.edges;
      var stored := Update(store, productId, f, now, parseObjectId).store.products[i];
      && stored.variants.VariantEdges?
      && |stored.variants.edges| == |sent|
      && stored.variants.edges[1..] == sent[1..]
      && stored.variants.edges[0].stockQuantity == Some(FormStock(f.stockQuantity))
      && (stored.variants.edges[0].availableForSale <==> IsPositive(FormStock(f.stockQuantity)))
      && stored.variants.edges[0].id == sent[0].id
      && stored.variants.edges[0].price == sent[0].price
      && stored.collections.EdgeList?
      && stored.collections.edges == PutCollections(ListOr(f.collections))
  {
  }

  /** A successful PUT stores the sent collection entries normalised to `{id, title}`, one for one, in order. */
  lemma UpdateStoresCollections(store: Store, productId: Option<string>, f: UpdateForm, now: int,
                                parseObjectId: string -> Option<string>)
    requires Truthy(productId) && UpdateParses(f)
    requires Find(store.products, ChooseQuery(productId.value, parseObjectId)).Some?
    ensures var i := Find(store.products, ChooseQuery(productId.value, parseObjectId)).value;
      Update(store, productId, f, now, parseObjectId).store.products[i].collections
        == EdgeList(PutCollections(ListOr(f.collections)))
  {
  }

  // ---------------------------------------------------------------- GET

  /** What the collections map holds for one collection. */
  datatype CollectionInfo = CollectionInfo(title: string, handle: string)

  /** The map key of a collection: its logical id, or its storage id when that is falsy. */
  function CollectionKey(c: CollectionDoc): string {
    OrElse(c.id, c.oid)
  }

  function InfoOf(c: CollectionDoc): CollectionInfo {
    CollectionInfo(c.title, OrElse(c.handle, ""))
  }

  /** The collections map, built with `Map.set` in natural order. */
  function CollectionsMap(cs: seq<CollectionDoc>): (m: map<string, CollectionInfo>)
    ensures forall k :: k in m <==> exists i :: 0 <= i < |cs| && CollectionKey(cs[i]) == k
  {
    if |cs| == 0 then map[]
    else
      var m := CollectionsMap(cs[..|cs| - 1]);
      assert forall i :: 0 <= i < |cs| - 1 ==> cs[..|cs| - 1][i] == cs[i];
      m[CollectionKey(cs[|cs| - 1]) := InfoOf(cs[|cs| - 1])]
  }

  /** When two collections share a key, the later one wins. */
  lemma {:induction false} CollectionsMapLastWins(cs: seq<CollectionDoc>, i: nat)
    requires i < |cs|
    requires forall j :: i < j < |cs| ==> CollectionKey(cs[j]) != CollectionKey(cs[i])
    ensures CollectionKey(cs[i]) in CollectionsMap(cs)
    ensures CollectionsMap(cs)[CollectionKey(cs[i])] == InfoOf(cs[i])
  {
    if i < |cs| - 1 {
      var init := cs[..|cs| - 1];
      assert forall j :: i < j < |init| ==> init[j] == cs[j];
      CollectionsMapLastWins(init, i);
    }
  }

  /** `a || b || ''` where `a` is what the map knows. */
  function Pick(known: Option<string>, embedded: Option<string>): (r: string)
    ensures Truthy(known) ==> r == known.value
    ensures !Truthy(known) && Truthy(embedded) ==> r == embedded.value
    ensures !Truthy(known) && !Truthy(embedded) ==> r == ""
  {
    if Truthy(known) then known.value else OrElse(embedded, "")
  }

  function KnownTitle(m: map<string, CollectionInfo>, key: Option<string>): Option<string> {
    if key.Some? && key.value in m then Some(m[key.value].title) else None
  }

  function KnownHandle(m: map<string, CollectionInfo>, key: Option<string>): Option<string> {
    if key.Some? && key.value in m then Some(m[key.value].handle) else None
  }

  /** A read-side collection edge; a missing node is first replaced by `{id: '', title: ''}`. */
  function ReadEdge(e: Option<RefNode>, m: map<string, CollectionInfo>): (n: RefNode)
    ensures n.id == if e.Some? then e.value.id else ""
    ensures n.title.Some? && n.handle.Some?
  {
    var node := e.GetOr(RefNode("", Some(""), None));
    RefNode(node.id,
            Some(Pick(KnownTitle(m, Some(node.id)), node.title)),
            Some(Pick(KnownHandle(m, Some(node.id)), node.handle)))
  }

  /** A read-side array entry: a bare id has no embedded title or handle. */
  function ReadItem(c: CollectionItem, m: map<string, CollectionInfo>): (n: RefNode)
    ensures n.id == if c.IdText? then c.text else OrElse(c.objId, "")
    ensures n.title.Some? && n.handle.Some?
  {
    match c
    case IdText(s) => RefNode(s, Some(Pick(KnownTitle(m, Some(s)), None)), Some(Pick(KnownHandle(m, Some(s)), None)))
    case RefObject(id, t, h) => RefNode(OrElse(id, ""), Some(Pick(KnownTitle(m, id), t)), Some(Pick(KnownHandle(m, id), h)))
  }

  /** The read side's collection edges; shapes other than edges or an array give none. */
  function ReadCollections(c: CollectionsField, m: map<string, CollectionInfo>): (r: seq<RefNode>)
    ensures c.EdgeList? ==> |r| == |c.edges|
    ensures c.ItemArray? ==> |r| == |c.items|
    ensures !c.EdgeList? && !c.ItemArray? ==> r == []
    ensures forall i :: 0 <= i < |r| ==> r[i].title.Some? && r[i].handle.Some?
  {
    match c
    case EdgeList(es) => seq(|es|, i requires 0 <= i < |es| => ReadEdge(es[i], m))
    case ItemArray(items) => seq(|items|, i requires 0 <= i < |items| => ReadItem(items[i], m))
    case _ => []
  }

  /**
   * Titles on the read side come from the collections map first, then from
   * the embedded edge, then `''`; handles likewise.
   */
  lemma ReadEdgeFallbacks(node: RefNode, m: map<string, CollectionInfo>)
    ensures var n := ReadEdge(Some(node), m);
      && (node.id in m && m[node.id].title != "" ==> n.title == Some(m[node.id].title))
      && ((node.id !in m || m[node.id].title == "") && Truthy(node.title) ==> n.title == node.title)
      && ((node.id !in m || m[node.id].title == "") && !Truthy(node.title) ==> n.title == Some(""))
      && (node.id in m && m[node.id].handle != "" ==> n.handle == Some(m[node.id].handle))
      && ((node.id !in m || m[node.id].handle == "") && Truthy(node.handle) ==> n.handle == node.handle)
      && ((node.id !in m || m[node.id].handle == "") && !Truthy(node.handle) ==> n.handle == Some(""))
  {
  }

  /** The default variant the read side synthesises for a document without `variants`. */
  function DefaultVariant(oid: string): Variant {
    Variant("variant-" + oid, Some("Default Variant"), Price("0", Currency), None, "", None, true, false)
  }

  /**
   * The defaults both GET forms apply: `images || []`, `tags || []`, and one
   * default variant when none is stored; every other field is spread unchanged.
   */
  function WithDefaults(d: Doc): (r: Doc)
    ensures r.variants != NoVariants && r.images.Some? && r.tags.Some?
    ensures r.images == Some(d.images.GetOr([])) && r.tags == Some(d.tags.GetOr([]))
    ensures !d.variants.NoVariants? ==> r.variants == d.variants
    ensures d.variants.NoVariants? ==> EdgesOf(r.variants) == [DefaultVariant(d.oid)]
    ensures r.(images := d.images, variants := d.variants, tags := d.tags) == d
  {
    d.(images := Some(d.images.GetOr([])),
       variants := if d.variants.NoVariants? then VariantEdges([DefaultVariant(d.oid)]) else d.variants,
       tags := Some(d.tags.GetOr([])))
  }

  /** A product as the list response carries it. */
  function Listed(d: Doc, m: map<string, CollectionInfo>): Doc {
    var refs := ReadCollections(d.collections, m);
    WithDefaults(d).(collections := EdgeList(seq(|refs|, i requires 0 <= i < |refs| => Some(refs[i]))))
  }

  /** A product as the single-product response carries it: collections are passed through. */
  function Single(d: Doc): Doc {
    WithDefaults(d).(collections := if d.collections.NoCollections? then EdgeList([]) else d.collections)
  }

  /**
   * A document stored without `variants` is served with exactly one variant,
   * priced `'0'` in CZK, for sale, identified by the storage id; a document
   * with variants is served with them unchanged.
   */
  lemma DefaultVariantServed(d: Doc, m: map<string, CollectionInfo>)
    ensures d.variants.NoVariants? ==>
      && EdgesOf(Listed(d, m).variants) == [DefaultVariant(d.oid)]
      && DefaultVariant(d.oid).price == Price("0", "CZK")
      && DefaultVariant(d.oid).availableForSale
      && Single(d).variants == Listed(d, m).variants
    ensures !d.variants.NoVariants? ==> Listed(d, m).variants == d.variants && Single(d).variants == d.variants
  {
  }

  /** The list response. */
  datatype Listing = Listing(products: seq<Doc>, tags: seq<string>, vendors: seq<string>)

  function TagLists(docs: seq<Doc>): (r: seq<seq<string>>)
    ensures |r| == |docs|
    ensures forall i :: 0 <= i < |docs| ==> r[i] == docs[i].tags.GetOr([])
  {
    seq(|docs|, i requires 0 <= i < |docs| => docs[i].tags.GetOr([]))
  }

  function VendorFields(docs: seq<Doc>): (r: seq<Option<string>>)
    ensures |r| == |docs|
    ensures forall i :: 0 <= i < |docs| ==> r[i] == docs[i].vendor
  {
    seq(|docs|, i requires 0 <= i < |docs| => docs[i].vendor)
  }

  /**
   * GET without an id. Products keep their number and order; tags are every
   * tag of every product, once each; vendors are the non-empty vendors, once each.
   */
  function ListProducts(store: Store): (r: Listing)
    ensures |r.products| == |store.products|
    ensures forall i :: 0 <= i < |r.products| ==>
      r.products[i].oid == store.products[i].oid && r.products[i].id == store.products[i].id
    ensures NoDups(r.tags)
    ensures forall t :: t in r.tags <==>
      exists i :: 0 <= i < |store.products| && store.products[i].tags.Some? && t in store.products[i].tags.value
    ensures NoDups(r.vendors)
    ensures forall v :: v in r.vendors <==> v != "" && Some(v) in VendorFields(store.products)
  {
    var m := CollectionsMap(store.collections);
    var docs := store.products;
    var tags := Dedup(Flatten(TagLists(docs)));
    assert forall t :: t in tags ==> exists i :: 0 <= i < |docs| && docs[i].tags.Some? && t in docs[i].tags.value by {
      forall t | t in tags
        ensures exists i :: 0 <= i < |docs| && docs[i].tags.Some? && t in docs[i].tags.value
      {
        var i :| 0 <= i < |TagLists(docs)| && t in TagLists(docs)[i];
      }
    }
    assert forall t :: (exists i :: 0 <= i < |docs| && docs[i].tags.Some? && t in docs[i].tags.value) ==> t in tags by {
      forall t | exists i :: 0 <= i < |docs| && docs[i].tags.Some? && t in docs[i].tags.value
        ensures t in tags
      {
        var i :| 0 <= i < |docs| && docs[i].tags.Some? && t in docs[i].tags.value;
        assert t in TagLists(docs)[i];
      }
    }
    Listing(seq(|docs|, i requires 0 <= i < |docs| => Listed(docs[i], m)),
            tags,
            Dedup(Present(VendorFields(docs))))
  }

  /**
   * In the list, stored edges and stored arrays both become edges of the same
   * length whose ids are the stored ids (`''` for a missing node or id), each
   * with a title and a handle; other shapes become no edges.
   */
  lemma ListedCollections(store: Store, k: nat)
    requires k < |store.products|
    ensures var d := store.products[k];
      var c := ListProducts(store).products[k].collections;
      && c.EdgeList?
      && (forall i :: 0 <= i < |c.edges| ==> c.edges[i].Some? && c.edges[i].value.title.Some? && c.edges[i].value.handle.Some?)
      && (d.collections.EdgeList? ==>
            |c.edges| == |d.collections.edges| &&
            forall i :: 0 <= i < |c.edges| ==>
              c.edges[i].value.id == (if d.collections.edges[i].Some? then d.collections.edges[i].value.id else ""))
      && (d.collections.ItemArray? ==>
            |c.edges| == |d.collections.items| &&
            forall i :: 0 <= i < |c.edges| ==>
              c.edges[i].value.id == (if d.collections.items[i].IdText? then d.collections.items[i].text
                                      else OrElse(d.collections.items[i].objId, "")))
      && (!d.collections.EdgeList? && !d.collections.ItemArray? ==> c.edges == [])
  {
  }

  /** A created product, listed, shows the ids it was created with, in order. */
  lemma CreatedThenListed(store: Store, f: PostForm, now: int, oid: string, uploads: seq<string>)
    requires CreateProduct(store, f, now, oid, uploads).status == Ok
    ensures var s := CreateProduct(store, f, now, oid, uploads).store;
      var c := ListProducts(s).products[|store.products|].collections;
      && |c.edges| == |ListOr(f.collections)|
      && forall i :: 0 <= i < |c.edges| ==> c.edges[i].Some? && c.edges[i].value.id == ListOr(f.collections)[i]
  {
    var s := CreateProduct(store, f, now, oid, uploads).store;
    ListedCollections(s, |store.products|);
  }

  /** The GET response: not found, one product, or the listing. */
  datatype GetReply = Missing | One(product: Doc) | Many(listing: Listing)

  function Get(store: Store, productId: Option<string>, parseObjectId: string -> Option<string>): (r: GetReply)
    ensures !Truthy(productId) ==> r == Many(ListProducts(store))
    ensures Truthy(productId) ==>
      match Find(store.products, ChooseQuery(productId.value, parseObjectId))
      case None => r == Missing
      case Some(i) => r == One(Single(store.products[i]))
  {
    if !Truthy(productId) then Many(ListProducts(store))
    else
      match Find(store.products, ChooseQuery(productId.value, parseObjectId))
      case None => Missing
      case Some(i) => One(Single(store.products[i]))
  }
}
