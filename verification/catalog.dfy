/**
 * The records the catalog stores and exchanges.
 *
 * Two product shapes exist side by side. `Doc` is a product document as the
 * database holds it: written by several handlers over time, so most fields
 * may be absent and the collections and variants fields come in more than one
 * shape. `Product` is the declared client-side shape that the pages and forms
 * work with. Remote (Shopify) records arrive as `RemoteProduct` and
 * `RemoteCollection`.
 */
module Catalog {
  import opened Wrappers
  import opened Text

  /** The only currency the app writes. */
  const Currency: string := "CZK"

  datatype Price = Price(amount: string, currencyCode: string)

  /**
   * A product variant. `title` may be absent (the add-variant form does not
   * require one); `stockQuantity` is absent on variants that never had one;
   * `isShopifyVariant` is false where the field is absent.
   */
  datatype Variant = Variant(
    id: string,
    title: Option<string>,
    price: Price,
    compareAtPrice: Option<Price>,
    sku: string,
    stockQuantity: Option<Num>,
    availableForSale: bool,
    isShopifyVariant: bool)

  datatype Image = Image(url: string, altText: Option<string>)

  /** The node of a collection edge embedded in a product. */
  datatype RefNode = RefNode(id: string, title: Option<string>, handle: Option<string>)

  /** One entry of a collections array: a bare id string or an object. */
  datatype CollectionItem =
    | IdText(text: string)
    | RefObject(objId: Option<string>, objTitle: Option<string>, objHandle: Option<string>)

  /**
   * The stored `collections` field of a product: absent, `{edges: [...]}`
   * (an edge may lack its node), a plain array, or any other value.
   */
  datatype CollectionsField =
    | NoCollections
    | EdgeList(edges: seq<Option<RefNode>>)
    | ItemArray(items: seq<CollectionItem>)
    | OtherCollections

  /**
   * The stored `variants` field: absent, `{edges: [...]}`, or a value without
   * `edges` (the bare `[]` a full update stores when no variants were sent).
   */
  datatype VariantsField =
    | NoVariants
    | VariantEdges(edges: seq<Variant>)
    | VariantsOther

  /** The variants listed in a `variants` field; none unless it has edges. */
  function EdgesOf(v: VariantsField): seq<Variant> {
    if v.VariantEdges? then v.edges else []
  }

  /** A stored product document. `oid` is the storage id `_id`, `id` the logical id. */
  datatype Doc = Doc(
    oid: string,
    id: string,
    title: Option<string>,
    description: Option<string>,
    handle: Option<string>,
    productType: Option<string>,
    vendor: Option<string>,
    tags: Option<seq<string>>,
    variants: VariantsField,
    images: Option<seq<Image>>,
    collections: CollectionsField,
    createdAt: int,
    updatedAt: int,
    isCustom: bool,
    isShopifyProduct: bool,
    source: Option<string>)

  /** A stored collection document; `products` is the list of member product ids. */
  datatype CollectionDoc = CollectionDoc(
    oid: string,
    id: Option<string>,
    title: string,
    handle: Option<string>,
    description: Option<string>,
    isShopifyCollection: Option<bool>,
    source: Option<string>,
    products: Option<seq<string>>,
    createdAt: int,
    updatedAt: int)

  /** The database: the products and collections collections, in natural order. */
  datatype Store = Store(products: seq<Doc>, collections: seq<CollectionDoc>)

  /** A handler's HTTP status together with the store it leaves behind. */
  datatype Outcome = Outcome(status: int, store: Store)

  const Ok: int := 200
  const BadRequest: int := 400
  const NotFound: int := 404
  const ServerError: int := 500

  /** A form field holding JSON text: absent (or empty), unparseable, or parsed. */
  datatype JsonField<T> = Absent | Malformed | Parsed(value: T)

  /** The client-side product record (the declared `Product` type). */
  datatype Product = Product(
    id: string,
    title: string,
    description: string,
    handle: string,
    productType: string,
    vendor: string,
    tags: Option<seq<string>>,
    variants: seq<Variant>,
    images: seq<Image>,
    collections: Option<seq<RefNode>>)

  /** The collection ids a client product lists, in order. */
  function CollectionIds(p: Product): (r: seq<string>)
    ensures p.collections.None? ==> r == []
    ensures p.collections.Some? ==> |r| == |p.collections.value|
    ensures p.collections.Some? ==> forall i :: 0 <= i < |r| ==> r[i] == p.collections.value[i].id
  {
    match p.collections
    case None => []
    case Some(cs) => seq(|cs|, i requires 0 <= i < |cs| => cs[i].id)
  }

  /** A Shopify collection node. */
  datatype RemoteCollection = RemoteCollection(
    id: string, title: string, handle: string, description: Option<string>)

  /** A Shopify variant node; the optional fields may be missing from the response. */
  datatype RemoteVariant = RemoteVariant(
    id: string,
    title: string,
    price: Option<Price>,
    compareAtPrice: Option<Price>,
    sku: Option<string>,
    availableForSale: Option<bool>)

  /** A Shopify product node. */
  datatype RemoteProduct = RemoteProduct(
    id: string,
    title: string,
    handle: string,
    description: Option<string>,
    productType: Option<string>,
    vendor: Option<string>,
    tags: Option<seq<string>>,
    collections: Option<seq<RemoteCollection>>,
    variants: seq<RemoteVariant>,
    images: Option<seq<Image>>)
}
