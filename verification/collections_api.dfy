/**
 * The collections endpoint: listing the stored collections in a uniform shape,
 * and creating a local collection from a title.
 */
module CollectionsApi {
  import opened Wrappers
  import opened Text
  import opened Catalog
  import SyncApi

  /** A collection as the listing returns it: every field filled in. */
  datatype ListedCollection = ListedCollection(
    id: string,
    title: string,
    description: string,
    isShopifyCollection: bool,
    source: string,
    handle: string)

  /**
   * One stored collection in listing form. A collection without a logical id
   * is listed under its storage id; missing fields get the local defaults.
   */
  function Format(c: CollectionDoc): (r: ListedCollection)
    ensures r.id == (if Truthy(c.id) then c.id.value else c.oid)
    ensures r.title == c.title
    ensures r.description == (if Truthy(c.description) then c.description.value else "")
    ensures r.isShopifyCollection <==> c.isShopifyCollection == Some(true)
    ensures r.source == (if Truthy(c.source) then c.source.value else "mongodb")
    ensures r.handle == (if Truthy(c.handle) then c.handle.value else "")
  {
    ListedCollection(
      OrElse(c.id, c.oid),
      c.title,
      OrElse(c.description, ""),
      c.isShopifyCollection == Some(true),
      OrElse(c.source, "mongodb"),
      OrElse(c.handle, ""))
  }

  /** The listing: every stored collection, formatted, in the order the store holds them. */
  function ListCollections(store: Store): (r: seq<ListedCollection>)
    ensures |r| == |store.collections|
    ensures forall i :: 0 <= i < |r| ==> r[i] == Format(store.collections[i])
  {
    seq(|store.collections|, i requires 0 <= i < |store.collections| => Format(store.collections[i]))
  }

  /** The `title` member of a create request's JSON body. */
  datatype TitleField = NoTitle | NonString | StringTitle(value: string)

  /**
   * A create request's body: unreadable (not valid JSON, or `null`, which the
   * destructuring of `title` throws on), or any other JSON value. A number,
   * string or array, or an object without `title`, has `NoTitle`.
   */
  datatype CreateBody = Unreadable | Json(title: TitleField)

  /** The create response: the status, the new collection's storage id and title. */
  datatype CreateReply = CreateReply(status: int, collectionId: Option<string>, title: Option<string>, store: Store)

  /** The title is present, a string and not empty. */
  predicate ValidTitle(t: TitleField) {
    t.StringTitle? && t.value != ""
  }

  /** The document a create stores for `title`: trimmed title, handle from the raw title. */
  function NewCollection(title: string, oid: string, now: int): (r: CollectionDoc)
    ensures r.title == Trim(title) && r.handle == Some(Handle(title))
    ensures r.id.None? && r.source.None? && r.isShopifyCollection.None?
    ensures r.description == Some("") && r.products == Some([])
    ensures r.oid == oid && r.createdAt == now && r.updatedAt == now
  {
    CollectionDoc(oid, None, Trim(title), Some(Handle(title)), Some(""), None, None, Some([]), now, now)
  }

  /**
   * Creating a collection. An unreadable body fails with 500; a missing, empty
   * or non-string title is refused with 400 and the store is untouched;
   * otherwise one collection is appended and its storage id and trimmed title
   * are returned. `oid` is the storage id the database assigns.
   */
  function Create(store: Store, body: CreateBody, oid: string, now: int): (r: CreateReply)
    ensures r.status in {Ok, BadRequest, ServerError}
    ensures r.status == ServerError <==> body.Unreadable?
    ensures r.status == BadRequest <==> body.Json? && !ValidTitle(body.title)
    ensures r.status != Ok ==> r.store == store && r.collectionId.None? && r.title.None?
    ensures r.status == Ok ==>
      && r.store.products == store.products
      && |r.store.collections| == |store.collections| + 1
      && r.store.collections[..|store.collections|] == store.collections
      && r.store.collections[|store.collections|] == NewCollection(body.title.value, oid, now)
      && r.collectionId == Some(oid)
      && r.title == Some(Trim(body.title.value))
  {
    match body
    case Unreadable => CreateReply(ServerError, None, None, store)
    case Json(t) =>
      if !ValidTitle(t) then CreateReply(BadRequest, None, None, store)
      else
        var doc := NewCollection(t.value, oid, now);
        CreateReply(Ok, Some(oid), Some(doc.title), store.(collections := store.collections + [doc]))
  }

  /**
   * A created collection is listed last, under its storage id, with the local
   * defaults, and the title the create response reported.
   */
  lemma CreatedThenListed(store: Store, title: string, oid: string, now: int)
    requires title != ""
    ensures var r := Create(store, Json(StringTitle(title)), oid, now);
      && r.status == Ok
      && var listed := ListCollections(r.store);
      && |listed| == |store.collections| + 1
      && listed[..|store.collections|] == ListCollections(store)
      && listed[|store.collections|] == ListedCollection(oid, r.title.value, "", false, "mongodb", Handle(title))
  {
    var r := Create(store, Json(StringTitle(title)), oid, now);
    var listed := ListCollections(r.store);
    assert Handle(title) != "" by {
      assert |ToLower(title)| > 0;
    }
    assert listed[..|store.collections|] == ListCollections(store);
  }

  /**
   * A title made only of whitespace passes the check (it is a non-empty
   * string) and is stored as the empty title.
   */
  lemma BlankTitleStoredEmpty(store: Store, title: string, oid: string, now: int)
    requires title != "" && AllWhitespace(title)
    ensures var r := Create(store, Json(StringTitle(title)), oid, now);
      r.status == Ok && r.title == Some("") && r.store.collections[|store.collections|].title == ""
  {
  }

  /**
   * The handle is derived from the title before trimming: a title that starts
   * or ends with a space gets a handle that starts or ends with a hyphen.
   */
  lemma HandleKeepsOuterSpaces(store: Store, title: string, oid: string, now: int)
    requires title != ""
    ensures var h := Create(store, Json(StringTitle(title)), oid, now).store.collections[|store.collections|].handle.value;
      && |h| > 0
      && (title[0] == ' ' ==> h[0] == '-')
      && (title[|title| - 1] == ' ' ==> h[|h| - 1] == '-')
  {
    var low := ToLower(title);
    ReplaceRunsLastChar(low);
  }

  /** Creating again with the title the response reported stores the same title. */
  lemma RecreateKeepsTitle(store: Store, title: string, oid: string, oid': string, now: int, now': int)
    requires ValidTitle(StringTitle(title)) && !AllWhitespace(title)
    ensures var r := Create(store, Json(StringTitle(title)), oid, now);
      && r.title.value != ""
      && var r' := Create(r.store, Json(StringTitle(r.title.value)), oid', now');
      && r'.status == Ok
      && r'.store.collections[|r.store.collections|].title == r.store.collections[|store.collections|].title
  {
    TrimIdempotent(title);
  }

  /**
   * A collection the sync stored is listed under its Shopify id, as a Shopify
   * collection, with its Shopify handle.
   */
  lemma SyncedListed(c: RemoteCollection, oid: string, now: int)
    requires c.id != "" && c.handle != ""
    ensures var l := Format(SyncApi.CollectionDocOf(c, oid, now));
      l.id == c.id && l.isShopifyCollection && l.source == "shopify" && l.handle == c.handle && l.title == c.title
  {
  }
}
