/**
 * The selection state of the create-product form: the tag and vendor choices
 * offered, picking and adding tags, and creating a collection on the fly.
 * Image previews, the submit itself and the UI flags are not modelled.
 */
module CreateProductModal {
  import opened Wrappers
  import opened Text
  import opened Seqs
  import opened Catalog
  import CollectionsApi
  import ProductsApi

  /** A collection the form offers; `isShopifyCollection` may be missing. */
  datatype Choice = Choice(id: string, title: string, isShopifyCollection: Option<bool>)

  /**
   * The form state this model follows: the chosen tags and collection ids, the
   * tag choices, the collections offered and the two text inputs.
   */
  datatype Form = Form(
    tags: seq<string>,
    collections: seq<string>,
    availableTags: seq<string>,
    choices: seq<Choice>,
    newTag: string,
    newCollection: string)

  /**
   * What the two fetches behind a choice list brought: a thrown error, or the
   * local list (missing when the response lacks it) and the remote products
   * (missing when the response has no product edges).
   */
  datatype Sources = SourcesFailed | Sources(local: Option<seq<string>>, remote: Option<seq<RemoteProduct>>)

  /** Every tag of the remote products, in order, empty ones dropped. */
  function RemoteTags(ps: seq<RemoteProduct>): (r: seq<string>)
    ensures forall t :: t in r <==> t != "" && exists i :: 0 <= i < |ps| && t in ps[i].tags.GetOr([])
  {
    var lists := seq(|ps|, i requires 0 <= i < |ps| => ps[i].tags.GetOr([]));
    assert forall i :: 0 <= i < |ps| ==> lists[i] == ps[i].tags.GetOr([]);
    Filter(Flatten(lists), (t: string) => t != "")
  }

  /** The vendor of every remote product, in order, empty or missing ones dropped. */
  function RemoteVendors(ps: seq<RemoteProduct>): (r: seq<string>)
    ensures forall v :: v in r <==> v != "" && exists i :: 0 <= i < |ps| && ps[i].vendor == Some(v)
  {
    var vs := seq(|ps|, i requires 0 <= i < |ps| => ps[i].vendor);
    assert forall v :: Some(v) in vs <==> exists i :: 0 <= i < |ps| && ps[i].vendor == Some(v) by {
      forall v | exists i :: 0 <= i < |ps| && ps[i].vendor == Some(v)
        ensures Some(v) in vs
      {
        var i :| 0 <= i < |ps| && ps[i].vendor == Some(v);
        assert vs[i] == Some(v);
      }
    }
    Present(vs)
  }

  /** The store's list, then the new remote values, each once. */
  function Union(local: Option<seq<string>>, remote: seq<string>): (r: seq<string>)
    ensures NoDups(r)
    ensures forall t :: t in r <==> t in local.GetOr([]) || t in remote
  {
    Dedup(local.GetOr([]) + remote)
  }

  /** The tag choices; a failed fetch offers none. */
  function AvailableTags(s: Sources): (r: seq<string>)
    ensures NoDups(r)
    ensures s.SourcesFailed? ==> r == []
    ensures s.Sources? ==> forall t :: t in r <==>
      (|| t in s.local.GetOr([])
       || (t != "" && exists i :: 0 <= i < |s.remote.GetOr([])| && t in s.remote.GetOr([])[i].tags.GetOr([])))
  {
    match s
    case SourcesFailed => []
    case Sources(local, remote) => Union(local, RemoteTags(remote.GetOr([])))
  }

  /** The vendor choices; a failed fetch offers none. */
  function AvailableVendors(s: Sources): (r: seq<string>)
    ensures NoDups(r)
    ensures s.SourcesFailed? ==> r == []
    ensures s.Sources? ==> forall v :: v in r <==>
      (|| v in s.local.GetOr([])
       || (v != "" && exists i :: 0 <= i < |s.remote.GetOr([])| && s.remote.GetOr([])[i].vendor == Some(v)))
  {
    match s
    case SourcesFailed => []
    case Sources(local, remote) => Union(local, RemoteVendors(remote.GetOr([])))
  }

  /**
   * The store's values come first, in their own order when they have no
   * repeats (the product listing serves them so); the remote values follow.
   */
  lemma StoreValuesFirst(local: seq<string>, remote: seq<string>)
    requires NoDups(local)
    ensures var r := Union(Some(local), remote);
      |local| <= |r| && r[..|local|] == local && r[|local|..] == Dedup(Without(remote, local))
  {
    DedupAppend(local, remote);
    DedupOfNoDups(local);
  }

  /** The store's tags as the product listing serves them are all offered, first. */
  lemma {:induction false} ListedTagsOffered(store: Store, remote: Option<seq<RemoteProduct>>)
    ensures var listed := ProductsApi.ListProducts(store).tags;
      var r := AvailableTags(Sources(Some(listed), remote));
      |listed| <= |r| && r[..|listed|] == listed
  {
    StoreValuesFirst(ProductsApi.ListProducts(store).tags, RemoteTags(remote.GetOr([])));
  }

  // ---------------------------------------------------------------- tags

  /**
   * "Add tag": the trimmed input is chosen when it is non-empty and not yet
   * chosen, offered as a choice when it is not offered yet, and the input is
   * cleared. Otherwise nothing changes.
   */
  function AddTag(f: Form): (r: Form)
    ensures var t := Trim(f.newTag);
      if t != "" && t !in f.tags then
        && r.tags == f.tags + [t]
        && r.availableTags == (if t in f.availableTags then f.availableTags else f.availableTags + [t])
        && r.newTag == ""
        && r.collections == f.collections && r.choices == f.choices && r.newCollection == f.newCollection
      else r == f
  {
    var t := Trim(f.newTag);
    if t != "" && t !in f.tags then
      f.(tags := f.tags + [t],
         availableTags := if t in f.availableTags then f.availableTags else f.availableTags + [t],
         newTag := "")
    else f
  }

  /** Adding a tag never introduces a repeat in the chosen or the offered tags. */
  lemma AddTagKeepsNoDups(f: Form)
    requires NoDups(f.tags) && NoDups(f.availableTags)
    ensures NoDups(AddTag(f).tags) && NoDups(AddTag(f).availableTags)
    ensures forall t :: t in AddTag(f).tags ==> t in AddTag(f).availableTags || t in f.tags
  {
    var t := Trim(f.newTag);
    if t != "" && t !in f.tags {
      NoDupsSnoc(f.tags, t);
      if t !in f.availableTags {
        NoDupsSnoc(f.availableTags, t);
      }
    }
  }

  /** Clicking a tag chip: a chosen tag is unchosen (every copy), another is chosen last. */
  function TagClick(f: Form, tag: string): (r: Form)
    ensures tag in f.tags ==> tag !in r.tags
    ensures tag !in f.tags ==> r.tags == f.tags + [tag]
    ensures forall t :: t != tag ==> (t in r.tags <==> t in f.tags)
    ensures r.(tags := f.tags) == f
  {
    var tags := if tag in f.tags then Filter(f.tags, (t: string) => t != tag) else f.tags + [tag];
    f.(tags := tags)
  }

  /** A click keeps the chosen tags free of repeats. */
  lemma {:induction false} TagClickKeepsNoDups(f: Form, tag: string)
    requires NoDups(f.tags)
    ensures NoDups(TagClick(f, tag).tags)
  {
    if tag in f.tags {
      FilterKeepsNoDups(f.tags, (t: string) => t != tag);
    }
  }

  /** Two clicks on the same tag leave the same set of chosen tags. */
  lemma TagClickTwiceSameSet(f: Form, tag: string)
    ensures (set t | t in TagClick(TagClick(f, tag), tag).tags) == (set t | t in f.tags)
  {
  }

  /** Two clicks on a tag that was not chosen restore the chosen list exactly. */
  lemma {:induction false} TagClickTwiceRestores(f: Form, tag: string)
    requires tag !in f.tags
    ensures TagClick(TagClick(f, tag), tag) == f
  {
    var keep := (t: string) => t != tag;
    FilterAppend(f.tags, [tag], keep);
    FilterAll(f.tags, keep);
    assert Filter([tag], keep) == [];
  }

  // ---------------------------------------------------------------- collections

  /**
   * "Create collection": a blank name does nothing. Otherwise the trimmed name
   * is posted to the collections endpoint; on success the new collection is
   * offered and chosen and the input cleared, on failure the form stays as it
   * was. Returns the form and the store the endpoint leaves behind; `oid` is
   * the storage id the database assigns.
   */
  function CreateCollection(f: Form, store: Store, oid: string, now: int): (r: (Form, Store))
    ensures Trim(f.newCollection) == "" ==> r == (f, store)
    ensures Trim(f.newCollection) != "" ==>
      && r.0.choices == f.choices + [Choice(oid, Trim(f.newCollection), Some(false))]
      && r.0.collections == f.collections + [oid]
      && r.0.newCollection == ""
      && r.0.tags == f.tags && r.0.availableTags == f.availableTags && r.0.newTag == f.newTag
  {
    var name := Trim(f.newCollection);
    if name == "" then (f, store)
    else
      var reply := CollectionsApi.Create(store, CollectionsApi.Json(CollectionsApi.StringTitle(name)), oid, now);
      assert CollectionsApi.ValidTitle(CollectionsApi.StringTitle(name));
      assert reply.status == Ok && reply.collectionId == Some(oid);
      if reply.status != Ok then (f, reply.store)
      else
        var f' := f.(choices := f.choices + [Choice(reply.collectionId.value, name, Some(false))],
                     collections := f.collections + [reply.collectionId.value],
                     newCollection := "");
        (f', reply.store)
  }

  /**
   * The collection the form adds is the one the endpoint stored: same storage
   * id, and the stored title equals the title the form shows.
   */
  lemma CreatedCollectionStored(f: Form, store: Store, oid: string, now: int)
    requires Trim(f.newCollection) != ""
    ensures var r := CreateCollection(f, store, oid, now);
      && |r.1.collections| == |store.collections| + 1
      && |r.0.collections| == |f.collections| + 1
      && |r.0.choices| == |f.choices| + 1
      && r.1.collections[|store.collections|].oid == r.0.collections[|f.collections|]
      && r.1.collections[|store.collections|].title == r.0.choices[|f.choices|].title
  {
    var name := Trim(f.newCollection);
    var reply := CollectionsApi.Create(store, CollectionsApi.Json(CollectionsApi.StringTitle(name)), oid, now);
    assert reply.status == Ok;
    assert reply.store.collections[|store.collections|].title == Trim(name);
    TrimIdempotent(f.newCollection);
  }
}
