/**
 * The `/api/sync` route: duplicate cleanup and the insert-only merge of the
 * remote (Shopify) collections and products into the store.
 *
 * Cleanup is given twice: `Survivors` says which records remain, and the
 * method `CleanupDuplicates` computes them the way the route does (group by
 * logical id, keep the newest of each group, delete the rest) and is proved
 * to agree with it.
 */
module SyncApi {
  import opened Wrappers
  import opened Text
  import opened Seqs
  import opened Catalog

  // ---------------------------------------------------------------- cleanup

  /** Record `k` is at least as good a survivor as record `j`: newer, or as new and earlier. */
  predicate AtLeastAsGood(s: seq<Doc>, k: nat, j: nat)
    requires k < |s| && j < |s|
  {
    s[j].updatedAt < s[k].updatedAt || (s[j].updatedAt == s[k].updatedAt && k <= j)
  }

  /**
   * Record `i` survives cleanup: no record with its logical id is newer, and
   * none equally new comes before it (the stable descending sort puts the
   * earliest of the newest first, and the first is kept).
   */
  predicate IsKept(s: seq<Doc>, i: nat)
    requires i < |s|
  {
    forall j :: 0 <= j < |s| && s[j].id == s[i].id ==> AtLeastAsGood(s, i, j)
  }

  /** The kept records among the first `n`, in store order. */
  function Kept(s: seq<Doc>, n: nat): seq<Doc>
    requires n <= |s|
  {
    if n == 0 then [] else Kept(s, n - 1) + (if IsKept(s, n - 1) then [s[n - 1]] else [])
  }

  /**
   * The products collection after cleanup: some of the records, no two with
   * the same logical id (their order is `SurvivorsInOrder`).
   */
  function Survivors(s: seq<Doc>): (r: seq<Doc>)
    ensures UniqueIds(r)
    ensures forall x :: x in r ==> x in s
  {
    KeptUnique(s, |s|);
    KeptFrom(s, |s|);
    Kept(s, |s|)
  }

  /** The logical ids, in store order. */
  function Ids(s: seq<Doc>): (r: seq<string>)
    ensures |r| == |s|
    ensures forall i :: 0 <= i < |s| ==> r[i] == s[i].id
  {
    seq(|s|, i requires 0 <= i < |s| => s[i].id)
  }

  predicate UniqueIds(s: seq<Doc>) {
    forall i, j :: 0 <= i < j < |s| ==> s[i].id != s[j].id
  }

  /** `keep` names, for every logical id among the first `n` records, the best of them. */
  predicate ChoosesBest(s: seq<Doc>, keep: map<string, nat>, n: nat)
    requires n <= |s|
  {
    && (forall id :: id in keep ==> keep[id] < n && s[keep[id]].id == id)
    && (forall j :: 0 <= j < n ==> s[j].id in keep && AtLeastAsGood(s, keep[s[j].id], j))
  }

  lemma ChosenIffKept(s: seq<Doc>, keep: map<string, nat>, i: nat)
    requires i < |s| && ChoosesBest(s, keep, |s|)
    ensures keep[s[i].id] == i <==> IsKept(s, i)
  {
    var k := keep[s[i].id];
    if IsKept(s, i) {
      assert AtLeastAsGood(s, i, k);
      assert AtLeastAsGood(s, k, i);
    }
  }

  /**
   * The cleanup pass as the route performs it: find, for every logical id, the
   * record to keep (greatest `updatedAt`, earliest on a tie), then delete every
   * other record of that id.
   */
  method CleanupDuplicates(s: seq<Doc>) returns (r: seq<Doc>)
    ensures r == Survivors(s)
  {
    var keep: map<string, nat> := map[];
    for i := 0 to |s|
      invariant ChoosesBest(s, keep, i)
    {
      var id := s[i].id;
      if id !in keep || s[keep[id]].updatedAt < s[i].updatedAt {
        keep := keep[id := i];
      }
    }
    r := [];
    for i := 0 to |s|
      invariant r == Kept(s, i)
    {
      ChosenIffKept(s, keep, i);
      if keep[s[i].id] == i {
        r := r + [s[i]];
      }
    }
  }

  /** Two kept records never share a logical id. */
  lemma KeptSameId(s: seq<Doc>, i: nat, j: nat)
    requires i < |s| && j < |s| && IsKept(s, i) && IsKept(s, j) && s[i].id == s[j].id
    ensures i == j
  {
  }

  lemma KeptDistinctIds(s: seq<Doc>, i: nat, j: nat)
    requires i < |s| && j < |s| && i != j && IsKept(s, i) && IsKept(s, j)
    ensures s[i].id != s[j].id
  {
    if s[i].id == s[j].id {
      KeptSameId(s, i, j);
    }
  }

  lemma {:induction false} KeptFrom(s: seq<Doc>, n: nat)
    requires n <= |s|
    ensures forall x :: x in Kept(s, n) ==> exists k :: 0 <= k < n && IsKept(s, k) && s[k] == x
    ensures forall k :: 0 <= k < n && IsKept(s, k) ==> s[k] in Kept(s, n)
  {
    if n > 0 {
      KeptFrom(s, n - 1);
    }
  }

  lemma {:induction false} KeptBefore(s: seq<Doc>, n: nat, m: nat)
    requires n <= m < |s| && IsKept(s, m)
    ensures forall x :: x in Kept(s, n) ==> x.id != s[m].id
  {
    if n > 0 {
      KeptBefore(s, n - 1, m);
      if IsKept(s, n - 1) {
        KeptDistinctIds(s, n - 1, m);
      }
    }
  }

  lemma {:induction false} KeptUnique(s: seq<Doc>, n: nat)
    requires n <= |s|
    ensures UniqueIds(Kept(s, n))
  {
    if n > 0 {
      KeptUnique(s, n - 1);
      var p := Kept(s, n - 1);
      if IsKept(s, n - 1) {
        KeptBefore(s, n - 1, n - 1);
        var q := p + [s[n - 1]];
        forall i, j | 0 <= i < j < |q|
          ensures q[i].id != q[j].id
        {
          if j == |p| {
            assert q[i] in p;
          } else {
            assert q[i] == p[i] && q[j] == p[j];
          }
        }
      }
    }
  }

  /** After cleanup every logical id occurs at most once. */
  lemma SurvivorsUniqueIds(s: seq<Doc>)
    ensures UniqueIds(Survivors(s))
  {
    KeptUnique(s, |s|);
  }

  lemma {:induction false} KeptAll(t: seq<Doc>, n: nat)
    requires UniqueIds(t) && n <= |t|
    ensures Kept(t, n) == t[..n]
  {
    if n > 0 {
      KeptAll(t, n - 1);
      assert IsKept(t, n - 1);
      assert t[..n] == t[..n - 1] + [t[n - 1]];
    }
  }

  /** A store whose logical ids are already unique loses nothing to cleanup. */
  lemma UniqueIdsUntouched(t: seq<Doc>)
    requires UniqueIds(t)
    ensures Survivors(t) == t
  {
    KeptAll(t, |t|);
  }

  /** Cleaning up a second time deletes nothing. */
  lemma CleanupIdempotent(s: seq<Doc>)
    ensures Survivors(Survivors(s)) == Survivors(s)
  {
    SurvivorsUniqueIds(s);
    UniqueIdsUntouched(Survivors(s));
  }

  /** A record whose logical id no other record shares survives cleanup. */
  lemma LoneRecordSurvives(s: seq<Doc>, i: nat)
    requires i < |s|
    requires forall j :: 0 <= j < |s| && j != i ==> s[j].id != s[i].id
    ensures s[i] in Survivors(s)
  {
    assert IsKept(s, i);
    KeptFrom(s, |s|);
  }

  /** Cleanup only deletes: the survivors keep their relative order. */
  lemma {:induction false} SurvivorsInOrder(s: seq<Doc>, n: nat)
    requires n <= |s|
    ensures IsSubseq(Kept(s, n), s[..n])
  {
    if n > 0 {
      SurvivorsInOrder(s, n - 1);
      var p := Kept(s, n - 1);
      assert s[..n] == s[..n - 1] + [s[n - 1]];
      if IsKept(s, n - 1) {
        var q := p + [s[n - 1]];
        assert q[..|q| - 1] == p && q[|q| - 1] == s[n - 1];
        assert s[..n][..n - 1] == s[..n - 1] && s[..n][n - 1] == s[n - 1];
      } else {
        assert Kept(s, n) == p;
        SubseqAppend(p, s[..n - 1], s[n - 1]);
      }
    }
  }

  function MaxUpdated(s: seq<Doc>): (m: int)
    ensures forall i :: 0 <= i < |s| ==> s[i].updatedAt <= m
  {
    if |s| == 0 then 0
    else
      var m := MaxUpdated(s[..|s| - 1]);
      assert forall i :: 0 <= i < |s| - 1 ==> s[..|s| - 1][i] == s[i];
      if s[|s| - 1].updatedAt > m then s[|s| - 1].updatedAt else m
  }

  lemma {:induction false} KeptExists(s: seq<Doc>, i: nat)
    requires i < |s|
    ensures exists k :: 0 <= k < |s| && IsKept(s, k) && s[k].id == s[i].id && s[k].updatedAt >= s[i].updatedAt
    decreases MaxUpdated(s) - s[i].updatedAt, i
  {
    if !IsKept(s, i) {
      var j :| 0 <= j < |s| && s[j].id == s[i].id && !AtLeastAsGood(s, i, j);
      KeptExists(s, j);
    }
  }

  /**
   * Every logical id of the store is still present after cleanup, carried by
   * a record at least as new as any record of that id.
   */
  lemma SurvivorIsNewest(s: seq<Doc>, i: nat)
    requires i < |s|
    ensures exists x :: (x in Survivors(s) && x.id == s[i].id &&
                         forall j :: 0 <= j < |s| && s[j].id == x.id ==> s[j].updatedAt <= x.updatedAt)
  {
    KeptExists(s, i);
    var k :| 0 <= k < |s| && IsKept(s, k) && s[k].id == s[i].id && s[k].updatedAt >= s[i].updatedAt;
    KeptFrom(s, |s|);
    assert s[k] in Survivors(s);
  }

  lemma KeptOfCleanPrefix(a: seq<Doc>, b: seq<Doc>)
    requires UniqueIds(a)
    requires forall i, j :: 0 <= i < |a| && 0 <= j < |b| ==> a[i].id != b[j].id
    ensures Kept(a + b, |a|) == a
  {
    var s := a + b;
    assert forall j :: 0 <= j < |a| ==> s[j] == a[j];
    assert forall j :: |a| <= j < |s| ==> s[j] == b[j - |a|];
    assert forall k :: 0 <= k < |a| ==> IsKept(s, k);
    KeptPrefixAll(s, |a|);
    assert s[..|a|] == a;
  }

  lemma KeptOfFreshSuffix(a: seq<Doc>, b: seq<Doc>, k: nat)
    requires forall i, j :: 0 <= i < |a| && 0 <= j < |b| ==> a[i].id != b[j].id
    requires k < |b|
    ensures IsKept(a + b, |a| + k) <==> IsKept(b, k)
  {
    var s := a + b;
    assert s[|a| + k] == b[k];
    assert forall j :: 0 <= j < |a| ==> s[j] == a[j];
    assert forall j :: |a| <= j < |s| ==> s[j] == b[j - |a|];
    if IsKept(b, k) {
      forall j | 0 <= j < |s| && s[j].id == s[|a| + k].id
        ensures AtLeastAsGood(s, |a| + k, j)
      {
        assert j >= |a|;
        assert AtLeastAsGood(b, k, j - |a|);
      }
    }
    if IsKept(s, |a| + k) {
      forall j | 0 <= j < |b| && b[j].id == b[k].id
        ensures AtLeastAsGood(b, k, j)
      {
        assert AtLeastAsGood(s, |a| + k, |a| + j);
      }
    }
  }

  lemma {:induction false} KeptAppend(a: seq<Doc>, b: seq<Doc>, n: nat)
    requires UniqueIds(a)
    requires forall i, j :: 0 <= i < |a| && 0 <= j < |b| ==> a[i].id != b[j].id
    requires n <= |b|
    ensures Kept(a + b, |a| + n) == a + Kept(b, n)
  {
    if n == 0 {
      KeptOfCleanPrefix(a, b);
    } else {
      KeptAppend(a, b, n - 1);
      KeptOfFreshSuffix(a, b, n - 1);
      assert (a + b)[|a| + n - 1] == b[n - 1];
    }
  }

  lemma {:induction false} KeptPrefixAll(s: seq<Doc>, n: nat)
    requires n <= |s|
    requires forall k :: 0 <= k < n ==> IsKept(s, k)
    ensures Kept(s, n) == s[..n]
  {
    if n > 0 {
      KeptPrefixAll(s, n - 1);
      assert s[..n] == s[..n - 1] + [s[n - 1]];
    }
  }

  /**
   * Appending records whose ids are new to an already clean store and
   * cleaning up again leaves the old records untouched.
   */
  lemma SurvivorsAppendFresh(a: seq<Doc>, b: seq<Doc>)
    requires UniqueIds(a)
    requires forall i, j :: 0 <= i < |a| && 0 <= j < |b| ==> a[i].id != b[j].id
    ensures Survivors(a + b) == a + Survivors(b)
  {
    KeptAppend(a, b, |b|);
  }

  // ---------------------------------------------------------------- merge

  /** A remote page: the fetch threw, or it returned a (possibly missing) list. */
  datatype Fetch<T> = FetchFailed | Fetched(page: Option<seq<T>>)

  /** The sync response and the store it leaves; counts are 0 on failure. */
  datatype SyncReply = SyncReply(status: int, collectionsProcessed: nat, productsProcessed: nat, store: Store)

  /**
   * Some stored collection carries the logical id `id`; collections created
   * locally carry none (`undefined`), so they never match a remote id.
   */
  predicate HasCollectionId(cs: seq<CollectionDoc>, id: string) {
    exists i :: 0 <= i < |cs| && cs[i].id == Some(id)
  }

  /** The document a new remote collection becomes. */
  function CollectionDocOf(c: RemoteCollection, oid: string, now: int): (d: CollectionDoc)
    ensures d.id == Some(c.id) && d.title == c.title && d.handle == Some(c.handle)
    ensures d.description == Some(OrElse(c.description, ""))
    ensures d.isShopifyCollection == Some(true) && d.source == Some("shopify")
  {
    CollectionDoc(oid, Some(c.id), c.title, Some(c.handle), Some(OrElse(c.description, "")),
                  Some(true), Some("shopify"), None, now, now)
  }

  /** A remote variant with the missing fields defaulted. */
  function VariantOf(v: RemoteVariant): (r: Variant)
    ensures r.id == v.id && r.title == Some(v.title)
    ensures r.price == v.price.GetOr(Price("0", Currency))
    ensures r.compareAtPrice == Some(v.compareAtPrice.GetOr(Price("", Currency)))
    ensures r.sku == OrElse(v.sku, "")
    ensures r.availableForSale == (v.availableForSale == Some(true))
    ensures r.stockQuantity == Some(Int(if r.availableForSale then 1 else 0))
    ensures r.isShopifyVariant
  {
    var avail := v.availableForSale == Some(true);
    Variant(v.id, Some(v.title), v.price.GetOr(Price("0", Currency)),
            Some(v.compareAtPrice.GetOr(Price("", Currency))), OrElse(v.sku, ""),
            Some(Int(if avail then 1 else 0)), avail, true)
  }

  function VariantsOf(vs: seq<RemoteVariant>): (r: seq<Variant>)
    ensures |r| == |vs|
    ensures forall i :: 0 <= i < |vs| ==> r[i] == VariantOf(vs[i])
  {
    seq(|vs|, i requires 0 <= i < |vs| => VariantOf(vs[i]))
  }

  function RefOf(c: RemoteCollection): RefNode {
    RefNode(c.id, Some(c.title), Some(c.handle))
  }

  function RefsOf(cs: seq<RemoteCollection>): (r: seq<Option<RefNode>>)
    ensures |r| == |cs|
    ensures forall i :: 0 <= i < |cs| ==> r[i] == Some(RefOf(cs[i]))
  {
    seq(|cs|, i requires 0 <= i < |cs| => Some(RefOf(cs[i])))
  }

  /** The document a new remote product becomes. */
  function ProductDocOf(p: RemoteProduct, oid: string, now: int): (d: Doc)
    ensures d.oid == oid && d.title == Some(p.title) && d.handle == Some(p.handle)
    ensures d.description == Some(OrElse(p.description, ""))
    ensures d.productType == Some(OrElse(p.productType, "")) && d.vendor == Some(OrElse(p.vendor, ""))
    ensures d.tags == Some(p.tags.GetOr([]))
    ensures d.createdAt == now && d.updatedAt == now
    ensures !d.isCustom && d.isShopifyProduct && d.source == Some("shopify")
  {
    Doc(oid, p.id, Some(p.title), Some(OrElse(p.description, "")), Some(p.handle),
        Some(OrElse(p.productType, "")), Some(OrElse(p.vendor, "")), Some(p.tags.GetOr([])),
        VariantEdges(VariantsOf(p.variants)), Some(p.images.GetOr([])),
        EdgeList(RefsOf(p.collections.GetOr([]))), now, now, false, true, Some("shopify"))
  }

  /** The remote collections not yet stored, in remote order. */
  function NewCollections(stored: seq<CollectionDoc>, remote: seq<RemoteCollection>): seq<RemoteCollection> {
    Filter(remote, (c: RemoteCollection) => !HasCollectionId(stored, c.id))
  }

  /** The remote products not yet stored, in remote order. */
  function NewProducts(stored: seq<Doc>, remote: seq<RemoteProduct>): seq<RemoteProduct> {
    Filter(remote, (p: RemoteProduct) => p.id !in Ids(stored))
  }

  function CollectionDocs(cs: seq<RemoteCollection>, oids: nat -> string, now: int): (r: seq<CollectionDoc>)
    ensures |r| == |cs|
    ensures forall i :: 0 <= i < |cs| ==> r[i] == CollectionDocOf(cs[i], oids(i), now)
  {
    seq(|cs|, i requires 0 <= i < |cs| => CollectionDocOf(cs[i], oids(i), now))
  }

  function ProductDocs(ps: seq<RemoteProduct>, oids: nat -> string, now: int): (r: seq<Doc>)
    ensures |r| == |ps|
    ensures forall i :: 0 <= i < |ps| ==> r[i] == ProductDocOf(ps[i], oids(i), now)
  {
    seq(|ps|, i requires 0 <= i < |ps| => ProductDocOf(ps[i], oids(i), now))
  }

  /**
   * The sync handler: cleanup, insert the remote collections whose id is not
   * stored, insert the remote products whose id is not stored, clean up again.
   * A failed fetch answers 500 and keeps what was already written.
   * `collectionOids` and `productOids` give the storage ids the inserts receive.
   */
  function Sync(store: Store, collectionsPage: Fetch<RemoteCollection>, productsPage: Fetch<RemoteProduct>,
                now: int, collectionOids: nat -> string, productOids: nat -> string): (r: SyncReply)
    ensures r.status in {Ok, ServerError}
    ensures collectionsPage.FetchFailed? ==> r.status == ServerError && r.store == store.(products := Survivors(store.products))
    ensures r.status == Ok <==> collectionsPage.Fetched? && productsPage.Fetched?
    ensures collectionsPage.Fetched? && productsPage.FetchFailed? ==> r.store.products == Survivors(store.products)
    ensures r.status == Ok ==> r.collectionsProcessed == |r.store.collections| - |store.collections|
    ensures |r.store.collections| >= |store.collections|
    ensures r.store.collections[..|store.collections|] == store.collections
  {
    var cleaned := Survivors(store.products);
    match collectionsPage
    case FetchFailed => SyncReply(ServerError, 0, 0, store.(products := cleaned))
    case Fetched(cp) =>
      var newCs := NewCollections(store.collections, cp.GetOr([]));
      var collections := store.collections + CollectionDocs(newCs, collectionOids, now);
      match productsPage
      case FetchFailed => SyncReply(ServerError, 0, 0, Store(cleaned, collections))
      case Fetched(pp) =>
        var newPs := NewProducts(cleaned, pp.GetOr([]));
        var products := Survivors(cleaned + ProductDocs(newPs, productOids, now));
        SyncReply(Ok, |newCs|, |newPs|, Store(products, collections))
  }

  /**
   * A successful sync leaves every product that survived the first cleanup
   * as it was, in front; the rest are the new remote products (after cleanup
   * among themselves); no remote product whose id was stored is inserted, and
   * the product count reports how many were inserted.
   */
  lemma SyncInsertsOnlyNew(store: Store, cp: Option<seq<RemoteCollection>>, pp: Option<seq<RemoteProduct>>,
                           now: int, collectionOids: nat -> string, productOids: nat -> string)
    ensures var r := Sync(store, Fetched(cp), Fetched(pp), now, collectionOids, productOids);
      var cleaned := Survivors(store.products);
      var newPs := NewProducts(cleaned, pp.GetOr([]));
      && r.status == Ok
      && r.store.products == cleaned + Survivors(ProductDocs(newPs, productOids, now))
      && r.productsProcessed == |newPs|
      && (forall p :: p in newPs <==> p in pp.GetOr([]) && p.id !in Ids(cleaned))
      && UniqueIds(r.store.products)
  {
    var cleaned := Survivors(store.products);
    var newPs := NewProducts(cleaned, pp.GetOr([]));
    var docs := ProductDocs(newPs, productOids, now);
    SurvivorsUniqueIds(store.products);
    forall i, j | 0 <= i < |cleaned| && 0 <= j < |docs|
      ensures cleaned[i].id != docs[j].id
    {
      assert docs[j].id == newPs[j].id;
      assert newPs[j] in newPs;
      assert cleaned[i].id in Ids(cleaned);
    }
    SurvivorsAppendFresh(cleaned, docs);
    SurvivorsUniqueIds(cleaned + docs);
  }

  /**
   * A successful sync appends one document per remote collection whose id was
   * not stored, in remote order; stored collections are not touched, and the
   * collection count reports how many were inserted.
   */
  lemma SyncCollections(store: Store, cp: Option<seq<RemoteCollection>>, pp: Fetch<RemoteProduct>,
                        now: int, collectionOids: nat -> string, productOids: nat -> string)
    ensures var r := Sync(store, Fetched(cp), pp, now, collectionOids, productOids);
      var newCs := NewCollections(store.collections, cp.GetOr([]));
      && r.store.collections == store.collections + CollectionDocs(newCs, collectionOids, now)
      && (r.status == Ok ==> r.collectionsProcessed == |newCs|)
  {
  }

  /** The collections a sync inserts are exactly the remote ones whose id is not stored, in remote order. */
  lemma NewCollectionsAreMissing(stored: seq<CollectionDoc>, remote: seq<RemoteCollection>)
    ensures forall c :: c in NewCollections(stored, remote) <==> c in remote && !HasCollectionId(stored, c.id)
    ensures IsSubseq(NewCollections(stored, remote), remote)
  {
    FilterIsSubseq(remote, (c: RemoteCollection) => !HasCollectionId(stored, c.id));
  }

  /**
   * A remote product is stored with one variant per remote variant, in order,
   * and one collection edge per remote collection, keeping id, title and
   * handle; missing collections and images become empty lists.
   */
  lemma ProductDocShape(p: RemoteProduct, oid: string, now: int)
    ensures var d := ProductDocOf(p, oid, now);
      && d.id == p.id && d.isShopifyProduct && d.source == Some("shopify")
      && |EdgesOf(d.variants)| == |p.variants|
      && (forall i :: 0 <= i < |p.variants| ==>
            EdgesOf(d.variants)[i].id == p.variants[i].id &&
            EdgesOf(d.variants)[i].stockQuantity == Some(Int(if p.variants[i].availableForSale == Some(true) then 1 else 0)))
      && d.collections.EdgeList?
      && (p.collections.None? ==> d.collections.edges == [])
      && (p.collections.Some? ==>
            |d.collections.edges| == |p.collections.value| &&
            forall i :: 0 <= i < |p.collections.value| ==>
              d.collections.edges[i] == Some(RefNode(p.collections.value[i].id, Some(p.collections.value[i].title),
                                                     Some(p.collections.value[i].handle))))
      && (p.images.None? ==> d.images == Some([]))
  {
  }

  /** After a successful sync every remote product id is stored. */
  lemma SyncStoresEveryProduct(store: Store, cp: Option<seq<RemoteCollection>>, pp: Option<seq<RemoteProduct>>,
                               now: int, oids1: nat -> string, oids2: nat -> string)
    ensures var s1 := Sync(store, Fetched(cp), Fetched(pp), now, oids1, oids2).store;
      forall p :: p in pp.GetOr([]) ==> p.id in Ids(s1.products)
  {
    var s1 := Sync(store, Fetched(cp), Fetched(pp), now, oids1, oids2).store;
    var cleaned := Survivors(store.products);
    var newPs := NewProducts(cleaned, pp.GetOr([]));
    var docs := ProductDocs(newPs, oids2, now);
    SyncInsertsOnlyNew(store, cp, pp, now, oids1, oids2);
    forall p | p in pp.GetOr([])
      ensures p.id in Ids(s1.products)
    {
      if p.id !in Ids(cleaned) {
        assert p in newPs;
        var k :| 0 <= k < |newPs| && newPs[k] == p;
        assert docs[k].id == p.id;
        InsertedIdStored(cleaned, docs, k);
      } else {
        KeptIdStored(cleaned, Survivors(docs), p.id);
      }
    }
  }

  /** The id of any inserted document is among the ids after the insert. */
  lemma InsertedIdStored(kept: seq<Doc>, docs: seq<Doc>, k: nat)
    requires k < |docs|
    ensures docs[k].id in Ids(kept + Survivors(docs))
  {
    var all := kept + Survivors(docs);
    SurvivorIsNewest(docs, k);
    var x :| x in Survivors(docs) && x.id == docs[k].id && true;
    assert x in all;
    var m :| 0 <= m < |all| && all[m] == x;
    assert Ids(all)[m] == x.id;
  }

  /** An id already stored is still stored after an insert. */
  lemma KeptIdStored(kept: seq<Doc>, added: seq<Doc>, id: string)
    requires id in Ids(kept)
    ensures id in Ids(kept + added)
  {
    var m :| 0 <= m < |kept| && Ids(kept)[m] == id;
    assert (kept + added)[m] == kept[m];
    assert Ids(kept + added)[m] == id;
  }

  /** After a successful sync every remote collection id is stored. */
  lemma SyncStoresEveryCollection(store: Store, cp: Option<seq<RemoteCollection>>, pp: Option<seq<RemoteProduct>>,
                                  now: int, oids1: nat -> string, oids2: nat -> string)
    ensures var s1 := Sync(store, Fetched(cp), Fetched(pp), now, oids1, oids2).store;
      forall c :: c in cp.GetOr([]) ==> HasCollectionId(s1.collections, c.id)
  {
    var newCs := NewCollections(store.collections, cp.GetOr([]));
    var cdocs := CollectionDocs(newCs, oids1, now);
    SyncCollections(store, cp, Fetched(pp), now, oids1, oids2);
    StoredAfterInsert(store.collections, cp.GetOr([]), cdocs, oids1, now);
  }

  /** Appending the documents of the missing remote collections stores every remote collection id. */
  lemma StoredAfterInsert(stored: seq<CollectionDoc>, remote: seq<RemoteCollection>, cdocs: seq<CollectionDoc>,
                          oids: nat -> string, now: int)
    requires cdocs == CollectionDocs(NewCollections(stored, remote), oids, now)
    ensures forall c :: c in remote ==> HasCollectionId(stored + cdocs, c.id)
  {
    var newCs := NewCollections(stored, remote);
    var all := stored + cdocs;
    forall c | c in remote
      ensures HasCollectionId(all, c.id)
    {
      if !HasCollectionId(stored, c.id) {
        assert c in newCs;
        var k :| 0 <= k < |newCs| && newCs[k] == c;
        assert all[|stored| + k] == cdocs[k];
        assert all[|stored| + k].id == Some(c.id);
      } else {
        var m :| 0 <= m < |stored| && stored[m].id == Some(c.id);
        assert all[m] == stored[m];
      }
    }
  }

  /**
   * Syncing again with the same remote pages inserts nothing and changes
   * nothing: every remote id is stored after the first run.
   */
  lemma SyncTwiceInsertsNothing(store: Store, cp: Option<seq<RemoteCollection>>, pp: Option<seq<RemoteProduct>>,
                                now: int, now': int, oids1: nat -> string, oids2: nat -> string,
                                oids3: nat -> string, oids4: nat -> string)
    ensures var r1 := Sync(store, Fetched(cp), Fetched(pp), now, oids1, oids2);
      var r2 := Sync(r1.store, Fetched(cp), Fetched(pp), now', oids3, oids4);
      && r2.status == Ok
      && r2.collectionsProcessed == 0
      && r2.productsProcessed == 0
      && r2.store == r1.store
  {
    var s1 := Sync(store, Fetched(cp), Fetched(pp), now, oids1, oids2).store;
    SyncInsertsOnlyNew(store, cp, pp, now, oids1, oids2);
    UniqueIdsUntouched(s1.products);
    SyncStoresEveryProduct(store, cp, pp, now, oids1, oids2);
    SyncStoresEveryCollection(store, cp, pp, now, oids1, oids2);
    FilterNone(pp.GetOr([]), (q: RemoteProduct) => q.id !in Ids(s1.products));
    FilterNone(cp.GetOr([]), (c: RemoteCollection) => !HasCollectionId(s1.collections, c.id));
    assert s1.collections + [] == s1.collections;
    assert s1.products + [] == s1.products;
  }
}
