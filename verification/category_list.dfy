/**
 * The category bar: the collections fetched from the collections endpoint,
 * shown Shopify collections first, and the buttons that choose the category
 * the home page filters by.
 */
module CategoryList {
  import opened Wrappers
  import opened Text
  import opened Seqs
  import Catalog
  import CollectionsApi
  import SyncApi
  import HomePage

  /** A collection as the bar holds it. */
  datatype Node = Node(id: string, title: string, description: string, source: string)

  /** One listed collection in bar form: description defaults to `""`, source to `mongodb`. */
  function Format(c: CollectionsApi.ListedCollection): (r: Node)
    ensures r.id == c.id && r.title == c.title
    ensures r.description == c.description
    ensures r.source == (if c.source == "" then "mongodb" else c.source)
  {
    Node(c.id, c.title, OrElse(Some(c.description), ""), OrElse(Some(c.source), "mongodb"))
  }

  function FormatAll(cs: seq<CollectionsApi.ListedCollection>): (r: seq<Node>)
    ensures |r| == |cs|
    ensures forall i :: 0 <= i < |cs| ==> r[i] == Format(cs[i])
  {
    seq(|cs|, i requires 0 <= i < |cs| => Format(cs[i]))
  }

  predicate FromShopify(n: Node) {
    n.source == "shopify"
  }

  /** The Shopify collections, in fetched order. */
  function ShopifyGroup(nodes: seq<Node>): seq<Node> {
    Filter(nodes, (n: Node) => FromShopify(n))
  }

  /** The other collections, in fetched order. */
  function OtherGroup(nodes: seq<Node>): seq<Node> {
    Filter(nodes, (n: Node) => !FromShopify(n))
  }

  /**
   * The collections in the order the bar shows them: every fetched collection,
   * as many as were fetched, with no Shopify collection after another one.
   */
  function Arranged(nodes: seq<Node>): (r: seq<Node>)
    ensures |r| == |nodes|
    ensures forall n :: n in r <==> n in nodes
    ensures forall i, j :: 0 <= i < j < |r| && FromShopify(r[j]) ==> FromShopify(r[i])
  {
    var shop, other := ShopifyGroup(nodes), OtherGroup(nodes);
    FilterPartition(nodes, (n: Node) => FromShopify(n), (n: Node) => !FromShopify(n));
    assert |multiset(shop + other)| == |shop + other|;
    assert forall i :: 0 <= i < |shop| ==> shop[i] in shop;
    assert forall i :: 0 <= i < |other| ==> other[i] in other;
    shop + other
  }

  /** The arrangement shows every collection exactly as often as it was fetched. */
  lemma {:induction false} ArrangedIsPermutation(nodes: seq<Node>)
    ensures multiset(Arranged(nodes)) == multiset(nodes)
    ensures |Arranged(nodes)| == |nodes|
  {
    FilterPartition(nodes, (n: Node) => FromShopify(n), (n: Node) => !FromShopify(n));
    assert |multiset(Arranged(nodes))| == |multiset(nodes)|;
  }

  /** Shopify collections come first and the others after, each group in fetched order. */
  lemma {:induction false} ArrangedGroups(nodes: seq<Node>)
    ensures var k := |ShopifyGroup(nodes)|;
      && Arranged(nodes)[..k] == ShopifyGroup(nodes)
      && Arranged(nodes)[k..] == OtherGroup(nodes)
      && (forall i :: 0 <= i < k ==> FromShopify(Arranged(nodes)[i]))
      && (forall i :: k <= i < |Arranged(nodes)| ==> !FromShopify(Arranged(nodes)[i]))
      && IsSubseq(ShopifyGroup(nodes), nodes)
      && IsSubseq(OtherGroup(nodes), nodes)
  {
    var shop, user := ShopifyGroup(nodes), OtherGroup(nodes);
    FilterIsSubseq(nodes, (n: Node) => FromShopify(n));
    FilterIsSubseq(nodes, (n: Node) => !FromShopify(n));
    var a := Arranged(nodes);
    assert a[..|shop|] == shop;
    assert a[|shop|..] == user;
    forall i | 0 <= i < |shop|
      ensures FromShopify(a[i])
    {
      assert a[i] == shop[i] && shop[i] in shop;
    }
    forall i | |shop| <= i < |a|
      ensures !FromShopify(a[i])
    {
      assert a[i] == user[i - |shop|] && user[i - |shop|] in user;
    }
  }

  /**
   * A collection the sync stored reaches the bar under its Shopify id and is
   * shown in the Shopify group.
   */
  lemma SyncedCollectionFirst(c: Catalog.RemoteCollection, oid: string, now: int)
    requires c.id != "" && c.handle != ""
    ensures var n := Format(CollectionsApi.Format(SyncApi.CollectionDocOf(c, oid, now)));
      FromShopify(n) && n.id == c.id && n.title == c.title
  {
    CollectionsApi.SyncedListed(c, oid, now);
  }

  /** A button of the bar. */
  datatype Button = AllProducts | Unassigned | CollectionButton(id: string)

  /** The category a button stands for; "All Products" stands for none. */
  function Value(b: Button): Option<string> {
    match b
    case AllProducts => None
    case Unassigned => Some("unassigned")
    case CollectionButton(id) => Some(id)
  }

  /** The buttons shown: none without collections, else the two fixed ones and the arranged collections. */
  function Buttons(nodes: seq<Node>): (r: seq<Button>)
    ensures nodes == [] ==> r == []
    ensures nodes != [] ==> |r| == |nodes| + 2 && r[0] == AllProducts && r[1] == Unassigned
    ensures nodes != [] ==>
      && |Arranged(nodes)| == |nodes|
      && forall i :: 0 <= i < |nodes| ==> r[i + 2] == CollectionButton(Arranged(nodes)[i].id)
  {
    if nodes == [] then []
    else
      var a := Arranged(nodes);
      ArrangedIsPermutation(nodes);
      [AllProducts, Unassigned] + seq(|a|, i requires 0 <= i < |a| => CollectionButton(a[i].id))
  }

  /**
   * The category a click chooses: "All Products" none, "Unassigned" the id
   * `unassigned`, a collection its id unless it is the chosen one already,
   * in which case none.
   */
  function Click(b: Button, selected: Option<string>): (r: Option<string>)
    ensures b.AllProducts? ==> r.None?
    ensures b.Unassigned? ==> r == Some("unassigned")
    ensures b.CollectionButton? ==> (r == Some(b.id) <==> selected != Some(b.id))
    ensures b.CollectionButton? ==> (r.None? <==> selected == Some(b.id))
  {
    match b
    case AllProducts => None
    case Unassigned => Some("unassigned")
    case CollectionButton(id) => if selected == Some(id) then None else Some(id)
  }

  /** A button is drawn highlighted exactly when it stands for the chosen category. */
  predicate Highlighted(b: Button, selected: Option<string>) {
    Value(b) == selected
  }

  /** A collection click flips its own highlight. */
  lemma {:induction false} ClickToggles(id: string, selected: Option<string>)
    ensures Highlighted(CollectionButton(id), Click(CollectionButton(id), selected))
      <==> !Highlighted(CollectionButton(id), selected)
  {
  }

  /** Two clicks on the same collection restore the choice when it was that collection or none. */
  lemma ClickTwice(id: string, selected: Option<string>)
    requires selected.None? || selected == Some(id)
    ensures Click(CollectionButton(id), Click(CollectionButton(id), selected)) == selected
  {
  }

  /** The other buttons always end up highlighted after a click. */
  lemma FixedButtonsHighlightAfterClick(selected: Option<string>)
    ensures Highlighted(AllProducts, Click(AllProducts, selected))
    ensures Highlighted(Unassigned, Click(Unassigned, selected))
  {
  }

  /** Buttons standing for different categories are never highlighted together. */
  lemma AtMostOneHighlighted(b1: Button, b2: Button, selected: Option<string>)
    requires Value(b1) != Value(b2)
    ensures !(Highlighted(b1, selected) && Highlighted(b2, selected))
  {
  }

  /** Clicking the highlighted collection again brings the home page back to every product. */
  lemma {:induction false} ClickHighlightedShowsAll(h: HomePage.Home, id: string)
    requires Highlighted(CollectionButton(id), h.selected)
    ensures HomePage.SelectCategory(h, Click(CollectionButton(id), h.selected)).filtered == h.all
  {
  }
}
