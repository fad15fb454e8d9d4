# Catalog core of the Shopify storefront app, in Dafny

This project models the catalog logic of a Next.js storefront-and-admin app
that keeps its own product and collection records in MongoDB next to a
Shopify shop, and proves properties of that model with Dafny 4.11.

What is modelled:

- **Product endpoint** (`products_api.dfy`):
  - choosing the lookup filter from an id;
  - create (with its validation and defaults) and add-variant;
  - product and variant delete;
  - the full update (PUT);
  - the read side: collection references repaired through a collections map, default variants, and the de-duplicated tag and vendor lists.
- **Sync** (`sync_api.dfy`):
  - the duplicate cleanup, as a declarative survivor set and as the loop the route runs, proved equal;
  - the insert-only merge of remote collections and products;
  - the counts it reports.
- **Collections endpoint** (`collections_api.dfy`):
  - listing with field defaults;
  - create with title validation, trimming and handle derivation.
- **Home page** (`home_page.dfy`): the merged catalog, category selection, filter results and fixed-size pagination.
- **Attribute filter** (`product_filter.dfy`): the option lists and the predicate every shown product passes.
- **Create-product form** (`create_product_modal.dfy`): tag and vendor choices, tag add and toggle, and creating a collection on the fly.
- **Edit-product form** (`edit_product_modal.dfy`): the derived initial state, tag add and remove, and the update payload it sends.
- **Category bar** (`category_list.dfy`): formatting, the Shopify-first arrangement and the click and highlight rule.
- **Product card** (`product_card.dfy`): tag truncation, price and stock labels, and the link.

Shared pieces:

- `catalog.dfy` holds the record shapes. Stored documents use `Catalog.Doc`, with optional fields and sum types for the loose shapes the database accepts. The client works with `Catalog.Product`.
- `text.dfy` models the JavaScript string and number operations the code relies on: truthiness and `||`, ASCII `toLowerCase`, the `/[^a-z0-9]+/g` handle rewrite, `trim`, `includes`, `split('/').pop()` and `parseInt`.
- `seqs.dfy` models `filter`, `[...new Set(xs)]`, `flatMap` and `slice`, with the order facts the rest of the model needs.

The store is a value: `Store(products, collections)`, two sequences in natural (insertion) order. `findOne`/`updateOne` pick the first match, and inserts append. Handlers are pure functions returning a status and the new store.

Several inputs become parameters:

- the clock (`now`);
- the storage ids the database assigns (`oid`, or `nat -> string` for batches);
- the driver's ObjectId parse (`parseObjectId`): the storage id `new ObjectId(text)` denotes, in the form stored documents carry it, or none when the constructor throws;
- the URLs of uploaded images.

The remote Shopify pages are plain input sequences.

Generated handles keep a trailing hyphen: `title.toLowerCase().replace(/[^a-z0-9]+/g, '-')` turns `"Hat "` into `"hat-"` (`CollectionsApi.HandleKeepsOuterSpaces`, `Text.ReplaceRunsLastChar`).

## Model

| member | source | states |
|---|---|---|
| Text.OrElse | shopify-app/src/app/api/products/route.ts:176-183 | `a \|\| b` on an optional string: the value when present and non-empty, otherwise the fallback |
| Text.Present | shopify-app/src/app/api/products/route.ts:154 | `filter(Boolean)` keeps exactly the present, non-empty values and never adds any |
| Text.ToLower | shopify-app/src/app/api/products/route.ts:223 | lower-casing keeps the length and maps each character by ASCII lower-casing; nothing upper-case remains |
| Text.ReplaceRuns | shopify-app/src/app/api/products/route.ts:223 | the run rewrite never lengthens the text, and the first character is kept when it is in `[a-z0-9]` and becomes `-` otherwise |
| Text.ReplaceRunsIsSlug | shopify-app/src/app/api/products/route.ts:223 | a derived handle uses only `[a-z0-9-]` and never has two hyphens in a row |
| Text.ReplaceRunsKeepsHandleChars | shopify-app/src/app/api/products/route.ts:223 | every `[a-z0-9]` character of the lower-cased title survives into the handle, in order |
| Text.ReplaceRunsLastChar | shopify-app/src/app/api/products/route.ts:223 | a title ending outside `[a-z0-9]` gives a handle ending in `-` (no trailing hyphen is stripped) |
| Text.ReplaceRunsFixesSlugs | shopify-app/src/app/api/products/route.ts:223 | text already in handle form is left unchanged by the rewrite |
| Text.HandleIdempotent | shopify-app/src/app/api/products/route.ts:223 | deriving a handle from a handle gives the same handle |
| Text.Handle | shopify-app/src/app/api/products/route.ts:223 | a title's handle is a slug (only `[a-z0-9-]`, no double hyphen), no longer than the title, and empty only for an empty title |
| Text.Trim | shopify-app/src/app/api/collections/route.ts:44 | the trimmed title is the title with a whitespace-only prefix and suffix cut away; it neither starts nor ends with whitespace, and is empty exactly when the title is all whitespace |
| Text.TrimIdempotent | shopify-app/src/app/api/collections/route.ts:44 | trimming a trimmed title changes nothing |
| Text.IncludesIffOccurs | shopify-app/src/app/components/ProductFilter.tsx:63 | `includes` holds exactly when the needle occurs at some position of the text |
| Text.LastSegment | shopify-app/src/app/components/EditProductModal.tsx:50 | `split('/').pop()` is the suffix after the last slash: it contains no slash, and a slash precedes it when it is not the whole text |
| Text.IntToString | shopify-app/src/app/components/EditProductModal.tsx:56 | `toString()` of an integer is a sign for negatives followed by decimal digits with no leading zero |
| Text.ParseIntOfIntToString | shopify-app/src/app/components/EditProductModal.tsx:56 | `parseInt` reads back the decimal text of any integer as that integer |
| Text.ParseInt | shopify-app/src/app/api/products/route.ts:404 | `parseInt` of blank text is NaN; text starting with a decimal digit (not a `0x` prefix) always gives a number; a negative result needs a leading `-` after the whitespace |
| Text.ParseIntNoDigits | shopify-app/src/app/api/products/route.ts:404 | `parseInt` of text starting with no digit, sign or whitespace (such as `"NaN"`) is NaN |
| Seqs.Filter | shopify-app/src/app/components/ProductFilter.tsx:61 | `filter` keeps exactly the elements that pass and never lengthens the list |
| Seqs.FilterIsSubseq | shopify-app/src/app/components/ProductFilter.tsx:61 | what `filter` keeps stays in its original relative order |
| Seqs.FilterPartition | shopify-app/src/app/components/CategoryList.tsx:96-97 | filtering by a predicate and by its negation splits a list into two parts that together are a permutation of it |
| Seqs.Dedup | shopify-app/src/app/api/products/route.ts:86 | `[...new Set(xs)]` has no repeats and the same members as `xs` |
| Seqs.DedupAppend | shopify-app/src/app/components/CreateProductModal.tsx:95 | de-duplicating `a ++ b` gives `a` de-duplicated, then the de-duplicated new members of `b` |
| Seqs.Flatten | shopify-app/src/app/api/products/route.ts:86 | `flatMap` contains exactly the members of the inner lists |
| Seqs.Slice | shopify-app/src/app/page.tsx:98 | `slice(start, end)` is the run between the two positions after JavaScript clipping, empty when they cross |
| Seqs.RemoveAt | shopify-app/src/app/components/EditProductModal.tsx:448 | dropping index `i` shifts the later elements down by one; together with the dropped one they are the original multiset |
| Catalog.CollectionIds | shopify-app/src/app/page.tsx:59-62 | a product's collection ids are its collection edges' ids, in order, and none when it has no collections |
| ProductsApi.ChooseQuery | shopify-app/src/app/api/products/route.ts:35-43 | an id is looked up by `_id` exactly when it does not start with `gid://` and the driver parses it as a storage id, and then by the parsed id rather than the raw text; otherwise by logical `id` |
| ProductsApi.Find | shopify-app/src/app/api/products/route.ts:45 | `findOne` gives the first document matching the filter, and none exactly when nothing matches |
| ProductsApi.FindById | shopify-app/src/app/api/products/route.ts:345 | `findOne({id})` gives the first document with that logical id, and none exactly when no document has it |
| ProductsApi.ObjectIdLooksUpParsedId | shopify-app/src/app/api/products/route.ts:38-45 | a non-gid id the driver parses finds the first document whose storage id is the parsed one, and 404s exactly when no document carries it |
| ProductsApi.GidLooksUpLogicalId | shopify-app/src/app/api/products/route.ts:442-451 | a `gid://` id is looked up by logical id whatever the storage-id check says |
| ProductsApi.NewVariant | shopify-app/src/app/api/products/route.ts:172-186 | the pushed variant's stock is `parseInt(stock \|\| '0')`, it is for sale exactly when that stock is positive, and it has CZK prices with `'0'`/`''` defaults |
| ProductsApi.AddVariant | shopify-app/src/app/api/products/route.ts:171-213 | add-variant answers 404 exactly when no product has the parent id and otherwise appends one variant to the first such product, leaving its other variants and every other product unchanged |
| ProductsApi.IdEdges | shopify-app/src/app/api/products/route.ts:266-272 | the created collection edges are the given ids, in order, each with title `''` |
| ProductsApi.CreatedDoc | shopify-app/src/app/api/products/route.ts:274-305 | the created document has the title and its derived handle, `''` defaults for description, type and vendor, the sent tags, one image per stored upload with the title as alt text, both timestamps at creation time, and is custom, not a Shopify product |
| ProductsApi.CreateProduct | shopify-app/src/app/api/products/route.ts:215-307 | create answers 400 exactly for a falsy title and 500 exactly for unparseable JSON fields; on success it appends exactly one document and leaves the store unchanged otherwise |
| ProductsApi.CreatedProductShape | shopify-app/src/app/api/products/route.ts:274-305 | the created product has a `custom-` id, the custom flag, a slug handle, and one default variant for sale whatever the stock; its collection edges are the given ids with empty titles |
| ProductsApi.Post | shopify-app/src/app/api/products/route.ts:168-171 | POST takes the variant branch exactly when `isVariant` is `'true'` and a parent id is given |
| ProductsApi.DeleteVariant | shopify-app/src/app/api/products/route.ts:344-366 | variant delete answers 404 exactly when no product has the id, and 500 exactly when that product's variants have no edge list; otherwise only that product's variant list changes |
| ProductsApi.DeleteVariantKeepsOthers | shopify-app/src/app/api/products/route.ts:351-355 | variant delete keeps exactly the variants with a different id, in order; the kept and removed ones together are the original variants |
| ProductsApi.DeleteSoleVariant | shopify-app/src/app/api/products/route.ts:351-366 | deleting a product's only variant succeeds and leaves an empty edge list (there is no guard) |
| ProductsApi.DeleteProduct | shopify-app/src/app/api/products/route.ts:369-375 | product delete answers 404 exactly when no product has the id, and otherwise removes exactly the first one |
| ProductsApi.DeleteProductKeepsOrder | shopify-app/src/app/api/products/route.ts:369 | after product delete the remaining products keep their relative order, and those before the deleted one keep their positions |
| ProductsApi.Delete | shopify-app/src/app/api/products/route.ts:337-369 | DELETE answers 400 without an id; with a variant id it is a variant delete, otherwise a product delete |
| ProductsApi.StampFirstVariant | shopify-app/src/app/api/products/route.ts:401-407 | only the first sent variant is changed: it gets the stock, and it is for sale exactly when the stock is positive; the others are kept as sent |
| ProductsApi.UpdatedVariants | shopify-app/src/app/api/products/route.ts:398-407 | the stored variants have as many edges as were sent, and none when the field is absent |
| ProductsApi.PutCollection | shopify-app/src/app/api/products/route.ts:411-428 | a PUT collection entry becomes `{id, title}`: a bare id gets title `''`, and an object's missing id and title become `''` |
| ProductsApi.PutCollections | shopify-app/src/app/api/products/route.ts:410-429 | the PUT collection edges match the sent entries one for one, in order |
| ProductsApi.Applied | shopify-app/src/app/api/products/route.ts:431-440 | the `$set` writes the form's text fields as sent, the sent tags (`[]` when absent), the sent collections normalised one for one in order, the sent variants with only the first stamped, and the time; no other field changes |
| ProductsApi.Update | shopify-app/src/app/api/products/route.ts:385-462 | PUT answers 400 without an id, 500 for unparseable JSON and 404 when the filter matches nothing; otherwise only the matched document changes, and it becomes exactly the `$set` applied to it |
| ProductsApi.UpdateTouchesOnlyFirstVariant | shopify-app/src/app/api/products/route.ts:401-429 | after a successful PUT the first variant carries the stock and the derived availability while the others are as sent, and the stored collection edges are the sent entries normalised to `{id, title}`, in order |
| ProductsApi.UpdateStoresCollections | shopify-app/src/app/api/products/route.ts:410-429 | a successful PUT stores the sent collection entries normalised to `{id, title}`, one for one, in order |
| ProductsApi.CollectionsMap | shopify-app/src/app/api/products/route.ts:74-83 | the collections map has exactly the keys: logical id, or storage id when that is falsy |
| ProductsApi.CollectionsMapLastWins | shopify-app/src/app/api/products/route.ts:77-83 | when collections share a key, `Map.set` leaves the last one's title and handle |
| ProductsApi.Pick | shopify-app/src/app/api/products/route.ts:105-106 | title and handle come from the map first, then the embedded value, then `''` |
| ProductsApi.ReadEdge | shopify-app/src/app/api/products/route.ts:94-108 | a stored edge keeps its id (an edge without a node is repaired to id `''`) and always gets a title and a handle |
| ProductsApi.ReadItem | shopify-app/src/app/api/products/route.ts:113-125 | an array entry's id is the string itself or the object's id, `''` if missing; it always gets a title and a handle |
| ProductsApi.ReadCollections | shopify-app/src/app/api/products/route.ts:89-129 | edges and arrays become edges of the same length; any other shape becomes no edges |
| ProductsApi.ReadEdgeFallbacks | shopify-app/src/app/api/products/route.ts:99-106 | for an edge, the map's title wins when truthy, then a truthy embedded title, then `''`; the handle takes the same three steps |
| ProductsApi.WithDefaults | shopify-app/src/app/api/products/route.ts:131-148 | a served product has the stored images and tags or `[]`, the stored variants or exactly the one default variant, and every other field unchanged |
| ProductsApi.DefaultVariantServed | shopify-app/src/app/api/products/route.ts:56-66 | a document without variants is served with exactly one: priced `'0'` CZK, for sale, id `variant-<_id>`; otherwise the stored variants are served unchanged |
| ProductsApi.ListProducts | shopify-app/src/app/api/products/route.ts:85-155 | the listing keeps the products' number and order; the tags are every stored tag, once each, and the vendors every non-empty stored vendor, once each |
| ProductsApi.ListedCollections | shopify-app/src/app/api/products/route.ts:89-129 | each listed product's collection edges have the stored ids in stored order, each with a title and a handle |
| ProductsApi.CreatedThenListed | shopify-app/src/app/api/products/route.ts:266-307 | a created product is listed last, with collection edges carrying the ids it was created with, in order |
| ProductsApi.Get | shopify-app/src/app/api/products/route.ts:24-71 | GET with an id answers the first document the chosen filter finds (404 when none); without one it answers the listing |
| SyncApi.CleanupDuplicates | shopify-app/src/app/api/sync/route.ts:66-92 | the group, sort and delete loop leaves exactly the declarative survivors: per logical id, the newest record, the earliest of equally new ones |
| SyncApi.Survivors | shopify-app/src/app/api/sync/route.ts:66-92 | what cleanup leaves is drawn from the stored records, with no logical id twice |
| SyncApi.ChosenIffKept | shopify-app/src/app/api/sync/route.ts:80-84 | the record the loop picks for an id is exactly the one the survivor rule keeps |
| SyncApi.SurvivorsUniqueIds | shopify-app/src/app/api/sync/route.ts:66-92 | after cleanup every logical id occurs at most once |
| SyncApi.UniqueIdsUntouched | shopify-app/src/app/api/sync/route.ts:76 | a store with unique logical ids loses nothing to cleanup |
| SyncApi.CleanupIdempotent | shopify-app/src/app/api/sync/route.ts:66-92 | running cleanup a second time deletes nothing |
| SyncApi.LoneRecordSurvives | shopify-app/src/app/api/sync/route.ts:76 | a record whose id no other record shares survives cleanup |
| SyncApi.SurvivorsInOrder | shopify-app/src/app/api/sync/route.ts:87-89 | cleanup only deletes: the survivors keep their relative order |
| SyncApi.SurvivorIsNewest | shopify-app/src/app/api/sync/route.ts:81-84 | every logical id survives cleanup, carried by a record at least as new as any record of that id |
| SyncApi.SurvivorsAppendFresh | shopify-app/src/app/api/sync/route.ts:191-196 | appending records with new ids to a clean store and cleaning up again leaves the old records untouched, in front |
| SyncApi.CollectionDocOf | shopify-app/src/app/api/sync/route.ts:115-123 | an inserted collection keeps id, title and handle, is marked as a Shopify collection with source `shopify`, and its description defaults to `''` |
| SyncApi.VariantOf | shopify-app/src/app/api/sync/route.ts:175-184 | a synced variant defaults price `{'0','CZK'}`, compare-at `{'','CZK'}`, sku `''` and availability false; its stock is 1 when available and 0 otherwise |
| SyncApi.VariantsOf | shopify-app/src/app/api/sync/route.ts:173-186 | variant mapping keeps the count and order |
| SyncApi.RefsOf | shopify-app/src/app/api/sync/route.ts:150-158 | collection references map one for one, keeping id, title and handle |
| SyncApi.Sync | shopify-app/src/app/api/sync/route.ts:94-208 | sync answers 200 exactly when both fetches succeed; a failure answers 500 and keeps the cleaned products and the collections inserted before it; stored collections are never changed |
| SyncApi.SyncInsertsOnlyNew | shopify-app/src/app/api/sync/route.ts:140-201 | after a sync the surviving stored products are unchanged and in front; exactly the remote products with new ids are inserted, and the count says how many |
| SyncApi.SyncCollections | shopify-app/src/app/api/sync/route.ts:106-131 | a sync appends one collection per remote collection with a new id, in remote order, and the count says how many |
| SyncApi.NewCollectionsAreMissing | shopify-app/src/app/api/sync/route.ts:113-114 | the inserted collections are exactly the remote ones whose id is not stored, in remote order |
| SyncApi.ProductDocShape | shopify-app/src/app/api/sync/route.ts:150-188 | an inserted product keeps its id, is marked as a Shopify product, has one variant per remote variant and one collection edge per remote collection, and defaults missing collections and images to empty |
| SyncApi.ProductDocOf | shopify-app/src/app/api/sync/route.ts:160-188 | an inserted product keeps the remote title and handle, defaults description, type and vendor to `''` and tags to none, is stamped with the sync time, and is a Shopify product, not a custom one |
| SyncApi.SyncStoresEveryProduct | shopify-app/src/app/api/sync/route.ts:141-196 | after a successful sync every remote product id is stored |
| SyncApi.SyncStoresEveryCollection | shopify-app/src/app/api/sync/route.ts:113-131 | after a successful sync every remote collection id is stored |
| SyncApi.StoredAfterInsert | shopify-app/src/app/api/sync/route.ts:112-131 | after the missing remote collections are appended, every remote collection id is stored |
| SyncApi.SyncTwiceInsertsNothing | shopify-app/src/app/api/sync/route.ts:106-202 | syncing again with the same remote pages inserts nothing, reports zero counts and leaves the store as it was |
| CollectionsApi.Format | shopify-app/src/app/api/collections/route.ts:13-20 | a listed collection's id is the logical id, or the storage id when that is falsy; description, handle and source default to `''`, `''` and `mongodb`, and the Shopify flag defaults to false |
| CollectionsApi.ListCollections | shopify-app/src/app/api/collections/route.ts:10-22 | the listing has one formatted entry per stored collection |
| CollectionsApi.NewCollection | shopify-app/src/app/api/collections/route.ts:43-50 | a new collection has the trimmed title, a handle from the untrimmed title, an empty description and an empty product list |
| CollectionsApi.Create | shopify-app/src/app/api/collections/route.ts:29-65 | create answers 500 exactly for an unreadable body and 400 exactly for a missing, empty or non-string title, with the store untouched; otherwise it appends one collection and echoes its id and trimmed title |
| CollectionsApi.CreatedThenListed | shopify-app/src/app/api/collections/route.ts:13-57 | a created collection is listed last, under its storage id, with the local defaults and the title the response reported |
| CollectionsApi.BlankTitleStoredEmpty | shopify-app/src/app/api/collections/route.ts:33-44 | a whitespace-only title passes validation and is stored as `''` |
| CollectionsApi.HandleKeepsOuterSpaces | shopify-app/src/app/api/collections/route.ts:46 | a title starting or ending with a space gets a handle starting or ending with `-` |
| CollectionsApi.RecreateKeepsTitle | shopify-app/src/app/api/collections/route.ts:44-57 | creating again with the reported title stores the same title |
| CollectionsApi.SyncedListed | shopify-app/src/app/api/collections/route.ts:14-19 | a synced collection is listed under its Shopify id, as a Shopify collection, with its Shopify handle |
| HomePage.Load | shopify-app/src/app/page.tsx:24-35 | the catalog is the remote products followed by the local ones, shown unfiltered; a failed load changes nothing |
| HomePage.InCategoryOf | shopify-app/src/app/page.tsx:57-64 | the products shown for a category are exactly those listing its id among their collection edges |
| HomePage.SelectCategory | shopify-app/src/app/page.tsx:48-71 | choosing a category resets the page to 1; with no category every product is shown, otherwise exactly those in it |
| HomePage.FilterChange | shopify-app/src/app/page.tsx:73-86 | a filter result resets the page to 1; while a category is selected only the results in it are kept |
| HomePage.PageChange | shopify-app/src/app/page.tsx:88-94 | changing page changes nothing but the page number |
| HomePage.SelectCategoryKeepsOrder | shopify-app/src/app/page.tsx:57 | the category view keeps the catalog order |
| HomePage.FilterChangeKeepsOrder | shopify-app/src/app/page.tsx:78 | the category-narrowed filter result keeps its order |
| HomePage.UnknownCategoryShowsNothing | shopify-app/src/app/page.tsx:57-64 | a category no product lists (such as `unassigned`) shows nothing |
| HomePage.BackToAll | shopify-app/src/app/page.tsx:54-55 | going back to no category shows the whole catalog again |
| HomePage.TotalPages | shopify-app/src/app/page.tsx:96 | the page count is the ceiling of `n / 9`: the pages hold all items, the last page is not empty, and there are none for an empty list |
| HomePage.PageOf | shopify-app/src/app/page.tsx:97-98 | page `p` holds the items from position `(p-1)*9` on, at most 9 of them, and none once that position is past the end |
| HomePage.PageBounds | shopify-app/src/app/page.tsx:97-98 | every page from 1 to the last starts at `(p-1)*9`, is non-empty and has at most 9 items |
| HomePage.PagePastEndEmpty | shopify-app/src/app/page.tsx:97-98 | a page past the last shows nothing |
| HomePage.PagesCoverList | shopify-app/src/app/page.tsx:96-98 | the pages in order concatenate to exactly the list |
| HomePage.ButtonsWhenMoreThanOnePage | shopify-app/src/app/page.tsx:136-138 | the page buttons appear exactly when the list has more than 9 items |
| HomePage.SelectShowsFirstPage | shopify-app/src/app/page.tsx:96-98 | after choosing a category the first up to 9 products are shown |
| ProductFilter.ApplyFilters | shopify-app/src/app/components/ProductFilter.tsx:61-100 | the result holds exactly the products passing every criterion |
| ProductFilter.ApplyFiltersKeepsOrder | shopify-app/src/app/components/ProductFilter.tsx:61-100 | with no sort key the result keeps the input order |
| ProductFilter.TitleMatchesIffOccurs | shopify-app/src/app/components/ProductFilter.tsx:63-65 | a set title query passes a product exactly when the lower-cased query occurs in its lower-cased title |
| ProductFilter.TitleMatchIgnoresCase | shopify-app/src/app/components/ProductFilter.tsx:63-65 | two queries, or two titles, that agree once lower-cased give the same verdict |
| ProductFilter.OwnTitleMatches | shopify-app/src/app/components/ProductFilter.tsx:63-65 | a product always passes a query equal to its own title |
| ProductFilter.ClearedShowsAll | shopify-app/src/app/components/ProductFilter.tsx:148-152 | after Clear Filters every product is shown, in order |
| ProductFilter.StockSplit | shopify-app/src/app/components/ProductFilter.tsx:87-91 | the in-stock and out-of-stock results together are a permutation of the catalog |
| ProductFilter.VendorOptions | shopify-app/src/app/components/ProductFilter.tsx:34 | the vendor choices are every non-empty vendor, once each |
| ProductFilter.TypeOptions | shopify-app/src/app/components/ProductFilter.tsx:35 | the product-type choices are every non-empty type, once each |
| ProductFilter.TagOptions | shopify-app/src/app/components/ProductFilter.tsx:36 | the tag choices are every tag of every product, once each |
| ProductFilter.OfferedTagMatchesSome | shopify-app/src/app/components/ProductFilter.tsx:82-84 | choosing any offered tag leaves at least one product |
| ProductFilter.OfferedVendorMatchesSome | shopify-app/src/app/components/ProductFilter.tsx:76 | choosing any offered vendor leaves at least one product |
| ProductFilter.FilteredCategoryView | shopify-app/src/app/components/ProductFilter.tsx:61-100 | with a category selected, the home page shows exactly the catalog products that pass the filter and are in the category, in catalog order |
| CreateProductModal.RemoteTags | shopify-app/src/app/components/CreateProductModal.tsx:89-93 | the remote tags are exactly the non-empty tags of the remote products |
| CreateProductModal.RemoteVendors | shopify-app/src/app/components/CreateProductModal.tsx:112-116 | the remote vendors are exactly the non-empty vendors of the remote products |
| CreateProductModal.Union | shopify-app/src/app/components/CreateProductModal.tsx:95 | the union has no repeats and holds exactly the store's and the remote values |
| CreateProductModal.AvailableTags | shopify-app/src/app/components/CreateProductModal.tsx:80-101 | the tag choices are the store's tags and the non-empty remote tags, once each; a failed fetch offers none |
| CreateProductModal.AvailableVendors | shopify-app/src/app/components/CreateProductModal.tsx:103-126 | the vendor choices are the store's vendors and the non-empty remote vendors, once each; a failed fetch offers none |
| CreateProductModal.StoreValuesFirst | shopify-app/src/app/components/CreateProductModal.tsx:95 | the store's values come first in their own order, followed by the new remote values |
| CreateProductModal.ListedTagsOffered | shopify-app/src/app/components/CreateProductModal.tsx:82-95 | every tag the product listing serves is offered, first, in listing order |
| CreateProductModal.AddTag | shopify-app/src/app/components/CreateProductModal.tsx:128-139 | add-tag appends the trimmed tag only when it is non-empty and not chosen yet, adds it to the choices only when absent there, and clears the input; otherwise nothing changes |
| CreateProductModal.AddTagKeepsNoDups | shopify-app/src/app/components/CreateProductModal.tsx:128-139 | adding a tag keeps the chosen and offered tags free of repeats |
| CreateProductModal.TagClick | shopify-app/src/app/components/CreateProductModal.tsx:141-148 | a click unchooses a chosen tag and appends an unchosen one; other tags and fields are unchanged |
| CreateProductModal.TagClickKeepsNoDups | shopify-app/src/app/components/CreateProductModal.tsx:141-148 | a click keeps the chosen tags free of repeats |
| CreateProductModal.TagClickTwiceSameSet | shopify-app/src/app/components/CreateProductModal.tsx:141-148 | two clicks on a tag restore the set of chosen tags |
| CreateProductModal.TagClickTwiceRestores | shopify-app/src/app/components/CreateProductModal.tsx:141-148 | two clicks on an unchosen tag restore the chosen list exactly |
| CreateProductModal.CreateCollection | shopify-app/src/app/components/CreateProductModal.tsx:150-195 | a blank name does nothing; otherwise the new collection is offered and chosen and the input is cleared |
| CreateProductModal.CreatedCollectionStored | shopify-app/src/app/components/CreateProductModal.tsx:160-184 | the collection the form adds is the one the endpoint stored: same storage id, same title |
| EditProductModal.NumText | shopify-app/src/app/components/EditProductModal.tsx:56 | the stock text reads back through `parseInt` as the stock it was made from |
| EditProductModal.InitialStock | shopify-app/src/app/components/EditProductModal.tsx:56 | the initial stock text reads back as the first variant's stock, or 0 when there is none |
| EditProductModal.InitialCollectionsAsWritten | shopify-app/src/app/components/EditProductModal.tsx:49-51 | the initial collection ids as the code derives them: a `gid://` id is cut to its last `/` segment, and other ids are kept |
| EditProductModal.InitialCollections | shopify-app/src/app/components/EditProductModal.tsx:49-51 | corrected: the initial collection ids are exactly the product's own collection ids |
| EditProductModal.InitialState | shopify-app/src/app/components/EditProductModal.tsx:42-57 | corrected: price, compare-at and sku come from the first variant with `''` defaults; tags default to none; the collection ids and the other fields are copied from the product unchanged |
| EditProductModal.InitialStateAsWritten | shopify-app/src/app/components/EditProductModal.tsx:42-57 | the initial state with the collection ids as the code derives them |
| EditProductModal.AddTag | shopify-app/src/app/components/EditProductModal.tsx:422-430 | add appends the trimmed non-empty tag, repeats allowed, and clears the input; a blank input changes nothing |
| EditProductModal.RemoveTag | shopify-app/src/app/components/EditProductModal.tsx:445-449 | remove deletes exactly the tag at the index; the others keep their order |
| EditProductModal.AddThenRemove | shopify-app/src/app/components/EditProductModal.tsx:422-449 | adding a tag and removing it at its index restores the tag list |
| EditProductModal.SubmittedCollections | shopify-app/src/app/components/EditProductModal.tsx:81-86 | the sent collections are exactly the fetched collections whose id is chosen, as `{id, title}` |
| EditProductModal.SubmittedInFetchedOrder | shopify-app/src/app/components/EditProductModal.tsx:81-86 | the sent list is the fetched list turned into `{id, title}` entries and then filtered to the chosen ids, so it keeps fetched order, has one entry per chosen fetched collection and is a subsequence of all fetched entries |
| EditProductModal.TwoChosenSentInOrder | shopify-app/src/app/components/EditProductModal.tsx:81-86 | two fetched collections that are both chosen are sent as two entries, the first fetched one first |
| EditProductModal.SubmittedVariants | shopify-app/src/app/components/EditProductModal.tsx:90-113 | the first sent variant is a CZK `Default Variant` built from the form, keeping the old id or using `variant-<product id>`; the rest are unchanged, so the count is kept (1 with no variants) |
| EditProductModal.SubmittedAvailable | shopify-app/src/app/components/EditProductModal.tsx:124 | the availability flag the form sends agrees with the one the endpoint computes from the same stock field after `|| '0'` |
| EditProductModal.SentWhenChosen | shopify-app/src/app/components/EditProductModal.tsx:81-86 | a fetched collection whose id is chosen is sent as `{id, title}` |
| EditProductModal.Submit | shopify-app/src/app/components/EditProductModal.tsx:67-124 | the submitted form always parses on the endpoint and carries the form's title, vendor, tags, collections, variants and stock |
| EditProductModal.SentFlagMatchesStored | shopify-app/src/app/components/EditProductModal.tsx:124 | the availability flag the form sends agrees with the flag the endpoint stores on the first variant |
| EditProductModal.UntouchedSaveKeepsStock | shopify-app/src/app/components/EditProductModal.tsx:56-123 | saving untouched writes back the first variant's stock (none reads as 0), makes it available exactly when positive, and keeps the other variants |
| EditProductModal.ListedCollectionsResubmitted | shopify-app/src/app/components/EditProductModal.tsx:49-86 | corrected: every fetched collection the product lists is sent back on save |
| EditProductModal.GidNeverChosenAsWritten | shopify-app/src/app/components/EditProductModal.tsx:49-51 | as written, a `gid://` id is never among the initially chosen ids |
| EditProductModal.AsWrittenDropsGidCollections | shopify-app/src/app/components/EditProductModal.tsx:49-86 | as written, no fetched collection with a `gid://` id is sent on save |
| EditProductModal.GidCollectionNotSent | shopify-app/src/app/components/EditProductModal.tsx:49-86 | a product in one synced collection, saved untouched, sends no collections as written and sends that collection when corrected |
| EditProductModal.SentCollectionStored | shopify-app/src/app/api/products/route.ts:420-426 | a collection object sent with an id and a title is stored by the PUT as one node with that id and that title |
| EditProductModal.GidCollectionLostOnSave | shopify-app/src/app/components/EditProductModal.tsx:49-86 | a product in one synced collection, saved untouched, is stored by the PUT with no collections as written, and with that collection when corrected |
| CategoryList.Format | shopify-app/src/app/components/CategoryList.tsx:51-58 | a bar entry keeps id and title, with description defaulting to `''` and source to `mongodb` |
| CategoryList.FormatAll | shopify-app/src/app/components/CategoryList.tsx:51-58 | the bar formats every fetched collection, in order |
| CategoryList.Arranged | shopify-app/src/app/components/CategoryList.tsx:96-97 | the bar shows every fetched collection, as many as were fetched, with no Shopify collection after a non-Shopify one |
| CategoryList.ArrangedIsPermutation | shopify-app/src/app/components/CategoryList.tsx:96-97 | the bar shows every collection exactly as often as it was fetched |
| CategoryList.ArrangedGroups | shopify-app/src/app/components/CategoryList.tsx:96-180 | Shopify collections come first and the others after, each group in fetched order |
| CategoryList.SyncedCollectionFirst | shopify-app/src/app/components/CategoryList.tsx:96-97 | a synced collection reaches the bar under its Shopify id, in the Shopify group |
| CategoryList.Buttons | shopify-app/src/app/components/CategoryList.tsx:93-180 | no buttons without collections; otherwise All Products, Unassigned, then one button per arranged collection |
| CategoryList.Click | shopify-app/src/app/components/CategoryList.tsx:123-171 | All Products selects none and Unassigned selects `unassigned`; a collection click selects it, or none when it is already selected |
| CategoryList.ClickToggles | shopify-app/src/app/components/CategoryList.tsx:153-155 | a collection click flips its own highlight |
| CategoryList.ClickTwice | shopify-app/src/app/components/CategoryList.tsx:153-171 | two clicks on a collection restore the choice when it was that collection or none |
| CategoryList.FixedButtonsHighlightAfterClick | shopify-app/src/app/components/CategoryList.tsx:123-138 | the All Products and Unassigned buttons are highlighted after their own click |
| CategoryList.AtMostOneHighlighted | shopify-app/src/app/components/CategoryList.tsx:125-173 | buttons for different categories are never highlighted together |
| CategoryList.ClickHighlightedShowsAll | shopify-app/src/app/components/CategoryList.tsx:153 | clicking the highlighted collection again brings the home page back to every product |
| ProductCard.RenderTags | shopify-app/src/app/components/ProductCard.tsx:32-60 | missing or empty tags give only the placeholder; otherwise the first `min(3, n)` tags show, and a `+N` badge with `N = n - 3` appears exactly when `n > 3` |
| ProductCard.TagsAccountedFor | shopify-app/src/app/components/ProductCard.tsx:41-42 | the visible tags followed by the hidden ones are all the tags, and the shown count plus the badge number is `n` |
| ProductCard.PriceShown | shopify-app/src/app/components/ProductCard.tsx:26 | the price shown is the first variant's amount, or `'0'` when there is no variant or its amount is empty; it is never empty |
| ProductCard.Url | shopify-app/src/app/components/ProductCard.tsx:29 | the link is `/product/` followed by the handle |
| ProductCard.InStockLabel | shopify-app/src/app/components/ProductCard.tsx:111-112 | In Stock exactly when the product has a variant and the filter's availability test on the first variant alone holds; so a labelled product is available |
| ProductCard.UrlInjective | shopify-app/src/app/components/ProductCard.tsx:29 | two cards link to the same page exactly when their handles are equal |
| ProductCard.InStockLabelPassesFilter | shopify-app/src/app/components/ProductCard.tsx:111-112 | a card labelled In Stock passes the in-stock filter |
| ProductCard.InStockFilterLabelledOut | shopify-app/src/app/components/ProductCard.tsx:111-112 | a product whose first variant is sold out and second is not passes the in-stock filter but is labelled Out of Stock |

## Left out

- GraphQL transport, the MongoDB driver and aggregation syntax are left out. Remote pages are input sequences, and the store is two sequences in natural order.
- Image upload and file writes (`products/route.ts:226-264`) are left out. The create handler takes the stored image URLs as a parameter.
- The clock, generated ids (`Date.now`, `Math.random`, `insertedId`) and the driver's ObjectId parse are parameters; which texts it accepts and how it normalises them (for example upper-case hex) is not modelled.
- Dates are integers. Unparseable dates and NaN comparisons in the cleanup sort are not modelled, and ties keep the earliest record in store order.
- `toLowerCase` is modelled on ASCII only, because Unicode case mapping is outside the model.
- `ProductFilter.ApplyFilters` leaves out the price bounds, date ranges and every sort key. These use `parseFloat`, `Date` and `localeCompare` (`ProductFilter.tsx:68-73, 94-97, 103-119`), so the ordering lemmas cover only the no-sort case.
- `CollectionsApi.ListCollections` lists in natural order, not the database-side title sort (`collections/route.ts:10`), which depends on collation.
- Price formatting with `parseFloat` and `toLocaleString` (`ProductCard.tsx:108`) is left out. `ProductCard.PriceShown` stops at the amount text.
- `ProductCard.RenderTags` models what is shown, not the React keys or styles.
- The submit of the create form and its validation messages are left out. The edit form's own collection creation, which mirrors the create form's, is also left out. Both post to endpoints that are modelled.
- Timers, loading flags, window events, Swiper and styles are not state in this model. This includes the 300 ms delays on the home page and the 30 s refresh of the category bar.
- The edit form's image list and `existingImages` are left out, because image handling is I/O.
- JSON that parses to an unexpected shape is not modelled, apart from the `variants: null` case and the collection shapes the read side handles. Examples are non-array `tags`, `null` array items and non-string form values.
- IntToString (Text.IntToString): decimal text for every integer. JavaScript's `toString()` switches to exponent form (`1e+21`) from 10^21 in magnitude, and that is not modelled, because stock counts in this app stay far below it.
- ParseIntOfIntToString (Text.ParseIntOfIntToString): the round trip holds for every integer of the model. In JavaScript it fails from 10^21 on, where `parseInt("1e+21")` is 1.
- Text.ParseInt: the model reads exact unbounded integers. JavaScript's `parseInt` returns a double and loses precision beyond 2^53, so `ProductsApi.FormStock` stores exactly what JavaScript would round.
- EditProductModal.NumText: a stock of NaN is written as `"NaN"`. In the app, `NextResponse.json` serves a stored NaN as `null`, so the form starts such a product at `'0'`; that JSON conversion is not modelled.
- HomePage.FilterChange: the filter panel calls it only when the JSON of the new results differs from the previous ones (`ProductFilter.tsx:133-135`). A filter change that leaves the results equal therefore keeps the current page, and that guard is not modelled.
- A sync where the remote collection page has `collections` but no `edges` would throw in the code (`sync/route.ts:113`). Here it reads as an empty page, like the product page below.
- A sync where the remote product page is missing `edges` while `products` is present would throw in the code. Here it reads as an empty page.
- Collections are matched only by `id === selectedCategory`. The `toString()` calls on the home page are identities on strings.

## Findings

| source | as written | input that shows it | evidently intended | confidence | as-written member | corrected member |
|---|---|---|---|---|---|---|
| shopify-app/src/app/components/EditProductModal.tsx:49-51 | The initial collection ids cut a `gid://` id down to its last segment. The submit (lines 81-86) keeps only the fetched collections whose id is among those ids, but the collections endpoint lists synced collections under their full `gid://` id (`collections/route.ts:14`, stored at `sync/route.ts:116`). | A product whose only collection edge is `gid://shopify/Collection/1`, listed by the endpoint with that id, opened in the edit form and saved untouched: the PUT sends `collections: []` and the product loses its collection. | The form starts with the product's collection ids unchanged, so every listed collection the product belongs to is sent back. | not executed | EditProductModal.GidCollectionLostOnSave | EditProductModal.ListedCollectionsResubmitted |
