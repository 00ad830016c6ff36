# Catalog and favorites stores — a Dafny model

This project models the two Redux slices at the centre of a React Native
product browser:

- **the catalog store** (`src/store/productsSlice.ts`) holds the product list, its fetch
  status, the pagination cursor, the server's total and the active search term. It
  changes through three operations:
  - the `fetchProducts` thunk: first load, refresh or new search;
  - the `fetchMoreProducts` thunk: the next page, with ids already loaded dropped;
  - the `resetProducts` action.
- **the favorites store** (`src/store/favoritesSlice.ts`) is a normalized set of starred
  products: `ids` in insertion order, plus `entities` from each `String(id)` to its
  product. It changes through four actions:
  - `setFavorites`, which hydrates the store from the stored list at start-up;
  - `addFavorite`, `removeFavorite` and `toggleFavorite`. After each of these that
    changes something, the whole list `ids.map(id => entities[id]).filter(Boolean)` is
    written to storage.

Files:

- `common.dfy` (module `Common`): the product record, `Option` for nullable values, and
  duplicate-free ids.
- `js_builtins.dfy` (module `JsBuiltins`): the JavaScript built-ins whose exact behaviour
  matters:
  - `String.prototype.trim`, with the WhiteSpace and LineTerminator sets of sections
    12.2 and 12.3 of ECMA-262;
  - `String(n)` on an integer.
- `products_slice.dfy` (module `ProductsSlice`):
  - the catalog state as a value;
  - the request each thunk makes, as a pure function;
  - the page merge and its lemmas;
  - the class `ProductsStore`. It has one method per reducer case, plus one method per
    whole thunk dispatch. Each thunk method takes the listing service as a function from
    request to outcome.
- `favorites_slice.dfy` (module `FavoritesSlice`):
  - the favorites state as a value, with its invariant `WellFormed`;
  - the effect of each action as a pure function;
  - the persisted list and hydration, with their lemmas;
  - the loop of `setFavorites` as the method `BuildFavorites`;
  - the class `FavoritesStore`. It records, as ghost state, every list the store writes
    to storage.

Two central results:

- **Catalog:** merging a further page never re-adds an id already loaded; the merged list
  is duplicate-free when the loaded items and the page each are (`MergePageDistinct`). The
  merge keeps the old items as a prefix, adds every product with an unseen id in server
  order, and absorbs a repeated page.
- **Favorites:** hydrating from the list a well-formed store persists gives that store back
  (`PersistThenHydrate`). So what the mutating actions write is what `setFavorites`
  restores at the next start. Every action preserves the invariant.

The methods `ScenarioAppend`, `ScenarioFailure`, `ScenarioStaleResponse` and
`ScenarioToggle` replay concrete dispatch sequences against the stores:

- `ScenarioAppend` and `ScenarioFailure` replay the cases of
  `__tests__/store/productsSlice.test.ts`;
- `ScenarioStaleResponse` shows an older search answer landing under a newer search term;
- `ScenarioToggle` shows a favorite toggled on and off, with the two lists it writes.

Behaviour of the code worth noting:

- There is no retry of a failed service call; one failure rejects the thunk.
- `fetchProducts.pending` records the query argument as given, untrimmed, although the
  request is decided on the trimmed query. A query of only whitespace therefore lists
  instead of searching, and then blocks every `fetchMoreProducts`
  (`WhitespaceQueryBlocksPaging`).
- `fetchMoreProducts` in search mode is not a no-op: its `pending` clears `error`, and its
  `rejected` sets `error` to the rejection message.
- `fetchMoreProducts.fulfilled` computes `hasMore` against the response's total but does
  not store that total.
- Deduplication of a further page is only against the items already loaded. Duplicates
  inside one page are kept (`DuplicatesWithinPageKept`).
- Nothing enforces `items.length <= total`. The server's `total` is taken as sent.

## Model

| member | source | states |
|---|---|---|
| JsBuiltins.Trim | src/store/productsSlice.ts:42-43 | the trimmed query is empty exactly when every character is whitespace; otherwise it starts and ends with a non-whitespace character and is no longer than the input |
| JsBuiltins.TrimIsSlice | src/store/productsSlice.ts:42-43 | `trim` keeps one contiguous slice of the query, with only whitespace before and after it |
| JsBuiltins.TrimIdempotent | src/store/productsSlice.ts:42 | a property of the `trim` model itself: trimming a trimmed string changes nothing |
| JsBuiltins.NatToStringDigits | src/store/favoritesSlice.ts:50 | the decimal form of a natural is all digits; it has one digit exactly below 10 and a leading zero only for 0 |
| JsBuiltins.IdStringSign | src/store/favoritesSlice.ts:50 | `String(id)` is non-empty and starts with '-' exactly for negative ids |
| JsBuiltins.IdString | src/store/favoritesSlice.ts:50 | defines `String(id)` for an integer id: a minus sign for a negative id, then the decimal digits |
| JsBuiltins.NatToStringInjective | src/store/favoritesSlice.ts:50 | different naturals have different decimal forms |
| JsBuiltins.IdStringInjective | src/store/favoritesSlice.ts:59 | two ids map to the same favorites key only when they are equal, so a key names one catalog id |
| ProductsSlice.RejectionMessage | src/store/productsSlice.ts:48-51 | a thrown `Error` rejects with its message; any other thrown value rejects with the thunk's fallback text |
| ProductsSlice.ProductsRequest | src/store/productsSlice.ts:42-47 | `fetchProducts` searches exactly when its argument (absent meaning '') has a non-whitespace character, and then searches for the trimmed, non-empty query; otherwise it requests 10 products from offset 0 |
| ProductsSlice.MoreRequest | src/store/productsSlice.ts:59-64 | `fetchMoreProducts` makes no request exactly when a search term is recorded; otherwise it requests 10 products from offset `page * 10` |
| ProductsSlice.NewProducts | src/store/productsSlice.ts:109-110 | a product survives the filter exactly when it is in the page and its id is not already loaded |
| ProductsSlice.NewProductsCounts | src/store/productsSlice.ts:110 | the filter keeps each product with an id not yet loaded as many times as the page holds it, and drops every copy of the others |
| ProductsSlice.MergePage | src/store/productsSlice.ts:108-111 | the old items are a prefix of the merged list; every appended product comes from the page with an id not loaded before; every page product with an unloaded id is appended |
| ProductsSlice.NewProductsInPageOrder | src/store/productsSlice.ts:110 | the filtered products are a subsequence of the page |
| ProductsSlice.MergePageKeepsPageOrder | src/store/productsSlice.ts:111 | the appended products keep the order the service sent them in |
| ProductsSlice.NewProductsNoneNew | src/store/productsSlice.ts:109-110 | a page whose ids are all loaded adds nothing |
| ProductsSlice.NewProductsDistinct | src/store/productsSlice.ts:109-110 | filtering a duplicate-free page leaves it duplicate-free |
| ProductsSlice.MergePageDistinct | src/store/productsSlice.ts:108-111 | merging a duplicate-free page into duplicate-free items never creates a duplicate id |
| ProductsSlice.MergePageIdempotent | src/store/productsSlice.ts:108-111 | receiving the same page a second time adds nothing |
| ProductsSlice.DuplicatesWithinPageKept | src/store/productsSlice.ts:109-111 | for any loaded items and page, a product with an unloaded id occurs in the merged list exactly as often as in the page, repeats included, and a product with a loaded id exactly as often as in the old items; so the merged length that `hasMore` compares is fixed |
| ProductsSlice.WhitespaceQueryBlocksPaging | src/store/productsSlice.ts:87 | a whitespace-only query lists instead of searching, yet the untrimmed term it records makes every later page request refuse |
| ProductsSlice.NewPageAppended | __tests__/store/productsSlice.test.ts:68-83 | loaded products 1 and 2 plus a page holding only 3 give 1, 2, 3 |
| ProductsSlice.OverlappingPage | src/store/productsSlice.ts:103-111 | loaded products 1 and 2 plus a page holding 2 and 3 give 1, 2, 3, three products and not four |
| ProductsSlice.ProductsStore.constructor | src/store/productsSlice.ts:24-32 | the store starts in the initial state: no items, idle, no error, page 0, more to load, total 0, no search term |
| ProductsSlice.ProductsStore.ResetProducts | src/store/productsSlice.ts:77-79 | from any state, back to the initial state |
| ProductsSlice.ProductsStore.FetchProductsPending | src/store/productsSlice.ts:84-90 | loading, error cleared, items emptied, page 0, the argument recorded as the search term (absent meaning ''); `hasMore` and `total` unchanged |
| ProductsSlice.ProductsStore.FetchProductsFulfilled | src/store/productsSlice.ts:91-97 | succeeded, the response's products in server order, its total, page 1, and `hasMore` exactly when fewer products than the total are loaded |
| ProductsSlice.ProductsStore.FetchProductsRejected | src/store/productsSlice.ts:98-101 | failed, with the payload message or 'Error desconocido'; nothing else changes |
| ProductsSlice.ProductsStore.FetchMorePending | src/store/productsSlice.ts:105-107 | only the error is cleared |
| ProductsSlice.ProductsStore.FetchMoreFulfilled | src/store/productsSlice.ts:108-114 | the page merged without loaded ids, the cursor one further, `hasMore` against the response's total; status, error, total and search term unchanged |
| ProductsSlice.ProductsStore.FetchMoreRejected | src/store/productsSlice.ts:115-117 | only the error changes, to the payload or null |
| ProductsSlice.ProductsStore.FetchProducts | src/store/productsSlice.ts:35-53 | one dispatch makes the request `ProductsRequest` decides; on success the store holds exactly the response under the recorded term; on failure it is failed with empty items and the rejection message, keeping `hasMore` and `total` |
| ProductsSlice.ProductsStore.FetchMoreProducts | src/store/productsSlice.ts:56-71 | while a search term is recorded, no request is made and only `error` changes, to 'No paginar en búsqueda'; otherwise one request at `page * 10`, a merged page on success, only `error` on failure; `status` is never touched |
| FavoritesSlice.IndexOf | src/store/favoritesSlice.ts:67 | `indexOf` is -1 exactly when the id is absent, and otherwise the first position holding it |
| FavoritesSlice.SpliceOne | src/store/favoritesSlice.ts:69 | defines `ids.splice(start, 1)`: a negative start counts from the end, a start past the end removes nothing |
| FavoritesSlice.AddValue | src/store/favoritesSlice.ts:58-64 | defines `addFavorite` on a snapshot: no change when the key is mapped, otherwise the key is pushed and the product mapped |
| FavoritesSlice.RemoveValue | src/store/favoritesSlice.ts:65-72 | defines `removeFavorite` on a snapshot: no change when `indexOf` is -1, otherwise `splice(indexOf, 1)` and the entity deleted |
| FavoritesSlice.ToggleValue | src/store/favoritesSlice.ts:73-84 | defines `toggleFavorite` on a snapshot: decided on `entities`; `splice(indexOf, 1)` and delete when mapped, push and map otherwise |
| FavoritesSlice.PersistList | src/store/favoritesSlice.ts:24 | defines the written list `ids.map(id => entities[id]).filter(Boolean)`: ids without an entity are skipped |
| FavoritesSlice.Hydrate | src/store/favoritesSlice.ts:46-57 | defines `setFavorites(list)`: starting empty, each product of the list added in turn as `addFavorite` does, without a write |
| FavoritesSlice.FirstIndex | src/store/favoritesSlice.ts:49-55 | the first position in the list of a product with the given key, or -1 when none has it |
| FavoritesSlice.AddPreservesWellFormed | src/store/favoritesSlice.ts:58-64 | `addFavorite` keeps ids distinct, ids and entity keys equal, and every entity under its own key |
| FavoritesSlice.AddIdempotent | src/store/favoritesSlice.ts:60 | a second add of any product with the same id changes nothing, so the first snapshot is kept |
| FavoritesSlice.RemoveAtSpec | src/store/favoritesSlice.ts:69 | splicing one position out of a duplicate-free list removes exactly the element there and keeps the list duplicate-free |
| FavoritesSlice.RemoveAtWellFormed | src/store/favoritesSlice.ts:69-70 | deleting one listed id from both `ids` and `entities` keeps a store well-formed |
| FavoritesSlice.RemoveValueAt | src/store/favoritesSlice.ts:67-70 | for a listed id, `splice(indexOf(id), 1)` takes out exactly the position of its first occurrence, and the entity is deleted |
| FavoritesSlice.RemoveSpec | src/store/favoritesSlice.ts:65-72 | on a well-formed store, an unlisted id changes nothing; a listed one is taken out of its one position, the rest keeping their order, every other id stays, and its entity is deleted |
| FavoritesSlice.RemovePreservesWellFormed | src/store/favoritesSlice.ts:65-72 | `removeFavorite` keeps the invariant |
| FavoritesSlice.ToggleIsRemoveOrAdd | src/store/favoritesSlice.ts:73-84 | on a well-formed store, toggling is removal when the key is mapped and addition otherwise |
| FavoritesSlice.TogglePreservesWellFormed | src/store/favoritesSlice.ts:73-84 | `toggleFavorite` keeps the invariant |
| FavoritesSlice.ToggleTwiceFromAbsent | src/store/favoritesSlice.ts:73-84 | toggling a non-favorite twice restores the store exactly |
| FavoritesSlice.ToggleTwiceFromPresent | src/store/favoritesSlice.ts:73-84 | toggling a favorite twice moves its id to the end of `ids`, mapped to the toggled product, which changes the order unless it was already last |
| FavoritesSlice.PersistListSpec | src/store/favoritesSlice.ts:24 | when every id has an entity, the written list has one product per id, in `ids` order |
| FavoritesSlice.PersistListFrame | src/store/favoritesSlice.ts:24 | the written list depends only on the entities of listed ids |
| FavoritesSlice.PersistedIdsDistinct | src/store/favoritesSlice.ts:24 | a well-formed store never writes two products with one id |
| FavoritesSlice.HydrateSnoc | src/store/favoritesSlice.ts:49-55 | hydrating a list with one more product is adding that product to the hydrated store |
| FavoritesSlice.PersistThenHydrate | src/store/favoritesSlice.ts:22-29 | hydrating from the list a well-formed store writes gives exactly that store back |
| FavoritesSlice.HydrateWellFormed | src/store/favoritesSlice.ts:46-57 | `setFavorites` yields a well-formed store, whatever the list holds |
| FavoritesSlice.HydrateKeys | src/store/favoritesSlice.ts:49-55 | a key is mapped after `setFavorites` exactly when some product of the list has it |
| FavoritesSlice.HydrateFirstWins | src/store/favoritesSlice.ts:51-54 | each key maps to the first product of the list with that key; later duplicates are skipped |
| FavoritesSlice.OrderedKeysSnoc | src/store/favoritesSlice.ts:49-55 | a longer list does not move the first occurrence of keys already present, so their order holds |
| FavoritesSlice.OrderedKeysExtend | src/store/favoritesSlice.ts:52 | a key whose first occurrence follows those of all listed keys can be pushed after them |
| FavoritesSlice.OrderedKeysAppend | src/store/favoritesSlice.ts:51-53 | a key first seen in the last product goes after every key seen before |
| FavoritesSlice.HydrateOrder | src/store/favoritesSlice.ts:49-55 | `ids` lists the keys in the order of their first occurrence in the list |
| FavoritesSlice.BuildFavorites | src/store/favoritesSlice.ts:47-56 | the loop builds the hydrated store: well-formed, exactly the keys of the list, each mapped to its first product, ordered by first occurrence |
| FavoritesSlice.FavoritesStore.constructor | src/store/favoritesSlice.ts:17-20 | the store starts empty and well-formed, with nothing written |
| FavoritesSlice.FavoritesStore.SetFavorites | src/store/favoritesSlice.ts:46-57 | the store becomes the hydration of the list, is well-formed, and nothing is written |
| FavoritesSlice.FavoritesStore.AddFavorite | src/store/favoritesSlice.ts:58-64 | a mapped key changes nothing and writes nothing; otherwise the key goes last, the product is mapped and the whole new list is written; the invariant is kept |
| FavoritesSlice.FavoritesStore.RemoveFavorite | src/store/favoritesSlice.ts:65-72 | an unlisted id changes nothing and writes nothing; otherwise it is spliced out, its entity deleted, and the new list written; the invariant is kept |
| FavoritesSlice.FavoritesStore.ToggleFavorite | src/store/favoritesSlice.ts:73-84 | removal when the key is mapped, addition otherwise; the new list is written either way; the invariant is kept |

## Left out

- Network access is not modelled. The axios client, its 10-second timeout
  (`src/api/client.ts:13`) and HTTP errors are replaced by an arbitrary function from
  request to outcome: a response, an `Error` with a message, or another thrown value.
- Asynchrony is not modelled. A thunk method runs `pending`, the service call and then
  its settling case in one step. Interleavings of several dispatches are expressed by
  calling the reducer-case methods in any order (`ScenarioStaleResponse`). Redux Toolkit's
  own abort and condition handling are not modelled.
- Storage is not modelled:
  - `AsyncStorage`, JSON serialization and the `@favoritos` key are left out. A write is
    the product list appended to the ghost log `persisted`.
  - A failed write is ignored by the source and invisible here.
  - `loadFavoritesFromStorage` (the storage read and the JSON parse) is left out. It
    gives `[]` only when the key is missing or `JSON.parse` throws. A failed storage read
    is not caught, so its promise rejects; `App.tsx:20-24` has no `catch`, and then
    `setFavorites` is never dispatched and the store stays empty. Otherwise the start-up
    path is `setFavorites(list)` on the list it returns.
- A JavaScript number is modelled as an unbounded integer for ids, `page` and `total`, and
  as a real for the price.
- IdString: models `String(id)` only for integer ids, in plain decimal. The exponent form
  `String` uses from 1e21 upward, and fractional or non-finite ids, are not modelled.
- A `null` argument where the source expects an object or string is not modelled. The
  optional query of `fetchProducts` is `Option<string>`; `null` payloads of the rejected
  cases are `None`.
- The presentation fields of a product (category, brand, rating, stock, discount,
  gallery) are read by neither store and are left out. `src/types/product.ts` is not part
  of this model.
- The screens are callers and are left out. This includes the `loadMore` guard of
  `src/screens/HomeScreen.tsx:53`, which skips `fetchMoreProducts` while searching, while
  nothing more is to load, or while loading. The debounce hook and the store wiring are
  left out too. The stores' own operations are modelled without that guard.
