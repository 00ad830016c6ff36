/**
 * The catalog store: the product list, its fetch status, pagination cursor
 * and active search term, changed only by the `fetchProducts` and
 * `fetchMoreProducts` thunks and by `resetProducts`.
 *
 * The listing service is an abstract function from the request a thunk makes
 * to its outcome (a response, or a thrown value). Each thunk is split into
 * the pure request decision its payload creator makes and the reducer cases
 * (`pending`, then `fulfilled` or `rejected`) applied to the store.
 */
module ProductsSlice {
  import opened Common
  import opened JsBuiltins

  /** Page size of every listing request. */
  const Limit: nat := 10

  const SearchPagingRejection := "No paginar en búsqueda"
  const FetchProductsFallback := "Error al cargar productos"
  const FetchMoreFallback := "Error al cargar más"
  const UnknownError := "Error desconocido"

  datatype Status = Idle | Loading | Succeeded | Failed

  /** A snapshot of the store's fields. */
  datatype ProductsState = ProductsState(
    items: seq<Product>,
    status: Status,
    error: Option<string>,
    page: nat,
    hasMore: bool,
    total: int,
    searchQuery: string)

  const InitialState := ProductsState([], Idle, None, 0, true, 0, "")

  /** A call to the listing service: the paginated listing, or a search. */
  datatype Request = List(limit: nat, skip: nat) | Search(query: string)

  /** The service's answer (its `skip` and `limit` echo fields are never read). */
  datatype ProductsResponse = ProductsResponse(products: seq<Product>, total: int)

  /** What a failed call throws: an `Error` with a message, or any other value. */
  datatype Thrown = ErrorObject(message: string) | OtherValue

  datatype Outcome = Success(response: ProductsResponse) | Failure(thrown: Thrown)

  /** The listing service, as the answer it gives to each request. */
  type Gateway = Request -> Outcome

  /** The message a thunk rejects with: the `Error`'s message, or the thunk's own fallback. */
  function RejectionMessage(thrown: Thrown, fallback: string): (m: string)
    ensures thrown.ErrorObject? ==> m == thrown.message
    ensures thrown.OtherValue? ==> m == fallback
  {
    match thrown
    case ErrorObject(message) => message
    case OtherValue => fallback
  }

  /**
   * The request `fetchProducts` makes for its `searchQuery` argument (absent
   * means ''): a search with the trimmed query when that is not empty,
   * otherwise the first listing page.
   */
  function ProductsRequest(arg: Option<string>): (r: Request)
    ensures r.Search? <==> exists i :: 0 <= i < |arg.GetOr("")| && !IsWhitespace(arg.GetOr("")[i])
    ensures r.Search? ==> r.query == Trim(arg.GetOr("")) && r.query != ""
    ensures r.List? ==> r == List(Limit, 0)
  {
    var q := Trim(arg.GetOr(""));
    if q != "" then Search(q) else List(Limit, 0)
  }

  /**
   * The request `fetchMoreProducts` makes from the store's `page` and
   * `searchQuery`: none while any search term is recorded (a non-empty string
   * is truthy, whitespace included), otherwise the listing page at offset
   * `page * Limit`.
   */
  function MoreRequest(page: nat, searchQuery: string): (r: Option<Request>)
    ensures r.None? <==> searchQuery != ""
    ensures r.Some? ==> r.value.List? && r.value.limit == Limit && r.value.skip == page * Limit
  {
    if searchQuery != "" then None else Some(List(Limit, page * Limit))
  }

  /** `s` appears in `t` in the same order, possibly with gaps. */
  predicate Subsequence<T(==)>(s: seq<T>, t: seq<T>)
    decreases |t|
  {
    s == [] || (t != [] && ((s[0] == t[0] && Subsequence(s[1..], t[1..])) || Subsequence(s, t[1..])))
  }

  /** The products of `page` whose id is not in `existing`, in page order. */
  function NewProducts(page: seq<Product>, existing: set<int>): (r: seq<Product>)
    ensures forall p :: p in r <==> p in page && p.id !in existing
  {
    if page == [] then []
    else if page[0].id in existing then NewProducts(page[1..], existing)
    else [page[0]] + NewProducts(page[1..], existing)
  }

  /**
   * The list after a further page arrives: the old items unchanged, then the
   * page's products whose id the old items do not already hold. Only the old
   * items are consulted, not the earlier products of the same page.
   */
  function MergePage(items: seq<Product>, page: seq<Product>): (m: seq<Product>)
    ensures |items| <= |m| && m[..|items|] == items
    ensures forall i :: |items| <= i < |m| ==> m[i] in page && m[i].id !in IdsOf(items)
    ensures forall p :: p in page && p.id !in IdsOf(items) ==> p in m
  {
    items + NewProducts(page, IdsOf(items))
  }

  /**
   * Filtering keeps every copy of a product whose id is not in `existing`
   * (as often as the page holds it) and no copy of the others.
   */
  lemma {:induction false} NewProductsCounts(page: seq<Product>, existing: set<int>)
    ensures forall q: Product :: multiset(NewProducts(page, existing))[q] == if q.id in existing then 0 else multiset(page)[q]
  {
    if page != [] {
      NewProductsCounts(page[1..], existing);
      assert page == [page[0]] + page[1..];
      assert multiset(page) == multiset{page[0]} + multiset(page[1..]);
      if page[0].id !in existing {
        var rest := NewProducts(page[1..], existing);
        assert multiset([page[0]] + rest) == multiset{page[0]} + multiset(rest);
      }
    }
  }

  /** Filtering keeps the page's order. */
  lemma {:induction false} NewProductsInPageOrder(page: seq<Product>, existing: set<int>)
    ensures Subsequence(NewProducts(page, existing), page)
  {
    if page != [] {
      NewProductsInPageOrder(page[1..], existing);
      var rest := NewProducts(page[1..], existing);
      if page[0].id !in existing {
        assert ([page[0]] + rest)[1..] == rest;
      }
    }
  }

  /** The products a further page adds keep the order the service sent them in. */
  lemma MergePageKeepsPageOrder(items: seq<Product>, page: seq<Product>)
    ensures Subsequence(MergePage(items, page)[|items|..], page)
  {
    var added := NewProducts(page, IdsOf(items));
    NewProductsInPageOrder(page, IdsOf(items));
    assert (items + added)[|items|..] == added;
  }

  /** Putting a product with a new id in front of a duplicate-free list keeps it duplicate-free. */
  lemma DistinctIdsCons(p: Product, rest: seq<Product>)
    requires DistinctIds(rest) && forall q :: q in rest ==> q.id != p.id
    ensures DistinctIds([p] + rest)
  {
    var r := [p] + rest;
    forall i, j | 0 <= i < j < |r| ensures r[i].id != r[j].id {
      assert r[j] == rest[j - 1];
      if i > 0 {
        assert r[i] == rest[i - 1];
      }
    }
  }

  /** When every id of the page is already loaded, the page adds nothing. */
  lemma {:induction false} NewProductsNoneNew(page: seq<Product>, existing: set<int>)
    requires forall p :: p in page ==> p.id in existing
    ensures NewProducts(page, existing) == []
  {
    if page != [] {
      assert forall p :: p in page[1..] ==> p in page;
      NewProductsNoneNew(page[1..], existing);
    }
  }

  /** A duplicate-free page keeps its filtered products duplicate-free. */
  lemma {:induction false} NewProductsDistinct(page: seq<Product>, existing: set<int>)
    requires DistinctIds(page)
    ensures DistinctIds(NewProducts(page, existing))
  {
    if page != [] {
      var tail := page[1..];
      assert DistinctIds(tail) by {
        forall i, j | 0 <= i < j < |tail| ensures tail[i].id != tail[j].id {
          assert tail[i] == page[i + 1] && tail[j] == page[j + 1];
        }
      }
      NewProductsDistinct(tail, existing);
      var rest := NewProducts(tail, existing);
      if page[0].id !in existing {
        assert forall q :: q in rest ==> q.id != page[0].id by {
          forall q | q in tail ensures q.id != page[0].id {
            var k :| 0 <= k < |tail| && tail[k] == q;
            assert page[k + 1] == q;
          }
        }
        assert NewProducts(page, existing) == [page[0]] + rest;
        DistinctIdsCons(page[0], rest);
      } else {
        assert NewProducts(page, existing) == rest;
      }
    }
  }

  /**
   * Merging never introduces a duplicate id: when the loaded items and the
   * new page are each duplicate-free by id, so is the merged list.
   */
  lemma MergePageDistinct(items: seq<Product>, page: seq<Product>)
    requires DistinctIds(items) && DistinctIds(page)
    ensures DistinctIds(MergePage(items, page))
  {
    var added := NewProducts(page, IdsOf(items));
    NewProductsDistinct(page, IdsOf(items));
    var m := items + added;
    forall i, j | 0 <= i < j < |m| ensures m[i].id != m[j].id {
      if j >= |items| {
        assert m[j] == added[j - |items|];
        if i < |items| {
          assert m[i] in items;
          assert m[j].id !in IdsOf(items);
        } else {
          assert m[i] == added[i - |items|];
        }
      }
    }
  }

  /**
   * Receiving the same page twice adds nothing the second time: overlapping
   * pages are absorbed.
   */
  lemma MergePageIdempotent(items: seq<Product>, page: seq<Product>)
    ensures MergePage(MergePage(items, page), page) == MergePage(items, page)
  {
    var m := MergePage(items, page);
    forall p | p in page ensures p.id in IdsOf(m) {
      if p.id in IdsOf(items) {
        var q :| q in items && q.id == p.id;
        assert q in m;
      }
    }
    NewProductsNoneNew(page, IdsOf(m));
  }

  /**
   * Duplicates inside one page are not removed: only ids already loaded are
   * filtered out. A product with an unloaded id occurs in the merged list as
   * often as in the page; a product with a loaded id as often as in the old
   * items. So the merged length, and with it `hasMore`, is fixed.
   */
  lemma DuplicatesWithinPageKept(items: seq<Product>, page: seq<Product>)
    ensures forall q: Product :: q.id !in IdsOf(items) ==> multiset(MergePage(items, page))[q] == multiset(page)[q]
    ensures forall q: Product :: q.id in IdsOf(items) ==> multiset(MergePage(items, page))[q] == multiset(items)[q]
  {
    var added := NewProducts(page, IdsOf(items));
    NewProductsCounts(page, IdsOf(items));
    assert multiset(items + added) == multiset(items) + multiset(added);
    forall q: Product | q.id !in IdsOf(items) ensures multiset(items)[q] == 0 {
      assert q !in items;
    }
  }

  /**
   * A query of only whitespace (for example a single space) makes
   * `fetchProducts` list rather than search, yet the untrimmed query it
   * records makes every later `fetchMoreProducts` refuse to paginate.
   */
  lemma WhitespaceQueryBlocksPaging(q: string, page: nat)
    requires q != "" && forall i :: 0 <= i < |q| ==> IsWhitespace(q[i])
    ensures ProductsRequest(Some(q)) == List(Limit, 0)
    ensures MoreRequest(page, q) == None
  {
  }

  /** The store. Each method is one reducer case or one whole thunk dispatch. */
  class ProductsStore {
    var items: seq<Product>
    var status: Status
    var error: Option<string>
    var page: nat
    var hasMore: bool
    var total: int
    var searchQuery: string

    function State(): ProductsState
      reads this
    {
      ProductsState(items, status, error, page, hasMore, total, searchQuery)
    }

    /** The store as created: the initial state. */
    constructor ()
      ensures State() == InitialState
    {
      items, status, error, page := [], Idle, None, 0;
      hasMore, total, searchQuery := true, 0, "";
    }

    /** `resetProducts`: back to the initial state from any state. */
    method ResetProducts()
      modifies this
      ensures State() == InitialState
    {
      items, status, error, page := [], Idle, None, 0;
      hasMore, total, searchQuery := true, 0, "";
    }

    /**
     * `fetchProducts.pending`: loading, no error, no items, page 0, and the
     * query argument recorded as given (untrimmed); `hasMore` and `total`
     * keep their values.
     */
    method FetchProductsPending(arg: Option<string>)
      modifies this
      ensures State() == old(State()).(status := Loading, error := None, searchQuery := arg.GetOr(""), items := [], page := 0)
    {
      status := Loading;
      error := None;
      searchQuery := arg.GetOr("");
      items := [];
      page := 0;
    }

    /**
     * `fetchProducts.fulfilled`: the response's products in server order,
     * its total, page 1, and more to fetch exactly when fewer products than
     * the total are loaded.
     */
    method FetchProductsFulfilled(payload: ProductsResponse)
      modifies this
      ensures State() == old(State()).(status := Succeeded, items := payload.products, total := payload.total,
                                       page := 1, hasMore := |payload.products| < payload.total)
      ensures hasMore <==> |items| < total
    {
      status := Succeeded;
      items := payload.products;
      total := payload.total;
      page := 1;
      hasMore := |items| < payload.total;
    }

    /** `fetchProducts.rejected`: failed, with the payload message or 'Error desconocido'. */
    method FetchProductsRejected(payload: Option<string>)
      modifies this
      ensures State() == old(State()).(status := Failed, error := Some(payload.GetOr(UnknownError)))
    {
      status := Failed;
      error := Some(payload.GetOr(UnknownError));
    }

    /** `fetchMoreProducts.pending`: only the error is cleared. */
    method FetchMorePending()
      modifies this
      ensures State() == old(State()).(error := None)
    {
      error := None;
    }

    /**
     * `fetchMoreProducts.fulfilled`: the page merged without ids already
     * loaded, the cursor one further, `hasMore` against the response's
     * total; the stored `total` itself is not updated.
     */
    method FetchMoreFulfilled(payload: ProductsResponse)
      modifies this
      ensures State() == old(State()).(items := MergePage(old(items), payload.products), page := old(page) + 1,
                                       hasMore := |MergePage(old(items), payload.products)| < payload.total)
    {
      items := items + NewProducts(payload.products, IdsOf(items));
      page := page + 1;
      hasMore := |items| < payload.total;
    }

    /** `fetchMoreProducts.rejected`: the error becomes the payload (null when absent); nothing else changes. */
    method FetchMoreRejected(payload: Option<string>)
      modifies this
      ensures State() == old(State()).(error := payload)
    {
      error := payload;
    }

    /**
     * A whole `fetchProducts(arg)` dispatch: `pending`, one call to the
     * service, then `fulfilled` with its response or `rejected` with the
     * thrown message. There is no retry and no guard against a response
     * arriving after a newer request.
     */
    method FetchProducts(arg: Option<string>, gateway: Gateway) returns (req: Request)
      modifies this
      ensures req == ProductsRequest(arg)
      ensures gateway(req).Success? ==>
        var res := gateway(req).response;
        State() == ProductsState(res.products, Succeeded, None, 1, |res.products| < res.total, res.total, arg.GetOr(""))
      ensures gateway(req).Failure? ==>
        State() == old(State()).(items := [], status := Failed, page := 0, searchQuery := arg.GetOr(""),
                                 error := Some(RejectionMessage(gateway(req).thrown, FetchProductsFallback)))
    {
      FetchProductsPending(arg);
      req := ProductsRequest(arg);
      match gateway(req)
      case Success(res) =>
        FetchProductsFulfilled(res);
      case Failure(thrown) =>
        FetchProductsRejected(Some(RejectionMessage(thrown, FetchProductsFallback)));
    }

    /**
     * A whole `fetchMoreProducts()` dispatch. While a search term is
     * recorded no call is made, yet `pending` and `rejected` still run, so
     * the only change is the rejection message in `error`. Otherwise one
     * listing call at offset `page * Limit`: on success the page is merged;
     * on failure only `error` changes, and `status` is never touched.
     */
    method FetchMoreProducts(gateway: Gateway) returns (req: Option<Request>)
      modifies this
      ensures req == MoreRequest(old(page), old(searchQuery))
      ensures req.None? ==> State() == old(State()).(error := Some(SearchPagingRejection))
      ensures req.Some? && gateway(req.value).Success? ==>
        var res := gateway(req.value).response;
        State() == old(State()).(items := MergePage(old(items), res.products), page := old(page) + 1,
                                 hasMore := |MergePage(old(items), res.products)| < res.total, error := None)
      ensures req.Some? && gateway(req.value).Failure? ==>
        State() == old(State()).(error := Some(RejectionMessage(gateway(req.value).thrown, FetchMoreFallback)))
    {
      FetchMorePending();
      req := MoreRequest(page, searchQuery);
      if req.None? {
        FetchMoreRejected(Some(SearchPagingRejection));
      } else {
        match gateway(req.value)
        case Success(res) =>
          FetchMoreFulfilled(res);
        case Failure(thrown) =>
          FetchMoreRejected(Some(RejectionMessage(thrown, FetchMoreFallback)));
      }
    }
  }

  /** The first load and the further page of one new product, as in the store's unit tests. */
  method ScenarioAppend() {
    var p1 := Product(1, "Product 1", "D1", 10.0, "http://x/1.jpg");
    var p2 := Product(2, "Product 2", "D2", 20.0, "http://x/2.jpg");
    var p3 := Product(3, "P3", "D3", 30.0, "http://x/3.jpg");
    var store := new ProductsStore();
    var req := store.FetchProducts(Some(""), (r: Request) => Success(ProductsResponse([p1, p2], 100)));
    assert req == List(10, 0);
    assert store.items == [p1, p2] && store.status == Succeeded && store.total == 100 && store.hasMore;
    var next := store.FetchMoreProducts((r: Request) => Success(ProductsResponse([p3], 100)));
    assert next == Some(List(10, 10));
    NewPageAppended(p1, p2, p3);
    assert store.items == [p1, p2, p3];
    assert store.items[2].id == 3 && store.page == 2;
  }

  /** Loaded products 1 and 2 and a further page holding only 3: the merged list is 1, 2, 3. */
  lemma NewPageAppended(p1: Product, p2: Product, p3: Product)
    requires p1.id == 1 && p2.id == 2 && p3.id == 3
    ensures MergePage([p1, p2], [p3]) == [p1, p2, p3]
  {
    assert IdsOf([p1, p2]) == {1, 2};
    assert [p3][1..] == [];
    assert NewProducts([p3], {1, 2}) == [p3];
  }

  /**
   * Loaded products 1 and 2 and a further page holding 2 and 3: the merged
   * list is 1, 2, 3 (three products, not four).
   */
  lemma OverlappingPage(p1: Product, p2: Product, p3: Product)
    requires p1.id == 1 && p2.id == 2 && p3.id == 3
    ensures MergePage([p1, p2], [p2, p3]) == [p1, p2, p3]
  {
    assert IdsOf([p1, p2]) == {1, 2};
    assert [p2, p3][1..] == [p3] && [p3][1..] == [];
    assert NewProducts([p3], {1, 2}) == [p3];
  }

  /**
   * Two searches in flight with no guard on which answer applies: the
   * answer to the older search, arriving last, is shown under the newer
   * search term.
   */
  method ScenarioStaleResponse(older: Product, newer: Product) {
    var store := new ProductsStore();
    store.FetchProductsPending(Some("phone"));
    store.FetchProductsPending(Some("laptop"));
    store.FetchProductsFulfilled(ProductsResponse([newer], 1));
    store.FetchProductsFulfilled(ProductsResponse([older], 1));
    assert store.searchQuery == "laptop" && store.items == [older];
  }

  /** A failing first load, then a reset. */
  method ScenarioFailure() {
    var store := new ProductsStore();
    var req := store.FetchProducts(Some(""), (r: Request) => Failure(ErrorObject("Network error")));
    assert store.status == Failed && store.items == [] && store.error == Some("Network error");
    store.ResetProducts();
    assert store.State() == ProductsState([], Idle, None, 0, true, 0, "");
  }
}
