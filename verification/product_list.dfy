/**
 * The product list: the request parameters it derives from the filter state,
 * the "load more" page state machine, and which view it shows.
 */
module ProductList {
  import opened Wrappers
  import opened JsStrings
  import opened ProductModel
  import opened FilterPanel

  /** The page size the list asks for and the one it compares against. */
  const PageSize: int := 10

  const LoadError: string := "Failed to load products."

  /** JavaScript truthiness of an option value: the empty string and zero are falsy. */
  predicate Truthy(v: Val) {
    match v
    case S(s) => s != ""
    case N(n) => n != 0.0
  }

  /** A value as `Array.prototype.toString` writes it. */
  function ValText(v: Val, showNumber: real -> string): string
  {
    match v
    case S(s) => s
    case N(n) => showNumber(n)
  }

  /** The parameters handed to `fetchProducts`; `None` is `undefined`. */
  datatype RequestParams = RequestParams(
    code: Option<string>,
    energyClass: Option<seq<Val>>,
    capacity: Option<string>,
    features: Option<seq<Val>>,
    sortBy: Option<Val>,
    order: Option<string>,
    page: int,
    limit: int)

  /**
   * The `params` object of the fetch effect. Arrays are always truthy in
   * JavaScript, so the list-valued parameters are always sent, even when empty;
   * the capacity list is sent as its comma-joined text.
   */
  function DeriveParams(f: Filters, query: string, page: int, showNumber: real -> string): (r: RequestParams)
    requires WellShaped(f)
    ensures r.code.None? <==> query == ""
    ensures r.code.Some? ==> r.code.value == query
    ensures r.sortBy == (if Truthy(f[Sort].v) then Some(f[Sort].v) else None)
    ensures r.order == (if r.sortBy.Some? then Some("asc") else None)
    ensures r.energyClass == Some(f[EnergyClass].items) && r.features == Some(f[Feature].items)
    ensures r.capacity == Some(Join(CapacityTexts(f[Capacity].items, showNumber), ","))
    ensures |f[Capacity].items| == 0 ==> r.capacity == Some("")
    ensures r.page == page && r.limit == PageSize
  {
    var capText := Join(CapacityTexts(f[Capacity].items, showNumber), ",");
    var sort := f[Sort].v;
    RequestParams(
      if query != "" then Some(query) else None,
      Some(f[EnergyClass].items),
      Some(capText),
      Some(f[Feature].items),
      if Truthy(sort) then Some(sort) else None,
      if Truthy(sort) then Some("asc") else None,
      page,
      PageSize)
  }

  /** The texts of the ticked capacities, in the order they were ticked. */
  function CapacityTexts(caps: seq<Val>, showNumber: real -> string): (r: seq<string>)
    ensures |r| == |caps|
    ensures forall i :: 0 <= i < |caps| ==> r[i] == ValText(caps[i], showNumber)
  {
    seq(|caps|, i requires 0 <= i < |caps| => ValText(caps[i], showNumber))
  }

  /**
   * The capacity text reaches the server intact: when some capacity is ticked
   * and no value's text contains a comma, splitting the sent text on commas
   * gives back the ticked values' texts, in order.
   */
  lemma CapacityReachesServer(f: Filters, query: string, page: int, showNumber: real -> string)
    requires WellShaped(f) && |f[Capacity].items| > 0
    requires forall v :: v in f[Capacity].items ==> ',' !in ValText(v, showNumber)
    ensures Split(DeriveParams(f, query, page, showNumber).capacity.value, ',')
      == CapacityTexts(f[Capacity].items, showNumber)
  {
    var texts := CapacityTexts(f[Capacity].items, showNumber);
    forall k | 0 <= k < |texts| ensures ',' !in texts[k] {
      assert f[Capacity].items[k] in f[Capacity].items;
    }
    SplitJoin(texts, ',');
  }

  /**
   * The first request of a fresh page: no code, no sort and no order, empty
   * class and feature lists, and an empty capacity text, for page 1.
   */
  lemma FirstRequest(showNumber: real -> string)
    ensures WellShaped(Initial)
    ensures DeriveParams(Initial, "", 1, showNumber)
      == RequestParams(None, Some([]), Some(""), Some([]), None, None, 1, PageSize)
  {
    assert CapacityTexts([], showNumber) == [];
  }

  /** The list component's state. */
  datatype Pager = Pager(products: seq<Product>, loading: bool, error: string, page: int, hasMore: bool)

  /** The state the component mounts with: nothing loaded, page 1, more expected. */
  const Start: Pager := Pager([], false, "", 1, true)

  /** The start of the fetch effect: loading, with the previous error cleared; the list and page stay. */
  function FetchStarted(s: Pager): (r: Pager)
    ensures r.loading && r.error == ""
    ensures r.products == s.products && r.page == s.page && r.hasMore == s.hasMore
  {
    s.(loading := true, error := "")
  }

  /**
   * While a fetch runs, the first page shows the loading text in place of
   * the list, and a later page keeps the list on screen with a spinner
   * under it when more was expected.
   */
  lemma StartedShowsProgress(s: Pager)
    ensures s.page == 1 ==> Render(FetchStarted(s)) == LoadingView
    ensures s.page != 1 && |s.products| > 0 && s.hasMore ==> Render(FetchStarted(s)) == Grid(s.products, Spinner)
    ensures s.page != 1 && |s.products| == 0 ==> Render(FetchStarted(s)) == EmptyView
  {
  }

  /**
   * On mount the list shows the empty notice, the first fetch replaces it by
   * the loading text, and no sequence of events takes the page below 1.
   */
  lemma StartBehaviour(events: seq<Event>)
    ensures Render(Start) == EmptyView
    ensures Render(FetchStarted(Start)) == LoadingView
    ensures Run(Start, events).page >= 1
  {
    PageStaysPositive(Start, events);
  }

  /**
   * A successful fetch issued for page `requested`: page 1 replaces the list,
   * any later page is appended after what is already shown; there is more to
   * load exactly when a full page arrived.
   */
  function FetchSucceeded(s: Pager, requested: int, data: seq<Product>): (r: Pager)
    ensures requested == 1 ==> r.products == data
    ensures requested != 1 ==> (|r.products| == |s.products| + |data|
      && r.products[..|s.products|] == s.products && r.products[|s.products|..] == data)
    ensures r.hasMore <==> |data| == PageSize
    ensures !r.loading && r.page == s.page && r.error == s.error
  {
    var products := if requested == 1 then data else s.products + data;
    s.(products := products, hasMore := |data| == PageSize, loading := false)
  }

  /** A failed fetch: the fixed message is shown and loading always ends; the list is kept. */
  function FetchFailed(s: Pager): (r: Pager)
    ensures r.error == LoadError && !r.loading
    ensures r.products == s.products && r.page == s.page && r.hasMore == s.hasMore
  {
    s.(error := LoadError, loading := false)
  }

  /** `handleLoadMore`: one page further when there is more, no change otherwise. */
  function LoadMore(s: Pager): (r: Pager)
    ensures s.hasMore ==> r.page == s.page + 1
    ensures !s.hasMore ==> r == s
    ensures r.products == s.products && r.hasMore == s.hasMore && r.loading == s.loading
    ensures r.error == s.error
  {
    if s.hasMore then s.(page := s.page + 1) else s
  }

  /** The effect on `[filters, query]`: back to the first page. */
  function FiltersChanged(s: Pager): (r: Pager)
    ensures r.page == 1
    ensures r.products == s.products && r.hasMore == s.hasMore
    ensures r.loading == s.loading && r.error == s.error
  {
    s.(page := 1)
  }

  /** What can happen to the list, one event at a time. */
  datatype Event =
    | Changed
    | MoreClicked
    | Started
    | Succeeded(requested: int, data: seq<Product>)
    | Failed

  function Step(s: Pager, e: Event): Pager
  {
    match e
    case Changed => FiltersChanged(s)
    case MoreClicked => LoadMore(s)
    case Started => FetchStarted(s)
    case Succeeded(requested, data) => FetchSucceeded(s, requested, data)
    case Failed => FetchFailed(s)
  }

  function Run(s: Pager, events: seq<Event>): Pager
    decreases |events|
  {
    if |events| == 0 then s else Run(Step(s, events[0]), events[1..])
  }

  /** The page number never drops below 1, whatever sequence of events arrives. */
  lemma {:induction false} PageStaysPositive(s: Pager, events: seq<Event>)
    requires s.page >= 1
    ensures Run(s, events).page >= 1
    decreases |events|
  {
    if |events| > 0 {
      PageStaysPositive(Step(s, events[0]), events[1..]);
    }
  }

  /** All batches, in order, as one list. */
  function Concat(batches: seq<seq<Product>>): seq<Product>
  {
    if |batches| == 0 then [] else Concat(batches[..|batches| - 1]) + batches[|batches| - 1]
  }

  /**
   * One browsing session after a filter change: the first page is fetched,
   * then each further batch is preceded by a "load more" click and fetched
   * for the page that click selected.
   */
  function Session(s: Pager, batches: seq<seq<Product>>): Pager
    requires |batches| > 0
    decreases |batches|
  {
    if |batches| == 1 then
      var reset := FiltersChanged(s);
      FetchSucceeded(FetchStarted(reset), reset.page, batches[0])
    else
      var next := LoadMore(Session(s, batches[..|batches| - 1]));
      FetchSucceeded(FetchStarted(next), next.page, batches[|batches| - 1])
  }

  /**
   * While every page but the last comes back full, the list shows all
   * batches in order, the page number counts the batches, and there is more
   * to load exactly when the last batch was full.
   */
  lemma {:induction false} SessionAccumulates(s: Pager, batches: seq<seq<Product>>)
    requires |batches| > 0
    requires forall i :: 0 <= i < |batches| - 1 ==> |batches[i]| == PageSize
    ensures Session(s, batches).products == Concat(batches)
    ensures Session(s, batches).page == |batches|
    ensures Session(s, batches).hasMore <==> |batches[|batches| - 1]| == PageSize
    ensures !Session(s, batches).loading && Session(s, batches).error == ""
    decreases |batches|
  {
    if |batches| > 1 {
      var init := batches[..|batches| - 1];
      SessionAccumulates(s, init);
      assert init[|init| - 1] == batches[|batches| - 2];
      assert |batches| - 2 < |batches| - 1;
      assert Concat(init[..|init|]) == Concat(init) by {
        assert init[..|init|] == init;
      }
    } else {
      assert batches[..0] == [];
    }
  }

  /** The more-control under the grid. */
  datatype MoreControl = NoMore | Spinner | MoreButton

  /** What the list shows. */
  datatype View = LoadingView | ErrorView(message: string) | EmptyView | Grid(products: seq<Product>, more: MoreControl)

  /**
   * The view, in priority order: the loading text while the first page
   * loads, then the error, then the empty notice, then the grid; under the
   * grid a spinner while loading and a button otherwise, only when there is more.
   */
  function Render(s: Pager): (v: View)
    ensures v == LoadingView <==> s.loading && s.page == 1
    ensures v.ErrorView? <==> !(s.loading && s.page == 1) && s.error != ""
    ensures v.ErrorView? ==> v.message == s.error
    ensures v == EmptyView <==> !(s.loading && s.page == 1) && s.error == "" && |s.products| == 0
    ensures v.Grid? ==> (v.products == s.products && |v.products| > 0
      && (v.more == NoMore <==> !s.hasMore)
      && (v.more == Spinner <==> s.hasMore && s.loading))
  {
    if s.loading && s.page == 1 then LoadingView
    else if s.error != "" then ErrorView(s.error)
    else if |s.products| == 0 then EmptyView
    else Grid(s.products, if !s.hasMore then NoMore else if s.loading then Spinner else MoreButton)
  }

  /** After a failed fetch the error is what the list shows. */
  lemma FailureShowsError(s: Pager)
    ensures Render(FetchFailed(s)) == ErrorView(LoadError)
  {
  }
}
