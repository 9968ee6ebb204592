/**
 * The executing half of `getProducts`: the two reads against the product
 * collection, the success envelope, and the classification of failures.
 * The document store itself is a parameter; a reference engine over a
 * collection already in sort order states what a conforming store returns.
 */
module Listing {
  import opened Wrappers
  import opened JsNumbers
  import Seqs
  import opened ProductModel
  import opened QueryTranslator

  /** What the store answers for one translated request: the match count and the page, or a thrown error. */
  datatype DbResult = Rows(total: nat, data: seq<Product>) | DbFailure(error: JsError)

  /** The JSON body of a successful listing. */
  datatype Envelope = Envelope(success: bool, count: nat, total: nat, page: int, pages: int, data: seq<Product>)

  /**
   * The three ways the handler ends: a 200 with the envelope, a 400 naming the
   * offending parameter, or handing the error to the next middleware.
   */
  datatype Response =
    | Ok(status: int, body: Envelope)
    | BadRequest(status: int, success: bool, error: string)
    | Next(thrown: JsError)

  const CastErrorPrefix: string := "Invalid query parameter: "

  /**
   * The envelope for a page of `data` out of `total` matches; `pages` is
   * `Math.ceil(total / limit)`, so for a negative limit it is zero or below.
   */
  function MakeEnvelope(total: nat, data: seq<Product>, window: Pagination): (e: Envelope)
    requires window.limit != 0
    ensures e.success && e.count == |data| && e.data == data && e.total == total
    ensures e.page == window.page
    ensures window.limit > 0 ==> (e.pages - 1) * window.limit < total <= e.pages * window.limit
    ensures window.limit < 0 ==> e.pages * window.limit <= total < (e.pages - 1) * window.limit
  {
    Envelope(true, |data|, total, window.page, CeilDiv(total, window.limit), data)
  }

  /**
   * `getProducts`: translate the request, ask the store, and answer. A
   * `CastError` from the store becomes a 400 with the path it names; every
   * other error (including the `TypeError` of a non-string `order`) goes to
   * the next handler.
   */
  function GetProducts(q: Query, parseFloat: string -> Option<real>, db: Spec -> DbResult): (r: Response)
    ensures Translate(q, parseFloat).Failure? ==> r == Next(Translate(q, parseFloat).error)
    ensures Translate(q, parseFloat).Success? ==>
      var spec := Translate(q, parseFloat).value;
      match db(spec)
      case Rows(total, data) =>
        && r.Ok? && r.status == 200 && r.body.success
        && r.body.count == |data| && r.body.data == data && r.body.total == total
        && r.body.page == spec.window.page
        && r.body.pages == CeilDiv(total, spec.window.limit)
      case DbFailure(e) =>
        if e.name == "CastError" then r == BadRequest(400, false, CastErrorPrefix + e.path)
        else r == Next(e)
  {
    match Translate(q, parseFloat)
    case Failure(e) => Next(e)
    case Success(spec) =>
      match db(spec)
      case Rows(total, data) => Ok(200, MakeEnvelope(total, data, spec.window))
      case DbFailure(e) =>
        if e.name == "CastError" then BadRequest(400, false, CastErrorPrefix + e.path)
        else Next(e)
  }

  /** Whether the store's regular-expression engine finds `re` in `text`; left abstract. */
  type RegexMatcher = (Regex, string) -> bool

  /**
   * What the filter document selects: every key that is set must hold. An
   * `$in` list holds when the field's value is listed; a regular expression on
   * the `features` array holds when some element matches; the `$and` list
   * needs every condition.
   */
  predicate Matches(f: Filter, p: Product, re: RegexMatcher) {
    && (f.code.Some? ==> re(f.code.value, p.code))
    && (f.energyClass.Some? ==> Letter(p.energyClass) in f.energyClass.value)
    && (f.capacity.Some? ==> p.capacity in f.capacity.value)
    && (f.features.Some? ==>
          forall c :: c in f.features.value ==> exists x :: x in p.features && re(c, x))
  }

  /**
   * A reference store: `countDocuments(filter)` and
   * `find(filter).skip(skip).limit(limit)` over a collection already in the
   * requested sort order. A negative skip is refused by the store; a
   * negative limit counts as its absolute value and a zero limit means no limit.
   */
  function Execute(sorted: seq<Product>, spec: Spec, re: RegexMatcher): (r: DbResult)
    ensures spec.window.skip < 0 <==> r.DbFailure?
    ensures r.DbFailure? ==> r.error.name != "CastError"
    ensures r.Rows? ==>
      && r.total == |Seqs.Filter(p => Matches(spec.filter, p, re), sorted)|
      && (spec.window.limit != 0 ==> |r.data| <= Abs(spec.window.limit))
      && forall p :: p in r.data ==> p in sorted && Matches(spec.filter, p, re)
  {
    if spec.window.skip < 0 then DbFailure(JsError("MongoServerError", "skip"))
    else
      var matching := Seqs.Filter(p => Matches(spec.filter, p, re), sorted);
      var from := if spec.window.skip < |matching| then spec.window.skip else |matching|;
      var size := if spec.window.limit == 0 then |matching| else Abs(spec.window.limit);
      var upto := if from + size < |matching| then from + size else |matching|;
      assert forall p :: p in matching[from..upto] ==> p in matching;
      Rows(|matching|, matching[from..upto])
  }

  function Abs(n: int): nat { if n < 0 then -n else n }

  /** The reference store as the handler sees it. */
  function Store(sorted: seq<Product>, re: RegexMatcher): Spec -> DbResult
  {
    s => Execute(sorted, s, re)
  }

  /**
   * Against a conforming store, a successful listing never holds more
   * documents than the page size, every document it holds satisfies every
   * filter the request set, and `total` counts all matches.
   */
  lemma ListingBounds(q: Query, parseFloat: string -> Option<real>, sorted: seq<Product>, re: RegexMatcher)
    ensures var r := GetProducts(q, parseFloat, Store(sorted, re));
      r.Ok? ==>
        var spec := Translate(q, parseFloat).value;
        && r.body.count == |r.body.data| <= Abs(spec.window.limit)
        && r.body.total == |Seqs.Filter(p => Matches(spec.filter, p, re), sorted)|
        && forall p :: p in r.body.data ==> p in sorted && Matches(spec.filter, p, re)
  {
  }

  /**
   * Every product in a successful listing has one of the requested energy
   * classes, and one of the requested capacities, when those filters were set.
   */
  lemma ListedProductsMatch(q: Query, parseFloat: string -> Option<real>, sorted: seq<Product>, re: RegexMatcher, p: Product)
    ensures var r := GetProducts(q, parseFloat, Store(sorted, re));
      var f := BuildFilter(q, parseFloat);
      r.Ok? && p in r.body.data ==>
        && (f.energyClass.Some? ==> Letter(p.energyClass) in f.energyClass.value)
        && (f.capacity.Some? ==> p.capacity in f.capacity.value)
  {
    ListingBounds(q, parseFloat, sorted, re);
  }
}
