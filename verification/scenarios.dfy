/**
 * Concrete requests to `GET /api/products` and what the model says about them.
 */
module Scenarios {
  import opened Wrappers
  import opened JsStrings
  import opened RegexEscape
  import opened QueryTranslator
  import Listing
  import ProductModel
  import FilterPanel
  import ProductList

  /** A string with no white space at either end is its own trim. */
  lemma TrimPlain(s: string)
    requires |s| > 0 && !IsWhite(s[0]) && !IsWhite(s[|s| - 1])
    ensures Trim(s) == s
  {
    assert TrimStart(s) == s;
    assert TrimEnd(s) == s;
  }

  /** A single word without commas or surrounding white space is a segment list of one. */
  lemma OneSegment(s: string)
    requires |s| > 0 && !IsWhite(s[0]) && !IsWhite(s[|s| - 1]) && ',' !in s
    ensures Segments(s) == [s]
  {
    SplitFree(s, ',');
    TrimPlain(s);
  }

  /** `?sortBy=capacity&order=desc` sorts by capacity, descending, and by nothing else. */
  lemma SortCapacityDescending()
    ensures SortCriteria(Str("capacity"), Str("desc")) == Success([SortKey("capacity", -1)])
  {
    CapacitySegment();
    DescOrder();
    SortDistinct("capacity", Str("desc"));
    var r := SortCriteria(Str("capacity"), Str("desc"));
    assert |r.value| == 1 && r.value[0] == SortKey("capacity", Direction(["desc"], 0));
  }

  lemma CapacitySegment()
    ensures !AllWhite("capacity")
    ensures Segments("capacity") == ["capacity"]
    ensures Distinct(Segments("capacity"))
  {
    var f := "capacity";
    assert !IsWhite(f[0]);
    OneSegment(f);
  }

  lemma DescOrder()
    ensures Orders("desc") == ["desc"]
  {
    var o := "desc";
    OneSegment(o);
    assert ToLower(o) == o;
  }

  /**
   * `?sortBy=__proto__`: assigning to `__proto__` creates no key, so the
   * query sorts by nothing at all.
   */
  lemma SortByProtoIsEmpty()
    ensures SortCriteria(Str(ProtoKey), Absent) == Success([])
  {
    var f := ProtoKey;
    assert !IsWhite(f[0]) && !IsWhite(f[|f| - 1]) && ',' !in f;
    OneSegment(f);
    SortDistinct(f, Absent);
  }

  /** `?capacity=invalid`: no number parses, so no capacity condition is set and the request goes through. */
  lemma InvalidCapacityIgnored(q: Query, parseFloat: string -> Option<real>)
    requires q.capacity == Str("invalid") && parseFloat("invalid").None?
    requires q.sortBy.Absent?
    ensures CapacityFilter(q.capacity, parseFloat).None?
    ensures Translate(q, parseFloat).Success?
  {
    OneSegment("invalid");
  }

  /**
   * `GET /api/products?capacity=invalid` against the reference store: a 200
   * with `success: true`, and no documents when the collection is empty.
   */
  lemma InvalidCapacityAnswered(parseFloat: string -> Option<real>, sorted: seq<ProductModel.Product>, re: Listing.RegexMatcher)
    requires parseFloat("invalid").None?
    ensures var q := Query(Absent, Absent, Str("invalid"), Absent, Absent, Absent, Absent, Absent);
      var r := Listing.GetProducts(q, parseFloat, Listing.Store(sorted, re));
      && r.Ok? && r.status == 200 && r.body.success
      && (|sorted| == 0 ==> |r.body.data| == 0)
  {
    var q := Query(Absent, Absent, Str("invalid"), Absent, Absent, Absent, Absent, Absent);
    InvalidCapacityIgnored(q, parseFloat);
    var spec := Translate(q, parseFloat).value;
    assert spec.window.skip == 0;
    var db := Listing.Execute(sorted, spec, re);
    assert db.Rows?;
    assert Listing.Store(sorted, re)(spec) == db;
  }

  /**
   * With no capacity ticked the list sends the empty text, which the server
   * treats as no capacity condition at all.
   */
  lemma NoCapacityTicked(f: FilterPanel.Filters, query: string, page: int, showNumber: real -> string,
                         parseFloat: string -> Option<real>)
    requires FilterPanel.WellShaped(f) && |f[FilterPanel.Capacity].items| == 0
    ensures var sent := ProductList.DeriveParams(f, query, page, showNumber).capacity.value;
      CapacityFilter(Str(sent), parseFloat).None?
  {
  }

  /** A dot in a requested code is escaped so it only matches a dot. */
  lemma EscapeDot()
    ensures Escape("A.B") == "A\\.B"
  {
    assert IsSpecial('.');
    assert !IsSpecial('A') && !IsSpecial('B');
  }
}
