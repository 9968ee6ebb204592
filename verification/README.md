# Recruitment-App product catalogue — a Dafny model

The application is a small washing-machine shop. An Express/MongoDB back end serves
`GET /api/products`, and a React front end lets a shopper search by code, tick
filters, sort, page through results ("Pokaż więcej") and choose products for a cart.

This project models the core of both sides as pure Dafny functions and proves what they
guarantee.

- **Back end, request half** (`QueryTranslator`). `getProducts` turns the query string
  into a filter document:
  - the code regex, with special characters escaped;
  - the energy-class, capacity and feature conditions;
  - sort keys, zipped from `sortBy` and `order` with JavaScript object-key semantics
    (insertion order, last assignment wins, and `__proto__` creates no key);
  - a page window.
- **Back end, execution half** (`Listing`). The two store reads, the success envelope,
  the `CastError` → 400 branch and the hand-off of every other error to `next`. The
  store is a parameter. A reference store over an already-sorted collection (`Execute`)
  pins down what a conforming store returns.
- **The stored record** (`ProductModel`). The schema's required fields, the energy-class
  enum and the unique index on `code`.
- **Front end** (`FilterPanel`, `ProductCard`, `ProductList`):
  - the filter panel's checkbox and radio handlers, and which control is checked;
  - the card's cart toggle keyed by product code, its button, title and feature line;
  - the list's request parameters, its page/`hasMore` state machine, and the view it renders.
- **JavaScript primitives the code leans on** (`JsStrings`, `JsNumbers`, `RegexEscape`,
  `Seqs`). `trim`, `split`, `join`, ASCII case conversion, `parseInt(s, 10) || d`,
  `Math.ceil(a / b)`, the regex escaper and filter / filter-map.
- **Concrete requests** (`Scenarios`). Worked examples.

Inputs the model cannot compute itself are parameters:
- the store (`db: Spec -> DbResult`);
- `parseFloat` (`string -> Option<real>`, where `None` is `NaN`);
- JavaScript's number-to-text conversion (`real -> string`);
- the store's regex engine (`RegexMatcher`).

## Model

| member | source | states |
|---|---|---|
| JsStrings.Trim | be/src/controllers/productController.ts:32-33 | the trimmed text is a slice of the input that starts and ends with non-white-space, and everything cut from either end is white space |
| JsStrings.BlankIffAllWhite | be/src/controllers/productController.ts:32 | `s.trim() === ''` holds exactly when every character of `s` is white space |
| JsStrings.TrimIdempotent | be/src/controllers/productController.ts:32-33 | trimming an already trimmed value changes nothing, so the escaped code is the value the guard looked at |
| JsStrings.Split | be/src/controllers/productController.ts:42-44 | splitting on a comma gives one more piece than there are commas, and no piece contains a comma |
| JsStrings.JoinSplit | fe/src/components/products/index.tsx:25 | joining the comma-split pieces with commas gives back the original text |
| JsStrings.SplitJoin | be/src/controllers/productController.ts:50-51 | comma-joined values without commas split back into exactly those values, so the capacity list the front end joins reaches the back end element by element |
| JsStrings.SplitFree | be/src/controllers/productController.ts:50-51 | a value without a comma is a single segment |
| JsStrings.ToUpper | be/src/controllers/productController.ts:44 | upper-casing keeps the length, turns each lower-case letter into its upper-case partner (32 code points lower), leaves no lower-case letter and changes no other character |
| JsStrings.ToLower | be/src/controllers/productController.ts:79 | lower-casing keeps the length, turns each upper-case letter into its lower-case partner (32 code points higher), leaves no upper-case letter and changes no other character |
| JsStrings.CaseIdempotent | be/src/controllers/productController.ts:44 | converting the case twice is the same as once |
| JsStrings.CaseRoundTrip | be/src/controllers/productController.ts:44 | lower-casing an upper-cased text is lower-casing the text, and the mirror, so case conversion loses nothing but case |
| Seqs.Filter | fe/src/components/cards/Product/index.tsx:20 | the kept elements are exactly the input's elements that pass the test, and no more than the input has |
| Seqs.FilterAppend | fe/src/components/filters/index.tsx:66 | filtering a concatenation filters each part, so survivors keep their relative order |
| Seqs.FilterKeepsAll | fe/src/components/filters/index.tsx:66 | a filter every element passes returns the input unchanged |
| Seqs.FilterMap | be/src/controllers/productController.ts:50-53 | the parsed list is no longer than the segments, and every number in it comes from some segment |
| Seqs.FilterMapAppend | be/src/controllers/productController.ts:50-53 | map-then-drop-NaN distributes over concatenation and keeps the segments' order |
| Seqs.FilterMapEmpty | be/src/controllers/productController.ts:53-54 | the parsed list is empty exactly when no segment parses |
| Seqs.FilterMapKeeps | be/src/controllers/productController.ts:52-53 | every segment that parses contributes its number |
| JsNumbers.DigitPrefix | be/src/controllers/productController.ts:90 | `parseInt` reads the longest run of leading digits and stops at the first non-digit |
| JsNumbers.ParseInt | be/src/controllers/productController.ts:90-91 | `parseInt(s, 10)` is NaN exactly when no digit follows the leading white space and optional sign; otherwise it is the value of the leading digits, negated after a `-` |
| JsNumbers.DecimalValue | be/src/controllers/productController.ts:90 | reading back the decimal numeral of a natural number gives the number |
| JsNumbers.ParseIntShow | be/src/controllers/productController.ts:90-91 | `parseInt` of any integer's numeral, followed by anything that does not start with a digit, is that integer |
| JsNumbers.ParseIntSmall | be/src/controllers/productController.ts:20-21 | the default strings `'1'` and `'10'` parse to 1 and 10 |
| JsNumbers.IntOr | be/src/controllers/productController.ts:90-91 | `parseInt(s, 10)` with a fallback `d` for falsy results is never zero: NaN and 0 give the fallback, any other parsed value is kept |
| JsNumbers.CeilDiv | be/src/controllers/productController.ts:105 | `Math.ceil(a / b)` is the least integer q with a <= q*b for positive b, and the mirrored bound for negative b |
| RegexEscape.Escape | be/src/controllers/productController.ts:27-29 | each special character gains one backslash, so the result grows by the number of specials |
| RegexEscape.EscapeIsLiteral | be/src/controllers/productController.ts:27-29 | the escaped text has no bare metacharacter and every backslash quotes a special character |
| RegexEscape.UnescapeEscape | be/src/controllers/productController.ts:27-29 | removing the escapes gives back the input, so the pattern matches the typed text literally |
| RegexEscape.EscapeUnescape | be/src/controllers/productController.ts:27-29 | every literal pattern is the escape of its unescaped text |
| RegexEscape.EscapeInjective | be/src/controllers/productController.ts:27-29 | different inputs give different patterns |
| RegexEscape.EscapePlain | be/src/controllers/productController.ts:27-29 | text without special characters is left as it is |
| ProductModel.ParseEnergyClass | be/src/models/Product.ts:27-32 | the enum check accepts a string only when it is the letter of the class it yields |
| ProductModel.EnergyClassRoundTrip | be/src/models/Product.ts:27-32 | every class A–G passes the enum check as itself |
| ProductModel.Validate | be/src/models/Product.ts:6-34 | a document is accepted exactly when every required field is present, strings are non-empty and the energy class is in the enum; the stored product carries the submitted values; a rejection lists at least one path |
| ProductModel.ValidateReportsFields | be/src/models/Product.ts:6-34 | a refused document names exactly its missing top-level fields and reports an out-of-enum energy class with its value |
| ProductModel.ValidateToRaw | be/src/models/Product.ts:6-34 | every valid product, written as a document, validates back to itself |
| ProductModel.Insert | be/src/models/Product.ts:21 | the unique index refuses a product exactly when its code is taken, with a duplicate-key error on `code`; otherwise the product is appended and codes stay unique |
| QueryTranslator.NonBlank | be/src/controllers/productController.ts:37-41 | a parameter is used only when it is a single string that is not all white space |
| QueryTranslator.Segments | be/src/controllers/productController.ts:42-44 | one trimmed segment per comma-separated piece |
| QueryTranslator.CodeFilter | be/src/controllers/productController.ts:31-34 | a code condition is set exactly for a non-blank string; it is case-insensitive, and its pattern is literal and unescapes to the trimmed code |
| QueryTranslator.EnergyClassFilter | be/src/controllers/productController.ts:36-46 | set exactly for a non-blank string; one entry per segment, in order, trimmed and upper-cased |
| QueryTranslator.CapacityFilter | be/src/controllers/productController.ts:48-57 | set exactly when the value is a non-blank string and some segment parses; the list is the parsed segments in order with the unparsable ones dropped, so every number comes from a segment and every parsing segment is listed |
| QueryTranslator.ParsedNumbers | be/src/controllers/productController.ts:50-56 | the parsed capacities are non-empty iff some segment parses, and each parsed segment is among them |
| QueryTranslator.FeatureCondition | be/src/controllers/productController.ts:65-69 | the condition is `^`, a literal body that unescapes to the feature, then the trailing-symbols suffix, case-insensitive |
| QueryTranslator.FeaturesFilter | be/src/controllers/productController.ts:59-71 | set exactly for a non-blank string; one anchored condition per segment, in order |
| QueryTranslator.BuildFilter | be/src/controllers/productController.ts:24-71 | each key is the condition built from its own parameter; code, energy class and features are set exactly for non-blank string parameters, and capacity exactly for a non-blank string with a segment that parses; without these parameters the filter is empty |
| QueryTranslator.Direction | be/src/controllers/productController.ts:82 | a field sorts descending exactly when the order segment at its position is `desc`; a missing segment means ascending |
| QueryTranslator.Assign | be/src/controllers/productController.ts:83 | `sortCriteria[field] = dir` adds at most one key, and assigning `__proto__` changes nothing |
| QueryTranslator.AssignFields | be/src/controllers/productController.ts:83 | assigning a new key appends it; assigning an existing key, or `__proto__` (whose inherited setter ignores a number), keeps the key order |
| QueryTranslator.AssignLookup | be/src/controllers/productController.ts:83 | after `sortCriteria[field] = dir` the key holds `dir`, unless it is `__proto__`, and every other key is unchanged |
| QueryTranslator.FirstOccurrencesSpec | be/src/controllers/productController.ts:81-84 | the keys in first-assignment order are distinct and are exactly the fields mentioned other than `__proto__` |
| QueryTranslator.Zip | be/src/controllers/productController.ts:81-84 | after n assignments the sort object has at most n keys |
| QueryTranslator.ZipFields | be/src/controllers/productController.ts:81-84 | the sort object's keys are the distinct fields other than `__proto__`, in order of first appearance |
| QueryTranslator.ZipLastWins | be/src/controllers/productController.ts:81-84 | a repeated field takes the direction of its last occurrence, and a `__proto__` field creates no key |
| QueryTranslator.ZipAbsent | be/src/controllers/productController.ts:81-84 | a name not among the fields, and `__proto__`, is no key of the sort object |
| QueryTranslator.ZipDistinct | be/src/controllers/productController.ts:81-84 | with no repeated field, the sort object equals `Pairs`: each field other than `__proto__`, in order, with the direction at its own position |
| QueryTranslator.PairsPlain | be/src/controllers/productController.ts:81-84 | without `__proto__`, `Pairs` has one key per field, in order, each with its own direction |
| QueryTranslator.Orders | be/src/controllers/productController.ts:77-79 | one lower-cased, trimmed order segment per comma-separated piece |
| QueryTranslator.SortCriteria | be/src/controllers/productController.ts:74-87 | a missing or blank `sortBy` gives `{ name: 1 }`; a non-string `order` with a usable `sortBy` throws a TypeError; otherwise the keys are distinct and never `__proto__` |
| QueryTranslator.SortKeysDistinct | be/src/controllers/productController.ts:81-84 | a sort object never holds a key twice, nor a `__proto__` key |
| QueryTranslator.ParamText | be/src/controllers/productController.ts:90-91 | the text `parseInt` reads is the default for a missing parameter, the string itself for one string, the values joined by commas for a repeated key (so it starts with the first value), and has no leading digit for an object |
| QueryTranslator.Paginate | be/src/controllers/productController.ts:89-92 | page and size are the parsed parameters (defaults `'1'` and `'10'`) when those are numbers other than zero, and 1 and 10 when they are NaN or zero; skip is (page − 1) × size |
| QueryTranslator.PaginateNumerals | be/src/controllers/productController.ts:89-92 | a page and limit sent as decimal numerals are used as they are, and zero falls back to 1 or 10 |
| QueryTranslator.RepeatedPageReadsFirst | be/src/controllers/productController.ts:90 | `?page=2&page=3` reads the comma-joined text, so the first value decides the page, zero falling back to 1 |
| QueryTranslator.Translate | be/src/controllers/productController.ts:13-92 | the translation fails only through the sort TypeError; otherwise it carries the filter, sort and page window built from the same query |
| QueryTranslator.SortKeyOrder | be/src/controllers/productController.ts:75-84 | for a usable `sortBy` and a string or missing `order`, the keys are the distinct trimmed fields in first-appearance order |
| QueryTranslator.SortLastWins | be/src/controllers/productController.ts:76-84 | each field's direction is descending exactly when the order segment at its last position is `desc`; a `__proto__` field gets no key |
| QueryTranslator.SortDistinct | be/src/controllers/productController.ts:76-84 | without repeated fields the sort keys are `Pairs` of the fields; without `__proto__` too, they are the fields, in order, with their own directions |
| Listing.MakeEnvelope | be/src/controllers/productController.ts:100-107 | the envelope reports success, the page's length as `count`, the total, the page number and `Math.ceil(total / limit)` pages: the least count covering the total for a positive limit, and the mirrored bound for a negative one |
| Listing.GetProducts | be/src/controllers/productController.ts:94-117 | a store result gives a 200 envelope of that page; a CastError gives a 400 naming the path; every other error, including the sort TypeError, goes to `next` |
| Listing.Execute | be/src/controllers/productController.ts:94-98 | the reference store refuses a negative skip, counts every match, returns at most the page size, and returns only matching products from the collection |
| Listing.ListingBounds | be/src/controllers/productController.ts:94-107 | against a conforming store a 200 holds no more than the page size, only matching products, and the full match count |
| Listing.ListedProductsMatch | be/src/controllers/productController.ts:36-57 | every listed product has one of the requested energy classes and capacities when those filters are set |
| FilterPanel.ToggleList | fe/src/components/filters/index.tsx:61-74 | the value is present afterwards exactly when it was absent, other values keep their membership, and a new value goes last |
| FilterPanel.ToggleKeepsOrder | fe/src/components/filters/index.tsx:66 | unticking keeps the remaining values in their original order |
| FilterPanel.ToggleCheckbox | fe/src/components/filters/index.tsx:57-75 | the section's list is toggled and every other section is unchanged |
| FilterPanel.SetRadio | fe/src/components/filters/index.tsx:77-85 | the section holds exactly the chosen value and every other section is unchanged |
| FilterPanel.HandlersKeepShape | fe/src/components/filters/index.tsx:104-121 | each section's handler keeps the filter state's declared shape |
| FilterPanel.RadioIdempotent | fe/src/components/filters/index.tsx:81-84 | choosing the same sort twice equals choosing it once |
| FilterPanel.ToggleTwice | fe/src/components/filters/index.tsx:61-74 | ticking and unticking a clear box restores the state exactly |
| FilterPanel.Checked | fe/src/components/filters/index.tsx:109-120 | a radio is checked when the section holds that value, a checkbox when its list contains it |
| FilterPanel.Click | fe/src/components/filters/index.tsx:104-121 | a click keeps the state well shaped |
| FilterPanel.ClickEffect | fe/src/components/filters/index.tsx:104-121 | a click checks its radio or flips its checkbox and changes no other section's controls |
| FilterPanel.RadioExclusive | fe/src/components/filters/index.tsx:104-110 | after choosing a sort, exactly that sort option is checked |
| FilterPanel.InitialUnchecked | fe/src/contexts/filters.tsx:32-37 | the starting state is well shaped, with no box ticked and no offered sort option chosen |
| FilterPanel.SectionsDistinct | fe/src/components/filters/index.tsx:16-52 | the panel offers each of the four sections exactly once |
| ProductCard.InCart | fe/src/components/cards/Product/index.tsx:24 | a code is in the cart exactly when some chosen product carries it |
| ProductCard.AddToCart | fe/src/components/cards/Product/index.tsx:15-17 | the product goes after every item already chosen, which stay as they were |
| ProductCard.RemoveFromCart | fe/src/components/cards/Product/index.tsx:19-22 | no item with the product's code remains; every other item stays and nothing new appears |
| ProductCard.RemoveKeepsOrder | fe/src/components/cards/Product/index.tsx:20 | removal keeps the remaining items in order |
| ProductCard.RemoveAbsent | fe/src/components/cards/Product/index.tsx:20 | removing a code that is not in the cart changes nothing |
| ProductCard.HandleAddToCart | fe/src/components/cards/Product/index.tsx:24-28 | pressing the button flips whether the code is in the cart and keeps every other item: a product not yet in the cart is appended at the end, and one already in it has every item with its code removed, the rest keeping their order |
| ProductCard.HandleTwice | fe/src/components/cards/Product/index.tsx:24-28 | pressing the button twice on an unchosen product restores the cart |
| ProductCard.ButtonFor | fe/src/components/cards/Product/index.tsx:84-87 | a chosen product shows `Wybrano` in the secondary style, any other `Wybierz` in the primary style |
| ProductCard.ButtonSwitches | fe/src/components/cards/Product/index.tsx:26-27 | every press switches the button's caption |
| ProductCard.Title | fe/src/components/cards/Product/index.tsx:12 | the title starts with the code and a comma and ends with the colour |
| ProductCard.TitleParts | fe/src/components/cards/Product/index.tsx:12 | split on commas, the title gives back the code, the name, the capacity followed by `kg`, and the colour, each but the first after a space, when no part has a comma |
| ProductCard.TitleLeadsWithCode | fe/src/components/cards/Product/index.tsx:12 | the title's first comma-separated part is the product code |
| ProductCard.FeaturesText | fe/src/components/cards/Product/index.tsx:13 | one feature is shown as itself and none as the empty text |
| ProductCard.FeaturesTextSpaced | fe/src/components/cards/Product/index.tsx:13 | joining with `", "` is joining with `","` after a space before every feature but the first |
| ProductCard.FeaturesRecoverable | fe/src/components/cards/Product/index.tsx:13 | the feature line splits and trims back into the features when none has a comma or surrounding white space |
| ProductList.DeriveParams | fe/src/components/products/index.tsx:22-31 | `code` is sent exactly for a non-empty search; the list filters are always sent; the capacity text is the ticked values' texts joined by commas, empty when none is ticked; `sortBy` is the chosen sort and `order=asc` only when one is chosen; the page passes through with a limit of 10 |
| ProductList.CapacityReachesServer | fe/src/components/products/index.tsx:25 | with some capacity ticked and no comma in any value's text, the sent text splits back into the ticked values' texts in order |
| ProductList.FirstRequest | fe/src/components/products/index.tsx:22-31 | the first request from the starting filters sends no code, sort or order, empty lists and an empty capacity text for page 1 |
| ProductList.FetchStarted | fe/src/components/products/index.tsx:19-20 | a fetch turns loading on and clears the error, and keeps the list, the page and whether more is expected |
| ProductList.StartedShowsProgress | fe/src/components/products/index.tsx:17-97 | while a fetch runs, page 1 shows the loading text and a later page keeps its list with a spinner when more was expected |
| ProductList.StartBehaviour | fe/src/components/products/index.tsx:11-15 | on mount the list shows the empty notice, the first fetch shows the loading text, and no events take the page below 1 |
| ProductList.FetchSucceeded | fe/src/components/products/index.tsx:33-38 | page 1 replaces the list, later pages append after what is shown, there is more exactly when a full page came back, and loading ends |
| ProductList.FetchFailed | fe/src/components/products/index.tsx:39-43 | a failure shows the fixed message, ends loading and keeps the list |
| ProductList.LoadMore | fe/src/components/products/index.tsx:49-53 | the page advances by one exactly when there is more, and nothing else changes: list, loading, error and whether more is expected stay |
| ProductList.FiltersChanged | fe/src/components/products/index.tsx:55-57 | a filter or search change goes back to page 1 and changes nothing else: list, loading, error and whether more is expected stay |
| ProductList.PageStaysPositive | fe/src/components/products/index.tsx:14 | from page 1, no sequence of events brings the page below 1 |
| ProductList.SessionAccumulates | fe/src/components/products/index.tsx:17-57 | after a filter change and a run of "load more" clicks with full pages, the list is all batches in order, the page counts the batches and there is more exactly when the last batch was full |
| ProductList.Render | fe/src/components/products/index.tsx:59-99 | loading text only while page 1 loads, then the error, then the empty notice, then the grid with a spinner or a button only when there is more |
| ProductList.FailureShowsError | fe/src/components/products/index.tsx:39-65 | after a failed fetch the error message is what is shown |
| Scenarios.SortCapacityDescending | be/tests/product.test.ts:290-345 | `sortBy=capacity&order=desc` gives the single key capacity, descending |
| Scenarios.SortByProtoIsEmpty | be/src/controllers/productController.ts:81-84 | `sortBy=__proto__` gives an empty sort object |
| Scenarios.InvalidCapacityIgnored | be/tests/product.test.ts:347-356 | `capacity=invalid` sets no capacity condition and the query translates without error |
| Scenarios.InvalidCapacityAnswered | be/tests/product.test.ts:347-356 | `GET /api/products?capacity=invalid` against the reference store is a 200 with `success: true`, and holds no documents when the collection is empty |
| Scenarios.NoCapacityTicked | fe/src/components/products/index.tsx:25 | with no capacity ticked the list sends the empty text, and the server sets no capacity condition for it |
| Scenarios.EscapeDot | be/src/controllers/productController.ts:27-29 | a dot in a code is escaped so it only matches a dot |

## Left out

- The document store's query engine is a parameter: its sorting, regex matching, type casting and index maintenance. `Execute` is a reference engine over a collection already in sort order and does not sort.
- `parseFloat` and JavaScript's number-to-text conversion are parameters. Floating-point rounding is not modelled: capacities and prices are `real`.
- `JsNumbers.ParseIntShow`: integers are unbounded. `parseInt` on numerals beyond 2^53 loses precision in JavaScript, and the model does not capture that.
- `JsNumbers.ParseInt`: the value of a long digit run is exact here; JavaScript rounds it to a double beyond 2^53.
- `QueryTranslator.Paginate`: page, size and skip are exact integers; JavaScript's doubles round them beyond 2^53.
- `QueryTranslator.CapacityFilter`: `parseFloat` results are reals, so `Infinity` and `-Infinity` have no counterpart. The source keeps them, because it drops only `NaN`: `capacity=Infinity` sets a condition `$in: [Infinity]` that lists nothing. Here such a segment has to be modelled as not parsing (no condition) or as some finite number.
- `JsStrings.ToUpper` and `JsStrings.ToLower` convert only the ASCII letters. JavaScript's full Unicode case mapping (for example `ß` to `SS`, which changes length) is not modelled.
- JavaScript enumerates integer-like object keys (such as `sortBy=2`) before other keys. The sort-key order here is plain insertion order.
- Query values are missing, one string, a list of strings, or an object. Objects nested inside lists, and the exact `toString` of an object inside a list, are not distinguished.
- A negative `page` makes `skip` negative. The store's refusal is modelled as a non-cast error that goes to `next`, as `Execute` does. The real store's message and error name are not modelled.
- `FilterPanel.ToggleList` does not state that unticking shortens the list.
- Axios serialises the list-valued parameters as repeated `energyClass[]=` keys (`fe/src/services/api.ts`), and the back end ignores anything that is not a single string. `DeriveParams` models the parameters as built; the HTTP serialisation between the two sides is not part of this model.
- `ProductModel.Validate`: the `features` array is always present because Mongoose defaults arrays to `[]`. Mongoose's casting of numbers, dates and strings is not modelled: dates are integers and numbers are reals.
- Requests are processed one at a time. React's asynchronous effect ordering, overlapping fetches and the search debounce are not modelled. `Session` fixes the order fetch → response → click.
- Prices are shown as currency text, and validity dates with `toLocaleDateString`; neither is modelled.
- Not part of this model:
  - Express routing, the server start-up and the generic error handler (`be/src/app.ts`, `be/src/server.ts`, `be/src/middleware/errorHandler.ts`);
  - the seed script;
  - the dropdown, search box and app shell components.
