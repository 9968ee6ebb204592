/**
 * The request-parameter half of `getProducts`: how the optional query-string
 * values become a filter document, a list of sort keys and a page window.
 */
module QueryTranslator {
  import opened Wrappers
  import opened JsStrings
  import opened JsNumbers
  import opened Seqs
  import opened RegexEscape

  /**
   * One query-string value as the request parser hands it over: missing, a
   * single string, a repeated key (`?k=a&k=b`), or a bracketed key
   * (`?k[x]=a`), which becomes an object.
   */
  datatype QueryValue = Absent | Str(s: string) | List(items: seq<string>) | Obj

  /** The recognised parameters of `GET /api/products`. */
  datatype Query = Query(
    code: QueryValue, energyClass: QueryValue, capacity: QueryValue, features: QueryValue,
    sortBy: QueryValue, order: QueryValue, page: QueryValue, limit: QueryValue)

  /** A thrown JavaScript error: its `name` and, for cast errors, the offending `path`. */
  datatype JsError = JsError(name: string, path: string)

  /**
   * The guard `v && typeof v === 'string' && v.trim() !== ''`: a value is used
   * as a filter only when it is a single string that is not blank.
   */
  function NonBlank(v: QueryValue): (r: Option<string>)
    ensures r.Some? <==> v.Str? && !AllWhite(v.s)
    ensures r.Some? ==> r.value == v.s
  {
    BlankIffAllWhite(if v.Str? then v.s else "");
    if v.Str? && Trim(v.s) != "" then Some(v.s) else None
  }

  /** The comma-separated segments of a parameter, each trimmed. */
  function Segments(s: string): (r: seq<string>)
    ensures |r| == Count(',', s) + 1
    ensures forall i :: 0 <= i < |r| ==> r[i] == Trim(Split(s, ',')[i])
  {
    var parts := Split(s, ',');
    seq(|parts|, i requires 0 <= i < |parts| => Trim(parts[i]))
  }

  /** A regular-expression condition: the pattern source and its flags. */
  datatype Regex = Regex(pattern: string, flags: string)

  /** The filter document; a `None` field means the key is not set. */
  datatype Filter = Filter(
    code: Option<Regex>,
    energyClass: Option<seq<string>>,
    capacity: Option<seq<real>>,
    features: Option<seq<Regex>>)

  /**
   * `code`: the trimmed value, escaped so that it matches literally, searched
   * case-insensitively; no key when the value is not a non-blank string.
   */
  function CodeFilter(code: QueryValue): (r: Option<Regex>)
    ensures r.Some? <==> code.Str? && !AllWhite(code.s)
    ensures r.Some? ==>
      && r.value.flags == "i"
      && LiteralPattern(r.value.pattern)
      && Unescape(r.value.pattern) == Trim(code.s)
  {
    match NonBlank(code)
    case Some(s) =>
      EscapeIsLiteral(Trim(s));
      UnescapeEscape(Trim(s));
      Some(Regex(Escape(Trim(s)), "i"))
    case None => None
  }

  /**
   * `energyClass`: one entry per comma-separated segment, in order, trimmed
   * and upper-cased; no key when the value is not a non-blank string.
   */
  function EnergyClassFilter(energyClass: QueryValue): (r: Option<seq<string>>)
    ensures r.Some? <==> energyClass.Str? && !AllWhite(energyClass.s)
    ensures r.Some? ==>
      var parts := Split(energyClass.s, ',');
      && |r.value| == |parts|
      && forall i :: 0 <= i < |parts| ==> r.value[i] == ToUpper(Trim(parts[i]))
  {
    match NonBlank(energyClass)
    case Some(s) =>
      var segs := Segments(s);
      Some(seq(|segs|, i requires 0 <= i < |segs| => ToUpper(segs[i])))
    case None => None
  }

  /**
   * `capacity`: each trimmed segment is parsed as a number and the ones that
   * do not parse are dropped; the key is set exactly when at least one
   * segment parses, and then every listed number comes from some segment and
   * every segment that parses is listed.
   */
  function CapacityFilter(capacity: QueryValue, parseFloat: string -> Option<real>): (r: Option<seq<real>>)
    ensures r.Some? <==>
      capacity.Str? && !AllWhite(capacity.s)
      && exists i :: 0 <= i < |Segments(capacity.s)| && parseFloat(Segments(capacity.s)[i]).Some?
    ensures r.Some? ==>
      var segs := Segments(capacity.s);
      && r.value == FilterMap(parseFloat, segs)
      && |r.value| > 0
      && (forall x :: x in r.value ==> exists t :: t in segs && parseFloat(t) == Some(x))
      && (forall i :: 0 <= i < |segs| && parseFloat(segs[i]).Some? ==> parseFloat(segs[i]).value in r.value)
  {
    match NonBlank(capacity)
    case Some(s) =>
      var segs := Segments(s);
      var numbers := FilterMap(parseFloat, segs);
      ParsedNumbers(parseFloat, segs);
      if |numbers| > 0 then Some(numbers) else None
    case None => None
  }

  /** The numbers that survive parsing: non-empty iff some segment parses, and each parsed segment is among them. */
  lemma ParsedNumbers(parseFloat: string -> Option<real>, segs: seq<string>)
    ensures |FilterMap(parseFloat, segs)| > 0 <==> exists i :: 0 <= i < |segs| && parseFloat(segs[i]).Some?
    ensures forall i :: 0 <= i < |segs| && parseFloat(segs[i]).Some? ==> parseFloat(segs[i]).value in FilterMap(parseFloat, segs)
  {
    FilterMapEmpty(parseFloat, segs);
    forall i | 0 <= i < |segs| && parseFloat(segs[i]).Some? ensures parseFloat(segs[i]).value in FilterMap(parseFloat, segs) {
      FilterMapKeeps(parseFloat, segs, i);
    }
  }

  /** The suffix that lets a stored feature carry trailing symbols such as `™`. */
  const FeatureSuffix: string := "(?:\\W*)$"

  /** The anchored, case-insensitive condition built for one requested feature. */
  function FeatureCondition(token: string): (r: Regex)
    ensures r.flags == "i"
    ensures |r.pattern| == 1 + |Escape(token)| + |FeatureSuffix|
    ensures r.pattern[0] == '^' && r.pattern[|r.pattern| - |FeatureSuffix|..] == FeatureSuffix
    ensures LiteralPattern(r.pattern[1..|r.pattern| - |FeatureSuffix|])
    ensures Unescape(r.pattern[1..|r.pattern| - |FeatureSuffix|]) == token
  {
    var body := Escape(token);
    var p := "^" + body + FeatureSuffix;
    assert p[1..|p| - |FeatureSuffix|] == body;
    EscapeIsLiteral(token);
    UnescapeEscape(token);
    Regex(p, "i")
  }

  /**
   * `features`: one condition per comma-separated segment, in order, all of
   * which must hold; no key when the value is not a non-blank string.
   */
  function FeaturesFilter(features: QueryValue): (r: Option<seq<Regex>>)
    ensures r.Some? <==> features.Str? && !AllWhite(features.s)
    ensures r.Some? ==>
      var parts := Split(features.s, ',');
      && |r.value| == |parts|
      && forall i :: 0 <= i < |parts| ==> r.value[i] == FeatureCondition(Trim(parts[i]))
  {
    match NonBlank(features)
    case Some(s) =>
      var segs := Segments(s);
      Some(seq(|segs|, i requires 0 <= i < |segs| => FeatureCondition(segs[i])))
    case None => None
  }

  /**
   * The whole filter document: each key is the condition built from its own
   * parameter. `code`, `energyClass` and `features` are set exactly when
   * their parameter is a non-blank string, and `capacity` exactly when it is
   * one with a segment that parses; a request without these parameters
   * filters nothing.
   */
  function BuildFilter(q: Query, parseFloat: string -> Option<real>): (r: Filter)
    ensures r.code.Some? <==> q.code.Str? && !AllWhite(q.code.s)
    ensures r.energyClass.Some? <==> q.energyClass.Str? && !AllWhite(q.energyClass.s)
    ensures r.code == CodeFilter(q.code) && r.energyClass == EnergyClassFilter(q.energyClass)
    ensures r.capacity == CapacityFilter(q.capacity, parseFloat) && r.features == FeaturesFilter(q.features)
    ensures r.capacity.Some? <==>
      && q.capacity.Str? && !AllWhite(q.capacity.s)
      && exists i :: 0 <= i < |Segments(q.capacity.s)| && parseFloat(Segments(q.capacity.s)[i]).Some?
    ensures r.features.Some? <==> q.features.Str? && !AllWhite(q.features.s)
    ensures q.code.Absent? && q.energyClass.Absent? && q.capacity.Absent? && q.features.Absent?
      ==> r == Filter(None, None, None, None)
  {
    Filter(CodeFilter(q.code), EnergyClassFilter(q.energyClass),
           CapacityFilter(q.capacity, parseFloat), FeaturesFilter(q.features))
  }

  /** One sort key: a field and `1` (ascending) or `-1` (descending). */
  datatype SortKey = SortKey(field: string, direction: int)

  /** The sort used when `sortBy` is missing or blank. */
  const DefaultSort: seq<SortKey> := [SortKey("name", 1)]

  /** `sortOrders[i] === 'desc' ? -1 : 1`; a missing segment means ascending. */
  function Direction(orders: seq<string>, i: nat): (d: int)
    ensures d == -1 <==> i < |orders| && orders[i] == "desc"
    ensures d == 1 || d == -1
  {
    if i < |orders| && orders[i] == "desc" then -1 else 1
  }

  /** The keys of a sort object, in enumeration order. */
  function Fields(crit: seq<SortKey>): (r: seq<string>)
    ensures |r| == |crit|
    ensures forall k {:trigger r[k]} :: 0 <= k < |crit| ==> r[k] == crit[k].field
    decreases |crit|
  {
    if |crit| == 0 then [] else [crit[0].field] + Fields(crit[1..])
  }

  /** The direction stored under `field`, if the sort object has that key. */
  function Lookup(crit: seq<SortKey>, field: string): (r: Option<int>)
    ensures r.None? <==> field !in Fields(crit)
    decreases |crit|
  {
    if |crit| == 0 then None
    else if crit[0].field == field then Some(crit[0].direction)
    else Lookup(crit[1..], field)
  }

  predicate Distinct(s: seq<string>) {
    forall k, l :: 0 <= k < l < |s| ==> s[k] != s[l]
  }

  /**
   * The one name whose assignment on a plain object creates no key: it is the
   * accessor inherited from `Object.prototype`, and its setter ignores a number.
   */
  const ProtoKey: string := "__proto__"

  /**
   * `sortCriteria[field] = dir` on a JavaScript object: a new key goes last,
   * an existing key keeps its place, and `__proto__` is ignored.
   */
  function Assign(crit: seq<SortKey>, field: string, dir: int): (r: seq<SortKey>)
    ensures field == ProtoKey ==> r == crit
    ensures |r| == |crit| || |r| == |crit| + 1
    decreases |crit|
  {
    if field == ProtoKey then crit
    else if |crit| == 0 then [SortKey(field, dir)]
    else if crit[0].field == field then [SortKey(field, dir)] + crit[1..]
    else [crit[0]] + Assign(crit[1..], field, dir)
  }

  /**
   * Assigning a new key appends it; assigning an existing key, or
   * `__proto__`, leaves the key order alone.
   */
  lemma {:induction false} AssignFields(crit: seq<SortKey>, field: string, dir: int)
    ensures field != ProtoKey && field !in Fields(crit) ==> Assign(crit, field, dir) == crit + [SortKey(field, dir)]
    ensures Fields(Assign(crit, field, dir))
      == if field == ProtoKey || field in Fields(crit) then Fields(crit) else Fields(crit) + [field]
    decreases |crit|
  {
    var r := Assign(crit, field, dir);
    if field == ProtoKey || |crit| == 0 {
    } else if crit[0].field == field {
      assert Fields(r)[0] == field;
      assert Fields(r) == Fields(crit);
    } else {
      AssignFields(crit[1..], field, dir);
      assert r[1..] == Assign(crit[1..], field, dir);
      assert Fields(crit) == [crit[0].field] + Fields(crit[1..]);
      assert field in Fields(crit) <==> field in Fields(crit[1..]);
      if field !in Fields(crit) {
        assert crit == [crit[0]] + crit[1..];
      }
    }
  }

  /**
   * After the assignment the key holds the new value, unless it is
   * `__proto__`; every other key is unchanged.
   */
  lemma {:induction false} AssignLookup(crit: seq<SortKey>, field: string, dir: int, f: string)
    ensures Lookup(Assign(crit, field, dir), f)
      == if f == field && field != ProtoKey then Some(dir) else Lookup(crit, f)
    decreases |crit|
  {
    if field != ProtoKey && |crit| > 0 && crit[0].field != field {
      AssignLookup(crit[1..], field, dir, f);
      var r := Assign(crit, field, dir);
      assert r[1..] == Assign(crit[1..], field, dir);
    }
  }

  /**
   * JavaScript's key order for repeated assignments: each key at its first
   * assignment, and no `__proto__` key.
   */
  function FirstOccurrences(s: seq<string>): seq<string>
    decreases |s|
  {
    if |s| == 0 then []
    else
      var d := FirstOccurrences(s[..|s| - 1]);
      if s[|s| - 1] == ProtoKey || s[|s| - 1] in d then d else d + [s[|s| - 1]]
  }

  /** The first occurrences are distinct and are exactly the members of the input other than `__proto__`. */
  lemma {:induction false} FirstOccurrencesSpec(s: seq<string>)
    ensures Distinct(FirstOccurrences(s))
    ensures forall x :: x in FirstOccurrences(s) <==> x in s && x != ProtoKey
    decreases |s|
  {
    if |s| > 0 {
      FirstOccurrencesSpec(s[..|s| - 1]);
      assert s == s[..|s| - 1] + [s[|s| - 1]];
    }
  }

  /** The sort object after the first `n` fields have been assigned, in order. */
  function Zip(fields: seq<string>, orders: seq<string>, n: nat): (r: seq<SortKey>)
    requires n <= |fields|
    ensures |r| <= n
    decreases n
  {
    if n == 0 then []
    else Assign(Zip(fields, orders, n - 1), fields[n - 1], Direction(orders, n - 1))
  }

  /** The keys of the sort object are the distinct fields other than `__proto__`, in the order they first appear. */
  lemma {:induction false} ZipFields(fields: seq<string>, orders: seq<string>, n: nat)
    requires n <= |fields|
    ensures Fields(Zip(fields, orders, n)) == FirstOccurrences(fields[..n])
    decreases n
  {
    if n > 0 {
      ZipFields(fields, orders, n - 1);
      AssignFields(Zip(fields, orders, n - 1), fields[n - 1], Direction(orders, n - 1));
      assert fields[..n][..n - 1] == fields[..n - 1];
    }
  }

  /**
   * A field's direction comes from its last occurrence: when no later field
   * repeats `fields[i]`, the key `fields[i]` holds `Direction(orders, i)`;
   * a `__proto__` field has no key.
   */
  lemma {:induction false} ZipLastWins(fields: seq<string>, orders: seq<string>, n: nat, i: nat)
    requires i < n <= |fields|
    requires forall j :: i < j < n ==> fields[j] != fields[i]
    ensures Lookup(Zip(fields, orders, n), fields[i])
      == if fields[i] == ProtoKey then None else Some(Direction(orders, i))
    decreases n
  {
    var prev := Zip(fields, orders, n - 1);
    AssignLookup(prev, fields[n - 1], Direction(orders, n - 1), fields[i]);
    if i < n - 1 {
      ZipLastWins(fields, orders, n - 1, i);
    } else if fields[i] == ProtoKey {
      ZipAbsent(fields, orders, n - 1, ProtoKey);
    }
  }

  /** A name that is not among the fields, or is `__proto__`, has no key. */
  lemma {:induction false} ZipAbsent(fields: seq<string>, orders: seq<string>, n: nat, f: string)
    requires n <= |fields|
    requires f !in fields[..n] || f == ProtoKey
    ensures Lookup(Zip(fields, orders, n), f).None?
    decreases n
  {
    if n > 0 {
      var prev := Zip(fields, orders, n - 1);
      assert fields[..n] == fields[..n - 1] + [fields[n - 1]];
      assert f != ProtoKey ==> f !in fields[..n - 1] && f != fields[n - 1];
      ZipAbsent(fields, orders, n - 1, f);
      AssignLookup(prev, fields[n - 1], Direction(orders, n - 1), f);
    }
  }

  /**
   * An independent description of the sort object for fields that never
   * repeat: each field other than `__proto__`, in order, with the direction
   * at its own position.
   */
  function Pairs(fields: seq<string>, orders: seq<string>, n: nat): seq<SortKey>
    requires n <= |fields|
    decreases n
  {
    if n == 0 then []
    else
      var last := if fields[n - 1] == ProtoKey then [] else [SortKey(fields[n - 1], Direction(orders, n - 1))];
      Pairs(fields, orders, n - 1) + last
  }

  /** With no repeated field, the sort object is exactly `Pairs`. */
  lemma {:induction false} ZipDistinct(fields: seq<string>, orders: seq<string>, n: nat)
    requires n <= |fields|
    requires Distinct(fields)
    ensures Zip(fields, orders, n) == Pairs(fields, orders, n)
    decreases n
  {
    if n > 0 {
      ZipDistinct(fields, orders, n - 1);
      if fields[n - 1] != ProtoKey {
        ZipFresh(fields, orders, n);
        ZipAppends(fields, orders, n);
      }
    }
  }

  /** Without `__proto__` among them, `Pairs` lists every field in order, each with its own direction. */
  lemma {:induction false} PairsPlain(fields: seq<string>, orders: seq<string>, n: nat)
    requires n <= |fields|
    ensures ProtoKey !in fields[..n] ==>
      && |Pairs(fields, orders, n)| == n
      && forall i :: 0 <= i < n ==> Pairs(fields, orders, n)[i] == SortKey(fields[i], Direction(orders, i))
    decreases n
  {
    if n > 0 && ProtoKey !in fields[..n] {
      assert fields[..n] == fields[..n - 1] + [fields[n - 1]];
      PairsPlain(fields, orders, n - 1);
      ExtendKeys(fields, orders, Pairs(fields, orders, n - 1), n);
    }
  }

  lemma ExtendKeys(fields: seq<string>, orders: seq<string>, prev: seq<SortKey>, n: nat)
    requires 0 < n <= |fields| && |prev| == n - 1
    requires forall i :: 0 <= i < n - 1 ==> prev[i] == SortKey(fields[i], Direction(orders, i))
    ensures var r := prev + [SortKey(fields[n - 1], Direction(orders, n - 1))];
      forall i :: 0 <= i < n ==> r[i] == SortKey(fields[i], Direction(orders, i))
  {
  }

  lemma ZipAppends(fields: seq<string>, orders: seq<string>, n: nat)
    requires 0 < n <= |fields| && fields[n - 1] != ProtoKey
    requires fields[n - 1] !in Fields(Zip(fields, orders, n - 1))
    ensures Zip(fields, orders, n) == Zip(fields, orders, n - 1) + [SortKey(fields[n - 1], Direction(orders, n - 1))]
  {
    AssignFields(Zip(fields, orders, n - 1), fields[n - 1], Direction(orders, n - 1));
  }

  lemma ZipFresh(fields: seq<string>, orders: seq<string>, n: nat)
    requires 0 < n <= |fields| && Distinct(fields)
    ensures fields[n - 1] !in Fields(Zip(fields, orders, n - 1))
  {
    var pre := fields[..n - 1];
    ZipFields(fields, orders, n - 1);
    FirstOccurrencesSpec(pre);
    forall k | 0 <= k < |pre| ensures pre[k] != fields[n - 1] {
      assert pre[k] == fields[k];
    }
    assert fields[n - 1] !in pre;
  }

  /** The lower-cased, trimmed `order` segments. */
  function Orders(order: string): (r: seq<string>)
    ensures |r| == Count(',', order) + 1
    ensures forall i :: 0 <= i < |r| ==> r[i] == ToLower(Trim(Split(order, ',')[i]))
  {
    var segs := Segments(order);
    seq(|segs|, i requires 0 <= i < |segs| => ToLower(segs[i]))
  }

  /** The sort object for the given fields and `order` text. */
  function SortKeys(fields: seq<string>, order: string): seq<SortKey>
  {
    Zip(fields, Orders(order), |fields|)
  }

  /**
   * Sort keys for `sortBy`/`order`: the trimmed `sortBy` segments zipped with
   * the trimmed, lower-cased `order` segments; `order` defaults to `asc` when
   * absent, and a non-string `order` makes `.split` throw a `TypeError`.
   * A missing or blank `sortBy` gives the default sort, whatever `order` is.
   */
  function SortCriteria(sortBy: QueryValue, order: QueryValue): (r: Result<seq<SortKey>, JsError>)
    ensures NonBlank(sortBy).None? ==> r == Success(DefaultSort)
    ensures r.Failure? <==> NonBlank(sortBy).Some? && (order.List? || order.Obj?)
    ensures r.Failure? ==> r.error.name == "TypeError"
    ensures r.Success? ==> Distinct(Fields(r.value))
    ensures r.Success? ==> ProtoKey !in Fields(r.value)
  {
    match NonBlank(sortBy)
    case None => Success(DefaultSort)
    case Some(s) =>
      var fields := Segments(s);
      match order
      case List(_) => Failure(JsError("TypeError", ""))
      case Obj => Failure(JsError("TypeError", ""))
      case Absent =>
        SortKeysDistinct(fields, "asc");
        Success(SortKeys(fields, "asc"))
      case Str(o) =>
        SortKeysDistinct(fields, o);
        Success(SortKeys(fields, o))
  }

  /** A sort object never has the same key twice. */
  lemma SortKeysDistinct(fields: seq<string>, order: string)
    ensures Distinct(Fields(SortKeys(fields, order)))
    ensures ProtoKey !in Fields(SortKeys(fields, order))
  {
    ZipFields(fields, Orders(order), |fields|);
    FirstOccurrencesSpec(fields);
    assert fields[..|fields|] == fields;
  }

  /** The page window: 1-based page number, page size, and documents to skip. */
  datatype Pagination = Pagination(page: int, limit: int, skip: int)

  /**
   * The text `parseInt` reads from a parameter: the default when the
   * parameter is missing, and JavaScript's string conversion otherwise (a
   * repeated key becomes its values joined by commas).
   */
  function ParamText(v: QueryValue, default: string): (r: string)
    ensures v.Absent? ==> r == default
    ensures v.Str? ==> r == v.s
    ensures v.List? ==> r == Join(v.items, ",")
    ensures v.List? && |v.items| > 0 ==> |v.items[0]| <= |r| && r[..|v.items[0]|] == v.items[0]
    ensures v.Obj? ==> ParseInt(r).None?
  {
    match v
    case Absent => default
    case Str(s) => s
    case List(items) =>
      var r := Join(items, ",");
      assert |items| > 1 ==> r == items[0] + ("," + Join(items[1..], ","));
      r
    case Obj =>
      var r := "[object Object]";
      assert !IsWhite(r[0]) && r[0] == '[';
      assert TrimStart(r) == r;
      r
  }

  /**
   * `pageNumber = parseInt(page, 10) || 1`, `pageSize = parseInt(limit, 10) || 10`
   * and `skip = (pageNumber - 1) * pageSize`.
   */
  function Paginate(page: QueryValue, limit: QueryValue): (r: Pagination)
    ensures var n := ParseInt(ParamText(page, "1"));
      && (n.Some? && n.value != 0 ==> r.page == n.value)
      && (n.None? || n == Some(0) ==> r.page == 1)
    ensures var n := ParseInt(ParamText(limit, "10"));
      && (n.Some? && n.value != 0 ==> r.limit == n.value)
      && (n.None? || n == Some(0) ==> r.limit == 10)
    ensures r.page != 0 && r.limit != 0
    ensures r.skip == (r.page - 1) * r.limit
    ensures page.Absent? ==> r.page == 1
    ensures limit.Absent? ==> r.limit == 10
  {
    var pageNumber := IntOr(ParamText(page, "1"), 1);
    var pageSize := IntOr(ParamText(limit, "10"), 10);
    assert page.Absent? ==> pageNumber == 1 by {
      if page.Absent? { ParseIntOne(); }
    }
    assert limit.Absent? ==> pageSize == 10 by {
      if limit.Absent? { ParseIntTen(); }
    }
    Pagination(pageNumber, pageSize, (pageNumber - 1) * pageSize)
  }

  /**
   * A page and a limit written as decimal numerals are used as they are,
   * unless one of them is zero, which falls back to the default.
   */
  lemma PaginateNumerals(p: int, l: int)
    ensures var r := Paginate(Str(Show(p)), Str(Show(l)));
      && r.page == (if p != 0 then p else 1)
      && r.limit == (if l != 0 then l else 10)
      && r.skip == (r.page - 1) * r.limit
  {
    ParseIntShow(p, "");
    ParseIntShow(l, "");
    assert Show(p) + "" == Show(p);
    assert Show(l) + "" == Show(l);
  }

  /**
   * A repeated `page` key (`?page=2&page=3`) reaches `parseInt` as the
   * comma-joined text, so the first value decides the page.
   */
  lemma RepeatedPageReadsFirst(p: int, rest: seq<string>)
    ensures Paginate(List([Show(p)] + rest), Absent).page == (if p != 0 then p else 1)
  {
    var items := [Show(p)] + rest;
    var text := Join(items, ",");
    if |rest| == 0 {
      assert text == Show(p) + "";
      ParseIntShow(p, "");
    } else {
      assert items[1..] == rest;
      assert text == Show(p) + ("," + Join(rest, ","));
      ParseIntShow(p, "," + Join(rest, ","));
    }
  }

  /** Everything the listing needs from the request. */
  datatype Spec = Spec(filter: Filter, sort: seq<SortKey>, window: Pagination)

  /** The whole translation; it fails only through the `TypeError` of `SortCriteria`. */
  function Translate(q: Query, parseFloat: string -> Option<real>): (r: Result<Spec, JsError>)
    ensures r.Failure? <==> SortCriteria(q.sortBy, q.order).Failure?
    ensures r.Success? ==>
      && r.value.filter == BuildFilter(q, parseFloat)
      && r.value.sort == SortCriteria(q.sortBy, q.order).value
      && r.value.window == Paginate(q.page, q.limit)
  {
    match SortCriteria(q.sortBy, q.order)
    case Failure(e) => Failure(e)
    case Success(sort) => Success(Spec(BuildFilter(q, parseFloat), sort, Paginate(q.page, q.limit)))
  }

  /**
   * With a non-blank `sortBy` and a string or missing `order`, the keys are
   * the distinct trimmed `sortBy` segments in first-appearance order.
   */
  lemma SortKeyOrder(sortBy: string, order: QueryValue)
    requires !AllWhite(sortBy)
    requires order.Absent? || order.Str?
    ensures SortCriteria(Str(sortBy), order).Success?
    ensures Fields(SortCriteria(Str(sortBy), order).value) == FirstOccurrences(Segments(sortBy))
  {
    var fields := Segments(sortBy);
    SortUnfold(sortBy, order);
    ZipFields(fields, Orders(if order.Str? then order.s else "asc"), |fields|);
    assert fields[..|fields|] == fields;
  }

  /**
   * The last occurrence of each `sortBy` field decides its direction:
   * descending (`-1`) exactly when the `order` segment at the same position,
   * trimmed and lower-cased, is `desc` (see `Direction`). A `__proto__`
   * field gets no key.
   */
  lemma SortLastWins(sortBy: string, order: QueryValue, i: nat)
    requires !AllWhite(sortBy)
    requires order.Absent? || order.Str?
    requires i < |Segments(sortBy)|
    requires forall j :: i < j < |Segments(sortBy)| ==> Segments(sortBy)[j] != Segments(sortBy)[i]
    ensures SortCriteria(Str(sortBy), order).Success?
    ensures Lookup(SortCriteria(Str(sortBy), order).value, Segments(sortBy)[i])
      == if Segments(sortBy)[i] == ProtoKey then None
         else Some(Direction(Orders(if order.Str? then order.s else "asc"), i))
  {
    var fields := Segments(sortBy);
    SortUnfold(sortBy, order);
    ZipLastWins(fields, Orders(if order.Str? then order.s else "asc"), |fields|, i);
  }

  lemma SortUnfold(sortBy: string, order: QueryValue)
    requires !AllWhite(sortBy)
    requires order.Absent? || order.Str?
    ensures var fields := Segments(sortBy);
      SortCriteria(Str(sortBy), order)
        == Success(Zip(fields, Orders(if order.Str? then order.s else "asc"), |fields|))
  {
    assert NonBlank(Str(sortBy)) == Some(sortBy);
  }

  /**
   * Without repeated fields the sort keys are `Pairs` of the fields; without
   * `__proto__` as well, they are exactly the fields, in order, with their
   * own directions.
   */
  lemma SortDistinct(sortBy: string, order: QueryValue)
    requires !AllWhite(sortBy)
    requires order.Absent? || order.Str?
    requires Distinct(Segments(sortBy))
    ensures var r := SortCriteria(Str(sortBy), order);
      var fields := Segments(sortBy);
      var orders := Orders(if order.Str? then order.s else "asc");
      && r.Success?
      && r.value == Pairs(fields, orders, |fields|)
      && (ProtoKey !in fields ==>
        && |r.value| == |fields|
        && forall i :: 0 <= i < |fields| ==> r.value[i] == SortKey(fields[i], Direction(orders, i)))
  {
    var fields := Segments(sortBy);
    var orders := Orders(if order.Str? then order.s else "asc");
    SortUnfold(sortBy, order);
    ZipWhole(fields, orders);
  }

  /** `ZipDistinct` and `PairsPlain` for the whole field list. */
  lemma ZipWhole(fields: seq<string>, orders: seq<string>)
    requires Distinct(fields)
    ensures var z := Zip(fields, orders, |fields|);
      && z == Pairs(fields, orders, |fields|)
      && (ProtoKey !in fields ==>
        && |z| == |fields|
        && forall i :: 0 <= i < |fields| ==> z[i] == SortKey(fields[i], Direction(orders, i)))
  {
    ZipDistinct(fields, orders, |fields|);
    PairsPlain(fields, orders, |fields|);
    assert fields[..|fields|] == fields;
  }
}
