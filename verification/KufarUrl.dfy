/**
 * Listing URLs: parsing one into a canonical query and printing a query as a URL. Here a URL is its
 * protocol, its host, its decoded path segments and its parameters; `KufarUrlText` adds the text.
 */
module KufarUrl {
  import opened Basics
  import opened CanonicalQueries

  datatype UrlError = InvalidUrl | UnsupportedProtocol | ForeignHost | NotListingUrl | InvalidSellerFilter

  datatype Url = Url(protocol: string, host: string, path: seq<string>, params: seq<(string, string)>)

  const REAL_ESTATE_HOST := "re.kufar.by"
  const SELLER_MARKER := "bez-posrednikov"
  const SELLER_PARAM := "cmp"
  const PAGINATION_PARAMS: set<string> := {"cursor", "size"}
  const REAL_ESTATE_OPERATIONS: set<string> := {"kupit", "snyat"}

  datatype PathSemantics = PathSemantics(
    category: Option<string>,
    query: Option<string>,
    region: Option<string>,
    sellerType: Option<SellerType>,
    operation: Option<string>,
    pathFilters: seq<string>)

  const EMPTY_PATH := PathSemantics(None, None, None, None, None, [])

  predicate StartsWith(value: string, prefix: string) { prefix <= value }

  predicate EndsWith(value: string, suffix: string) {
    |suffix| <= |value| && value[|value| - |suffix|..] == suffix
  }

  predicate IsKufarHostname(host: string) { host == "kufar.by" || EndsWith(host, ".kufar.by") }

  // ----- specification of the parser

  function GoodsStep(result: PathSemantics, segment: string): PathSemantics {
    if StartsWith(segment, "r~") then result.(region := Some(segment[2..]))
    else if StartsWith(segment, "q~") then result.(query := Some(segment[2..]))
    else if segment == SELLER_MARKER then result.(sellerType := Some(Private))
    else if result.category.None? then result.(category := Some(segment))
    else result.(pathFilters := result.pathFilters + [segment])
  }

  function GoodsFrom(result: PathSemantics, segments: seq<string>): PathSemantics
    decreases |segments|
  {
    if segments == [] then result else GoodsFrom(GoodsStep(result, segments[0]), segments[1..])
  }

  function RealEstateStart(segments: seq<string>): PathSemantics {
    if segments == [] then EMPTY_PATH
    else if segments[0] in REAL_ESTATE_OPERATIONS then EMPTY_PATH.(operation := Some(segments[0]))
    else EMPTY_PATH.(region := Some(segments[0]))
  }

  function RealEstateStep(result: PathSemantics, segment: string): PathSemantics {
    if result.operation.None? && segment in REAL_ESTATE_OPERATIONS then result.(operation := Some(segment))
    else if segment == SELLER_MARKER then result.(sellerType := Some(Private))
    else if result.category.None? then result.(category := Some(segment))
    else result.(pathFilters := result.pathFilters + [segment])
  }

  function RealEstateFrom(result: PathSemantics, segments: seq<string>): PathSemantics
    decreases |segments|
  {
    if segments == [] then result else RealEstateFrom(RealEstateStep(result, segments[0]), segments[1..])
  }

  function RealEstate(segments: seq<string>): PathSemantics {
    RealEstateFrom(RealEstateStart(segments), if segments == [] then [] else segments[1..])
  }

  datatype QueryParams = QueryParams(
    sort: Option<string>,
    sellerType: Option<SellerType>,
    extraParams: ExtraParams)

  const NO_PARAMS := QueryParams(None, None, [])

  function ParseSellerParam(value: string): Result<SellerType, UrlError> {
    if value == "0" || value == "false" then Ok(Private)
    else if value == "1" || value == "true" then Ok(Company)
    else Err(InvalidSellerFilter)
  }

  function MergeSellerType(current: Option<SellerType>, next: SellerType): Result<SellerType, UrlError> {
    if current.Some? && current.value != next then Err(InvalidSellerFilter) else Ok(next)
  }

  function AddExtra(params: seq<Param>, key: string, value: string): (r: seq<Param>)
    ensures Keys(r) == Keys(params) + {key}
  {
    if params == [] then
      assert Param(key, [value]) in [Param(key, [value])];
      [Param(key, [value])]
    else
      KeysCons(params[0], params[1..]);
      assert params == [params[0]] + params[1..];
      if params[0].key == key then
        KeysCons(Param(key, params[0].values + [value]), params[1..]);
        [Param(key, params[0].values + [value])] + params[1..]
      else
        KeysCons(params[0], AddExtra(params[1..], key, value));
        [params[0]] + AddExtra(params[1..], key, value)
  }

  lemma KeysCons(first: Param, rest: seq<Param>)
    ensures Keys([first] + rest) == {first.key} + Keys(rest)
  {
    assert ([first] + rest)[0] == first;
    forall p | p in rest ensures p in [first] + rest {}
  }

  lemma DistinctCons(first: Param, rest: seq<Param>)
    ensures DistinctKeys([first] + rest) <==> first.key !in Keys(rest) && DistinctKeys(rest)
  {
    var all := [first] + rest;
    if DistinctKeys(all) {
      forall j | 0 <= j < |rest| ensures rest[j].key != first.key {
        assert all[j + 1] == rest[j] && all[0] == first;
      }
      forall i, j | 0 <= i < j < |rest| ensures rest[i].key != rest[j].key {
        assert all[i + 1] == rest[i] && all[j + 1] == rest[j];
      }
    }
    if first.key !in Keys(rest) && DistinctKeys(rest) {
      forall i, j | 0 <= i < j < |all| ensures all[i].key != all[j].key {
        assert all[j] == rest[j - 1] && rest[j - 1] in rest;
        assert i > 0 ==> all[i] == rest[i - 1];
      }
    }
  }

  lemma {:induction false} AddExtraDistinct(params: seq<Param>, key: string, value: string)
    requires DistinctKeys(params)
    ensures DistinctKeys(AddExtra(params, key, value))
  {
    hide DistinctKeys, Keys;
    if params == [] {
      assert DistinctKeys([Param(key, [value])]) by { SingleDistinct(Param(key, [value])); }
    } else {
      var rest := params[1..];
      assert params == [params[0]] + rest;
      DistinctCons(params[0], rest);
      if params[0].key == key {
        DistinctCons(Param(key, params[0].values + [value]), rest);
      } else {
        AddExtraDistinct(rest, key, value);
        DistinctCons(params[0], AddExtra(rest, key, value));
      }
    }
  }

  lemma SingleDistinct(p: Param)
    ensures DistinctKeys([p])
  {
  }

  function ParamStep(result: QueryParams, key: string, value: string): Result<QueryParams, UrlError> {
    if key in PAGINATION_PARAMS then Ok(result)
    else if key == "sort" then Ok(if result.sort.None? then result.(sort := Some(value)) else result)
    else if key == SELLER_PARAM then
      var parsed := ParseSellerParam(value);
      if parsed.Err? then Err(parsed.error) else
        var merged := MergeSellerType(result.sellerType, parsed.value);
        if merged.Err? then Err(merged.error) else Ok(result.(sellerType := Some(merged.value)))
    else
      AddExtraDistinct(result.extraParams, key, value);
      Ok(result.(extraParams := AddExtra(result.extraParams, key, value)))
  }

  function ParamsFrom(result: QueryParams, params: seq<(string, string)>): Result<QueryParams, UrlError>
    decreases |params|
  {
    if params == [] then Ok(result) else
      var next := ParamStep(result, params[0].0, params[0].1);
      if next.Err? then next else ParamsFrom(next.value, params[1..])
  }

  function NonEmpty(path: seq<string>): (r: seq<string>)
    ensures forall s :: s in r <==> s in path && s != []
  {
    if path == [] then [] else (if path[0] == [] then [] else [path[0]]) + NonEmpty(path[1..])
  }

  /** The listing route behind a host that is accepted. */
  function ParseListing(host: string, segments: seq<string>, params: seq<(string, string)>): Result<CanonicalQuery, UrlError> {
    if segments == [] || segments[0] != "l" then Err(NotListingUrl)
    else
      var path := if host == REAL_ESTATE_HOST then RealEstate(segments[1..]) else GoodsFrom(EMPTY_PATH, segments[1..]);
      var params := ParamsFrom(NO_PARAMS, params);
      if params.Err? then Err(params.error) else
        var seller := if params.value.sellerType.None? then Ok(path.sellerType) else
                        var merged := MergeSellerType(path.sellerType, params.value.sellerType.value);
                        if merged.Err? then Err(merged.error) else Ok(Some(merged.value));
        if seller.Err? then Err(seller.error) else
          Ok(CanonicalQuery(host, path.category, path.query, path.region, seller.value,
                            params.value.sort, path.operation, path.pathFilters, params.value.extraParams))
  }

  function ParseUrl(url: Url): Result<CanonicalQuery, UrlError> {
    if url.protocol != "http:" && url.protocol != "https:" then Err(UnsupportedProtocol)
    else if !IsKufarHostname(url.host) then Err(ForeignHost)
    else ParseListing(url.host, NonEmpty(url.path), url.params)
  }

  // ----- the parser as written

  method ParseGoodsPath(segments: seq<string>) returns (result: PathSemantics)
    ensures result == GoodsFrom(EMPTY_PATH, segments)
  {
    result := EMPTY_PATH;
    var i := 0;
    assert segments[0..] == segments;
    while i < |segments|
      invariant i <= |segments|
      invariant GoodsFrom(EMPTY_PATH, segments) == GoodsFrom(result, segments[i..])
    {
      var segment := segments[i];
      i := i + 1;
      if StartsWith(segment, "r~") {
        result := result.(region := Some(segment[2..]));
        continue;
      }
      if StartsWith(segment, "q~") {
        result := result.(query := Some(segment[2..]));
        continue;
      }
      if segment == SELLER_MARKER {
        result := result.(sellerType := Some(Private));
        continue;
      }
      if result.category.None? {
        result := result.(category := Some(segment));
        continue;
      }
      result := result.(pathFilters := result.pathFilters + [segment]);
    }
  }

  method ParseRealEstatePath(segments: seq<string>) returns (result: PathSemantics)
    ensures result == RealEstate(segments)
  {
    result := EMPTY_PATH;
    if segments == [] {
      return;
    }
    if segments[0] in REAL_ESTATE_OPERATIONS {
      result := result.(operation := Some(segments[0]));
    } else {
      result := result.(region := Some(segments[0]));
    }
    var remaining := segments[1..];
    var categoryFound := false;
    var i := 0;
    assert remaining[0..] == remaining;
    while i < |remaining|
      invariant i <= |remaining|
      invariant categoryFound <==> result.category.Some?
      invariant RealEstate(segments) == RealEstateFrom(result, remaining[i..])
    {
      var segment := remaining[i];
      i := i + 1;
      if result.operation.None? && segment in REAL_ESTATE_OPERATIONS {
        result := result.(operation := Some(segment));
        continue;
      }
      if segment == SELLER_MARKER {
        result := result.(sellerType := Some(Private));
        continue;
      }
      if !categoryFound {
        result := result.(category := Some(segment));
        categoryFound := true;
        continue;
      }
      result := result.(pathFilters := result.pathFilters + [segment]);
    }
  }

  method ParseQueryParams(params: seq<(string, string)>) returns (r: Result<QueryParams, UrlError>)
    ensures r == ParamsFrom(NO_PARAMS, params)
  {
    var result := NO_PARAMS;
    var i := 0;
    assert params[0..] == params;
    while i < |params|
      invariant i <= |params|
      invariant ParamsFrom(NO_PARAMS, params) == ParamsFrom(result, params[i..])
    {
      var (key, value) := params[i];
      i := i + 1;
      if key in PAGINATION_PARAMS {
        continue;
      }
      if key == "sort" {
        if result.sort.None? {
          result := result.(sort := Some(value));
        }
        continue;
      }
      if key == SELLER_PARAM {
        var parsed := ParseSellerParam(value);
        if parsed.Err? {
          return Err(parsed.error);
        }
        var merged := MergeSellerType(result.sellerType, parsed.value);
        if merged.Err? {
          return Err(merged.error);
        }
        result := result.(sellerType := Some(merged.value));
        continue;
      }
      AddExtraDistinct(result.extraParams, key, value);
      result := result.(extraParams := AddExtra(result.extraParams, key, value));
    }
    r := Ok(result);
  }

  // ----- the printer

  function Optional(value: Option<string>, prefix: string): seq<string> {
    if value.None? then [] else [prefix + value.value]
  }

  function Marker(sellerType: Option<SellerType>): seq<string> {
    if sellerType == Some(Private) then [SELLER_MARKER] else []
  }

  function BuildListingPath(query: CanonicalQuery): seq<string> {
    ["l"] + if query.host == REAL_ESTATE_HOST then
      Optional(query.region, "") + Optional(query.operation, "") + Optional(query.category, "")
      + query.pathFilters + Marker(query.sellerType)
    else
      Optional(query.region, "r~") + Optional(query.category, "") + query.pathFilters
      + Marker(query.sellerType) + Optional(query.query, "q~")
  }

  function Pairs(key: string, values: seq<string>): seq<(string, string)> {
    if values == [] then [] else [(key, values[0])] + Pairs(key, values[1..])
  }

  predicate IsExtraKey(key: string) { key !in PAGINATION_PARAMS && key != "sort" && key != SELLER_PARAM }

  /** `appendSortedParams` over `canonicalExtras` */
  function ExtraPairs(params: seq<Param>, keys: seq<string>): seq<(string, string)> {
    if keys == [] then [] else
      (if IsExtraKey(keys[0]) then Pairs(keys[0], Lookup(params, keys[0])) else [])
      + ExtraPairs(params, keys[1..])
  }

  function BuildParams(query: CanonicalQuery): seq<(string, string)> {
    (if query.sort.None? then [] else [("sort", query.sort.value)])
    + (if query.sellerType == Some(Company) then [(SELLER_PARAM, "1")] else [])
    + ExtraPairs(query.extraParams, SortedKeys(query.extraParams))
  }

  function BuildKufarListingUrl(query: CanonicalQuery): Url {
    Url("https:", query.host, BuildListingPath(query), BuildParams(query))
  }

  // ----- what the parser can produce

  predicate PlainGoods(segment: string) {
    segment != [] && segment != SELLER_MARKER && !StartsWith(segment, "r~") && !StartsWith(segment, "q~")
  }

  ghost predicate GoodsShape(p: PathSemantics) {
    && p.operation.None?
    && p.sellerType != Some(Company)
    && (p.category.Some? ==> PlainGoods(p.category.value))
    && (p.category.None? ==> p.pathFilters == [])
    && forall s | s in p.pathFilters :: PlainGoods(s)
  }

  ghost predicate RealEstateShape(p: PathSemantics) {
    && p.query.None?
    && p.sellerType != Some(Company)
    && (p.region.Some? ==> p.region.value != [] && p.region.value !in REAL_ESTATE_OPERATIONS)
    && (p.operation.Some? ==> p.operation.value in REAL_ESTATE_OPERATIONS)
    && (p.category.Some? ==> PlainRealEstate(p, p.category.value))
    && (p.category.None? ==> p.pathFilters == [])
    && (forall s | s in p.pathFilters :: PlainRealEstate(p, s))
    && (p.region.None? && p.operation.None? ==> p == EMPTY_PATH)
  }

  predicate PlainRealEstate(p: PathSemantics, segment: string) {
    segment != [] && segment != SELLER_MARKER
    && (p.operation.None? ==> segment !in REAL_ESTATE_OPERATIONS)
  }

  lemma {:induction false} GoodsShaped(p: PathSemantics, segments: seq<string>)
    requires GoodsShape(p) && forall s | s in segments :: s != []
    ensures GoodsShape(GoodsFrom(p, segments))
    decreases |segments|
  {
    if segments != [] {
      assert segments[0] in segments && forall s | s in segments[1..] :: s in segments;
      GoodsShaped(GoodsStep(p, segments[0]), segments[1..]);
    }
  }

  lemma {:induction false} RealEstateShaped(p: PathSemantics, segments: seq<string>)
    requires RealEstateShape(p) && (p.region.Some? || p.operation.Some?)
    requires forall s | s in segments :: s != []
    ensures RealEstateShape(RealEstateFrom(p, segments))
    decreases |segments|
  {
    if segments != [] {
      assert segments[0] in segments && forall s | s in segments[1..] :: s in segments;
      RealEstateShaped(RealEstateStep(p, segments[0]), segments[1..]);
    }
  }

  // ----- parsing a printed path

  lemma {:induction false} GoodsConcat(p: PathSemantics, a: seq<string>, b: seq<string>)
    ensures GoodsFrom(p, a + b) == GoodsFrom(GoodsFrom(p, a), b)
    decreases |a|
  {
    if a == [] {
      assert a + b == b;
    } else {
      assert (a + b)[1..] == a[1..] + b;
      GoodsConcat(GoodsStep(p, a[0]), a[1..], b);
    }
  }

  lemma {:induction false} RealEstateConcat(p: PathSemantics, a: seq<string>, b: seq<string>)
    ensures RealEstateFrom(p, a + b) == RealEstateFrom(RealEstateFrom(p, a), b)
    decreases |a|
  {
    if a == [] {
      assert a + b == b;
    } else {
      assert (a + b)[1..] == a[1..] + b;
      RealEstateConcat(RealEstateStep(p, a[0]), a[1..], b);
    }
  }

  lemma {:induction false} GoodsFilters(p: PathSemantics, filters: seq<string>)
    requires p.category.Some? && forall s | s in filters :: PlainGoods(s)
    ensures GoodsFrom(p, filters) == p.(pathFilters := p.pathFilters + filters)
    decreases |filters|
  {
    if filters == [] {
      assert p.pathFilters + filters == p.pathFilters;
    } else {
      assert filters[0] in filters && forall s | s in filters[1..] :: s in filters;
      GoodsFilters(GoodsStep(p, filters[0]), filters[1..]);
      assert p.pathFilters + [filters[0]] + filters[1..] == p.pathFilters + filters;
    }
  }

  lemma {:induction false} RealEstateFilters(p: PathSemantics, filters: seq<string>)
    requires p.category.Some? && forall s | s in filters :: PlainRealEstate(p, s)
    ensures RealEstateFrom(p, filters) == p.(pathFilters := p.pathFilters + filters)
    decreases |filters|
  {
    if filters == [] {
      assert p.pathFilters + filters == p.pathFilters;
    } else {
      assert filters[0] in filters && forall s | s in filters[1..] :: s in filters;
      RealEstateFilters(RealEstateStep(p, filters[0]), filters[1..]);
      assert p.pathFilters + [filters[0]] + filters[1..] == p.pathFilters + filters;
    }
  }

  function GoodsSegments(p: PathSemantics): seq<string> {
    Optional(p.region, "r~") + Optional(p.category, "") + p.pathFilters + Marker(p.sellerType) + Optional(p.query, "q~")
  }

  lemma MarkerIsNoPrefix()
    ensures !StartsWith(SELLER_MARKER, "r~") && !StartsWith(SELLER_MARKER, "q~")
    ensures SELLER_MARKER !in REAL_ESTATE_OPERATIONS
  {
    assert SELLER_MARKER[0] == 'b' && "r~"[0] == 'r' && "q~"[0] == 'q' && "kupit"[0] == 'k' && "snyat"[0] == 's';
  }

  lemma OneGoods(p: PathSemantics, segment: string)
    ensures GoodsFrom(p, [segment]) == GoodsStep(p, segment)
  {
    assert [segment][1..] == [];
  }

  lemma OneRealEstate(p: PathSemantics, segment: string)
    ensures RealEstateFrom(p, [segment]) == RealEstateStep(p, segment)
  {
    assert [segment][1..] == [];
  }

  lemma GoodsMarker(p: PathSemantics, sellerType: Option<SellerType>)
    requires p.sellerType.None? && sellerType != Some(Company)
    ensures GoodsFrom(p, Marker(sellerType)) == p.(sellerType := sellerType)
  {
    match sellerType {
      case None => assert Marker(sellerType) == [];
      case Some(seller) =>
        assert seller.Private?;
        OneGoods(p, SELLER_MARKER);
        MarkerIsNoPrefix();
    }
  }

  lemma RealEstateMarker(p: PathSemantics, sellerType: Option<SellerType>)
    requires p.sellerType.None? && sellerType != Some(Company)
    ensures RealEstateFrom(p, Marker(sellerType)) == p.(sellerType := sellerType)
  {
    match sellerType {
      case None => assert Marker(sellerType) == [];
      case Some(seller) =>
        assert seller.Private?;
        OneRealEstate(p, SELLER_MARKER);
        MarkerIsNoPrefix();
    }
  }

  lemma GoodsPathRoundTrip(p: PathSemantics)
    requires GoodsShape(p)
    ensures GoodsFrom(EMPTY_PATH, GoodsSegments(p)) == p
  {
    var p1 := EMPTY_PATH.(region := p.region);
    var p2 := p1.(category := p.category);
    var p3 := p2.(pathFilters := p.pathFilters);
    var p4 := p3.(sellerType := p.sellerType);
    var a, b, c, d, e := Optional(p.region, "r~"), Optional(p.category, ""), p.pathFilters, Marker(p.sellerType),
                         Optional(p.query, "q~");
    GoodsConcat(EMPTY_PATH, a + b + c + d, e);
    GoodsConcat(EMPTY_PATH, a + b + c, d);
    GoodsConcat(EMPTY_PATH, a + b, c);
    GoodsConcat(EMPTY_PATH, a, b);
    if p.region.Some? {
      OneGoods(EMPTY_PATH, "r~" + p.region.value);
    }
    assert GoodsFrom(EMPTY_PATH, a) == p1;
    if p.category.Some? {
      OneGoods(p1, p.category.value);
      assert "" + p.category.value == p.category.value;
    }
    assert GoodsFrom(p1, b) == p2;
    if p.category.Some? {
      GoodsFilters(p2, c);
      assert [] + c == c;
    }
    assert GoodsFrom(p2, c) == p3 by {
      if p.category.None? {
        assert c == [] && p3 == p2;
      }
    }
    assert GoodsFrom(p3, d) == p4 by { GoodsMarker(p3, p.sellerType); }
    if p.query.Some? {
      OneGoods(p4, "q~" + p.query.value);
      assert ("q~" + p.query.value)[0] == 'q';
    }
    assert GoodsFrom(p4, e) == p;
  }

  function RealEstateSegments(p: PathSemantics): seq<string> {
    Optional(p.region, "") + Optional(p.operation, "") + Optional(p.category, "") + p.pathFilters + Marker(p.sellerType)
  }

  lemma RealEstateCategory(p: PathSemantics, category: Option<string>)
    requires p.category.None?
    requires category.Some? ==> PlainRealEstate(p, category.value)
    ensures RealEstateFrom(p, Optional(category, "")) == p.(category := category)
  {
    if category.Some? {
      OneRealEstate(p, category.value);
      assert "" + category.value == category.value;
    }
  }

  lemma RealEstateOperation(p: PathSemantics, operation: Option<string>)
    requires p.operation.None?
    requires operation.Some? ==> operation.value in REAL_ESTATE_OPERATIONS
    ensures RealEstateFrom(p, Optional(operation, "")) == p.(operation := operation)
  {
    if operation.Some? {
      OneRealEstate(p, operation.value);
      assert "" + operation.value == operation.value;
    }
  }

  /** The segments behind region and operation rebuild the rest of the record. */
  lemma RealEstateTail(p: PathSemantics)
    requires RealEstateShape(p)
    ensures RealEstateFrom(EMPTY_PATH.(region := p.region, operation := p.operation),
                           Optional(p.category, "") + p.pathFilters + Marker(p.sellerType)) == p
  {
    hide RealEstateFrom, RealEstateStep;
    var p1 := EMPTY_PATH.(region := p.region, operation := p.operation);
    var p2 := p1.(category := p.category);
    var p3 := p2.(pathFilters := p.pathFilters);
    var c, d, e := Optional(p.category, ""), p.pathFilters, Marker(p.sellerType);
    RealEstateConcat(p1, c + d, e);
    RealEstateConcat(p1, c, d);
    RealEstateCategory(p1, p.category);
    if p.category.Some? {
      forall s | s in p.pathFilters ensures PlainRealEstate(p2, s) {
        assert PlainRealEstate(p, s);
      }
      RealEstateFilters(p2, d);
      assert [] + d == d;
    } else {
      EmptyRealEstate(p2);
    }
    RealEstateMarker(p3, p.sellerType);
  }

  lemma EmptyRealEstate(p: PathSemantics)
    ensures RealEstateFrom(p, []) == p
  {
  }

  lemma Regroup(a: seq<string>, b: seq<string>, c: seq<string>, d: seq<string>, e: seq<string>)
    ensures a + b + c + d + e == a + (b + (c + d + e))
  {
  }

  lemma RealEstatePathRoundTrip(p: PathSemantics)
    requires RealEstateShape(p) && (p.region.Some? || p.operation.Some?)
    ensures RealEstate(RealEstateSegments(p)) == p
  {
    hide RealEstateFrom, RealEstateStep, PlainRealEstate, Marker;
    var first := if p.region.Some? then p.region.value else p.operation.value;
    var operation := if p.region.Some? then p.operation else None;
    var tail := Optional(p.category, "") + p.pathFilters + Marker(p.sellerType);
    var segments := RealEstateSegments(p);
    assert "" + first == first;
    Regroup(Optional(p.region, ""), Optional(p.operation, ""), Optional(p.category, ""), p.pathFilters, Marker(p.sellerType));
    assert segments == [first] + (Optional(operation, "") + tail) by {
      if p.region.None? {
        assert Optional(p.region, "") == [] && Optional(operation, "") == [];
        assert [first] + tail == [first] + ([] + tail);
      }
    }
    assert segments[1..] == Optional(operation, "") + tail;
    var start := RealEstateStart(segments);
    RealEstateConcat(start, Optional(operation, ""), tail);
    if p.region.Some? {
      RealEstateOperation(start, operation);
    } else {
      EmptyRealEstate(start);
    }
    RealEstateTail(p);
  }

  lemma {:induction false} AllNonEmpty(path: seq<string>)
    requires forall s | s in path :: s != []
    ensures NonEmpty(path) == path
  {
    if path != [] {
      assert path[0] in path && forall s | s in path[1..] :: s in path;
      AllNonEmpty(path[1..]);
    }
  }

  // ----- what the parameters mean

  /** The values of one parameter, in the order of the URL. */
  function ValuesOf(params: seq<(string, string)>, key: string): seq<string> {
    if params == [] then []
    else (if params[0].0 == key then [params[0].1] else []) + ValuesOf(params[1..], key)
  }

  lemma {:induction false} AddExtraLookup(params: seq<Param>, key: string, value: string, other: string)
    ensures Lookup(AddExtra(params, key, value), other)
         == Lookup(params, other) + if other == key then [value] else []
  {
    if params != [] {
      AddExtraLookup(params[1..], key, value, other);
    }
  }

  ghost predicate AllSay(current: Option<SellerType>, values: seq<string>, seller: SellerType) {
    (current.None? || current == Some(seller)) && forall v | v in values :: ParseSellerParam(v) == Ok(seller)
  }

  /** Some seller type is what every seller parameter says, and what was said before. */
  ghost predicate SellersAgree(current: Option<SellerType>, values: seq<string>) {
    exists seller :: AllSay(current, values, seller)
  }

  lemma SellersStep(current: Option<SellerType>, value: string, rest: seq<string>)
    ensures SellersAgree(current, [value] + rest) <==>
              ParseSellerParam(value).Ok? && MergeSellerType(current, ParseSellerParam(value).value).Ok?
              && SellersAgree(Some(ParseSellerParam(value).value), rest)
  {
    var all := [value] + rest;
    assert all[0] == value && forall v :: v in all <==> v == value || v in rest;
    if SellersAgree(current, all) {
      var seller :| AllSay(current, all, seller);
      assert AllSay(Some(seller), rest, seller);
    }
    if ParseSellerParam(value).Ok? && MergeSellerType(current, ParseSellerParam(value).value).Ok?
       && SellersAgree(Some(ParseSellerParam(value).value), rest) {
      assert AllSay(current, all, ParseSellerParam(value).value);
    }
  }

  /** `result` is `r` with the parameters of the URL added. */
  ghost predicate ReadFrom(r: QueryParams, params: seq<(string, string)>, result: QueryParams) {
    && result.sort == (if r.sort.Some? || ValuesOf(params, "sort") == [] then r.sort else Some(ValuesOf(params, "sort")[0]))
    && SellerFrom(r.sellerType, ValuesOf(params, SELLER_PARAM), result.sellerType)
    && forall key :: Lookup(result.extraParams, key) == Lookup(r.extraParams, key) + ExtraValues(params, key)
  }

  ghost predicate SellerFrom(current: Option<SellerType>, values: seq<string>, result: Option<SellerType>) {
    if values == [] then result == current else result.Some? && AllSay(current, values, result.value)
  }

  function ExtraValues(params: seq<(string, string)>, key: string): seq<string> {
    if IsExtraKey(key) then ValuesOf(params, key) else []
  }

  /** One parameter adds its value to its own key, if that is an extra one. */
  lemma ExtraAdded(r: QueryParams, name: string, value: string, key: string)
    requires ParamStep(r, name, value).Ok?
    ensures Lookup(ParamStep(r, name, value).value.extraParams, key)
         == Lookup(r.extraParams, key) + if IsExtraKey(name) && name == key then [value] else []
  {
    hide AddExtra, Lookup, ParseSellerParam, MergeSellerType;
    AddExtraLookup(r.extraParams, name, value, key);
  }

  lemma ExtraValuesCons(params: seq<(string, string)>, key: string)
    requires params != []
    ensures ExtraValues(params, key)
         == (if IsExtraKey(params[0].0) && params[0].0 == key then [params[0].1] else []) + ExtraValues(params[1..], key)
  {
  }

  lemma ExtrasStep(r: QueryParams, params: seq<(string, string)>, key: string)
    requires params != [] && ParamStep(r, params[0].0, params[0].1).Ok?
    ensures Lookup(ParamStep(r, params[0].0, params[0].1).value.extraParams, key) + ExtraValues(params[1..], key)
         == Lookup(r.extraParams, key) + ExtraValues(params, key)
  {
    hide ParamStep, Lookup, ExtraValues, IsExtraKey;
    ExtraAdded(r, params[0].0, params[0].1, key);
    ExtraValuesCons(params, key);
    var added := if IsExtraKey(params[0].0) && params[0].0 == key then [params[0].1] else [];
    assert Lookup(r.extraParams, key) + added + ExtraValues(params[1..], key)
        == Lookup(r.extraParams, key) + (added + ExtraValues(params[1..], key));
  }

  lemma SellerFromStep(current: Option<SellerType>, value: string, rest: seq<string>, result: Option<SellerType>)
    requires ParseSellerParam(value).Ok? && MergeSellerType(current, ParseSellerParam(value).value).Ok?
    requires SellerFrom(Some(ParseSellerParam(value).value), rest, result)
    ensures SellerFrom(current, [value] + rest, result)
  {
  }

  lemma ReadFromStep(r: QueryParams, params: seq<(string, string)>, result: QueryParams)
    requires params != [] && ParamStep(r, params[0].0, params[0].1).Ok?
    requires ReadFrom(ParamStep(r, params[0].0, params[0].1).value, params[1..], result)
    ensures ReadFrom(r, params, result)
  {
    var (key, value) := params[0];
    forall other ensures Lookup(result.extraParams, other) == Lookup(r.extraParams, other) + ExtraValues(params, other) {
      ExtrasStep(r, params, other);
    }
    if key == SELLER_PARAM {
      SellerFromStep(r.sellerType, value, ValuesOf(params[1..], SELLER_PARAM), result.sellerType);
    }
    hide AddExtra, Lookup, ParseSellerParam, MergeSellerType, SellerFrom, ExtraValues;
  }

  lemma NothingRead(r: QueryParams)
    ensures SellersAgree(r.sellerType, ValuesOf([], SELLER_PARAM)) && ReadFrom(r, [], r)
  {
    assert AllSay(r.sellerType, [], if r.sellerType.Some? then r.sellerType.value else Private);
    forall key ensures Lookup(r.extraParams, key) + ExtraValues([], key) == Lookup(r.extraParams, key) {}
  }

  /**
   * The first `sort` counts, every other parameter keeps all its values in order, pagination is
   * ignored; the parameters are refused exactly when the seller values are not of one known kind.
   */
  lemma {:induction false} ParamsMeaning(r: QueryParams, params: seq<(string, string)>)
    ensures ParamsFrom(r, params).Ok? <==> SellersAgree(r.sellerType, ValuesOf(params, SELLER_PARAM))
    ensures ParamsFrom(r, params).Ok? ==> ReadFrom(r, params, ParamsFrom(r, params).value)
    decreases |params|
  {
    hide SellersAgree, ReadFrom, AddExtra;
    if params == [] {
      NothingRead(r);
    } else {
      var (key, value) := params[0];
      var next := ParamStep(r, key, value);
      if key == SELLER_PARAM {
        SellersStep(r.sellerType, value, ValuesOf(params[1..], SELLER_PARAM));
      } else {
        assert ValuesOf(params, SELLER_PARAM) == ValuesOf(params[1..], SELLER_PARAM);
      }
      if next.Ok? {
        ParamsMeaning(next.value, params[1..]);
        if ParamsFrom(next.value, params[1..]).Ok? {
          ReadFromStep(r, params, ParamsFrom(next.value, params[1..]).value);
        }
      }
    }
  }

  // ----- parsing printed parameters

  lemma AppendDistinct(params: seq<Param>, p: Param)
    requires DistinctKeys(params) && p.key !in Keys(params)
    ensures DistinctKeys(params + [p]) && Keys(params + [p]) == Keys(params) + {p.key}
  {
    var all := params + [p];
    assert all[|params|] == p;
    forall q | q in params ensures q in all {}
    forall i, j | 0 <= i < j < |all| ensures all[i].key != all[j].key {
      assert all[i] in params && (j < |params| ==> all[j] == params[j]);
    }
  }

  function Append(params: ExtraParams, p: Param): (r: ExtraParams)
    requires p.key !in Keys(params)
    ensures Keys(r) == Keys(params) + {p.key}
  {
    AppendDistinct(params, p);
    params + [p]
  }

  lemma {:induction false} AddFreshExtra(params: seq<Param>, key: string, value: string)
    requires key !in Keys(params)
    ensures AddExtra(params, key, value) == params + [Param(key, [value])]
  {
    if params != [] {
      assert params == [params[0]] + params[1..];
      KeysCons(params[0], params[1..]);
      AddFreshExtra(params[1..], key, value);
    }
  }

  lemma {:induction false} AddLastExtra(params: seq<Param>, key: string, values: seq<string>, value: string)
    requires key !in Keys(params)
    ensures AddExtra(params + [Param(key, values)], key, value) == params + [Param(key, values + [value])]
  {
    hide Keys;
    if params == [] {
      assert params + [Param(key, values)] == [Param(key, values)];
    } else {
      assert params == [params[0]] + params[1..];
      KeysCons(params[0], params[1..]);
      AddLastExtra(params[1..], key, values, value);
      assert (params + [Param(key, values)])[1..] == params[1..] + [Param(key, values)];
    }
  }

  lemma {:induction false} PairsAppend(r: QueryParams, base: ExtraParams, key: string, done: seq<string>, todo: seq<string>)
    requires IsExtraKey(key) && key !in Keys(base) && done != []
    requires r.extraParams == Append(base, Param(key, done))
    ensures ParamsFrom(r, Pairs(key, todo)) == Ok(r.(extraParams := Append(base, Param(key, done + todo))))
    decreases |todo|
  {
    if todo == [] {
      assert done + todo == done;
    } else {
      var pairs := Pairs(key, todo);
      assert pairs[0] == (key, todo[0]) && pairs[1..] == Pairs(key, todo[1..]);
      AddLastExtra(base, key, done, todo[0]);
      AddExtraDistinct(r.extraParams, key, todo[0]);
      assert done + [todo[0]] + todo[1..] == done + todo;
      PairsAppend(r.(extraParams := Append(base, Param(key, done + [todo[0]]))), base, key, done + [todo[0]], todo[1..]);
    }
  }

  lemma PairsRead(r: QueryParams, key: string, values: seq<string>)
    requires IsExtraKey(key) && key !in Keys(r.extraParams) && values != []
    ensures ParamsFrom(r, Pairs(key, values)) == Ok(r.(extraParams := Append(r.extraParams, Param(key, values))))
  {
    var pairs := Pairs(key, values);
    assert pairs[0] == (key, values[0]) && pairs[1..] == Pairs(key, values[1..]);
    AddFreshExtra(r.extraParams, key, values[0]);
    AddExtraDistinct(r.extraParams, key, values[0]);
    assert [values[0]] + values[1..] == values;
    PairsAppend(r.(extraParams := Append(r.extraParams, Param(key, [values[0]]))), r.extraParams, key, [values[0]], values[1..]);
  }

  lemma {:induction false} ParamsConcat(r: QueryParams, a: seq<(string, string)>, b: seq<(string, string)>)
    requires ParamsFrom(r, a).Ok?
    ensures ParamsFrom(r, a + b) == ParamsFrom(ParamsFrom(r, a).value, b)
    decreases |a|
  {
    if a == [] {
      assert a + b == b;
    } else {
      assert (a + b)[1..] == a[1..] + b;
      ParamsConcat(ParamStep(r, a[0].0, a[0].1).value, a[1..], b);
    }
  }

  ghost predicate ExtrasShape(params: seq<Param>) {
    forall p | p in params :: IsExtraKey(p.key) && p.values != []
  }

  lemma {:induction false} AddExtraShaped(params: seq<Param>, key: string, value: string)
    requires ExtrasShape(params) && IsExtraKey(key)
    ensures ExtrasShape(AddExtra(params, key, value))
  {
    if params != [] {
      assert params[0] in params && forall p | p in params[1..] :: p in params;
      AddExtraShaped(params[1..], key, value);
    }
  }

  lemma {:induction false} ParamsShaped(r: QueryParams, params: seq<(string, string)>)
    requires ExtrasShape(r.extraParams)
    ensures ParamsFrom(r, params).Ok? ==> ExtrasShape(ParamsFrom(r, params).value.extraParams)
    decreases |params|
  {
    if params != [] {
      var (key, value) := params[0];
      var next := ParamStep(r, key, value);
      if IsExtraKey(key) {
        AddExtraShaped(r.extraParams, key, value);
      }
      if next.Ok? {
        ParamsShaped(next.value, params[1..]);
      }
    }
  }

  /** The parameters read back from the sorted keys: the same entries, in the order of the keys. */
  function Reordered(params: seq<Param>, keys: seq<string>): seq<Param> {
    seq(|keys|, i requires 0 <= i < |keys| => Param(keys[i], Lookup(params, keys[i])))
  }

  lemma ReorderedKeys(params: seq<Param>, keys: seq<string>)
    ensures Keys(Reordered(params, keys)) == Elements(keys)
    ensures Distinct(keys) ==> DistinctKeys(Reordered(params, keys))
  {
    var r := Reordered(params, keys);
    forall k | k in keys ensures k in Keys(r) {
      var i :| 0 <= i < |keys| && keys[i] == k;
      assert r[i] in r;
    }
  }

  lemma {:induction false} LookupMember(params: seq<Param>, key: string)
    ensures key in Keys(params) ==> Param(key, Lookup(params, key)) in params
  {
    if params != [] {
      assert params == [params[0]] + params[1..];
      KeysCons(params[0], params[1..]);
      assert params[0] == Param(params[0].key, params[0].values) && params[0] in params;
      LookupMember(params[1..], key);
    }
  }

  lemma {:induction false} LookupReordered(params: seq<Param>, keys: seq<string>, key: string)
    requires key in keys
    ensures Lookup(Reordered(params, keys), key) == Lookup(params, key)
  {
    var r := Reordered(params, keys);
    if keys[0] != key {
      assert r[1..] == Reordered(params, keys[1..]);
      LookupReordered(params, keys[1..], key);
    }
  }

  lemma NoParams(r: QueryParams)
    ensures ParamsFrom(r, []) == Ok(r)
  {
  }

  lemma {:induction false} ExtrasRead(r: QueryParams, params: seq<Param>, done: seq<string>, todo: seq<string>)
    requires ExtrasShape(params) && Distinct(done + todo) && Elements(done + todo) <= Keys(params)
    requires DistinctKeys(Reordered(params, done)) && DistinctKeys(Reordered(params, done + todo))
    requires r.extraParams == Reordered(params, done)
    ensures ParamsFrom(r, ExtraPairs(params, todo)) == Ok(r.(extraParams := Reordered(params, done + todo)))
    decreases |todo|
  {
    hide ParamsFrom, ParamStep, Pairs, DistinctKeys, Lookup;
    if todo == [] {
      assert done + todo == done;
      NoParams(r);
    } else {
      var key := todo[0];
      assert (done + todo)[|done|] == key && key in Elements(done + todo);
      LookupMember(params, key);
      ReorderedKeys(params, done);
      forall i | 0 <= i < |done| ensures done[i] != key {
        assert (done + todo)[i] == done[i];
      }
      PairsRead(r, key, Lookup(params, key));
      var next := r.(extraParams := Append(r.extraParams, Param(key, Lookup(params, key))));
      ParamsConcat(r, Pairs(key, Lookup(params, key)), ExtraPairs(params, todo[1..]));
      assert Reordered(params, done) + [Param(key, Lookup(params, key))] == Reordered(params, done + [key]);
      assert done + [key] + todo[1..] == done + todo;
      ExtrasRead(next, params, done + [key], todo[1..]);
    }
  }

  lemma DistinctWhenAscending(keys: seq<string>)
    requires Ascending(keys)
    ensures Distinct(keys)
  {
    forall i, j | 0 <= i < j < |keys| ensures keys[i] != keys[j] {
      BeforeIrreflexive(keys[i]);
    }
  }

  /** What the printed parameters of `query` parse to. */
  function Reread(query: CanonicalQuery): (r: QueryParams) {
    SortedKeysAscending(query.extraParams);
    DistinctWhenAscending(SortedKeys(query.extraParams));
    ReorderedKeys(query.extraParams, SortedKeys(query.extraParams));
    QueryParams(query.sort, if query.sellerType == Some(Company) then Some(Company) else None,
                Reordered(query.extraParams, SortedKeys(query.extraParams)))
  }

  lemma SortRead(sort: Option<string>)
    ensures ParamsFrom(NO_PARAMS, if sort.None? then [] else [("sort", sort.value)]) == Ok(NO_PARAMS.(sort := sort))
  {
    if sort.Some? {
      assert [("sort", sort.value)][1..] == [];
    }
  }

  lemma SellerRead(r: QueryParams, sellerType: Option<SellerType>)
    requires r.sellerType.None?
    ensures ParamsFrom(r, if sellerType == Some(Company) then [(SELLER_PARAM, "1")] else [])
         == Ok(r.(sellerType := if sellerType == Some(Company) then Some(Company) else None))
  {
    if sellerType == Some(Company) {
      assert [(SELLER_PARAM, "1")][1..] == [];
    }
  }

  lemma ParamsRoundTrip(query: CanonicalQuery)
    requires ExtrasShape(query.extraParams)
    ensures ParamsFrom(NO_PARAMS, BuildParams(query)) == Ok(Reread(query))
    ensures ToMap(Reread(query).extraParams) == ToMap(query.extraParams)
  {
    hide ParamsFrom, SortedKeys, ExtraPairs, Keys, Lookup;
    var keys := SortedKeys(query.extraParams);
    var a := if query.sort.None? then [] else [("sort", query.sort.value)];
    var b := if query.sellerType == Some(Company) then [(SELLER_PARAM, "1")] else [];
    var afterSort := NO_PARAMS.(sort := query.sort);
    var afterSeller := afterSort.(sellerType := Reread(query).sellerType);
    SortRead(query.sort);
    SellerRead(afterSort, query.sellerType);
    ParamsConcat(NO_PARAMS, a, b);
    ParamsConcat(NO_PARAMS, a + b, ExtraPairs(query.extraParams, keys));
    SortedKeysAscending(query.extraParams);
    DistinctWhenAscending(keys);
    ReorderedKeys(query.extraParams, keys);
    assert [] + keys == keys && Reordered(query.extraParams, []) == [];
    ExtrasRead(afterSeller, query.extraParams, [], keys);
    SameMap(query.extraParams);
  }

  lemma SameMap(params: ExtraParams)
    ensures ToMap(Reordered(params, SortedKeys(params))) == ToMap(params)
  {
    var keys := SortedKeys(params);
    ReorderedKeys(params, keys);
    forall key | key in Keys(params) ensures Lookup(Reordered(params, keys), key) == Lookup(params, key) {
      assert key in Elements(keys);
      LookupReordered(params, keys, key);
    }
  }

  lemma {:induction false} ExtraPairsSame(left: seq<Param>, right: seq<Param>, keys: seq<string>)
    requires forall key | key in keys :: Lookup(left, key) == Lookup(right, key)
    ensures ExtraPairs(left, keys) == ExtraPairs(right, keys)
  {
    if keys != [] {
      assert keys[0] in keys && forall key | key in keys[1..] :: key in keys;
      ExtraPairsSame(left, right, keys[1..]);
    }
  }

  /** Equal parameter objects are printed the same, whatever their insertion order. */
  lemma SameMapSamePairs(left: ExtraParams, right: ExtraParams)
    requires ToMap(left) == ToMap(right)
    ensures ExtraPairs(left, SortedKeys(left)) == ExtraPairs(right, SortedKeys(right))
  {
    ExtraParamsEqualIsMapEquality(left, right);
    ExtraPairsSame(left, right, SortedKeys(left));
  }

  // ----- main results

  /** A real-estate query whose marker would be printed first, where the parser reads a region. */
  predicate LosesSeller(query: CanonicalQuery) {
    query.host == REAL_ESTATE_HOST && query.region.None? && query.operation.None? && query.sellerType == Some(Private)
  }

  /** The path part of a parsed query. */
  function PathOf(query: CanonicalQuery): PathSemantics {
    PathSemantics(query.category, query.query, query.region,
                  if query.sellerType == Some(Private) then Some(Private) else None, query.operation, query.pathFilters)
  }

  ghost predicate ParsedShape(query: CanonicalQuery) {
    && IsKufarHostname(query.host)
    && ExtrasShape(query.extraParams)
    && (query.host != REAL_ESTATE_HOST ==> GoodsShape(PathOf(query)))
    && (query.host == REAL_ESTATE_HOST ==> RealEstateShape(PathOf(query).(sellerType := None))
                                           && (query.region.None? && query.operation.None? ==> PathOf(query).(sellerType := None) == EMPTY_PATH))
  }

  lemma ParsedIsShaped(url: Url)
    requires ParseUrl(url).Ok?
    ensures ParsedShape(ParseUrl(url).value)
  {
    hide GoodsFrom, RealEstateFrom, ParamsFrom, ParamStep, Keys, DistinctKeys;
    var segments := NonEmpty(url.path);
    forall s | s in segments[1..] ensures s != [] {
      assert s in segments;
    }
    ParamsShaped(NO_PARAMS, url.params);
    if url.host == REAL_ESTATE_HOST {
      RealEstateAllShaped(segments[1..]);
    } else {
      GoodsShaped(EMPTY_PATH, segments[1..]);
    }
  }

  lemma RealEstateAllShaped(segments: seq<string>)
    requires forall s | s in segments :: s != []
    ensures RealEstateShape(RealEstate(segments))
  {
    if segments != [] {
      assert segments[0] in segments && forall s | s in segments[1..] :: s in segments;
      RealEstateShaped(RealEstateStart(segments), segments[1..]);
    }
  }

  lemma PathRoundTrip(query: CanonicalQuery)
    requires ParsedShape(query)
    ensures !LosesSeller(query) ==>
              (if query.host == REAL_ESTATE_HOST then RealEstate(BuildListingPath(query)[1..])
               else GoodsFrom(EMPTY_PATH, BuildListingPath(query)[1..])) == PathOf(query)
    ensures LosesSeller(query) ==> RealEstate(BuildListingPath(query)[1..]) == EMPTY_PATH.(region := Some(SELLER_MARKER))
    ensures NonEmpty(BuildListingPath(query)) == BuildListingPath(query)
  {
    var p := PathOf(query);
    var path := BuildListingPath(query);
    if query.host == REAL_ESTATE_HOST {
      assert path[1..] == RealEstateSegments(p);
      if query.region.Some? || query.operation.Some? {
        forall s | s in p.pathFilters ensures PlainRealEstate(p, s) {
          assert PlainRealEstate(p.(sellerType := None), s);
        }
        RealEstatePathRoundTrip(p);
      } else {
        MarkerIsNoPrefix();
        assert p.(sellerType := None) == EMPTY_PATH;
        if LosesSeller(query) {
          assert path[1..] == [SELLER_MARKER];
          assert [SELLER_MARKER][1..] == [];
        } else {
          assert path[1..] == [];
        }
      }
    } else {
      assert path[1..] == GoodsSegments(p);
      GoodsPathRoundTrip(p);
    }
    BuiltSegments(query);
    AllNonEmpty(path);
  }

  lemma BuiltSegments(query: CanonicalQuery)
    requires ParsedShape(query)
    ensures forall s | s in BuildListingPath(query) :: s != []
  {
    var p := PathOf(query);
  }

  /**
   * Printing a parsed query and parsing the result gives an equal query exactly when the query is not
   * one whose seller marker would stand first; printing again always gives the same URL.
   */
  lemma PrintedUrlParsesBack(url: Url)
    requires ParseUrl(url).Ok?
    ensures var query := ParseUrl(url).value;
            var again := ParseUrl(BuildKufarListingUrl(query));
            && again.Ok?
            && (CanonicalQueryEquals(query, again.value) <==> !LosesSeller(query))
            && BuildKufarListingUrl(again.value) == BuildKufarListingUrl(query)
  {
    var query := ParseUrl(url).value;
    ParsedIsShaped(url);
    var extras := Reread(query).extraParams;
    var expected := if LosesSeller(query) then query.(region := Some(SELLER_MARKER), sellerType := None, extraParams := extras)
                    else query.(extraParams := extras);
    BuiltParses(query);
    ParamsRoundTrip(query);
    ExtraParamsEqualIsMapEquality(query.extraParams, extras);
    SameMapSamePairs(query.extraParams, extras);
    if LosesSeller(query) {
      LostSellerRebuilds(query, extras);
    }
  }

  lemma BuiltParses(query: CanonicalQuery)
    requires ParsedShape(query)
    ensures var extras := Reread(query).extraParams;
            ParseUrl(BuildKufarListingUrl(query)) ==
            Ok(if LosesSeller(query) then query.(region := Some(SELLER_MARKER), sellerType := None, extraParams := extras)
               else query.(extraParams := extras))
  {
    hide GoodsFrom, RealEstate, ParamsFrom, SortedKeys, Reordered, NonEmpty, IsKufarHostname, ExtraPairs;
    PathRoundTrip(query);
    ParamsRoundTrip(query);
    assert BuildListingPath(query)[0] == "l";
    assert "https:" == BuildKufarListingUrl(query).protocol;
    assert query.sellerType.Some? ==> query.sellerType.value.Private? || query.sellerType.value.Company?;
  }

  lemma LostSellerRebuilds(query: CanonicalQuery, extras: ExtraParams)
    requires ParsedShape(query) && LosesSeller(query)
    ensures BuildListingPath(query.(region := Some(SELLER_MARKER), sellerType := None, extraParams := extras))
         == BuildListingPath(query)
  {
    assert PathOf(query).(sellerType := None) == EMPTY_PATH;
    assert "" + SELLER_MARKER == SELLER_MARKER;
  }

  /** A URL accepted today whose printed form loses its seller filter. */
  lemma SellerLostForExample()
    ensures var url := Url("https:", REAL_ESTATE_HOST, ["", "l"], [(SELLER_PARAM, "0")]);
            ParseUrl(url).Ok? && LosesSeller(ParseUrl(url).value)
  {
    var url := Url("https:", REAL_ESTATE_HOST, ["", "l"], [(SELLER_PARAM, "0")]);
    assert REAL_ESTATE_HOST[2..] == ".kufar.by";
    assert url.path[1..] == ["l"] && ["l"][1..] == [];
    assert NonEmpty(["l"]) == ["l"];
    assert NonEmpty(url.path) == ["l"];
    assert url.params[1..] == [];
    assert SELLER_PARAM !in PAGINATION_PARAMS && SELLER_PARAM != "sort" by {
      assert |SELLER_PARAM| == 3 && |"cursor"| == 6 && |"size"| == |"sort"| == 4;
    }
    assert ParamsFrom(NO_PARAMS, url.params) == Ok(NO_PARAMS.(sellerType := Some(Private))) by {
      assert ParamStep(NO_PARAMS, SELLER_PARAM, "0") == Ok(NO_PARAMS.(sellerType := Some(Private)));
    }
    assert IsKufarHostname(url.host);
    assert RealEstate(NonEmpty(url.path)[1..]) == EMPTY_PATH;
  }
}
