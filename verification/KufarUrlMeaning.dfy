/**
 * What a listing URL says, read off its segments and parameters as a whole: which segment gives the
 * region, the search text, the operation, the category, and which error every other URL gets.
 */
module KufarUrlMeaning {
  import opened Basics
  import opened CanonicalQueries
  import opened KufarUrl
  import opened KufarUrlText

  /** The elements that satisfy the predicate, in order. */
  ghost function Where(xs: seq<string>, p: string -> bool): (r: seq<string>)
    ensures forall x :: x in r <==> x in xs && p(x)
  {
    if xs == [] then [] else (if p(xs[0]) then [xs[0]] else []) + Where(xs[1..], p)
  }

  /** A category, then the path filters. */
  ghost function Words(p: PathSemantics): seq<string> {
    (if p.category.Some? then [p.category.value] else []) + p.pathFilters
  }

  // ----- goods

  /** What follows the prefix in the last segment that has it, or what was said before. */
  ghost predicate Says(segments: seq<string>, prefix: string, before: Option<string>, after: Option<string>) {
    if exists s :: s in segments && prefix <= s then
      after.Some? && exists k | 0 <= k < |segments| ::
        segments[k] == prefix + after.value && forall j | k < j < |segments| :: !(prefix <= segments[j])
    else after == before
  }

  lemma SaysStep(first: string, rest: seq<string>, prefix: string, before: Option<string>, after: Option<string>)
    requires Says(rest, prefix, if prefix <= first then Some(first[|prefix|..]) else before, after)
    ensures Says([first] + rest, prefix, before, after)
  {
    var all := [first] + rest;
    assert all[0] == first && all[1..] == rest;
    assert forall s :: s in all <==> s == first || s in rest;
    if s :| s in rest && prefix <= s {
      var k :| 0 <= k < |rest| && rest[k] == prefix + after.value && forall j | k < j < |rest| :: !(prefix <= rest[j]);
      assert all[k + 1] == prefix + after.value;
      forall j | k + 1 < j < |all| ensures !(prefix <= all[j]) {
        assert all[j] == rest[j - 1];
      }
    } else if prefix <= first {
      assert first in all && prefix + first[|prefix|..] == first;
      assert all[0] == prefix + after.value;
      forall j | 0 < j < |all| ensures !(prefix <= all[j]) {
        assert all[j] in rest;
      }
    }
  }

  ghost predicate IsGoodsWord(segment: string) {
    !("r~" <= segment) && !("q~" <= segment) && segment != "bez-posrednikov"
  }

  /** `r` is `p` with what the segments say. */
  ghost predicate SaysGoods(p: PathSemantics, segments: seq<string>, r: PathSemantics) {
    && Says(segments, "r~", p.region, r.region)
    && Says(segments, "q~", p.query, r.query)
    && r.operation == p.operation
    && r.sellerType == (if "bez-posrednikov" in segments then Some(Private) else p.sellerType)
    && Words(r) == Words(p) + Where(segments, IsGoodsWord)
    && (r.category.None? ==> r.pathFilters == [])
  }

  /** `next` is `p` with what one segment says. */
  ghost predicate SaysOneGoods(p: PathSemantics, first: string, next: PathSemantics) {
    && Words(next) == Words(p) + (if IsGoodsWord(first) then [first] else [])
    && (next.category.None? ==> next.pathFilters == [])
    && next.region == (if "r~" <= first then Some(first[2..]) else p.region)
    && next.query == (if "q~" <= first then Some(first[2..]) else p.query)
    && next.operation == p.operation
    && next.sellerType == (if first == "bez-posrednikov" then Some(Private) else p.sellerType)
  }

  lemma OneGoodsWord(p: PathSemantics, first: string)
    requires p.category.None? ==> p.pathFilters == []
    ensures SaysOneGoods(p, first, GoodsStep(p, first))
  {
    assert "r~"[0] == 'r' && "q~"[0] == 'q' && "bez-posrednikov"[0] == 'b';
  }

  lemma WhereCons(first: string, rest: seq<string>, p: string -> bool)
    ensures Where([first] + rest, p) == (if p(first) then [first] else []) + Where(rest, p)
  {
    assert ([first] + rest)[1..] == rest;
  }

  lemma InCons(x: string, first: string, rest: seq<string>)
    ensures x in [first] + rest <==> x == first || x in rest
  {
  }

  lemma WordsExtend(p: PathSemantics, first: string, rest: seq<string>, next: PathSemantics, r: PathSemantics, f: string -> bool)
    requires Words(next) == Words(p) + (if f(first) then [first] else [])
    requires Words(r) == Words(next) + Where(rest, f)
    ensures Words(r) == Words(p) + Where([first] + rest, f)
  {
    WhereCons(first, rest, f);
    hide Words, Where;
    var mine := if f(first) then [first] else [];
    assert Words(r) == (Words(p) + mine) + Where(rest, f) == Words(p) + (mine + Where(rest, f));
  }

  lemma GoodsExtend(p: PathSemantics, first: string, rest: seq<string>, next: PathSemantics, r: PathSemantics)
    requires SaysOneGoods(p, first, next) && SaysGoods(next, rest, r)
    ensures SaysGoods(p, [first] + rest, r)
  {
    hide Says, Words, Where, IsGoodsWord;
    SaysStep(first, rest, "r~", p.region, r.region);
    SaysStep(first, rest, "q~", p.query, r.query);
    WordsExtend(p, first, rest, next, r, IsGoodsWord);
    InCons("bez-posrednikov", first, rest);
  }

  /**
   * On a goods host the last `r~` segment gives the region and the last `q~` segment the text, the marker
   * anywhere the seller; the first of the other segments is the category, the rest are filters, in order.
   */
  lemma {:induction false} GoodsMeaning(p: PathSemantics, segments: seq<string>)
    requires p.category.None? ==> p.pathFilters == []
    ensures SaysGoods(p, segments, GoodsFrom(p, segments))
    decreases |segments|
  {
    if segments == [] {
      assert Words(p) + [] == Words(p);
    } else {
      hide SaysGoods, GoodsStep;
      var first, rest := segments[0], segments[1..];
      var next := GoodsStep(p, first);
      assert segments == [first] + rest;
      OneGoodsWord(p, first);
      GoodsMeaning(next, rest);
      GoodsExtend(p, first, rest, next, GoodsFrom(next, rest));
    }
  }

  // ----- real estate

  ghost predicate IsOperation(segment: string) { segment == "kupit" || segment == "snyat" }

  ghost predicate IsNoMarker(segment: string) { segment != "bez-posrednikov" }

  /** `at` is the first segment that names an operation, or the end. */
  ghost predicate IsFirstOperation(segments: seq<string>, at: nat) {
    && at <= |segments| && (at < |segments| ==> IsOperation(segments[at]))
    && forall j | 0 <= j < at :: !IsOperation(segments[j])
  }

  /** The segments behind the first one, without the one that gives the operation. */
  ghost function Others(segments: seq<string>, at: nat): seq<string>
    requires segments != [] && at <= |segments|
  {
    if at == 0 || at == |segments| then segments[1..] else segments[1..at] + segments[at + 1..]
  }

  ghost predicate SaysWithOperation(segments: seq<string>, at: nat, r: PathSemantics)
    requires segments != []
  {
    && IsFirstOperation(segments, at)
    && r.operation == (if at < |segments| then Some(segments[at]) else None)
    && r.region == (if at == 0 then None else Some(segments[0]))
    && r.query.None?
    && r.sellerType == (if "bez-posrednikov" in segments[1..] then Some(Private) else None)
    && Words(r) == Where(Others(segments, at), IsNoMarker)
    && (r.category.None? ==> r.pathFilters == [])
  }

  /** The path of a real-estate URL. */
  ghost predicate SaysRealEstate(segments: seq<string>, r: PathSemantics) {
    if segments == [] then r == EMPTY_PATH else exists at: nat :: SaysWithOperation(segments, at, r)
  }

  lemma OneRealEstateWord(p: PathSemantics, first: string)
    requires p.category.None? ==> p.pathFilters == []
    requires p.operation.Some? || !IsOperation(first)
    ensures var next := RealEstateStep(p, first);
      && next.operation == p.operation && next.region == p.region && next.query == p.query
      && next.sellerType == (if first == "bez-posrednikov" then Some(Private) else p.sellerType)
      && Words(next) == Words(p) + (if IsNoMarker(first) then [first] else [])
      && (next.category.None? ==> next.pathFilters == [])
  {
  }

  /** Segments none of which can give the operation any more. */
  ghost predicate Adds(p: PathSemantics, segments: seq<string>, r: PathSemantics) {
    && r.operation == p.operation && r.region == p.region && r.query == p.query
    && r.sellerType == (if "bez-posrednikov" in segments then Some(Private) else p.sellerType)
    && Words(r) == Words(p) + Where(segments, IsNoMarker)
    && (r.category.None? ==> r.pathFilters == [])
  }

  lemma AddsStep(p: PathSemantics, first: string, rest: seq<string>, next: PathSemantics, r: PathSemantics)
    requires next == RealEstateStep(p, first) && Adds(next, rest, r)
    requires p.category.None? ==> p.pathFilters == []
    requires p.operation.Some? || !IsOperation(first)
    ensures Adds(p, [first] + rest, r)
  {
    OneRealEstateWord(p, first);
    hide RealEstateStep, Words, Where, IsOperation;
    WordsExtend(p, first, rest, next, r, IsNoMarker);
    InCons("bez-posrednikov", first, rest);
  }

  lemma {:induction false} PlainMeaning(p: PathSemantics, segments: seq<string>)
    requires p.category.None? ==> p.pathFilters == []
    requires p.operation.Some? || forall s | s in segments :: !IsOperation(s)
    ensures Adds(p, segments, RealEstateFrom(p, segments))
    decreases |segments|
  {
    if segments == [] {
      assert Words(p) + [] == Words(p);
    } else {
      hide Adds, IsOperation, RealEstateStep, Words, Where;
      var first, rest := segments[0], segments[1..];
      var next := RealEstateStep(p, first);
      assert segments == [first] + rest;
      assert first in segments && forall s | s in rest :: s in segments;
      OneRealEstateWord(p, first);
      PlainMeaning(next, rest);
      AddsStep(p, first, rest, next, RealEstateFrom(next, rest));
    }
  }

  lemma {:induction false} WhereConcat(a: seq<string>, b: seq<string>, p: string -> bool)
    ensures Where(a + b, p) == Where(a, p) + Where(b, p)
    decreases |a|
  {
    if a == [] {
      assert a + b == b;
    } else {
      assert (a + b)[0] == a[0] && (a + b)[1..] == a[1..] + b;
      WhereConcat(a[1..], b, p);
    }
  }

  lemma {:induction false} FirstOperation(segments: seq<string>) returns (at: nat)
    ensures IsFirstOperation(segments, at)
    decreases |segments|
  {
    if segments == [] || IsOperation(segments[0]) {
      at := 0;
    } else {
      var k := FirstOperation(segments[1..]);
      at := k + 1;
      assert at < |segments| ==> segments[at] == segments[1..][k];
      assert forall j | 0 < j < at :: segments[j] == segments[1..][j - 1];
    }
  }

  /** The path splits at the operation that does not stand first. */
  lemma RealEstateSplit(segments: seq<string>, at: nat)
    requires 0 < at < |segments| && IsFirstOperation(segments, at)
    ensures var middle := RealEstateFrom(RealEstateStart(segments), segments[1..at]);
      && Adds(RealEstateStart(segments), segments[1..at], middle)
      && Adds(middle.(operation := Some(segments[at])), segments[at + 1..], RealEstate(segments))
  {
    var before, behind := segments[1..at], segments[at + 1..];
    var start := RealEstateStart(segments);
    assert segments[1..] == before + ([segments[at]] + behind);
    assert ([segments[at]] + behind)[1..] == behind;
    forall s | s in before ensures !IsOperation(s) {
      var j :| 1 <= j < at && segments[j] == s;
    }
    PlainMeaning(start, before);
    var middle := RealEstateFrom(start, before);
    RealEstateConcat(start, before, [segments[at]] + behind);
    var next := middle.(operation := Some(segments[at]));
    assert RealEstateStep(middle, segments[at]) == next;
    PlainMeaning(next, behind);
  }

  /**
   * On the real-estate host the first operation word anywhere is the operation, the first segment else the
   * region; the marker behind it gives the seller; the first of the others is the category, the rest are
   * filters, in order, further operation words among them.
   */
  lemma RealEstateMeaning(segments: seq<string>)
    ensures SaysRealEstate(segments, RealEstate(segments))
  {
    if segments != [] {
      var at := FirstOperation(segments);
      if at == 0 || at == |segments| {
        UnsplitMeaning(segments, at);
      } else {
        SplitMeaning(segments, at);
      }
      hide SaysWithOperation, RealEstate;
      assert SaysWithOperation(segments, at, RealEstate(segments));
    }
  }

  lemma UnsplitMeaning(segments: seq<string>, at: nat)
    requires segments != [] && IsFirstOperation(segments, at) && (at == 0 || at == |segments|)
    ensures SaysWithOperation(segments, at, RealEstate(segments))
  {
    var start, rest := RealEstateStart(segments), segments[1..];
    assert Words(start) == [];
    forall s | at == |segments| && s in rest ensures !IsOperation(s) {
      var j :| 1 <= j < |segments| && segments[j] == s;
    }
    PlainMeaning(start, rest);
    hide RealEstateFrom, Where;
  }

  lemma SplitMeaning(segments: seq<string>, at: nat)
    requires 0 < at < |segments| && IsFirstOperation(segments, at)
    ensures SaysWithOperation(segments, at, RealEstate(segments))
  {
    var start := RealEstateStart(segments);
    assert !IsOperation(segments[0]);
    assert start == EMPTY_PATH.(region := Some(segments[0])) && Words(start) == [];
    RealEstateSplit(segments, at);
    var middle := RealEstateFrom(start, segments[1..at]);
    var next := middle.(operation := Some(segments[at]));
    assert Words(next) == Words(middle);
    OthersMeaning(segments, at);
    hide RealEstateFrom, RealEstate, RealEstateStart, Where, Words, Others, IsFirstOperation, IsNoMarker;
    var before, behind := segments[1..at], segments[at + 1..];
    assert Words(RealEstate(segments)) == ([] + Where(before, IsNoMarker)) + Where(behind, IsNoMarker);
  }

  lemma InConcat(x: string, a: seq<string>, b: seq<string>)
    ensures x in a + b <==> x in a || x in b
  {
  }

  lemma OperationIsNoMarker(segment: string)
    requires IsOperation(segment)
    ensures IsNoMarker(segment)
  {
    assert "bez-posrednikov"[0] == 'b' && segment[0] != 'b';
  }

  lemma OthersMeaning(segments: seq<string>, at: nat)
    requires 0 < at < |segments| && IsOperation(segments[at])
    ensures Where(Others(segments, at), IsNoMarker)
         == [] + Where(segments[1..at], IsNoMarker) + Where(segments[at + 1..], IsNoMarker)
    ensures "bez-posrednikov" in segments[1..] <==>
              "bez-posrednikov" in segments[1..at] || "bez-posrednikov" in segments[at + 1..]
  {
    OperationIsNoMarker(segments[at]);
    var before, operation, behind := segments[1..at], segments[at], segments[at + 1..];
    assert segments[1..] == before + ([operation] + behind);
    hide IsOperation, Where;
    WhereConcat(before, behind, IsNoMarker);
    InConcat("bez-posrednikov", before, [operation] + behind);
    InCons("bez-posrednikov", operation, behind);
  }

  // ----- the whole URL

  ghost predicate AllIn(values: seq<string>, words: set<string>) { forall v | v in values :: v in words }

  /** What path and parameters say of the seller contradicts nothing. */
  ghost predicate SellersAgree(marker: bool, values: seq<string>) {
    AllIn(values, {"0", "false"}) || (AllIn(values, {"1", "true"}) && !marker)
  }

  ghost function SellerSaid(marker: bool, values: seq<string>): Option<SellerType> {
    if marker then Some(Private)
    else if values == [] then None
    else if AllIn(values, {"0", "false"}) then Some(Private) else Some(Company)
  }

  ghost predicate IsExtra(key: string) { key !in {"cursor", "size", "sort", "cmp"} }

  /** The marker counts anywhere, but on the real-estate host not as the first segment, which is the region. */
  ghost predicate HasMarker(host: string, segments: seq<string>) {
    "bez-posrednikov" in (if host == "re.kufar.by" && segments != [] then segments[1..] else segments)
  }

  /** The query that host, segments behind the listing route and parameters say. */
  ghost predicate SaysQuery(host: string, segments: seq<string>, params: seq<(string, string)>, query: CanonicalQuery) {
    && query.host == host
    && (exists path: PathSemantics ::
          && (if host == "re.kufar.by" then SaysRealEstate(segments, path) else SaysGoods(EMPTY_PATH, segments, path))
          && query.category == path.category && query.pathFilters == path.pathFilters
          && query.region == path.region && query.query == path.query && query.operation == path.operation)
    && query.sellerType == SellerSaid(HasMarker(host, segments), ValuesOf(params, "cmp"))
    && query.sort == (if ValuesOf(params, "sort") == [] then None else Some(ValuesOf(params, "sort")[0]))
    && forall key ::
         Lookup(query.extraParams, key) == if IsExtra(key) then ValuesOf(params, key) else []
  }

  lemma SellerParamMeaning(value: string)
    ensures ParseSellerParam(value) == Ok(Private) <==> value in {"0", "false"}
    ensures ParseSellerParam(value) == Ok(Company) <==> value in {"1", "true"}
  {
    assert "0"[0] == '0' && "false"[0] == 'f' && "1"[0] == '1' && "true"[0] == 't';
  }

  lemma AllSayMeaning(current: Option<SellerType>, values: seq<string>)
    ensures AllSay(current, values, Private) <==> current != Some(Company) && AllIn(values, {"0", "false"})
    ensures AllSay(current, values, Company) <==> current != Some(Private) && AllIn(values, {"1", "true"})
  {
    forall v | v in values
      ensures ParseSellerParam(v) == Ok(Private) <==> v in {"0", "false"}
      ensures ParseSellerParam(v) == Ok(Company) <==> v in {"1", "true"}
    {
      SellerParamMeaning(v);
    }
    hide ParseSellerParam;
    var (private, company) := ({"0", "false"}, {"1", "true"});
    assert AllIn(values, private) <==> forall v | v in values :: ParseSellerParam(v) == Ok(Private);
    assert AllIn(values, company) <==> forall v | v in values :: ParseSellerParam(v) == Ok(Company);
    assert current.None? || current == Some(Private) || current == Some(Company) by { OneSeller(current); }
  }

  lemma OneSeller(seller: Option<SellerType>)
    ensures seller.None? || seller == Some(Private) || seller == Some(Company)
  {
    if seller.Some? {
      assert seller.value.Private? || seller.value.Company?;
    }
  }

  /** The seller part of the result: what the parameters say, merged with the marker. */
  lemma SellerMeaning(marker: bool, params: seq<(string, string)>)
    ensures var path := if marker then Some(Private) else None;
      var values := ValuesOf(params, "cmp");
      var read := ParamsFrom(NO_PARAMS, params);
      && (read.Ok? <==> AllIn(values, {"0", "false"}) || AllIn(values, {"1", "true"}))
      && (read.Ok? ==>
            var said := read.value.sellerType;
            && (said.Some? <==> values != [])
            && (SellersAgree(marker, values) <==> said.None? || MergeSellerType(path, said.value).Ok?)
            && (SellersAgree(marker, values) ==> SellerSaid(marker, values) == if said.Some? then said else path))
  {
    hide ParamsFrom, ValuesOf, AllSay, AllIn;
    var values := ValuesOf(params, "cmp");
    ParamsMeaning(NO_PARAMS, params);
    AllSayMeaning(None, values);
    BothSayNothing(values);
    if KufarUrl.SellersAgree(None, values) {
      var seller :| AllSay(None, values, seller);
      OneSeller(Some(seller));
    }
    var read := ParamsFrom(NO_PARAMS, params);
    if read.Ok? {
      OneSeller(read.value.sellerType);
    }
  }

  lemma BothSayNothing(values: seq<string>)
    ensures AllIn(values, {"0", "false"}) && AllIn(values, {"1", "true"}) <==> values == []
  {
    if values != [] {
      assert values[0] in values;
    }
  }

  lemma PathMeaning(host: string, segments: seq<string>)
    ensures var path := if host == REAL_ESTATE_HOST then RealEstate(segments) else GoodsFrom(EMPTY_PATH, segments);
      && (if host == "re.kufar.by" then SaysRealEstate(segments, path) else SaysGoods(EMPTY_PATH, segments, path))
      && path.sellerType == (if HasMarker(host, segments) then Some(Private) else None)
  {
    hide RealEstate, GoodsFrom, Where, Words, Says;
    if host == "re.kufar.by" {
      RealEstateMeaning(segments);
    } else {
      GoodsMeaning(EMPTY_PATH, segments);
    }
  }

  lemma ExtrasMeaning(params: seq<(string, string)>)
    requires ParamsFrom(NO_PARAMS, params).Ok?
    ensures var read := ParamsFrom(NO_PARAMS, params).value;
      && read.sort == (if ValuesOf(params, "sort") == [] then None else Some(ValuesOf(params, "sort")[0]))
      && forall key :: Lookup(read.extraParams, key) == if IsExtra(key) then ValuesOf(params, key) else []
  {
    hide ParamsFrom;
    ParamsMeaning(NO_PARAMS, params);
    var read := ParamsFrom(NO_PARAMS, params).value;
    forall key ensures Lookup(read.extraParams, key) == if IsExtra(key) then ValuesOf(params, key) else [] {
      assert Lookup([], key) + ExtraValues(params, key) == ExtraValues(params, key);
    }
  }

  /** A listing route is parsed exactly when the sellers agree, to what it says. */
  ghost predicate ListingOutcome(host: string, segments: seq<string>, params: seq<(string, string)>,
                                 r: Result<CanonicalQuery, UrlError>)
  {
    if segments == [] || segments[0] != "l" then r == Err(NotListingUrl)
    else if !SellersAgree(HasMarker(host, segments[1..]), ValuesOf(params, "cmp")) then r == Err(InvalidSellerFilter)
    else r.Ok? && SaysQuery(host, segments[1..], params, r.value)
  }

  lemma ListingMeaning(host: string, segments: seq<string>, params: seq<(string, string)>)
    ensures ListingOutcome(host, segments, params, ParseListing(host, segments, params))
  {
    hide RealEstate, GoodsFrom, ParamsFrom, SaysRealEstate, SaysGoods, HasMarker, ValuesOf, IsExtra;
    if segments != [] && segments[0] == "l" {
      var behind := segments[1..];
      PathMeaning(host, behind);
      SellerMeaning(HasMarker(host, behind), params);
      SellerErrors(params);
      if ParamsFrom(NO_PARAMS, params).Ok? {
        ExtrasMeaning(params);
      }
      hide AllIn, SellersAgree, SellerSaid;
      var path := if host == REAL_ESTATE_HOST then RealEstate(behind) else GoodsFrom(EMPTY_PATH, behind);
      var read := ParamsFrom(NO_PARAMS, params);
      if read.Ok? && ParseListing(host, segments, params).Ok? {
        var query := ParseListing(host, segments, params).value;
        assert query.sellerType == if read.value.sellerType.Some? then read.value.sellerType else path.sellerType;
      }
    }
  }

  lemma {:induction false} SellerErrorsFrom(r: QueryParams, params: seq<(string, string)>)
    ensures ParamsFrom(r, params).Err? ==> ParamsFrom(r, params).error == InvalidSellerFilter
    decreases |params|
  {
    if params != [] {
      var next := ParamStep(r, params[0].0, params[0].1);
      if next.Ok? {
        SellerErrorsFrom(next.value, params[1..]);
      }
    }
  }

  lemma SellerErrors(params: seq<(string, string)>)
    ensures ParamsFrom(NO_PARAMS, params).Err? ==> ParamsFrom(NO_PARAMS, params).error == InvalidSellerFilter
  {
    SellerErrorsFrom(NO_PARAMS, params);
  }

  ghost predicate IsKufarHost(host: string) {
    host == "kufar.by" || exists name: string :: host == name + ".kufar.by"
  }

  lemma HostMeaning(host: string)
    ensures IsKufarHostname(host) <==> IsKufarHost(host)
  {
    var suffix := ".kufar.by";
    if EndsWith(host, suffix) {
      assert host == host[..|host| - |suffix|] + suffix;
    }
    if name: string :| host == name + suffix {
      assert host[|host| - |suffix|..] == suffix;
    }
  }

  ghost predicate IsSegment(s: string) { s != [] }

  lemma {:induction false} NonEmptyMeaning(path: seq<string>)
    ensures KufarUrl.NonEmpty(path) == Where(path, IsSegment)
  {
    if path != [] {
      NonEmptyMeaning(path[1..]);
    }
  }

  /** The query of a URL, or its first error: the protocol, the host, the route, the sellers. */
  ghost predicate UrlOutcome(url: Url, r: Result<CanonicalQuery, UrlError>) {
    if url.protocol != "http:" && url.protocol != "https:" then r == Err(UnsupportedProtocol)
    else if !IsKufarHost(url.host) then r == Err(ForeignHost)
    else ListingOutcome(url.host, Where(url.path, IsSegment), url.params, r)
  }

  lemma UrlMeaning(url: Url)
    ensures UrlOutcome(url, ParseUrl(url))
  {
    hide ListingOutcome, ParseListing, IsKufarHostname, IsKufarHost;
    HostMeaning(url.host);
    NonEmptyMeaning(url.path);
    ListingMeaning(url.host, KufarUrl.NonEmpty(url.path), url.params);
  }

  // ----- the text

  ghost predicate Decodes(codec: Codec, raw: seq<string>, decoded: seq<string>) {
    |decoded| == |raw| && forall k | 0 <= k < |raw| :: codec.decode(raw[k]) == Some(decoded[k])
  }

  lemma {:induction false} DecodeMeaning(codec: Codec, raw: seq<string>)
    ensures var r := DecodeAll(codec, raw);
      if r.Some? then Decodes(codec, raw, r.value) else exists s :: s in raw && codec.decode(s).None?
  {
    if raw != [] {
      var front := raw[..|raw| - 1];
      DecodeMeaning(codec, front);
      assert raw == front + [raw[|raw| - 1]];
      assert raw[|raw| - 1] in raw && forall s | s in front :: s in raw;
    }
  }

  /** A malformed segment counts before the route is looked at, behind protocol and host. */
  ghost predicate TextOutcome(codec: Codec, input: string, r: Result<CanonicalQuery, UrlError>) {
    var url := codec.parse(input);
    if url.None? then r == Err(InvalidUrl)
    else if url.value.protocol != "http:" && url.value.protocol != "https:" then r == Err(UnsupportedProtocol)
    else if !IsKufarHost(url.value.host) then r == Err(ForeignHost)
    else
      var raw := Where(url.value.path, IsSegment);
      if exists s :: s in raw && codec.decode(s).None? then r == Err(InvalidUrl)
      else exists segments :: Decodes(codec, raw, segments) && ListingOutcome(url.value.host, segments, url.value.params, r)
  }

  lemma TextMeaning(codec: Codec, input: string)
    ensures TextOutcome(codec, input, ParseText(codec, input))
  {
    hide ListingOutcome, ParseListing, IsKufarHostname, IsKufarHost;
    var url := codec.parse(input);
    if url.Some? {
      HostMeaning(url.value.host);
      NonEmptyMeaning(url.value.path);
      var raw := KufarUrl.NonEmpty(url.value.path);
      DecodeMeaning(codec, raw);
      if DecodeAll(codec, raw).Some? {
        var segments := DecodeAll(codec, raw).value;
        ListingMeaning(url.value.host, segments, url.value.params);
        forall s | s in raw ensures codec.decode(s).Some? {
          var k :| 0 <= k < |raw| && raw[k] == s;
        }
      }
    }
  }
}
