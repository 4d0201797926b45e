/**
 * Listing URLs as texts. Taking a text apart and percent coding belong to the platform and enter as a
 * codec; both can refuse their input.
 */
module KufarUrlText {
  import opened Basics
  import opened CanonicalQueries
  import opened KufarUrl

  /** `parse` and `assemble` take a text apart and put it together; `encode` and `decode` are for one path segment. */
  datatype Codec = Codec(
    parse: string -> Option<Url>,
    assemble: Url -> string,
    decode: string -> Option<string>,
    encode: string -> string)

  function DecodeAll(codec: Codec, segments: seq<string>): Option<seq<string>> {
    if segments == [] then Some([]) else
      var front := DecodeAll(codec, segments[..|segments| - 1]);
      var last := codec.decode(segments[|segments| - 1]);
      if front.None? || last.None? then None else Some(front.value + [last.value])
  }

  /** `parseKufarListingUrl`: the path of `codec.parse(input)` is still encoded. */
  function ParseText(codec: Codec, input: string): Result<CanonicalQuery, UrlError> {
    var url := codec.parse(input);
    if url.None? then Err(InvalidUrl)
    else if url.value.protocol != "http:" && url.value.protocol != "https:" then Err(UnsupportedProtocol)
    else if !IsKufarHostname(url.value.host) then Err(ForeignHost)
    else
      var segments := DecodeAll(codec, KufarUrl.NonEmpty(url.value.path));
      if segments.None? then Err(InvalidUrl) else ParseListing(url.value.host, segments.value, url.value.params)
  }

  // ----- the parser as written

  method DecodeSegments(codec: Codec, segments: seq<string>) returns (decoded: Option<seq<string>>)
    ensures decoded == DecodeAll(codec, segments)
  {
    var result: seq<string> := [];
    var i := 0;
    while i < |segments|
      invariant i <= |segments|
      invariant DecodeAll(codec, segments[..i]) == Some(result)
    {
      assert segments[..i + 1][..i] == segments[..i];
      var segment := codec.decode(segments[i]);
      if segment.None? {
        MalformedStays(codec, segments, i + 1);
        return None;
      }
      result := result + [segment.value];
      i := i + 1;
    }
    assert segments[..i] == segments;
    decoded := Some(result);
  }

  lemma {:induction false} MalformedStays(codec: Codec, segments: seq<string>, k: nat)
    requires k <= |segments| && DecodeAll(codec, segments[..k]).None?
    ensures DecodeAll(codec, segments).None?
    decreases |segments|
  {
    if k < |segments| {
      var front := segments[..|segments| - 1];
      assert front[..k] == segments[..k];
      MalformedStays(codec, front, k);
    } else {
      assert segments[..k] == segments;
    }
  }

  method ParseKufarListingUrl(codec: Codec, input: string) returns (r: Result<CanonicalQuery, UrlError>)
    ensures r == ParseText(codec, input)
  {
    hide IsKufarHostname, DecodeAll;
    var url := codec.parse(input);
    if url.None? {
      return Err(InvalidUrl);
    }
    var Url(protocol, host, rawPath, query) := url.value;
    if protocol != "http:" && protocol != "https:" {
      return Err(UnsupportedProtocol);
    }
    if !IsKufarHostname(host) {
      return Err(ForeignHost);
    }
    var decoded := DecodeSegments(codec, KufarUrl.NonEmpty(rawPath));
    if decoded.None? {
      return Err(InvalidUrl);
    }
    var segments := decoded.value;
    if segments == [] || segments[0] != "l" {
      return Err(NotListingUrl);
    }
    var path: PathSemantics;
    if host == REAL_ESTATE_HOST {
      path := ParseRealEstatePath(segments[1..]);
    } else {
      path := ParseGoodsPath(segments[1..]);
    }
    var params := ParseQueryParams(query);
    if params.Err? {
      return Err(params.error);
    }
    var sellerType := path.sellerType;
    if params.value.sellerType.Some? {
      var merged := MergeSellerType(path.sellerType, params.value.sellerType.value);
      if merged.Err? {
        return Err(merged.error);
      }
      sellerType := Some(merged.value);
    }
    r := Ok(CanonicalQuery(host, path.category, path.query, path.region, sellerType,
                           params.value.sort, path.operation, path.pathFilters, params.value.extraParams));
  }

  // ----- through the text

  function EncodeAll(codec: Codec, segments: seq<string>): seq<string> {
    seq(|segments|, i requires 0 <= i < |segments| => codec.encode(segments[i]))
  }

  /** Percent coding is undone by decoding, loses no segment, and a text put together is taken apart again. */
  ghost predicate Faithful(codec: Codec) {
    && (forall s: string | s != [] :: codec.encode(s) != [] && codec.decode(codec.encode(s)) == Some(s))
    && (forall s: string | s != [] && codec.decode(s).Some? :: codec.decode(s).value != [])
    && forall url: Url :: codec.parse(codec.assemble(url)) == Some(url)
  }

  /** `buildKufarListingUrl`, down to the text */
  function PrintText(codec: Codec, query: CanonicalQuery): string {
    var url := BuildKufarListingUrl(query);
    codec.assemble(url.(path := EncodeAll(codec, url.path)))
  }

  lemma {:induction false} DecodeEncoded(codec: Codec, segments: seq<string>)
    requires Faithful(codec) && forall i | 0 <= i < |segments| :: segments[i] != []
    ensures DecodeAll(codec, EncodeAll(codec, segments)) == Some(segments)
  {
    if segments != [] {
      var front := segments[..|segments| - 1];
      DecodeEncoded(codec, front);
      var last := segments[|segments| - 1];
      assert last != [] && segments == front + [last];
      assert EncodeAll(codec, segments)[..|segments| - 1] == EncodeAll(codec, front);
      assert EncodeAll(codec, segments)[|segments| - 1] == codec.encode(last);
    }
  }

  lemma {:induction false} DecodedNonEmpty(codec: Codec, segments: seq<string>)
    requires Faithful(codec) && forall i | 0 <= i < |segments| :: segments[i] != []
    ensures DecodeAll(codec, segments).Some? ==> forall s | s in DecodeAll(codec, segments).value :: s != []
  {
    if segments != [] {
      DecodedNonEmpty(codec, segments[..|segments| - 1]);
    }
  }

  /** A text that parses is a URL that parses. */
  lemma TextIsUrl(codec: Codec, input: string)
    requires Faithful(codec) && ParseText(codec, input).Ok?
    ensures codec.parse(input).Some?
    ensures var url := codec.parse(input).value;
            var segments := DecodeAll(codec, KufarUrl.NonEmpty(url.path));
            segments.Some? && ParseUrl(url.(path := segments.value)) == ParseText(codec, input)
  {
    hide ParseListing, IsKufarHostname;
    var url := codec.parse(input).value;
    var raw := KufarUrl.NonEmpty(url.path);
    forall i | 0 <= i < |raw| ensures raw[i] != [] {
      assert raw[i] in raw;
    }
    DecodedNonEmpty(codec, raw);
    AllNonEmpty(DecodeAll(codec, KufarUrl.NonEmpty(url.path)).value);
  }

  lemma PrintedIsUrl(codec: Codec, query: CanonicalQuery)
    requires Faithful(codec) && ParsedShape(query)
    ensures ParseText(codec, PrintText(codec, query)) == ParseUrl(BuildKufarListingUrl(query))
  {
    hide ParseListing, IsKufarHostname, BuildListingPath, BuildParams, ParsedShape;
    var path := BuildListingPath(query);
    BuiltSegments(query);
    forall i | 0 <= i < |path| ensures path[i] != [] {
      assert path[i] in path;
    }
    DecodeEncoded(codec, path);
    var encoded := EncodeAll(codec, path);
    forall s | s in encoded ensures s != [] {
      var i :| 0 <= i < |encoded| && encoded[i] == s;
    }
    AllNonEmpty(encoded);
    AllNonEmpty(path);
  }

  /** The round trip of a text: the printed text of its query parses, to an equal query exactly under the same condition. */
  lemma PrintedTextParsesBack(codec: Codec, input: string)
    requires Faithful(codec) && ParseText(codec, input).Ok?
    ensures var query := ParseText(codec, input).value;
            var again := ParseText(codec, PrintText(codec, query));
            && again.Ok?
            && (CanonicalQueryEquals(query, again.value) <==> !LosesSeller(query))
            && PrintText(codec, again.value) == PrintText(codec, query)
  {
    hide ParseText, ParseUrl, BuildKufarListingUrl, CanonicalQueryEquals, ParsedShape;
    TextIsUrl(codec, input);
    var url := codec.parse(input).value;
    var decoded := url.(path := DecodeAll(codec, KufarUrl.NonEmpty(url.path)).value);
    ParsedIsShaped(decoded);
    PrintedUrlParsesBack(decoded);
    PrintedIsUrl(codec, ParseText(codec, input).value);
  }
}
