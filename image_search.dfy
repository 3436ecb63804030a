/**
 * The image pipeline of src/image_search.py: result extraction from the
 * search page, download validation, the media file name and conversion
 * fallback, and insertion into a note field.
 *
 * The network and the HTML parser are outside the model: a page arrives as
 * the sequence of its `img.DS1iW` elements in document order, and a
 * download as the response record the HTTP client would produce.
 */
module ImageSearch {
  import opened Wrappers
  import opened Text
  import opened Bytes
  import opened Constants
  import opened Url
  import opened Enums
  import opened ConfigTypes
  import opened Ffmpeg

  const GOOGLE_IMAGE_SEARCH_URL: string := "https://www.google.com/search"
  const DEFAULT_TITLE: string := "Image"

  // ---------------------------------------------------------------------
  // Result extraction

  /** The enclosing `<a>` of an image, with its `href` attribute if it has one. */
  datatype Anchor = Anchor(href: Option<string>)

  /** One `img.DS1iW` element: its `src` and `alt` attributes and its enclosing link. */
  datatype ImgTag = ImgTag(src: Option<string>, alt: Option<string>, link: Option<Anchor>)

  /** One search result: `{url, thumbnail, title, source}`. */
  datatype Descriptor = Descriptor(url: string, thumbnail: string, title: string, source: string)

  /** The search request: failed outright, or answered with a status and the page's image elements. */
  datatype SearchPage = RequestFailed | Fetched(status: int, images: seq<ImgTag>)

  /** `raise_for_status` raises for client and server errors. */
  predicate StatusOk(status: int) {
    !(400 <= status < 600)
  }

  /** The request URL: the query and the image-results mode, form-encoded. */
  function SearchUrl(query: string): string {
    GOOGLE_IMAGE_SEARCH_URL + "?" + SearchQueryString(query)
  }

  /** The query string of the request URL. */
  function SearchQueryString(query: string): string {
    ("q=" + QuotePlus(query)) + "&" + "udm=2"
  }

  /** The scheme of the request URL. */
  lemma SearchUrlScheme(rest: string)
    ensures SplitScheme("https:" + rest) == ("https", rest)
  {
    var url := "https:" + rest;
    assert url[..5] == "https" && url[6..] == rest;
    IndexOfAt(url, ':', 5);
    assert Lower("https") == "https";
  }

  /** The network location of the request URL. */
  lemma SearchUrlNetloc(rest: string)
    requires |rest| > 0 && rest[0] == '/'
    ensures SplitNetloc("//www.google.com" + rest) == ("www.google.com", rest)
  {
    var s := "//www.google.com" + rest;
    assert s[..2] == "//" && s[16] == '/';
    assert forall k | 2 <= k < 16 :: s[k] !in {'/', '?', '#'};
    assert NetlocEnd(s, 2) == 16;
    assert s[2..16] == "www.google.com" && s[16..] == rest;
  }

  /** The path and query of the request URL, for a query string without `#` or `?`. */
  lemma SearchUrlPathQuery(q: string)
    requires '#' !in q && '?' !in q
    ensures CutAt("/search?" + q, '#') == ("/search?" + q, "")
    ensures CutAt("/search?" + q, '?') == ("/search", q)
  {
    var s := "/search?" + q;
    assert '#' !in s by {
      assert forall k | 0 <= k < |s| :: s[k] != '#' by {
        forall k | 0 <= k < |s| ensures s[k] != '#' {
          if k >= 8 { assert s[k] == q[k - 8]; }
        }
      }
    }
    IndexOfAt(s, '?', 7);
    assert s[..7] == "/search" && s[8..] == q;
  }

  /** The endpoint's path carries no `;params`. */
  lemma SearchUrlPath()
    ensures PathParams("https", "/search") == ("/search", "")
  {
    assert ';' !in "/search";
  }

  /** `urlparse` on the endpoint followed by a query string without `#` or `?`. */
  lemma UrlParseSearchEndpoint(q: string)
    requires '#' !in q && '?' !in q
    ensures UrlParse("https:" + ("//www.google.com" + ("/search?" + q))) == UrlParts("https", "www.google.com", "/search", "", q, "")
  {
    var rest2 := "/search?" + q;
    var rest1 := "//www.google.com" + rest2;
    var url := "https:" + rest1;
    SearchUrlScheme(rest1);
    SearchUrlNetloc(rest2);
    SearchUrlPathQuery(q);
    SearchUrlPath();
    var scheme := SplitScheme(url);
    assert scheme == ("https", rest1);
    var netloc := SplitNetloc(scheme.1);
    assert netloc == ("www.google.com", rest2);
    var fragment := CutAt(netloc.1, '#');
    var query := CutAt(fragment.0, '?');
    assert query == ("/search", q);
  }

  /** The request URL is the endpoint followed by the query string. */
  lemma SearchUrlShape(query: string)
    ensures SearchUrl(query) == "https:" + ("//www.google.com" + ("/search?" + SearchQueryString(query)))
  {
    var q := SearchQueryString(query);
    EndpointPieces();
    ConcatAssoc("https:", "//www.google.com", "/search?", q);
  }

  lemma EndpointPieces()
    ensures GOOGLE_IMAGE_SEARCH_URL + "?" == "https:" + "//www.google.com" + "/search?"
  {
  }

  lemma ConcatAssoc(a: string, b: string, c: string, d: string)
    ensures a + (b + (c + d)) == (a + b + c) + d
  {
  }

  /** `urlparse` takes the request URL apart into the search endpoint and the query string. */
  lemma SearchUrlParts(query: string)
    ensures UrlParse(SearchUrl(query)) == UrlParts("https", "www.google.com", "/search", "", SearchQueryString(query), "")
  {
    var q := SearchQueryString(query);
    var u1 := SearchUrl(query);
    var u2 := "https:" + ("//www.google.com" + ("/search?" + q));
    SearchUrlShape(query);
    assert u1 == u2;
    UrlParseSearchEndpoint(q);
  }

  /** The query string's two fields. */
  lemma SearchQueryFields(query: string)
    ensures Split(SearchQueryString(query), '&') == ["q=" + QuotePlus(query), "udm=2"]
  {
    var field := "q=" + QuotePlus(query);
    assert '&' !in field;
    SplitCons(field, '&', "udm=2");
    SplitNoSep("udm=2", '&');
  }

  /** The `q` field: name and quoted value. */
  lemma QueryField(quoted: string)
    ensures SplitOnce("q=" + quoted, '=') == ("q", Some(quoted))
  {
    var f := "q=" + quoted;
    assert f[1] == '=' && f[..1] == "q" && f[2..] == quoted;
  }

  /** The `udm` field decodes to ("udm", "2"). */
  lemma ModeField()
    ensures QueryPairs(["udm=2"]) == [("udm", "2")]
  {
    var g := "udm=2";
    assert g[3] == '=' && g[..3] == "udm" && g[4..] == "2";
    IndexOfAt(g, '=', 3);
    assert SplitOnce(g, '=') == ("udm", Some("2"));
    FormDecodePlain("udm");
    FormDecodePlain("2");
  }

  /** The two fields decode to the `q` pair (dropped when blank) and the `udm` pair. */
  lemma SearchFieldPairs(quoted: string)
    ensures QueryPairs(["q=" + quoted, "udm=2"]) ==
      (if quoted != "" then [("q", FormDecode(quoted))] else []) + [("udm", "2")]
  {
    var fields := ["q=" + quoted, "udm=2"];
    assert fields[1..] == ["udm=2"];
    ModeField();
    QueryPairsCons(fields);
    QueryField(quoted);
    FormDecodePlain("q");
  }

  /** Parsing the query string gives back the query (when non-empty) and the image mode. */
  lemma SearchQueryRoundTrip(query: string)
    requires IsAscii(query)
    ensures query != "" ==> ParseQs(SearchQueryString(query)) == [("q", query), ("udm", "2")]
    ensures query == "" ==> ParseQs(SearchQueryString(query)) == [("udm", "2")]
  {
    var quoted := QuotePlus(query);
    SearchQueryFields(query);
    assert SearchQueryString(query) != "";
    assert ParseQs(SearchQueryString(query)) == QueryPairs(["q=" + quoted, "udm=2"]);
    SearchFieldPairs(quoted);
    QuotePlusRoundTrip(query);
  }

  /** `parse_qs` handles the first field and then the rest. */
  lemma QueryPairsCons(fields: seq<string>)
    requires |fields| >= 1
    ensures var (name, value) := SplitOnce(fields[0], '=');
      QueryPairs(fields) ==
        (if value.Some? && value.value != "" then [(FormDecode(name), FormDecode(value.value))] else [])
        + QueryPairs(fields[1..])
  {
  }

  /** The endpoint receives exactly the typed query under `q`. */
  lemma SearchUrlCarriesQuery(query: string)
    requires IsAscii(query) && query != ""
    ensures FirstValue(ParseQs(UrlParse(SearchUrl(query)).query), "q") == Some(query)
    ensures FirstValue(ParseQs(UrlParse(SearchUrl(query)).query), "udm") == Some("2")
  {
    SearchUrlParts(query);
    SearchQueryRoundTrip(query);
  }

  /** Sources that are skipped: missing, empty, inline data, or the engine's branding. */
  predicate RejectedSrc(src: Option<string>) {
    src.None? || src.value == "" || StartsWith(src.value, "data:") || StartsWith(src.value, "/images/branding")
  }

  /** A descriptor that may be shown and downloaded. */
  predicate WellFormed(d: Descriptor) {
    && d.url != "" && !StartsWith(d.url, "data:") && !StartsWith(d.url, "/images/branding")
    && d.thumbnail != "" && !StartsWith(d.thumbnail, "data:")
    && d.title != ""
  }

  /**
   * The source page of an image: "" without an enclosing link; the first
   * decoded `imgurl` query value for a redirect link (or "" when the parsed
   * query has none); otherwise the link's raw `href`.
   */
  function SourceUrl(link: Option<Anchor>): (source: string)
    ensures link.None? ==> source == ""
    ensures link.Some? && !Contains(link.value.href.GetOr(""), "imgurl=") ==> source == link.value.href.GetOr("")
    ensures link.Some? && Contains(link.value.href.GetOr(""), "imgurl=") ==>
      source == FirstValue(ParseQs(UrlParse(link.value.href.value).query), "imgurl").GetOr("")
  {
    match link
    case None => ""
    case Some(a) =>
      var href := a.href.GetOr("");
      if href != "" && Contains(href, "imgurl=") then
        FirstValue(ParseQs(UrlParse(href).query), "imgurl").GetOr("")
      else href
  }

  /** An http(s) URL is neither inline data nor a branding path. */
  lemma HttpIsNotRejected(url: string)
    ensures StartsWith(url, "http") ==> !StartsWith(url, "data:") && !StartsWith(url, "/images/branding")
  {
    if StartsWith(url, "http") {
      assert url[0] == 'h';
    }
  }

  /**
   * The body of the extraction loop for one element: nothing for a rejected
   * source; otherwise the source page's URL when it is an http(s) URL, else
   * the thumbnail, with the alt text (or "Image") as title.
   */
  function Describe(tag: ImgTag): (r: Option<Descriptor>)
    ensures r.None? <==> RejectedSrc(tag.src)
    ensures r.Some? ==> WellFormed(r.value)
    ensures r.Some? ==> r.value.thumbnail == tag.src.value && r.value.source == SourceUrl(tag.link)
    ensures r.Some? ==> r.value.url == (if StartsWith(r.value.source, "http") then r.value.source else tag.src.value)
    ensures r.Some? ==> r.value.title == (if tag.alt.Some? && tag.alt.value != "" then tag.alt.value else DEFAULT_TITLE)
  {
    if RejectedSrc(tag.src) then None
    else
      var img := tag.src.value;
      var source := SourceUrl(tag.link);
      var url := if source != "" && StartsWith(source, "http") then source else img;
      var title := if tag.alt.Some? && tag.alt.value != "" then tag.alt.value else DEFAULT_TITLE;
      HttpIsNotRejected(url);
      Some(Descriptor(url, img, title, source))
  }

  /** The descriptors of the accepted elements, in document order. */
  function Extract(tags: seq<ImgTag>): (r: seq<Descriptor>)
    ensures forall d | d in r :: WellFormed(d)
  {
    if tags == [] then []
    else
      match Describe(tags[0])
      case None => Extract(tags[1..])
      case Some(d) => [d] + Extract(tags[1..])
  }

  lemma ExtractSingle(tag: ImgTag)
    ensures Extract([tag]) == match Describe(tag) case None => [] case Some(d) => [d]
  {
    assert [tag][1..] == [];
  }

  /** Appending one element appends its descriptor, if it has one. */
  lemma ExtractStep(prefix: seq<ImgTag>, tag: ImgTag)
    ensures Extract(prefix + [tag]) == Extract(prefix) + (if Describe(tag).Some? then [Describe(tag).value] else [])
  {
    ExtractAppend(prefix, [tag]);
    ExtractSingle(tag);
  }

  /** Extending the examined prefix by one element appends that element's descriptor, if it has one. */
  lemma ExtractPrefixStep(tags: seq<ImgTag>, i: nat)
    requires i < |tags|
    ensures Extract(tags[..i + 1]) == Extract(tags[..i]) + (if Describe(tags[i]).Some? then [Describe(tags[i]).value] else [])
  {
    assert tags[..i + 1] == tags[..i] + [tags[i]];
    ExtractStep(tags[..i], tags[i]);
  }

  /** How many elements have an acceptable source. */
  function CountAccepted(tags: seq<ImgTag>): nat {
    if tags == [] then 0
    else (if RejectedSrc(tags[0].src) then 0 else 1) + CountAccepted(tags[1..])
  }

  /** Extraction distributes over concatenation: document order is kept. */
  lemma {:induction false} ExtractAppend(a: seq<ImgTag>, b: seq<ImgTag>)
    ensures Extract(a + b) == Extract(a) + Extract(b)
  {
    if a == [] {
      assert a + b == b;
    } else {
      assert (a + b)[0] == a[0];
      assert (a + b)[1..] == a[1..] + b;
      ExtractAppend(a[1..], b);
    }
  }

  /** One descriptor per accepted element, each well-formed and taken from an element of the input. */
  lemma {:induction false} ExtractFacts(tags: seq<ImgTag>)
    ensures |Extract(tags)| == CountAccepted(tags) <= |tags|
    ensures forall d | d in Extract(tags) :: WellFormed(d)
    ensures forall d | d in Extract(tags) :: exists t | t in tags :: Describe(t) == Some(d)
  {
    if tags != [] {
      ExtractFacts(tags[1..]);
      forall d | d in Extract(tags) ensures exists t | t in tags :: Describe(t) == Some(d) {
        if d !in Extract(tags[1..]) {
          assert Describe(tags[0]) == Some(d);
        } else {
          var t :| t in tags[1..] && Describe(t) == Some(d);
          assert t in tags;
        }
      }
    }
  }

  /**
   * Python's `len(xs[:n])` for a list of length `len`: the first `n`
   * elements, or for a negative `n` all but the last `-n`.
   */
  function SliceEnd(n: int, len: nat): (r: nat)
    ensures r <= len
    ensures n >= 0 ==> r == if n < len then n else len
    ensures n < 0 ==> len - r == if -n < len then -n else len
  {
    if n >= 0 then (if n < len then n else len)
    else if len + n > 0 then len + n else 0
  }

  /**
   * `search`: nothing without the HTTP and HTML libraries or when the
   * request fails; otherwise the descriptors of the first `maxResults`
   * elements (rejected ones still use up their slots).
   */
  function SearchResults(depsAvailable: bool, page: SearchPage, maxResults: int): (r: seq<Descriptor>)
    ensures page.RequestFailed? || !depsAvailable ==> r == []
    ensures page.Fetched? && !StatusOk(page.status) ==> r == []
    ensures forall d | d in r :: WellFormed(d)
  {
    if !depsAvailable || page.RequestFailed? || !StatusOk(page.status) then []
    else Extract(page.images[..SliceEnd(maxResults, |page.images|)])
  }

  /** Never more than `maxResults`, all well-formed, and only examined elements contribute. */
  lemma SearchResultsBound(depsAvailable: bool, page: SearchPage, maxResults: int)
    ensures var r := SearchResults(depsAvailable, page, maxResults);
      && (maxResults >= 0 ==> |r| <= maxResults)
      && (forall d | d in r :: WellFormed(d))
      && (page.Fetched? && depsAvailable && StatusOk(page.status) ==>
            |r| == CountAccepted(page.images[..SliceEnd(maxResults, |page.images|)]))
  {
    if depsAvailable && page.Fetched? && StatusOk(page.status) {
      ExtractFacts(page.images[..SliceEnd(maxResults, |page.images|)]);
    }
  }

  /** The only name `search` has bound when line 53 builds the URL. */
  const BOUND_BEFORE_URL: set<string> := {"params"}

  /**
   * The names a Python function body binds (assigns or imports) are local to
   * the whole body: reading one at line 53 before the statement that binds it
   * has run raises `UnboundLocalError`.
   */
  predicate ReadsUnboundLocal(name: string, bodyLocals: set<string>) {
    name in bodyLocals && name !in BOUND_BEFORE_URL
  }

  /** The names `search` binds as written, with `import urllib.parse` inside the loop (line 92). */
  const AS_WRITTEN_SEARCH_LOCALS: set<string> :=
    {"params", "url", "response", "soup", "results", "image_tags", "img_tag", "img_url", "thumbnail_url",
     "title", "parent_link", "source_url", "href", "urllib", "parsed", "final_url", "e"}

  /** The names `search` binds once the inner import is dropped, as in the module-level import at line 6. */
  const CORRECTED_SEARCH_LOCALS: set<string> := AS_WRITTEN_SEARCH_LOCALS - {"urllib"}

  /**
   * `GoogleImageSearch.search` for a body that binds `bodyLocals`: fetch the
   * results page for `query` and collect descriptors element by element.
   * Building the URL at line 53 reads `urllib`; when the body makes that name
   * local it is still unbound there, and the handler at line 116 answers []
   * before any request. `fetchPage` stands for the HTTP request and the HTML
   * parse.
   */
  method RunSearch(bodyLocals: set<string>, depsAvailable: bool, query: string, maxResults: int,
                   fetchPage: string -> SearchPage)
    returns (results: seq<Descriptor>)
    ensures ReadsUnboundLocal("urllib", bodyLocals) ==> results == []
    ensures !ReadsUnboundLocal("urllib", bodyLocals) ==>
      results == SearchResults(depsAvailable, fetchPage(SearchUrl(query)), maxResults)
  {
    if !depsAvailable {
      return [];
    }
    if ReadsUnboundLocal("urllib", bodyLocals) {
      return [];
    }
    var page := fetchPage(SearchUrl(query));
    if page.RequestFailed? || !StatusOk(page.status) {
      return [];
    }
    var examined := page.images[..SliceEnd(maxResults, |page.images|)];
    results := ExtractAll(examined);
  }

  /** `search` as written: every call answers [], whatever the page holds. */
  method SearchAsWritten(depsAvailable: bool, query: string, maxResults: int, fetchPage: string -> SearchPage)
    returns (results: seq<Descriptor>)
    ensures results == []
  {
    results := RunSearch(AS_WRITTEN_SEARCH_LOCALS, depsAvailable, query, maxResults, fetchPage);
  }

  /** `search` with the inner import dropped: the extraction of the fetched page. */
  method Search(depsAvailable: bool, query: string, maxResults: int, fetchPage: string -> SearchPage)
    returns (results: seq<Descriptor>)
    ensures results == SearchResults(depsAvailable, fetchPage(SearchUrl(query)), maxResults)
  {
    results := RunSearch(CORRECTED_SEARCH_LOCALS, depsAvailable, query, maxResults, fetchPage);
  }

  const SAMPLE_IMAGE: string := "https://example.org/a.png"

  /** A results page holding one element with an acceptable source and nothing else. */
  const SAMPLE_PAGE: SearchPage := Fetched(200, [ImgTag(Some(SAMPLE_IMAGE), None, None)])

  /** The element's descriptor: its source as url and thumbnail, the default title, no source page. */
  lemma SampleDescribed()
    ensures Describe(ImgTag(Some(SAMPLE_IMAGE), None, None)) == Some(Descriptor(SAMPLE_IMAGE, SAMPLE_IMAGE, DEFAULT_TITLE, ""))
  {
    assert SAMPLE_IMAGE[0] == 'h';
  }

  /** The extraction of the sample page finds its image. */
  lemma SampleSearchFindsImage()
    ensures SearchResults(true, SAMPLE_PAGE, 20) == [Descriptor(SAMPLE_IMAGE, SAMPLE_IMAGE, DEFAULT_TITLE, "")]
  {
    var tag := ImgTag(Some(SAMPLE_IMAGE), None, None);
    assert SAMPLE_PAGE.images[..SliceEnd(20, 1)] == [tag];
    SampleDescribed();
    ExtractSingle(tag);
  }

  /**
   * On the sample page the search as written finds nothing, the corrected
   * one finds the image.
   */
  method SearchDiscrepancy() returns (asWritten: seq<Descriptor>, corrected: seq<Descriptor>)
    ensures asWritten == []
    ensures corrected == [Descriptor(SAMPLE_IMAGE, SAMPLE_IMAGE, DEFAULT_TITLE, "")]
  {
    asWritten := SearchAsWritten(true, "cat", 20, _ => SAMPLE_PAGE);
    corrected := Search(true, "cat", 20, _ => SAMPLE_PAGE);
    SampleSearchFindsImage();
  }

  /** The extraction loop over the examined elements, in document order. */
  method ExtractAll(examined: seq<ImgTag>) returns (results: seq<Descriptor>)
    ensures results == Extract(examined)
  {
    results := [];
    var i := 0;
    while i < |examined|
      invariant 0 <= i <= |examined|
      invariant results == Extract(examined[..i])
    {
      var d := DescribeStep(examined[i]);
      ExtractPrefixStep(examined, i);
      if d.Some? {
        results := results + [d.value];
      }
      i := i + 1;
    }
    assert examined[..|examined|] == examined;
  }

  /** One pass of the extraction loop: skip a rejected source, else build the descriptor. */
  method DescribeStep(tag: ImgTag) returns (d: Option<Descriptor>)
    ensures d == Describe(tag)
  {
    var img := tag.src;
    if img.None? || img.value == "" || StartsWith(img.value, "data:") || StartsWith(img.value, "/images/branding") {
      return None;
    }
    var title := tag.alt.GetOr("");
    var source := LinkSource(tag.link);
    var finalUrl := if source != "" && StartsWith(source, "http") then source else img.value;
    d := Some(Descriptor(finalUrl, img.value, if title != "" then title else DEFAULT_TITLE, source));
  }

  /** The source page lookup inside the extraction loop. */
  method LinkSource(link: Option<Anchor>) returns (source: string)
    ensures source == SourceUrl(link)
  {
    source := "";
    if link.Some? {
      var href := link.value.href.GetOr("");
      if href != "" && Contains(href, "imgurl=") {
        var parsed := ParseQs(UrlParse(href).query);
        var imgurl := FirstValue(parsed, "imgurl");
        if imgurl.Some? {
          source := imgurl.value;
        }
      } else {
        source := href;
      }
    }
  }

  // ---------------------------------------------------------------------
  // Download validation

  /** What the HTTP client yields for an image request; `body` is `None` when reading it fails. */
  datatype Response =
    | TransportError
    | Received(status: int, contentType: Option<string>, contentLength: Option<string>, body: Option<seq<byte>>)

  /** The declared length passes: absent or empty, or a number not above the limit. */
  predicate DeclaredLengthOk(contentLength: Option<string>) {
    contentLength.None? || contentLength.value == ""
    || (ParseInt(contentLength.value).Some? && ParseInt(contentLength.value).value <= MAX_IMAGE_SIZE)
  }

  /**
   * `download_image`: the body, only when the libraries are present, the
   * request succeeds with a non-error status, the content type starts with
   * "image/", the declared length (if any) and the received length are both
   * within `MAX_IMAGE_SIZE`; `None` on every other path.
   */
  function DownloadImage(depsAvailable: bool, response: Response): (r: Option<seq<byte>>)
    ensures r.Some? <==>
      && depsAvailable && response.Received? && StatusOk(response.status)
      && StartsWith(response.contentType.GetOr(""), "image/")
      && DeclaredLengthOk(response.contentLength)
      && response.body.Some? && |response.body.value| <= MAX_IMAGE_SIZE
    ensures r.Some? ==> r.value == response.body.value && |r.value| <= MAX_IMAGE_SIZE
  {
    if !depsAvailable then None
    else match response
      case TransportError => None
      case Received(status, contentType, contentLength, body) =>
        if !StatusOk(status) then None
        else if !StartsWith(contentType.GetOr(""), "image/") then None
        else if contentLength.Some? && contentLength.value != "" && ParseInt(contentLength.value).None? then None
        else if contentLength.Some? && contentLength.value != "" && ParseInt(contentLength.value).value > MAX_IMAGE_SIZE then None
        else if body.None? then None
        else if |body.value| > MAX_IMAGE_SIZE then None
        else Some(body.value)
  }

  // ---------------------------------------------------------------------
  // Saving to the media folder

  /** Conversion is asked for: the switch is on and the format is not "original". */
  predicate ConversionConfigured(config: AppConfig) {
    config.convertFormat && config.outputFormat.Value() != "original"
  }

  /** `Path(urlparse(url).path).suffix.lower()` */
  function UrlSuffix(url: string): (ext: string)
    ensures SuffixShaped(ext)
  {
    var suffix := PathSuffix(UrlParse(url).path);
    LowerKeepsSuffixShape(suffix);
    Lower(suffix)
  }

  /** Empty, or a dot followed by at least one character, none of them a dot or a slash. */
  predicate SuffixShaped(ext: string) {
    ext == "" || (|ext| >= 2 && ext[0] == '.' && '.' !in ext[1..] && '/' !in ext)
  }

  /** Lower-casing touches letters only, so it keeps dots and slashes where they are. */
  lemma LowerKeepsSuffixShape(ext: string)
    requires SuffixShaped(ext)
    ensures SuffixShaped(Lower(ext))
  {
    var low := Lower(ext);
    forall k | 0 <= k < |ext| ensures (low[k] == '.' <==> ext[k] == '.') && (low[k] == '/' <==> ext[k] == '/') {
    }
    if ext != "" {
      assert low[1..] == Lower(ext[1..]);
    }
  }

  /** The extension `imghdr` suggests for the bytes, `.jpg` when it recognises nothing. */
  function SniffedExtension(data: seq<byte>, sniff: seq<byte> -> Option<string>): (ext: string)
    ensures sniff(data).None? ==> ext == ".jpg"
    ensures sniff(data).Some? ==> ext == "." + sniff(data).value
  {
    match sniff(data)
    case Some(detected) => "." + detected
    case None => ".jpg"
  }

  /**
   * The extension rule: the configured output format when conversion is
   * asked for (whether or not it happened); else the URL path's suffix,
   * lower-cased, when it is a supported image suffix; else the sniffed type;
   * else ".jpg".
   */
  function ChooseExtension(config: AppConfig, url: string, data: seq<byte>, sniff: seq<byte> -> Option<string>)
    : (ext: string)
    ensures ConversionConfigured(config) ==> ext == GetFormatExtension(config.outputFormat.Value())
    ensures !ConversionConfigured(config) && UrlSuffix(url) in SUPPORTED_IMAGE_FORMATS ==> ext == UrlSuffix(url)
    ensures !ConversionConfigured(config) && UrlSuffix(url) !in SUPPORTED_IMAGE_FORMATS ==>
      ext == SniffedExtension(data, sniff)
  {
    if ConversionConfigured(config) then GetFormatExtension(config.outputFormat.Value())
    else
      var ext := UrlSuffix(url);
      SupportedFormatsDotted();
      if ext != "" && ext in SUPPORTED_IMAGE_FORMATS then ext
      else SniffedExtension(data, sniff)
  }

  /** With conversion asked for, the extension does not depend on the bytes, so not on whether conversion worked. */
  lemma ExtensionIgnoresConversionOutcome(config: AppConfig, url: string, d1: seq<byte>, d2: seq<byte>,
                                          sniff: seq<byte> -> Option<string>)
    requires ConversionConfigured(config)
    ensures ChooseExtension(config, url, d1, sniff) == ChooseExtension(config, url, d2, sniff)
    ensures ChooseExtension(config, url, d1, sniff) in {".jpg", ".png", ".webp"}
  {
  }

  /** Every extension starts with a dot, so the name always carries one. */
  lemma ExtensionHasDot(config: AppConfig, url: string, data: seq<byte>, sniff: seq<byte> -> Option<string>)
    ensures var ext := ChooseExtension(config, url, data, sniff); |ext| >= 1 && ext[0] == '.'
  {
    var ext := ChooseExtension(config, url, data, sniff);
    if ConversionConfigured(config) {
      assert ext in {".jpg", ".png", ".webp"};
    } else if UrlSuffix(url) in SUPPORTED_IMAGE_FORMATS {
      SupportedFormatsDotted();
      assert ext in SUPPORTED_IMAGE_FORMATS;
    } else {
      assert ext == SniffedExtension(data, sniff);
    }
  }

  /** `"image_search_" + md5(url).hexdigest()[:12] + ext` */
  function MediaFileName(digest: string, ext: string): (name: string)
    requires |digest| >= 12
    ensures StartsWith(name, "image_search_") && |name| == 25 + |ext|
    ensures name[13..25] == digest[..12] && name[25..] == ext
  {
    "image_search_" + digest[..12] + ext
  }

  /** The same URL and extension always give the same name; different 12-character hashes never collide. */
  lemma MediaFileNameInjective(d1: string, d2: string, e1: string, e2: string)
    requires |d1| >= 12 && |d2| >= 12
    ensures MediaFileName(d1, e1) == MediaFileName(d2, e2) <==> d1[..12] == d2[..12] && e1 == e2
  {
    if MediaFileName(d1, e1) == MediaFileName(d2, e2) {
      assert MediaFileName(d1, e1)[13..25] == MediaFileName(d2, e2)[13..25];
      assert MediaFileName(d1, e1)[25..] == MediaFileName(d2, e2)[25..];
    }
  }

  /** The bytes written: converted bytes only when the conversion ran and returned something non-empty. */
  function SavedBytes(original: seq<byte>, attempted: bool, conversion: (Option<seq<byte>>, Option<string>))
    : (r: seq<byte>)
    ensures r == original || (attempted && conversion.0 == Some(r) && r != [])
    ensures attempted && conversion.0.Some? && conversion.0.value != [] ==> r == conversion.0.value
    ensures !attempted || conversion.0.None? || conversion.0.value == [] ==> r == original
  {
    if attempted && conversion.0.Some? && conversion.0.value != [] then conversion.0.value else original
  }

  /**
   * The bytes `save_image_to_media` writes, given where the encoder was found:
   * the conversion's output when conversion is asked for, the encoder is
   * there and the conversion returns non-empty data; the original otherwise.
   */
  function ConvertedBytes(imageData: seq<byte>, config: AppConfig, env: SaveEnv, path: Option<string>): seq<byte> {
    if ConversionConfigured(config) && path.Some? then
      SavedBytes(imageData, true, ConversionResult(path.value, config.outputFormat.Value(), config.ffmpegQuality,
                                                   env.setup, env.run))
    else imageData
  }

  /**
   * The fallback of the save: whenever conversion is not asked for, the
   * encoder is missing, or the conversion reports an error or returns no
   * bytes, the original bytes are written; otherwise exactly the converted ones.
   */
  lemma ConversionFallback(imageData: seq<byte>, config: AppConfig, env: SaveEnv, path: Option<string>)
    ensures !ConversionConfigured(config) || path.None? ==> ConvertedBytes(imageData, config, env, path) == imageData
    ensures ConversionConfigured(config) && path.Some? ==>
      var conv := ConversionResult(path.value, config.outputFormat.Value(), config.ffmpegQuality, env.setup, env.run);
      && (conv.1.Some? || conv.0 == Some([]) ==> ConvertedBytes(imageData, config, env, path) == imageData)
      && (conv.0.Some? && conv.0.value != [] ==> ConvertedBytes(imageData, config, env, path) == conv.0.value)
  {
    if ConversionConfigured(config) && path.Some? {
      var conv := ConversionResult(path.value, config.outputFormat.Value(), config.ffmpegQuality, env.setup, env.run);
      assert conv.1.Some? ==> conv.0.None?;
    }
  }

  /** Where the shared converter found the encoder; `None` while there is no converter yet. */
  function EncoderPath(registry: ConverterRegistry): Option<string>
    reads registry, registry.converter
  {
    if registry.converter == null then None else registry.converter.ffmpegPath
  }

  /** The outside world a save depends on. */
  datatype SaveEnv = SaveEnv(
    collectionReady: bool,     // `mw` and `mw.col` exist
    which: Option<string>,     // what a PATH search for the encoder finds
    setup: TempSetup,          // preparing the conversion's temporary directory
    run: seq<string> -> RunOutcome,
    md5Hex: string -> string,  // `hashlib.md5(url.encode()).hexdigest()`
    sniff: seq<byte> -> Option<string>,  // `imghdr.what`
    writeOk: bool)             // the media store accepts the write

  /** The collection's media folder. */
  class MediaStore {
    var files: map<string, seq<byte>>

    constructor (files0: map<string, seq<byte>>)
      ensures files == files0
    {
      files := files0;
    }

    /** `mw.col.media.write_data`; `ok` is false when the host raises. */
    method WriteData(name: string, data: seq<byte>, ok: bool)
      modifies this
      ensures files == if ok then old(files)[name := data] else old(files)
    {
      if ok {
        files := files[name := data];
      }
    }
  }

  /**
   * The conversion step of `save_image_to_media`: only when conversion is
   * asked for and the encoder is found, and the original bytes are kept
   * unless the conversion returns non-empty data.
   */
  method ConvertIfConfigured(imageData: seq<byte>, config: AppConfig, env: SaveEnv,
                             registry: ConverterRegistry, temp: TempSpace)
    returns (data: seq<byte>)
    requires registry.converter != null ==> registry.converter.Valid()
    requires env.setup.InputWriteFails? ==> env.setup.dir !in temp.live
    requires env.setup.Ready? ==> env.setup.dir !in temp.live
    modifies registry, registry.converter, temp
    ensures temp.live == old(temp.live)
    ensures registry.converter != null ==> registry.converter.Valid()
    ensures !ConversionConfigured(config) ==> data == imageData && registry.converter == old(registry.converter)
    ensures data == imageData || (ConversionConfigured(config) && data != [])
    ensures ConversionConfigured(config) ==> registry.converter != null
    ensures ConversionConfigured(config) && registry.converter.ffmpegPath.None? ==> data == imageData
    ensures ConversionConfigured(config) ==> data == ConvertedBytes(imageData, config, env, registry.converter.ffmpegPath)
    ensures ConversionConfigured(config) && (old(registry.converter) == null || old(registry.converter.ffmpegAvailable).None?)
      ==> registry.converter.ffmpegPath == env.which
    ensures old(registry.converter) != null && old(registry.converter.ffmpegAvailable).Some? ==>
      registry.converter == old(registry.converter) && registry.converter.ffmpegPath == old(registry.converter.ffmpegPath)
  {
    data := imageData;
    if ConversionConfigured(config) {
      var converter := registry.GetConverter();
      var available := converter.IsAvailable(env.which);
      if available {
        var converted, error := converter.ConvertImage(data, config.outputFormat.Value(), config.ffmpegQuality,
                                                        env.which, temp, env.setup, env.run);
        data := SavedBytes(data, true, (converted, error));
      }
    }
  }

  /**
   * `save_image_to_media`: convert first when asked (keeping the original
   * bytes when conversion fails or yields nothing), derive the file name,
   * and write. Only a missing collection or a failed write gives `None`.
   */
  method SaveImageToMedia(imageData: seq<byte>, url: string, config: AppConfig, env: SaveEnv,
                          registry: ConverterRegistry, temp: TempSpace, media: MediaStore)
    returns (filename: Option<string>)
    requires |env.md5Hex(url)| == 32
    requires registry.converter != null ==> registry.converter.Valid()
    requires env.setup.InputWriteFails? ==> env.setup.dir !in temp.live
    requires env.setup.Ready? ==> env.setup.dir !in temp.live
    modifies registry, registry.converter, temp, media
    ensures temp.live == old(temp.live)
    ensures registry.converter != null ==> registry.converter.Valid()
    ensures !env.collectionReady ==> filename.None? && media.files == old(media.files)
    ensures env.collectionReady && !env.writeOk ==> filename.None? && media.files == old(media.files)
    ensures env.collectionReady && env.writeOk ==>
      var saved := ConvertedBytes(imageData, config, env, EncoderPath(registry));
      && filename == Some(MediaFileName(env.md5Hex(url), ChooseExtension(config, url, saved, env.sniff)))
      && media.files == old(media.files)[filename.value := saved]
    ensures env.collectionReady && ConversionConfigured(config) ==> registry.converter != null
    ensures env.collectionReady && env.writeOk && ConversionConfigured(config) ==>
      filename == Some(MediaFileName(env.md5Hex(url), GetFormatExtension(config.outputFormat.Value())))
      && media.files == old(media.files)[filename.value := ConvertedBytes(imageData, config, env, registry.converter.ffmpegPath)]
    ensures env.collectionReady && ConversionConfigured(config) &&
      (old(registry.converter) == null || old(registry.converter.ffmpegAvailable).None?)
      ==> registry.converter.ffmpegPath == env.which
    ensures env.collectionReady && env.writeOk && !ConversionConfigured(config) ==>
      filename == Some(MediaFileName(env.md5Hex(url), ChooseExtension(config, url, imageData, env.sniff)))
      && media.files == old(media.files)[filename.value := imageData]
  {
    if !env.collectionReady {
      return None;
    }
    var data := ConvertIfConfigured(imageData, config, env, registry, temp);
    var digest := env.md5Hex(url)[..12];
    var ext := ChooseExtension(config, url, data, env.sniff);
    var name := "image_search_" + digest + ext;
    assert name == MediaFileName(env.md5Hex(url), ext);
    media.WriteData(name, data, env.writeOk);
    if !env.writeOk {
      return None;
    }
    filename := Some(name);
  }

  // ---------------------------------------------------------------------
  // Inserting into a note field

  /** An editor's note: its fields by name. */
  class Note {
    var fields: map<string, string>

    constructor (fields0: map<string, string>)
      ensures fields == fields0
    {
      fields := fields0;
    }
  }

  class Editor {
    var note: Note?

    constructor (note0: Note?)
      ensures note == note0
    {
      note := note0;
    }
  }

  function ImageHtml(filename: string): string {
    "<img src=\"" + filename + "\">"
  }

  /**
   * The new field content: the image alone when the field is blank,
   * otherwise the old content, a line break and the image.
   */
  function InsertedContent(current: string, filename: string): (r: string)
    ensures IsBlank(current) ==> r == ImageHtml(filename)
    ensures !IsBlank(current) ==> |r| > |current| && r[..|current|] == current && r[|current|..] == "<br>" + ImageHtml(filename)
  {
    if !IsBlank(current) then current + "<br>" + ImageHtml(filename) else ImageHtml(filename)
  }

  /** The inserted tag always ends the field. */
  lemma InsertedContentEndsWithImage(current: string, filename: string)
    ensures var r := InsertedContent(current, filename);
      |r| >= |ImageHtml(filename)| && r[|r| - |ImageHtml(filename)|..] == ImageHtml(filename)
  {
    var r := InsertedContent(current, filename);
    if !IsBlank(current) {
      assert r == (current + "<br>") + ImageHtml(filename);
    }
  }

  /**
   * `insert_image_to_field`: false and no change without a note or without
   * the field; otherwise the field takes the new content, the other fields
   * keep theirs, and the result is true.
   */
  method InsertImageToField(editor: Editor, fieldName: string, filename: string) returns (ok: bool)
    modifies editor.note
    ensures editor.note == null ==> !ok
    ensures editor.note != null && fieldName !in old(editor.note.fields) ==>
      !ok && editor.note.fields == old(editor.note.fields)
    ensures editor.note != null && fieldName in old(editor.note.fields) ==>
      ok && editor.note.fields == old(editor.note.fields)[fieldName := InsertedContent(old(editor.note.fields)[fieldName], filename)]
  {
    var note := editor.note;
    if note == null {
      return false;
    }
    if fieldName !in note.fields {
      return false;
    }
    var imgHtml := ImageHtml(filename);
    var current := note.fields[fieldName];
    if !IsBlank(current) {
      note.fields := note.fields[fieldName := current + "<br>" + imgHtml];
    } else {
      note.fields := note.fields[fieldName := imgHtml];
    }
    ok := true;
  }
}
