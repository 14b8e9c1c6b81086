/** How XhrMonitorService turns a finished network exchange (a HAR entry) into the
    captured-request record it hands to its subscribers. `JSON.parse` and `new URL`
    are library calls; they come in as the functions `parseJson` and `parseUrl`. */
module XhrCapture {
  import opened Basics

  datatype Header = Header(name: string, value: string)
  datatype PostData = PostData(text: Option<string>)
  datatype HarRequest = HarRequest(url: string, httpMethod: string, headers: Option<seq<Header>>, postData: Option<PostData>)
  datatype HarContent = HarContent(mimeType: Option<string>, size: Option<int>)
  datatype HarResponse = HarResponse(status: int, statusText: string, headers: Option<seq<Header>>, content: Option<HarContent>)
  /** A HAR entry; `resourceType` is its `_resourceType`, absent on some entries. */
  datatype HarEntry = HarEntry(resourceType: Option<string>, request: HarRequest, response: HarResponse)

  /** What `new URL(url)` yields when it parses. */
  datatype UrlParts = UrlParts(pathname: string, search: string)

  /** A body as the record carries it: `null`, a parsed JSON value, or the text itself. */
  datatype Body<J> = Null | Parsed(json: J) | Raw(text: string)

  /** The `requestInfo` object built first. */
  datatype RequestInfo = RequestInfo(url: string, httpMethod: string, status: int, statusText: string,
                                     timestamp: string, mimeType: string, size: int)

  datatype ResponseData<J> = ResponseData(
    success: bool, status: int, statusText: string, data: Body<J>, url: string, httpMethod: string,
    requestHeaders: map<string, string>, responseHeaders: map<string, string>, requestPayload: Body<J>)

  datatype Captured<J> = Captured(
    route: string, httpMethod: string, url: string, timestamp: string, status: int, statusText: string,
    success: bool, captured: bool, responseData: ResponseData<J>)

  /** Only XHR and fetch exchanges are captured. */
  predicate IsCapturedType(resourceType: Option<string>) {
    resourceType == Some("xhr") || resourceType == Some("fetch")
  }

  predicate IsSuccess(status: int) {
    200 <= status && status < 400
  }

  /** `x || ''` on an optional string. */
  function OrEmpty(s: Option<string>): string {
    if s.Some? then s.value else ""
  }

  /** `x || 0` on an optional number. */
  function OrZero(n: Option<int>): int {
    if n.Some? then n.value else 0
  }

  function RequestInfoOf(entry: HarEntry, now: string): RequestInfo {
    var content := entry.response.content;
    RequestInfo(entry.request.url, entry.request.httpMethod, entry.response.status,
                entry.response.statusText, now,
                if content.Some? then OrEmpty(content.value.mimeType) else "",
                if content.Some? then OrZero(content.value.size) else 0)
  }

  /** The header at `i` is the last one with its name. */
  ghost predicate LastWithName(hs: seq<Header>, i: int)
    requires 0 <= i < |hs|
  {
    forall j :: i < j < |hs| ==> hs[j].name != hs[i].name
  }

  /** The `forEach` that fills a plain object from a header list, in list order.
      Assigning a string to `__proto__` is ignored by JavaScript. */
  function FoldHeaders(hs: seq<Header>): map<string, string> {
    if hs == [] then map[]
    else
      var h := hs[|hs| - 1];
      var m := FoldHeaders(hs[..|hs| - 1]);
      if h.name == "__proto__" then m else m[h.name := h.value]
  }

  /** The object's keys are exactly the listed names other than `__proto__`. */
  lemma {:induction false} FoldHeadersKeys(hs: seq<Header>, name: string)
    ensures name in FoldHeaders(hs) <==>
      name != "__proto__" && exists i :: 0 <= i < |hs| && hs[i].name == name
  {
    if hs != [] {
      var init := hs[..|hs| - 1];
      FoldHeadersKeys(init, name);
      assert forall i :: 0 <= i < |init| ==> init[i] == hs[i];
      if name != "__proto__" && name in FoldHeaders(hs) && hs[|hs| - 1].name != name {
        var i :| 0 <= i < |init| && init[i].name == name;
        assert hs[i].name == name;
      }
    }
  }

  /** Each key holds the value of the last header with that name. */
  lemma {:induction false} FoldHeadersLastValue(hs: seq<Header>, i: nat)
    requires i < |hs| && hs[i].name != "__proto__" && LastWithName(hs, i)
    ensures hs[i].name in FoldHeaders(hs) && FoldHeaders(hs)[hs[i].name] == hs[i].value
  {
    var init := hs[..|hs| - 1];
    if i < |hs| - 1 {
      assert init[i] == hs[i];
      assert LastWithName(init, i) by {
        forall j | i < j < |init| ensures init[j].name != init[i].name {
          assert init[j] == hs[j];
        }
      }
      FoldHeadersLastValue(init, i);
    }
  }

  /** A missing header list gives an empty object. */
  function HeaderMap(headers: Option<seq<Header>>): (r: map<string, string>)
    ensures headers.None? ==> r == map[]
  {
    if headers.Some? then FoldHeaders(headers.value) else map[]
  }

  /** The request payload: `postData.text || null`, parsed as JSON when that succeeds. */
  function Payload<J>(postData: Option<PostData>, parseJson: string -> Option<J>): Body<J> {
    if postData.None? then Null
    else
      var text := OrEmpty(postData.value.text);
      if text == "" then Null
      else match parseJson(text)
        case Some(j) => Parsed(j)
        case None => Raw(text)
  }

  /** The response data: the content as `getContent` delivered it, parsed as JSON when it
      is non-empty, the MIME type says JSON and parsing succeeds. */
  function ResponseBodyOf<J>(content: Option<string>, mimeType: string, parseJson: string -> Option<J>): Body<J> {
    if content.None? then Null
    else if content.value != "" && Contains(mimeType, "application/json") then
      match parseJson(content.value)
      case Some(j) => Parsed(j)
      case None => Raw(content.value)
    else Raw(content.value)
  }

  /** `extractRoute(url)`: path and query when the URL parses, else the URL itself. */
  function ExtractRoute(url: string, parseUrl: string -> Option<UrlParts>): string {
    match parseUrl(url)
    case Some(parts) => parts.pathname + parts.search
    case None => url
  }

  /** `handleRequest(harEntry)` up to the record it notifies with, given what
      `getContent` delivered and the time it ran. */
  function Capture<J>(entry: HarEntry, content: Option<string>, now: string,
                      parseJson: string -> Option<J>, parseUrl: string -> Option<UrlParts>): Option<Captured<J>>
  {
    if !IsCapturedType(entry.resourceType) then None
    else
      var info := RequestInfoOf(entry, now);
      var success := IsSuccess(info.status);
      Some(Captured(
        ExtractRoute(info.url, parseUrl), info.httpMethod, info.url, info.timestamp, info.status,
        info.statusText, success, true,
        ResponseData(success, info.status, info.statusText,
                     ResponseBodyOf(content, info.mimeType, parseJson), info.url, info.httpMethod,
                     HeaderMap(entry.request.headers), HeaderMap(entry.response.headers),
                     Payload(entry.request.postData, parseJson))))
  }

  // ---------------------------------------------------------------------------
  // Properties

  /** Entries that are neither XHR nor fetch produce nothing; the others always do. */
  lemma CaptureFiltersByResourceType<J>(entry: HarEntry, content: Option<string>, now: string,
                                        parseJson: string -> Option<J>, parseUrl: string -> Option<UrlParts>)
    ensures Capture(entry, content, now, parseJson, parseUrl).Some? <==>
            entry.resourceType == Some("xhr") || entry.resourceType == Some("fetch")
  {
  }

  /** `success` means a status in [200, 400), and both copies of it agree; both copies of
      status, status text, URL and method are the entry's own. */
  lemma CaptureSuccessAndCopies<J>(entry: HarEntry, content: Option<string>, now: string,
                                   parseJson: string -> Option<J>, parseUrl: string -> Option<UrlParts>)
    requires IsCapturedType(entry.resourceType)
    ensures var c := Capture(entry, content, now, parseJson, parseUrl).value;
      && (c.success <==> 200 <= entry.response.status < 400)
      && c.responseData.success == c.success
      && c.status == c.responseData.status == entry.response.status
      && c.statusText == c.responseData.statusText == entry.response.statusText
      && c.url == c.responseData.url == entry.request.url
      && c.httpMethod == c.responseData.httpMethod == entry.request.httpMethod
      && c.captured && c.timestamp == now
      && c.route == ExtractRoute(entry.request.url, parseUrl)
  {
  }

  /** Missing content information gives MIME type `''` and size 0, and then the response
      text is never handed to the JSON parser. */
  lemma MissingContentDefaults<J>(entry: HarEntry, content: Option<string>, now: string,
                                  parseJson: string -> Option<J>)
    requires entry.response.content.None?
    ensures RequestInfoOf(entry, now).mimeType == "" && RequestInfoOf(entry, now).size == 0
    ensures ResponseBodyOf(content, RequestInfoOf(entry, now).mimeType, parseJson)
            == if content.Some? then Raw(content.value) else Null
  {
    if content.Some? {
      NotContainsMissingChar("", "application/json", 'a');
    }
  }

  /** A later header with the same name wins over an earlier one. */
  lemma LaterHeaderWins(a: string, b: string, c: string)
    requires a != "__proto__"
    ensures FoldHeaders([Header(a, b), Header(a, c)]) == map[a := c]
  {
    var hs := [Header(a, b), Header(a, c)];
    assert hs[..1] == [Header(a, b)];
    assert [Header(a, b)][..0] == [];
    assert FoldHeaders([Header(a, b)]) == map[a := b];
    assert map[a := b][a := c] == map[a := c];
  }

  /** A URL that does not parse is its own route. */
  lemma UnparsableUrlIsItsOwnRoute(url: string, parseUrl: string -> Option<UrlParts>)
    requires parseUrl(url).None?
    ensures ExtractRoute(url, parseUrl) == url
  {
  }

  /** No post data, or empty post text, gives a `null` payload. */
  lemma EmptyPayloadIsNull<J>(postData: Option<PostData>, parseJson: string -> Option<J>)
    requires postData.None? || OrEmpty(postData.value.text) == ""
    ensures Payload(postData, parseJson) == Null
  {
  }
}
