/** `fetchXtream` (services/playlistParser.ts:93-119, public/parser.worker.js:86-108): two calls of
    the Xtream `player_api.php`, then one channel per live stream, filed under its category. */
module Xtream {
  import opened Types
  import opened Text
  import opened Proxy
  import opened Net
  import opened Grouping

  const ApiPath := "/player_api.php?username="
  const PasswordParam := "&password="
  const CategoriesAction := "&action=get_live_categories"
  const StreamsAction := "&action=get_live_streams"
  const DefaultExtension := "ts"
  const DefaultGroup := "General"

  /** The TypeErrors the JavaScript engine (V8) raises on malformed records. */
  const FindMissing := "categoriesData.find is not a function"
  const MapMissing := "streamsData.map is not a function"

  function NoToString(id: Scalar): string {
    "Cannot read properties of " + (if id.Null? then "null" else "undefined") + " (reading 'toString')"
  }

  // ---------------------------------------------------------------------------
  // URLs

  /** `api`: the possibly proxied base URL followed by the API path and the credentials. */
  function ApiBase(baseUrl: string, username: string, password: Option<string>, secure: bool): string {
    OrElse(Proxify(Some(baseUrl), secure), baseUrl) + ApiPath + username + PasswordParam + OrElse(password, "")
  }

  /** The live-stream location, built from the base URL as given. */
  function StreamLocation(baseUrl: string, username: string, password: Option<string>, id: string, extension: Option<string>): (r: string)
    ensures r != ""
  {
    baseUrl + "/live/" + username + "/" + OrElse(password, "") + "/" + id + "." + OrElse(extension, DefaultExtension)
  }

  // ---------------------------------------------------------------------------
  // The mapping

  predicate HasId(s: Item) {
    s.streamId.Num? || s.streamId.Str?
  }

  /** `stream.stream_id.toString()`, which is also what the template literal writes. */
  function IdText(id: Scalar): Result<string> {
    match id
    case Num(n) => Ok(IntToString(n))
    case Str(s) => Ok(s)
    case _ => Err(TypeFault(NoToString(id)))
  }

  predicate IsFirstMatch(cats: seq<Item>, id: Scalar, k: int) {
    0 <= k < |cats| && cats[k].categoryId == id && forall j :: 0 <= j < k ==> cats[j].categoryId != id
  }

  /** `categoriesData.find(cat => cat.category_id === id)`. */
  function FindCategory(cats: seq<Item>, id: Scalar): (r: Option<Item>)
    ensures r.Some? ==> exists k :: IsFirstMatch(cats, id, k) && cats[k] == r.value
    ensures r.None? <==> forall k :: 0 <= k < |cats| ==> cats[k].categoryId != id
  {
    if cats == [] then None
    else if cats[0].categoryId == id then
      assert IsFirstMatch(cats, id, 0);
      Some(cats[0])
    else
      var r := FindCategory(cats[1..], id);
      if r.Some? then
        var k :| IsFirstMatch(cats[1..], id, k) && cats[1..][k] == r.value;
        assert IsFirstMatch(cats, id, k + 1);
        r
      else
        assert forall k :: 0 < k < |cats| ==> cats[k].categoryId == cats[1..][k - 1].categoryId;
        r
  }

  /** `find(...)?.category_name || 'General'`. */
  function GroupOf(cats: seq<Item>, id: Scalar): string {
    var found := FindCategory(cats, id);
    OrElse(if found.Some? then found.value.categoryName else None, DefaultGroup)
  }

  /** The channel the `map` callback builds for one stream. */
  function StreamChannel(s: Item, cats: seq<Item>, baseUrl: string, username: string, password: Option<string>, secure: bool): Channel
    requires HasId(s)
  {
    var id := IdText(s.streamId).value;
    Channel(id, s.name, Proxify(s.icon, secure),
            Proxify(Some(StreamLocation(baseUrl, username, password, id, s.extension)), secure).value,
            GroupOf(cats, s.categoryId), s.epgId)
  }

  /** `streamsData.map(...)`, with `cats` = `None` when `categoriesData` is not an array. The
      callback reads `stream_id` before it calls `find`, and `map` stops at the first throw. */
  function MapStreams(streams: seq<Item>, cats: Option<seq<Item>>, baseUrl: string, username: string,
                      password: Option<string>, secure: bool): (r: Result<seq<Channel>>)
    ensures r.Ok? <==> (forall k :: 0 <= k < |streams| ==> HasId(streams[k])) && (streams != [] ==> cats.Some?)
    ensures r.Ok? ==> |r.value| == |streams|
    ensures r.Ok? ==> forall k :: 0 <= k < |streams| ==>
                        r.value[k] == StreamChannel(streams[k], cats.value, baseUrl, username, password, secure)
    ensures r.Err? ==> r.error.TypeFault?
  {
    if streams == [] then Ok([])
    else
      var s := streams[0];
      match IdText(s.streamId)
      case Err(e) => Err(e)
      case Ok(_) =>
        if cats.None? then Err(TypeFault(FindMissing))
        else
          var rest := MapStreams(streams[1..], cats, baseUrl, username, password, secure);
          if rest.Err? then rest
          else Ok([StreamChannel(s, cats.value, baseUrl, username, password, secure)] + rest.value)
  }

  // ---------------------------------------------------------------------------
  // The two calls

  /** A categories reply that lets `fetchXtream` go on to the streams call. */
  predicate Usable(r: Response) {
    r.Reply? && r.ok && !r.json.Unparsable?
  }

  function FetchXtream(fetch: string -> Response, baseUrl: string, username: string, password: Option<string>, secure: bool): Outcome<seq<Category>> {
    var api := ApiBase(baseUrl, username, password, secure);
    var catUrl := api + CategoriesAction;
    var catResponse := fetch(catUrl);
    if catResponse.Refused? then Outcome([catUrl], Err(Rejected(catResponse.message)))
    else if !catResponse.ok then Outcome([catUrl], Err(CategoriesUnavailable))
    else if catResponse.json.Unparsable? then Outcome([catUrl], Err(Rejected(catResponse.json.message)))
    else
      var streamUrl := api + StreamsAction;
      var requests := [catUrl, streamUrl];
      var streamResponse := fetch(streamUrl);
      if streamResponse.Refused? then Outcome(requests, Err(Rejected(streamResponse.message)))
      else if !streamResponse.ok then Outcome(requests, Err(StreamsUnavailable))
      else
        match streamResponse.json
        case Unparsable(m) => Outcome(requests, Err(Rejected(m)))
        case NotAnArray => Outcome(requests, Err(TypeFault(MapMissing)))
        case Records(streams) =>
          var cats := if catResponse.json.Records? then Some(catResponse.json.items) else None;
          var channels := MapStreams(streams, cats, baseUrl, username, password, secure);
          if channels.Err? then Outcome(requests, Err(channels.error))
          else Outcome(requests, Ok(Group(channels.value)))
  }

  // ---------------------------------------------------------------------------
  // Properties

  /** The categories call comes first; the streams call is made only after a usable categories
      reply, and nothing else is requested. */
  lemma CallOrder(fetch: string -> Response, baseUrl: string, username: string, password: Option<string>, secure: bool)
    ensures var o, api := FetchXtream(fetch, baseUrl, username, password, secure), ApiBase(baseUrl, username, password, secure);
            && 1 <= |o.requests| <= 2
            && o.requests[0] == api + CategoriesAction
            && (|o.requests| == 2 <==> Usable(fetch(api + CategoriesAction)))
            && (|o.requests| == 2 ==> o.requests[1] == api + StreamsAction)
  {
  }

  /** A failed categories call throws its own error and no streams call is made; a failed
      streams call throws too. */
  lemma ErrorOrder(fetch: string -> Response, baseUrl: string, username: string, password: Option<string>, secure: bool)
    ensures var o, api := FetchXtream(fetch, baseUrl, username, password, secure), ApiBase(baseUrl, username, password, secure);
            var cat, str := fetch(api + CategoriesAction), fetch(api + StreamsAction);
            && (cat.Reply? && !cat.ok ==> o == Outcome([api + CategoriesAction], Err(CategoriesUnavailable)))
            && (cat.Refused? ==> o == Outcome([api + CategoriesAction], Err(Rejected(cat.message))))
            && (Usable(cat) && str.Reply? && !str.ok ==> o.result == Err(StreamsUnavailable))
            && (Usable(cat) && str.Refused? ==> o.result == Err(Rejected(str.message)))
  {
  }

  /** What a successful `fetchXtream` went through: a usable categories reply, an ok streams
      reply holding an array, and a `map` that did not throw. */
  lemma XtreamSucceeded(fetch: string -> Response, baseUrl: string, username: string, password: Option<string>, secure: bool)
    requires FetchXtream(fetch, baseUrl, username, password, secure).result.Ok?
    ensures var o, api := FetchXtream(fetch, baseUrl, username, password, secure), ApiBase(baseUrl, username, password, secure);
            var cat, str := fetch(api + CategoriesAction), fetch(api + StreamsAction);
            && Usable(cat) && str.Reply? && str.ok && str.json.Records?
            && var mapped := MapStreams(str.json.items, if cat.json.Records? then Some(cat.json.items) else None,
                                        baseUrl, username, password, secure);
               mapped.Ok? && o.result.value == Group(mapped.value)
  {
  }

  /** No partial result: a catalog comes back only when both calls succeeded, and it is the
      grouping of exactly one channel per stream, in stream order. */
  lemma CatalogFromStreams(fetch: string -> Response, baseUrl: string, username: string, password: Option<string>, secure: bool)
    requires FetchXtream(fetch, baseUrl, username, password, secure).result.Ok?
    ensures var o, api := FetchXtream(fetch, baseUrl, username, password, secure), ApiBase(baseUrl, username, password, secure);
            var cat, str := fetch(api + CategoriesAction), fetch(api + StreamsAction);
            && Usable(cat) && str.Reply? && str.ok && str.json.Records?
            && var streams := str.json.items;
               var cats := if cat.json.Records? then cat.json.items else [];
               exists channels: seq<Channel> ::
                 && |channels| == |streams|
                 && (forall k :: 0 <= k < |streams| ==>
                       HasId(streams[k]) && channels[k] == StreamChannel(streams[k], cats, baseUrl, username, password, secure))
                 && o.result.value == Group(channels)
  {
    XtreamSucceeded(fetch, baseUrl, username, password, secure);
    var api := ApiBase(baseUrl, username, password, secure);
    var cat, str := fetch(api + CategoriesAction), fetch(api + StreamsAction);
    var mapped := MapStreams(str.json.items, if cat.json.Records? then Some(cat.json.items) else None,
                             baseUrl, username, password, secure);
    var channels := mapped.value;
    assert |channels| == |str.json.items|;
  }

  /** A stream without `stream_id`, or a non-array category list under a non-empty stream list,
      is a TypeError and nothing is returned. */
  lemma MalformedStreams(streams: seq<Item>, cats: Option<seq<Item>>, baseUrl: string, username: string,
                         password: Option<string>, secure: bool, k: nat)
    requires k < |streams| && (!HasId(streams[k]) || cats.None?)
    ensures MapStreams(streams, cats, baseUrl, username, password, secure).Err?
    ensures MapStreams(streams, cats, baseUrl, username, password, secure).error.TypeFault?
  {
  }

  /** The fields of a stream's channel: the id is `stream_id` as text, the logo and the location
      go through the proxy rewrite, and the group is the name of the first category with an
      equal `category_id`, or `General` when none matches or that name is empty. */
  lemma ChannelFields(s: Item, cats: seq<Item>, baseUrl: string, username: string, password: Option<string>, secure: bool)
    requires HasId(s)
    ensures var c := StreamChannel(s, cats, baseUrl, username, password, secure);
            && (s.streamId.Num? ==> c.id == IntToString(s.streamId.n))
            && (s.streamId.Str? ==> c.id == s.streamId.s)
            && c.name == s.name && c.epgId == s.epgId && c.logo == Proxify(s.icon, secure)
            && Some(c.url) == Proxify(Some(StreamLocation(baseUrl, username, password, c.id, s.extension)), secure)
            && ((forall j :: 0 <= j < |cats| ==> cats[j].categoryId != s.categoryId) ==> c.group == DefaultGroup)
            && (forall k :: IsFirstMatch(cats, s.categoryId, k) ==> c.group == OrElse(cats[k].categoryName, DefaultGroup))
  {
    forall k | IsFirstMatch(cats, s.categoryId, k) ensures FindCategory(cats, s.categoryId) == Some(cats[k]) {
      var found := FindCategory(cats, s.categoryId);
      var i :| IsFirstMatch(cats, s.categoryId, i) && cats[i] == found.value;
      assert i == k;
    }
  }

  /** The stream location is built from the base URL as given, and when it is rewritten the
      whole location, credentials included, sits encoded in the proxy's `url` parameter. */
  lemma StreamLocationEncoded(s: Item, cats: seq<Item>, baseUrl: string, username: string, password: Option<string>)
    requires HasId(s) && PlainScheme <= baseUrl
    ensures var c := StreamChannel(s, cats, baseUrl, username, password, true);
            var location := StreamLocation(baseUrl, username, password, c.id, s.extension);
            && c.url == ProxyRoute + EncodeUriComponent(location)
            && '&' !in EncodeUriComponent(location)
            && PercentDecode(c.url[|ProxyRoute|..]) == Some(Utf8Bytes(location))
  {
    var c := StreamChannel(s, cats, baseUrl, username, password, true);
    var location := StreamLocation(baseUrl, username, password, c.id, s.extension);
    assert PlainScheme <= location by {
      assert location[..|PlainScheme|] == baseUrl[..|PlainScheme|];
    }
    var e := EncodeUriComponent(location);
    assert c.url[|ProxyRoute|..] == e;
    assert forall k :: 0 <= k < |e| ==> e[k] != '&';
    EncodeRoundTrip(location);
  }

  /** The API calls, by contrast, append the path and the credentials after the encoded base URL:
      on a secure page the proxy's `url` parameter ends after the username, and the password and
      the action are parameters of the proxy request itself. */
  lemma ApiCredentialsOutsideProxy(baseUrl: string, username: string, password: Option<string>)
    requires PlainScheme <= baseUrl && '&' !in username
    ensures ApiBase(baseUrl, username, password, true) + CategoriesAction
            == ProxyRoute + EncodeUriComponent(baseUrl) + ApiPath + username + PasswordParam
               + OrElse(password, "") + CategoriesAction
    ensures '&' !in EncodeUriComponent(baseUrl) + ApiPath + username
  {
    EncodedOmits(baseUrl, '&');
    assert '&' !in ApiPath;
  }

  /** On an insecure page, or for a base URL that is not plain HTTP, the calls go to the base URL
      itself. */
  lemma ApiDirect(baseUrl: string, username: string, password: Option<string>, secure: bool)
    requires !(secure && PlainScheme <= baseUrl)
    ensures ApiBase(baseUrl, username, password, secure) == baseUrl + ApiPath + username + PasswordParam + OrElse(password, "")
  {
  }
}
