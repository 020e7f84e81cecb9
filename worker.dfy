/** The worker's message handler (public/parser.worker.js:129-155): a `LOAD` or `ADD` request
    takes one ingestion path, and exactly one reply is posted back, except for a message without
    data, whose destructuring throws before the `try` so that nothing is posted. */
module Worker {
  import opened Types
  import opened Proxy
  import opened Net
  import opened M3U
  import opened Xtream
  import opened Ingest

  const Load := "LOAD"
  const Add := "ADD"

  /** `event.data`: `{ type, playlist, playlistData }`, where either payload may be absent. */
  datatype Request = Request(kind: string, playlist: Option<Playlist>, playlistData: Option<PlaylistDraft>)

  /** `{ status: 'success', data }` or `{ status: 'error', error }`. */
  datatype Reply = Success(data: seq<Category>) | Failure(error: string)

  /** The URLs the handler requested and the message it posted, if any. */
  datatype Handled = Handled(requests: seq<string>, reply: Option<Reply>)

  /** Reading `type` of an absent payload. */
  const NoPayload := "Cannot read properties of undefined (reading 'type')"

  /** Playlist kinds that `LOAD` reads from a location. */
  predicate Fetched(k: PlaylistKind) {
    k == FILE || k == URL
  }

  /** The `if`/`else if` chain inside the `try`: which path runs, and what it resolves to. */
  function Dispatch(req: Request, fetch: string -> Response, secure: bool): (o: Outcome<seq<Category>>) {
    if req.kind == Load then
      if req.playlist.None? then Outcome([], Err(TypeFault(NoPayload)))
      else
        var p := req.playlist.value;
        if p.kind == FILE || p.kind == URL then FetchAndParse(fetch, p.source, secure)
        else if p.kind == XTREAM && p.xtream.Some? then
          FetchXtream(fetch, p.source, p.xtream.value.username, p.xtream.value.password, secure)
        else Outcome([], Ok([]))
    else if req.kind == Add then
      if req.playlistData.None? then Outcome([], Err(TypeFault(NoPayload)))
      else
        var d := req.playlistData.value;
        if d.kind == FILE then Outcome([], Parse(d.source, secure))
        else if d.kind == URL then FetchAndParse(fetch, d.source, secure)
        else if d.kind == XTREAM && d.xtream.Some? then
          FetchXtream(fetch, d.source, d.xtream.value.username, d.xtream.value.password, secure)
        else Outcome([], Ok([]))
    else Outcome([], Ok([]))
  }

  /** `self.onmessage`, on a worker served from `protocol`, for `event.data` (`None` for a
      `null` or `undefined` one). */
  function Handle(data: Option<Request>, fetch: string -> Response, protocol: string): (h: Handled)
    ensures data.None? ==> h == Handled([], None)
    ensures data.Some? ==>
              var o := Dispatch(data.value, fetch, WorkerIsSecure(protocol));
              && h.requests == o.requests && h.reply.Some?
              && (h.reply.value.Success? <==> o.result.Ok?)
              && (h.reply.value.Success? ==> h.reply.value.data == o.result.value)
              && (h.reply.value.Failure? ==> h.reply.value.error == Message(o.result.error))
  {
    if data.None? then Handled([], None)
    else
      var o := Dispatch(data.value, fetch, WorkerIsSecure(protocol));
      match o.result
      case Ok(categories) => Handled(o.requests, Some(Success(categories)))
      case Err(e) => Handled(o.requests, Some(Failure(Message(e))))
  }

  // ---------------------------------------------------------------------------
  // Properties

  /** `LOAD` reads FILE and URL playlists from their `source` alike, and takes the Xtream path
      only when credentials are present. */
  lemma LoadPaths(p: Playlist, data: Option<PlaylistDraft>, fetch: string -> Response, secure: bool)
    ensures var o := Dispatch(Request(Load, Some(p), data), fetch, secure);
            && (Fetched(p.kind) ==> o == FetchAndParse(fetch, p.source, secure))
            && (p.kind == XTREAM && p.xtream.Some? ==>
                  o == FetchXtream(fetch, p.source, p.xtream.value.username, p.xtream.value.password, secure))
            && (p.kind == XTREAM && p.xtream.None? ==> o == Outcome([], Ok([])))
  {
  }

  /** `ADD` parses a FILE draft's `source` as the playlist text and requests nothing; a URL draft
      is fetched, and an Xtream draft with credentials takes the Xtream path. */
  lemma AddPaths(d: PlaylistDraft, p: Option<Playlist>, fetch: string -> Response, secure: bool)
    ensures var o := Dispatch(Request(Add, p, Some(d)), fetch, secure);
            && (d.kind == FILE ==> o.requests == [] && o.result == Parse(d.source, secure))
            && (d.kind == URL ==> o == FetchAndParse(fetch, d.source, secure))
            && (d.kind == XTREAM && d.xtream.Some? ==>
                  o == FetchXtream(fetch, d.source, d.xtream.value.username, d.xtream.value.password, secure))
            && (d.kind == XTREAM && d.xtream.None? ==> o == Outcome([], Ok([])))
  {
  }

  /** A message no branch takes is answered with success and no categories, without any request. */
  lemma UnmatchedSucceeds(req: Request, fetch: string -> Response, protocol: string)
    requires req.kind != Load && req.kind != Add
    ensures Handle(Some(req), fetch, protocol) == Handled([], Some(Success([])))
  {
  }

  /** A request without the payload its type reads fails with a TypeError and requests nothing. */
  lemma MissingPayloadFails(req: Request, fetch: string -> Response, protocol: string)
    requires (req.kind == Load && req.playlist.None?) || (req.kind == Add && req.playlistData.None?)
    ensures Handle(Some(req), fetch, protocol) == Handled([], Some(Failure(NoPayload)))
  {
  }

  /** The reply does not say which request it answers: a `LOAD` of a URL playlist and an `ADD`
      of a URL draft with the same `source` get the same reply from the same network. */
  lemma ReplyUntagged(p: Playlist, d: PlaylistDraft, fetch: string -> Response, protocol: string)
    requires p.kind == URL && d.kind == URL && p.source == d.source
    ensures Handle(Some(Request(Load, Some(p), None)), fetch, protocol)
         == Handle(Some(Request(Add, None, Some(d))), fetch, protocol)
  {
  }

  /** Every header failure of a FILE draft is reported with the header message. */
  lemma AddFileHeader(d: PlaylistDraft, fetch: string -> Response, protocol: string)
    requires d.kind == FILE
    ensures var h := Handle(Some(Request(Add, None, Some(d))), fetch, protocol);
            h.reply.Some? && (h.reply.value.Failure? <==> !(Header <= d.source))
    ensures var h := Handle(Some(Request(Add, None, Some(d))), fetch, protocol);
            h.reply.Some? && h.reply.value.Failure? ==> h.reply.value.error == HeaderMessage
  {
    HeaderRequired(d.source, WorkerIsSecure(protocol));
  }
}
