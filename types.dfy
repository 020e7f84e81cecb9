/** Record shapes of the player (types.ts) and the error outcomes of ingestion. */
module Types {

  datatype Option<+T> = None | Some(value: T)

  /** JavaScript truthiness of an optional string: `undefined` and `""` are both falsy. */
  predicate Truthy(s: Option<string>) {
    s.Some? && s.value != ""
  }

  /** `s || fallback` for an optional string. */
  function OrElse(s: Option<string>, fallback: string): (r: string)
    ensures Truthy(s) ==> r == s.value
    ensures !Truthy(s) ==> r == fallback
  {
    if Truthy(s) then s.value else fallback
  }

  datatype PlaylistKind = URL | FILE | XTREAM

  datatype Credentials = Credentials(username: string, password: Option<string>)

  /** A registered playlist. For FILE playlists `source` is a Blob URL once registered. */
  datatype Playlist = Playlist(id: string, name: string, kind: PlaylistKind, source: string, xtream: Option<Credentials>)

  /** `Omit<Playlist, 'id'>`: what the add form produces. For FILE, `source` is the file's text. */
  datatype PlaylistDraft = PlaylistDraft(name: string, kind: PlaylistKind, source: string, xtream: Option<Credentials>)

  function WithId(d: PlaylistDraft, id: string): (p: Playlist)
    ensures p.id == id && p.name == d.name && p.kind == d.kind && p.source == d.source && p.xtream == d.xtream
  {
    Playlist(id, d.name, d.kind, d.source, d.xtream)
  }

  datatype Channel = Channel(id: string, name: string, logo: Option<string>, url: string, group: string, epgId: Option<string>)

  datatype Category = Category(name: string, channels: seq<Channel>)

  /** Why an ingestion failed. */
  datatype Error =
    | MissingHeader                  // parseM3U: content does not start with #EXTM3U
    | HttpStatus(status: int)        // fetchAndParseURL: response not ok
    | CategoriesUnavailable          // fetchXtream: categories call not ok
    | StreamsUnavailable             // fetchXtream: streams call not ok
    | Rejected(message: string)      // fetch rejected, or body could not be decoded (message from the browser)
    | TypeFault(detail: string)      // a TypeError raised by the JavaScript engine
    | EmptyCatalog                   // handleAddPlaylist: zero categories

  datatype Result<+T> = Ok(value: T) | Err(error: Error)
}
