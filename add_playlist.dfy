/** The add-playlist form (components/AddPlaylistScreen.tsx): one tab per playlist kind, and a
    submit that hands at most one draft to the shell. */
module AddPlaylistScreen {
  import opened Types
  import opened Net
  import opened M3U
  import opened Xtream
  import opened Ingest
  import Worker

  class Form {
    var tab: PlaylistKind        // addType
    var name: string
    var url: string
    var fileContent: string
    var xtreamUrl: string
    var username: string
    var password: string

    /** Every field starts empty, on the URL tab. */
    constructor ()
      ensures tab == URL && name == "" && url == "" && fileContent == ""
      ensures xtreamUrl == "" && username == "" && password == ""
    {
      tab := URL;
      name := "";
      url := "";
      fileContent := "";
      xtreamUrl := "";
      username := "";
      password := "";
    }

    /** The draft `handleSubmit` passes to `onAddPlaylist`, or `None` when it returns early:
        while loading, or when a field the selected tab requires is empty. The password of an
        Xtream account may be empty. */
    function Submission(isLoading: bool): (r: Option<PlaylistDraft>)
      reads this
      ensures isLoading ==> r == None
      ensures r.Some? ==> r.value.kind == tab && r.value.name == name && name != ""
      ensures tab == URL ==> (r.Some? <==> !isLoading && name != "" && url != "")
                             && (r.Some? ==> r.value.source == url && r.value.xtream == None)
      ensures tab == FILE ==> (r.Some? <==> !isLoading && name != "" && fileContent != "")
                              && (r.Some? ==> r.value.source == fileContent && r.value.xtream == None)
      ensures tab == XTREAM ==> (r.Some? <==> !isLoading && name != "" && xtreamUrl != "" && username != "")
                                && (r.Some? ==> r.value.source == xtreamUrl
                                                && r.value.xtream == Some(Credentials(username, Some(password))))
    {
      if isLoading then None
      else
        match tab
        case URL => if name == "" || url == "" then None else Some(PlaylistDraft(name, URL, url, None))
        case FILE => if name == "" || fileContent == "" then None else Some(PlaylistDraft(name, FILE, fileContent, None))
        case XTREAM =>
          if name == "" || xtreamUrl == "" || username == "" then None
          else Some(PlaylistDraft(name, XTREAM, xtreamUrl, Some(Credentials(username, Some(password)))))
    }

    /** The file reader's `onload`: the text becomes the file content, and the file name becomes
        the playlist name only when no name was typed. */
    method FileLoaded(fileName: string, content: string)
      modifies this
      ensures fileContent == content
      ensures name == if old(name) == "" then fileName else old(name)
      ensures tab == old(tab) && url == old(url) && xtreamUrl == old(xtreamUrl)
      ensures username == old(username) && password == old(password)
    {
      fileContent := content;
      if name == "" {
        name := fileName;
      }
    }
  }

  /** Every submitted draft takes a real ingestion path when the shell adds it: an Xtream draft
      always carries credentials, so the empty default branch is never taken, and the password
      sent is the one typed. */
  lemma SubmittedDraftIngested(f: Form, fetch: string -> Response, secure: bool)
    requires f.Submission(false).Some?
    ensures var d := f.Submission(false).value;
            var o := Worker.Dispatch(Worker.Request(Worker.Add, None, Some(d)), fetch, secure);
            && (d.kind == FILE ==> o == Outcome([], Parse(f.fileContent, secure)))
            && (d.kind == URL ==> o == FetchAndParse(fetch, f.url, secure))
            && (d.kind == XTREAM ==> o == FetchXtream(fetch, f.xtreamUrl, f.username, Some(f.password), secure))
  {
  }

  /** An Xtream account with an empty password is asked for with an empty `password` parameter,
      exactly as one with no password at all. */
  lemma EmptyPasswordLikeNone(baseUrl: string, username: string, secure: bool)
    ensures ApiBase(baseUrl, username, Some(""), secure) == ApiBase(baseUrl, username, None, secure)
  {
  }
}
