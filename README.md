# Pliftv playlist ingestion, in Dafny

Pliftv is a browser IPTV player. This project models its ingestion core and the state of
its shell:

- **M3U parsing.** An Extended M3U text is checked for its `#EXTM3U` header. It is split into
  lines, and the lines are scanned so that each `#EXTINF` directive followed by a location line
  becomes a channel.
- **Xtream client.** An Xtream Codes server is asked for its live categories and then its live
  streams. Each stream becomes a channel.
- **Proxy rewrite.** On a page served over HTTPS, every plain `http://` URL for a logo, a stream
  or an API call is rewritten to pass through the same-origin route `/api/proxy?url=`.
- **Grouping.** The channels are grouped into categories by group name. The categories are
  sorted by name, and each keeps its channels in encounter order.
- **Worker.** The parser worker answers each `LOAD` and `ADD` message with one success or
  error reply. A message whose data is `null` or `undefined` throws before the handler's `try`,
  so it gets no reply.
- **App shell.** `App.tsx` holds the playlist registry, the active playlist and its catalog,
  favourites, history, the loading flag, the error text and the current view.
- **Add form.** The form (`AddPlaylistScreen.tsx`) turns its fields into at most one playlist
  draft.
- **Main screen.** `MainScreen.tsx` flattens the catalog into one channel list. It also places
  channels in the grid's cells and keeps the sidebar selection.

The service (`services/playlistParser.ts`) and the worker (`public/parser.worker.js`) contain
the same parser, Xtream client and grouping. The only difference is how they learn whether the
page is secure. The service reads `window.location`, and the worker reads `self.location` and
passes the flag down. So the model has one definition of each operation, with the flag as a
parameter. `Proxy.PageIsSecure` and `Proxy.WorkerIsSecure` compute the flag the two ways.
`Proxy.ServiceProxify` proves that the service's rewrite is the worker's rewrite at the page's
flag. `Proxy.WorkerIsSecure` proves that a worker and a page served over the same protocol get
the same flag.

Modules, one file each:

| module | covers |
|---|---|
| `Types` | Record shapes and the ingestion errors. |
| `Text` | `split`, `trim`, `indexOf`/`lastIndexOf`, integer `toString`, and the default string `sort`. |
| `Proxy` | `encodeURIComponent` and `proxifyHttpUrl`. |
| `Attributes` | The `#EXTINF` attribute searches. |
| `Grouping` | `groupChannelsIntoCategories`. |
| `M3U` | `parseM3U`. |
| `Net` | What a `fetch` can answer. |
| `Xtream` | `fetchXtream`. |
| `Ingest` | `fetchAndParseURL` and the error messages. |
| `Worker` | `onmessage`. |
| `App` | The shell. |
| `AddPlaylistScreen` | The add form. |
| `MainScreen` | The main screen's catalog flattening, grid and sidebar. |

How the code's behaviour is represented:

- **Network.** It is a function `fetch: string -> Response`. Every ingestion records the URLs
  it requested, in order.
- **Engine errors.** A JavaScript `TypeError` is `TypeFault`, and a rejected promise is
  `Rejected`.
- **The two loops** are methods with loop invariants, proved equal to the functions that
  specify them:
  - The line loop of `parseM3U` is `M3U.ScanLines`.
  - The `forEach` of the grouping is `Grouping.GroupChannels`.
- **Components.** The React components are classes whose methods make the state changes their
  handlers make.

Code behaviours that are easy to miss:

- **`LOAD` and `ADD` differ.**
  - An `ADD` of a FILE draft parses its `source` as playlist text and requests nothing.
  - A `LOAD` of a FILE playlist fetches its `source`, which by then is a Blob URL.
- **Replies are not tagged** with the kind of request they answer
  (`Worker.ReplyUntagged`).
- **API calls use the conditional rewrite**, like media URLs; there is no forced rewrite. On a
  secure page, the proxy's `url` parameter ends after the username. The password and the action
  then become parameters of the proxy request itself (`Xtream.ApiCredentialsOutsideProxy`).
- **A stream without `stream_id` is a `TypeError`**, not a catalog error. So is a category list
  that is not an array, when there is at least one stream (`Xtream.MalformedStreams`).
- **Attribute order can matter.** The attribute searches do not check where a key starts, so
  `tvg-id` also matches inside `xtvg-id`, and then the order of the attributes decides the value
  (`Attributes.SuffixKeyShadows`). Order independence is proved for directive lines shaped as
  `#EXTINF:-1 tvg-id="a" group-title="News",News One`, where no match can straddle two
  attributes (`Attributes.AttributeOrderIrrelevant`).
- **There is no `FILTER` handling.** The worker has no `FILTER` branch: a message of any other
  type is answered with success and no categories (`Worker.UnmatchedSucceeds`).
- **An empty `tvg-name` also falls back** to the text after the last comma, not only an absent
  one. Without a comma, that text is the whole attribute text (`Attributes.DirectiveName`,
  `Attributes.CommaNameAfterLastComma`).

## Model

| member | source | states |
|---|---|---|
| Text.Split | services/playlistParser.ts:34 | `split('\n')` makes at least one piece, no piece holds a newline, and joining the pieces with newlines gives the text back |
| Text.SplitAfterFirst | services/playlistParser.ts:34-38 | the first line is exactly the first piece, so the loop from index 1 sees the rest of the text's lines |
| Text.FirstIndex | services/playlistParser.ts:44 | `indexOf` finds an occurrence with none before it |
| Text.LastIndex | services/playlistParser.ts:58 | `lastIndexOf` finds an occurrence with none after it |
| Text.TrimShape | services/playlistParser.ts:39 | `trim` removes white space only, from both ends, and what remains is the middle of the line, starting and ending with a character that is not white space |
| Text.TrimPadded | services/playlistParser.ts:39 | white space around a trimmed text is exactly what `trim` removes |
| Text.TrimIdempotent | services/playlistParser.ts:39 | trimming twice is trimming once |
| Text.Trim | services/playlistParser.ts:39 | definition of `trim()`; its meaning is `Text.TrimShape` |
| Text.NatToStringRoundTrip | App.tsx:73 | the decimal spelling of a number (as `Date.now().toString()` writes it) reads back as that number |
| Text.IntToStringInjective | services/playlistParser.ts:109 | distinct numeric ids and statuses have distinct spellings |
| Text.IntToString | services/playlistParser.ts:109 | a non-empty spelling that starts with `-` exactly for a negative number |
| Text.LessIrreflexive | services/playlistParser.ts:133 | the default string order never puts a string before itself |
| Text.LessAsymmetric | services/playlistParser.ts:133 | the order is asymmetric |
| Text.LessTransitive | services/playlistParser.ts:133 | the order is transitive |
| Text.LessTotal | services/playlistParser.ts:133 | any two distinct strings are ordered one way or the other (UTF-16 code-unit order) |
| Text.Sort | services/playlistParser.ts:133 | sorting the map's keys gives a strictly ascending permutation of them |
| Text.StrictlySortedUnique | services/playlistParser.ts:133 | only one strictly ascending list holds given elements, so the category order cannot depend on how the sort works |
| Proxy.EncodeUriComponent | services/playlistParser.ts:21 | the encoding holds only unreserved characters and `%`, so none of the separators `&`, `=`, `?`, `#`, `/`, `:` |
| Proxy.EncodeRoundTrip | services/playlistParser.ts:21 | percent-decoding the encoding of a URL gives its UTF-8 octets back |
| Proxy.Proxify | public/parser.worker.js:11-20 | definition of `proxifyHttpUrl(url, isSecureContext)`; what it means is proved in `Proxy.ProxifyOnlyPlainHttp`, `Proxy.ProxifyRecoverable` and `Proxy.ProxifyIdempotent` |
| Proxy.PageIsSecure | services/playlistParser.ts:17 | definition of the service's flag (`window` exists and its protocol is `https:`); `Proxy.ServiceProxify` proves the service's rewrite is `Proxify` at this flag |
| Proxy.WorkerIsSecure | public/parser.worker.js:131 | the worker's flag (`self.location.protocol === 'https:'`) equals the flag of a page served over the same protocol, so the worker and the service rewrite alike |
| Proxy.ServiceProxify | services/playlistParser.ts:11-26 | the service's rewrite is the worker's rewrite with the page's flag |
| Proxy.ProxifyIdempotent | services/playlistParser.ts:11-26 | rewriting a rewritten URL changes nothing |
| Proxy.ProxifyRecoverable | services/playlistParser.ts:20-22 | a rewritten URL is the proxy route followed by a parameter that decodes to the original URL |
| Proxy.ProxifyOnlyPlainHttp | services/playlistParser.ts:20 | a non-empty URL is rewritten exactly when the page is secure and the URL starts with `http://` (so `https://` and relative URLs are never rewritten) |
| Attributes.MatchHere | services/playlistParser.ts:46 | a match of `key="..."` starting here captures a value without quotes, and the text starts with `key="value"` |
| Attributes.FindAttr | services/playlistParser.ts:46-56 | the leftmost match's captured value contains no double quote |
| Attributes.Info | services/playlistParser.ts:44 | the attribute text is what follows the first space: the line is a space-free head, a space, then the result; a line without a space is taken whole |
| Attributes.CommaName | services/playlistParser.ts:58 | definition of the comma name; its meaning is `Attributes.CommaNameAfterLastComma` and `Attributes.CommaNameOfTail` |
| Attributes.ParseDirective | services/playlistParser.ts:43-61 | definition of the record a directive leaves; what it holds is proved in `Attributes.DirectiveName`, `Attributes.ParseWellFormed` and `Attributes.AttributeOrderIrrelevant` |
| Attributes.InfoAfterHead | services/playlistParser.ts:44 | whatever the `#EXTINF:<duration>` head holds, the attributes are read from the text after it |
| Attributes.DirectiveName | services/playlistParser.ts:49-61 | the name is a non-empty `tvg-name`, else the non-empty text after the last comma, else no usable name |
| Attributes.CommaNameAfterLastComma | services/playlistParser.ts:58 | the comma name is the text after the last comma and holds no comma, or the whole text when there is no comma |
| Attributes.CommaNameOfTail | services/playlistParser.ts:58 | text before a tail that holds a comma does not change the comma name |
| Attributes.FindAttrToken | services/playlistParser.ts:46-56 | searching a written-out `key="value"` attribute either returns its value (same key) or passes over it |
| Attributes.NoEqualsNoMatch | services/playlistParser.ts:46-56 | text without `=` matches no attribute |
| Attributes.FindAttrRendered | services/playlistParser.ts:46-56 | searching attributes written `k1="v1" k2="v2"`, followed by a tail without `=`, gives the value of the first attribute with that key |
| Attributes.ParseWellFormed | services/playlistParser.ts:41-61 | a directive whose attribute text is distinct, well-separated attributes with one space between two of them, then a comma-holding tail, yields exactly their `tvg-id`, `tvg-logo` and `group-title`, and the name is chosen as in `DirectiveName` |
| Attributes.AttributeOrderIrrelevant | services/playlistParser.ts:41-61 | on a line such as `#EXTINF:-1 tvg-id="a" group-title="News",News One`, reordering distinct, well-separated attributes leaves every field of the pending record unchanged |
| Attributes.SuffixKeyShadows | services/playlistParser.ts:46-47 | `tvg-id` matches the end of `xtvg-id`: `xtvg-id="a" tvg-id="b"` reads `a` and the reversed order reads `b` |
| Grouping.GroupName | services/playlistParser.ts:126 | the group name is the channel's group when non-empty, else `General`, and never empty |
| Grouping.Members | services/playlistParser.ts:125-131 | a bucket holds only channels of its group, each taken from the input |
| Grouping.Names | services/playlistParser.ts:133 | the map's keys are distinct |
| Grouping.Buckets | services/playlistParser.ts:123-131 | definition of `categoryMap` after the loop; `Grouping.BucketsAreMembers` proves each bucket is its group's channels in order |
| Grouping.Categorize | services/playlistParser.ts:133-136 | one category per listed name, holding that name's channels |
| Grouping.Group | services/playlistParser.ts:122-137 | definition of `groupChannelsIntoCategories`; its meaning is `Grouping.GroupNamesSorted`, `Grouping.GroupComplete`, `Grouping.MembersConcat` and `Grouping.GroupPermutes` |
| Grouping.GroupChannels | services/playlistParser.ts:122-137 | the loop and the sorted key listing produce exactly `Group`: one category per group name, sorted, each holding its channels in input order |
| Grouping.GroupStep | services/playlistParser.ts:125-131 | one iteration appends the channel to its bucket, creating the bucket and listing its key when the group is new |
| Grouping.NamesHaveMembers | services/playlistParser.ts:127-130 | a group is a key exactly when some channel carries it |
| Grouping.BucketsAreMembers | services/playlistParser.ts:123-131 | the map's key set is the name list, and each bucket is its group's channels in order |
| Grouping.NamesCover | services/playlistParser.ts:126-130 | every channel's group is a key |
| Grouping.GroupNamesSorted | services/playlistParser.ts:133-136 | category names are strictly ascending, and no category is empty |
| Grouping.GroupComplete | services/playlistParser.ts:133-136 | every channel's group names some category |
| Grouping.MembersConcat | services/playlistParser.ts:130 | a category keeps the input order of its channels: the channels from a concatenation are the channels from each part, in turn |
| Grouping.GroupPermutes | services/playlistParser.ts:122-137 | the categories hold a permutation of the input channels: none is dropped or duplicated |
| M3U.Classify | services/playlistParser.ts:41-63 | definition of the test chain of the loop body (`#EXTINF:` prefix, then non-empty and not `#`); what each kind does is proved in `M3U.StepEmission`, `M3U.DirectiveSuperseded`, `M3U.OrphanLocation` and `M3U.RunIgnored` |
| M3U.Emit | services/playlistParser.ts:64-74 | definition of the channel a location line pushes; its fields are proved in `M3U.EmittedFields` |
| M3U.Step | services/playlistParser.ts:39-77 | definition of one loop iteration; its meaning is proved in `M3U.StepEmission`, `M3U.StepIgnoresPadding`, `M3U.DirectiveSuperseded` and `M3U.OrphanLocation` |
| M3U.Run | services/playlistParser.ts:38-78 | definition of the loop over the lines; its meaning is proved in `M3U.RunIgnored`, `M3U.DirectiveThenLocation`, `M3U.RunBounded` and `M3U.ChannelsNamed` |
| M3U.Parse | services/playlistParser.ts:29-81 | definition of what `parseM3U` resolves to; its meaning is proved in `M3U.HeaderRequired`, `M3U.FirstLineIgnored` and `M3U.ChannelCountBound` |
| M3U.ParseM3U | services/playlistParser.ts:29-81 | the parse refuses content without the header and otherwise groups the channels the line scan emits |
| M3U.ScanLines | services/playlistParser.ts:38-78 | the `for` loop from the second line leaves the channels of running `Step` over the lines |
| M3U.HeaderRequired | services/playlistParser.ts:30-32 | the parse fails exactly when the content does not start with `#EXTM3U`, and then with the header error |
| M3U.FirstLineIgnored | services/playlistParser.ts:38 | beyond the header check, the first line has no effect on the result |
| M3U.StepIgnoresPadding | services/playlistParser.ts:39 | white space around a line changes nothing |
| M3U.StepEmission | services/playlistParser.ts:63-77 | a step emits one channel exactly for a location line with a named record pending and keeps earlier channels; a location line always clears the record |
| M3U.EmittedFields | services/playlistParser.ts:66-74 | an emitted channel's id is `group-name-location` as written, its group defaults to `General`, only its url and logo pass through the rewrite, and its url is present |
| M3U.DirectiveSuperseded | services/playlistParser.ts:41-43 | a directive followed by another leaves nothing behind |
| M3U.OrphanLocation | services/playlistParser.ts:63-76 | a location line with no named record pending emits nothing |
| M3U.RunIgnored | services/playlistParser.ts:63 | blank lines and comment lines leave the scan untouched |
| M3U.DirectiveThenLocation | services/playlistParser.ts:38-77 | a named directive, then blank or comment lines, then a location line, emit exactly one channel made of that directive and that location |
| M3U.RunBounded | services/playlistParser.ts:38-78 | each emitted channel uses up one directive and one location line |
| M3U.ChannelCountBound | services/playlistParser.ts:29-81 | a playlist has no more channels than directive lines, and no more than location lines |
| M3U.ChannelsNamed | services/playlistParser.ts:65-72 | every scanned channel has a non-empty name, group and url |
| Xtream.IdText | services/playlistParser.ts:109 | definition of `stream_id.toString()` (decimal for a number, the string itself, a `TypeError` for `null` or a missing id); `Text.IntToStringInjective` and `Text.NatToStringRoundTrip` give the spelling its meaning, `Xtream.ChannelFields` and `Xtream.MalformedStreams` its use |
| Xtream.ApiBase | services/playlistParser.ts:95-96 | definition of `api`; `Xtream.ApiCredentialsOutsideProxy`, `Xtream.ApiDirect` and `AddPlaylistScreen.EmptyPasswordLikeNone` state what it is |
| Xtream.StreamLocation | services/playlistParser.ts:113 | definition of the stream location; `Xtream.StreamLocationEncoded` states how it survives the rewrite |
| Xtream.GroupOf | services/playlistParser.ts:114 | definition of the group of a stream; `Xtream.ChannelFields` states it through `Xtream.FindCategory` |
| Xtream.StreamChannel | services/playlistParser.ts:108-116 | definition of the `map` callback; `Xtream.ChannelFields` states each field |
| Xtream.FetchXtream | services/playlistParser.ts:93-119 | definition of `fetchXtream`; its meaning is proved in `Xtream.CallOrder`, `Xtream.ErrorOrder`, `Xtream.XtreamSucceeded` and `Xtream.CatalogFromStreams` |
| Xtream.FindCategory | services/playlistParser.ts:114 | `find` returns the first category with an equal `category_id` (by `===`), and `undefined` exactly when none has one |
| Xtream.MapStreams | services/playlistParser.ts:108-116 | `map` succeeds exactly when every stream has an id and, when there are streams, the category list is an array; it then returns one channel per stream, in order; otherwise it fails with a `TypeError` |
| Xtream.CallOrder | services/playlistParser.ts:99-106 | the categories call comes first, the streams call is made only after a usable categories reply, and nothing else is requested |
| Xtream.ErrorOrder | services/playlistParser.ts:99-106 | a failed or refused categories call fails the whole call with its own error and no streams call; a failed or refused streams call fails it with the streams error |
| Xtream.XtreamSucceeded | services/playlistParser.ts:93-119 | a success means both replies were ok, the streams reply was an array, and the result groups the mapped channels |
| Xtream.CatalogFromStreams | services/playlistParser.ts:108-118 | no partial result: a catalog is returned only when both calls succeeded, and it groups exactly one channel per stream, in stream order |
| Xtream.MalformedStreams | services/playlistParser.ts:108-114 | a stream without an id, or a non-array category list under a non-empty stream list, fails with a `TypeError` |
| Xtream.ChannelFields | services/playlistParser.ts:109-115 | a stream's channel has its id as text and its name and epg id, its logo and location go through the rewrite, and its group is the first matching category's non-empty name, else `General` |
| Xtream.StreamLocationEncoded | services/playlistParser.ts:113 | the stream location starts from the plain base URL, and when rewritten the whole location, credentials included, decodes from the proxy's `url` parameter |
| Xtream.ApiCredentialsOutsideProxy | services/playlistParser.ts:95-99 | on a secure page an API call is the proxy route, the encoded base URL, the path and username, then `&password=` and the action outside the encoded part, and that first part holds no `&` |
| Xtream.ApiDirect | services/playlistParser.ts:95-96 | on an insecure page, or for a base URL that is not plain HTTP, the API calls go to the base URL itself |
| Ingest.Target | services/playlistParser.ts:84 | the URL requested is the proxy form of a plain-HTTP URL on a secure page, else the URL itself |
| Ingest.FetchAndParse | services/playlistParser.ts:83-91 | exactly one request is made, to the target URL |
| Ingest.FetchOutcome | services/playlistParser.ts:83-91 | a refused fetch fails with its message, a reply that is not ok fails with its status, an ok reply is parsed; success needs an ok reply whose text has the header |
| Ingest.HttpMessageInjective | services/playlistParser.ts:87 | the HTTP status can be read back from the error message |
| Ingest.Message | services/playlistParser.ts:31-105 | definition of `e.message` for each error thrown (lines 31, 87, 100 and 105); `Ingest.HttpMessageInjective` proves the HTTP status is kept |
| Worker.Handle | public/parser.worker.js:129-155 | a message without data gets no reply and causes no request; any other message gets exactly one reply, success with the categories when ingestion succeeds, else an error carrying the thrown message, after the requests of the path taken |
| Worker.Dispatch | public/parser.worker.js:133-149 | definition of the branch chain inside the `try`; its paths are proved in `Worker.LoadPaths`, `Worker.AddPaths`, `Worker.UnmatchedSucceeds` and `Worker.MissingPayloadFails` |
| Worker.LoadPaths | public/parser.worker.js:135-140 | `LOAD` fetches FILE and URL playlists from their `source`, takes the Xtream path only with credentials, and otherwise succeeds empty |
| Worker.AddPaths | public/parser.worker.js:141-148 | `ADD` parses a FILE draft's `source` as text without any request, fetches a URL draft, and takes the Xtream path only with credentials |
| Worker.UnmatchedSucceeds | public/parser.worker.js:133-151 | a message of any other type is answered with success and no categories, after no request |
| Worker.MissingPayloadFails | public/parser.worker.js:135-142 | a message without the payload its type reads is answered with a `TypeError` message, after no request |
| Worker.ReplyUntagged | public/parser.worker.js:151-153 | the reply does not say which request it answers: a `LOAD` and an `ADD` of the same URL get the same reply |
| Worker.AddFileHeader | public/parser.worker.js:142-143 | an `ADD` of a FILE draft fails exactly when its text lacks the header, and then with the header message |
| App.Without | App.tsx:129 | `filter(x => x !== id)` drops every occurrence of the id and keeps every other element as often as it occurred |
| App.Played | App.tsx:123 | the new history starts with the played id, does not repeat it, continues with a prefix of the old history without that id, and holds exactly 50 ids or all of them when fewer |
| App.PlayedKeepsOrder | App.tsx:123 | the other ids keep their order from the old history |
| App.PlayedDistinct | App.tsx:123 | a history without duplicates stays without duplicates |
| App.PlayedKeepsAll | App.tsx:123 | while fewer than 50 other ids were played, none is forgotten |
| App.Toggled | App.tsx:127-133 | toggling adds a missing id at the front and removes a present id everywhere, and every other id keeps its number of occurrences |
| App.ToggleTwice | App.tsx:127-133 | toggling a missing id twice restores the favourites |
| App.Remaining | App.tsx:103 | deleting drops every playlist with the id and keeps every other entry as often as it occurred |
| App.FirstSurvivor | App.tsx:107-108 | after deleting, the first remaining playlist is the first one with another id |
| App.FindPlaylist | App.tsx:47 | `find` returns a registered playlist with the active id, and nothing exactly when none has it |
| App.StartupChoice | App.tsx:46-52 | startup loads the active playlist if it is registered, else the first one, and nothing exactly when the registry is empty |
| App.LoadOutcome | App.tsx:26-32 | definition of the `try` body of `loadPlaylist`; `App.ShellAgreesWithWorker` proves it is the worker's `LOAD` path |
| App.AddOutcome | App.tsx:69-88 | definition of the `try` body of `handleAddPlaylist` up to the emptiness check; `App.ShellAgreesWithWorker` proves it is the worker's `ADD` path with an empty catalog refused |
| App.ShellAgreesWithWorker | App.tsx:26-88 | the shell's load ingests as the worker's `LOAD`; its add ingests as the worker's `ADD` and also refuses an empty catalog |
| App.Registered | App.tsx:73-79 | the new playlist is the draft under the id `Date.now().toString()`, a FILE playlist's text replaced by its Blob URL |
| App.AppState.constructor | App.tsx:12-21 | the first render shows the welcome view with the stored registry, active id, favourites and history, and everything else empty |
| App.AppState.Load | App.tsx:23-44 | on success the catalog, the active id and the main view are set and the error is cleared; on failure the catalog and active id are cleared and the load error is shown; loading ends either way and nothing else changes |
| App.AppState.Loaded | App.tsx:33-43 | the `try`, `catch` and `finally` ends of `loadPlaylist` |
| App.AppState.SelectionEffect | App.tsx:46-54 | startup loads its choice with the outcome of `Load` (catalog, active id, view and error from the load's result), or changes nothing for an empty registry; the registry, favourites, history and current channel stay |
| App.AppState.WelcomeTimerFired | App.tsx:56-67 | the welcome view gives way to the add form without playlists and to the main view with some; other views stay |
| App.AppState.Add | App.tsx:69-100 | on success the new playlist is appended and becomes active with its catalog in the main view; on any failure, an empty catalog included, only the add error is shown; loading ends either way |
| App.AppState.Settle | App.tsx:86-99 | the two ways `handleAddPlaylist` ends once ingestion has settled |
| App.AppState.Delete | App.tsx:102-113 | the registry loses exactly the entries with the id; deleting the active playlist clears the catalog and activates the first survivor, or shows the add form when it was the only entry; the throw when only duplicates existed is reported |
| App.AppState.Select | App.tsx:115-119 | selecting makes the id active and changes nothing else |
| App.AppState.PlayChannel | App.tsx:121-125 | playing a channel sets it current, records it in the history and shows the player |
| App.AppState.ToggleFavorite | App.tsx:127-133 | toggling updates the favourites as `Toggled` does and changes nothing else |
| App.AppState.Refresh | App.tsx:157 | refresh does nothing without an active id; it reloads a registered active playlist with the outcome of `Load`; an unregistered active id is reported as a load error with the view kept; the current channel stays |
| AddPlaylistScreen.Form.constructor | components/AddPlaylistScreen.tsx:15-21 | the form starts on the URL tab with every field empty |
| AddPlaylistScreen.Form.Submission | components/AddPlaylistScreen.tsx:35-61 | nothing is submitted while loading or when a field the tab requires is empty; otherwise the draft of the selected tab, an Xtream draft carrying the typed password even when empty |
| AddPlaylistScreen.Form.FileLoaded | components/AddPlaylistScreen.tsx:27-30 | a read file becomes the content, and its name becomes the playlist name only when none was typed |
| AddPlaylistScreen.SubmittedDraftIngested | components/AddPlaylistScreen.tsx:39-60 | every submitted draft takes a real ingestion path in the worker: FILE parses the content, URL fetches the URL, Xtream calls the server with the typed credentials |
| AddPlaylistScreen.EmptyPasswordLikeNone | services/playlistParser.ts:96 | an empty password and no password give the same API URL |
| MainScreen.Relabel | components/MainScreen.tsx:120 | each channel is kept with its group replaced by the category's name |
| MainScreen.Flatten | components/MainScreen.tsx:120 | the flattened list has as many channels as the categories hold |
| MainScreen.FlattenConcat | components/MainScreen.tsx:120 | flattening goes category after category |
| MainScreen.FlattenAt | components/MainScreen.tsx:120 | channel j of category i sits after all earlier categories' channels, relabelled and otherwise unchanged |
| MainScreen.FlattenLabelled | components/MainScreen.tsx:120 | when every channel already carries its category's name, flattening just concatenates |
| MainScreen.FlattenGroupPermutes | components/MainScreen.tsx:120 | flattening a parsed catalog gives back a permutation of the parsed channels |
| MainScreen.ColumnCount | components/MainScreen.tsx:44 | as many 140-pixel columns as fit, and at least one |
| MainScreen.CellIndex | components/MainScreen.tsx:60 | definition of `rowIndex * columnCount + columnIndex`; `MainScreen.GridCovers`, `MainScreen.GridUnique` and `MainScreen.DivisionOfCell` prove it is a bijection onto the channel indices |
| MainScreen.Renders | components/MainScreen.tsx:61 | definition of the test that a cell shows a card; `MainScreen.GridCovers` proves every channel is shown |
| MainScreen.RowCount | components/MainScreen.tsx:66 | the fewest rows that hold all cards |
| MainScreen.GridCovers | components/MainScreen.tsx:58-66 | every channel has a cell inside the grid that shows it |
| MainScreen.GridUnique | components/MainScreen.tsx:60 | no two cells within the columns show the same channel |
| MainScreen.DivisionOfCell | components/MainScreen.tsx:60 | a cell is the one its index gives back by division |
| MainScreen.Sidebar.constructor | components/MainScreen.tsx:115-116 | the sidebar starts on the categories view with `All` selected |
| MainScreen.Sidebar.SetMainView | components/MainScreen.tsx:122-125 | switching to another view resets the category to `All`; choosing the view already shown keeps it |
| MainScreen.Sidebar.SelectCategory | components/MainScreen.tsx:207 | choosing a category keeps the view |
| MainScreen.Sidebar.FilterRequest | components/MainScreen.tsx:127-139 | no filter request while loading; otherwise one with the flattened catalog and the current selection |

## Left out

- Catalog filter engine: `filterChannelsInBackground` is imported by the main screen but is not
  defined in `services/playlistParser.ts`. The filter engine is not part of this model; only the
  request the screen builds is (`MainScreen.Sidebar.FilterRequest`).
- I/O is not modelled:
  - `fetch` is a parameter, and `response.text()` and `response.json()` are taken as already
    resolved.
  - A `text()` that rejects is not modelled.
  - The Blob URL is a parameter, and the clock (`Date.now()`) is the parameter `now`.
  - `console.error`, local storage and `FileReader` are not modelled.
- JSON: numbers are integers, and an element of a decoded array is assumed to be an object
  with the properties read. `NotAnArray` stands for every non-array value.
- Engine messages: a `TypeError`'s wording depends on the browser, so the messages the model
  carries are placeholders.
- Object keys: JavaScript objects treat keys such as `__proto__` specially; the model treats
  every group name as an ordinary map key. `Object.keys` lists integer-like names such as
  `2024` first, in numeric order, while the model lists keys in insertion order. The sort at
  services/playlistParser.ts:133 makes that order irrelevant: only one strictly ascending list
  holds given names (`Text.StrictlySortedUnique`).
- Lone surrogates: `encodeURIComponent` throws `URIError` on a lone UTF-16 surrogate, such as a
  stream icon decoded from the JSON text `"\ud800"`. A Dafny `char` is a Unicode scalar value and
  cannot hold one, so that error path is not modelled.
- React:
  - Scheduling, re-rendering and effect ordering are not modelled; the effects are methods
    the caller runs.
  - The intermediate `isLoading == true` state is not modelled; each method lands in the
    settled state.
  - `handleFileChange` reads `name` from the render that was current when the file was chosen.
    The model reads the current field.
  - The disabled buttons while loading are not modelled.
- Concurrency: overlapping worker requests and stale replies are not modelled; each message
  is handled alone.
- App.AppState.Delete: when `filter(...)[0].id` throws, the model assumes the updates queued
  before the throw still apply.
- MainScreen.ColumnCount: the grid width is a whole number of pixels. Floating-point widths,
  column widths and row heights are not modelled.
- `api/proxy.js`, `PlayerScreen`, `WelcomeScreen` and the rendering of every screen are not
  part of this model.
- Text.IntToString: numbers of magnitude 10^21 and above, which JavaScript writes in
  exponent form, are spelled in plain decimal.
- Attributes.AttributeOrderIrrelevant: order independence is stated only for distinct keys,
  values without `"` or `=`, and keys that no searched key ends (`Attributes.SuffixKeyShadows`
  shows why). The attributes must be separated by single spaces and followed by a tail without
  `=`. Lines with other spacing between attributes, or with free text between them, are not
  covered.
