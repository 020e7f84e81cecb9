/** The application shell (App.tsx): the playlist registry, the active catalog, favourites and
    history, and the view the player shows. */
module App {
  import opened Types
  import opened Text
  import opened Proxy
  import opened Net
  import opened M3U
  import opened Xtream
  import opened Ingest
  import Worker

  datatype View = Welcome | AddPlaylist | Main | Player

  const HistoryLimit := 50
  const LoadError := "Error al cargar la lista. Por favor, comprueba la fuente y el formato."
  const AddError := "Error al añadir la lista. Por favor, comprueba la fuente y el formato."

  // ---------------------------------------------------------------------------
  // Lists of channel ids

  /** `xs.filter(y => y !== x)`. */
  function Without(xs: seq<string>, x: string): (r: seq<string>)
    ensures forall y :: y in r <==> y in xs && y != x
    ensures forall y :: multiset(r)[y] == if y == x then 0 else multiset(xs)[y]
    ensures |r| <= |xs|
  {
    if xs == [] then []
    else
      assert xs == [xs[0]] + xs[1..];
      (if xs[0] == x then [] else [xs[0]]) + Without(xs[1..], x)
  }

  /** A list none of whose elements occurs twice. */
  predicate Distinct(xs: seq<string>) {
    forall i, j :: 0 <= i < j < |xs| ==> xs[i] != xs[j]
  }

  /** `ys` keeps some of the elements of `xs`, in their order. */
  predicate Subsequence(ys: seq<string>, xs: seq<string>)
    decreases |xs|
  {
    if ys == [] then true
    else if xs == [] then false
    else if ys[0] == xs[0] then Subsequence(ys[1..], xs[1..])
    else Subsequence(ys, xs[1..])
  }

  /** The history after playing `id`: `[id, ...prev.filter(x => x !== id)].slice(0, 50)`. */
  function Played(history: seq<string>, id: string): (r: seq<string>)
    ensures 1 <= |r| <= HistoryLimit && r[0] == id && id !in r[1..]
    ensures r[1..] <= Without(history, id)
    ensures |r| == if |Without(history, id)| < HistoryLimit then 1 + |Without(history, id)| else HistoryLimit
  {
    var all := [id] + Without(history, id);
    assert all[1..] == Without(history, id);
    if |all| <= HistoryLimit then all
    else
      var w := Without(history, id);
      assert all[..HistoryLimit][1..] == w[..HistoryLimit - 1];
      var kept := w[..HistoryLimit - 1];
      assert id !in kept by {
        assert id !in w;
        forall k | 0 <= k < |kept| ensures kept[k] != id {
          assert kept[k] == w[k];
        }
      }
      all[..HistoryLimit]
  }

  /** The favourites after toggling `id`: removed everywhere if present, else put first. */
  function Toggled(favorites: seq<string>, id: string): (r: seq<string>)
    ensures id in r <==> id !in favorites
    ensures forall y :: y != id ==> multiset(r)[y] == multiset(favorites)[y]
    ensures id in favorites ==> multiset(r)[id] == 0
    ensures id !in favorites ==> r == [id] + favorites
  {
    if id in favorites then Without(favorites, id) else [id] + favorites
  }

  lemma {:induction false} WithoutAbsent(xs: seq<string>, x: string)
    requires x !in xs
    ensures Without(xs, x) == xs
  {
    if xs != [] {
      WithoutAbsent(xs[1..], x);
    }
  }

  lemma {:induction false} WithoutSubsequence(xs: seq<string>, x: string)
    ensures Subsequence(Without(xs, x), xs)
  {
    if xs != [] {
      WithoutSubsequence(xs[1..], x);
      if xs[0] != x {
        assert ([xs[0]] + Without(xs[1..], x))[1..] == Without(xs[1..], x);
      } else {
        assert [] + Without(xs[1..], x) == Without(xs[1..], x);
        SubsequenceDrop(Without(xs[1..], x), xs);
      }
    }
  }

  /** A subsequence of the tail is a subsequence of the whole. */
  lemma {:induction false} SubsequenceDrop(ys: seq<string>, xs: seq<string>)
    requires xs != [] && Subsequence(ys, xs[1..])
    ensures Subsequence(ys, xs)
    decreases |xs|, 0
  {
    if ys != [] && ys[0] == xs[0] {
      SubsequenceShrink(ys, xs[1..]);
    }
  }

  /** Dropping the head of a subsequence keeps a subsequence. */
  lemma {:induction false} SubsequenceShrink(ys: seq<string>, xs: seq<string>)
    requires ys != [] && Subsequence(ys, xs)
    ensures Subsequence(ys[1..], xs)
    decreases |xs|, 1
  {
    if ys[0] == xs[0] {
      SubsequenceDrop(ys[1..], xs);
    } else {
      SubsequenceShrink(ys, xs[1..]);
      SubsequenceDrop(ys[1..], xs);
    }
  }

  lemma {:induction false} SubsequencePrefix(ys: seq<string>, zs: seq<string>, xs: seq<string>)
    requires ys <= zs && Subsequence(zs, xs)
    ensures Subsequence(ys, xs)
    decreases |xs|
  {
    if ys != [] {
      assert zs[0] == ys[0] && ys[1..] <= zs[1..];
      if zs[0] == xs[0] {
        SubsequencePrefix(ys[1..], zs[1..], xs[1..]);
      } else {
        SubsequencePrefix(ys, zs, xs[1..]);
      }
    }
  }

  /** Played ids after the first keep their relative order from the previous history. */
  lemma PlayedKeepsOrder(history: seq<string>, id: string)
    ensures Subsequence(Played(history, id)[1..], history)
  {
    WithoutSubsequence(history, id);
    SubsequencePrefix(Played(history, id)[1..], Without(history, id), history);
  }

  /** The played id occurs exactly once, and a history without duplicates stays so. */
  lemma PlayedDistinct(history: seq<string>, id: string)
    requires Distinct(history)
    ensures Distinct(Played(history, id))
  {
    var w := Without(history, id);
    WithoutDistinct(history, id);
    var r := Played(history, id);
    forall i, j | 0 <= i < j < |r| ensures r[i] != r[j] {
      if i == 0 {
        assert r[j] in r[1..];
      } else {
        assert r[i] == w[i - 1] && r[j] == w[j - 1];
      }
    }
  }

  lemma {:induction false} WithoutDistinct(xs: seq<string>, x: string)
    requires Distinct(xs)
    ensures Distinct(Without(xs, x))
  {
    if xs != [] {
      WithoutDistinct(xs[1..], x);
      var w := Without(xs[1..], x);
      assert xs[0] !in xs[1..];
      assert xs[0] !in w;
    }
  }

  /** Nothing recent is lost: while fewer than 50 other ids were played, all remain. */
  lemma PlayedKeepsAll(history: seq<string>, id: string)
    requires |Without(history, id)| < HistoryLimit
    ensures forall y :: y in history ==> y in Played(history, id)
  {
  }

  /** Toggling an absent id twice restores the list. */
  lemma ToggleTwice(favorites: seq<string>, id: string)
    requires id !in favorites
    ensures Toggled(Toggled(favorites, id), id) == favorites
  {
    WithoutAbsent(favorites, id);
    assert ([id] + favorites)[0] == id;
    assert Without([id] + favorites, id) == Without(favorites, id) by {
      assert ([id] + favorites)[1..] == favorites;
    }
  }

  // ---------------------------------------------------------------------------
  // The playlist registry

  /** `playlists.filter(p => p.id !== id)`. */
  function Remaining(ps: seq<Playlist>, id: string): (r: seq<Playlist>)
    ensures forall p :: p in r <==> p in ps && p.id != id
    ensures forall p :: multiset(r)[p] == if p.id == id then 0 else multiset(ps)[p]
    ensures |r| <= |ps|
  {
    if ps == [] then []
    else
      assert ps == [ps[0]] + ps[1..];
      (if ps[0].id == id then [] else [ps[0]]) + Remaining(ps[1..], id)
  }

  /** The first survivor of a deletion is the first playlist with another id. */
  lemma {:induction false} FirstSurvivor(ps: seq<Playlist>, id: string, k: nat)
    requires k < |ps| && ps[k].id != id && forall j :: 0 <= j < k ==> ps[j].id == id
    ensures Remaining(ps, id) != [] && Remaining(ps, id)[0] == ps[k]
  {
    if k > 0 {
      FirstSurvivor(ps[1..], id, k - 1);
    }
  }

  /** `playlists.find(p => p.id === id)`; a `null` id matches nothing. */
  function FindPlaylist(ps: seq<Playlist>, id: Option<string>): (r: Option<Playlist>)
    ensures r.Some? ==> r.value in ps && Some(r.value.id) == id
    ensures r.None? <==> forall k :: 0 <= k < |ps| ==> Some(ps[k].id) != id
  {
    if ps == [] then None
    else if Some(ps[0].id) == id then Some(ps[0])
    else
      var r := FindPlaylist(ps[1..], id);
      assert r.None? ==> forall k :: 0 < k < |ps| ==> ps[k] == ps[1..][k - 1];
      r
  }

  /** The startup effect's choice: the active playlist if it is registered, else the first one. */
  function StartupChoice(ps: seq<Playlist>, activeId: Option<string>): (r: Option<Playlist>)
    ensures FindPlaylist(ps, activeId).Some? ==> r == FindPlaylist(ps, activeId)
    ensures FindPlaylist(ps, activeId).None? && ps != [] ==> r == Some(ps[0])
    ensures r.None? <==> ps == []
  {
    var active := FindPlaylist(ps, activeId);
    if active.Some? then active else if |ps| > 0 then Some(ps[0]) else None
  }

  // ---------------------------------------------------------------------------
  // Ingestion as the shell runs it

  /** The `try` body of `loadPlaylist`. */
  function LoadOutcome(p: Playlist, fetch: string -> Response, secure: bool): Outcome<seq<Category>> {
    if p.kind == FILE || p.kind == URL then FetchAndParse(fetch, p.source, secure)
    else if p.kind == XTREAM && p.xtream.Some? then
      FetchXtream(fetch, p.source, p.xtream.value.username, p.xtream.value.password, secure)
    else Outcome([], Ok([]))
  }

  /** The `try` body of `handleAddPlaylist`, up to the emptiness check. */
  function AddOutcome(d: PlaylistDraft, fetch: string -> Response, secure: bool): Outcome<seq<Category>> {
    var o :=
      if d.kind == FILE then Outcome([], Parse(d.source, secure))
      else if d.kind == URL then FetchAndParse(fetch, d.source, secure)
      else if d.kind == XTREAM && d.xtream.Some? then
        FetchXtream(fetch, d.source, d.xtream.value.username, d.xtream.value.password, secure)
      else Outcome([], Ok([]));
    if o.result.Ok? && |o.result.value| == 0 then Outcome(o.requests, Err(EmptyCatalog)) else o
  }

  /** The shell ingests on the page as the worker does: a load takes the worker's `LOAD` path,
      and an add takes its `ADD` path and refuses an empty catalog besides. */
  lemma ShellAgreesWithWorker(p: Playlist, d: PlaylistDraft, fetch: string -> Response, secure: bool)
    ensures LoadOutcome(p, fetch, secure) == Worker.Dispatch(Worker.Request(Worker.Load, Some(p), None), fetch, secure)
    ensures var w := Worker.Dispatch(Worker.Request(Worker.Add, None, Some(d)), fetch, secure);
            && AddOutcome(d, fetch, secure).requests == w.requests
            && (AddOutcome(d, fetch, secure).result.Ok? <==> w.result.Ok? && |w.result.value| > 0)
            && (AddOutcome(d, fetch, secure).result.Ok? ==> AddOutcome(d, fetch, secure).result == w.result)
  {
  }

  /** The playlist `handleAddPlaylist` registers: the draft under the id `Date.now().toString()`,
      with a FILE playlist's text replaced by the Blob URL made from it. */
  function Registered(d: PlaylistDraft, now: nat, blobUrl: string): (p: Playlist)
    ensures p.id == NatToString(now) && p.name == d.name && p.kind == d.kind && p.xtream == d.xtream
    ensures p.source == if d.kind == FILE then blobUrl else d.source
  {
    var p := WithId(d, NatToString(now));
    if d.kind == FILE then p.(source := blobUrl) else p
  }

  // ---------------------------------------------------------------------------
  // The component's state

  class AppState {
    var view: View
    var playlists: seq<Playlist>
    var activeId: Option<string>
    var data: seq<Category>
    var current: Option<Channel>
    var isLoading: bool
    var error: Option<string>
    var favorites: seq<string>
    var history: seq<string>

    /** The first render: the registry, the active id, favourites and history come from local
        storage; everything else starts empty. */
    constructor (storedPlaylists: seq<Playlist>, storedActiveId: Option<string>, storedFavorites: seq<string>, storedHistory: seq<string>)
      ensures view == Welcome && playlists == storedPlaylists && activeId == storedActiveId
      ensures data == [] && current == None && !isLoading && error == None
      ensures favorites == storedFavorites && history == storedHistory
    {
      view := Welcome;
      playlists := storedPlaylists;
      activeId := storedActiveId;
      data := [];
      current := None;
      isLoading := false;
      error := None;
      favorites := storedFavorites;
      history := storedHistory;
    }

    /** `loadPlaylist(playlist)`. */
    method Load(p: Playlist, fetch: string -> Response, windowProtocol: Option<string>) returns (requests: seq<string>)
      modifies this
      ensures var o := LoadOutcome(p, fetch, PageIsSecure(windowProtocol));
              && requests == o.requests
              && (o.result.Ok? ==> data == o.result.value && activeId == Some(p.id) && view == Main && error == None)
              && (o.result.Err? ==> data == [] && activeId == None && view == old(view) && error == Some(LoadError))
      ensures !isLoading
      ensures playlists == old(playlists) && favorites == old(favorites) && history == old(history) && current == old(current)
    {
      isLoading := true;
      error := None;
      var o := LoadOutcome(p, fetch, PageIsSecure(windowProtocol));
      requests := o.requests;
      Loaded(p.id, o.result);
    }

    /** The end of `loadPlaylist`: the `try` on success, the `catch` on failure, and the `finally`. */
    method Loaded(id: string, result: Result<seq<Category>>)
      modifies this
      ensures result.Ok? ==> data == result.value && activeId == Some(id) && view == Main && error == old(error)
      ensures result.Err? ==> data == [] && activeId == None && view == old(view) && error == Some(LoadError)
      ensures !isLoading
      ensures playlists == old(playlists) && favorites == old(favorites) && history == old(history) && current == old(current)
    {
      if result.Ok? {
        data := result.value;
        activeId := Some(id);
        view := Main;
      } else {
        error := Some(LoadError);
        data := [];
        activeId := None;
      }
      isLoading := false;
    }

    /** The startup effect: load the active playlist if it is registered, else the first one. */
    method SelectionEffect(fetch: string -> Response, windowProtocol: Option<string>) returns (requests: seq<string>)
      modifies this
      ensures var choice := StartupChoice(old(playlists), old(activeId));
              choice.None? ==> requests == [] && activeId == old(activeId) && data == old(data)
                               && view == old(view) && error == old(error) && isLoading == old(isLoading)
      ensures var choice := StartupChoice(old(playlists), old(activeId));
              choice.Some? ==>
                var o := LoadOutcome(choice.value, fetch, PageIsSecure(windowProtocol));
                && requests == o.requests && !isLoading
                && (o.result.Ok? ==> data == o.result.value && activeId == Some(choice.value.id) && view == Main && error == None)
                && (o.result.Err? ==> data == [] && activeId == None && view == old(view) && error == Some(LoadError))
      ensures playlists == old(playlists) && favorites == old(favorites) && history == old(history) && current == old(current)
    {
      var choice := StartupChoice(playlists, activeId);
      if choice.Some? {
        requests := Load(choice.value, fetch, windowProtocol);
      } else {
        requests := [];
      }
    }

    /** The welcome timer: it leaves the welcome view for the add form when there is no
        playlist, and for the main view otherwise; from any other view it does nothing. */
    method WelcomeTimerFired()
      modifies this
      ensures old(view) == Welcome ==> view == (if |playlists| == 0 then AddPlaylist else Main)
      ensures old(view) != Welcome ==> view == old(view)
      ensures playlists == old(playlists) && activeId == old(activeId) && data == old(data) && error == old(error)
      ensures isLoading == old(isLoading) && favorites == old(favorites) && history == old(history) && current == old(current)
    {
      if view == Welcome {
        if |playlists| == 0 {
          view := AddPlaylist;
        } else {
          view := Main;
        }
      }
    }

    /** `handleAddPlaylist(draft)`, at time `now` (milliseconds), with `blobUrl` the Blob URL the
        browser hands out for a FILE playlist's text. */
    method Add(d: PlaylistDraft, now: nat, blobUrl: string, fetch: string -> Response, windowProtocol: Option<string>)
      returns (requests: seq<string>)
      modifies this
      ensures var o := AddOutcome(d, fetch, PageIsSecure(windowProtocol));
              && requests == o.requests
              && (o.result.Ok? ==> playlists == old(playlists) + [Registered(d, now, blobUrl)] && data == o.result.value
                                   && activeId == Some(NatToString(now)) && view == Main && error == None)
              && (o.result.Err? ==> playlists == old(playlists) && data == old(data) && activeId == old(activeId)
                                    && view == old(view) && error == Some(AddError))
      ensures !isLoading && favorites == old(favorites) && history == old(history) && current == old(current)
    {
      isLoading := true;
      error := None;
      var o := AddOutcome(d, fetch, PageIsSecure(windowProtocol));
      requests := o.requests;
      Settle(Registered(d, now, blobUrl), o.result);
    }

    /** What `handleAddPlaylist` does once its ingestion has settled with `result`. */
    method Settle(newPlaylist: Playlist, result: Result<seq<Category>>)
      modifies this
      ensures result.Ok? ==> playlists == old(playlists) + [newPlaylist] && data == result.value
                             && activeId == Some(newPlaylist.id) && view == Main && error == old(error)
      ensures result.Err? ==> playlists == old(playlists) && data == old(data) && activeId == old(activeId)
                              && view == old(view) && error == Some(AddError)
      ensures !isLoading && favorites == old(favorites) && history == old(history) && current == old(current)
    {
      if result.Ok? {
        playlists := playlists + [newPlaylist];
        data := result.value;
        activeId := Some(newPlaylist.id);
        view := Main;
      } else {
        error := Some(AddError);
      }
      isLoading := false;
    }

    /** `handleDeletePlaylist(id)`. When the active playlist is deleted and other entries existed
        but all of them carried the same id, `filter(...)[0].id` throws; `threw` reports it, and
        the updates made before the throw stay. */
    method Delete(id: string) returns (threw: bool)
      modifies this
      ensures playlists == Remaining(old(playlists), id)
      ensures old(activeId) != Some(id) ==> activeId == old(activeId) && data == old(data) && view == old(view) && !threw
      ensures old(activeId) == Some(id) && |old(playlists)| > 1 ==>
                data == [] && view == old(view)
                && threw == (playlists == [])
                && (playlists != [] ==> activeId == Some(playlists[0].id))
                && (playlists == [] ==> activeId == None)
      ensures old(activeId) == Some(id) && |old(playlists)| <= 1 ==>
                data == [] && activeId == None && view == AddPlaylist && !threw
      ensures error == old(error) && isLoading == old(isLoading) && favorites == old(favorites)
      ensures history == old(history) && current == old(current)
    {
      threw := false;
      var before := playlists;
      var rest := Remaining(before, id);
      playlists := rest;
      if activeId == Some(id) {
        activeId := None;
        data := [];
        if |before| > 1 {
          if rest == [] {
            threw := true;
          } else {
            activeId := Some(rest[0].id);
          }
        } else {
          view := AddPlaylist;
        }
      }
    }

    /** `handleSelectPlaylist(id)`. */
    method Select(id: string)
      modifies this
      ensures activeId == Some(id)
      ensures playlists == old(playlists) && data == old(data) && view == old(view) && error == old(error)
      ensures isLoading == old(isLoading) && favorites == old(favorites) && history == old(history) && current == old(current)
    {
      if Some(id) != activeId {
        activeId := Some(id);
      }
    }

    /** `handlePlayChannel(channel)`. */
    method PlayChannel(c: Channel)
      modifies this
      ensures current == Some(c) && history == Played(old(history), c.id) && view == Player
      ensures playlists == old(playlists) && activeId == old(activeId) && data == old(data) && error == old(error)
      ensures isLoading == old(isLoading) && favorites == old(favorites)
    {
      var h := Played(history, c.id);
      current := Some(c);
      history := h;
      view := Player;
    }

    /** `handleToggleFavorite(channelId)`. */
    method ToggleFavorite(channelId: string)
      modifies this
      ensures favorites == Toggled(old(favorites), channelId)
      ensures playlists == old(playlists) && activeId == old(activeId) && data == old(data) && error == old(error)
      ensures isLoading == old(isLoading) && history == old(history) && current == old(current) && view == old(view)
    {
      if channelId in favorites {
        favorites := Without(favorites, channelId);
      } else {
        favorites := [channelId] + favorites;
      }
    }

    /** The refresh button: reload the active playlist. An active id that is not registered makes
        `loadPlaylist` read a property of `undefined`, which its `catch` reports like any failure. */
    method Refresh(fetch: string -> Response, windowProtocol: Option<string>) returns (requests: seq<string>)
      modifies this
      ensures !Truthy(old(activeId)) ==>
                requests == [] && activeId == old(activeId) && data == old(data) && error == old(error)
                && view == old(view) && isLoading == old(isLoading)
      ensures Truthy(old(activeId)) && FindPlaylist(old(playlists), old(activeId)).None? ==>
                requests == [] && data == [] && activeId == None && error == Some(LoadError) && !isLoading && view == old(view)
      ensures Truthy(old(activeId)) && FindPlaylist(old(playlists), old(activeId)).Some? ==>
                var p := FindPlaylist(old(playlists), old(activeId)).value;
                var o := LoadOutcome(p, fetch, PageIsSecure(windowProtocol));
                && requests == o.requests && !isLoading
                && (o.result.Ok? ==> data == o.result.value && activeId == Some(p.id) && view == Main && error == None)
                && (o.result.Err? ==> data == [] && activeId == None && view == old(view) && error == Some(LoadError))
      ensures playlists == old(playlists) && favorites == old(favorites) && history == old(history) && current == old(current)
    {
      requests := [];
      if Truthy(activeId) {
        var p := FindPlaylist(playlists, activeId);
        if p.Some? {
          requests := Load(p.value, fetch, windowProtocol);
        } else {
          isLoading := true;
          error := None;
          error := Some(LoadError);
          data := [];
          activeId := None;
          isLoading := false;
        }
      }
    }
  }
}
