/** The playlists page: the index of playlist ids is fetched, then every
    playlist file; files that fail are dropped, the rest are cleaned up; a
    click on a playlist plays its first video or opens its page. */
module PlaylistsPage {
  import opened Common
  import opened PlaylistData

  /** The page's outcome: the error text, or the playlists to show. */
  datatype LoadResult = LoadFailed(error: string) | Loaded(playlists: seq<Playlist>)

  /** The playlists of `ids` whose file could be read (`files` holds the
      readable ones), each cleaned up, in index order. */
  function LoadEach(ids: seq<string>, files: map<string, Playlist>, liked: seq<string>): (r: seq<Playlist>)
    ensures |r| <= |ids|
    ensures forall k :: 0 <= k < |r| ==> NoDups(r[k].videoIds)
  {
    if ids == [] then []
    else
      var rest := LoadEach(ids[1..], files, liked);
      if ids[0] in files then [Normalised(ids[0], files[ids[0]], liked)] + rest else rest
  }

  /** One id yields its cleaned-up playlist when its file is readable, and
      nothing otherwise. */
  lemma LoadEachOne(id: string, files: map<string, Playlist>, liked: seq<string>)
    ensures LoadEach([id], files, liked) == if id in files then [Normalised(id, files[id], liked)] else []
  {
    assert [id][1..] == [];
  }

  /** Loading is done playlist by playlist: the survivors keep the index order. */
  lemma {:induction false} LoadEachAppend(a: seq<string>, b: seq<string>, files: map<string, Playlist>, liked: seq<string>)
    ensures LoadEach(a + b, files, liked) == LoadEach(a, files, liked) + LoadEach(b, files, liked)
  {
    if a == [] {
      assert a + b == b;
    } else {
      assert (a + b)[0] == a[0] && (a + b)[1..] == a[1..] + b;
      LoadEachAppend(a[1..], b, files, liked);
    }
  }

  /** When every file is readable, nothing is dropped: entry `k` is playlist
      `ids[k]`, cleaned up. */
  lemma {:induction false} LoadEachAllReadable(ids: seq<string>, files: map<string, Playlist>, liked: seq<string>)
    requires forall i :: 0 <= i < |ids| ==> ids[i] in files
    ensures |LoadEach(ids, files, liked)| == |ids|
    ensures forall k :: 0 <= k < |ids| ==> LoadEach(ids, files, liked)[k] == Normalised(ids[k], files[ids[k]], liked)
  {
    if ids != [] {
      var init, last := ids[..|ids| - 1], ids[|ids| - 1];
      assert ids == init + [last];
      LoadEachAllReadable(init, files, liked);
      LoadEachAppend(init, [last], files, liked);
      LoadEachOne(last, files, liked);
    }
  }

  /** The loading effect: an unreadable index (`null` from the fetch helper)
      makes `playlistIds.map` throw, which is reported as an error. */
  function LoadPlaylists(index: Option<seq<string>>, files: map<string, Playlist>, liked: seq<string>): (r: LoadResult)
    ensures index.None? <==> r.LoadFailed?
    ensures r.LoadFailed? ==> r.error == "Failed to load playlists"
    ensures r.Loaded? ==> r.playlists == LoadEach(index.value, files, liked)
  {
    if index.None? then LoadFailed("Failed to load playlists")
    else Loaded(LoadEach(index.value, files, liked))
  }

  /** `playlists.find(p => p.id === id)`, as a position. */
  function FindPlaylist(playlists: seq<Playlist>, id: string): (r: Option<nat>)
    ensures r.Some? ==> r.value < |playlists| && playlists[r.value].id == id &&
                        forall j :: 0 <= j < r.value ==> playlists[j].id != id
    ensures r.None? ==> forall j :: 0 <= j < |playlists| ==> playlists[j].id != id
  {
    if playlists == [] then None
    else if playlists[0].id == id then Some(0)
    else
      var rest := FindPlaylist(playlists[1..], id);
      if rest.Some? then Some(rest.value + 1) else None
  }

  /** `handlePlaylistClick(id)`: play the first video of the first playlist
      with that id when it has one, otherwise open the playlist page. */
  function PlaylistClickRoute(playlists: seq<Playlist>, id: string): (r: Route)
    ensures r.Watch? <==> FindPlaylist(playlists, id).Some? && |playlists[FindPlaylist(playlists, id).value].videoIds| > 0
    ensures r.Watch? ==> r == Watch(playlists[FindPlaylist(playlists, id).value].videoIds[0], id)
    ensures r.PlaylistPage? ==> r == PlaylistPage(id)
  {
    var found := FindPlaylist(playlists, id);
    if found.Some? && |playlists[found.value].videoIds| > 0 then
      Watch(playlists[found.value].videoIds[0], id)
    else
      PlaylistPage(id)
  }
}
