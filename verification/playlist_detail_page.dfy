/** The playlist page: the playlist named by the `id` query parameter, its
    cleaned-up ids, one numbered entry per id, the thumbnail shown at the top
    and the "Play all" button. */
module PlaylistDetailPage {
  import opened Common
  import opened PlaylistData

  /** What the page shows once loading is over. */
  datatype DetailView =
    | DetailError(message: string)
    | NotFound
    | Detail(playlist: Playlist, videoCount: nat, entries: seq<Entry>, thumbnail: Option<string>)

  /** `playlist.thumbnail || firstVideoThumbnail`, where the second is the
      thumbnail of the first entry, read only when the playlist has none. */
  function DisplayThumbnail(p: Playlist, entries: seq<Entry>): (r: Option<string>)
    ensures Truthy(p.thumbnail) ==> r == p.thumbnail
    ensures !Truthy(p.thumbnail) && |entries| > 0 && entries[0].details.Some? ==>
              r == Some(entries[0].details.value.thumbnail)
    ensures !Truthy(p.thumbnail) && (|entries| == 0 || entries[0].details.None?) ==> r.None?
  {
    if Truthy(p.thumbnail) then p.thumbnail
    else if |entries| > 0 && entries[0].details.Some? then Some(entries[0].details.value.thumbnail)
    else None
  }

  /** The loading effect for the query parameter `id` (`None` when absent),
      the readable playlist files, the liked list and the readable videos. */
  function LoadDetail(id: Option<string>, files: map<string, Playlist>, liked: seq<string>,
                      lookup: map<string, Video>): (r: DetailView)
    ensures !Truthy(id) <==> r.DetailError?
    ensures r.DetailError? ==> r.message == "No playlist ID provided"
    ensures Truthy(id) ==> (r.NotFound? <==> id.value !in files)
    ensures r.Detail? ==>
              Truthy(id) && id.value in files &&
              r.playlist == Normalised(id.value, files[id.value], liked) &&
              r.videoCount == |r.playlist.videoIds| == |r.entries| &&
              r.entries == Entries(r.playlist.videoIds, lookup) &&
              r.thumbnail == DisplayThumbnail(r.playlist, r.entries)
  {
    if !Truthy(id) then DetailError("No playlist ID provided")
    else if id.value !in files then NotFound
    else
      var p := Normalised(id.value, files[id.value], liked);
      var entries := Entries(p.videoIds, lookup);
      Detail(p, |p.videoIds|, entries, DisplayThumbnail(p, entries))
  }

  /** A loaded page lists every cleaned-up id once, in first-occurrence order,
      numbered from 1, and counts exactly those. */
  lemma DetailEntriesNumbered(id: Option<string>, files: map<string, Playlist>, liked: seq<string>,
                              lookup: map<string, Video>)
    requires LoadDetail(id, files, liked, lookup).Detail?
    ensures var d := LoadDetail(id, files, liked, lookup);
            NoDups(d.playlist.videoIds) &&
            d.videoCount == |d.entries| &&
            (forall v :: v in d.playlist.videoIds <==> v in SourceIds(id.value, files[id.value], liked)) &&
            (forall k :: 0 <= k < |d.entries| ==> d.entries[k].playlistIndex == k + 1)
  {
  }

  /** `handlePlayAll` as written: it reads the id of the first loaded entry,
      which is the text "undefined" when that video did not load. */
  function PlayAllAsWritten(entries: seq<Entry>, playlistId: string): (r: Option<Route>)
    ensures r.Some? <==> |entries| > 0
    ensures r.Some? ==> r.value == Watch(EntryId(entries[0]), playlistId)
  {
    if |entries| > 0 then Some(Watch(EntryId(entries[0]), playlistId)) else None
  }

  /** When the first video's file cannot be read, "Play all" as written opens
      `/watch/undefined` instead of the first video of the playlist. */
  lemma PlayAllAsWrittenLosesFirstVideo()
    ensures var p := Playlist("p", "Mix", ["v1", "v2"], false, None);
            var d := LoadDetail(Some("p"), map["p" := p], [], map[]);
            d.Detail? && PlayAllAsWritten(d.entries, "p") == Some(Watch("undefined", "p")) &&
            d.playlist.videoIds[0] == "v1"
  {
    var p := Playlist("p", "Mix", ["v1", "v2"], false, None);
    assert "v1" != "v2" by {
      assert "v1"[1] != "v2"[1];
    }
    EffectiveIdsOfDistinct("p", p, []);
    var d := LoadDetail(Some("p"), map["p" := p], [], map[]);
    assert d.playlist.videoIds == ["v1", "v2"];
    assert d.entries[0].details.None?;
  }

  /** "Play all", corrected: the first id of the cleaned-up playlist. */
  function PlayAll(p: Playlist, playlistId: string): (r: Option<Route>)
    ensures r.Some? <==> |p.videoIds| > 0
    ensures r.Some? ==> r.value.Watch? && r.value.videoId == p.videoIds[0] && r.value.playlistId == playlistId
  {
    if |p.videoIds| > 0 then Some(Watch(p.videoIds[0], playlistId)) else None
  }

  /** On a loaded page the corrected "Play all" is enabled exactly when the
      button is, opens a video of the playlist, and agrees with the code as
      written whenever the first video loaded under its own id. */
  lemma PlayAllOpensPlaylistVideo(id: Option<string>, files: map<string, Playlist>, liked: seq<string>,
                                  lookup: map<string, Video>)
    requires LoadDetail(id, files, liked, lookup).Detail?
    ensures var d := LoadDetail(id, files, liked, lookup);
            var r := PlayAll(d.playlist, id.value);
            (r.Some? <==> |d.entries| > 0) &&
            (r.Some? ==> r.value.videoId in SourceIds(id.value, files[id.value], liked)) &&
            (r.Some? && d.playlist.videoIds[0] in lookup && lookup[d.playlist.videoIds[0]].id == d.playlist.videoIds[0] ==>
               r == PlayAllAsWritten(d.entries, id.value))
  {
  }
}
