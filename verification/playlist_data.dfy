/** What the playlist list, the playlist page and the playlist sidebar share:
    the stored playlist record, the substitution of the liked list for the
    dynamic liked-videos playlist, the `[...new Set(ids)]` clean-up, the
    1-based numbering of the loaded entries, and navigation targets. */
module PlaylistData {
  import opened Common

  /** The id of the one playlist whose contents come from the liked list. */
  const LikedPlaylistId: string := "liked-videos"

  /** A playlist file; absent `videoIds` behave as the empty list. */
  datatype Playlist = Playlist(id: string, title: string, videoIds: seq<string>,
                               isDynamic: bool, thumbnail: Option<string>)

  /** A loaded playlist entry: the video file (`None` when `loadVideoById`
      returned null, leaving only the index) and its 1-based position. */
  datatype Entry = Entry(details: Option<Video>, playlistIndex: nat)

  /** Where a click sends the user: `/watch/{videoId}?playlist={playlistId}`
      or `/playlist?id={playlistId}`. */
  datatype Route = Watch(videoId: string, playlistId: string) | PlaylistPage(playlistId: string)

  /** JavaScript truthiness of an optional string: `null` and `""` are false. */
  predicate Truthy(s: Option<string>) {
    s.Some? && s.value != ""
  }

  /** The ids before de-duplication: the liked list for a dynamic playlist
      requested as "liked-videos", the stored ids otherwise. */
  function SourceIds(requestedId: string, p: Playlist, liked: seq<string>): seq<string> {
    if p.isDynamic && requestedId == LikedPlaylistId then liked else p.videoIds
  }

  /** The ids a playlist shows: its source ids, each once, at its first
      occurrence. */
  function EffectiveIds(requestedId: string, p: Playlist, liked: seq<string>): (r: seq<string>)
    ensures NoDups(r)
    ensures forall v :: v in r <==> v in SourceIds(requestedId, p, liked)
    ensures forall i, j :: 0 <= i < j < |r| ==>
              FirstIndex(SourceIds(requestedId, p, liked), r[i]) < FirstIndex(SourceIds(requestedId, p, liked), r[j])
  {
    DedupeKeepsFirstOccurrenceOrder(SourceIds(requestedId, p, liked));
    Dedupe(SourceIds(requestedId, p, liked))
  }

  /** A stored list without repeats is shown as stored, and a liked list
      without repeats (as the interaction store keeps it) is shown as it is. */
  lemma EffectiveIdsOfDistinct(requestedId: string, p: Playlist, liked: seq<string>)
    requires NoDups(SourceIds(requestedId, p, liked))
    ensures EffectiveIds(requestedId, p, liked) == SourceIds(requestedId, p, liked)
  {
    DedupeOfDistinct(SourceIds(requestedId, p, liked));
  }

  /** The playlist record after clean-up. */
  function Normalised(requestedId: string, p: Playlist, liked: seq<string>): (r: Playlist)
    ensures r.(videoIds := p.videoIds) == p
    ensures r.videoIds == EffectiveIds(requestedId, p, liked)
  {
    p.(videoIds := EffectiveIds(requestedId, p, liked))
  }

  /** `Promise.all(ids.map((id, index) => ({ ...video, playlistIndex: index + 1 })))`
      followed by `filter(Boolean)`: one entry per id, in order, numbered from
      1; a spread of `null` still yields an object, so nothing is dropped. */
  function Entries(ids: seq<string>, lookup: map<string, Video>): (r: seq<Entry>)
    ensures |r| == |ids|
    ensures forall k :: 0 <= k < |r| ==> r[k].playlistIndex == k + 1
    ensures forall k :: 0 <= k < |r| ==>
              (r[k].details.Some? <==> ids[k] in lookup) &&
              (r[k].details.Some? ==> r[k].details.value == lookup[ids[k]])
    decreases |ids|
  {
    if ids == [] then []
    else
      var init := Entries(ids[..|ids| - 1], lookup);
      var last := ids[|ids| - 1];
      init + [Entry(if last in lookup then Some(lookup[last]) else None, |ids|)]
  }

  /** `video.id` of an entry, as a route renders it: the text "undefined"
      when the video did not load. */
  function EntryId(e: Entry): (r: string)
    ensures e.details.Some? ==> r == e.details.value.id
  {
    if e.details.Some? then e.details.value.id else "undefined"
  }
}
