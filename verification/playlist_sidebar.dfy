/** The playlist panel beside the player: the playlist's numbered entries,
    the one being watched highlighted, and clicks on the others. */
module PlaylistSidebar {
  import opened Common
  import opened PlaylistData

  /** What the panel shows. Without a playlist id nothing is fetched and the
      loading text stays; an unreadable file renders nothing. */
  datatype SidebarView =
    | Loading
    | Hidden
    | Shown(playlist: Playlist, videoCount: nat, entries: seq<Entry>)

  /** The loading effect for the `playlistId` prop (`None` when absent). */
  function LoadSidebar(playlistId: Option<string>, files: map<string, Playlist>, liked: seq<string>,
                       lookup: map<string, Video>): (r: SidebarView)
    ensures !Truthy(playlistId) <==> r.Loading?
    ensures Truthy(playlistId) ==> (r.Hidden? <==> playlistId.value !in files)
    ensures r.Shown? ==>
              Truthy(playlistId) && playlistId.value in files &&
              r.playlist == Normalised(playlistId.value, files[playlistId.value], liked) &&
              r.videoCount == |r.playlist.videoIds| == |r.entries| &&
              r.entries == Entries(r.playlist.videoIds, lookup)
  {
    if !Truthy(playlistId) then Loading
    else if playlistId.value !in files then Hidden
    else
      var p := Normalised(playlistId.value, files[playlistId.value], liked);
      Shown(p, |p.videoIds|, Entries(p.videoIds, lookup))
  }

  /** `video.id == currentVideoId`: an entry whose video did not load has no
      id and is never current. */
  predicate IsCurrent(e: Entry, currentVideoId: string) {
    e.details.Some? && e.details.value.id == currentVideoId
  }

  /** `playlistVideos.findIndex(v => v.id == currentVideoId)`. */
  function CurrentIndex(entries: seq<Entry>, currentVideoId: string): (r: int)
    ensures -1 <= r < |entries|
    ensures r == -1 <==> forall k :: 0 <= k < |entries| ==> !IsCurrent(entries[k], currentVideoId)
    ensures r >= 0 ==> IsCurrent(entries[r], currentVideoId) &&
                       forall k :: 0 <= k < r ==> !IsCurrent(entries[k], currentVideoId)
  {
    if entries == [] then -1
    else if IsCurrent(entries[0], currentVideoId) then 0
    else
      var rest := CurrentIndex(entries[1..], currentVideoId);
      assert forall k :: 1 <= k < |entries| ==> entries[k] == entries[1..][k - 1];
      if rest == -1 then -1 else rest + 1
  }

  /** Clicking entry `k`: nothing for the entry being watched, otherwise its
      video in the same playlist. */
  function ClickTarget(entries: seq<Entry>, k: nat, playlistId: string, currentVideoId: string): (r: Option<Route>)
    requires k < |entries|
    ensures r.None? <==> IsCurrent(entries[k], currentVideoId)
    ensures r.Some? ==> r.value == Watch(EntryId(entries[k]), playlistId)
  {
    if IsCurrent(entries[k], currentVideoId) then None
    else Some(Watch(EntryId(entries[k]), playlistId))
  }

  /** Each readable video file carries its own id. */
  predicate SelfNamed(lookup: map<string, Video>) {
    forall v :: v in lookup ==> lookup[v].id == v
  }

  /** With self-named video files, the entries of the cleaned-up list hold
      the watched video at most once, so the highlighted entry is exactly the
      one `findIndex` reports and every other entry navigates. */
  lemma {:induction false} CurrentEntryUnique(ids: seq<string>, lookup: map<string, Video>, currentVideoId: string, k: nat)
    requires NoDups(ids) && SelfNamed(lookup)
    requires k < |ids|
    requires IsCurrent(Entries(ids, lookup)[k], currentVideoId)
    ensures CurrentIndex(Entries(ids, lookup), currentVideoId) == k
  {
    var es := Entries(ids, lookup);
    var c := CurrentIndex(es, currentVideoId);
    assert ids[c] == currentVideoId == ids[k];
  }
}
