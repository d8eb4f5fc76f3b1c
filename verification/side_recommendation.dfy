/** The caption under each side-recommendation card. */
module SideRecommendation {
  import opened Common
  import opened CyclingFeed

  /** The side list once the catalogue fetch settles. Unlike the home page
      there is no check on what the fetch returned: a failed fetch hands back
      `null`, which is stored as the catalogue, and taking its first batch
      throws before anything is shown; the next render then reads the length
      of `null` and the component breaks. */
  datatype SideMount = Broken | Mounted(allVideos: seq<Video>, displayed: seq<Video>)

  /** Mounting the side recommendations on the fetch result (`None` when the
      fetch failed). A loaded catalogue is kept whole and its first ten videos,
      or all of them when fewer, are shown. */
  function MountSide(data: Option<seq<Video>>): (r: SideMount)
    ensures r.Broken? <==> data.None?
    ensures r.Mounted? ==> r.allVideos == data.value
    ensures r.Mounted? ==> |r.displayed| == if |data.value| < VideosPerPage then |data.value| else VideosPerPage
    ensures r.Mounted? ==> r.displayed == data.value[..|r.displayed|]
  {
    match data
    case None => Broken
    case Some(all) => Mounted(all, FirstBatch(all))
  }

  /** `${Math.floor(views / 1000)}K views`: whole thousands, truncated, and a
      fixed suffix; the number in front reads back as the count of thousands. */
  function ViewsLabel(views: nat): (r: string)
    ensures |r| > |"K views"| && r[|r| - |"K views"|..] == "K views"
    ensures AllDigits(r[..|r| - |"K views"|])
    ensures ParseNat(r[..|r| - |"K views"|]) == views / 1000
    ensures views >= 1000 ==> r[0] != '0'
    ensures views < 1000 ==> r == "0K views"
  {
    var n := NatToString(views / 1000);
    ParseNatToString(views / 1000);
    assert (n + "K views")[..|n|] == n;
    n + "K views"
  }
}
