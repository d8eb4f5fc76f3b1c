/** The subscriptions page: every loaded video is credited to one of the
    subscribed channels, chosen at random, and re-keyed; scrolling then appends
    pages of ten, wrapping once past the end and afterwards repeating the first
    page. */
module SubscriptionsPage {
  import opened Common
  import opened CyclingFeed

  /** `Math.floor(random * n)` for a random number in [0, 1): always a valid
      index into a list of `n` channels. */
  function ChannelIndex(random: real, n: nat): (k: nat)
    requires 0.0 <= random < 1.0 && n > 0
    ensures k < n
  {
    assert 0.0 <= random * n as real < n as real by {
      assert random * n as real <= random * n as real + (1.0 - random) * n as real;
    }
    (random * n as real).Floor
  }

  /** `sub-${video.id}-${index}`. */
  function SubId(id: string, index: nat): (r: string)
    ensures |r| > |id| + 4 && r[4..4 + |id|] == id
  {
    "sub-" + id + "-" + NatToString(index)
  }

  /** Different positions always get different ids, even when the data repeats
      an id. */
  lemma SubIdInjective(x: string, i: nat, y: string, j: nat)
    requires SubId(x, i) == SubId(y, j)
    ensures i == j && x == y
  {
    DashDigitsSuffix("sub-" + x, NatToString(i), "sub-" + y, NatToString(j));
    NatToStringInjective(i, j);
    assert x == ("sub-" + x)[4..];
    assert y == ("sub-" + y)[4..];
  }

  /** Random numbers in [0, 1), one per video. */
  predicate UnitRandoms(random: seq<real>) {
    forall k :: 0 <= k < |random| ==> 0.0 <= random[k] < 1.0
  }

  /** The `data.map(...)` of the loading effect: the channel of each video is
      replaced by a subscribed channel and its id by a positional one. */
  function WithSubscriptionChannels(data: seq<Video>, subscribed: seq<string>, random: seq<real>): (r: seq<Video>)
    requires |subscribed| > 0 && |random| == |data| && UnitRandoms(random)
    ensures |r| == |data|
    ensures forall i :: 0 <= i < |r| ==> r[i].channelName in subscribed
    ensures forall i :: 0 <= i < |r| ==> r[i].(id := data[i].id, channelName := data[i].channelName) == data[i]
  {
    seq(|data|, i requires 0 <= i < |data| =>
      data[i].(channelName := subscribed[ChannelIndex(random[i], |subscribed|)], id := SubId(data[i].id, i)))
  }

  /** The re-keyed list never repeats an id. */
  lemma WithSubscriptionChannelsIdsDistinct(data: seq<Video>, subscribed: seq<string>, random: seq<real>, i: nat, j: nat)
    requires |subscribed| > 0 && |random| == |data| && UnitRandoms(random)
    requires i < j < |data|
    ensures WithSubscriptionChannels(data, subscribed, random)[i].id != WithSubscriptionChannels(data, subscribed, random)[j].id
  {
    var r := WithSubscriptionChannels(data, subscribed, random);
    if r[i].id == r[j].id {
      SubIdInjective(data[i].id, i, data[j].id, j);
    }
  }

  /** The batch the timer callback of `loadMoreVideos` appends for `page`.
      While the page starts inside the list, ten consecutive videos, wrapping
      to the front when the end is reached; once it starts past the end, the
      first page again, for every later page. */
  function SubscriptionBatch(all: seq<Video>, page: nat): (r: seq<Video>)
    requires page >= 1
    ensures forall i :: 0 <= i < |r| ==> r[i] in all
    ensures page * VideosPerPage < |all| ==>
              |r| == VideosPerPage &&
              forall i :: 0 <= i < VideosPerPage ==> r[i] == all[(page * VideosPerPage + i) % |all|]
    ensures page * VideosPerPage >= |all| ==> r == FirstBatch(all)
    ensures |all| >= VideosPerPage ==> |r| == VideosPerPage
  {
    var startIndex := page * VideosPerPage;
    var endIndex := startIndex + VideosPerPage;
    if startIndex >= |all| then
      FirstBatch(all)
    else if endIndex > |all| then
      var r := all[startIndex..] + all[..endIndex - |all|];
      WrappedSliceCycles(all, startIndex, r);
      r
    else
      var r := all[startIndex..endIndex];
      PlainSliceCycles(all, startIndex, r);
      r
  }

  /** Ten positions that stay inside the list are their own residues. */
  lemma PlainSliceCycles(all: seq<Video>, start: nat, r: seq<Video>)
    requires start + VideosPerPage <= |all|
    requires r == all[start..start + VideosPerPage]
    ensures |r| == VideosPerPage
    ensures forall i :: 0 <= i < VideosPerPage ==> r[i] == all[(start + i) % |all|]
  {
    forall i | 0 <= i < VideosPerPage
      ensures r[i] == all[(start + i) % |all|]
    {
      ModBelow(start + i, |all|);
    }
  }

  /** The tail of the list followed by enough of its head to make ten is the
      next ten positions counted modulo the length. */
  lemma WrappedSliceCycles(all: seq<Video>, start: nat, r: seq<Video>)
    requires VideosPerPage <= start < |all| < start + VideosPerPage
    requires r == all[start..] + all[..start + VideosPerPage - |all|]
    ensures |r| == VideosPerPage
    ensures forall i :: 0 <= i < VideosPerPage ==> r[i] == all[(start + i) % |all|]
  {
    forall i | 0 <= i < VideosPerPage
      ensures r[i] == all[(start + i) % |all|]
    {
      if start + i < |all| {
        ModBelow(start + i, |all|);
      } else {
        ModOnceOver(start + i, |all|);
      }
    }
  }

  /** The page's component state. */
  class SubscriptionFeed {
    var subscribedChannels: seq<string>
    var allVideos: seq<Video>
    var displayed: seq<Video>
    var page: nat
    var isLoadingMore: bool

    /** Everything on show belongs to a subscribed channel, and a pending batch
        has videos to draw from. */
    ghost predicate Valid()
      reads this
    {
      page >= 1 && (isLoadingMore ==> |allVideos| > 0) &&
      (forall i :: 0 <= i < |allVideos| ==> allVideos[i].channelName in subscribedChannels) &&
      (forall i :: 0 <= i < |displayed| ==> displayed[i] in allVideos)
    }

    /** Mounting: the stored subscriptions, then (only when there are some) the
        loaded videos (`None` when loading failed) and one random number per
        video. */
    constructor (subscribed: seq<string>, data: Option<seq<Video>>, random: seq<real>)
      requires data.Some? ==> |random| == |data.value| && UnitRandoms(random)
      ensures Valid()
      ensures subscribedChannels == subscribed && page == 1 && !isLoadingMore
      ensures |subscribed| == 0 || data.None? ==> allVideos == [] && displayed == []
      ensures |subscribed| > 0 && data.Some? ==>
                allVideos == WithSubscriptionChannels(data.value, subscribed, random) &&
                displayed == FirstBatch(allVideos)
    {
      subscribedChannels := subscribed;
      page := 1;
      isLoadingMore := false;
      if |subscribed| == 0 || data.None? {
        allVideos := [];
        displayed := [];
      } else {
        var videos := WithSubscriptionChannels(data.value, subscribed, random);
        allVideos := videos;
        displayed := FirstBatch(videos);
      }
    }

    /** `loadMoreVideos()`: ignored while a batch is pending or nothing was
        loaded; otherwise marks a batch as pending. */
    method LoadMoreVideos() returns (scheduled: bool)
      requires Valid()
      modifies this
      ensures Valid()
      ensures scheduled <==> !old(isLoadingMore) && |allVideos| > 0
      ensures isLoadingMore == (old(isLoadingMore) || scheduled)
      ensures allVideos == old(allVideos) && displayed == old(displayed) && page == old(page)
      ensures subscribedChannels == old(subscribedChannels)
    {
      if isLoadingMore || |allVideos| == 0 {
        return false;
      }
      isLoadingMore := true;
      scheduled := true;
    }

    /** The timer callback: appends the batch for the current page and moves to
        the next one. */
    method FinishLoadMore()
      requires Valid() && isLoadingMore
      modifies this
      ensures Valid() && !isLoadingMore
      ensures allVideos == old(allVideos) && subscribedChannels == old(subscribedChannels)
      ensures page == old(page) + 1
      ensures displayed == old(displayed) + SubscriptionBatch(allVideos, old(page))
    {
      var batch := SubscriptionBatch(allVideos, page);
      displayed := displayed + batch;
      page := page + 1;
      isLoadingMore := false;
    }
  }
}
