/** The watch history: a JSON list of `{videoId, watchedAt}` entries under the
    storage key "watchHistory", oldest first, at most one entry per video and
    at most 1000 entries, plus the "historyPaused" flag that suspends recording. */
module WatchHistory {
  import opened Common

  /** How many entries survive an add. */
  const MaxEntries: nat := 1000

  /** One watch event; `watchedAt` is the ISO-8601 text of the time of the call. */
  datatype Entry = Entry(videoId: string, watchedAt: string)

  /** A history entry joined with the video record fetched for it. */
  datatype HistoryItem = HistoryItem(videoId: string, watchedAt: string, details: Video)

  /** No two entries are for the same video. */
  predicate UniqueVideos(h: seq<Entry>) {
    forall i, j :: 0 <= i < j < |h| ==> h[i].videoId != h[j].videoId
  }

  /** `h.filter(item => item.videoId !== v)`. */
  function WithoutVideo(h: seq<Entry>, v: string): (r: seq<Entry>)
    ensures forall i :: 0 <= i < |r| ==> r[i].videoId != v && r[i] in h
    ensures |r| <= |h|
    ensures UniqueVideos(h) ==> UniqueVideos(r)
  {
    if h == [] then []
    else
      var rest := WithoutVideo(h[1..], v);
      assert UniqueVideos(h) ==> UniqueVideos(h[1..]) && forall e :: e in h[1..] ==> e.videoId != h[0].videoId;
      if h[0].videoId == v then rest else [h[0]] + rest
  }

  /** The filter drops nothing but the entries for `v`. */
  lemma {:induction false} WithoutVideoKeepsOthers(h: seq<Entry>, v: string, e: Entry)
    requires e in h && e.videoId != v
    ensures e in WithoutVideo(h, v)
  {
    if e != h[0] {
      assert e in h[1..];
      WithoutVideoKeepsOthers(h[1..], v, e);
    }
  }

  /** The filter keeps the other entries in their relative order. */
  lemma {:induction false} WithoutVideoAppend(a: seq<Entry>, b: seq<Entry>, v: string)
    ensures WithoutVideo(a + b, v) == WithoutVideo(a, v) + WithoutVideo(b, v)
  {
    if a == [] {
      assert a + b == b;
    } else {
      assert (a + b)[0] == a[0] && (a + b)[1..] == a[1..] + b;
      WithoutVideoAppend(a[1..], b, v);
    }
  }

  /** The stored list after `addToWatchHistory(v)` at time `now` (when not paused):
      earlier entries for `v` are dropped, the new entry is appended, and only
      the last 1000 entries are kept. */
  function Added(h: seq<Entry>, v: string, now: string): (r: seq<Entry>)
    ensures 1 <= |r| <= MaxEntries
    ensures r[|r| - 1] == Entry(v, now)
    ensures forall i :: 0 <= i < |r| - 1 ==> r[i].videoId != v
    ensures UniqueVideos(h) ==> UniqueVideos(r)
  {
    var w := WithoutVideo(h, v);
    var kept := w + [Entry(v, now)];
    assert UniqueVideos(w) ==> UniqueVideos(kept);
    if |kept| > MaxEntries then kept[|kept| - MaxEntries..] else kept
  }

  /** What an add keeps: the other videos' entries in their old order, of which
      only the newest ones survive when the cap is hit (exactly as many as fill
      the cap); below the cap nothing is dropped. */
  lemma {:induction false} AddedKeepsNewestOthers(h: seq<Entry>, v: string, now: string)
    ensures var w := WithoutVideo(h, v); var r := Added(h, v, now);
      |r| <= |w| + 1 &&
      r[..|r| - 1] == w[|w| + 1 - |r|..] &&
      (|w| >= MaxEntries ==> |r| == MaxEntries) &&
      (|w| < MaxEntries ==> r == w + [Entry(v, now)])
  {
    var w := WithoutVideo(h, v);
    var kept := w + [Entry(v, now)];
    var r := Added(h, v, now);
    assert r == if |kept| > MaxEntries then kept[|kept| - MaxEntries..] else kept;
    assert r == kept[|kept| - |r|..];
    assert r[..|r| - 1] == kept[|kept| - |r|..|kept| - 1];
    assert kept[..|kept| - 1] == w;
  }

  /** Watching a video again moves it to the end: two adds for the same video
      leave a single entry for it, carrying the later time. */
  lemma AddedTwice(h: seq<Entry>, v: string, t1: string, t2: string)
    ensures var r := Added(Added(h, v, t1), v, t2);
      r[|r| - 1] == Entry(v, t2) && forall i :: 0 <= i < |r| - 1 ==> r[i].videoId != v
  {
  }

  /** A full history of 1000 distinct videos that receives a new video keeps
      1000 entries and loses its oldest one. */
  lemma AddedToFullHistoryDropsOldest(h: seq<Entry>, v: string, now: string)
    requires |h| == MaxEntries && UniqueVideos(h)
    requires forall i :: 0 <= i < |h| ==> h[i].videoId != v
    ensures |Added(h, v, now)| == MaxEntries
    ensures h[0] !in Added(h, v, now)
    ensures Added(h, v, now) == h[1..] + [Entry(v, now)]
  {
    NoMatchWithoutVideo(h, v);
    var kept := h + [Entry(v, now)];
    assert |kept| == MaxEntries + 1;
    assert Added(h, v, now) == kept[1..];
    assert kept[1..] == h[1..] + [Entry(v, now)];
    HeadVideoUnique(h);
    assert h[0] !in h[1..];
  }

  lemma {:induction false} NoMatchWithoutVideo(h: seq<Entry>, v: string)
    requires forall i :: 0 <= i < |h| ==> h[i].videoId != v
    ensures WithoutVideo(h, v) == h
  {
    if h != [] {
      assert forall i :: 0 <= i < |h| - 1 ==> h[1..][i] == h[i + 1];
      NoMatchWithoutVideo(h[1..], v);
      assert [h[0]] + h[1..] == h;
    }
  }

  /** The item shown for an entry whose video was found. */
  function Joined(e: Entry, lookup: map<string, Video>): HistoryItem
    requires e.videoId in lookup
  {
    HistoryItem(e.videoId, e.watchedAt, lookup[e.videoId])
  }

  /** `getWatchHistoryWithDetails()` over the stored list `h`, with the fetch of each
      video given as `lookup` (a video missing from the map is one whose fetch
      returned null): most recent first, entries without details dropped. */
  function WithDetails(h: seq<Entry>, lookup: map<string, Video>): (r: seq<HistoryItem>)
    ensures |r| <= |h|
    ensures forall i :: 0 <= i < |r| ==>
              r[i].videoId in lookup && r[i].details == lookup[r[i].videoId] &&
              Entry(r[i].videoId, r[i].watchedAt) in h
  {
    if h == [] then []
    else
      var last := h[|h| - 1];
      var rest := WithDetails(h[..|h| - 1], lookup);
      assert forall e :: e in h ==> e == last || e in h[..|h| - 1];
      if last.videoId in lookup then [Joined(last, lookup)] + rest
      else rest
  }

  /** No entry whose video was found is lost from the view. */
  lemma {:induction false} WithDetailsComplete(h: seq<Entry>, lookup: map<string, Video>, k: nat)
    requires k < |h| && h[k].videoId in lookup
    ensures Joined(h[k], lookup) in WithDetails(h, lookup)
  {
    if k < |h| - 1 {
      WithDetailsComplete(h[..|h| - 1], lookup, k);
    }
  }

  /** The view reverses storage order: later entries come first. */
  lemma {:induction false} WithDetailsAppend(a: seq<Entry>, b: seq<Entry>, lookup: map<string, Video>)
    ensures WithDetails(a + b, lookup) == WithDetails(b, lookup) + WithDetails(a, lookup)
    decreases |b|
  {
    if b == [] {
      assert a + b == a;
    } else {
      var b' := b[..|b| - 1];
      assert (a + b)[..|a + b| - 1] == a + b' && (a + b)[|a + b| - 1] == b[|b| - 1];
      WithDetailsAppend(a, b', lookup);
    }
  }

  /** When every fetch succeeds the view is exactly the stored list reversed. */
  lemma {:induction false} WithDetailsAllFound(h: seq<Entry>, lookup: map<string, Video>)
    requires forall i :: 0 <= i < |h| ==> h[i].videoId in lookup
    ensures |WithDetails(h, lookup)| == |h|
    ensures forall k :: 0 <= k < |h| ==> WithDetails(h, lookup)[k] == Joined(h[|h| - 1 - k], lookup)
  {
    if h != [] {
      var init := h[..|h| - 1];
      assert forall i :: 0 <= i < |init| ==> init[i] == h[i];
      WithDetailsAllFound(init, lookup);
      var rest := WithDetails(init, lookup);
      var r := WithDetails(h, lookup);
      assert r == [Joined(h[|h| - 1], lookup)] + rest;
      forall k | 1 <= k < |h|
        ensures r[k] == Joined(h[|h| - 1 - k], lookup)
      {
        assert r[k] == rest[k - 1];
        assert h[|h| - 1 - k] == init[|init| - 1 - (k - 1)];
      }
    }
  }

  /** The "watchHistory" and "historyPaused" storage keys. A corrupt history key
      holds text that does not parse; an absent one is the empty list. */
  class HistoryStore {
    var history: seq<Entry>
    var historyCorrupt: bool
    /** The raw text under "historyPaused", if any. */
    var pausedRaw: Option<string>

    constructor (history: seq<Entry>, historyCorrupt: bool, pausedRaw: Option<string>)
      ensures this.history == history && this.historyCorrupt == historyCorrupt && this.pausedRaw == pausedRaw
    {
      this.history, this.historyCorrupt, this.pausedRaw := history, historyCorrupt, pausedRaw;
    }

    /** `isHistoryPaused()`: only the exact text "true" counts as paused. */
    method IsHistoryPaused() returns (paused: bool)
      ensures paused <==> pausedRaw == Some("true")
    {
      paused := pausedRaw == Some("true");
    }

    /** `setHistoryPaused(b)`: stores `b.toString()`; the history is untouched. */
    method SetHistoryPaused(paused: bool)
      modifies this
      ensures pausedRaw == Some(if paused then "true" else "false")
      ensures history == old(history) && historyCorrupt == old(historyCorrupt)
    {
      pausedRaw := Some(if paused then "true" else "false");
    }

    /** `getWatchHistory()`: the stored list, `[]` when the key is corrupt. */
    method GetWatchHistory() returns (h: seq<Entry>)
      ensures historyCorrupt ==> h == []
      ensures !historyCorrupt ==> h == history
    {
      h := if historyCorrupt then [] else history;
    }

    /** `addToWatchHistory(v)` at time `now`. Paused: nothing changes. Corrupt key:
        the parse throws, the error is swallowed and nothing changes. */
    method AddToWatchHistory(v: string, now: string)
      modifies this
      ensures old(pausedRaw == Some("true") || historyCorrupt) ==> history == old(history)
      ensures !old(pausedRaw == Some("true") || historyCorrupt) ==> history == Added(old(history), v, now)
      ensures historyCorrupt == old(historyCorrupt) && pausedRaw == old(pausedRaw)
      ensures old(UniqueVideos(history)) ==> UniqueVideos(history)
      ensures old(|history|) <= MaxEntries ==> |history| <= MaxEntries
    {
      var paused := IsHistoryPaused();
      if paused || historyCorrupt {
        return;
      }
      var h := history;
      h := WithoutVideo(h, v);
      h := h + [Entry(v, now)];
      if |h| > MaxEntries {
        h := h[|h| - MaxEntries..];
      }
      history := h;
    }

    /** `clearWatchHistory()`: removes the key, so the history reads as empty. */
    method ClearWatchHistory()
      modifies this
      ensures history == [] && !historyCorrupt
      ensures pausedRaw == old(pausedRaw)
    {
      history, historyCorrupt := [], false;
    }

    /** `removeFromWatchHistory(v, t)`: drops the entries matching both fields;
        an absent or corrupt key is left as it is. */
    method RemoveFromWatchHistory(v: string, t: string)
      modifies this
      ensures !old(historyCorrupt) ==> history == Without(old(history), Entry(v, t))
      ensures old(historyCorrupt) ==> history == old(history)
      ensures historyCorrupt == old(historyCorrupt) && pausedRaw == old(pausedRaw)
      ensures old(UniqueVideos(history)) ==> UniqueVideos(history)
      ensures |history| <= |old(history)|
    {
      if !historyCorrupt && history != [] {
        history := Without(history, Entry(v, t));
        WithoutKeepsUniqueVideos(old(history), Entry(v, t));
      }
    }

    /** `getWatchHistoryWithDetails()`: reads storage and changes nothing. */
    method GetWatchHistoryWithDetails(lookup: map<string, Video>) returns (items: seq<HistoryItem>)
      ensures historyCorrupt ==> items == []
      ensures !historyCorrupt ==> items == WithDetails(history, lookup)
    {
      var h := GetWatchHistory();
      items := WithDetails(h, lookup);
    }
  }

  lemma {:induction false} WithoutKeepsUniqueVideos(h: seq<Entry>, x: Entry)
    ensures |Without(h, x)| <= |h|
    ensures UniqueVideos(h) ==> UniqueVideos(Without(h, x))
  {
    if h != [] {
      var rest := Without(h[1..], x);
      WithoutKeepsUniqueVideos(h[1..], x);
      if h[0] != x {
        assert Without(h, x) == [h[0]] + rest;
        if UniqueVideos(h) {
          assert UniqueVideos(h[1..]);
          HeadVideoUnique(h);
          assert forall f :: f in rest ==> f in h[1..];
          ConsUniqueVideo(h[0], rest);
        }
      }
    }
  }

  /** In a history without repeated videos, the first entry's video does not
      occur again. */
  lemma HeadVideoUnique(h: seq<Entry>)
    requires h != [] && UniqueVideos(h)
    ensures forall f :: f in h[1..] ==> f.videoId != h[0].videoId
  {
    forall f | f in h[1..]
      ensures f.videoId != h[0].videoId
    {
      var k :| 0 <= k < |h[1..]| && h[1..][k] == f;
      assert h[k + 1] == f;
    }
  }

  /** Putting an entry for a new video in front keeps the videos distinct. */
  lemma ConsUniqueVideo(e: Entry, rest: seq<Entry>)
    requires UniqueVideos(rest) && forall f :: f in rest ==> f.videoId != e.videoId
    ensures UniqueVideos([e] + rest)
  {
    var r := [e] + rest;
    forall i, j | 0 <= i < j < |r|
      ensures r[i].videoId != r[j].videoId
    {
      if i == 0 {
        assert r[j] in rest;
      } else {
        assert r[i] == rest[i - 1] && r[j] == rest[j - 1];
      }
    }
  }
}
