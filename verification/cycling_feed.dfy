/** The simulated infinite scroll of the home page and of the side
    recommendations: both show the first ten loaded videos, and every later
    batch re-emits ten already-loaded videos, cycling through the list, under
    new ids. The two components share the load-more code; they differ in how
    a failed load is mounted (see `SideRecommendation.MountSide`). */
module CyclingFeed {
  import opened Common

  const VideosPerPage: nat := 10

  /** `${original.id}-page-${page}-${i}`. */
  function PagedId(id: string, page: nat, i: nat): (r: string)
    ensures |r| > |id| && r[..|id|] == id
  {
    id + "-page-" + NatToString(page) + "-" + NatToString(i)
  }

  /** Distinct (page, position) pairs give distinct ids, whatever the original
      ids are: the generated keys never clash. */
  lemma PagedIdInjective(x: string, p: nat, i: nat, y: string, q: nat, j: nat)
    requires PagedId(x, p, i) == PagedId(y, q, j)
    ensures x == y && p == q && i == j
  {
    assert PagedId(x, p, i) == (x + "-page-" + NatToString(p)) + "-" + NatToString(i);
    assert PagedId(y, q, j) == (y + "-page-" + NatToString(q)) + "-" + NatToString(j);
    DashDigitsSuffix(x + "-page-" + NatToString(p), NatToString(i), y + "-page-" + NatToString(q), NatToString(j));
    assert x + "-page-" + NatToString(p) == (x + "-page") + "-" + NatToString(p);
    assert y + "-page-" + NatToString(q) == (y + "-page") + "-" + NatToString(q);
    DashDigitsSuffix(x + "-page", NatToString(p), y + "-page", NatToString(q));
    assert x == (x + "-page")[..|x|];
    assert y == (y + "-page")[..|y|];
    NatToStringInjective(p, q);
    NatToStringInjective(i, j);
  }

  /** A copy of `v` that differs only in its id. */
  function Renamed(v: Video, page: nat, i: nat): (r: Video)
    ensures r.(id := v.id) == v
  {
    v.(id := PagedId(v.id, page, i))
  }

  /** Position in the loaded list of item `i` of the batch for `page`:
      `((page * 10) % n + i) % n`, always a valid index, and the same as
      counting on from where the previous page stopped. */
  function CycledIndex(page: nat, n: nat, i: nat): (k: nat)
    requires n > 0
    ensures k < n
    ensures k == (page * VideosPerPage + i) % n
  {
    ModAddMod(page * VideosPerPage, i, n);
    ((page * VideosPerPage) % n + i) % n
  }

  /** Reducing the first summand modulo `n` first does not change the sum modulo `n`. */
  lemma {:induction false} ModAddMod(a: nat, b: nat, n: nat)
    requires n > 0
    ensures (a % n + b) % n == (a + b) % n
    decreases a
  {
    if a >= n {
      var c := a - n;
      ModShift(c, n);
      ModShift(c + b, n);
      ModAddMod(c, b, n);
    } else {
      ModBelow(a, n);
    }
  }

  lemma ModBelow(x: nat, n: nat)
    requires x < n
    ensures x % n == x
  {
  }

  lemma ModOnceOver(x: nat, n: nat)
    requires n <= x < 2 * n
    ensures x % n == x - n
  {
  }

  lemma ModShift(x: nat, n: nat)
    requires n > 0
    ensures (x + n) % n == x % n
  {
    var q, r := x / n, x % n;
    var q', r' := (x + n) / n, (x + n) % n;
    QuotientGap(x, n, q, r, q', r');
    SmallMultipleIsZero(q' - q - 1, n, r - r');
  }

  lemma QuotientGap(x: int, n: int, q: int, r: int, q': int, r': int)
    requires n > 0 && 0 <= r < n && 0 <= r' < n
    requires x == q * n + r && x + n == q' * n + r'
    ensures (q' - q - 1) * n == r - r'
  {
    assert (q' - q - 1) * n == q' * n - q * n - n;
  }

  lemma MultipleAtLeast(d: int, n: int)
    requires n > 0 && d > 0
    ensures d * n >= n
  {
    assert d * n == n + (d - 1) * n;
  }

  lemma SmallMultipleIsZero(d: int, n: int, e: int)
    requires n > 0 && -n < e < n && d * n == e
    ensures d == 0
  {
    if d > 0 { MultipleAtLeast(d, n); } else if d < 0 { MultipleAtLeast(-d, n); }
  }

  /** The ten videos `loadMoreVideos` appends for `page`, built by the source's
      counted loop. */
  method NextBatch(all: seq<Video>, page: nat) returns (batch: seq<Video>)
    requires |all| > 0
    ensures |batch| == VideosPerPage
    ensures forall i :: 0 <= i < VideosPerPage ==>
              batch[i] == Renamed(all[CycledIndex(page, |all|, i)], page, i)
  {
    var startIndex := (page * VideosPerPage) % |all|;
    batch := [];
    for i := 0 to VideosPerPage
      invariant |batch| == i
      invariant forall j :: 0 <= j < i ==> batch[j] == Renamed(all[CycledIndex(page, |all|, j)], page, j)
    {
      var videoIndex := (startIndex + i) % |all|;
      batch := batch + [Renamed(all[videoIndex], page, i)];
    }
  }

  /** The first batch shown: `data.slice(0, 10)`. */
  function FirstBatch(all: seq<Video>): (r: seq<Video>)
    ensures |r| == if |all| < VideosPerPage then |all| else VideosPerPage
    ensures r == all[..|r|]
  {
    if |all| < VideosPerPage then all else all[..VideosPerPage]
  }

  /** `shown` starts with the first page of `all` and continues with renamed
      copies cycling through `all`: item `j` is `all[j % |all|]` under the id
      that page `j / 10`, position `j % 10` gives it. */
  ghost predicate CycledFrom(all: seq<Video>, shown: seq<Video>)
    requires |all| >= VideosPerPage
  {
    (forall j :: 0 <= j < VideosPerPage && j < |shown| ==> shown[j] == all[j]) &&
    (forall j :: VideosPerPage <= j < |shown| ==>
       shown[j] == Renamed(all[j % |all|], j / VideosPerPage, j % VideosPerPage))
  }

  /** Appending the batch for page `p` to `p` full pages keeps the cycle going. */
  lemma CycledAppend(all: seq<Video>, before: seq<Video>, p: nat, batch: seq<Video>)
    requires |all| >= VideosPerPage && p >= 1 && |before| == VideosPerPage * p
    requires CycledFrom(all, before)
    requires |batch| == VideosPerPage
    requires forall i :: 0 <= i < VideosPerPage ==> batch[i] == Renamed(all[CycledIndex(p, |all|, i)], p, i)
    ensures CycledFrom(all, before + batch)
  {
    var shown := before + batch;
    forall j | VideosPerPage <= j < |shown|
      ensures shown[j] == Renamed(all[j % |all|], j / VideosPerPage, j % VideosPerPage)
    {
      if j >= |before| {
        var i := j - |before|;
        assert shown[j] == batch[i];
        PagePosition(j, p);
      } else {
        assert shown[j] == before[j];
      }
    }
  }

  /** Item `j` of the shown list sits on page `p` when it lies in that page's ten slots. */
  lemma PagePosition(j: nat, p: nat)
    requires VideosPerPage * p <= j < VideosPerPage * (p + 1)
    ensures j / VideosPerPage == p && j % VideosPerPage == j - VideosPerPage * p
  {
  }

  /** Every video appended by scrolling has an id of its own. */
  lemma AppendedIdsDistinct(all: seq<Video>, shown: seq<Video>, j: nat, k: nat)
    requires |all| >= VideosPerPage && CycledFrom(all, shown)
    requires VideosPerPage <= j < k < |shown|
    ensures shown[j].id != shown[k].id
  {
    if shown[j].id == shown[k].id {
      PagedIdInjective(all[j % |all|].id, j / VideosPerPage, j % VideosPerPage,
                       all[k % |all|].id, k / VideosPerPage, k % VideosPerPage);
      assert false;
    }
  }

  /** The component state of the home page, and of the side recommendations
      once they have mounted on a loaded catalogue. */
  class Feed {
    var allVideos: seq<Video>
    var displayed: seq<Video>
    var page: nat
    var isLoadingMore: bool

    /** A pending batch always has videos to draw from. */
    ghost predicate Valid()
      reads this
    {
      page >= 1 && (isLoadingMore ==> |allVideos| > 0)
    }

    /** With at least ten loaded videos, the displayed list is the loaded
        list repeated over and over, ten per page. */
    ghost predicate Cyclic()
      reads this
    {
      |allVideos| >= VideosPerPage ==>
        |displayed| == VideosPerPage * page && CycledFrom(allVideos, displayed)
    }

    /** Mounting: the loaded list (`None` when loading failed) and its first batch. */
    constructor (data: Option<seq<Video>>)
      ensures Valid() && Cyclic()
      ensures allVideos == (if data.Some? then data.value else [])
      ensures displayed == FirstBatch(allVideos)
      ensures page == 1 && !isLoadingMore
    {
      allVideos := if data.Some? then data.value else [];
      displayed := FirstBatch(if data.Some? then data.value else []);
      page := 1;
      isLoadingMore := false;
      new;
    }

    /** `loadMoreVideos()`: ignored while a batch is pending or nothing was loaded;
        otherwise marks a batch as pending (the source then waits on a timer). */
    method LoadMoreVideos() returns (scheduled: bool)
      requires Valid()
      modifies this
      ensures Valid()
      ensures scheduled <==> !old(isLoadingMore) && |allVideos| > 0
      ensures isLoadingMore == (old(isLoadingMore) || scheduled)
      ensures allVideos == old(allVideos) && displayed == old(displayed) && page == old(page)
    {
      if isLoadingMore || |allVideos| == 0 {
        return false;
      }
      isLoadingMore := true;
      scheduled := true;
    }

    /** The timer callback of `loadMoreVideos`: appends the next batch and moves
        to the next page. */
    method FinishLoadMore()
      requires Valid() && isLoadingMore
      modifies this
      ensures Valid() && !isLoadingMore
      ensures allVideos == old(allVideos) && page == old(page) + 1
      ensures |displayed| == |old(displayed)| + VideosPerPage
      ensures displayed[..|old(displayed)|] == old(displayed)
      ensures forall i :: 0 <= i < VideosPerPage ==>
                displayed[|old(displayed)| + i] == Renamed(allVideos[CycledIndex(old(page), |allVideos|, i)], old(page), i)
      ensures old(Cyclic()) ==> Cyclic()
    {
      var newVideos := NextBatch(allVideos, page);
      ghost var before := displayed;
      displayed := displayed + newVideos;
      page := page + 1;
      isLoadingMore := false;
      assert displayed[..|before|] == before;
      if |allVideos| >= VideosPerPage && |before| == VideosPerPage * (page - 1) && CycledFrom(allVideos, before) {
        CycledAppend(allVideos, before, page - 1, newVideos);
      }
    }
  }
}
