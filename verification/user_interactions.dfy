/** The interaction-state store: liked videos, disliked videos and subscribed
    channels, each a JSON list under a fixed storage key ("likedVideos",
    "dislikedVideos", "subscribedChannels"). Every operation re-reads the key,
    changes the list and writes it back. */
module UserInteractions {
  import opened Common

  /** What the three getters return at one moment. */
  datatype Lists = Lists(liked: seq<string>, disliked: seq<string>, subscribed: seq<string>)

  /** The consistency rules of the store: no video is both liked and disliked,
      and no list holds an id twice. */
  predicate Consistent(l: Lists) {
    (forall v :: v in l.liked ==> v !in l.disliked) &&
    NoDups(l.liked) && NoDups(l.disliked) && NoDups(l.subscribed)
  }

  /** `if (!xs.includes(v)) xs.push(v)`: `v` becomes a member, appended at the end
      when it was absent, and no other id joins or leaves. */
  function Insert(s: seq<string>, v: string): (r: seq<string>)
    ensures v in r
    ensures forall w :: w != v ==> (w in r <==> w in s)
    ensures v in s ==> r == s
    ensures v !in s ==> r == s + [v]
    ensures NoDups(s) ==> NoDups(r)
  {
    if v in s then s else s + [v]
  }

  /** State after `addLikedVideo(v)`. */
  function AddLiked(l: Lists, v: string): (r: Lists)
    ensures v in r.liked && v !in r.disliked && r.subscribed == l.subscribed
  {
    Lists(Insert(l.liked, v), Without(l.disliked, v), l.subscribed)
  }

  /** State after `addDislikedVideo(v)`. */
  function AddDisliked(l: Lists, v: string): (r: Lists)
    ensures v in r.disliked && v !in r.liked && r.subscribed == l.subscribed
  {
    Lists(Without(l.liked, v), Insert(l.disliked, v), l.subscribed)
  }

  /** State after `removeLikedVideo(v, kind)`: "liked" picks the liked list,
      anything else the disliked list. */
  function RemoveVideo(l: Lists, v: string, kind: string): (r: Lists)
    ensures kind == "liked" ==> v !in r.liked && r.disliked == l.disliked
    ensures kind != "liked" ==> v !in r.disliked && r.liked == l.liked
    ensures r.subscribed == l.subscribed
  {
    if kind == "liked" then l.(liked := Without(l.liked, v))
    else l.(disliked := Without(l.disliked, v))
  }

  /** State after `toggleLikeVideo(v)`. */
  function ToggleLike(l: Lists, v: string): (r: Lists)
    ensures (v in r.liked) == (v !in l.liked)
    ensures r.subscribed == l.subscribed
  {
    if v in l.liked then RemoveVideo(l, v, "liked") else AddLiked(l, v)
  }

  /** State after `toggleDislikeVideo(v)`. */
  function ToggleDislike(l: Lists, v: string): (r: Lists)
    ensures (v in r.disliked) == (v !in l.disliked)
    ensures r.subscribed == l.subscribed
  {
    if v in l.disliked then
      assert "disliked"[0] != "liked"[0];
      RemoveVideo(l, v, "disliked")
    else AddDisliked(l, v)
  }

  /** State after `addSubscribedChannel(c)`. */
  function AddSubscribed(l: Lists, c: string): (r: Lists)
    ensures c in r.subscribed && r.liked == l.liked && r.disliked == l.disliked
  {
    l.(subscribed := Insert(l.subscribed, c))
  }

  /** State after `removeSubscribedChannel(c)`. */
  function RemoveSubscribed(l: Lists, c: string): (r: Lists)
    ensures c !in r.subscribed && r.liked == l.liked && r.disliked == l.disliked
  {
    l.(subscribed := Without(l.subscribed, c))
  }

  /** State after `toggleSubscribeChannel(c)`. */
  function ToggleSubscribe(l: Lists, c: string): (r: Lists)
    ensures (c in r.subscribed) == (c !in l.subscribed)
    ensures r.liked == l.liked && r.disliked == l.disliked
  {
    if c in l.subscribed then RemoveSubscribed(l, c) else AddSubscribed(l, c)
  }

  /** Liking `v` makes it liked and not disliked, moves no other id, leaves the
      subscriptions alone and keeps the store consistent. */
  lemma AddLikedEffect(l: Lists, v: string)
    ensures var r := AddLiked(l, v);
      v in r.liked && v !in r.disliked &&
      (forall w :: w != v ==> (w in r.liked <==> w in l.liked) && (w in r.disliked <==> w in l.disliked)) &&
      r.subscribed == l.subscribed &&
      (Consistent(l) ==> Consistent(r))
  {
  }

  /** Disliking `v` makes it disliked and not liked, moves no other id, leaves
      the subscriptions alone and keeps the store consistent. */
  lemma AddDislikedEffect(l: Lists, v: string)
    ensures var r := AddDisliked(l, v);
      v in r.disliked && v !in r.liked &&
      (forall w :: w != v ==> (w in r.liked <==> w in l.liked) && (w in r.disliked <==> w in l.disliked)) &&
      r.subscribed == l.subscribed &&
      (Consistent(l) ==> Consistent(r))
  {
  }

  /** Removing `v` takes it out of the list `kind` names and out of nothing
      else, and keeps the store consistent. */
  lemma RemoveVideoEffect(l: Lists, v: string, kind: string)
    ensures var r := RemoveVideo(l, v, kind);
      (kind == "liked" ==> v !in r.liked && r.disliked == l.disliked) &&
      (kind != "liked" ==> v !in r.disliked && r.liked == l.liked) &&
      (forall w :: w != v ==> (w in r.liked <==> w in l.liked) && (w in r.disliked <==> w in l.disliked)) &&
      r.subscribed == l.subscribed &&
      (Consistent(l) ==> Consistent(r))
  {
  }

  /** Toggling a like flips whether `v` is liked, never creates a dislike,
      moves no other id and keeps the store consistent. */
  lemma {:induction false} ToggleLikeEffect(l: Lists, v: string)
    ensures var r := ToggleLike(l, v);
      ((v in r.liked) == (v !in l.liked)) &&
      (v !in r.disliked || v in l.disliked) &&
      (forall w :: w != v ==> (w in r.liked <==> w in l.liked) && (w in r.disliked <==> w in l.disliked)) &&
      r.subscribed == l.subscribed &&
      (Consistent(l) ==> Consistent(r))
  {
    if v in l.liked {
      RemoveVideoEffect(l, v, "liked");
    } else {
      AddLikedEffect(l, v);
    }
  }

  /** Toggling a dislike flips whether `v` is disliked, never creates a like,
      moves no other id and keeps the store consistent. */
  lemma {:induction false} ToggleDislikeEffect(l: Lists, v: string)
    ensures var r := ToggleDislike(l, v);
      ((v in r.disliked) == (v !in l.disliked)) &&
      (v !in r.liked || v in l.liked) &&
      (forall w :: w != v ==> (w in r.liked <==> w in l.liked) && (w in r.disliked <==> w in l.disliked)) &&
      r.subscribed == l.subscribed &&
      (Consistent(l) ==> Consistent(r))
  {
    if v in l.disliked {
      assert "disliked" != "liked" by { assert "disliked"[0] != "liked"[0]; }
      RemoveVideoEffect(l, v, "disliked");
    } else {
      AddDislikedEffect(l, v);
    }
  }

  /** Toggling a subscription flips it for `c`, touches no other channel and
      neither like list, and keeps the store consistent. */
  lemma ToggleSubscribeEffect(l: Lists, c: string)
    ensures var r := ToggleSubscribe(l, c);
      ((c in r.subscribed) == (c !in l.subscribed)) &&
      (forall w :: w != c ==> (w in r.subscribed <==> w in l.subscribed)) &&
      r.liked == l.liked && r.disliked == l.disliked &&
      (Consistent(l) ==> Consistent(r))
  {
  }

  /** Toggling a like twice restores whether `v` is liked and leaves every other
      id where it was; the second toggle never re-creates a dislike. */
  lemma {:induction false} ToggleLikeTwice(l: Lists, v: string)
    ensures var r := ToggleLike(ToggleLike(l, v), v);
      (v in r.liked <==> v in l.liked) &&
      (forall w :: w != v ==> (w in r.liked <==> w in l.liked) && (w in r.disliked <==> w in l.disliked)) &&
      (v in r.disliked ==> v in l.disliked)
  {
    ToggleLikeEffect(l, v);
    ToggleLikeEffect(ToggleLike(l, v), v);
  }

  /** Toggling a subscription twice restores the set of subscribed channels and,
      on a list without repeats, introduces no repeat. */
  lemma {:induction false} ToggleSubscribeTwice(l: Lists, c: string)
    ensures var r := ToggleSubscribe(ToggleSubscribe(l, c), c);
      (forall w :: w in r.subscribed <==> w in l.subscribed) &&
      (NoDups(l.subscribed) ==> NoDups(r.subscribed))
  {
    ToggleSubscribeEffect(l, c);
    ToggleSubscribeEffect(ToggleSubscribe(l, c), c);
  }

  /** The browser storage behind the store. A key holding text that does not
      parse as JSON is `corrupt`; reading it gives `[]`. An absent key reads as
      `[]` as well, so it is represented by an empty list. */
  class Store {
    var liked: seq<string>
    var disliked: seq<string>
    var subscribed: seq<string>
    var likedCorrupt: bool
    var dislikedCorrupt: bool
    var subscribedCorrupt: bool
    /** Number of `subscriptionChange` events dispatched so far. */
    var subscriptionEvents: nat

    /** What the getters return: the stored list, or `[]` for a corrupt key. */
    function View(): Lists
      reads this
    {
      Lists(if likedCorrupt then [] else liked,
            if dislikedCorrupt then [] else disliked,
            if subscribedCorrupt then [] else subscribed)
    }

    constructor (liked: seq<string>, disliked: seq<string>, subscribed: seq<string>,
                 likedCorrupt: bool, dislikedCorrupt: bool, subscribedCorrupt: bool)
      ensures this.liked == liked && this.disliked == disliked && this.subscribed == subscribed
      ensures this.likedCorrupt == likedCorrupt && this.dislikedCorrupt == dislikedCorrupt
      ensures this.subscribedCorrupt == subscribedCorrupt && subscriptionEvents == 0
    {
      this.liked, this.disliked, this.subscribed := liked, disliked, subscribed;
      this.likedCorrupt, this.dislikedCorrupt, this.subscribedCorrupt := likedCorrupt, dislikedCorrupt, subscribedCorrupt;
      subscriptionEvents := 0;
    }

    /** `getLikedVideos()`: never fails; `[]` when the key is corrupt. */
    method GetLikedVideos() returns (r: seq<string>)
      ensures likedCorrupt ==> r == []
      ensures !likedCorrupt ==> r == liked
    {
      r := if likedCorrupt then [] else liked;
    }

    /** `getDislikedVideos()`: never fails; `[]` when the key is corrupt. */
    method GetDislikedVideos() returns (r: seq<string>)
      ensures dislikedCorrupt ==> r == []
      ensures !dislikedCorrupt ==> r == disliked
    {
      r := if dislikedCorrupt then [] else disliked;
    }

    /** `getSubscribedChannels()`: never fails; `[]` when the key is corrupt. */
    method GetSubscribedChannels() returns (r: seq<string>)
      ensures subscribedCorrupt ==> r == []
      ensures !subscribedCorrupt ==> r == subscribed
    {
      r := if subscribedCorrupt then [] else subscribed;
    }

    method IsVideoLiked(v: string) returns (b: bool)
      ensures b <==> !likedCorrupt && v in liked
    {
      var items := GetLikedVideos();
      b := v in items;
    }

    method IsVideoDisliked(v: string) returns (b: bool)
      ensures b <==> !dislikedCorrupt && v in disliked
    {
      var items := GetDislikedVideos();
      b := v in items;
    }

    method IsChannelSubscribed(c: string) returns (b: bool)
      ensures b <==> !subscribedCorrupt && c in subscribed
    {
      var items := GetSubscribedChannels();
      b := c in items;
    }

    /** `removeLikedVideo(v, kind)`: always rewrites the chosen key. */
    method RemoveLikedVideo(v: string, kind: string) returns (ok: bool)
      modifies this
      ensures ok
      ensures View() == RemoveVideo(old(View()), v, kind)
      ensures kind == "liked" ==> liked == Without(old(View()).liked, v)
      ensures kind != "liked" ==> disliked == Without(old(View()).disliked, v)
      ensures kind == "liked" ==> !likedCorrupt && dislikedCorrupt == old(dislikedCorrupt) && disliked == old(disliked)
      ensures kind != "liked" ==> !dislikedCorrupt && likedCorrupt == old(likedCorrupt) && liked == old(liked)
      ensures subscribed == old(subscribed) && subscribedCorrupt == old(subscribedCorrupt)
      ensures subscriptionEvents == old(subscriptionEvents)
    {
      if kind == "liked" {
        var items := GetLikedVideos();
        liked, likedCorrupt := Without(items, v), false;
      } else {
        var items := GetDislikedVideos();
        disliked, dislikedCorrupt := Without(items, v), false;
      }
      ok := true;
    }

    /** `addLikedVideo(v)`: append when absent, then drop `v` from the disliked list. */
    method AddLikedVideo(v: string) returns (ok: bool)
      modifies this
      ensures ok
      ensures View() == AddLiked(old(View()), v)
      ensures !likedCorrupt && !dislikedCorrupt
      ensures subscribed == old(subscribed) && subscribedCorrupt == old(subscribedCorrupt)
      ensures subscriptionEvents == old(subscriptionEvents)
    {
      var before := View();
      var items := GetLikedVideos();
      if v !in items {
        liked, likedCorrupt := items + [v], false;
      }
      assert !likedCorrupt && liked == Insert(before.liked, v);
      assert "disliked" != "liked" by { assert "disliked"[0] != "liked"[0]; }
      ghost var mid := View();
      assert mid == before.(liked := Insert(before.liked, v));
      ok := RemoveLikedVideo(v, "disliked");
      assert View() == mid.(disliked := Without(mid.disliked, v));
    }

    /** `addDislikedVideo(v)`: append when absent, then drop `v` from the liked list. */
    method AddDislikedVideo(v: string) returns (ok: bool)
      modifies this
      ensures ok
      ensures View() == AddDisliked(old(View()), v)
      ensures !likedCorrupt && !dislikedCorrupt
      ensures subscribed == old(subscribed) && subscribedCorrupt == old(subscribedCorrupt)
      ensures subscriptionEvents == old(subscriptionEvents)
    {
      var before := View();
      var items := GetDislikedVideos();
      if v !in items {
        disliked, dislikedCorrupt := items + [v], false;
      }
      assert !dislikedCorrupt && disliked == Insert(before.disliked, v);
      ghost var mid := View();
      assert mid == before.(disliked := Insert(before.disliked, v));
      ok := RemoveLikedVideo(v, "liked");
      assert View() == mid.(liked := Without(mid.liked, v));
    }

    /** `addSubscribedChannel(c)`: writes and fires the change event only when it inserts. */
    method AddSubscribedChannel(c: string) returns (ok: bool)
      modifies this
      ensures ok
      ensures View() == AddSubscribed(old(View()), c)
      ensures !subscribedCorrupt
      ensures subscriptionEvents == old(subscriptionEvents) + (if c in old(View()).subscribed then 0 else 1)
      ensures liked == old(liked) && disliked == old(disliked)
      ensures likedCorrupt == old(likedCorrupt) && dislikedCorrupt == old(dislikedCorrupt)
    {
      var items := GetSubscribedChannels();
      if c !in items {
        subscribed, subscribedCorrupt := items + [c], false;
        subscriptionEvents := subscriptionEvents + 1;
      }
      ok := true;
    }

    /** `removeSubscribedChannel(c)`: always writes and always fires the change event. */
    method RemoveSubscribedChannel(c: string) returns (ok: bool)
      modifies this
      ensures ok
      ensures View() == RemoveSubscribed(old(View()), c)
      ensures !subscribedCorrupt
      ensures subscriptionEvents == old(subscriptionEvents) + 1
      ensures liked == old(liked) && disliked == old(disliked)
      ensures likedCorrupt == old(likedCorrupt) && dislikedCorrupt == old(dislikedCorrupt)
    {
      var items := GetSubscribedChannels();
      subscribed, subscribedCorrupt := Without(items, c), false;
      subscriptionEvents := subscriptionEvents + 1;
      ok := true;
    }

    /** `toggleLikeVideo(v)`: reports whether `v` is liked afterwards. */
    method ToggleLikeVideo(v: string) returns (nowLiked: bool)
      modifies this
      ensures View() == ToggleLike(old(View()), v)
      ensures nowLiked == (v in View().liked) && nowLiked == (v !in old(View()).liked)
      ensures old(Consistent(View())) ==> Consistent(View())
      ensures subscribed == old(subscribed) && subscribedCorrupt == old(subscribedCorrupt)
      ensures subscriptionEvents == old(subscriptionEvents)
    {
      ToggleLikeEffect(View(), v);
      var isLiked := IsVideoLiked(v);
      if isLiked {
        var _ := RemoveLikedVideo(v, "liked");
        nowLiked := false;
      } else {
        var _ := AddLikedVideo(v);
        nowLiked := true;
      }
    }

    /** `toggleDislikeVideo(v)`: reports whether `v` is disliked afterwards. */
    method ToggleDislikeVideo(v: string) returns (nowDisliked: bool)
      modifies this
      ensures View() == ToggleDislike(old(View()), v)
      ensures nowDisliked == (v in View().disliked) && nowDisliked == (v !in old(View()).disliked)
      ensures old(Consistent(View())) ==> Consistent(View())
      ensures subscribed == old(subscribed) && subscribedCorrupt == old(subscribedCorrupt)
      ensures subscriptionEvents == old(subscriptionEvents)
    {
      ToggleDislikeEffect(View(), v);
      var isDisliked := IsVideoDisliked(v);
      if isDisliked {
        var _ := RemoveLikedVideo(v, "disliked");
        nowDisliked := false;
      } else {
        var _ := AddDislikedVideo(v);
        nowDisliked := true;
      }
    }

    /** `toggleSubscribeChannel(c)`: reports whether `c` is subscribed afterwards;
        either branch fires exactly one change event. */
    method ToggleSubscribeChannel(c: string) returns (nowSubscribed: bool)
      modifies this
      ensures View() == ToggleSubscribe(old(View()), c)
      ensures nowSubscribed == (c in View().subscribed) && nowSubscribed == (c !in old(View()).subscribed)
      ensures old(Consistent(View())) ==> Consistent(View())
      ensures subscriptionEvents == old(subscriptionEvents) + 1
      ensures liked == old(liked) && disliked == old(disliked)
      ensures likedCorrupt == old(likedCorrupt) && dislikedCorrupt == old(dislikedCorrupt)
    {
      ToggleSubscribeEffect(View(), c);
      var isSubscribed := IsChannelSubscribed(c);
      if isSubscribed {
        var _ := RemoveSubscribedChannel(c);
        nowSubscribed := false;
      } else {
        var _ := AddSubscribedChannel(c);
        nowSubscribed := true;
      }
    }
  }
}
