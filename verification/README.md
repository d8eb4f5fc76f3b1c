# YouTube clone: interaction store, watch history, feeds, playlists and player

A Dafny model of the client-side logic of a React YouTube clone:

- the **interaction store**: liked videos, disliked videos and subscribed
  channels, kept as JSON lists in browser storage (`UserInteractions`);
- the **watch history**: a capped, duplicate-free list of watch events and
  its joined view with the video records (`WatchHistory`);
- the **display formatters** for durations, ages ("3 days ago"), view counts
  and abbreviated numbers (`Formatters`);
- the **infinite feeds**: the home page and the side recommendations cycle
  through the catalogue ten at a time under fresh ids (`CyclingFeed`,
  `SideRecommendation`; unlike the home page, the side list breaks on a
  failed load). The subscriptions page relabels every video with a
  subscribed channel and pages through the relabelled list
  (`SubscriptionsPage`);
- the **playlists**: the substitution of the liked list for the dynamic
  "liked-videos" playlist and the `[...new Set(ids)]` clean-up
  (`PlaylistData`). Around it sit the playlists page (`PlaylistsPage`), the
  playlist page with its "Play all" button (`PlaylistDetailPage`) and the
  playlist panel beside the player (`PlaylistSidebar`);
- the **video player**: keyboard shortcuts, the one-time quality button and
  the quality menu (`VideoPlayer`).

Browser storage, the fetched JSON files and the video.js player are turned
into explicit state or parameters:

- Storage keys are class fields. A key whose text does not parse as JSON is a
  `corrupt` flag.
- A fetched file is an entry of a `map` (absent when the fetch fails) or an
  `Option`.
- The clock is a parameter (`now`, `diff`), and so is `Math.random()`
  (`random`).

Stateful code (the storage helpers and the components' state) is modelled as
classes. Each method's `ensures` ties the new state to a pure function of the
old one, and lemmas state the properties of those functions.

## Model

| member | source | states |
|---|---|---|
| UserInteractions.Insert | src/hooks/userInteractions.js:14-22 | the id becomes a member, appended at the end when it was absent, the list unchanged when present; no other membership changes; a list without repeats keeps none |
| UserInteractions.AddLiked | src/hooks/userInteractions.js:14-28 | the video is liked and not disliked; subscriptions untouched |
| UserInteractions.AddDisliked | src/hooks/userInteractions.js:59-73 | the video is disliked and not liked; subscriptions untouched |
| UserInteractions.RemoveVideo | src/hooks/userInteractions.js:30-41 | "liked" takes the video out of the liked list only, any other kind out of the disliked list only; subscriptions untouched |
| UserInteractions.ToggleLike | src/hooks/userInteractions.js:127-135 | whether the video is liked flips; subscriptions untouched |
| UserInteractions.ToggleDislike | src/hooks/userInteractions.js:137-145 | whether the video is disliked flips; subscriptions untouched |
| UserInteractions.AddSubscribed | src/hooks/userInteractions.js:91-105 | the channel is subscribed; both like lists untouched |
| UserInteractions.RemoveSubscribed | src/hooks/userInteractions.js:107-119 | the channel is not subscribed; both like lists untouched |
| UserInteractions.ToggleSubscribe | src/hooks/userInteractions.js:147-155 | whether the channel is subscribed flips; both like lists untouched |
| UserInteractions.AddLikedEffect | src/hooks/userInteractions.js:14-28 | after liking, the video is liked and not disliked, no other id changes list, subscriptions untouched, consistency (never both liked and disliked, no repeats) preserved |
| UserInteractions.AddDislikedEffect | src/hooks/userInteractions.js:59-73 | after disliking, the video is disliked and not liked, no other id changes list, subscriptions untouched, consistency preserved |
| UserInteractions.RemoveVideoEffect | src/hooks/userInteractions.js:30-41 | "liked" selects the liked list and any other kind the disliked list; the video leaves only that list; consistency preserved |
| UserInteractions.ToggleLikeEffect | src/hooks/userInteractions.js:127-135 | a like toggle flips whether the video is liked, never creates a dislike, moves no other id, preserves consistency |
| UserInteractions.ToggleDislikeEffect | src/hooks/userInteractions.js:137-145 | a dislike toggle flips whether the video is disliked, never creates a like, moves no other id, preserves consistency |
| UserInteractions.ToggleSubscribeEffect | src/hooks/userInteractions.js:147-155 | a subscription toggle flips the channel's subscription, touches no other channel and neither like list, preserves consistency |
| UserInteractions.ToggleLikeTwice | src/hooks/userInteractions.js:127-135 | two toggles restore whether the video is liked and every other id, and never leave a dislike that was not there |
| UserInteractions.ToggleSubscribeTwice | src/hooks/userInteractions.js:147-155 | two toggles restore the set of subscribed channels without introducing a repeat |
| UserInteractions.Store.constructor | src/hooks/userInteractions.js:4-12 | the store starts from the given stored lists and corruption flags, with no events fired |
| UserInteractions.Store.GetLikedVideos | src/hooks/userInteractions.js:4-12 | the stored list, or `[]` when the key is corrupt |
| UserInteractions.Store.GetDislikedVideos | src/hooks/userInteractions.js:49-57 | the stored list, or `[]` when the key is corrupt |
| UserInteractions.Store.GetSubscribedChannels | src/hooks/userInteractions.js:81-89 | the stored list, or `[]` when the key is corrupt |
| UserInteractions.Store.IsVideoLiked | src/hooks/userInteractions.js:43-46 | true exactly when the readable liked list holds the id |
| UserInteractions.Store.IsVideoDisliked | src/hooks/userInteractions.js:75-78 | true exactly when the readable disliked list holds the id |
| UserInteractions.Store.IsChannelSubscribed | src/hooks/userInteractions.js:121-124 | true exactly when the readable subscription list holds the channel |
| UserInteractions.Store.RemoveLikedVideo | src/hooks/userInteractions.js:30-41 | the stored lists become RemoveVideo of the old ones; the chosen key is rewritten and so no longer corrupt |
| UserInteractions.Store.AddLikedVideo | src/hooks/userInteractions.js:14-28 | the stored lists become AddLiked of the old ones; both keys rewritten; no subscription event |
| UserInteractions.Store.AddDislikedVideo | src/hooks/userInteractions.js:59-73 | the stored lists become AddDisliked of the old ones; both keys rewritten |
| UserInteractions.Store.AddSubscribedChannel | src/hooks/userInteractions.js:91-105 | the lists become AddSubscribed of the old ones; one change event only when the channel was new |
| UserInteractions.Store.RemoveSubscribedChannel | src/hooks/userInteractions.js:107-119 | the lists become RemoveSubscribed of the old ones; always one change event |
| UserInteractions.Store.ToggleLikeVideo | src/hooks/userInteractions.js:127-135 | state becomes ToggleLike of the old state; the result says whether the video is now liked; consistency preserved |
| UserInteractions.Store.ToggleDislikeVideo | src/hooks/userInteractions.js:137-145 | state becomes ToggleDislike of the old state; the result says whether it is now disliked; consistency preserved |
| UserInteractions.Store.ToggleSubscribeChannel | src/hooks/userInteractions.js:147-155 | state becomes ToggleSubscribe of the old state; the result says whether the channel is now subscribed; exactly one change event |
| WatchHistory.WithoutVideo | src/hooks/watchHistory.js:45 | every kept entry is for another video and comes from the history; the length never grows; a duplicate-free history stays so |
| WatchHistory.WithoutVideoKeepsOthers | src/hooks/watchHistory.js:45 | every entry for another video is kept |
| WatchHistory.WithoutVideoAppend | src/hooks/watchHistory.js:45 | the filter keeps the other entries in their relative order |
| WatchHistory.Added | src/hooks/watchHistory.js:22-60 | at most 1000 entries, the new entry last, no older entry for the same video, no duplicate videos introduced |
| WatchHistory.AddedKeepsNewestOthers | src/hooks/watchHistory.js:44-53 | the kept entries are the newest of the other videos' entries, in their old order, followed by the new one; at the cap exactly 1000 entries remain, so only the oldest are dropped; below it nothing is dropped |
| WatchHistory.AddedTwice | src/hooks/watchHistory.js:44-48 | watching a video again replaces its entry with one at the end |
| WatchHistory.AddedToFullHistoryDropsOldest | src/hooks/watchHistory.js:50-53 | a full history of 1000 distinct videos that gets a new video drops exactly its oldest entry |
| WatchHistory.NoMatchWithoutVideo | src/hooks/watchHistory.js:45 | filtering a video that has no entry changes nothing |
| WatchHistory.WithDetails | src/hooks/watchHistory.js:76-100 | the joined view is no longer than the history and holds only entries whose video was found, joined with that video |
| WatchHistory.WithDetailsComplete | src/hooks/watchHistory.js:76-100 | every entry whose video was found appears in the view |
| WatchHistory.WithDetailsAppend | src/hooks/watchHistory.js:76-100 | the view lists later entries first |
| WatchHistory.WithDetailsAllFound | src/hooks/watchHistory.js:76-100 | when every video is found the view is the stored list reversed, joined |
| WatchHistory.WithoutKeepsUniqueVideos | src/hooks/watchHistory.js:110-123 | dropping matching entries never lengthens the history nor creates duplicates |
| WatchHistory.HistoryStore.constructor | src/hooks/watchHistory.js:62-73 | the store starts from the given stored history, corruption flag and pause text |
| WatchHistory.HistoryStore.IsHistoryPaused | src/hooks/watchHistory.js:125-127 | paused exactly when the stored text is "true" |
| WatchHistory.HistoryStore.SetHistoryPaused | src/hooks/watchHistory.js:129-131 | stores "true" or "false" and leaves the history alone |
| WatchHistory.HistoryStore.GetWatchHistory | src/hooks/watchHistory.js:62-73 | the stored list, or `[]` when the key is corrupt |
| WatchHistory.HistoryStore.AddToWatchHistory | src/hooks/watchHistory.js:22-60 | paused or corrupt: nothing changes; otherwise the history becomes Added of the old one; the cap and duplicate-freedom are preserved |
| WatchHistory.HistoryStore.ClearWatchHistory | src/hooks/watchHistory.js:102-108 | the history reads as empty afterwards; the pause setting is kept |
| WatchHistory.HistoryStore.RemoveFromWatchHistory | src/hooks/watchHistory.js:110-123 | drops exactly the entries equal in both fields, unless the key is corrupt; never lengthens the history |
| WatchHistory.HistoryStore.GetWatchHistoryWithDetails | src/hooks/watchHistory.js:76-100 | the joined view of the stored list, `[]` for a corrupt key |
| Formatters.Pad2 | src/hooks/formatters.js:75-79 | two digits that read back as the number |
| Formatters.RealMod | src/hooks/formatters.js:71-73 | the remainder lies in `[0, m)`, its whole part is `floor(x) mod m` and its fractional part is that of `x` |
| Formatters.FormatDuration | src/hooks/formatters.js:66-82 | "0:00" for zero or negative input; from one hour on `H:MM:SS` of the whole seconds (hours unpadded, minutes and seconds of the hour two digits); below it `M:SS` with unpadded minutes |
| Formatters.DurationParts | src/hooks/formatters.js:70-73 | hours, minutes and seconds are the split of the whole seconds, minutes and seconds below 60 |
| Formatters.DurationRoundTrip | src/hooks/formatters.js:66-82 | reading a formatted duration back gives the whole number of seconds |
| Formatters.FirstFit | src/hooks/formatters.js:37-42 | the first unit of which at least one fits, with none fitting before it |
| Formatters.FormatTimeAgo | src/hooks/formatters.js:20-46 | "Unknown" for an empty date, "Just now" under a minute, otherwise "N unit(s) ago" for the largest unit that fits |
| Formatters.FirstFitIsLargest | src/hooks/formatters.js:28-42 | the unit the loop stops at is reached by the elapsed time, every earlier unit exceeds it and every later unit fits |
| Formatters.Phrase | src/hooks/formatters.js:40 | the phrase is longer than the unit and ends in " ago" |
| Formatters.PhrasePlural | src/hooks/formatters.js:40 | the phrase is the count in decimal, a space and the unit; for a unit not ending in "s", an "s" follows the unit exactly when the count is more than one |
| Formatters.UnitsSingular | src/hooks/formatters.js:28-35 | no unit of the table ends in "s", so the plural rule applies to every time-ago phrase |
| Formatters.IntervalsDescending | src/hooks/formatters.js:28-35 | the units are strictly decreasing, so the first fit is the largest |
| Formatters.FormatViews | src/hooks/formatters.js:49-63 | "M" exactly from a million, as millions with one decimal kept; "K" exactly between a thousand and a million with the whole thousands; plain digits that read back as the count below a thousand; no leading zero for a positive count; "0" for zero |
| Formatters.FormatNumber | src/hooks/formatters.js:4-17 | "0" for zero, the same thresholds as FormatViews, a trailing ".0" stripped; plain digits without a leading zero below a thousand; a minus sign in front of a negative number |
| Common.Without | src/hooks/userInteractions.js:34 | the value is gone, every other element keeps its membership, a list without the value is unchanged, no repeats are introduced |
| Common.WithoutMultiset | src/hooks/userInteractions.js:34 | exactly the occurrences of the value are removed: every other element keeps its count |
| Common.WithoutAppend | src/hooks/userInteractions.js:34 | filtering a concatenation filters each part, so the kept elements stay in order |
| Common.Dedupe | src/pages/PlaylistDetailPage.jsx:61 | no repeats, the same elements |
| Common.DedupeKeepsFirstOccurrenceOrder | src/pages/PlaylistDetailPage.jsx:61 | the result lists elements in the order of their first occurrence |
| Common.DedupeOfDistinct | src/pages/PlaylistDetailPage.jsx:61 | a list without repeats is unchanged |
| Common.ParseNatToString | src/pages/homePage.jsx:64 | a number's decimal text reads back as the number |
| Common.DashDigitsSuffix | src/pages/homePage.jsx:64 | text ending in a dash and digits determines both the digits and what precedes the dash |
| CyclingFeed.PagedId | src/pages/homePage.jsx:62-65 | the generated id starts with the original id |
| CyclingFeed.PagedIdInjective | src/pages/homePage.jsx:62-65 | a generated id determines the original id, the page and the position |
| CyclingFeed.Renamed | src/pages/homePage.jsx:62-65 | the copy differs from the video at most in its id |
| CyclingFeed.CycledIndex | src/pages/homePage.jsx:53-58 | the index is in range and equals `(page*10 + i) mod n` |
| CyclingFeed.NextBatch | src/pages/homePage.jsx:53-68 | ten videos, item `i` the catalogue video at CycledIndex renamed for this page and position |
| CyclingFeed.FirstBatch | src/pages/homePage.jsx:26 | the first ten videos, or all when fewer |
| CyclingFeed.AppendedIdsDistinct | src/pages/homePage.jsx:62-65 | in a feed built by cycling, no two appended items share an id |
| CyclingFeed.Feed.constructor | src/pages/homePage.jsx:20-43 | home page mount: catalogue as loaded (empty when the load failed), the first batch shown, page 1 |
| CyclingFeed.Feed.LoadMoreVideos | src/pages/homePage.jsx:46-50 | schedules a load exactly when none is pending and the catalogue is not empty |
| CyclingFeed.Feed.FinishLoadMore | src/pages/homePage.jsx:52-73 | appends the ten cycled, renamed videos, advances the page, and keeps the feed's cycling invariant |
| SideRecommendation.ViewsLabel | src/components/SideRecommendation.jsx:126 | "N K views" where N reads back as the whole thousands, with no leading zero from a thousand on and "0K views" below |
| SideRecommendation.MountSide | src/components/SideRecommendation.jsx:16-33 | a failed load breaks the component; a loaded catalogue is kept whole with its first ten videos shown |
| SubscriptionsPage.ChannelIndex | src/pages/SubscriptionsPage.jsx:45 | the random channel index is in range |
| SubscriptionsPage.SubId | src/pages/SubscriptionsPage.jsx:51 | the relabelled id holds the original id after the "sub-" prefix |
| SubscriptionsPage.SubIdInjective | src/pages/SubscriptionsPage.jsx:51 | the relabelled id determines the original id and position |
| SubscriptionsPage.WithSubscriptionChannels | src/pages/SubscriptionsPage.jsx:43-53 | same length; every channel is a subscribed one; only the id and channel change |
| SubscriptionsPage.WithSubscriptionChannelsIdsDistinct | src/pages/SubscriptionsPage.jsx:43-53 | the relabelled videos have distinct ids |
| SubscriptionsPage.SubscriptionBatch | src/pages/SubscriptionsPage.jsx:80-100 | every item comes from the list; inside the list the batch is ten cyclic successors; past the end it is the first batch again |
| SubscriptionsPage.SubscriptionFeed.constructor | src/pages/SubscriptionsPage.jsx:22-71 | no subscriptions or a failed load give an empty feed; otherwise the relabelled list and its first batch |
| SubscriptionsPage.SubscriptionFeed.LoadMoreVideos | src/pages/SubscriptionsPage.jsx:76-79 | schedules a load exactly when none is pending and the list is not empty |
| SubscriptionsPage.SubscriptionFeed.FinishLoadMore | src/pages/SubscriptionsPage.jsx:80-106 | appends SubscriptionBatch for the current page and advances the page |
| PlaylistData.EffectiveIds | src/pages/PlaylistDetailPage.jsx:54-61 | no repeats, the same ids as the liked list (dynamic "liked-videos") or the stored ids, in first-occurrence order |
| PlaylistData.EffectiveIdsOfDistinct | src/pages/PlaylistDetailPage.jsx:54-61 | ids without repeats are shown as stored |
| PlaylistData.Normalised | src/pages/PlaylistDetailPage.jsx:62-66 | only the ids change, to the cleaned-up ids |
| PlaylistData.Entries | src/pages/PlaylistDetailPage.jsx:71-84 | one entry per id in order, numbered from 1, carrying the video exactly when it loaded |
| PlaylistData.EntryId | src/pages/PlaylistDetailPage.jsx:102-110 | a loaded entry's id is its video's id |
| PlaylistsPage.LoadEach | src/pages/PlaylistsPage.jsx:34-60 | no more playlists than ids, each without repeated video ids |
| PlaylistsPage.LoadEachOne | src/pages/PlaylistsPage.jsx:35-56 | a readable id yields its cleaned-up playlist, an unreadable one nothing |
| PlaylistsPage.LoadEachAppend | src/pages/PlaylistsPage.jsx:34-60 | the survivors keep the index order |
| PlaylistsPage.LoadEachAllReadable | src/pages/PlaylistsPage.jsx:34-60 | with every file readable, entry `k` is playlist `k` cleaned up |
| PlaylistsPage.LoadPlaylists | src/pages/PlaylistsPage.jsx:24-71 | an unreadable index gives "Failed to load playlists", otherwise the loaded playlists |
| PlaylistsPage.FindPlaylist | src/pages/PlaylistsPage.jsx:76 | the first playlist with the id, or none when no playlist has it |
| PlaylistsPage.PlaylistClickRoute | src/pages/PlaylistsPage.jsx:74-84 | the first video when the playlist is found and not empty, the playlist page otherwise |
| PlaylistDetailPage.DisplayThumbnail | src/pages/PlaylistDetailPage.jsx:86-89 | the playlist's own thumbnail when truthy, else the first loaded entry's |
| PlaylistDetailPage.LoadDetail | src/pages/PlaylistDetailPage.jsx:37-100 | the missing-id error, not found for an unreadable file, else the cleaned-up playlist, its count, entries and thumbnail |
| PlaylistDetailPage.DetailEntriesNumbered | src/pages/PlaylistDetailPage.jsx:54-84 | a loaded page lists each source id once, numbered from 1, and counts them |
| PlaylistDetailPage.PlayAllAsWritten | src/pages/PlaylistDetailPage.jsx:106-110 | the first entry's rendered id, enabled exactly when there are entries |
| PlaylistDetailPage.PlayAllAsWrittenLosesFirstVideo | src/pages/PlaylistDetailPage.jsx:106-110 | a playlist whose first video did not load sends "Play all" to `/watch/undefined` |
| PlaylistDetailPage.PlayAll | src/pages/PlaylistDetailPage.jsx:106-110 | the first id of the cleaned-up playlist, enabled exactly when it has ids |
| PlaylistDetailPage.PlayAllOpensPlaylistVideo | src/pages/PlaylistDetailPage.jsx:106-110 | the corrected target is a video of the playlist and agrees with the code when the first video loaded |
| PlaylistSidebar.LoadSidebar | src/components/PlaylistSidebar.jsx:17-85 | loading without an id, nothing for an unreadable file, else the cleaned-up playlist and its entries |
| PlaylistSidebar.CurrentIndex | src/components/PlaylistSidebar.jsx:87-89 | the first entry whose video is the current one, -1 exactly when there is none |
| PlaylistSidebar.ClickTarget | src/components/PlaylistSidebar.jsx:212-226 | the current entry does nothing; any other opens its video in the playlist |
| PlaylistSidebar.CurrentEntryUnique | src/components/PlaylistSidebar.jsx:87-89 | with cleaned-up ids the highlighted entry is the one findIndex reports |
| VideoPlayer.ToLower | src/components/VideoPlayer.jsx:443 | same length; each ASCII capital is lowered, everything else kept |
| VideoPlayer.ToLowerIdempotent | src/components/VideoPlayer.jsx:443 | lowering twice is lowering once |
| VideoPlayer.ShortcutKeys | src/components/VideoPlayer.jsx:443-497 | which lower-cased key names select each case of the switch, and that every other key selects none |
| VideoPlayer.KeyStep | src/components/VideoPlayer.jsx:432-491 | nothing changes while typing; the duration never changes; a position within `[0, duration]` stays within it |
| VideoPlayer.Shortcut | src/components/VideoPlayer.jsx:443-491 | the seeking cases move by 5 or 10 seconds |
| VideoPlayer.Apply | src/components/VideoPlayer.jsx:443-491 | no case changes the duration; the default case changes nothing; a forward seek stays in `[0, duration]` |
| VideoPlayer.KeyStepEffects | src/components/VideoPlayer.jsx:430-500 | ignored while typing; space/k toggle play, f full screen, m mute; arrows and j/l seek by 5 and 10 seconds clamped to `[0, duration]`; other keys do nothing |
| VideoPlayer.KeyStepIgnoresCase | src/components/VideoPlayer.jsx:443 | a key and its lower-case form act the same |
| VideoPlayer.ToggleKeysInvolutive | src/components/VideoPlayer.jsx:444-462 | the toggling keys undo themselves |
| VideoPlayer.InsertDesc | src/components/VideoPlayer.jsx:563-565 | one element longer and holding the new element |
| VideoPlayer.InsertDescOrdered | src/components/VideoPlayer.jsx:563-565 | inserting into a tallest-first list keeps it tallest-first and one longer |
| VideoPlayer.InsertDescPermutes | src/components/VideoPlayer.jsx:563-565 | inserting adds exactly the new element and loses none |
| VideoPlayer.SortDesc | src/components/VideoPlayer.jsx:563-565 | tallest first and a permutation of the input |
| VideoPlayer.SortedRankingFromLevels | src/components/VideoPlayer.jsx:563-565 | the sorted list holds exactly the plugin's levels, each with its own position |
| VideoPlayer.UniqueFrom | src/components/VideoPlayer.jsx:566-574 | every entry is a height entry at its own sorted position from `i` on, in increasing position |
| VideoPlayer.UniqueFromFresh | src/components/VideoPlayer.jsx:566-574 | no menu entry repeats a height |
| VideoPlayer.UniqueFromCovers | src/components/VideoPlayer.jsx:566-574 | every height not yet seen gets an entry |
| VideoPlayer.QualityMenu | src/components/VideoPlayer.jsx:531-575 | "Auto" first, then one entry per distinct height, tallest first, each selected exactly when its level is enabled, covering exactly the plugin's heights |
| VideoPlayer.SelectAuto | src/components/VideoPlayer.jsx:553-555 | every level enabled, nothing else changed |
| VideoPlayer.SelectAsWritten | src/components/VideoPlayer.jsx:567-572 | only the level at the sorted position is enabled |
| VideoPlayer.SelectAsWrittenPicksWrongLevel | src/components/VideoPlayer.jsx:563-572 | with levels 360p then 720p, choosing "720p" enables the 360p level |
| VideoPlayer.SelectLevel | src/components/VideoPlayer.jsx:567-572 | only the chosen entry's own level is enabled |
| VideoPlayer.SelectLevelEnablesChosenHeight | src/components/VideoPlayer.jsx:563-572 | choosing a menu entry enables exactly one level, of the entry's height |
| VideoPlayer.Player.constructor | src/components/VideoPlayer.jsx:256-292 | a player with no levels, no quality button and no menu |
| VideoPlayer.Player.HandleKeyDown | src/components/VideoPlayer.jsx:430-500 | keeps Valid; the player becomes KeyStep of its old state; nothing else changes |
| VideoPlayer.Player.Perform | src/components/VideoPlayer.jsx:443-491 | the player becomes Apply of its old state for the case; nothing else changes |
| VideoPlayer.Player.OnAddQualityLevel | src/components/VideoPlayer.jsx:415-428 | appends the level; the button is created once, the first time there are two levels |
| VideoPlayer.Player.ShowQualityMenu | src/components/VideoPlayer.jsx:531-533 | closes an open menu, otherwise opens QualityMenu of the current levels |
| VideoPlayer.Player.ChooseMenuItem | src/components/VideoPlayer.jsx:539-572 | keeps Valid; "Auto" enables every level; a height entry applies SelectAsWritten, enabling the level at the entry's sorted position in the plugin's list; the menu closes |
| VideoPlayer.Player.ChooseMenuItemCorrected | src/components/VideoPlayer.jsx:539-572 | as ChooseMenuItem, but a height entry applies SelectLevel and so enables the level it was built from |

## Left out

- Browser storage, `fetch` and the JSON files are explicit state and parameters. A failed write (storage quota) is not modelled, so the store's operations always report success.
- The clock (`new Date()`) and `Math.random()` are parameters. Date parsing is replaced by the whole number of seconds elapsed (`None` for an unparsable date).
- `toFixed(1)` is not rendered. FormatViews and FormatNumber return the divisor, and for FormatNumber whether ".0" is stripped, instead of decimal text.
- Loose equality (`==`) in the sidebar's current-video test is string equality.
- `toLowerCase` lowers ASCII letters only.
- Non-numeric, NaN or non-finite inputs to the formatters are not modelled.
- A negative count is only promised to start with a minus sign in FormatViews and FormatNumber. The digits after it are not stated.
- The quality menu's "Auto" entry is highlighted when `selectedIndex` is `None`, which stands for the plugin's `null`. Which index the quality-levels plugin actually reports when nothing is selected is not modelled.
- Timers are left out: the 1- and 2-second `setTimeout` delays, the scroll throttles and the player's set-up delay. Loading more is split into a scheduling step and a completion step instead.
- Scroll listeners, loading spinners, React rendering and routing are not modelled. Navigation is a `Route` value.
- Dispatching the `subscriptionChange` event is a counter.
- Races between tabs and between overlapping fetches are not modelled.
- The DOM and video.js internals are not modelled: the control-bar layout, chapter markers, styles, the menu's position, and closing the menu on an outside click.
- An absent `videoIds` field behaves as the empty list.
- A playlist index that is not an array is treated like an unreadable one.
- The player's check that the quality-levels plugin is registered is left out.
- Card clicks are not modelled. On the home and subscriptions pages a card click navigates to `/watch/<id>`. On the side recommendations a card or channel click only writes to the console.
- SideRecommendation.MountSide: a failed load is the single `Broken` value. The thrown `slice`, the unhandled rejection and the render that reads the length of `null` are not told apart.
- A storage key holding valid JSON that is not a list (such as `null` or a number) is not represented. The getters would return that value as is, and `includes`, `push` and `filter` on it would throw.
- The playlist page's load is modelled as a fresh mount. When the `id` parameter changes on a mounted page, the source keeps the previous playlist and first-video thumbnail until the new load replaces them, and keeps them when the new playlist file cannot be read. PlaylistSidebar.LoadSidebar is likewise a fresh load: the panel keeps its previous playlist and entries when the `playlistId` prop changes to an empty id or to an unreadable file.
- SubscriptionsPage.SubscriptionBatch: a page past the end of the list repeats the first batch, which is what the code does.
- `src/hooks/videoDataLoader.js` and `src/hooks/data_fetch.js` are not part of this model. Their results enter as maps or `Option` values.

## Findings

| source | as written | input that shows it | evidently intended | confidence | as-written member | corrected member |
|---|---|---|---|---|---|---|
| src/components/VideoPlayer.jsx:563-572 | choosing a height enables the level at that entry's position in the sorted copy, not in the plugin's list | levels 360p then 720p: choosing "720p" enables the 360p level | enable the level the entry was built from | not executed | VideoPlayer.SelectAsWrittenPicksWrongLevel | VideoPlayer.SelectLevelEnablesChosenHeight |
| src/pages/PlaylistDetailPage.jsx:106-110 | "Play all" reads the id of the first loaded entry, which is missing when that video's file failed to load | playlist ["v1", "v2"] with no readable video files: navigates to `/watch/undefined` | play the first id of the playlist | not executed | PlaylistDetailPage.PlayAllAsWrittenLosesFirstVideo | PlaylistDetailPage.PlayAllOpensPlaylistVideo |
