/** The video player's own logic: the keyboard shortcuts, the one-shot
    creation of the quality button, and the quality menu with its selection. */
module VideoPlayer {
  import opened Common

  // ---------------------------------------------------------------------
  // Keyboard shortcuts
  // ---------------------------------------------------------------------

  /** The part of the player that the shortcuts read and change. */
  datatype PlayerState = PlayerState(paused: bool, fullscreen: bool, currentTime: real,
                                     duration: real, muted: bool)

  /** The focused element (`document.activeElement`), when there is one. */
  datatype Element = Element(tagName: string, contentEditable: string)

  /** Typing into a text field or an editable element is not a shortcut. */
  predicate InputFocused(active: Option<Element>) {
    active.Some? &&
    (active.value.tagName == "INPUT" || active.value.tagName == "TEXTAREA" ||
     active.value.contentEditable == "true")
  }

  function LowerChar(c: char): (r: char)
    ensures 'A' <= c <= 'Z' ==> 'a' <= r <= 'z' && r as int == c as int + 32
    ensures !('A' <= c <= 'Z') ==> r == c
  {
    if 'A' <= c <= 'Z' then (c as int + 32) as char else c
  }

  /** `toLowerCase()` on the ASCII letters. */
  function ToLower(s: string): (r: string)
    ensures |r| == |s|
    ensures forall i :: 0 <= i < |s| ==> r[i] == LowerChar(s[i])
  {
    if s == [] then [] else [LowerChar(s[0])] + ToLower(s[1..])
  }

  /** Lower-casing twice is lower-casing once. */
  lemma ToLowerIdempotent(s: string)
    ensures ToLower(ToLower(s)) == ToLower(s)
  {
    var t := ToLower(s);
    assert forall i :: 0 <= i < |t| ==> ToLower(t)[i] == t[i];
  }

  function Max(a: real, b: real): real { if a >= b then a else b }
  function Min(a: real, b: real): real { if a <= b then a else b }

  /** What a keydown does to the player. Outside text input, space and `k`
      toggle play, `f` toggles full screen, `m` toggles mute, the left arrow
      and `j` rewind 5 and 10 seconds but never before 0, the right arrow and
      `l` skip 5 and 10 seconds but never past the end; letter case does not
      matter and every other key does nothing. */
  function KeyStep(s: PlayerState, key: string, active: Option<Element>): (r: PlayerState)
    ensures InputFocused(active) ==> r == s
    ensures r.duration == s.duration
    ensures 0.0 <= s.currentTime <= s.duration ==> 0.0 <= r.currentTime <= r.duration
  {
    if InputFocused(active) then s else Apply(s, Shortcut(ToLower(key)))
  }

  /** The cases of the keydown `switch`. */
  datatype KeyAction = TogglePlay | ToggleFullscreen | Rewind(seconds: real) | Skip(seconds: real) | ToggleMute | NoAction

  /** Which case a lower-cased key selects. */
  function Shortcut(k: string): (a: KeyAction)
    ensures (a.Rewind? || a.Skip?) ==> a.seconds == 5.0 || a.seconds == 10.0
  {
    if k == " " || k == "k" then TogglePlay
    else if k == "f" then ToggleFullscreen
    else if k == "arrowleft" then Rewind(5.0)
    else if k == "arrowright" then Skip(5.0)
    else if k == "j" then Rewind(10.0)
    else if k == "l" then Skip(10.0)
    else if k == "m" then ToggleMute
    else NoAction
  }

  /** What one case does to the player. */
  function Apply(s: PlayerState, a: KeyAction): (r: PlayerState)
    ensures r.duration == s.duration
    ensures a.NoAction? ==> r == s
    ensures (a.Rewind? || a.Skip?) && a.seconds >= 0.0 && 0.0 <= s.currentTime <= s.duration ==>
              0.0 <= r.currentTime <= r.duration
  {
    match a
    case TogglePlay => s.(paused := !s.paused)
    case ToggleFullscreen => s.(fullscreen := !s.fullscreen)
    case Rewind(d) => s.(currentTime := Max(0.0, s.currentTime - d))
    case Skip(d) => s.(currentTime := Min(s.duration, s.currentTime + d))
    case ToggleMute => s.(muted := !s.muted)
    case NoAction => s
  }

  /** The key names each case of the `switch` answers to. */
  lemma ShortcutKeys(k: string)
    ensures Shortcut(k) == TogglePlay <==> k == " " || k == "k"
    ensures Shortcut(k) == ToggleFullscreen <==> k == "f"
    ensures Shortcut(k) == ToggleMute <==> k == "m"
    ensures Shortcut(k) == Rewind(5.0) <==> k == "arrowleft"
    ensures Shortcut(k) == Rewind(10.0) <==> k == "j"
    ensures Shortcut(k) == Skip(5.0) <==> k == "arrowright"
    ensures Shortcut(k) == Skip(10.0) <==> k == "l"
    ensures Shortcut(k) == NoAction <==> k !in {" ", "k", "f", "m", "arrowleft", "j", "arrowright", "l"}
  {
  }

  /** What a keydown does to the player, key by key. */
  lemma KeyStepEffects(s: PlayerState, key: string, active: Option<Element>)
    ensures KeyStep(s, key, active).paused != s.paused ==> !InputFocused(active) && ToLower(key) in {" ", "k"}
    ensures !InputFocused(active) && ToLower(key) in {" ", "k"} ==> KeyStep(s, key, active) == s.(paused := !s.paused)
    ensures !InputFocused(active) && ToLower(key) == "f" ==> KeyStep(s, key, active) == s.(fullscreen := !s.fullscreen)
    ensures !InputFocused(active) && ToLower(key) == "m" ==> KeyStep(s, key, active) == s.(muted := !s.muted)
    ensures !InputFocused(active) && ToLower(key) in {"arrowleft", "j"} ==>
              KeyStep(s, key, active).(currentTime := s.currentTime) == s && 0.0 <= KeyStep(s, key, active).currentTime &&
              (s.currentTime >= 0.0 ==> KeyStep(s, key, active).currentTime <= s.currentTime) &&
              var step := if ToLower(key) == "j" then 10.0 else 5.0;
              (s.currentTime >= step ==> KeyStep(s, key, active).currentTime == s.currentTime - step) &&
              (s.currentTime < step ==> KeyStep(s, key, active).currentTime == 0.0)
    ensures !InputFocused(active) && ToLower(key) in {"arrowright", "l"} ==>
              KeyStep(s, key, active).(currentTime := s.currentTime) == s && KeyStep(s, key, active).currentTime <= s.duration &&
              (s.currentTime <= s.duration ==> KeyStep(s, key, active).currentTime >= s.currentTime) &&
              var step := if ToLower(key) == "l" then 10.0 else 5.0;
              (s.currentTime + step <= s.duration ==> KeyStep(s, key, active).currentTime == s.currentTime + step) &&
              (s.currentTime + step > s.duration ==> KeyStep(s, key, active).currentTime == s.duration)
    ensures ToLower(key) !in {" ", "k", "f", "m", "arrowleft", "j", "arrowright", "l"} ==> KeyStep(s, key, active) == s
  {
    ShortcutKeys(ToLower(key));
  }

  /** A key and its lower-case form do the same thing. */
  lemma KeyStepIgnoresCase(s: PlayerState, key: string, active: Option<Element>)
    ensures KeyStep(s, key, active) == KeyStep(s, ToLower(key), active)
  {
    ToLowerIdempotent(key);
  }

  /** The toggling shortcuts undo themselves. */
  lemma ToggleKeysInvolutive(s: PlayerState, key: string, active: Option<Element>)
    requires ToLower(key) in {" ", "k", "f", "m"}
    ensures KeyStep(KeyStep(s, key, active), key, active) == s
  {
    ShortcutKeys(ToLower(key));
  }

  // ---------------------------------------------------------------------
  // Quality levels and the quality menu
  // ---------------------------------------------------------------------

  /** A quality level as the quality-levels plugin lists it. */
  datatype Level = Level(height: int, enabled: bool)

  /** A level together with its position in the plugin's list. */
  datatype Ranked = Ranked(index: nat, level: Level)

  /** `Array.from(qualityLevels)`, each level tagged with its position. */
  function Ranking(levels: seq<Level>): (r: seq<Ranked>)
    ensures |r| == |levels|
    ensures forall i :: 0 <= i < |r| ==> r[i] == Ranked(i, levels[i])
  {
    seq(|levels|, i requires 0 <= i < |levels| => Ranked(i, levels[i]))
  }

  /** Every element is a level of `levels` under its own position. */
  predicate RankedFrom(rs: seq<Ranked>, levels: seq<Level>) {
    forall x :: x in rs ==> x.index < |levels| && levels[x.index] == x.level
  }

  /** Tallest first. */
  predicate Descending(rs: seq<Ranked>) {
    forall i, j :: 0 <= i < j < |rs| ==> rs[i].level.height >= rs[j].level.height
  }

  /** A list stays tallest-first when an element at least as tall as its head is put in front. */
  lemma DescendingCons(a: Ranked, rs: seq<Ranked>)
    requires Descending(rs) && (|rs| > 0 ==> a.level.height >= rs[0].level.height)
    ensures Descending([a] + rs)
  {
  }

  /** Places `x` after every element at least as tall, so equal heights keep
      the order in which they were inserted. */
  function InsertDesc(x: Ranked, rs: seq<Ranked>): (r: seq<Ranked>)
    ensures |r| == |rs| + 1 && x in r
  {
    if rs == [] then [x]
    else if rs[0].level.height >= x.level.height then [rs[0]] + InsertDesc(x, rs[1..])
    else [x] + rs
  }

  /** Inserting into a tallest-first list keeps it tallest-first, grows it by
      one, and leaves at its head either the new element or the old head. */
  lemma {:induction false} InsertDescOrdered(x: Ranked, rs: seq<Ranked>)
    requires Descending(rs)
    ensures var r := InsertDesc(x, rs);
            Descending(r) && |r| == |rs| + 1 && (r[0] == x || (|rs| > 0 && r[0] == rs[0]))
  {
    if rs != [] && rs[0].level.height >= x.level.height {
      var rest := InsertDesc(x, rs[1..]);
      InsertDescOrdered(x, rs[1..]);
      assert rs[0].level.height >= rest[0].level.height by {
        if rest[0] != x {
          assert rest[0] == rs[1];
        }
      }
      DescendingCons(rs[0], rest);
    } else if rs != [] {
      DescendingCons(x, rs);
    }
  }

  /** Inserting adds exactly the new element and loses none. */
  lemma {:induction false} InsertDescPermutes(x: Ranked, rs: seq<Ranked>)
    ensures multiset(InsertDesc(x, rs)) == multiset(rs) + multiset{x}
  {
    if rs != [] && rs[0].level.height >= x.level.height {
      InsertDescPermutes(x, rs[1..]);
      assert rs == [rs[0]] + rs[1..];
    }
  }

  /** `sort((a, b) => b.height - a.height)`: a stable sort, tallest first. */
  function SortDesc(rs: seq<Ranked>): (r: seq<Ranked>)
    ensures Descending(r)
    ensures multiset(r) == multiset(rs)
  {
    if rs == [] then []
    else
      var init, last := rs[..|rs| - 1], rs[|rs| - 1];
      assert rs == init + [last];
      var sorted := SortDesc(init);
      InsertDescOrdered(last, sorted);
      InsertDescPermutes(last, sorted);
      InsertDesc(last, sorted)
  }

  /** The sorted list holds exactly the plugin's levels, each under its own
      position. */
  lemma SortedRankingFromLevels(levels: seq<Level>)
    ensures RankedFrom(SortDesc(Ranking(levels)), levels)
    ensures |SortDesc(Ranking(levels))| == |levels|
    ensures forall i :: 0 <= i < |levels| ==> Ranked(i, levels[i]) in SortDesc(Ranking(levels))
  {
    var r := SortDesc(Ranking(levels));
    assert |r| == |multiset(r)| == |multiset(Ranking(levels))| == |levels|;
    forall x | x in r ensures x.index < |levels| && levels[x.index] == x.level {
      assert x in multiset(r);
    }
    forall i | 0 <= i < |levels| ensures Ranked(i, levels[i]) in r {
      assert Ranking(levels)[i] == Ranked(i, levels[i]);
      assert Ranked(i, levels[i]) in multiset(Ranking(levels));
    }
  }

  /** An entry of the quality menu. A height entry remembers the position
      `i` in the sorted list it was built at and the plugin position of the
      level it stands for. */
  datatype MenuItem =
    | AutoItem(selected: bool)
    | HeightItem(height: int, selected: bool, sortedIndex: nat, levelIndex: nat)

  /** The entry built for sorted position `i`. */
  function ItemAt(sorted: seq<Ranked>, i: nat): MenuItem
    requires i < |sorted|
  {
    HeightItem(sorted[i].level.height, sorted[i].level.enabled, i, sorted[i].index)
  }

  /** The `levels.forEach` with its `seen` set, from sorted position `i` on:
      an entry for each height not seen yet, at its first position. */
  function UniqueFrom(sorted: seq<Ranked>, i: nat, seen: set<int>): (r: seq<MenuItem>)
    requires i <= |sorted|
    ensures forall k :: 0 <= k < |r| ==>
              r[k].HeightItem? && i <= r[k].sortedIndex < |sorted| && r[k] == ItemAt(sorted, r[k].sortedIndex)
    ensures forall k, m :: 0 <= k < m < |r| ==> r[k].HeightItem? && r[m].HeightItem? && r[k].sortedIndex < r[m].sortedIndex
    decreases |sorted| - i
  {
    if i == |sorted| then []
    else if sorted[i].level.height in seen then
      UniqueFrom(sorted, i + 1, seen)
    else
      [ItemAt(sorted, i)] + UniqueFrom(sorted, i + 1, seen + {sorted[i].level.height})
  }

  /** No entry repeats a height, nor uses one already seen. */
  lemma {:induction false} UniqueFromFresh(sorted: seq<Ranked>, i: nat, seen: set<int>)
    requires i <= |sorted|
    ensures forall k :: 0 <= k < |UniqueFrom(sorted, i, seen)| ==> UniqueFrom(sorted, i, seen)[k].height !in seen
    ensures forall k, m :: 0 <= k < m < |UniqueFrom(sorted, i, seen)| ==>
              UniqueFrom(sorted, i, seen)[k].height != UniqueFrom(sorted, i, seen)[m].height
    decreases |sorted| - i
  {
    if i < |sorted| {
      var h := sorted[i].level.height;
      if h in seen {
        UniqueFromFresh(sorted, i + 1, seen);
      } else {
        UniqueFromFresh(sorted, i + 1, seen + {h});
        var rest := UniqueFrom(sorted, i + 1, seen + {h});
        var r := UniqueFrom(sorted, i, seen);
        assert r == [ItemAt(sorted, i)] + rest;
        assert forall k :: 1 <= k < |r| ==> r[k] == rest[k - 1];
      }
    }
  }

  /** The heights the menu offers. */
  function ItemHeights(items: seq<MenuItem>): set<int> {
    set k | 0 <= k < |items| && items[k].HeightItem? :: items[k].height
  }

  /** The heights the plugin lists. */
  function LevelHeights(levels: seq<Level>): set<int> {
    set j | 0 <= j < |levels| :: levels[j].height
  }

  /** Every height from position `i` on that was not seen yet gets an entry. */
  lemma {:induction false} UniqueFromCovers(sorted: seq<Ranked>, i: nat, seen: set<int>, j: nat)
    requires i <= j < |sorted| && sorted[j].level.height !in seen
    ensures sorted[j].level.height in ItemHeights(UniqueFrom(sorted, i, seen))
    decreases |sorted| - i
  {
    var h := sorted[i].level.height;
    var r := UniqueFrom(sorted, i, seen);
    if h in seen {
      UniqueFromCovers(sorted, i + 1, seen, j);
    } else if h == sorted[j].level.height {
      assert r[0] == ItemAt(sorted, i);
    } else {
      UniqueFromCovers(sorted, i + 1, seen + {h}, j);
      var rest := UniqueFrom(sorted, i + 1, seen + {h});
      var k :| 0 <= k < |rest| && rest[k].HeightItem? && rest[k].height == sorted[j].level.height;
      assert r[k + 1] == rest[k];
    }
  }

  /** The menu `showQualityMenu` builds: "Auto" (selected while the plugin
      has no selected index), then one entry per distinct height, tallest
      first, each marked selected when its level is enabled. */
  function QualityMenu(levels: seq<Level>, noSelectedIndex: bool): (r: seq<MenuItem>)
    ensures |r| >= 1 && r[0] == AutoItem(noSelectedIndex)
    ensures forall k :: 1 <= k < |r| ==>
              r[k].HeightItem? && r[k].levelIndex < |levels| &&
              levels[r[k].levelIndex].height == r[k].height &&
              r[k].selected == levels[r[k].levelIndex].enabled
    ensures forall k, m :: 1 <= k < m < |r| ==> r[k].height > r[m].height
    ensures ItemHeights(r) == LevelHeights(levels)
  {
    var sorted := SortDesc(Ranking(levels));
    var items := UniqueFrom(sorted, 0, {});
    MenuEntries(levels, sorted, items);
    var r := [AutoItem(noSelectedIndex)] + items;
    AutoInFront(r, items);
    r
  }

  /** Putting "Auto" in front shifts the height entries by one. */
  lemma AutoInFront(r: seq<MenuItem>, items: seq<MenuItem>)
    requires |r| == |items| + 1 && r[0].AutoItem? && r[1..] == items
    ensures ItemHeights(r) == ItemHeights(items)
  {
    forall h | h in ItemHeights(items) ensures h in ItemHeights(r) {
      var k :| 0 <= k < |items| && items[k].HeightItem? && items[k].height == h;
      assert r[k + 1] == items[k];
    }
    forall h | h in ItemHeights(r) ensures h in ItemHeights(items) {
      var k :| 0 <= k < |r| && r[k].HeightItem? && r[k].height == h;
      assert r[k] == items[k - 1];
    }
  }

  /** The height entries of the menu, before "Auto" is put in front. */
  lemma MenuEntries(levels: seq<Level>, sorted: seq<Ranked>, items: seq<MenuItem>)
    requires sorted == SortDesc(Ranking(levels)) && items == UniqueFrom(sorted, 0, {})
    ensures forall k :: 0 <= k < |items| ==>
              items[k].HeightItem? && items[k].levelIndex < |levels| &&
              levels[items[k].levelIndex].height == items[k].height &&
              items[k].selected == levels[items[k].levelIndex].enabled
    ensures forall k, m :: 0 <= k < m < |items| ==> items[k].height > items[m].height
    ensures ItemHeights(items) == LevelHeights(levels)
  {
    SortedRankingFromLevels(levels);
    MenuEntriesFromLevels(levels, sorted, items);
    MenuEntriesDescending(sorted, items);
    forall h | h in LevelHeights(levels) ensures h in ItemHeights(items) {
      var j :| 0 <= j < |levels| && levels[j].height == h;
      var p :| 0 <= p < |sorted| && sorted[p] == Ranked(j, levels[j]);
      UniqueFromCovers(sorted, 0, {}, p);
    }
    forall h | h in ItemHeights(items) ensures h in LevelHeights(levels) {
      var k :| 0 <= k < |items| && items[k].HeightItem? && items[k].height == h;
      assert levels[items[k].levelIndex].height == h;
    }
  }

  lemma MenuEntriesFromLevels(levels: seq<Level>, sorted: seq<Ranked>, items: seq<MenuItem>)
    requires RankedFrom(sorted, levels) && items == UniqueFrom(sorted, 0, {})
    ensures forall k :: 0 <= k < |items| ==>
              items[k].HeightItem? && items[k].levelIndex < |levels| &&
              levels[items[k].levelIndex].height == items[k].height &&
              items[k].selected == levels[items[k].levelIndex].enabled
  {
    forall k | 0 <= k < |items|
      ensures items[k].HeightItem? && items[k].levelIndex < |levels| &&
              levels[items[k].levelIndex].height == items[k].height &&
              items[k].selected == levels[items[k].levelIndex].enabled
    {
      var x := sorted[items[k].sortedIndex];
      assert x in sorted;
      assert items[k] == ItemAt(sorted, items[k].sortedIndex);
    }
  }

  lemma MenuEntriesDescending(sorted: seq<Ranked>, items: seq<MenuItem>)
    requires Descending(sorted) && items == UniqueFrom(sorted, 0, {})
    ensures forall k, m :: 0 <= k < m < |items| ==> items[k].height > items[m].height
  {
    UniqueFromFresh(sorted, 0, {});
    forall k, m | 0 <= k < m < |items|
      ensures items[k].height > items[m].height
    {
      assert items[k] == ItemAt(sorted, items[k].sortedIndex);
      assert items[m] == ItemAt(sorted, items[m].sortedIndex);
    }
  }

  /** Choosing "Auto": every level enabled. */
  function SelectAuto(levels: seq<Level>): (r: seq<Level>)
    ensures |r| == |levels|
    ensures forall i :: 0 <= i < |r| ==> r[i] == levels[i].(enabled := true)
  {
    seq(|levels|, i requires 0 <= i < |levels| => levels[i].(enabled := true))
  }

  /** Choosing a height entry as written: the level whose plugin position
      equals the entry's position in the sorted list is enabled, all others
      disabled. */
  function SelectAsWritten(levels: seq<Level>, item: MenuItem): (r: seq<Level>)
    requires item.HeightItem?
    ensures |r| == |levels|
    ensures forall i :: 0 <= i < |r| ==> r[i].height == levels[i].height && (r[i].enabled <==> i == item.sortedIndex)
  {
    seq(|levels|, i requires 0 <= i < |levels| => levels[i].(enabled := i == item.sortedIndex))
  }

  /** With a 360p level listed before a 720p one, the 720p entry is first in
      the sorted menu; choosing it as written enables the 360p level. */
  lemma SelectAsWrittenPicksWrongLevel()
    ensures var levels := [Level(360, true), Level(720, true)];
            var menu := QualityMenu(levels, true);
            |menu| == 3 && menu[1].height == 720 &&
            var after := SelectAsWritten(levels, menu[1]);
            after[0].enabled && after[0].height == 360 && !after[1].enabled
  {
    var levels := [Level(360, true), Level(720, true)];
    var ranking := Ranking(levels);
    assert ranking == [Ranked(0, levels[0]), Ranked(1, levels[1])];
    assert ranking[..1] == [Ranked(0, levels[0])];
    assert SortDesc(ranking[..1]) == [Ranked(0, levels[0])] by {
      assert ranking[..1][..0] == [];
    }
    var sorted := SortDesc(ranking);
    assert sorted == [Ranked(1, levels[1]), Ranked(0, levels[0])];
    assert UniqueFrom(sorted, 2, {720, 360}) == [];
    assert UniqueFrom(sorted, 1, {720}) == [HeightItem(360, true, 1, 0)];
    assert UniqueFrom(sorted, 0, {}) == [HeightItem(720, true, 0, 1), HeightItem(360, true, 1, 0)];
  }

  /** Choosing a height entry, corrected: the level the entry was built from
      is enabled, all others disabled. */
  function SelectLevel(levels: seq<Level>, item: MenuItem): (r: seq<Level>)
    requires item.HeightItem?
    ensures |r| == |levels|
    ensures forall i :: 0 <= i < |r| ==> r[i].height == levels[i].height && (r[i].enabled <==> i == item.levelIndex)
  {
    seq(|levels|, i requires 0 <= i < |levels| => levels[i].(enabled := i == item.levelIndex))
  }

  /** After choosing any height entry of the menu, exactly one level is
      enabled and it has the chosen height. */
  lemma SelectLevelEnablesChosenHeight(levels: seq<Level>, noSelectedIndex: bool, k: nat)
    requires 1 <= k < |QualityMenu(levels, noSelectedIndex)|
    ensures var item := QualityMenu(levels, noSelectedIndex)[k];
            var after := SelectLevel(levels, item);
            item.levelIndex < |after| && after[item.levelIndex].enabled &&
            after[item.levelIndex].height == item.height &&
            forall i :: 0 <= i < |after| && after[i].enabled ==> i == item.levelIndex
  {
  }

  /** The parts of the player the shortcuts and the quality control change. */
  class Player {
    var paused: bool
    var fullscreen: bool
    var currentTime: real
    var duration: real
    var muted: bool
    var levels: seq<Level>
    var selectedIndex: Option<nat>
    var qualityButtonAdded: bool
    var qualityButtons: nat
    var menu: Option<seq<MenuItem>>

    function State(): PlayerState
      reads this
    {
      PlayerState(paused, fullscreen, currentTime, duration, muted)
    }

    /** At most one quality button, and only once there was a choice. */
    ghost predicate Valid()
      reads this
    {
      qualityButtons == (if qualityButtonAdded then 1 else 0) &&
      (qualityButtonAdded ==> |levels| > 1)
    }

    constructor (s: PlayerState)
      ensures Valid() && State() == s
      ensures levels == [] && selectedIndex.None? && !qualityButtonAdded && menu.None?
    {
      paused, fullscreen, currentTime, duration, muted := s.paused, s.fullscreen, s.currentTime, s.duration, s.muted;
      levels := [];
      selectedIndex := None;
      qualityButtonAdded := false;
      qualityButtons := 0;
      menu := None;
    }

    /** The document-level keydown handler. */
    method HandleKeyDown(key: string, active: Option<Element>)
      requires Valid()
      modifies this
      ensures Valid()
      ensures State() == KeyStep(old(State()), key, active)
      ensures levels == old(levels) && selectedIndex == old(selectedIndex) && menu == old(menu)
      ensures qualityButtonAdded == old(qualityButtonAdded) && qualityButtons == old(qualityButtons)
    {
      if InputFocused(active) {
        return;
      }
      Perform(Shortcut(ToLower(key)));
    }

    /** One case of the keydown `switch`. */
    method Perform(action: KeyAction)
      modifies this
      ensures State() == Apply(old(State()), action)
      ensures levels == old(levels) && selectedIndex == old(selectedIndex) && menu == old(menu)
      ensures qualityButtonAdded == old(qualityButtonAdded) && qualityButtons == old(qualityButtons)
    {
      match action
      case TogglePlay =>
        paused := !paused;
      case ToggleFullscreen =>
        fullscreen := !fullscreen;
      case Rewind(d) =>
        currentTime := Max(0.0, currentTime - d);
      case Skip(d) =>
        currentTime := Min(duration, currentTime + d);
      case ToggleMute =>
        muted := !muted;
      case NoAction =>
    }

    /** The `addqualitylevel` listener: the plugin has appended `l`; the
        button is created the first time there are two levels or more. */
    method OnAddQualityLevel(l: Level)
      requires Valid()
      modifies this
      ensures Valid()
      ensures levels == old(levels) + [l]
      ensures qualityButtonAdded == (old(qualityButtonAdded) || |levels| > 1)
      ensures State() == old(State()) && selectedIndex == old(selectedIndex) && menu == old(menu)
    {
      levels := levels + [l];
      if |levels| > 1 && !qualityButtonAdded {
        qualityButtons := qualityButtons + 1;
        qualityButtonAdded := true;
      }
    }

    /** A click on the quality button: an open menu is closed, otherwise the
        menu is built from the current levels. */
    method ShowQualityMenu()
      requires Valid()
      modifies this
      ensures Valid()
      ensures old(menu).Some? ==> menu.None?
      ensures old(menu).None? ==> menu == Some(QualityMenu(levels, selectedIndex.None?))
      ensures State() == old(State()) && levels == old(levels) && selectedIndex == old(selectedIndex)
      ensures qualityButtonAdded == old(qualityButtonAdded) && qualityButtons == old(qualityButtons)
    {
      if menu.Some? {
        menu := None;
        return;
      }
      menu := Some(QualityMenu(levels, selectedIndex.None?));
    }

    /** A click on entry `k` of the open menu, as written: "Auto" enables
        every level; a height entry enables the level whose plugin position
        equals the entry's position in the sorted copy. The menu closes. */
    method ChooseMenuItem(k: nat)
      requires Valid() && menu.Some? && k < |menu.value|
      modifies this
      ensures Valid() && menu.None?
      ensures old(menu).value[k].AutoItem? ==> levels == SelectAuto(old(levels))
      ensures old(menu).value[k].HeightItem? ==> levels == SelectAsWritten(old(levels), old(menu).value[k])
      ensures State() == old(State()) && selectedIndex == old(selectedIndex)
      ensures qualityButtonAdded == old(qualityButtonAdded) && qualityButtons == old(qualityButtons)
    {
      var item := menu.value[k];
      if item.AutoItem? {
        levels := SelectAuto(levels);
      } else {
        levels := SelectAsWritten(levels, item);
      }
      menu := None;
    }

    /** The same click with the corrected selection: a height entry enables
        the level it was built from. */
    method ChooseMenuItemCorrected(k: nat)
      requires Valid() && menu.Some? && k < |menu.value|
      modifies this
      ensures Valid() && menu.None?
      ensures old(menu).value[k].AutoItem? ==> levels == SelectAuto(old(levels))
      ensures old(menu).value[k].HeightItem? ==> levels == SelectLevel(old(levels), old(menu).value[k])
      ensures State() == old(State()) && selectedIndex == old(selectedIndex)
      ensures qualityButtonAdded == old(qualityButtonAdded) && qualityButtons == old(qualityButtons)
    {
      var item := menu.value[k];
      if item.AutoItem? {
        levels := SelectAuto(levels);
      } else {
        levels := SelectLevel(levels, item);
      }
      menu := None;
    }
  }
}
