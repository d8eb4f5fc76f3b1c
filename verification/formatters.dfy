/** Display formatters: durations as `H:MM:SS` / `M:SS`, ages as "N units ago",
    and counts abbreviated with K / M suffixes. */
module Formatters {
  import opened Common

  // ---------------------------------------------------------------------------
  // useFormatDuration

  /** `n.toString().padStart(2, "0")` for a number below 100. */
  function Pad2(n: nat): (r: string)
    requires n < 100
    ensures |r| == 2 && AllDigits(r) && ParseNat(r) == n
  {
    if n < 10 then
      var r := "0" + NatToString(n);
      assert NatToString(n) == [DigitChar(n)];
      assert r[..1] == "0" && r[..0] == [];
      assert ParseNat("0") == 0;
      assert ParseNat(r) == ParseNat(r[..1]) * 10 + n;
      r
    else
      assert NatToString(n) == NatToString(n / 10) + [DigitChar(n % 10)];
      ParseNatToString(n);
      NatToString(n)
  }

  /** JavaScript's `x % m` for a non-negative `x`: what remains after taking out
      whole multiples of `m`. */
  function RealMod(x: real, m: nat): (r: real)
    requires x >= 0.0 && (m == 60 || m == 3600)
    ensures 0.0 <= r < m as real
    ensures r.Floor == x.Floor % m
    ensures r - r.Floor as real == x - x.Floor as real
  {
    var q := (x / m as real).Floor;
    if m == 60 then RemainderParts60(x, q); x - 60.0 * (q as real)
    else RemainderParts3600(x, q); x - 3600.0 * (q as real)
  }

  /** Taking out the whole minutes of `x` leaves its seconds within the minute. */
  lemma RemainderParts60(x: real, q: int)
    requires x >= 0.0 && q == (x / 60.0).Floor
    ensures var r := x - 60.0 * (q as real);
      0.0 <= r < 60.0 && r.Floor == x.Floor % 60 && r - r.Floor as real == x - x.Floor as real
  {
    var r := x - 60.0 * (q as real);
    assert 60.0 * (q as real) <= x < 60.0 * (q as real) + 60.0;
    assert r.Floor == x.Floor - 60 * q;
    RemainderOf(x.Floor, 60, q);
  }

  /** Taking out the whole hours of `x` leaves its seconds within the hour. */
  lemma RemainderParts3600(x: real, q: int)
    requires x >= 0.0 && q == (x / 3600.0).Floor
    ensures var r := x - 3600.0 * (q as real);
      0.0 <= r < 3600.0 && r.Floor == x.Floor % 3600 && r - r.Floor as real == x - x.Floor as real
  {
    var r := x - 3600.0 * (q as real);
    assert 3600.0 * (q as real) <= x < 3600.0 * (q as real) + 3600.0;
    assert r.Floor == x.Floor - 3600 * q;
    RemainderOf(x.Floor, 3600, q);
  }

  /** A number that lies within `m` above a multiple `m * q` leaves the
      remainder `a - m * q`. */
  lemma RemainderOf(a: int, m: nat, q: int)
    requires (m == 60 || m == 3600) && 0 <= a - m * q < m
    ensures a % m == a - m * q
  {
    if m == 60 {
      assert a == 60 * q + (a - 60 * q);
    } else {
      assert a == 3600 * q + (a - 3600 * q);
    }
  }

  /** The three numbers `useFormatDuration` computes: whole hours, the minutes
      left over, and the whole seconds left over. */
  function Hours(s: real): int requires s >= 0.0 { (s / 3600.0).Floor }
  function Minutes(s: real): int requires s >= 0.0 { (RealMod(s, 3600) / 60.0).Floor }
  function Seconds(s: real): int requires s >= 0.0 { RealMod(s, 60).Floor }

  /** `useFormatDuration()(s)`. A zero or negative input gives "0:00"; from one
      hour on the form is `H:MM:SS`, below it `M:SS` with unpadded minutes. */
  function FormatDuration(s: real): (r: string)
    ensures s <= 0.0 ==> r == "0:00"
    ensures s > 0.0 ==> (Hours(s) > 0 <==> s >= 3600.0)
    ensures s >= 3600.0 ==> r == LongClock(s.Floor / 3600, (s.Floor % 3600) / 60, s.Floor % 60)
    ensures 0.0 < s < 3600.0 ==> r == ShortClock(s.Floor / 60, s.Floor % 60)
  {
    if s <= 0.0 then "0:00"
    else
      DurationParts(s);
      if Hours(s) > 0 then LongClock(Hours(s), Minutes(s), Seconds(s))
      else ShortClock(Minutes(s), Seconds(s))
  }

  /** `H:MM:SS`: unpadded hours, two-digit minutes and seconds. */
  function LongClock(h: nat, m: nat, sec: nat): string
    requires m < 60 && sec < 60
  {
    NatToString(h) + ":" + Pad2(m) + ":" + Pad2(sec)
  }

  /** `M:SS`: unpadded minutes, two-digit seconds. */
  function ShortClock(m: nat, sec: nat): string
    requires sec < 60
  {
    NatToString(m) + ":" + Pad2(sec)
  }

  /** For a non-negative `x`, `floor(x / n)` is the quotient of `floor(x)` by `n`. */
  lemma FloorDivide(x: real, n: nat)
    requires x >= 0.0 && (n == 60 || n == 3600)
    ensures (x / n as real).Floor == x.Floor / n
  {
    var f := x.Floor;
    var q, r := f / n, f % n;
    assert f == q * n + r && 0 <= r < n;
    assert (q * n) as real <= x < (q * n + n) as real;
    if n == 60 {
      assert (q as real) <= x / 60.0 < (q + 1) as real;
    } else {
      assert (q as real) <= x / 3600.0 < (q + 1) as real;
    }
  }

  /** The parts agree with splitting the whole seconds `floor(s)` into hours,
      minutes and seconds, each of the last two below 60. */
  lemma DurationParts(s: real)
    requires s >= 0.0
    ensures Hours(s) == s.Floor / 3600
    ensures Minutes(s) == (s.Floor % 3600) / 60 && 0 <= Minutes(s) < 60
    ensures Seconds(s) == s.Floor % 60 && 0 <= Seconds(s) < 60
  {
    var f := s.Floor;
    FloorDivide(s, 3600);
    FloorDivide(s, 60);
    var m := RealMod(s, 3600);
    assert m == s - 3600.0 * ((f / 3600) as real);
    assert m.Floor == f % 3600;
    FloorDivide(m, 60);
    var t := RealMod(s, 60);
    assert t == s - 60.0 * ((f / 60) as real);
  }

  /** JavaScript's `t.split(":")`. */
  function Split(t: string): (fields: seq<string>)
    ensures |fields| >= 1
  {
    if t == [] then [""]
    else if t[0] == ':' then [""] + Split(t[1..])
    else
      var rest := Split(t[1..]);
      [[t[0]] + rest[0]] + rest[1..]
  }

  lemma {:induction false} SplitField(a: string, b: string)
    requires ':' !in a
    ensures Split(a + ":" + b) == [a] + Split(b)
    ensures Split(a) == [a]
  {
    if a != [] {
      assert (a + ":" + b)[1..] == a[1..] + ":" + b;
      SplitField(a[1..], b);
      assert [a[0]] + a[1..] == a;
    }
  }

  lemma DigitsHaveNoColon(t: string)
    requires AllDigits(t)
    ensures ':' !in t
  {
    assert forall i :: 0 <= i < |t| ==> t[i] != ':';
  }

  /** Reads `M:SS` or `H:MM:SS` back into a number of seconds. */
  function ParseDuration(t: string): Option<nat> {
    ParseFields(Split(t))
  }

  /** The value of the fields `[M, SS]` or `[H, MM, SS]`. */
  function ParseFields(f: seq<string>): Option<nat> {
    if |f| == 2 && AllDigits(f[0]) && AllDigits(f[1]) then
      Some(ParseNat(f[0]) * 60 + ParseNat(f[1]))
    else if |f| == 3 && AllDigits(f[0]) && AllDigits(f[1]) && AllDigits(f[2]) then
      Some(ParseNat(f[0]) * 3600 + ParseNat(f[1]) * 60 + ParseNat(f[2]))
    else None
  }

  lemma ParseShortForm(m: nat, sec: nat)
    requires sec < 60
    ensures ParseDuration(ShortClock(m, sec)) == Some(m * 60 + sec)
  {
    var mm, ss := NatToString(m), Pad2(sec);
    DigitsHaveNoColon(mm);
    DigitsHaveNoColon(ss);
    SplitField(ss, "");
    SplitField(mm, ss);
    ParseNatToString(m);
  }

  lemma ParseLongForm(h: nat, m: nat, sec: nat)
    requires m < 60 && sec < 60
    ensures ParseDuration(LongClock(h, m, sec)) == Some(h * 3600 + m * 60 + sec)
  {
    var hh, mm, ss := NatToString(h), Pad2(m), Pad2(sec);
    var tail := mm + ":" + ss;
    DigitsHaveNoColon(hh);
    DigitsHaveNoColon(mm);
    DigitsHaveNoColon(ss);
    SplitField(ss, "");
    SplitField(mm, ss);
    assert Split(tail) == [mm, ss];
    SplitField(hh, tail);
    assert LongClock(h, m, sec) == hh + ":" + tail;
    ParseNatToString(h);
  }

  /** Whole seconds are the sum of their hours, minutes and seconds. */
  lemma SplitSeconds(f: nat)
    ensures f == (f / 3600) * 3600 + ((f % 3600) / 60) * 60 + f % 60
  {
    var h, rest := f / 3600, f % 3600;
    var m, sec := rest / 60, rest % 60;
    assert rest == m * 60 + sec;
    assert f % 60 == sec by {
      assert f == (h * 60 + m) * 60 + sec;
    }
  }

  /** Reading a formatted duration back gives the whole number of seconds. */
  lemma DurationRoundTrip(s: real)
    requires s >= 0.0
    ensures ParseDuration(FormatDuration(s)) == Some(s.Floor)
  {
    if s == 0.0 {
      assert FormatDuration(s) == ShortClock(0, 0);
      ParseShortForm(0, 0);
    } else if s >= 3600.0 {
      LongRoundTrip(s.Floor);
    } else {
      ShortRoundTrip(s.Floor);
    }
  }

  lemma LongRoundTrip(f: nat)
    ensures ParseDuration(LongClock(f / 3600, (f % 3600) / 60, f % 60)) == Some(f)
  {
    SplitSeconds(f);
    ParseLongForm(f / 3600, (f % 3600) / 60, f % 60);
  }

  lemma ShortRoundTrip(f: nat)
    requires f < 3600
    ensures ParseDuration(ShortClock(f / 60, f % 60)) == Some(f)
  {
    ParseShortForm(f / 60, f % 60);
  }

  // ---------------------------------------------------------------------------
  // useFormatTimeAgo

  datatype Interval = Interval(unit: string, seconds: nat)

  /** The units tried, largest first. */
  const Intervals: seq<Interval> := [
    Interval("year", 31536000), Interval("month", 2592000), Interval("week", 604800),
    Interval("day", 86400), Interval("hour", 3600), Interval("minute", 60)
  ]

  predicate Descending(units: seq<Interval>) {
    forall i, j :: 0 <= i < j < |units| ==> units[i].seconds > units[j].seconds > 0
  }

  /** The `for ... of` loop with early return: index of the first unit of which
      `diff` holds at least one whole count. */
  function FirstFit(units: seq<Interval>, diff: int, from: nat): (k: Option<nat>)
    requires from <= |units| && forall i :: 0 <= i < |units| ==> units[i].seconds > 0
    ensures k.Some? ==> from <= k.value < |units| && diff / units[k.value].seconds >= 1
    ensures forall j :: from <= j < (if k.Some? then k.value else |units|) ==> diff / units[j].seconds < 1
    decreases |units| - from
  {
    if from == |units| then None
    else if diff / units[from].seconds >= 1 then Some(from)
    else FirstFit(units, diff, from + 1)
  }

  /** "N unit ago", with an "s" after the unit exactly when N is more than one. */
  function Phrase(count: nat, unit: string): (r: string)
    ensures |r| > |unit| + 5 && r[|r| - 4..] == " ago"
  {
    NatToString(count) + " " + unit + (if count > 1 then "s" else "") + " ago"
  }

  /** The phrase reads: the count in decimal, a space, the unit, and then a
      plural "s" exactly when the count is more than one. For a unit that does
      not itself end in "s", the letter before " ago" tells which. */
  lemma PhrasePlural(count: nat, unit: string)
    requires |unit| > 0 && unit[|unit| - 1] != 's'
    ensures var r := Phrase(count, unit); var n := NatToString(count);
      |r| > |n| + 1 + |unit| &&
      r[..|n|] == n && r[|n|] == ' ' && r[|n| + 1..|n| + 1 + |unit|] == unit &&
      (count > 1 <==> r[|r| - 5] == 's')
  {
    var n := NatToString(count);
    var tail := (if count > 1 then "s" else "") + " ago";
    assert Phrase(count, unit) == n + " " + unit + tail;
  }

  /** Every unit of the table is singular: none ends in "s", so the plural
      "s" of a time-ago phrase is always the one Phrase adds. */
  lemma UnitsSingular()
    ensures forall k :: 0 <= k < |Intervals| ==>
              |Intervals[k].unit| > 0 && Intervals[k].unit[|Intervals[k].unit| - 1] != 's'
  {
  }

  /** `useFormatTimeAgo()(dateString)` where `diff` is the whole number of seconds
      from the date to now (`None` when the date does not parse, which makes the
      source's arithmetic NaN). */
  function FormatTimeAgo(dateString: string, diff: Option<int>): (r: string)
    ensures dateString == "" ==> r == "Unknown"
    ensures dateString != "" && (diff.None? || diff.value < 60) ==> r == "Just now"
    ensures dateString != "" && diff.Some? && diff.value >= 60 ==>
              exists k :: 0 <= k < |Intervals| &&
                diff.value >= Intervals[k].seconds &&
                (forall j :: 0 <= j < k ==> diff.value < Intervals[j].seconds) &&
                r == Phrase(diff.value / Intervals[k].seconds, Intervals[k].unit)
  {
    if dateString == "" then "Unknown"
    else if diff.None? then "Just now"
    else
      IntervalsAtLeastMinute();
      match FirstFit(Intervals, diff.value, 0)
      case Some(k) =>
        FirstFitIsLargest(diff.value, k);
        Phrase(diff.value / Intervals[k].seconds, Intervals[k].unit)
      case None =>
        UnitFits(diff.value, 5);
        "Just now"
  }

  /** At least one whole unit fits exactly when `x` reaches the unit's size. */
  lemma UnitFits(x: int, k: nat)
    requires k < |Intervals|
    ensures Intervals[k].seconds >= 60
    ensures x / Intervals[k].seconds >= 1 <==> x >= Intervals[k].seconds
  {
    if k == 0 {
      assert Intervals[0].seconds == 31536000;
    } else if k == 1 {
      assert Intervals[1].seconds == 2592000;
    } else if k == 2 {
      assert Intervals[2].seconds == 604800;
    } else if k == 3 {
      assert Intervals[3].seconds == 86400;
    } else if k == 4 {
      assert Intervals[4].seconds == 3600;
    } else {
      assert Intervals[5].seconds == 60;
    }
  }

  /** No unit is shorter than a minute. */
  lemma IntervalsAtLeastMinute()
    ensures forall i :: 0 <= i < |Intervals| ==> Intervals[i].seconds >= 60
  {
    forall i | 0 <= i < |Intervals|
      ensures Intervals[i].seconds >= 60
    {
      UnitFits(0, i);
    }
  }

  /** The unit the loop stops at is the largest one `x` reaches: every larger
      unit exceeds `x`, every smaller one fits. */
  lemma FirstFitIsLargest(x: int, k: nat)
    requires forall i :: 0 <= i < |Intervals| ==> Intervals[i].seconds > 0
    requires FirstFit(Intervals, x, 0) == Some(k)
    ensures k < |Intervals| && x >= Intervals[k].seconds
    ensures forall j :: 0 <= j < k ==> x < Intervals[j].seconds
    ensures forall j :: k < j < |Intervals| ==> x >= Intervals[j].seconds
  {
    UnitFits(x, k);
    IntervalsDescending();
    forall j | 0 <= j < k
      ensures x < Intervals[j].seconds
    {
      UnitFits(x, j);
    }
  }

  /** The list is in strictly decreasing order of size, so the first unit that
      fits is the largest one that does. */
  lemma IntervalsDescending()
    ensures Descending(Intervals)
  {
  }

  // ---------------------------------------------------------------------------
  // useFormatViews and useFormatNumber

  /** A display count. `Plain` text is exact; `Scaled` is the value divided by
      `divisor`, rendered with `toFixed(1)` (trailing ".0" removed when
      `stripZero`), followed by `suffix`. The floating-point rendering of the
      scaled value is not modelled: only which branch, divisor and suffix. */
  datatype Abbrev = Plain(text: string) | Scaled(divisor: nat, suffix: char, stripZero: bool)

  /** The last character shown. */
  function LastChar(a: Abbrev): char
    requires a.Plain? ==> |a.text| > 0
  {
    match a
    case Plain(t) => t[|t| - 1]
    case Scaled(_, c, _) => c
  }

  /** `useFormatViews()(c)`: whole thousands with "K" from 1000 on, one decimal
      of millions with "M" from 1000000 on, the number itself below 1000. */
  function FormatViews(c: int): (r: Abbrev)
    ensures r.Plain? ==> |r.text| > 0
    ensures (LastChar(r) == 'M') <==> c >= 1000000
    ensures (LastChar(r) == 'K') <==> 1000 <= c < 1000000
    ensures 1000 <= c < 1000000 ==>
              r.Plain? && AllDigits(r.text[..|r.text| - 1]) && ParseNat(r.text[..|r.text| - 1]) == c / 1000
    ensures 0 <= c < 1000 ==> r.Plain? && AllDigits(r.text) && ParseNat(r.text) == c
    ensures c < 0 ==> r.Plain? && r.text[0] == '-'
    ensures r.Scaled? ==> r.divisor == 1000000 && !r.stripZero
    ensures r.Plain? && c > 0 ==> r.text[0] != '0'
    ensures c == 0 ==> r == Plain("0")
  {
    if c >= 1000000 then Scaled(1000000, 'M', false)
    else if c >= 1000 then
      var digits := NatToString(c / 1000);
      ParseNatToString(c / 1000);
      assert (digits + "K")[..|digits|] == digits;
      Plain(digits + "K")
    else
      (if c >= 0 then ParseNatToString(c); Plain(IntToString(c)) else Plain(IntToString(c)))
  }

  /** `useFormatNumber()(n)`: "0" for zero, then the same thresholds as the views
      formatter, but both K and M take one decimal with a trailing ".0" removed. */
  function FormatNumber(n: int): (r: Abbrev)
    ensures r.Plain? ==> |r.text| > 0
    ensures n == 0 ==> r == Plain("0")
    ensures (LastChar(r) == 'M') <==> n >= 1000000
    ensures (LastChar(r) == 'K') <==> 1000 <= n < 1000000
    ensures r.Scaled? ==> r.stripZero && r.divisor == (if n >= 1000000 then 1000000 else 1000)
    ensures 0 <= n < 1000 ==> r.Plain? && AllDigits(r.text) && ParseNat(r.text) == n
    ensures 0 < n < 1000 ==> r.text[0] != '0'
    ensures n < 0 ==> r.Plain? && r.text[0] == '-'
  {
    if n == 0 then Plain("0")
    else if n >= 1000000 then Scaled(1000000, 'M', true)
    else if n >= 1000 then Scaled(1000, 'K', true)
    else (if n >= 0 then ParseNatToString(n); Plain(IntToString(n)) else Plain(IntToString(n)))
  }
}
