/** Shared vocabulary of the model: an Option for JavaScript's null results,
    the `filter(x => x !== v)` idiom, the `[...new Set(xs)]` idiom, and the
    decimal rendering that template literals apply to numbers. */
module Common {

  /** A value that may be `null`/`undefined` in the source. */
  datatype Option<+T> = None | Some(value: T)

  /** A video record as the static data files describe it. */
  datatype Video = Video(id: string, title: string, channelName: string, thumbnail: string,
                         views: nat, duration: nat, uploadDate: string)

  /** No element occurs twice. */
  predicate NoDups<T(==)>(s: seq<T>) {
    forall i, j :: 0 <= i < j < |s| ==> s[i] != s[j]
  }

  /** `s.filter(y => y !== x)`: every occurrence of `x` removed, the rest kept in order. */
  function Without<T(==,!new)>(s: seq<T>, x: T): (r: seq<T>)
    ensures x !in r
    ensures forall y :: y != x ==> (y in r <==> y in s)
    ensures x !in s ==> r == s
    ensures NoDups(s) ==> NoDups(r)
  {
    if s == [] then []
    else
      var rest := Without(s[1..], x);
      assert NoDups(s) ==> NoDups(s[1..]) && s[0] !in s[1..];
      if s[0] == x then rest else [s[0]] + rest
  }

  /** The filter removes every occurrence of `x` and nothing else: each other
      element keeps its number of occurrences. */
  lemma {:induction false} WithoutMultiset<T(!new)>(s: seq<T>, x: T)
    ensures multiset(Without(s, x)) == multiset(s)[x := 0]
  {
    if s != [] {
      WithoutMultiset(s[1..], x);
      assert s == [s[0]] + s[1..];
    }
  }

  /** Filtering distributes over concatenation, so the kept elements stay in their order. */
  lemma {:induction false} WithoutAppend<T(!new)>(a: seq<T>, b: seq<T>, x: T)
    ensures Without(a + b, x) == Without(a, x) + Without(b, x)
  {
    if a != [] {
      var ab := a + b;
      assert ab[0] == a[0] && ab[1..] == a[1..] + b;
      WithoutAppend(a[1..], b, x);
      if a[0] != x {
        var p, q := Without(a[1..], x), Without(b, x);
        assert [a[0]] + (p + q) == ([a[0]] + p) + q;
      }
    } else {
      assert a + b == b;
    }
  }

  /** `[...new Set(s)]`: a JavaScript Set iterates in insertion order, so each
      element is kept at its first occurrence and later repeats are skipped. */
  function Dedupe<T(==,!new)>(s: seq<T>): (r: seq<T>)
    ensures NoDups(r)
    ensures forall x :: x in r <==> x in s
    ensures |r| <= |s|
  {
    if s == [] then []
    else
      var init := Dedupe(s[..|s| - 1]);
      if s[|s| - 1] in init then init else init + [s[|s| - 1]]
  }

  /** Position of the first occurrence of `x` in `s` (`s.indexOf(x)`). */
  function FirstIndex<T(==)>(s: seq<T>, x: T): (k: nat)
    requires x in s
    ensures k < |s| && s[k] == x && x !in s[..k]
  {
    if s[0] == x then 0 else 1 + FirstIndex(s[1..], x)
  }

  lemma FirstIndexOfPrefix<T>(s: seq<T>, n: nat, x: T)
    requires n <= |s| && x in s[..n]
    ensures FirstIndex(s, x) == FirstIndex(s[..n], x)
  {
    var k := FirstIndex(s[..n], x);
    assert s[..k] == s[..n][..k];
  }

  /** The deduplicated list keeps first-occurrence order: its elements appear
      in the order in which each first appears in the input. */
  lemma {:induction false} DedupeKeepsFirstOccurrenceOrder<T(!new)>(s: seq<T>)
    ensures forall i, j :: 0 <= i < j < |Dedupe(s)| ==>
              FirstIndex(s, Dedupe(s)[i]) < FirstIndex(s, Dedupe(s)[j])
  {
    if s != [] {
      var n := |s| - 1;
      var init := s[..n];
      DedupeKeepsFirstOccurrenceOrder(init);
      var r := Dedupe(s);
      forall i, j | 0 <= i < j < |r|
        ensures FirstIndex(s, r[i]) < FirstIndex(s, r[j])
      {
        FirstIndexOfPrefix(s, n, r[i]);
        if j < |Dedupe(init)| {
          FirstIndexOfPrefix(s, n, r[j]);
        } else {
          assert r[j] == s[n] && s[n] !in init;
          assert s[..n] == init;
        }
      }
    }
  }

  /** A list without repeats is its own deduplication. */
  lemma {:induction false} DedupeOfDistinct<T(!new)>(s: seq<T>)
    requires NoDups(s)
    ensures Dedupe(s) == s
  {
    if s != [] {
      var init := s[..|s| - 1];
      assert NoDups(init);
      DedupeOfDistinct(init);
      assert s[|s| - 1] !in init;
      assert init + [s[|s| - 1]] == s;
    }
  }

  predicate IsDigit(c: char) { '0' <= c <= '9' }

  predicate AllDigits(s: string) { forall i :: 0 <= i < |s| ==> IsDigit(s[i]) }

  function DigitChar(d: nat): (c: char)
    requires d < 10
    ensures IsDigit(c) && c as int - '0' as int == d
  {
    ('0' as int + d) as char
  }

  /** `String(n)` for a non-negative integer: decimal digits, no leading zero. */
  function NatToString(n: nat): (r: string)
    ensures |r| >= 1 && AllDigits(r)
    ensures n > 0 ==> r[0] != '0'
    decreases n
  {
    if n < 10 then [DigitChar(n)] else NatToString(n / 10) + [DigitChar(n % 10)]
  }

  /** `String(n)` for any integer: a minus sign before the magnitude when negative. */
  function IntToString(n: int): (r: string)
    ensures |r| >= 1 && IsDigit(r[|r| - 1])
    ensures (r[0] == '-') <==> n < 0
  {
    if n < 0 then "-" + NatToString(-n) else NatToString(n)
  }

  /** The value of a string of decimal digits (leading zeros allowed). */
  function ParseNat(s: string): nat
    requires AllDigits(s)
  {
    if s == [] then 0
    else ParseNat(s[..|s| - 1]) * 10 + (s[|s| - 1] as int - '0' as int)
  }

  /** Reading a rendered number back gives the number. */
  lemma {:induction false} ParseNatToString(n: nat)
    ensures ParseNat(NatToString(n)) == n
    decreases n
  {
    if n >= 10 {
      var s := NatToString(n);
      assert s[..|s| - 1] == NatToString(n / 10);
      ParseNatToString(n / 10);
    }
  }

  /** Distinct numbers render to distinct strings. */
  lemma NatToStringInjective(a: nat, b: nat)
    requires NatToString(a) == NatToString(b)
    ensures a == b
  {
    ParseNatToString(a);
    ParseNatToString(b);
  }

  /** What follows the last `-` of a string (all of it when there is none). */
  function AfterLastDash(s: string): (r: string)
    ensures '-' !in r && |r| <= |s| && r == s[|s| - |r|..]
  {
    if s == [] || s[|s| - 1] == '-' then []
    else AfterLastDash(s[..|s| - 1]) + [s[|s| - 1]]
  }

  lemma {:induction false} AfterLastDashOfDigits(p: string, d: string)
    requires AllDigits(d)
    ensures AfterLastDash(p + "-" + d) == d
  {
    var s := p + "-" + d;
    if d != [] {
      var d' := d[..|d| - 1];
      assert s[..|s| - 1] == p + "-" + d';
      AfterLastDashOfDigits(p, d');
      assert d' + [d[|d| - 1]] == d;
    }
  }

  /** A string ending in `-` and a run of digits determines that run and what
      precedes the dash. */
  lemma DashDigitsSuffix(p: string, d: string, q: string, e: string)
    requires AllDigits(d) && AllDigits(e)
    requires p + "-" + d == q + "-" + e
    ensures d == e && p == q
  {
    var s := p + "-" + d;
    AfterLastDashOfDigits(p, d);
    AfterLastDashOfDigits(q, e);
    assert p == s[..|p|] == q;
  }
}
