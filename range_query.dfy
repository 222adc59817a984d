/**
 * get_expiring_within: the keys of `_expiry_sorted` dated from today to
 * today + days, located by bisect_left / bisect_right on the list of dates.
 */
module RangeQuery {
  import opened Wrappers
  import opened Dates
  import opened ExpiryIndex

  /** [t[0] for t in _expiry_sorted] */
  function DatesOf(s: seq<Key>): (r: seq<int>)
    ensures |r| == |s|
    ensures forall i :: 0 <= i < |s| ==> r[i] == s[i].date
  {
    if s == [] then [] else DatesOf(s[..|s| - 1]) + [s[|s| - 1].date]
  }

  predicate Ascending(a: seq<int>) {
    forall i, j :: 0 <= i < j < |a| ==> a[i] <= a[j]
  }

  /** bisect.bisect_left(a, x, lo, hi): halves a[lo..hi] until one position is left. */
  function BisectLeft(a: seq<int>, x: int, lo: nat, hi: nat): (r: nat)
    requires lo <= hi <= |a|
    ensures lo <= r <= hi
    decreases hi - lo
  {
    if lo < hi then
      var mid := (lo + hi) / 2;
      if a[mid] < x then BisectLeft(a, x, mid + 1, hi) else BisectLeft(a, x, lo, mid)
    else lo
  }

  /**
   * On an ascending list, bisect_left splits a[lo..hi] into the values below
   * x and those at or above it.
   */
  lemma {:induction false} BisectLeftSplits(a: seq<int>, x: int, lo: nat, hi: nat)
    requires lo <= hi <= |a| && Ascending(a)
    ensures forall i :: lo <= i < BisectLeft(a, x, lo, hi) ==> a[i] < x
    ensures forall i :: BisectLeft(a, x, lo, hi) <= i < hi ==> x <= a[i]
    decreases hi - lo
  {
    if lo < hi {
      var mid := (lo + hi) / 2;
      if a[mid] < x {
        BisectLeftSplits(a, x, mid + 1, hi);
      } else {
        BisectLeftSplits(a, x, lo, mid);
      }
    }
  }

  /** bisect.bisect_right(a, x, lo, hi): halves a[lo..hi] until one position is left. */
  function BisectRight(a: seq<int>, x: int, lo: nat, hi: nat): (r: nat)
    requires lo <= hi <= |a|
    ensures lo <= r <= hi
    decreases hi - lo
  {
    if lo < hi then
      var mid := (lo + hi) / 2;
      if x < a[mid] then BisectRight(a, x, lo, mid) else BisectRight(a, x, mid + 1, hi)
    else lo
  }

  /**
   * On an ascending list, bisect_right splits a[lo..hi] into the values at
   * or below x and those above it.
   */
  lemma {:induction false} BisectRightSplits(a: seq<int>, x: int, lo: nat, hi: nat)
    requires lo <= hi <= |a| && Ascending(a)
    ensures forall i :: lo <= i < BisectRight(a, x, lo, hi) ==> a[i] <= x
    ensures forall i :: BisectRight(a, x, lo, hi) <= i < hi ==> x < a[i]
    decreases hi - lo
  {
    if lo < hi {
      var mid := (lo + hi) / 2;
      if x < a[mid] {
        BisectRightSplits(a, x, lo, mid);
      } else {
        BisectRightSplits(a, x, mid + 1, hi);
      }
    }
  }

  /** The reference answer by a linear scan: the keys dated in [first, last], in list order. */
  function InWindow(s: seq<Key>, first: int, last: int): seq<Key> {
    if s == [] then []
    else
      var e := s[|s| - 1];
      InWindow(s[..|s| - 1], first, last) + (if first <= e.date <= last then [e] else [])
  }

  /**
   * The reference answer for get_expiring_within(days): only the
   * [today, today + days] instance of InWindow, named so that lemmas about
   * the query take plain arguments rather than a sum.
   */
  function Window(s: seq<Key>, today: int, days: int): seq<Key> {
    InWindow(s, today, today + days)
  }

  /** Python's a[left:right], which is empty when left > right. */
  function Slice(s: seq<Key>, left: nat, right: nat): (r: seq<Key>)
    requires left <= |s| && right <= |s|
    ensures |r| == if left <= right then right - left else 0
    ensures forall i :: 0 <= i < |r| ==> r[i] == s[left + i]
  {
    if left <= right then s[left..right] else []
  }

  datatype DateError = OverflowError

  /**
   * get_expiring_within as written: days < 0 gives []; otherwise
   * `today + timedelta(days=days)` raises OverflowError once the cutoff is
   * past 9999-12-31, before any lookup.
   */
  function ExpiringWithinAsWritten(sorted: seq<Key>, today: int, days: int): (r: Result<seq<Key>, DateError>)
    ensures days < 0 ==> r == Success([])
    ensures r.Failure? <==> 0 <= days && MaxOrdinal < today + days
  {
    if days < 0 then Success([])
    else if MaxOrdinal < today + days then Failure(OverflowError)
    else Success(Located(sorted, today, today + days))
  }

  /** The slice between bisect_left(dates, today) and bisect_right(dates, cutoff). */
  function Located(sorted: seq<Key>, today: int, cutoff: int): (r: seq<Key>)
    ensures |r| <= |sorted|
    ensures forall k :: k in r ==> k in sorted
  {
    var dates := DatesOf(sorted);
    Slice(sorted, BisectLeft(dates, today, 0, |dates|), BisectRight(dates, cutoff, 0, |dates|))
  }

  /** The cutoff date, capped at the last representable date. */
  function Capped(cutoff: int): (r: int)
    ensures r <= MaxOrdinal && r <= cutoff
    ensures r == cutoff || r == MaxOrdinal
  {
    if MaxOrdinal < cutoff then MaxOrdinal else cutoff
  }

  /**
   * get_expiring_within with the overflow removed: the cutoff is capped at
   * the last representable date, which loses no key since no date is later.
   */
  function ExpiringWithin(sorted: seq<Key>, today: int, days: int): (r: seq<Key>)
    ensures days < 0 ==> r == []
    ensures |r| <= |sorted|
    ensures forall k :: k in r ==> k in sorted
  {
    if days < 0 then [] else Located(sorted, today, Capped(today + days))
  }

  // ----- lemmas -----

  /**
   * The two bisection points come in the order of their bounds. Both searches
   * probe the same midpoints, so they part ways only at a value between the
   * bounds; the list need not even be sorted.
   */
  lemma {:induction false} BisectBoundsOrdered(a: seq<int>, first: int, last: int, lo: nat, hi: nat)
    requires lo <= hi <= |a|
    ensures var left, right := BisectLeft(a, first, lo, hi), BisectRight(a, last, lo, hi);
      (first <= last ==> left <= right) && (last < first ==> right <= left)
    decreases hi - lo
  {
    if lo < hi {
      var mid := (lo + hi) / 2;
      if a[mid] < first && a[mid] <= last {
        BisectBoundsOrdered(a, first, last, mid + 1, hi);
      } else if first <= a[mid] && last < a[mid] {
        BisectBoundsOrdered(a, first, last, lo, mid);
      }
    }
  }

  lemma DatesAscending(s: seq<Key>)
    requires SortedByDate(s)
    ensures Ascending(DatesOf(s))
  {
  }

  /** On an ascending list, the bisection slice is exactly the keys dated in [today, cutoff]. */
  lemma LocatedIsWindow(sorted: seq<Key>, today: int, cutoff: int)
    requires Ascending(DatesOf(sorted))
    ensures Located(sorted, today, cutoff) == InWindow(sorted, today, cutoff)
  {
    var dates := DatesOf(sorted);
    BisectLeftSplits(dates, today, 0, |dates|);
    BisectRightSplits(dates, cutoff, 0, |dates|);
    BisectBoundsOrdered(dates, today, cutoff, 0, |dates|);
    WindowBetween(sorted, dates, today, cutoff, BisectLeft(dates, today, 0, |dates|), BisectRight(dates, cutoff, 0, |dates|));
  }

  /** A slice whose bounds split the dates at `first` and past `last` is the window [first, last]. */
  lemma WindowBetween(sorted: seq<Key>, dates: seq<int>, first: int, last: int, left: nat, right: nat)
    requires dates == DatesOf(sorted)
    requires left <= |dates| && right <= |dates|
    requires forall i :: 0 <= i < left ==> dates[i] < first
    requires forall i :: left <= i < |dates| ==> first <= dates[i]
    requires forall i :: 0 <= i < right ==> dates[i] <= last
    requires forall i :: right <= i < |dates| ==> last < dates[i]
    requires first <= last ==> left <= right
    requires last < first ==> right <= left
    ensures Slice(sorted, left, right) == InWindow(sorted, first, last)
  {
    if first <= last {
      InWindowSlice(sorted, first, last, left, right);
    } else {
      InWindowEmpty(sorted, first, last);
    }
  }

  /** The corrected query on the sorted index answers the linear scan over [today, today + days]. */
  lemma ExpiringWithinIsWindow(sorted: seq<Key>, today: int, days: int)
    requires SortedByDate(sorted)
    requires forall i :: 0 <= i < |sorted| ==> sorted[i].date <= MaxOrdinal
    ensures ExpiringWithin(sorted, today, days) == if days < 0 then [] else Window(sorted, today, days)
  {
    if 0 <= days {
      var cap := Capped(today + days);
      DatesAscending(sorted);
      LocatedIsWindow(sorted, today, cap);
      InWindowCapped(sorted, today, cap, today + days);
      assert ExpiringWithin(sorted, today, days) == Located(sorted, today, cap);
      assert Located(sorted, today, cap) == InWindow(sorted, today, cap);
      assert InWindow(sorted, today, cap) == Window(sorted, today, days);
    }
  }

  /** Where the code as written succeeds on a sorted index, it answers the linear scan. */
  lemma AsWrittenIsWindow(sorted: seq<Key>, today: int, days: int)
    requires SortedByDate(sorted)
    requires ExpiringWithinAsWritten(sorted, today, days).Success?
    ensures ExpiringWithinAsWritten(sorted, today, days).value == if days < 0 then [] else Window(sorted, today, days)
  {
    if 0 <= days {
      assert ExpiringWithinAsWritten(sorted, today, days).value == Located(sorted, today, today + days);
      DatesAscending(sorted);
      LocatedIsWindow(sorted, today, today + days);
      assert Located(sorted, today, today + days) == Window(sorted, today, days);
    }
  }

  /** Bounds that split a list into "before", "inside" and "after" the window cut out that window. */
  lemma InWindowSlice(s: seq<Key>, first: int, last: int, left: nat, right: nat)
    requires left <= right <= |s|
    requires forall i :: 0 <= i < left ==> s[i].date < first
    requires forall i :: left <= i < right ==> first <= s[i].date <= last
    requires forall i :: right <= i < |s| ==> last < s[i].date
    ensures InWindow(s, first, last) == s[left..right]
  {
    var t := s[..right];
    InWindowAbove(s, first, last, right);
    InWindowInside(t, first, last, left);
    InWindowBelow(t[..left], first, last);
    assert t[left..] == s[left..right];
  }

  /** Keys dated after the window at the end of a list do not reach it. */
  lemma {:induction false} InWindowAbove(s: seq<Key>, first: int, last: int, right: nat)
    requires right <= |s|
    requires forall i :: right <= i < |s| ==> last < s[i].date
    ensures InWindow(s, first, last) == InWindow(s[..right], first, last)
    decreases |s|
  {
    if right < |s| {
      var p := s[..|s| - 1];
      assert p[..right] == s[..right];
      InWindowAbove(p, first, last, right);
    } else {
      assert s[..right] == s;
    }
  }

  /** Keys dated inside the window at the end of a list are all kept, in order. */
  lemma {:induction false} InWindowInside(s: seq<Key>, first: int, last: int, left: nat)
    requires left <= |s|
    requires forall i :: left <= i < |s| ==> first <= s[i].date <= last
    ensures InWindow(s, first, last) == InWindow(s[..left], first, last) + s[left..]
    decreases |s|
  {
    if left < |s| {
      var p, e := s[..|s| - 1], s[|s| - 1];
      assert p[..left] == s[..left];
      InWindowInside(p, first, last, left);
      assert s[left..] == p[left..] + [e];
    } else {
      assert s[..left] == s;
    }
  }

  /** A list dated entirely before the window contributes nothing to it. */
  lemma {:induction false} InWindowBelow(s: seq<Key>, first: int, last: int)
    requires forall i :: 0 <= i < |s| ==> s[i].date < first
    ensures InWindow(s, first, last) == []
  {
    if s != [] {
      InWindowBelow(s[..|s| - 1], first, last);
    }
  }

  /** Capping the cutoff at a bound no date exceeds changes nothing. */
  lemma {:induction false} InWindowCapped(s: seq<Key>, first: int, cap: int, last: int)
    requires cap <= last
    requires cap == last || forall i :: 0 <= i < |s| ==> s[i].date <= cap
    ensures InWindow(s, first, cap) == InWindow(s, first, last)
  {
    if s != [] {
      InWindowCapped(s[..|s| - 1], first, cap, last);
    }
  }

  /** An empty date range selects nothing. */
  lemma {:induction false} InWindowEmpty(s: seq<Key>, first: int, last: int)
    requires last < first
    ensures InWindow(s, first, last) == []
  {
    if s != [] {
      InWindowEmpty(s[..|s| - 1], first, last);
    }
  }

  /** A key occurs in the window as often as in the list if its date is in range, otherwise never. */
  lemma {:induction false} InWindowCount(s: seq<Key>, first: int, last: int, k: Key)
    ensures multiset(InWindow(s, first, last))[k] == if first <= k.date <= last then multiset(s)[k] else 0
  {
    if s != [] {
      var p, e := s[..|s| - 1], s[|s| - 1];
      assert s == p + [e];
      InWindowCount(p, first, last, k);
    }
  }

  /** The window of a date-sorted list is itself sorted by date. */
  lemma {:induction false} InWindowSorted(s: seq<Key>, first: int, last: int)
    requires SortedByDate(s)
    ensures SortedByDate(InWindow(s, first, last))
  {
    if s != [] {
      var p, e := s[..|s| - 1], s[|s| - 1];
      assert SortedByDate(p);
      InWindowSorted(p, first, last);
      var w := InWindow(p, first, last);
      forall i | 0 <= i < |w| ensures w[i].date <= e.date {
        InWindowCount(p, first, last, w[i]);
        assert w[i] in multiset(w);
        var k :| 0 <= k < |p| && p[k] == w[i];
        assert s[k] == p[k];
      }
    }
  }

  /** InWindowCount for the answer window: a key dated from today to today + days occurs as often as in the list, any other never. */
  lemma WindowCount(s: seq<Key>, today: int, days: int, k: Key)
    ensures multiset(Window(s, today, days))[k] == if today <= k.date <= today + days then multiset(s)[k] else 0
  {
    InWindowCount(s, today, today + days, k);
  }

  /** InWindowSorted for the answer window: it is sorted by date when the list is. */
  lemma WindowSorted(s: seq<Key>, today: int, days: int)
    requires SortedByDate(s)
    ensures SortedByDate(Window(s, today, days))
  {
    InWindowSorted(s, today, today + days);
  }

  /**
   * The finding: with days large enough the code as written fails, while
   * the corrected query still answers the linear scan.
   */
  lemma OverflowOnFarCutoff(sorted: seq<Key>, today: int)
    requires InCalendar(today) && SortedByDate(sorted)
    requires forall i :: 0 <= i < |sorted| ==> InCalendar(sorted[i].date)
    ensures ExpiringWithinAsWritten(sorted, today, MaxOrdinal).Failure?
    ensures ExpiringWithin(sorted, today, MaxOrdinal) == Window(sorted, today, MaxOrdinal)
  {
    ExpiringWithinIsWindow(sorted, today, MaxOrdinal);
  }

  /** Wherever the code as written succeeds, the corrected query gives the same answer. */
  lemma AsWrittenAgrees(sorted: seq<Key>, today: int, days: int)
    requires ExpiringWithinAsWritten(sorted, today, days).Success?
    ensures ExpiringWithinAsWritten(sorted, today, days).value == ExpiringWithin(sorted, today, days)
  {
  }

  /** Every key in the answer for a week or less is shown as "danger" by the viewer. */
  lemma WeekAheadIsDanger(sorted: seq<Key>, today: int, days: int, k: Key)
    requires SortedByDate(sorted)
    requires days <= 7
    requires k in ExpiringWithin(sorted, today, days)
    ensures 0 <= k.date - today && LevelOf(k.date - today) == Danger
  {
    var cutoff := Capped(today + days);
    DatesAscending(sorted);
    LocatedIsWindow(sorted, today, cutoff);
    InWindowCount(sorted, today, cutoff, k);
  }
}
