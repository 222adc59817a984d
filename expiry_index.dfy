/**
 * The two derived indexes of rebuild_indexes: every batch whose expiry parses
 * contributes one key (date, medicine, batch id); `_expiry_sorted` holds the
 * keys sorted by date only (a stable sort), `_expiry_min_heap` holds the same
 * keys in a heap order stated on their dates only.
 */
module ExpiryIndex {
  import opened Wrappers
  import opened BatchStore

  datatype Key = Key(date: int, medicine: string, batchId: string)

  /** The key one batch contributes: none when its expiry does not parse. */
  function KeyOf(parse: string -> Option<int>, name: string, b: Batch): (r: seq<Key>)
    ensures |r| == if parse(b.expiry).Some? then 1 else 0
  {
    match parse(b.expiry)
    case Some(d) => [Key(d, name, b.batchId)]
    case None => []
  }

  /** The inner loop: the keys of one medicine's batches, in list order. */
  function BatchKeys(parse: string -> Option<int>, name: string, bs: seq<Batch>): (r: seq<Key>)
    ensures |r| <= |bs|
  {
    if bs == [] then []
    else BatchKeys(parse, name, bs[..|bs| - 1]) + KeyOf(parse, name, bs[|bs| - 1])
  }

  /** The outer loop: the keys of the medicines in `names`, in that order. */
  function NamesKeys(parse: string -> Option<int>, names: seq<string>, entries: map<string, seq<Batch>>): (r: seq<Key>)
    ensures forall k :: k in r ==> k.medicine in names && k.medicine in entries
  {
    if names == [] then []
    else
      var n := names[|names| - 1];
      var r := NamesKeys(parse, names[..|names| - 1], entries) + (if n in entries then BatchKeys(parse, n, entries[n]) else []);
      assert forall k :: k in r ==> k in NamesKeys(parse, names[..|names| - 1], entries) || (n in entries && k in BatchKeys(parse, n, entries[n]));
      if n in entries then BatchKeysNamed(parse, n, entries[n]); r else r
  }

  /** Every key of one medicine's batches carries that medicine's name. */
  lemma {:induction false} BatchKeysNamed(parse: string -> Option<int>, name: string, bs: seq<Batch>)
    ensures forall k :: k in BatchKeys(parse, name, bs) ==> k.medicine == name
  {
    if bs != [] {
      BatchKeysNamed(parse, name, bs[..|bs| - 1]);
    }
  }

  lemma BatchKeysStep(parse: string -> Option<int>, name: string, bs: seq<Batch>, j: nat)
    requires j < |bs|
    ensures BatchKeys(parse, name, bs[..j + 1]) == BatchKeys(parse, name, bs[..j]) + KeyOf(parse, name, bs[j])
  {
    assert bs[..j + 1][..j] == bs[..j];
  }

  lemma NamesKeysStep(parse: string -> Option<int>, names: seq<string>, entries: map<string, seq<Batch>>, i: nat)
    requires i < |names| && names[i] in entries
    ensures NamesKeys(parse, names[..i + 1], entries) == NamesKeys(parse, names[..i], entries) + BatchKeys(parse, names[i], entries[names[i]])
  {
    assert names[..i + 1][..i] == names[..i];
  }

  /** The list both indexes start from, before heapify and sort. */
  function Collect(parse: string -> Option<int>, s: Store): (r: seq<Key>)
    ensures forall k :: k in r ==> k.medicine in s.entries
  {
    NamesKeys(parse, s.names, s.entries)
  }

  /** Some batch of `bs` has the key's batch id and an expiry that parses to the key's date. */
  ghost predicate Yields(parse: string -> Option<int>, bs: seq<Batch>, k: Key) {
    exists i :: 0 <= i < |bs| && bs[i].batchId == k.batchId && parse(bs[i].expiry) == Some(k.date)
  }

  /** The key belongs to a batch present in the store. */
  ghost predicate Indexed(parse: string -> Option<int>, s: Store, k: Key) {
    k.medicine in s.entries && Yields(parse, s.entries[k.medicine], k)
  }

  lemma YieldsSnoc(parse: string -> Option<int>, p: seq<Batch>, b: Batch, k: Key)
    ensures Yields(parse, p + [b], k) <==>
      Yields(parse, p, k) || (b.batchId == k.batchId && parse(b.expiry) == Some(k.date))
  {
    var bs := p + [b];
    if Yields(parse, p, k) {
      var i :| 0 <= i < |p| && p[i].batchId == k.batchId && parse(p[i].expiry) == Some(k.date);
      assert bs[i] == p[i];
    }
    if Yields(parse, bs, k) {
      var i :| 0 <= i < |bs| && bs[i].batchId == k.batchId && parse(bs[i].expiry) == Some(k.date);
      if i < |p| {
        assert p[i] == bs[i];
      }
    }
    if b.batchId == k.batchId && parse(b.expiry) == Some(k.date) {
      assert bs[|p|] == b;
    }
  }

  /** No batch before the last one carries the last one's id. */
  lemma DistinctIdsSnoc(p: seq<Batch>, b: Batch)
    requires DistinctIds(p + [b])
    ensures DistinctIds(p)
    ensures forall i :: 0 <= i < |p| ==> p[i].batchId != b.batchId
  {
    var bs := p + [b];
    forall i, j | 0 <= i < j < |p| ensures p[i].batchId != p[j].batchId {
      assert p[i] == bs[i] && p[j] == bs[j];
    }
    forall i | 0 <= i < |p| ensures p[i].batchId != b.batchId {
      assert p[i] == bs[i] && b == bs[|p|];
    }
  }

  lemma {:induction false} BatchKeysCount(parse: string -> Option<int>, name: string, bs: seq<Batch>, k: Key)
    requires DistinctIds(bs)
    ensures multiset(BatchKeys(parse, name, bs))[k] == if k.medicine == name && Yields(parse, bs, k) then 1 else 0
  {
    if bs != [] {
      var p, b := bs[..|bs| - 1], bs[|bs| - 1];
      assert bs == p + [b];
      DistinctIdsSnoc(p, b);
      BatchKeysCount(parse, name, p, k);
      YieldsSnoc(parse, p, b, k);
      var here := b.batchId == k.batchId && parse(b.expiry) == Some(k.date);
      assert multiset(KeyOf(parse, name, b))[k] == if k.medicine == name && here then 1 else 0;
    }
  }

  lemma {:induction false} NamesKeysCount(parse: string -> Option<int>, names: seq<string>, entries: map<string, seq<Batch>>, k: Key)
    requires DistinctNames(names)
    requires forall n :: n in entries ==> DistinctIds(entries[n])
    ensures multiset(NamesKeys(parse, names, entries))[k] ==
      if k.medicine in names && k.medicine in entries && Yields(parse, entries[k.medicine], k) then 1 else 0
  {
    if names != [] {
      var p, n := names[..|names| - 1], names[|names| - 1];
      assert DistinctNames(p) by {
        forall i, j | 0 <= i < j < |p| ensures p[i] != p[j] {
          assert p[i] == names[i] && p[j] == names[j];
        }
      }
      assert n !in p by {
        forall i | 0 <= i < |p| ensures p[i] != n {
          assert p[i] == names[i];
        }
      }
      assert names == p + [n];
      NamesKeysCount(parse, p, entries, k);
      if n in entries {
        BatchKeysCount(parse, n, entries[n], k);
      }
    }
  }

  /**
   * Exactly one key per batch of the store whose expiry parses, and no other
   * key: a batch with an unparsable expiry is absent from the index.
   */
  lemma CollectCounts(parse: string -> Option<int>, s: Store, k: Key)
    requires WellFormed(s)
    ensures multiset(Collect(parse, s))[k] == if Indexed(parse, s, k) then 1 else 0
  {
    NamesKeysCount(parse, s.names, s.entries, k);
  }

  // ----- the stable sort by date: _expiry_sorted.sort(key=lambda x: x[0]) -----

  predicate SortedByDate(s: seq<Key>) {
    forall i, j :: 0 <= i < j < |s| ==> s[i].date <= s[j].date
  }

  /** Places x after every key whose date is not later than its own. */
  function Insert(t: seq<Key>, x: Key): (r: seq<Key>)
    ensures multiset(r) == multiset(t) + multiset{x}
  {
    if t == [] then [x]
    else
      var p, last := t[..|t| - 1], t[|t| - 1];
      assert t == p + [last];
      if last.date <= x.date then t + [x]
      else Insert(p, x) + [last]
  }

  /** Appending a key dated no earlier than every other keeps a list sorted. */
  lemma SortedSnoc(q: seq<Key>, e: Key)
    requires SortedByDate(q)
    requires forall i :: 0 <= i < |q| ==> q[i].date <= e.date
    ensures SortedByDate(q + [e])
  {
  }

  /** Every key of a permutation of p plus x is dated within a bound that p and x respect. */
  lemma BoundedByMultiset(q: seq<Key>, p: seq<Key>, x: Key, bound: int)
    requires multiset(q) == multiset(p) + multiset{x}
    requires forall i :: 0 <= i < |p| ==> p[i].date <= bound
    requires x.date <= bound
    ensures forall i :: 0 <= i < |q| ==> q[i].date <= bound
  {
    forall i | 0 <= i < |q| ensures q[i].date <= bound {
      assert q[i] in multiset(q);
      if q[i] != x {
        assert q[i] in multiset(p);
        var k :| 0 <= k < |p| && p[k] == q[i];
      }
    }
  }

  lemma {:induction false} InsertSorted(t: seq<Key>, x: Key)
    requires SortedByDate(t)
    ensures SortedByDate(Insert(t, x))
  {
    if t != [] {
      var p, last := t[..|t| - 1], t[|t| - 1];
      assert t == p + [last];
      if last.date <= x.date {
        SortedSnoc(t, x);
      } else {
        assert SortedByDate(p);
        InsertSorted(p, x);
        BoundedByMultiset(Insert(p, x), p, x, last.date);
        SortedSnoc(Insert(p, x), last);
      }
    }
  }

  /** The list ordered by date, with keys of equal date in their original order. */
  function SortByDate(s: seq<Key>): (r: seq<Key>)
    ensures SortedByDate(r)
    ensures multiset(r) == multiset(s)
  {
    if s == [] then []
    else
      assert s == s[..|s| - 1] + [s[|s| - 1]];
      var sorted := SortByDate(s[..|s| - 1]);
      InsertSorted(sorted, s[|s| - 1]);
      Insert(sorted, s[|s| - 1])
  }

  /** The keys of s that carry date d, in their order in s. */
  function OfDate(s: seq<Key>, d: int): seq<Key> {
    if s == [] then []
    else OfDate(s[..|s| - 1], d) + (if s[|s| - 1].date == d then [s[|s| - 1]] else [])
  }

  lemma OfDateSnoc(q: seq<Key>, e: Key, d: int)
    ensures OfDate(q + [e], d) == OfDate(q, d) + (if e.date == d then [e] else [])
  {
    assert (q + [e])[..|q|] == q;
  }

  lemma {:induction false} InsertOfDate(t: seq<Key>, x: Key, d: int)
    requires SortedByDate(t)
    ensures OfDate(Insert(t, x), d) == OfDate(t, d) + (if x.date == d then [x] else [])
  {
    if t == [] {
      OfDateSnoc([], x, d);
      assert [] + [x] == [x];
    } else {
      var p, last := t[..|t| - 1], t[|t| - 1];
      assert t == p + [last];
      OfDateSnoc(p, last, d);
      if last.date <= x.date {
        OfDateSnoc(t, x, d);
      } else {
        assert SortedByDate(p);
        InsertOfDate(p, x, d);
        OfDateSnoc(Insert(p, x), last, d);
      }
    }
  }

  /** Python's sort is stable: among keys of one date, the order of the input is kept. */
  lemma {:induction false} SortByDateStable(s: seq<Key>, d: int)
    ensures OfDate(SortByDate(s), d) == OfDate(s, d)
  {
    if s != [] {
      var p := s[..|s| - 1];
      SortByDateStable(p, d);
      InsertOfDate(SortByDate(p), s[|s| - 1], d);
    }
  }

  // ----- the heap: heapq.heapify(_expiry_min_heap) -----

  /**
   * The min-heap order on dates only: no child is earlier than its parent.
   * heapq orders whole (date, medicine, batch id) tuples, which this does not.
   */
  predicate IsDateHeap(h: seq<Key>) {
    forall i {:trigger h[i]} :: 0 < i < |h| ==> h[(i - 1) / 2].date <= h[i].date
  }

  /**
   * The same keys in an order that is a heap on dates: the date-sorted
   * arrangement. heapq orders whole (date, medicine, batch id) tuples, so
   * among keys of one date this arrangement, first key included, can differ
   * from heapq's and need not satisfy heapq's tuple order.
   */
  function Heapify(items: seq<Key>): (h: seq<Key>)
    ensures multiset(h) == multiset(items)
    ensures IsDateHeap(h)
    ensures forall i :: 0 <= i < |h| ==> h[0].date <= h[i].date
  {
    SortByDate(items)
  }

  /** Strictly falling dates: every key is dated after each key that follows it. */
  predicate Falling(s: seq<Key>) {
    forall i, j :: 0 <= i < j < |s| ==> s[j].date < s[i].date
  }

  function Reversed(s: seq<Key>): (r: seq<Key>)
    ensures forall y :: y in r <==> y in s
  {
    if s == [] then []
    else
      assert s == s[..|s| - 1] + [s[|s| - 1]];
      [s[|s| - 1]] + Reversed(s[..|s| - 1])
  }

  /** A key dated before every key of a list is inserted at its front. */
  lemma {:induction false} InsertFront(t: seq<Key>, x: Key)
    requires forall y :: y in t ==> x.date < y.date
    ensures Insert(t, x) == [x] + t
  {
    if t != [] {
      var p, last := t[..|t| - 1], t[|t| - 1];
      assert t == p + [last];
      InsertFront(p, x);
      assert [x] + p + [last] == [x] + t;
    }
  }

  /** Dropping the last key of a falling list leaves a falling list dated after that key. */
  lemma FallingPrefix(s: seq<Key>)
    requires Falling(s) && s != []
    ensures Falling(s[..|s| - 1])
    ensures forall y :: y in s[..|s| - 1] ==> s[|s| - 1].date < y.date
  {
    var p := s[..|s| - 1];
    forall y | y in p ensures s[|s| - 1].date < y.date {
      var k :| 0 <= k < |p| && p[k] == y;
      assert s[k] == y;
    }
  }

  /** A list in strictly falling date order comes out of the sort reversed. */
  lemma {:induction false} SortFalling(s: seq<Key>)
    requires Falling(s)
    ensures SortByDate(s) == Reversed(s)
  {
    if s != [] {
      var p, last := s[..|s| - 1], s[|s| - 1];
      FallingPrefix(s);
      SortFalling(p);
      InsertFront(Reversed(p), last);
      assert SortByDate(s) == Insert(SortByDate(p), last);
      assert Reversed(s) == [last] + Reversed(p);
    }
  }

  lemma ReversedThree(a: Key, b: Key, c: Key)
    ensures Reversed([a, b, c]) == [c, b, a]
  {
    assert [a][..0] == [];
    assert Reversed([a]) == [a] + Reversed([]) == [a];
    assert [a, b][..1] == [a];
    assert Reversed([a, b]) == [b] + Reversed([a]) == [b, a];
    assert [a, b, c][..2] == [a, b];
    assert Reversed([a, b, c]) == [c] + Reversed([a, b]) == [c, b, a];
  }

  /** Three keys in falling date order come out of the sort reversed. */
  lemma SortFallingThree(a: Key, b: Key, c: Key)
    requires c.date < b.date < a.date
    ensures SortByDate([a, b, c]) == [c, b, a]
  {
    var s := [a, b, c];
    assert Falling(s);
    SortFalling(s);
    ReversedThree(a, b, c);
  }

  /** Dropping the last key of a sorted list leaves a sorted list dated up to that key. */
  lemma SortedPrefix(s: seq<Key>)
    requires SortedByDate(s) && s != []
    ensures SortedByDate(s[..|s| - 1])
    ensures 1 < |s| ==> s[|s| - 2].date <= s[|s| - 1].date
  {
  }

  /** A last key dated no earlier than the one before it is inserted back where it was. */
  lemma InsertLast(s: seq<Key>)
    requires s != [] && (|s| == 1 || s[|s| - 2].date <= s[|s| - 1].date)
    ensures Insert(s[..|s| - 1], s[|s| - 1]) == s
  {
    assert s[..|s| - 1] + [s[|s| - 1]] == s;
  }

  /** A list already sorted by date comes out of the sort unchanged. */
  lemma {:induction false} SortSortedUnchanged(s: seq<Key>)
    requires SortedByDate(s)
    ensures SortByDate(s) == s
  {
    if s != [] {
      SortedPrefix(s);
      SortSortedUnchanged(s[..|s| - 1]);
      InsertLast(s);
    }
  }
}
