/**
 * The module-level state of app.py as one object: the `medicines` store and
 * its two derived indexes, with the operations that change them. The object
 * invariant is the redundant-index design: both indexes are what
 * rebuild_indexes computes from the store.
 */
module StockApp {
  import opened Wrappers
  import opened Text
  import opened Dates
  import opened BatchStore
  import opened ExpiryIndex
  import opened RangeQuery

  /** The store app.py starts with. */
  function InitialStore(): (s: Store)
    ensures WellFormed(s)
    ensures s.names == ["Paracetamol", "Amoxicillin"]
  {
    Store(["Paracetamol", "Amoxicillin"],
      map["Paracetamol" := [Batch("B001", "2025-12-01", 100), Batch("B002", "2025-11-25", 50)],
          "Amoxicillin" := [Batch("B010", "2025-10-15", 80)]])
  }

  /** The `for b in ...: if b["batch_id"] == batch_id: existing = b; break` scan, as a position. */
  method ScanForBatch(batches: seq<Batch>, id: string) returns (existing: Option<nat>)
    ensures existing == FindBatch(batches, id)
  {
    existing := None;
    var i := 0;
    while i < |batches|
      invariant 0 <= i <= |batches|
      invariant existing.None?
      invariant forall k :: 0 <= k < i ==> batches[k].batchId != id
    {
      if batches[i].batchId == id {
        existing := Some(i);
        break;
      }
      i := i + 1;
    }
  }

  class Inventory {
    /** parse_date, as a partial function onto day ordinals. */
    const parse: string -> Option<int>
    var medicines: Store
    var expiryMinHeap: seq<Key>
    var expirySorted: seq<Key>

    /** Both indexes are rebuild_indexes of the current store. */
    ghost predicate IndexesCurrent()
      reads this
    {
      && expirySorted == SortByDate(Collect(parse, medicines))
      && expiryMinHeap == Heapify(Collect(parse, medicines))
    }

    ghost predicate Valid()
      reads this
    {
      ParsesCalendarDates(parse) && WellFormed(medicines) && IndexesCurrent()
    }

    /** The module body: the seeded store, then rebuild_indexes() at startup. */
    constructor (parse: string -> Option<int>)
      requires ParsesCalendarDates(parse)
      ensures Valid()
      ensures this.parse == parse && medicines == InitialStore()
    {
      this.parse := parse;
      medicines := InitialStore();
      expiryMinHeap, expirySorted := [], [];
      new;
      RebuildIndexes();
    }

    /** rebuild_indexes: both indexes recomputed from the store, which is left as it is. */
    method RebuildIndexes()
      requires KeysAgree(medicines)
      modifies this
      ensures medicines == old(medicines)
      ensures IndexesCurrent()
    {
      var heap: seq<Key> := [];
      var sorted: seq<Key> := [];
      var names, entries := medicines.names, medicines.entries;
      var i := 0;
      while i < |names|
        invariant 0 <= i <= |names|
        invariant medicines == old(medicines)
        invariant heap == sorted
        invariant sorted == NamesKeys(parse, names[..i], entries)
      {
        heap, sorted := AppendBatchKeys(heap, sorted, names[i], entries[names[i]]);
        NamesKeysStep(parse, names, entries, i);
        i := i + 1;
      }
      assert names[..i] == names;
      expiryMinHeap := Heapify(heap);
      expirySorted := SortByDate(sorted);
    }

    /**
     * The inner loop of rebuild_indexes: one (date, medicine, batch id) item
     * appended to both lists per batch whose expiry parses, the others skipped.
     */
    method AppendBatchKeys(heap0: seq<Key>, sorted0: seq<Key>, name: string, batches: seq<Batch>)
      returns (heap: seq<Key>, sorted: seq<Key>)
      ensures heap == heap0 + BatchKeys(parse, name, batches)
      ensures sorted == sorted0 + BatchKeys(parse, name, batches)
    {
      heap, sorted := heap0, sorted0;
      var j := 0;
      while j < |batches|
        invariant 0 <= j <= |batches|
        invariant heap == heap0 + BatchKeys(parse, name, batches[..j])
        invariant sorted == sorted0 + BatchKeys(parse, name, batches[..j])
      {
        BatchKeysStep(parse, name, batches, j);
        match parse(batches[j].expiry) {
          case None =>
          case Some(exp) =>
            var item := Key(exp, name, batches[j].batchId);
            heap := heap + [item];
            sorted := sorted + [item];
        }
        j := j + 1;
      }
      assert batches[..j] == batches;
    }

    /**
     * add_or_update_batch: the store becomes AddOrUpdate of the old one, and
     * the indexes are rebuilt unless the call returned early.
     */
    method AddOrUpdateBatch(medicineName: string, batchId: string, expiry: string, qty: int)
      requires Valid()
      modifies this
      ensures Valid()
      ensures medicines == AddOrUpdate(old(medicines), medicineName, batchId, expiry, qty)
    {
      if medicineName == [] || batchId == [] {
        return;
      }
      var name := Strip(medicineName);
      var id := Strip(batchId);
      ghost var before := medicines;
      if name !in medicines.entries {
        medicines := Store(medicines.names + [name], medicines.entries[name := []]);
      }
      var batches := medicines.entries[name];
      var existing := ScanForBatch(batches, id);
      match existing {
        case Some(j) =>
          medicines := medicines.(entries := medicines.entries[name := batches[j := batches[j].(expiry := expiry, qty := qty)]]);
        case None =>
          medicines := medicines.(entries := medicines.entries[name := batches + [Batch(id, expiry, qty)]]);
      }
      assert medicines == Upsert(before, name, id, expiry, qty);
      AddOrUpdateWellFormed(before, medicineName, batchId, expiry, qty);
      RebuildIndexes();
    }

    /**
     * delete_batch: the outcome and the new store are Remove of the old store;
     * the indexes are rebuilt only when a batch was removed.
     */
    method DeleteBatch(medicineName: string, batchId: string) returns (deleted: bool)
      requires Valid()
      modifies this
      ensures Valid()
      ensures Removal(medicines, deleted) == Remove(old(medicines), medicineName, batchId)
      ensures !deleted ==> medicines == old(medicines)
      ensures !deleted ==> expirySorted == old(expirySorted) && expiryMinHeap == old(expiryMinHeap)
    {
      if medicineName !in medicines.entries {
        return false;
      }
      ghost var before := medicines;
      var batches := medicines.entries[medicineName];
      var newList := WithoutBatch(batches, batchId);
      deleted := |newList| != |batches|;
      medicines := medicines.(entries := medicines.entries[medicineName := newList]);
      if newList == [] {
        medicines := Store(WithoutName(medicines.names, medicineName), medicines.entries - {medicineName});
      }
      assert Removal(medicines, deleted) == Remove(before, medicineName, batchId);
      RemoveWellFormed(before, medicineName, batchId);
      if deleted {
        RebuildIndexes();
      } else {
        RemoveNothingChangesNothing(before, medicineName, batchId);
      }
    }

    /**
     * get_expiring_within: the keys of the sorted index dated in
     * [today, today + days], in index order, so keys of one date keep store
     * order; that is every batch of the store whose expiry lies in the range,
     * each exactly once.
     */
    function GetExpiringWithin(today: int, days: int): (r: seq<Key>)
      reads this
      requires Valid()
      ensures days < 0 ==> r == []
      ensures SortedByDate(r)
      ensures forall k :: multiset(r)[k] ==
                         if 0 <= days && today <= k.date <= today + days && Indexed(parse, medicines, k) then 1 else 0
      ensures 0 <= days ==> r == Window(expirySorted, today, days)
    {
      ExpiringWithinCounts(parse, medicines, today, days);
      ExpiringWithin(expirySorted, today, days)
    }
  }

  // ----- the indexes against the store -----

  /**
   * What rebuild_indexes leaves behind: the sorted list ascends by date, and
   * it and the heap each hold one key per batch of the store whose expiry
   * parses, and no other key.
   */
  lemma RebuiltIndexesExact(parse: string -> Option<int>, s: Store, k: Key)
    requires WellFormed(s)
    ensures SortedByDate(SortByDate(Collect(parse, s)))
    ensures multiset(SortByDate(Collect(parse, s)))[k] == if Indexed(parse, s, k) then 1 else 0
    ensures multiset(Heapify(Collect(parse, s)))[k] == if Indexed(parse, s, k) then 1 else 0
  {
    CollectCounts(parse, s, k);
  }

  /** Every key rebuild_indexes produces dates a calendar day. */
  lemma IndexedDatesInCalendar(parse: string -> Option<int>, s: Store)
    requires ParsesCalendarDates(parse) && WellFormed(s)
    ensures forall i :: 0 <= i < |SortByDate(Collect(parse, s))| ==> InCalendar(SortByDate(Collect(parse, s))[i].date)
  {
    var sorted := SortByDate(Collect(parse, s));
    forall i | 0 <= i < |sorted| ensures InCalendar(sorted[i].date) {
      var k := sorted[i];
      assert k in multiset(sorted);
      CollectCounts(parse, s, k);
      var bs := s.entries[k.medicine];
      var j :| 0 <= j < |bs| && bs[j].batchId == k.batchId && parse(bs[j].expiry) == Some(k.date);
      assert parse(bs[j].expiry).Some?;
    }
  }

  /**
   * The range query on the rebuilt sorted index: for days >= 0 the keys of
   * the index dated in [today, today + days], in index order; sorted by date,
   * and holding each batch of the store dated in that range exactly once.
   */
  lemma ExpiringWithinCounts(parse: string -> Option<int>, s: Store, today: int, days: int)
    requires ParsesCalendarDates(parse) && WellFormed(s)
    ensures var sorted := SortByDate(Collect(parse, s));
      0 <= days ==> ExpiringWithin(sorted, today, days) == Window(sorted, today, days)
    ensures var r := ExpiringWithin(SortByDate(Collect(parse, s)), today, days);
      && SortedByDate(r)
      && forall k :: multiset(r)[k] ==
                       if 0 <= days && today <= k.date <= today + days && Indexed(parse, s, k) then 1 else 0
  {
    var collected := Collect(parse, s);
    var sorted := SortByDate(collected);
    IndexedDatesInCalendar(parse, s);
    ExpiringWithinIsWindow(sorted, today, days);
    if 0 <= days {
      WindowSorted(sorted, today, days);
    }
    var r := ExpiringWithin(sorted, today, days);
    forall k: Key
      ensures multiset(r)[k] == if 0 <= days && today <= k.date <= today + days && Indexed(parse, s, k) then 1 else 0
    {
      QueryCount(sorted, today, days, k);
      CollectCounts(parse, s, k);
      assert multiset(sorted)[k] == multiset(collected)[k];
    }
  }

  /**
   * The range query on a date-sorted list holds a key dated in range as often
   * as the list does, and no other key: RangeQuery.WindowCount carried over
   * to the query through ExpiringWithinIsWindow.
   */
  lemma QueryCount(sorted: seq<Key>, today: int, days: int, k: Key)
    requires SortedByDate(sorted)
    requires forall i :: 0 <= i < |sorted| ==> InCalendar(sorted[i].date)
    ensures multiset(ExpiringWithin(sorted, today, days))[k] ==
              if 0 <= days && today <= k.date <= today + days then multiset(sorted)[k] else 0
  {
    ExpiringWithinIsWindow(sorted, today, days);
    if 0 <= days {
      WindowCount(sorted, today, days, k);
    }
  }

  /** After add_or_update_batch with a parsable expiry, the stripped batch is in the index with that date. */
  lemma AddedBatchIndexed(parse: string -> Option<int>, s: Store, medicineName: string, batchId: string, expiry: string, qty: int, d: int)
    requires medicineName != [] && batchId != [] && parse(expiry) == Some(d)
    ensures Indexed(parse, AddOrUpdate(s, medicineName, batchId, expiry, qty), Key(d, Strip(medicineName), Strip(batchId)))
  {
    var name, id := Strip(medicineName), Strip(batchId);
    var r := Upsert(s, name, id, expiry, qty);
    var bs := r.entries[name];
    if name in s.entries && HasBatch(s.entries[name], id) {
      var j := FindBatch(s.entries[name], id).value;
      assert bs[j] == Batch(id, expiry, qty);
    } else {
      assert bs[|bs| - 1] == Batch(id, expiry, qty);
    }
  }

  /** A batch whose expiry does not parse has no key in the index. */
  lemma UnparsableNotIndexed(parse: string -> Option<int>, s: Store, name: string, b: Batch, date: int)
    requires WellFormed(s)
    requires name in s.entries && b in s.entries[name] && parse(b.expiry).None?
    ensures Key(date, name, b.batchId) !in Collect(parse, s)
  {
    var k := Key(date, name, b.batchId);
    CollectCounts(parse, s, k);
    var bs := s.entries[name];
  }

  /** Deleting the last batch of a medicine removes the medicine from the index. */
  lemma DeletedMedicineLeavesIndex(parse: string -> Option<int>, s: Store, name: string, id: string, k: Key)
    requires WellFormed(s)
    requires name !in Remove(s, name, id).store.entries
    requires k.medicine == name
    ensures k !in Collect(parse, Remove(s, name, id).store)
  {
    RemoveWellFormed(s, name, id);
    CollectCounts(parse, Remove(s, name, id).store, k);
  }
}
