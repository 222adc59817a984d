/**
 * Example calls, stated against the Inventory object and proved: the
 * seeded store, day ordinals for the dates they use, and "today" given as
 * 2025-10-01.
 */
module Scenarios {
  import opened Wrappers
  import opened Text
  import opened Dates
  import opened BatchStore
  import opened ExpiryIndex
  import opened RangeQuery
  import opened StockApp

  /** date(2025, 10, 1).toordinal() */
  const Oct01: int := 739525

  /** parse_date on the date strings the examples use. */
  ghost predicate ParsesExampleDates(parse: string -> Option<int>) {
    && parse("2025-12-01") == Some(739586)
    && parse("2025-11-25") == Some(739580)
    && parse("2025-10-15") == Some(739539)
    && parse("2025-10-05") == Some(739529)
    && parse("2025-12-15") == Some(739600)
  }

  /** The keys of the seeded store, in store order. */
  lemma StartupKeys(parse: string -> Option<int>)
    requires ParsesExampleDates(parse)
    ensures Collect(parse, InitialStore()) ==
      [Key(739586, "Paracetamol", "B001"), Key(739580, "Paracetamol", "B002"), Key(739539, "Amoxicillin", "B010")]
  {
    var s := InitialStore();
    var para, amox := s.entries["Paracetamol"], s.entries["Amoxicillin"];
    assert para[..1] == [para[0]] && para[..1][..0] == [] && amox[..0] == [];
    assert BatchKeys(parse, "Paracetamol", para) == [Key(739586, "Paracetamol", "B001"), Key(739580, "Paracetamol", "B002")];
    assert BatchKeys(parse, "Amoxicillin", amox) == [Key(739539, "Amoxicillin", "B010")];
    assert s.names[..1] == ["Paracetamol"] && s.names[..1][..0] == [];
    assert NamesKeys(parse, s.names[..1], s.entries) == BatchKeys(parse, "Paracetamol", para);
  }

  /** The seeded store's sorted index. */
  lemma StartupIndex(parse: string -> Option<int>)
    requires ParsesExampleDates(parse)
    ensures SortByDate(Collect(parse, InitialStore())) ==
      [Key(739539, "Amoxicillin", "B010"), Key(739580, "Paracetamol", "B002"), Key(739586, "Paracetamol", "B001")]
  {
    StartupKeys(parse);
    SortFallingThree(Key(739586, "Paracetamol", "B001"), Key(739580, "Paracetamol", "B002"), Key(739539, "Amoxicillin", "B010"));
  }

  /** The seeded index from 2025-10-01 over 20 days (cutoff 2025-10-21): only Amoxicillin B010. */
  lemma TwentyDaysWindow()
    ensures var sorted := [Key(739539, "Amoxicillin", "B010"), Key(739580, "Paracetamol", "B002"), Key(739586, "Paracetamol", "B001")];
      ExpiringWithin(sorted, Oct01, 20) == [Key(739539, "Amoxicillin", "B010")]
  {
    var sorted := [Key(739539, "Amoxicillin", "B010"), Key(739580, "Paracetamol", "B002"), Key(739586, "Paracetamol", "B001")];
    ExpiringWithinIsWindow(sorted, Oct01, 20);
    InWindowSlice(sorted, Oct01, Oct01 + 20, 0, 1);
    assert sorted[0..1] == [sorted[0]];
  }

  /** get_expiring_within(20) at startup, with today 2025-10-01. */
  method TwentyDaysAfterStartup(parse: string -> Option<int>) returns (due: seq<Key>)
    requires ParsesCalendarDates(parse) && ParsesExampleDates(parse)
    ensures due == [Key(739539, "Amoxicillin", "B010")]
  {
    var inv := new Inventory(parse);
    due := inv.GetExpiringWithin(Oct01, 20);
    StartupIndex(parse);
    TwentyDaysWindow();
  }

  /** After adding Ibuprofen B020 (2025-10-05), its batch is indexed. */
  lemma IbuprofenIndexed(parse: string -> Option<int>)
    requires ParsesExampleDates(parse)
    ensures Indexed(parse, AddOrUpdate(InitialStore(), "Ibuprofen", "B020", "2025-10-05", 30), Key(739529, "Ibuprofen", "B020"))
  {
    StripUnpadded("Ibuprofen");
    StripUnpadded("B020");
    assert Strip("Ibuprofen") == "Ibuprofen" && Strip("B020") == "B020";
    AddedBatchIndexed(parse, InitialStore(), "Ibuprofen", "B020", "2025-10-05", 30, 739529);
  }

  /** add_or_update_batch("Ibuprofen", "B020", "2025-10-05", 30), then get_expiring_within(10). */
  method IbuprofenDueInTenDays(parse: string -> Option<int>) returns (due: seq<Key>)
    requires ParsesCalendarDates(parse) && ParsesExampleDates(parse)
    ensures Key(739529, "Ibuprofen", "B020") in due
  {
    var inv := new Inventory(parse);
    inv.AddOrUpdateBatch("Ibuprofen", "B020", "2025-10-05", 30);
    due := inv.GetExpiringWithin(Oct01, 10);
    IbuprofenIndexed(parse);
    assert multiset(due)[Key(739529, "Ibuprofen", "B020")] == 1;
  }

  /**
   * delete_batch("Amoxicillin", "B010") twice: true, then false; afterwards
   * the store lists only Paracetamol.
   */
  lemma DeleteAmoxicillinTwice()
    ensures var once := Remove(InitialStore(), "Amoxicillin", "B010");
      && once.deleted && once.store.names == ["Paracetamol"] && "Amoxicillin" !in once.store.entries
      && Remove(once.store, "Amoxicillin", "B010") == Removal(once.store, false)
  {
    var s := InitialStore();
    assert s.entries["Amoxicillin"][0].batchId == "B010";
    assert WithoutBatch(s.entries["Amoxicillin"], "B010") == [];
    WithoutNameKeepsOrder(["Paracetamol"], "Amoxicillin", []);
    assert s.names == ["Paracetamol"] + ["Amoxicillin"] + [];
  }

  /** No key of the rebuilt index names Amoxicillin once its last batch is gone. */
  lemma AmoxicillinLeavesIndex(parse: string -> Option<int>)
    ensures var after := Remove(InitialStore(), "Amoxicillin", "B010").store;
      forall k :: k in SortByDate(Collect(parse, after)) ==> k.medicine != "Amoxicillin"
  {
    DeleteAmoxicillinTwice();
    var sorted := SortByDate(Collect(parse, Remove(InitialStore(), "Amoxicillin", "B010").store));
    forall k | k in sorted ensures k.medicine != "Amoxicillin" {
      assert k in multiset(sorted);
      if k.medicine == "Amoxicillin" {
        DeletedMedicineLeavesIndex(parse, InitialStore(), "Amoxicillin", "B010", k);
      }
    }
  }

  /** Paracetamol's batches after add_or_update_batch("Paracetamol", "B001", "2025-12-15", 70). */
  lemma UpdateParacetamol()
    ensures var r := AddOrUpdate(InitialStore(), "Paracetamol", "B001", "2025-12-15", 70);
      && r.names == InitialStore().names
      && "Paracetamol" in r.entries
      && r.entries["Paracetamol"] == [Batch("B001", "2025-12-15", 70), Batch("B002", "2025-11-25", 50)]
  {
    var s := InitialStore();
    var bs := s.entries["Paracetamol"];
    StripUnpadded("Paracetamol");
    StripUnpadded("B001");
    var r := AddOrUpdate(s, "Paracetamol", "B001", "2025-12-15", 70);
    assert r == Upsert(s, "Paracetamol", "B001", "2025-12-15", 70);
    assert bs[0].batchId == "B001";
    assert FindBatch(bs, "B001") == Some(0);
    var nb := r.entries["Paracetamol"];
    assert |nb| == 2 && nb[0] == Batch("B001", "2025-12-15", 70) && nb[1] == bs[1];
  }

  /** Zinc, then Aspirin, each with one batch expiring 2025-12-01. */
  function ZincThenAspirin(): Store {
    Store(["Zinc", "Aspirin"], map["Zinc" := [Batch("Z1", "2025-12-01", 5)], "Aspirin" := [Batch("A1", "2025-12-01", 5)]])
  }

  lemma ZincThenAspirinKeys(parse: string -> Option<int>)
    requires parse("2025-12-01") == Some(739586)
    ensures Collect(parse, ZincThenAspirin()) == [Key(739586, "Zinc", "Z1"), Key(739586, "Aspirin", "A1")]
  {
    var s := ZincThenAspirin();
    assert s.entries["Zinc"][..0] == [] && s.entries["Aspirin"][..0] == [];
    assert BatchKeys(parse, "Zinc", s.entries["Zinc"]) == [Key(739586, "Zinc", "Z1")];
    assert BatchKeys(parse, "Aspirin", s.entries["Aspirin"]) == [Key(739586, "Aspirin", "A1")];
    assert s.names[..1] == ["Zinc"] && s.names[..1][..0] == [];
    assert NamesKeys(parse, s.names[..1], s.entries) == [Key(739586, "Zinc", "Z1")];
  }

  /**
   * Keys of equal date stay in store order in the sorted index: the sort key
   * is the date alone, so Zinc, added first, precedes Aspirin.
   */
  lemma EqualDatesKeepStoreOrder(parse: string -> Option<int>)
    requires parse("2025-12-01") == Some(739586)
    ensures SortByDate(Collect(parse, ZincThenAspirin())) == [Key(739586, "Zinc", "Z1"), Key(739586, "Aspirin", "A1")]
  {
    ZincThenAspirinKeys(parse);
    SortSortedUnchanged([Key(739586, "Zinc", "Z1"), Key(739586, "Aspirin", "A1")]);
  }

  /** delete_batch does not strip: a padded name matches no medicine and nothing is deleted. */
  lemma DeleteDoesNotStrip()
    ensures Remove(InitialStore(), " Amoxicillin", "B010") == Removal(InitialStore(), false)
    ensures Remove(InitialStore(), "Amoxicillin", " B010") == Removal(InitialStore(), false)
  {
    var s := InitialStore();
    assert !HasBatch(s.entries["Amoxicillin"], " B010");
    RemoveNothingChangesNothing(s, "Amoxicillin", " B010");
  }
}
