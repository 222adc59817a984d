/**
 * The batch store: the `medicines` dictionary of app.py, mapping a medicine
 * name to its list of batches. A Python dict remembers the order in which its
 * keys were inserted, and that order is what the index builder iterates, so
 * the store is the key order together with the map.
 */
module BatchStore {
  import opened Wrappers
  import opened Text

  /** One lot of a medicine: {"batch_id": ..., "expiry": "YYYY-MM-DD", "qty": ...}. */
  datatype Batch = Batch(batchId: string, expiry: string, qty: int)

  /** The dictionary: `names` lists its keys in insertion order. */
  datatype Store = Store(names: seq<string>, entries: map<string, seq<Batch>>)

  predicate DistinctNames(names: seq<string>) {
    forall i, j :: 0 <= i < j < |names| ==> names[i] != names[j]
  }

  /** The key order lists each key of the map exactly once. */
  predicate KeysAgree(s: Store) {
    && DistinctNames(s.names)
    && (forall n :: n in s.names ==> n in s.entries)
    && (forall n :: n in s.entries ==> n in s.names)
  }

  predicate DistinctIds(bs: seq<Batch>) {
    forall i, j :: 0 <= i < j < |bs| ==> bs[i].batchId != bs[j].batchId
  }

  /**
   * What the store keeps true between calls: batch ids are unique within a
   * medicine, and no medicine maps to an empty list.
   */
  predicate WellFormed(s: Store) {
    && KeysAgree(s)
    && forall n :: n in s.entries ==> s.entries[n] != [] && DistinctIds(s.entries[n])
  }

  predicate HasBatch(bs: seq<Batch>, id: string) {
    exists k :: 0 <= k < |bs| && bs[k].batchId == id
  }

  /** The position of the first batch whose id is `id`, as the scan with `break` finds it. */
  function FindBatch(bs: seq<Batch>, id: string): (r: Option<nat>)
    ensures r.Some? ==> r.value < |bs| && bs[r.value].batchId == id
    ensures r.Some? ==> forall k :: 0 <= k < r.value ==> bs[k].batchId != id
    ensures r.None? <==> !HasBatch(bs, id)
  {
    if bs == [] then None
    else if bs[0].batchId == id then Some(0)
    else match FindBatch(bs[1..], id)
      case None => None
      case Some(j) => Some(j + 1)
  }

  /**
   * The store after the body of add_or_update_batch, once the names are
   * checked and stripped: the first batch with that id is overwritten in
   * place, otherwise a new batch is appended, creating the medicine if needed.
   */
  function Upsert(s: Store, name: string, id: string, expiry: string, qty: int): (r: Store)
    ensures name in r.entries
    ensures r.names == if name in s.entries then s.names else s.names + [name]
    ensures forall n :: n != name ==> (n in r.entries <==> n in s.entries)
    ensures forall n :: n != name && n in s.entries ==> r.entries[n] == s.entries[n]
    ensures name in s.entries && HasBatch(s.entries[name], id) ==>
      var bs, j := s.entries[name], FindBatch(s.entries[name], id).value;
      && |r.entries[name]| == |bs|
      && r.entries[name][j] == Batch(id, expiry, qty)
      && forall k :: 0 <= k < |bs| && k != j ==> r.entries[name][k] == bs[k]
    ensures !(name in s.entries && HasBatch(s.entries[name], id)) ==>
      r.entries[name] == (if name in s.entries then s.entries[name] else []) + [Batch(id, expiry, qty)]
  {
    var created := if name in s.entries then s else Store(s.names + [name], s.entries[name := []]);
    var bs := created.entries[name];
    match FindBatch(bs, id)
    case Some(j) => created.(entries := created.entries[name := bs[j := bs[j].(expiry := expiry, qty := qty)]])
    case None => created.(entries := created.entries[name := bs + [Batch(id, expiry, qty)]])
  }

  /**
   * add_or_update_batch on the store: nothing happens when either argument is
   * the empty string; the test comes before stripping, so a name made only of
   * whitespace is stored under the key "".
   */
  function AddOrUpdate(s: Store, medicineName: string, batchId: string, expiry: string, qty: int): (r: Store)
    ensures medicineName == [] || batchId == [] ==> r == s
    ensures medicineName != [] && batchId != [] ==>
      r == Upsert(s, Strip(medicineName), Strip(batchId), expiry, qty)
  {
    if medicineName == [] || batchId == [] then s
    else Upsert(s, Strip(medicineName), Strip(batchId), expiry, qty)
  }

  /** [b for b in bs if b["batch_id"] != id] */
  function WithoutBatch(bs: seq<Batch>, id: string): (r: seq<Batch>)
    ensures |r| <= |bs|
    ensures forall k :: 0 <= k < |r| ==> r[k].batchId != id
    ensures |r| == |bs| ==> r == bs
  {
    if bs == [] then []
    else
      var last := bs[|bs| - 1];
      assert bs == bs[..|bs| - 1] + [last];
      WithoutBatch(bs[..|bs| - 1], id) + (if last.batchId != id then [last] else [])
  }

  /** The key order after `del medicines[name]`. */
  function WithoutName(names: seq<string>, name: string): (r: seq<string>)
    ensures forall n :: n in r <==> n in names && n != name
    ensures name !in names ==> r == names
  {
    if names == [] then []
    else
      var last := names[|names| - 1];
      assert names == names[..|names| - 1] + [last];
      WithoutName(names[..|names| - 1], name) + (if last != name then [last] else [])
  }

  lemma {:induction false} WithoutNameDistinct(names: seq<string>, name: string)
    requires DistinctNames(names)
    ensures DistinctNames(WithoutName(names, name))
  {
    if names != [] {
      var p := names[..|names| - 1];
      var last := names[|names| - 1];
      WithoutNameDistinct(p, name);
      var rest := WithoutName(p, name);
      forall i | 0 <= i < |rest| ensures rest[i] != last {
        assert rest[i] in p;
        var k :| 0 <= k < |p| && p[k] == rest[i];
        assert names[k] == p[k];
      }
    }
  }

  datatype Removal = Removal(store: Store, deleted: bool)

  /**
   * delete_batch on the store: an unknown medicine is left alone; otherwise
   * every batch with that id goes, and a medicine left without batches is
   * removed from the dictionary.
   */
  function Remove(s: Store, name: string, id: string): (r: Removal)
    ensures name !in s.entries ==> r == Removal(s, false)
    ensures r.deleted <==> name in s.entries && HasBatch(s.entries[name], id)
    ensures name in r.store.entries ==>
      name in s.entries && r.store.entries[name] == WithoutBatch(s.entries[name], id) != []
    ensures name in s.entries && name !in r.store.entries ==> WithoutBatch(s.entries[name], id) == []
  {
    if name !in s.entries then Removal(s, false)
    else
      var kept := WithoutBatch(s.entries[name], id);
      var deleted := |kept| != |s.entries[name]|;
      WithoutBatchShorterIffMatch(s.entries[name], id);
      var reassigned := s.(entries := s.entries[name := kept]);
      if kept == [] then Removal(Store(WithoutName(reassigned.names, name), reassigned.entries - {name}), deleted)
      else Removal(reassigned, deleted)
  }

  // ----- properties of the operations -----

  /** delete_batch leaves every other medicine, and the order of the remaining keys, as they were. */
  lemma RemoveOthersUnchanged(s: Store, name: string, id: string)
    ensures var r := Remove(s, name, id).store;
      && (forall n :: n != name ==> (n in r.entries <==> n in s.entries))
      && (forall n :: n != name && n in s.entries ==> r.entries[n] == s.entries[n])
      && r.names == if name in s.entries && name !in r.entries then WithoutName(s.names, name) else s.names
  {
  }

  /** add_or_update_batch keeps the store well formed. */
  lemma UpsertWellFormed(s: Store, name: string, id: string, expiry: string, qty: int)
    requires WellFormed(s)
    ensures WellFormed(Upsert(s, name, id, expiry, qty))
  {
    var r := Upsert(s, name, id, expiry, qty);
    if name in s.entries {
      var bs := s.entries[name];
      var nbs := r.entries[name];
      if !HasBatch(bs, id) {
        forall i, j | 0 <= i < j < |nbs| ensures nbs[i].batchId != nbs[j].batchId {
          if j == |bs| {
            assert nbs[i] == bs[i];
          }
        }
      }
      assert DistinctIds(nbs);
    } else {
      assert name !in s.names;
      forall i, j | 0 <= i < j < |r.names| ensures r.names[i] != r.names[j] {
        if j == |s.names| {
          assert r.names[i] in s.names;
        }
      }
    }
  }

  lemma AddOrUpdateWellFormed(s: Store, medicineName: string, batchId: string, expiry: string, qty: int)
    requires WellFormed(s)
    ensures WellFormed(AddOrUpdate(s, medicineName, batchId, expiry, qty))
  {
    if medicineName != [] && batchId != [] {
      UpsertWellFormed(s, Strip(medicineName), Strip(batchId), expiry, qty);
    }
  }

  /** Calling add_or_update_batch twice with the same arguments is calling it once. */
  lemma UpsertIdempotent(s: Store, name: string, id: string, expiry: string, qty: int)
    ensures Upsert(Upsert(s, name, id, expiry, qty), name, id, expiry, qty) == Upsert(s, name, id, expiry, qty)
  {
    var once := Upsert(s, name, id, expiry, qty);
    var b := Batch(id, expiry, qty);
    var bs := once.entries[name];
    var j := FindBatch(bs, id);
    if name in s.entries && HasBatch(s.entries[name], id) {
      var j0 := FindBatch(s.entries[name], id).value;
      forall k | 0 <= k < j0 ensures bs[k].batchId != id {
        assert bs[k] == s.entries[name][k];
      }
      assert bs[j0] == b;
      assert HasBatch(bs, id);
      assert j.value == j0;
      assert bs[j0 := b] == bs;
    } else {
      assert bs[|bs| - 1] == b;
      assert HasBatch(bs, id);
      assert bs[j.value := b] == bs;
    }
    assert once.entries[name := bs] == once.entries;
  }

  lemma AddOrUpdateIdempotent(s: Store, medicineName: string, batchId: string, expiry: string, qty: int)
    ensures var once := AddOrUpdate(s, medicineName, batchId, expiry, qty);
      AddOrUpdate(once, medicineName, batchId, expiry, qty) == once
  {
    if medicineName != [] && batchId != [] {
      UpsertIdempotent(s, Strip(medicineName), Strip(batchId), expiry, qty);
    }
  }

  /** A non-empty name made only of whitespace passes the emptiness test and is stored under "". */
  lemma BlankNameStoredUnderEmptyKey(s: Store, medicineName: string, batchId: string, expiry: string, qty: int)
    requires medicineName != [] && batchId != []
    requires forall k :: 0 <= k < |medicineName| ==> IsSpace(medicineName[k])
    ensures "" in AddOrUpdate(s, medicineName, batchId, expiry, qty).entries
  {
    StripEmptyIffBlank(medicineName);
  }

  /** delete_batch keeps the store well formed: in particular no medicine is left with no batches. */
  lemma RemoveWellFormed(s: Store, name: string, id: string)
    requires WellFormed(s)
    ensures WellFormed(Remove(s, name, id).store)
  {
    var r := Remove(s, name, id).store;
    WithoutNameDistinct(s.names, name);
    if name in s.entries && name in r.entries {
      var bs := s.entries[name];
      var kept := r.entries[name];
      forall i, j | 0 <= i < j < |kept| ensures kept[i].batchId != kept[j].batchId {
        WithoutBatchKeepsDistinct(bs, id);
      }
    }
  }

  /** The list gets shorter exactly when some batch carries the id. */
  lemma {:induction false} WithoutBatchShorterIffMatch(bs: seq<Batch>, id: string)
    ensures |WithoutBatch(bs, id)| < |bs| <==> HasBatch(bs, id)
  {
    if bs != [] {
      var p, last := bs[..|bs| - 1], bs[|bs| - 1];
      WithoutBatchShorterIffMatch(p, id);
      if HasBatch(p, id) {
        var k :| 0 <= k < |p| && p[k].batchId == id;
        assert bs[k] == p[k];
      }
      if HasBatch(bs, id) && last.batchId != id {
        var k :| 0 <= k < |bs| && bs[k].batchId == id;
        assert p[k] == bs[k];
      }
    }
  }

  /** The batches kept are exactly those whose id differs. */
  lemma {:induction false} WithoutBatchMembers(bs: seq<Batch>, id: string)
    ensures forall b :: b in WithoutBatch(bs, id) <==> b in bs && b.batchId != id
  {
    if bs != [] {
      WithoutBatchMembers(bs[..|bs| - 1], id);
      assert bs == bs[..|bs| - 1] + [bs[|bs| - 1]];
    }
  }

  lemma {:induction false} WithoutBatchKeepsDistinct(bs: seq<Batch>, id: string)
    requires DistinctIds(bs)
    ensures DistinctIds(WithoutBatch(bs, id))
  {
    if bs != [] {
      var p := bs[..|bs| - 1];
      var last := bs[|bs| - 1];
      WithoutBatchKeepsDistinct(p, id);
      var rest := WithoutBatch(p, id);
      if last.batchId != id {
        WithoutBatchMembers(p, id);
        forall i | 0 <= i < |rest| ensures rest[i].batchId != last.batchId {
          assert rest[i] in p;
          var k :| 0 <= k < |p| && p[k] == rest[i];
          assert bs[k] == p[k];
        }
      }
    }
  }

  /** When nothing matched, a well-formed store is left exactly as it was. */
  lemma RemoveNothingChangesNothing(s: Store, name: string, id: string)
    requires WellFormed(s)
    requires !Remove(s, name, id).deleted
    ensures Remove(s, name, id).store == s
  {
    if name in s.entries {
      assert s.entries[name := s.entries[name]] == s.entries;
    }
  }

  /** Deleting removes every batch with that id and keeps the others in their order. */
  lemma {:induction false} WithoutBatchAppend(a: seq<Batch>, b: seq<Batch>, id: string)
    ensures WithoutBatch(a + b, id) == WithoutBatch(a, id) + WithoutBatch(b, id)
  {
    if b == [] {
      assert a + b == a;
    } else {
      var ab, p, x := a + b, b[..|b| - 1], b[|b| - 1];
      var keep := if x.batchId != id then [x] else [];
      assert ab[..|ab| - 1] == a + p;
      assert ab[|ab| - 1] == x;
      assert WithoutBatch(ab, id) == WithoutBatch(a + p, id) + keep;
      assert WithoutBatch(b, id) == WithoutBatch(p, id) + keep;
      WithoutBatchAppend(a, p, id);
    }
  }

  /** Deleting a key from a list extended by one key. */
  lemma WithoutNameSnoc(p: seq<string>, x: string, name: string)
    ensures WithoutName(p + [x], name) == WithoutName(p, name) + (if x != name then [x] else [])
  {
    var s := p + [x];
    assert s[..|s| - 1] == p;
  }

  /** Deleting a key keeps the other keys in their insertion order. */
  lemma {:induction false} WithoutNameKeepsOrder(a: seq<string>, name: string, b: seq<string>)
    requires name !in a && name !in b
    ensures WithoutName(a + [name] + b, name) == a + b
  {
    if b == [] {
      assert a + [name] + b == a + [name];
      WithoutNameSnoc(a, name, name);
    } else {
      var p, x := b[..|b| - 1], b[|b| - 1];
      assert b == p + [x];
      assert a + [name] + b == (a + [name] + p) + [x];
      WithoutNameSnoc(a + [name] + p, x, name);
      WithoutNameKeepsOrder(a, name, p);
      assert a + p + [x] == a + b;
    }
  }

}
