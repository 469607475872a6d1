/** convex/found.ts: marking a lost item as found. */
module Found {
  import opened Seqs
  import opened Records
  import Store

  /** Some `found` row refers to `itemId`. */
  predicate HasFound(found: seq<FoundEntry>, itemId: Id)
  {
    exists j :: 0 <= j < |found| && found[j].val.itemId == itemId
  }

  /** Some `lost_item` document has identifier `itemId`. */
  predicate ItemExists(items: seq<LostItem>, itemId: Id)
  {
    exists j :: 0 <= j < |items| && items[j].id == itemId
  }

  /** No item has two `found` rows. */
  ghost predicate OneFoundPerItem(found: seq<FoundEntry>)
  {
    forall i, j :: 0 <= i < j < |found| ==> found[i].val.itemId != found[j].val.itemId
  }

  /** The `lost_item` table once the item's status reads "found". */
  function MarkedFound(items: seq<LostItem>, itemId: Id): seq<LostItem>
    requires ItemExists(items, itemId)
  {
    var k := IndexOfId(items, itemId);
    items[k := Doc(itemId, items[k].val.(status := "found"))]
  }

  /** `markItemFound`: when no `found` row exists for the item, insert one with
      the given student, item and date and set the item's status to "found";
      otherwise return without writing. Patching an item that does not exist
      throws, which discards the insert too. */
  method MarkItemFound(db: Store.Db, studentId: Id, itemId: Id, foundDate: string) returns (r: Outcome)
    requires db.Valid()
    modifies db`found, db`lostItems, db`nextId
    ensures db.Valid()
    ensures HasFound(old(db.found), itemId) ==>
      r == Done && db.found == old(db.found) && db.lostItems == old(db.lostItems) && db.nextId == old(db.nextId)
    ensures !HasFound(old(db.found), itemId) && !ItemExists(old(db.lostItems), itemId) ==>
      r.Failed? && db.found == old(db.found) && db.lostItems == old(db.lostItems) && db.nextId == old(db.nextId)
    ensures !HasFound(old(db.found), itemId) && ItemExists(old(db.lostItems), itemId) ==>
      && r == Done
      && db.found == old(db.found) + [Doc(old(db.nextId), FoundRow(studentId, itemId, foundDate))]
      && db.lostItems == MarkedFound(old(db.lostItems), itemId)
      && db.nextId == old(db.nextId) + 1
    ensures r == Done ==> HasFound(db.found, itemId)
    ensures OneFoundPerItem(old(db.found)) ==> OneFoundPerItem(db.found)
  {
    // `.filter(item_id == itemId).first()`
    var first := FindIndex(db.found, (f: FoundEntry) => f.val.itemId == itemId);
    if first < |db.found| {
      assert db.found[first].val.itemId == itemId;
      return Done;
    }
    assert !HasFound(db.found, itemId);
    r := RecordFound(db, FoundRow(studentId, itemId, foundDate));
    if r == Done {
      AppendKeepsOneFound(old(db.found), db.found[|old(db.found)|]);
    }
  }

  /** The writes of `markItemFound` once no `found` row exists: insert the
      row, then patch the item's status; a missing item makes the patch throw
      and the insert is discarded with it. */
  method RecordFound(db: Store.Db, row: FoundRow) returns (r: Outcome)
    requires db.Valid()
    modifies db`found, db`lostItems, db`nextId
    ensures db.Valid()
    ensures !ItemExists(old(db.lostItems), row.itemId) ==>
      r.Failed? && db.found == old(db.found) && db.lostItems == old(db.lostItems) && db.nextId == old(db.nextId)
    ensures ItemExists(old(db.lostItems), row.itemId) ==>
      && r == Done
      && db.found == old(db.found) + [Doc(old(db.nextId), row)]
      && db.lostItems == MarkedFound(old(db.lostItems), row.itemId)
      && db.nextId == old(db.nextId) + 1
  {
    var savedFound, savedNext := db.found, db.nextId;
    var _ := db.InsertFound(row);
    var ok := db.PatchLostItemStatus(row.itemId, "found");
    if !ok {
      // the throw aborts the transaction: the inserted row is discarded
      db.found, db.nextId := savedFound, savedNext;
      assert db.lostItems == old(db.lostItems);
      return Failed("Update on nonexistent document");
    }
    assert ItemExists(old(db.lostItems), row.itemId);
    r := Done;
  }

  /** Appending a `found` row for an item that has none keeps at most one
      row per item. */
  lemma AppendKeepsOneFound(found: seq<FoundEntry>, d: FoundEntry)
    requires !HasFound(found, d.val.itemId)
    ensures HasFound(found + [d], d.val.itemId)
    ensures OneFoundPerItem(found) ==> OneFoundPerItem(found + [d])
  {
    assert (found + [d])[|found|] == d;
  }

  /** Marking the same item twice leaves the store as marking it once with
      the first call's arguments: the second call finds the first call's row
      or, when the first call threw, throws in the same way. */
  method MarkItemFoundTwice(db: Store.Db, itemId: Id, student1: Id, date1: string, student2: Id, date2: string)
    returns (r1: Outcome, r2: Outcome)
    requires db.Valid()
    modifies db`found, db`lostItems, db`nextId
    ensures db.Valid()
    ensures r2 == r1 || (r1.Failed? && r2.Failed?)
    ensures !HasFound(old(db.found), itemId) && ItemExists(old(db.lostItems), itemId) ==>
      && db.found == old(db.found) + [Doc(old(db.nextId), FoundRow(student1, itemId, date1))]
      && db.lostItems == MarkedFound(old(db.lostItems), itemId)
      && db.nextId == old(db.nextId) + 1
    ensures HasFound(old(db.found), itemId) || !ItemExists(old(db.lostItems), itemId) ==>
      db.found == old(db.found) && db.lostItems == old(db.lostItems) && db.nextId == old(db.nextId)
  {
    r1 := MarkItemFound(db, student1, itemId, date1);
    r2 := MarkItemFound(db, student2, itemId, date2);
  }
}
