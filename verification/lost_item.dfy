/** convex/lostItem.ts: reporting a lost item and listing the lost posts. */
module LostItems {
  import opened Seqs
  import opened Records
  import Store

  /** One entry of `getAllLostPosts`: the `lost` row's id and date with the
      item and student it refers to, each null when the reference is dangling. */
  datatype LostPost = LostPost(id: Id, date: string, item: Option<LostItem>, student: Option<Student>)

  /** `createLostItemWithLost`: insert the item with status "lost", then a
      `lost` row tying it to the reporting student, dated `now` (the
      handler's clock reading); answer the new item's id. */
  method CreateLostItemWithLost(db: Store.Db, itemName: string, description: string, imageId: Option<Id>,
                                studentId: Id, now: string) returns (itemId: Id)
    requires db.Valid()
    modifies db`lostItems, db`lost, db`nextId
    ensures db.Valid()
    ensures db.lostItems == old(db.lostItems) + [Doc(itemId, LostItemRow(itemName, description, "lost", imageId))]
    ensures forall d :: d in old(db.lostItems) ==> d.id != itemId
    ensures db.lost == old(db.lost) + [Doc(itemId + 1, LostRow(studentId, itemId, now))]
    ensures forall d :: d in old(db.lost) ==> d.id != itemId + 1
    ensures db.nextId == old(db.nextId) + 2
  {
    itemId := db.InsertLostItem(LostItemRow(itemName, description, "lost", imageId));
    var _ := db.InsertLost(LostRow(studentId, itemId, now));
  }

  /** The entry `getAllLostPosts` builds for one `lost` row. */
  function PostOf(l: LostEntry, items: seq<LostItem>, students: seq<Student>): LostPost
  {
    LostPost(l.id, l.val.lostDate, GetDoc(items, l.val.itemId), GetDoc(students, l.val.studentId))
  }

  /** `getAllLostPosts`: one entry per `lost` row, in the same order. */
  function GetAllLostPosts(lost: seq<LostEntry>, items: seq<LostItem>, students: seq<Student>): (r: seq<LostPost>)
    ensures |r| == |lost|
    ensures forall i :: 0 <= i < |r| ==> r[i].id == lost[i].id && r[i].date == lost[i].val.lostDate
    ensures forall i :: 0 <= i < |r| ==>
      && (r[i].item.None? <==> forall j :: 0 <= j < |items| ==> items[j].id != lost[i].val.itemId)
      && (r[i].item.Some? ==> r[i].item.value in items && r[i].item.value.id == lost[i].val.itemId)
    ensures forall i :: 0 <= i < |r| ==>
      && (r[i].student.None? <==> forall j :: 0 <= j < |students| ==> students[j].id != lost[i].val.studentId)
      && (r[i].student.Some? ==> r[i].student.value in students && r[i].student.value.id == lost[i].val.studentId)
  {
    seq(|lost|, i requires 0 <= i < |lost| => PostOf(lost[i], items, students))
  }

  /** After `createLostItemWithLost`, the listing ends with a post showing the
      new item, with status "lost", and the reporting student's record. */
  lemma {:induction false} NewPostShowsItem(lost: seq<LostEntry>, items: seq<LostItem>, students: seq<Student>,
                                            itemId: Id, row: LostItemRow, postId: Id, studentId: Id, now: string)
    requires forall d :: d in items ==> d.id != itemId
    ensures var posts := GetAllLostPosts(lost + [Doc(postId, LostRow(studentId, itemId, now))], items + [Doc(itemId, row)], students);
      && |posts| == |lost| + 1
      && posts[|lost|].id == postId && posts[|lost|].date == now
      && posts[|lost|].item == Some(Doc(itemId, row))
      && posts[|lost|].student == GetDoc(students, studentId)
  {
    var items' := items + [Doc(itemId, row)];
    var k := IndexOfId(items', itemId);
    assert items'[|items|].id == itemId;
    assert k == |items|;
  }
}
