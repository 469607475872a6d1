/** The document store the mutations run against: one sequence of documents
    per table, in insertion order (the order `collect()` returns), and the
    source of fresh identifiers. */
module Store {
  import opened Records

  class Db {
    var students: seq<Student>
    var rooms: seq<Room>
    var blocks: seq<Block>
    var hostels: seq<Hostel>
    var staff: seq<Staff>
    var roles: seq<Role>
    var complaints: seq<Complaint>
    var resolves: seq<Resolve>
    var issues: seq<Issue>
    var lostItems: seq<LostItem>
    var found: seq<FoundEntry>
    var lost: seq<LostEntry>
    var admins: seq<Admin>
    /** Every identifier handed out so far is below this one. */
    var nextId: nat

    /** Documents of the tables the mutations write have distinct
        identifiers, all of them already handed out. */
    ghost predicate Valid()
      reads this
    {
      && WellKeyed(students, nextId)
      && WellKeyed(staff, nextId)
      && WellKeyed(complaints, nextId)
      && WellKeyed(resolves, nextId)
      && WellKeyed(lostItems, nextId)
      && WellKeyed(found, nextId)
      && WellKeyed(lost, nextId)
    }

    constructor ()
      ensures Valid() && nextId == 0
      ensures students == [] && rooms == [] && blocks == [] && hostels == []
      ensures staff == [] && roles == [] && complaints == [] && resolves == []
      ensures issues == [] && lostItems == [] && found == [] && lost == [] && admins == []
    {
      students, rooms, blocks, hostels := [], [], [], [];
      staff, roles, complaints, resolves := [], [], [], [];
      issues, lostItems, found, lost, admins := [], [], [], [], [];
      nextId := 0;
    }

    /** `ctx.db.insert("student", row)`. */
    method InsertStudent(row: StudentRow) returns (id: Id)
      requires Valid()
      modifies this`students, this`nextId
      ensures Valid()
      ensures id == old(nextId) && nextId == old(nextId) + 1
      ensures forall d :: d in old(students) ==> d.id != id
      ensures students == old(students) + [Doc(id, row)]
    {
      id := nextId;
      students := students + [Doc(id, row)];
      nextId := nextId + 1;
    }

    /** `ctx.db.insert("management_staff", row)`. */
    method InsertStaff(row: StaffRow) returns (id: Id)
      requires Valid()
      modifies this`staff, this`nextId
      ensures Valid()
      ensures id == old(nextId) && nextId == old(nextId) + 1
      ensures forall d :: d in old(staff) ==> d.id != id
      ensures staff == old(staff) + [Doc(id, row)]
    {
      id := nextId;
      staff := staff + [Doc(id, row)];
      nextId := nextId + 1;
    }

    /** `ctx.db.insert("resolves", row)`. */
    method InsertResolve(row: ResolveRow) returns (id: Id)
      requires Valid()
      modifies this`resolves, this`nextId
      ensures Valid()
      ensures id == old(nextId) && nextId == old(nextId) + 1
      ensures forall d :: d in old(resolves) ==> d.id != id
      ensures resolves == old(resolves) + [Doc(id, row)]
    {
      id := nextId;
      resolves := resolves + [Doc(id, row)];
      nextId := nextId + 1;
    }

    /** `ctx.db.insert("lost_item", row)`. */
    method InsertLostItem(row: LostItemRow) returns (id: Id)
      requires Valid()
      modifies this`lostItems, this`nextId
      ensures Valid()
      ensures id == old(nextId) && nextId == old(nextId) + 1
      ensures forall d :: d in old(lostItems) ==> d.id != id
      ensures lostItems == old(lostItems) + [Doc(id, row)]
    {
      id := nextId;
      lostItems := lostItems + [Doc(id, row)];
      nextId := nextId + 1;
    }

    /** `ctx.db.insert("found", row)`. */
    method InsertFound(row: FoundRow) returns (id: Id)
      requires Valid()
      modifies this`found, this`nextId
      ensures Valid()
      ensures id == old(nextId) && nextId == old(nextId) + 1
      ensures forall d :: d in old(found) ==> d.id != id
      ensures found == old(found) + [Doc(id, row)]
    {
      id := nextId;
      found := found + [Doc(id, row)];
      nextId := nextId + 1;
    }

    /** `ctx.db.insert("lost", row)`. */
    method InsertLost(row: LostRow) returns (id: Id)
      requires Valid()
      modifies this`lost, this`nextId
      ensures Valid()
      ensures id == old(nextId) && nextId == old(nextId) + 1
      ensures forall d :: d in old(lost) ==> d.id != id
      ensures lost == old(lost) + [Doc(id, row)]
    {
      id := nextId;
      lost := lost + [Doc(id, row)];
      nextId := nextId + 1;
    }

    /** `ctx.db.patch(id, {status})` on a complaint; `ok` is false when no
        complaint has that identifier (the store then throws). */
    method PatchComplaintStatus(id: Id, status: string) returns (ok: bool)
      requires Valid()
      modifies this`complaints
      ensures Valid()
      ensures ok <==> exists j :: 0 <= j < |old(complaints)| && old(complaints)[j].id == id
      ensures var k := IndexOfId(old(complaints), id);
        complaints == if ok then old(complaints)[k := Doc(id, old(complaints)[k].val.(status := status))]
                      else old(complaints)
    {
      var k := IndexOfId(complaints, id);
      ok := k < |complaints|;
      if ok {
        complaints := complaints[k := Doc(id, complaints[k].val.(status := status))];
      }
    }

    /** `ctx.db.patch("lost_item", id, {status})`; `ok` is false when no item
        has that identifier (the store then throws). */
    method PatchLostItemStatus(id: Id, status: string) returns (ok: bool)
      requires Valid()
      modifies this`lostItems
      ensures Valid()
      ensures ok <==> exists j :: 0 <= j < |old(lostItems)| && old(lostItems)[j].id == id
      ensures var k := IndexOfId(old(lostItems), id);
        lostItems == if ok then old(lostItems)[k := Doc(id, old(lostItems)[k].val.(status := status))]
                     else old(lostItems)
    {
      var k := IndexOfId(lostItems, id);
      ok := k < |lostItems|;
      if ok {
        lostItems := lostItems[k := Doc(id, lostItems[k].val.(status := status))];
      }
    }
  }
}
