/** The documents of the hostel database, one row type per table of
    convex/schema.ts. A stored document is `{_id, ...fields}`; here it is a
    `Doc` pairing the id with the row's fields. Identifiers of every table are
    natural numbers; strings the application stores as text stay strings. */
module Records {
  import opened Seqs

  type Id = nat

  datatype Doc<T> = Doc(id: Id, val: T)

  datatype StudentRow = StudentRow(
    fname: string, lname: string, dateOfBirth: string, gender: string,
    deptName: string, yearOfStudy: string, phone: int, email: string,
    address: string, roomId: Id, password: string)

  datatype RoomRow = RoomRow(roomNo: string, capacity: int, blockId: Id)

  datatype BlockRow = BlockRow(blockName: string, hostelId: Id)

  datatype HostelRow = HostelRow(hostelName: string, hostelType: string)

  datatype StaffRow = StaffRow(
    hostelId: Id, role: string, fname: string, lname: string, gender: string,
    phone: int, email: string, address: string, roleId: Id, password: string)

  datatype RoleRow = RoleRow(roleName: string, permissionId: Id)

  datatype ComplaintRow = ComplaintRow(
    complaintType: string, description: string, priority: string,
    status: string, visibility: string)

  datatype ResolveRow = ResolveRow(complaintId: Id, staffId: Id, resolvedDate: int)

  datatype IssueRow = IssueRow(studentId: Id, complaintId: Id, assignedTo: string, issueDate: string)

  datatype LostItemRow = LostItemRow(itemName: string, description: string, status: string, imageId: Option<Id>)

  datatype FoundRow = FoundRow(studentId: Id, itemId: Id, foundDate: string)

  datatype LostRow = LostRow(studentId: Id, itemId: Id, lostDate: string)

  /** An admin row; `userId` links it to the auth user and is absent on rows
      that never received one. */
  datatype AdminRow = AdminRow(userId: Option<Id>, email: string)

  type Student = Doc<StudentRow>
  type Room = Doc<RoomRow>
  type Block = Doc<BlockRow>
  type Hostel = Doc<HostelRow>
  type Staff = Doc<StaffRow>
  type Role = Doc<RoleRow>
  type Complaint = Doc<ComplaintRow>
  type Resolve = Doc<ResolveRow>
  type Issue = Doc<IssueRow>
  type LostItem = Doc<LostItemRow>
  type FoundEntry = Doc<FoundRow>
  type LostEntry = Doc<LostRow>
  type Admin = Doc<AdminRow>

  /** How a mutation ended: it returned, or it threw, in which case the store
      keeps none of its writes. */
  datatype Outcome = Done | Failed(error: string)

  /** What a login action answers. */
  datatype LoginReply = LoginReply(success: bool, message: string)

  /** Position of the document with identifier `id`, or `|rows|` when there is none. */
  function IndexOfId<T>(rows: seq<Doc<T>>, id: Id): (r: nat)
    ensures r <= |rows|
    ensures r < |rows| ==> rows[r].id == id
    ensures forall j :: 0 <= j < r ==> rows[j].id != id
  {
    if rows == [] then 0
    else if rows[0].id == id then 0
    else 1 + IndexOfId(rows[1..], id)
  }

  /** `ctx.db.get(id)`: the document with that identifier, or null. */
  function GetDoc<T>(rows: seq<Doc<T>>, id: Id): (r: Option<Doc<T>>)
    ensures r.None? <==> forall j :: 0 <= j < |rows| ==> rows[j].id != id
    ensures r.Some? ==> r.value in rows && r.value.id == id
  {
    var i := IndexOfId(rows, id);
    if i < |rows| then Some(rows[i]) else None
  }

  /** Every identifier is below `bound` and no two documents share one. */
  ghost predicate WellKeyed<T>(rows: seq<Doc<T>>, bound: nat)
  {
    && (forall i :: 0 <= i < |rows| ==> rows[i].id < bound)
    && (forall i, j :: 0 <= i < j < |rows| ==> rows[i].id != rows[j].id)
  }

  /** Under unique identifiers, looking a stored document up by its id
      finds that very document. */
  lemma GetDocUnique<T>(rows: seq<Doc<T>>, d: Doc<T>)
    requires forall i, j :: 0 <= i < j < |rows| ==> rows[i].id != rows[j].id
    requires d in rows
    ensures GetDoc(rows, d.id) == Some(d)
  {
    var k :| 0 <= k < |rows| && rows[k] == d;
    var i := IndexOfId(rows, d.id);
    assert i == k;
  }
}
