/** convex/complaints.ts: who the signed-in user is, which complaints they
    may see, and changing a complaint's status. The auth layer's answers
    (`getAuthUserId`, the identity's e-mail) are inputs. */
module Complaints {
  import opened Seqs
  import opened Records
  import Store
  import StaffMembers

  /** What `getCurrentUserRole` answers. */
  datatype UserRole = UserRole(isAdmin: bool, roleId: Option<Id>, roleName: Option<string>)

  /** The identity carries a usable e-mail: `!identity?.email` is false. An
      empty string is falsy in JavaScript and counts as missing. */
  predicate HasEmail(email: Option<string>)
  {
    email.Some? && email.value != ""
  }

  /** Some admin row is linked to the authenticated user. */
  predicate AdminByUser(admins: seq<Admin>, userId: Id)
  {
    exists j :: 0 <= j < |admins| && admins[j].val.userId == Some(userId)
  }

  /** Some admin row has this e-mail address. */
  predicate AdminByEmail(admins: seq<Admin>, email: string)
  {
    exists j :: 0 <= j < |admins| && admins[j].val.email == email
  }

  /** `getCurrentUserRole`. Admins are recognised by their user id, before
      the e-mail is even looked at; anyone else is looked up among the staff
      by e-mail, and a staff member's role name comes from the role record. */
  function CurrentUserRole(userId: Option<Id>, email: Option<string>, admins: seq<Admin>,
                           staff: seq<Staff>, roles: seq<Role>): (r: Result<UserRole>)
    ensures userId.None? ==> r == Err("Not authenticated")
    ensures userId.Some? && AdminByUser(admins, userId.value) ==> r == Ok(UserRole(true, None, Some("admin")))
    ensures userId.Some? && !AdminByUser(admins, userId.value) && !HasEmail(email) ==>
      r == Err("Email not found in auth identity")
    ensures userId.Some? && !AdminByUser(admins, userId.value) && HasEmail(email) ==>
      && r.Ok? && !r.value.isAdmin
      && (StaffMembers.GetByEmail(staff, email.value).None? ==> r.value == UserRole(false, None, None))
      && (StaffMembers.GetByEmail(staff, email.value).Some? ==>
            var member := StaffMembers.GetByEmail(staff, email.value).value;
            && r.value.roleId == Some(member.val.roleId)
            && ((forall j :: 0 <= j < |roles| ==> roles[j].id != member.val.roleId) ==> r.value.roleName == None)
            && ((exists j :: 0 <= j < |roles| && roles[j].id == member.val.roleId) ==>
                  exists j :: 0 <= j < |roles| && roles[j].id == member.val.roleId
                              && r.value.roleName == Some(roles[j].val.roleName)))
  {
    if userId.None? then Err("Not authenticated")
    else if Find(admins, (a: Admin) => a.val.userId == userId).Some? then Ok(UserRole(true, None, Some("admin")))
    else if !HasEmail(email) then Err("Email not found in auth identity")
    else
      match StaffMembers.GetByEmail(staff, email.value)
      case None => Ok(UserRole(false, None, None))
      case Some(member) =>
        var roleName := match GetDoc(roles, member.val.roleId)
          case Some(role) => Some(role.val.roleName)
          case None => None;
        Ok(UserRole(false, Some(member.val.roleId), roleName))
  }

  /** An admin match decides the answer: no staff row, role record or
      e-mail can change it. */
  lemma AdminBeatsStaff(userId: Id, admins: seq<Admin>, e1: Option<string>, s1: seq<Staff>, r1: seq<Role>,
                        e2: Option<string>, s2: seq<Staff>, r2: seq<Role>)
    requires AdminByUser(admins, userId)
    ensures CurrentUserRole(Some(userId), e1, admins, s1, r1) == CurrentUserRole(Some(userId), e2, admins, s2, r2)
    ensures CurrentUserRole(Some(userId), e1, admins, s1, r1).Ok?
  {
  }

  /** The complaint is the subject of an issue assigned to `roleName`. */
  ghost predicate AssignedTo(c: Complaint, issues: seq<Issue>, roleName: string)
  {
    exists i :: 0 <= i < |issues| && issues[i].val.assignedTo == roleName && issues[i].val.complaintId == c.id
  }

  /** The name of the role of the first staff row with this e-mail, when both
      the row and its role record exist. */
  function StaffRoleName(staff: seq<Staff>, roles: seq<Role>, email: string): (r: Option<string>)
    ensures r.Some? ==> StaffMembers.GetByEmail(staff, email).Some?
    ensures r.Some? ==> exists j :: 0 <= j < |roles| && roles[j].id == StaffMembers.GetByEmail(staff, email).value.val.roleId
                                    && roles[j].val.roleName == r.value
    ensures r.None? ==>
      || StaffMembers.GetByEmail(staff, email).None?
      || forall j :: 0 <= j < |roles| ==> roles[j].id != StaffMembers.GetByEmail(staff, email).value.val.roleId
  {
    match StaffMembers.GetByEmail(staff, email)
    case None => None
    case Some(member) =>
      match GetDoc(roles, member.val.roleId)
      case None => None
      case Some(role) => Some(role.val.roleName)
  }

  /** `getComplaintsForUser`. Nobody signed in, or no e-mail: nothing. An
      admin (recognised here by e-mail) sees every complaint. A staff member
      sees the complaints some issue assigns to their role's name, in table
      order. Anyone else sees nothing. */
  function ComplaintsForUser(userId: Option<Id>, email: Option<string>, admins: seq<Admin>,
                             complaints: seq<Complaint>, staff: seq<Staff>, roles: seq<Role>,
                             issues: seq<Issue>): (r: seq<Complaint>)
    ensures IsSubsequence(r, complaints)
    ensures userId.None? || !HasEmail(email) ==> r == []
    ensures userId.Some? && HasEmail(email) && AdminByEmail(admins, email.value) ==> r == complaints
    ensures userId.Some? && HasEmail(email) && !AdminByEmail(admins, email.value) ==>
      match StaffRoleName(staff, roles, email.value)
      case None => r == []
      case Some(roleName) =>
        && (forall j :: 0 <= j < |r| ==> r[j] in complaints && AssignedTo(r[j], issues, roleName))
        && (forall j :: 0 <= j < |complaints| && AssignedTo(complaints[j], issues, roleName) ==> complaints[j] in r)
  {
    if userId.None? || !HasEmail(email) then []
    else if AdminByEmail(admins, email.value) then
      IsSubsequenceOfSelf(complaints);
      complaints
    else
      match StaffRoleName(staff, roles, email.value)
      case None => []
      case Some(roleName) =>
        var allowed := set i | i in issues && i.val.assignedTo == roleName :: i.val.complaintId;
        var r := Filter(complaints, (c: Complaint) => c.id in allowed);
        AllowedIsAssigned(issues, roleName, allowed);
        r
  }

  /** The set of complaint ids the handler builds holds exactly the ids of
      complaints assigned to `roleName`. */
  lemma AllowedIsAssigned(issues: seq<Issue>, roleName: string, allowed: set<Id>)
    requires allowed == set i | i in issues && i.val.assignedTo == roleName :: i.val.complaintId
    ensures forall c: Complaint :: c.id in allowed <==> AssignedTo(c, issues, roleName)
  {
    forall c: Complaint | AssignedTo(c, issues, roleName)
      ensures c.id in allowed
    {
      var i :| 0 <= i < |issues| && issues[i].val.assignedTo == roleName && issues[i].val.complaintId == c.id;
      assert issues[i] in issues;
    }
  }

  /** The two handlers recognise admins differently: an admin row that
      carries the caller's e-mail but not their user id shows the caller
      every complaint, while the role query ranks them as non-admin. */
  lemma AdminRecognitionDiffers(userId: Id, email: string, admins: seq<Admin>, complaints: seq<Complaint>,
                                staff: seq<Staff>, roles: seq<Role>, issues: seq<Issue>)
    requires email != "" && AdminByEmail(admins, email) && !AdminByUser(admins, userId)
    ensures ComplaintsForUser(Some(userId), Some(email), admins, complaints, staff, roles, issues) == complaints
    ensures CurrentUserRole(Some(userId), Some(email), admins, staff, roles).Ok?
    ensures !CurrentUserRole(Some(userId), Some(email), admins, staff, roles).value.isAdmin
  {
  }

  /** The literal statuses `updateComplaintStatus` accepts. */
  datatype Status = Issued | InProgress | Completed

  function StatusText(s: Status): string
  {
    match s
    case Issued => "issued"
    case InProgress => "in_progress"
    case Completed => "completed"
  }

  /** The argument validator `v.union(v.literal("issued"), ...)`. */
  function ParseStatus(s: string): (r: Option<Status>)
    ensures r.Some? <==> s == "issued" || s == "in_progress" || s == "completed"
    ensures r.Some? ==> StatusText(r.value) == s
  {
    if s == "issued" then Some(Issued)
    else if s == "in_progress" then Some(InProgress)
    else if s == "completed" then Some(Completed)
    else None
  }

  lemma StatusRoundTrip(s: Status)
    ensures ParseStatus(StatusText(s)) == Some(s)
  {
  }

  /** Some complaint has identifier `id`. */
  predicate ComplaintExists(complaints: seq<Complaint>, id: Id)
  {
    exists j :: 0 <= j < |complaints| && complaints[j].id == id
  }

  /** The complaint table once complaint `id` has status `status`. */
  function WithStatus(complaints: seq<Complaint>, id: Id, status: string): seq<Complaint>
    requires ComplaintExists(complaints, id)
  {
    var k := IndexOfId(complaints, id);
    complaints[k := Doc(id, complaints[k].val.(status := status))]
  }

  /** `updateComplaintStatus`. An unknown status is refused by the argument
      validator; then the caller must be signed in; the complaint's status is
      patched (a missing complaint makes the store throw); only "completed"
      goes on to log a `resolves` row for the staff member with the caller's
      e-mail, dated `now`. Any throw rolls the whole mutation back. */
  method UpdateComplaintStatus(db: Store.Db, userId: Option<Id>, email: Option<string>,
                               complaintId: Id, status: string, now: int) returns (r: Outcome)
    requires db.Valid()
    modifies db`complaints, db`resolves, db`nextId
    ensures db.Valid()
    ensures r.Failed? ==>
      db.complaints == old(db.complaints) && db.resolves == old(db.resolves) && db.nextId == old(db.nextId)
    ensures ParseStatus(status).None? ==> r.Failed?
    ensures userId.None? ==> r.Failed?
    ensures !ComplaintExists(old(db.complaints), complaintId) ==> r.Failed?
    ensures ParseStatus(status).Some? && userId.Some? && ComplaintExists(old(db.complaints), complaintId) ==>
      if status != "completed" then
        r == Done && db.complaints == WithStatus(old(db.complaints), complaintId, status)
        && db.resolves == old(db.resolves) && db.nextId == old(db.nextId)
      else if !HasEmail(email) then
        r == Failed("No email in auth identity")
      else
        match StaffMembers.GetByEmail(db.staff, email.value)
        case None => r == Failed("Staff record not found")
        case Some(member) =>
          && r == Done
          && db.complaints == WithStatus(old(db.complaints), complaintId, status)
          && db.resolves == old(db.resolves) + [Doc(old(db.nextId), ResolveRow(complaintId, member.id, now))]
          && db.nextId == old(db.nextId) + 1
  {
    var parsed := ParseStatus(status);
    if parsed.None? {
      return Failed("ArgumentValidationError");
    }
    if userId.None? {
      return Failed("Not authenticated");
    }
    var saved := db.complaints;
    var ok := db.PatchComplaintStatus(complaintId, status);
    if !ok {
      return Failed("Update on nonexistent document");
    }
    if parsed.value != Completed {
      return Done;
    }
    if !HasEmail(email) {
      db.complaints := saved;
      return Failed("No email in auth identity");
    }
    var member := StaffMembers.GetByEmail(db.staff, email.value);
    if member.None? {
      db.complaints := saved;
      return Failed("Staff record not found");
    }
    var _ := db.InsertResolve(ResolveRow(complaintId, member.value.id, now));
    r := Done;
  }
}
