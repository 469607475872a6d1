/** convex/staff.ts: adding a staff member, the populated staff list, the
    e-mail lookup and the outcome of a staff login. */
module StaffMembers {
  import opened Seqs
  import opened Records
  import Store

  /** The fields `addStaff` receives; the stored `role` name is derived. */
  datatype StaffArgs = StaffArgs(
    hostelId: Id, roleId: Id, fname: string, lname: string, gender: string,
    phone: int, email: string, address: string, password: string)

  /** One entry of `getStaff`: every field of the staff row plus the names
      looked up through its hostel and role references. */
  datatype StaffView = StaffView(staff: Staff, hostelType: string, roleName: string)

  /** The name of the role with identifier `roleId`, or "Unknown" when the
      reference does not resolve (`roleDoc?.role_name ?? "Unknown"`). */
  function RoleNameOr(roles: seq<Role>, roleId: Id): (r: string)
    ensures (forall j :: 0 <= j < |roles| ==> roles[j].id != roleId) ==> r == "Unknown"
    ensures (exists j :: 0 <= j < |roles| && roles[j].id == roleId) ==>
      exists j :: 0 <= j < |roles| && roles[j].id == roleId && r == roles[j].val.roleName
  {
    match GetDoc(roles, roleId)
    case Some(role) => role.val.roleName
    case None => "Unknown"
  }

  /** `addStaff`: insert one `management_staff` row copying the arguments,
      with `role` set to the referenced role's name or "Unknown". */
  method AddStaff(db: Store.Db, args: StaffArgs)
    requires db.Valid()
    modifies db`staff, db`nextId
    ensures db.Valid()
    ensures db.staff == old(db.staff) + [Doc(old(db.nextId), StaffRow(
      args.hostelId, RoleNameOr(db.roles, args.roleId), args.fname, args.lname, args.gender,
      args.phone, args.email, args.address, args.roleId, args.password))]
    ensures forall d :: d in old(db.staff) ==> d.id != old(db.nextId)
    ensures db.nextId == old(db.nextId) + 1
  {
    var roleName := RoleNameOr(db.roles, args.roleId);
    var _ := db.InsertStaff(StaffRow(
      args.hostelId, roleName, args.fname, args.lname, args.gender,
      args.phone, args.email, args.address, args.roleId, args.password));
  }

  /** `getStaff`: every staff row, in order, populated with its hostel's type
      and its role's name, "Unknown" where a reference does not resolve. */
  function GetStaff(staff: seq<Staff>, hostels: seq<Hostel>, roles: seq<Role>): (r: seq<StaffView>)
    ensures |r| == |staff|
    ensures forall i :: 0 <= i < |r| ==> r[i].staff == staff[i]
    ensures forall i :: 0 <= i < |r| ==>
      && ((forall j :: 0 <= j < |hostels| ==> hostels[j].id != staff[i].val.hostelId) ==> r[i].hostelType == "Unknown")
      && ((exists j :: 0 <= j < |hostels| && hostels[j].id == staff[i].val.hostelId) ==>
            exists j :: 0 <= j < |hostels| && hostels[j].id == staff[i].val.hostelId && r[i].hostelType == hostels[j].val.hostelType)
    ensures forall i :: 0 <= i < |r| ==>
      && ((forall j :: 0 <= j < |roles| ==> roles[j].id != staff[i].val.roleId) ==> r[i].roleName == "Unknown")
      && ((exists j :: 0 <= j < |roles| && roles[j].id == staff[i].val.roleId) ==>
            exists j :: 0 <= j < |roles| && roles[j].id == staff[i].val.roleId && r[i].roleName == roles[j].val.roleName)
  {
    seq(|staff|, i requires 0 <= i < |staff| => Populate(staff[i], hostels, roles))
  }

  function Populate(s: Staff, hostels: seq<Hostel>, roles: seq<Role>): StaffView
  {
    var hostelType := match GetDoc(hostels, s.val.hostelId)
      case Some(h) => h.val.hostelType
      case None => "Unknown";
    StaffView(s, hostelType, RoleNameOr(roles, s.val.roleId))
  }

  /** `getByEmail`: the first staff row with that e-mail address, or null. */
  function GetByEmail(staff: seq<Staff>, email: string): (r: Option<Staff>)
    ensures r.None? <==> forall j :: 0 <= j < |staff| ==> staff[j].val.email != email
    ensures r.Some? ==> exists k :: 0 <= k < |staff| && r.value == staff[k] && staff[k].val.email == email
                                   && forall j :: 0 <= j < k ==> staff[j].val.email != email
  {
    var k := FindIndex(staff, (s: Staff) => s.val.email == email);
    if k < |staff| then Some(staff[k]) else None
  }

  /** `loginStaff`: look the staff member up by e-mail, then ask `compare`
      (bcrypt's comparison) only when one was found. */
  function LoginStaff(staff: seq<Staff>, email: string, password: string,
                      compare: (string, string) -> bool): (r: LoginReply)
    ensures GetByEmail(staff, email).None? ==> r == LoginReply(false, "Staff not found")
    ensures GetByEmail(staff, email).Some? ==>
      r == if compare(password, GetByEmail(staff, email).value.val.password)
           then LoginReply(true, "Staff login successful \U{2705}")
           else LoginReply(false, "Invalid password")
  {
    match GetByEmail(staff, email)
    case None => LoginReply(false, "Staff not found")
    case Some(member) =>
      if !compare(password, member.val.password) then LoginReply(false, "Invalid password")
      else LoginReply(true, "Staff login successful \U{2705}")
  }

  /** A staff login succeeds exactly when some staff row has the e-mail
      address and the first such row's stored hash matches the password. */
  lemma LoginStaffSucceedsIff(staff: seq<Staff>, email: string, password: string,
                              compare: (string, string) -> bool)
    ensures LoginStaff(staff, email, password, compare).success <==>
      exists k :: 0 <= k < |staff| && staff[k].val.email == email
                  && (forall j :: 0 <= j < k ==> staff[j].val.email != email)
                  && compare(password, staff[k].val.password)
  {
    var k := FindIndex(staff, (s: Staff) => s.val.email == email);
    if k < |staff| {
      assert staff[k].val.email == email;
      forall k' | 0 <= k' < |staff| && staff[k'].val.email == email
                  && (forall j :: 0 <= j < k' ==> staff[j].val.email != email)
        ensures k' == k
      {
      }
    }
  }

  /** An unknown e-mail address is refused whatever the comparison would say. */
  lemma LoginStaffUnknownIgnoresPassword(staff: seq<Staff>, email: string, p1: string, p2: string,
                                        c1: (string, string) -> bool, c2: (string, string) -> bool)
    requires forall j :: 0 <= j < |staff| ==> staff[j].val.email != email
    ensures LoginStaff(staff, email, p1, c1) == LoginStaff(staff, email, p2, c2)
  {
  }
}
