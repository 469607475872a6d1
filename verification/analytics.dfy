/** convex/analytics.ts: the admin dashboard figures, computed from the
    collected tables. */
module Analytics {
  import opened Seqs
  import opened Records
  import opened Tally

  /** `complaints` of the answer: the total and the three known statuses. */
  datatype ComplaintStats = ComplaintStats(total: nat, issued: nat, inProgress: nat, completed: nat)

  /** Everything `getAnalytics` answers. */
  datatype Report = Report(
    complaints: ComplaintStats,
    totalStudents: nat, totalStaff: nat, totalHostels: nat, totalBlocks: nat, totalRooms: nat,
    staffByRole: Counter,
    mostProblematicHostel: string,
    mostCommonIssue: string)

  /** How many complaints carry exactly this status string:
      `complaints.filter(c => c.status === status).length`. */
  function CountStatus(complaints: seq<Complaint>, status: string): (r: nat)
    ensures r <= |complaints|
    ensures r == 0 <==> forall j :: 0 <= j < |complaints| ==> complaints[j].val.status != status
    ensures r == |complaints| <==> forall j :: 0 <= j < |complaints| ==> complaints[j].val.status == status
  {
    Count(complaints, (c: Complaint) => c.val.status == status)
  }

  /** Counting a status peels off the first complaint. */
  lemma CountStatusFirst(complaints: seq<Complaint>, status: string)
    requires complaints != []
    ensures CountStatus(complaints, status)
         == (if complaints[0].val.status == status then 1 else 0) + CountStatus(complaints[1..], status)
  {
  }

  /** Every complaint has one of the three statuses the dashboard knows. */
  ghost predicate KnownStatuses(complaints: seq<Complaint>)
  {
    forall j :: 0 <= j < |complaints| ==>
      complaints[j].val.status in {"issued", "in_progress", "completed"}
  }

  /** `complaintStatus`. */
  function StatusStats(complaints: seq<Complaint>): (r: ComplaintStats)
    ensures r.total == |complaints|
    ensures r.issued + r.inProgress + r.completed <= r.total
    ensures r.issued + r.inProgress + r.completed == r.total <==> KnownStatuses(complaints)
  {
    StatusCountsAddUp(complaints);
    ComplaintStats(|complaints|, CountStatus(complaints, "issued"),
                   CountStatus(complaints, "in_progress"), CountStatus(complaints, "completed"))
  }

  /** The three status counts add up to the number of complaints less those
      with any other status, so they reach the total exactly when every status
      is a known one. */
  lemma {:induction false} StatusCountsAddUp(complaints: seq<Complaint>)
    ensures var known := CountStatus(complaints, "issued") + CountStatus(complaints, "in_progress")
                       + CountStatus(complaints, "completed");
      known <= |complaints| && (known == |complaints| <==> KnownStatuses(complaints))
  {
    if complaints != [] {
      var rest := complaints[1..];
      StatusCountsAddUp(rest);
      CountStatusFirst(complaints, "issued");
      CountStatusFirst(complaints, "in_progress");
      CountStatusFirst(complaints, "completed");
      if KnownStatuses(rest) && complaints[0].val.status in {"issued", "in_progress", "completed"} {
        forall j | 0 <= j < |complaints|
          ensures complaints[j].val.status in {"issued", "in_progress", "completed"}
        {
          if j > 0 {
            assert complaints[j] == rest[j - 1];
          }
        }
      }
      if KnownStatuses(complaints) {
        forall j | 0 <= j < |rest|
          ensures rest[j].val.status in {"issued", "in_progress", "completed"}
        {
          assert rest[j] == complaints[j + 1];
        }
      }
    }
  }

  /** The complaint types, one per complaint, in table order. */
  function TypeKeys(complaints: seq<Complaint>): (r: seq<string>)
    ensures |r| == |complaints|
  {
    if complaints == [] then []
    else TypeKeys(complaints[..|complaints| - 1]) + [complaints[|complaints| - 1].val.complaintType]
  }

  /** `complaintTypeCount`: one count per complaint type. */
  method ComplaintTypeCount(complaints: seq<Complaint>) returns (c: Counter)
    ensures IsTallyOf(c, TypeKeys(complaints))
    ensures Sum(c.keys, c.counts) == |complaints|
  {
    c := Empty;
    TallyEmpty();
    var i := 0;
    while i < |complaints|
      invariant 0 <= i <= |complaints|
      invariant IsTallyOf(c, TypeKeys(complaints[..i]))
    {
      assert complaints[..i + 1][..i] == complaints[..i];
      TallyStep(c, TypeKeys(complaints[..i]), complaints[i].val.complaintType);
      c := Bump(c, complaints[i].val.complaintType);
      i := i + 1;
    }
    assert complaints[..i] == complaints;
  }

  /** The role name a staff row counts under: its role's name, or nothing
      when `role_id` matches no role. */
  function StaffRoleKey(s: Staff, roles: seq<Role>): (r: Option<string>)
    ensures r.None? <==> forall j :: 0 <= j < |roles| ==> roles[j].id != s.val.roleId
    ensures r.Some? ==> exists j :: 0 <= j < |roles| && roles[j].id == s.val.roleId && roles[j].val.roleName == r.value
  {
    match GetDoc(roles, s.val.roleId)
    case Some(role) => Some(role.val.roleName)
    case None => None
  }

  /** The role names counted, one per staff row whose role resolves. */
  function RoleKeys(staff: seq<Staff>, roles: seq<Role>): (r: seq<string>)
    ensures |r| <= |staff|
  {
    if staff == [] then []
    else
      var rest := RoleKeys(staff[..|staff| - 1], roles);
      match StaffRoleKey(staff[|staff| - 1], roles)
      case Some(k) => rest + [k]
      case None => rest
  }

  lemma RoleKeysSnoc(staff: seq<Staff>, s: Staff, roles: seq<Role>)
    ensures RoleKeys(staff + [s], roles) ==
      RoleKeys(staff, roles) + (if StaffRoleKey(s, roles).Some? then [StaffRoleKey(s, roles).value] else [])
  {
    assert (staff + [s])[..|staff|] == staff;
  }

  /** Every staff member is counted exactly when every role reference resolves. */
  lemma {:induction false} RoleKeysCountAll(staff: seq<Staff>, roles: seq<Role>)
    ensures |RoleKeys(staff, roles)| == |staff| <==>
      forall j :: 0 <= j < |staff| ==> StaffRoleKey(staff[j], roles).Some?
  {
    if staff != [] {
      var p := staff[..|staff| - 1];
      RoleKeysCountAll(p, roles);
      assert forall j :: 0 <= j < |p| ==> p[j] == staff[j];
    }
  }

  /** Counting staff row `i` extends the tally of the rows before it. */
  lemma RoleStep(c: Counter, staff: seq<Staff>, i: nat, roles: seq<Role>)
    requires i < |staff| && IsTallyOf(c, RoleKeys(staff[..i], roles))
    ensures var key := StaffRoleKey(staff[i], roles);
      IsTallyOf(if key.Some? then Bump(c, key.value) else c, RoleKeys(staff[..i + 1], roles))
  {
    assert staff[..i + 1] == staff[..i] + [staff[i]];
    RoleKeysSnoc(staff[..i], staff[i], roles);
    var key := StaffRoleKey(staff[i], roles);
    if key.Some? {
      TallyStep(c, RoleKeys(staff[..i], roles), key.value);
    }
  }

  /** `staffByRole`: staff per role name; staff whose role does not resolve
      are skipped, and roles sharing a name pool their counts. */
  method StaffByRole(staff: seq<Staff>, roles: seq<Role>) returns (c: Counter)
    ensures IsTallyOf(c, RoleKeys(staff, roles))
    ensures Sum(c.keys, c.counts) <= |staff|
  {
    c := Empty;
    TallyEmpty();
    var i := 0;
    while i < |staff|
      invariant 0 <= i <= |staff|
      invariant IsTallyOf(c, RoleKeys(staff[..i], roles))
    {
      RoleStep(c, staff, i, roles);
      var key := StaffRoleKey(staff[i], roles);
      if key.Some? {
        c := Bump(c, key.value);
      }
      i := i + 1;
    }
    assert staff[..i] == staff;
  }

  /** The references of an issue's chain line up: the issue's student lives
      in the room, which is in the block, which belongs to the hostel. */
  ghost predicate Links(issue: Issue, s: Student, rm: Room, b: Block, h: Hostel)
  {
    s.id == issue.val.studentId && rm.id == s.val.roomId && b.id == rm.val.blockId && h.id == b.val.hostelId
  }

  /** The hostel an issue counts toward: issue -> student -> room -> block
      -> hostel, each step taking the first record with the referenced id;
      nothing when any step finds none. */
  function IssueHostel(issue: Issue, students: seq<Student>, rooms: seq<Room>,
                       blocks: seq<Block>, hostels: seq<Hostel>): Option<string>
  {
    match GetDoc(students, issue.val.studentId)
    case None => None
    case Some(s) =>
      match GetDoc(rooms, s.val.roomId)
      case None => None
      case Some(rm) =>
        match GetDoc(blocks, rm.val.blockId)
        case None => None
        case Some(b) =>
          match GetDoc(hostels, b.val.hostelId)
          case None => None
          case Some(h) => Some(h.val.hostelName)
  }

  /** An issue only counts toward a hostel reached through a chain of stored
      records. */
  lemma IssueHostelSound(issue: Issue, students: seq<Student>, rooms: seq<Room>,
                         blocks: seq<Block>, hostels: seq<Hostel>)
    ensures IssueHostel(issue, students, rooms, blocks, hostels).Some? ==>
      exists s, rm, b, h :: s in students && rm in rooms && b in blocks && h in hostels
        && Links(issue, s, rm, b, h)
        && h.val.hostelName == IssueHostel(issue, students, rooms, blocks, hostels).value
  {
    if IssueHostel(issue, students, rooms, blocks, hostels).Some? {
      var s := GetDoc(students, issue.val.studentId).value;
      var rm := GetDoc(rooms, s.val.roomId).value;
      var b := GetDoc(blocks, rm.val.blockId).value;
      var h := GetDoc(hostels, b.val.hostelId).value;
      assert Links(issue, s, rm, b, h);
    }
  }

  /** With identifiers unique per table (as the store keeps them), every
      chain of stored records makes the issue count toward that chain's
      hostel. */
  lemma IssueHostelComplete(issue: Issue, students: seq<Student>, rooms: seq<Room>,
                            blocks: seq<Block>, hostels: seq<Hostel>,
                            s: Student, rm: Room, b: Block, h: Hostel)
    requires forall i, j :: 0 <= i < j < |students| ==> students[i].id != students[j].id
    requires forall i, j :: 0 <= i < j < |rooms| ==> rooms[i].id != rooms[j].id
    requires forall i, j :: 0 <= i < j < |blocks| ==> blocks[i].id != blocks[j].id
    requires forall i, j :: 0 <= i < j < |hostels| ==> hostels[i].id != hostels[j].id
    requires s in students && rm in rooms && b in blocks && h in hostels
    requires Links(issue, s, rm, b, h)
    ensures IssueHostel(issue, students, rooms, blocks, hostels) == Some(h.val.hostelName)
  {
    GetDocUnique(students, s);
    GetDocUnique(rooms, rm);
    GetDocUnique(blocks, b);
    GetDocUnique(hostels, h);
  }

  /** The hostel names counted, one per issue whose chain resolves. */
  function HostelKeys(issues: seq<Issue>, students: seq<Student>, rooms: seq<Room>,
                      blocks: seq<Block>, hostels: seq<Hostel>): (r: seq<string>)
    ensures |r| <= |issues|
  {
    if issues == [] then []
    else
      var rest := HostelKeys(issues[..|issues| - 1], students, rooms, blocks, hostels);
      match IssueHostel(issues[|issues| - 1], students, rooms, blocks, hostels)
      case Some(k) => rest + [k]
      case None => rest
  }

  lemma HostelKeysSnoc(issues: seq<Issue>, x: Issue, students: seq<Student>, rooms: seq<Room>,
                       blocks: seq<Block>, hostels: seq<Hostel>)
    ensures var k := IssueHostel(x, students, rooms, blocks, hostels);
      HostelKeys(issues + [x], students, rooms, blocks, hostels) ==
        HostelKeys(issues, students, rooms, blocks, hostels) + (if k.Some? then [k.value] else [])
  {
    assert (issues + [x])[..|issues|] == issues;
  }

  /** Counting issue `i` extends the tally of the issues before it. */
  lemma HostelStep(c: Counter, issues: seq<Issue>, i: nat, students: seq<Student>, rooms: seq<Room>,
                   blocks: seq<Block>, hostels: seq<Hostel>)
    requires i < |issues| && IsTallyOf(c, HostelKeys(issues[..i], students, rooms, blocks, hostels))
    ensures var key := IssueHostel(issues[i], students, rooms, blocks, hostels);
      IsTallyOf(if key.Some? then Bump(c, key.value) else c, HostelKeys(issues[..i + 1], students, rooms, blocks, hostels))
  {
    assert issues[..i + 1] == issues[..i] + [issues[i]];
    HostelKeysSnoc(issues[..i], issues[i], students, rooms, blocks, hostels);
    var key := IssueHostel(issues[i], students, rooms, blocks, hostels);
    if key.Some? {
      TallyStep(c, HostelKeys(issues[..i], students, rooms, blocks, hostels), key.value);
    }
  }

  /** `hostelIssueCount`: issues per hostel name, skipping issues whose chain
      of references breaks anywhere. */
  method HostelIssueCount(issues: seq<Issue>, students: seq<Student>, rooms: seq<Room>,
                          blocks: seq<Block>, hostels: seq<Hostel>) returns (c: Counter)
    ensures IsTallyOf(c, HostelKeys(issues, students, rooms, blocks, hostels))
    ensures Sum(c.keys, c.counts) <= |issues|
  {
    c := Empty;
    TallyEmpty();
    var i := 0;
    while i < |issues|
      invariant 0 <= i <= |issues|
      invariant IsTallyOf(c, HostelKeys(issues[..i], students, rooms, blocks, hostels))
    {
      HostelStep(c, issues, i, students, rooms, blocks, hostels);
      var key := IssueHostel(issues[i], students, rooms, blocks, hostels);
      if key.Some? {
        c := Bump(c, key.value);
      }
      i := i + 1;
    }
    assert issues[..i] == issues;
  }

  /** `getAnalytics`. */
  method GetAnalytics(complaints: seq<Complaint>, students: seq<Student>, staff: seq<Staff>,
                      roles: seq<Role>, hostels: seq<Hostel>, blocks: seq<Block>,
                      rooms: seq<Room>, issues: seq<Issue>) returns (r: Report)
    ensures r.complaints == StatusStats(complaints)
    ensures r.totalStudents == |students| && r.totalStaff == |staff| && r.totalHostels == |hostels|
    ensures r.totalBlocks == |blocks| && r.totalRooms == |rooms|
    ensures IsTallyOf(r.staffByRole, RoleKeys(staff, roles))
    ensures complaints == [] ==> r.mostCommonIssue == "None"
    ensures complaints != [] ==>
      && r.mostCommonIssue in TypeKeys(complaints)
      && forall t :: t in TypeKeys(complaints) ==>
           Occurrences(TypeKeys(complaints), t) <= Occurrences(TypeKeys(complaints), r.mostCommonIssue)
    ensures var hk := HostelKeys(issues, students, rooms, blocks, hostels);
      && (hk == [] ==> r.mostProblematicHostel == "None")
      && (hk != [] ==>
           && r.mostProblematicHostel in hk
           && forall h :: h in hk ==> Occurrences(hk, h) <= Occurrences(hk, r.mostProblematicHostel))
    ensures complaints != [] ==> FirstMostFrequent(TypeKeys(complaints), r.mostCommonIssue)
    ensures var hk := HostelKeys(issues, students, rooms, blocks, hostels);
      hk != [] ==> FirstMostFrequent(hk, r.mostProblematicHostel)
  {
    var types := ComplaintTypeCount(complaints);
    var mostCommonIssue := TopKey(types);
    TopKeyIsMostFrequent(types, TypeKeys(complaints));
    var byRole := StaffByRole(staff, roles);
    var byHostel := HostelIssueCount(issues, students, rooms, blocks, hostels);
    var mostProblematicHostel := TopKey(byHostel);
    TopKeyIsMostFrequent(byHostel, HostelKeys(issues, students, rooms, blocks, hostels));
    r := Report(StatusStats(complaints), |students|, |staff|, |hostels|, |blocks|, |rooms|,
                byRole, mostProblematicHostel, mostCommonIssue);
  }

  /** `k` is the first of the distinct elements of `ks`, in order of first
      appearance, that occurs most often: every element first seen before it
      occurs strictly less often. */
  ghost predicate FirstMostFrequent(ks: seq<string>, k: string)
  {
    exists i :: 0 <= i < |Distinct(ks)| && Distinct(ks)[i] == k
      && forall j :: 0 <= j < i ==> Occurrences(ks, Distinct(ks)[j]) < Occurrences(ks, k)
  }

  /** For a tally, the key `TopKey` picks is "None" when nothing was counted;
      otherwise it is a counted element occurring at least as often as any
      other, and the first such in order of first appearance. (A counted
      element may itself be the string "None".) */
  lemma TopKeyIsMostFrequent(c: Counter, ks: seq<string>)
    requires IsTallyOf(c, ks)
    ensures ks == [] ==> TopKey(c) == "None"
    ensures ks != [] ==> TopKey(c) in ks
    ensures ks != [] ==> forall k :: k in ks ==> Occurrences(ks, k) <= Occurrences(ks, TopKey(c))
    ensures ks != [] ==> FirstMostFrequent(ks, TopKey(c))
  {
    DistinctElements(ks);
    if ks != [] {
      var top := TopKey(c);
      forall k | k in ks
        ensures Occurrences(ks, k) <= Occurrences(ks, top)
      {
        assert k in c.keys;
        assert Get(c, k) == c.counts[k];
      }
      var i := TopIndex(c.keys, c.counts);
      assert c == Counter(c.counts, c.keys);
      assert c.keys[i] == top;
      forall j | 0 <= j < i
        ensures Occurrences(ks, c.keys[j]) < Occurrences(ks, top)
      {
        assert Get(c, c.keys[j]) < Get(c, top);
      }
    }
  }
}
