/** convex/students.ts: adding a student, the room and e-mail lookups, and
    the outcome of a student login. */
module Students {
  import opened Seqs
  import opened Records
  import Store

  /** `addStudent`: insert the student exactly as given, in the given room.
      Nothing is checked: neither the room's capacity nor the hostel's gender
      policy, so the room's occupancy grows by one whatever its capacity. */
  method AddStudent(db: Store.Db, args: StudentRow)
    requires db.Valid()
    modifies db`students, db`nextId
    ensures db.Valid()
    ensures db.students == old(db.students) + [Doc(old(db.nextId), args)]
    ensures db.nextId == old(db.nextId) + 1
    ensures forall d :: d in old(db.students) ==> d.id != old(db.nextId)
    ensures |GetStudentsByRoom(db.students, args.roomId)| == |GetStudentsByRoom(old(db.students), args.roomId)| + 1
  {
    var _ := db.InsertStudent(args);
    FilterSnoc(old(db.students), Doc(old(db.nextId), args), (s: Student) => s.val.roomId == args.roomId);
  }

  /** `getStudentsByRoom`: the students whose room is `roomId`, in table order. */
  function GetStudentsByRoom(students: seq<Student>, roomId: Id): (r: seq<Student>)
    ensures IsSubsequence(r, students)
    ensures forall j :: 0 <= j < |r| ==> r[j] in students && r[j].val.roomId == roomId
    ensures forall j :: 0 <= j < |students| && students[j].val.roomId == roomId ==> students[j] in r
  {
    Filter(students, (s: Student) => s.val.roomId == roomId)
  }

  /** `getByEmail`: the first student with that e-mail address, or null. */
  function GetByEmail(students: seq<Student>, email: string): (r: Option<Student>)
    ensures r.None? <==> forall j :: 0 <= j < |students| ==> students[j].val.email != email
    ensures r.Some? ==> exists k :: 0 <= k < |students| && r.value == students[k] && students[k].val.email == email
                                   && forall j :: 0 <= j < k ==> students[j].val.email != email
  {
    var k := FindIndex(students, (s: Student) => s.val.email == email);
    if k < |students| then Some(students[k]) else None
  }

  /** `loginStudent`: look the student up by e-mail, then ask `compare`
      (bcrypt's comparison of the password with the stored hash) only when
      one was found. The success message is the one the source shows. */
  function LoginStudent(students: seq<Student>, email: string, password: string,
                        compare: (string, string) -> bool): (r: LoginReply)
    ensures GetByEmail(students, email).None? ==> r == LoginReply(false, "student not found")
    ensures GetByEmail(students, email).Some? ==>
      r == if compare(password, GetByEmail(students, email).value.val.password)
           then LoginReply(true, "Staff login successful \U{2705}")
           else LoginReply(false, "Invalid password")
  {
    match GetByEmail(students, email)
    case None => LoginReply(false, "student not found")
    case Some(student) =>
      if !compare(password, student.val.password) then LoginReply(false, "Invalid password")
      else LoginReply(true, "Staff login successful \U{2705}")
  }

  /** A login succeeds exactly when some student has the e-mail address and
      the first such student's stored hash matches the password. */
  lemma LoginStudentSucceedsIff(students: seq<Student>, email: string, password: string,
                                compare: (string, string) -> bool)
    ensures LoginStudent(students, email, password, compare).success <==>
      exists k :: 0 <= k < |students| && students[k].val.email == email
                  && (forall j :: 0 <= j < k ==> students[j].val.email != email)
                  && compare(password, students[k].val.password)
  {
    var k := FindIndex(students, (s: Student) => s.val.email == email);
    if k < |students| {
      assert students[k].val.email == email;
      forall k' | 0 <= k' < |students| && students[k'].val.email == email
                  && (forall j :: 0 <= j < k' ==> students[j].val.email != email)
        ensures k' == k
      {
      }
    }
  }

  /** An unknown e-mail address is refused the same way whatever the
      password comparison would say: the comparison is never consulted. */
  lemma LoginStudentUnknownIgnoresPassword(students: seq<Student>, email: string, p1: string, p2: string,
                                          c1: (string, string) -> bool, c2: (string, string) -> bool)
    requires forall j :: 0 <= j < |students| ==> students[j].val.email != email
    ensures LoginStudent(students, email, p1, c1) == LoginStudent(students, email, p2, c2)
  {
  }
}
