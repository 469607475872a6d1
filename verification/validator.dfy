/** app/validator.ts: the field rules of the student and staff forms. A
    form's fields arrive as strings; checking a form yields the list of
    issues, field by field in schema order, each field's checks in the order
    they are chained (every check of a string field runs, so one field may
    report two issues). Lengths are JavaScript string lengths, counted in
    UTF-16 code units. */
module Validator {
  import opened Seqs

  /** The fields the two schemas check; the password field has a different
      name in each. */
  datatype Field =
    | FName | LName | DateOfBirth | Gender | DeptName | YearOfStudy
    | Phone | Email | Address | StudentPassword | StaffPassword

  /** The key a field has in the form object, reported as the issue's path. */
  function Path(f: Field): string
  {
    match f
    case FName => "fname"
    case LName => "lname"
    case DateOfBirth => "date_of_birth"
    case Gender => "gender"
    case DeptName => "dept_name"
    case YearOfStudy => "year_of_study"
    case Phone => "phone"
    case Email => "email"
    case Address => "address"
    case StudentPassword => "student_password"
    case StaffPassword => "staff_password"
  }

  /** Position of a field in the student schema's declaration order; the
      staff schema declares its fields in the same relative order. */
  function Rank(f: Field): nat
  {
    match f
    case FName => 0
    case LName => 1
    case DateOfBirth => 2
    case Gender => 3
    case DeptName => 4
    case YearOfStudy => 5
    case Phone => 6
    case Email => 7
    case Address => 8
    case StudentPassword => 9
    case StaffPassword => 9
  }

  /** One reported problem: the field, and the message the schema gives or
      `None` for the validation library's own default message. */
  datatype Issue = Issue(field: Field, message: Option<string>)

  /** Issues listed field by field in declaration order. */
  ghost predicate InFieldOrder(r: seq<Issue>)
  {
    forall i, j :: 0 <= i < j < |r| ==> Rank(r[i].field) <= Rank(r[j].field)
  }

  datatype StudentForm = StudentForm(
    fname: string, lname: string, dateOfBirth: string, gender: string,
    deptName: string, yearOfStudy: string, phone: string, email: string,
    address: string, password: string)

  datatype StaffForm = StaffForm(
    fname: string, lname: string, gender: string, phone: string,
    email: string, address: string, password: string)

  /** The JavaScript `length` of a string: characters outside the Basic
      Multilingual Plane take two UTF-16 code units. */
  function Utf16Length(s: string): (r: nat)
    ensures |s| <= r <= 2 * |s|
  {
    if s == [] then 0
    else (if s[0] as int < 0x1_0000 then 1 else 2) + Utf16Length(s[1..])
  }

  /** A string of Basic Multilingual Plane characters has as many code
      units as characters, and only such a string does. */
  lemma {:induction false} Utf16LengthIsSize(s: string)
    ensures Utf16Length(s) == |s| <==> forall i :: 0 <= i < |s| ==> s[i] as int < 0x1_0000
  {
    if s != [] {
      Utf16LengthIsSize(s[1..]);
      assert forall i :: 1 <= i < |s| ==> s[i] == s[1..][i - 1];
    }
  }

  /** `\d` of a regular expression without the `u` flag: an ASCII digit. */
  predicate IsDigit(c: char)
  {
    '0' <= c <= '9'
  }

  /** One position of a fixed-width pattern: any digit, or one literal character. */
  datatype Atom = AnyDigit | Literal(c: char)

  /** An anchored pattern made of atoms matches a string of the same width
      whose characters each match their atom. */
  function MatchesAll(p: seq<Atom>, s: string): bool
  {
    if p == [] then s == []
    else s != [] && (match p[0] case AnyDigit => IsDigit(s[0]) case Literal(c) => s[0] == c)
         && MatchesAll(p[1..], s[1..])
  }

  /** `/^\d{4}-\d{2}-\d{2}$/`. */
  const DatePattern: seq<Atom> :=
    [AnyDigit, AnyDigit, AnyDigit, AnyDigit, Literal('-'), AnyDigit, AnyDigit, Literal('-'), AnyDigit, AnyDigit]

  /** `/^\d+$/`: one digit, then any more. */
  function MatchesDigits(s: string): bool
  {
    s != [] && IsDigit(s[0]) && (|s| == 1 || MatchesDigits(s[1..]))
  }

  lemma {:induction false} MatchesAllIff(p: seq<Atom>, s: string)
    ensures MatchesAll(p, s) <==>
      |s| == |p| && forall i :: 0 <= i < |p| ==>
        match p[i] case AnyDigit => IsDigit(s[i]) case Literal(c) => s[i] == c
  {
    if p != [] && s != [] {
      MatchesAllIff(p[1..], s[1..]);
      assert forall i :: 1 <= i < |p| ==> p[i] == p[1..][i - 1];
      assert forall i :: 1 <= i < |s| ==> s[i] == s[1..][i - 1];
    }
  }

  /** A date of birth is accepted exactly when it has ten characters, a `-`
      at positions 4 and 7 and ASCII digits everywhere else. No calendar
      check is made: "2024-13-99" passes. */
  lemma DateFormatIff(s: string)
    ensures MatchesAll(DatePattern, s) <==>
      && |s| == 10 && s[4] == '-' && s[7] == '-'
      && forall i :: 0 <= i < 10 && i != 4 && i != 7 ==> IsDigit(s[i])
  {
    MatchesAllIff(DatePattern, s);
  }

  /** A phone number matches the digits pattern exactly when it is a
      non-empty string of ASCII digits. */
  lemma {:induction false} MatchesDigitsIff(s: string)
    ensures MatchesDigits(s) <==> s != [] && forall i :: 0 <= i < |s| ==> IsDigit(s[i])
  {
    if |s| > 1 {
      MatchesDigitsIff(s[1..]);
      assert forall i :: 1 <= i < |s| ==> s[i] == s[1..][i - 1];
    }
  }

  /** `.min(n, message)` on a string field. */
  function MinLength(field: Field, s: string, n: nat, message: string): (r: seq<Issue>)
    ensures r == [] <==> Utf16Length(s) >= n
    ensures r != [] ==> r == [Issue(field, Some(message))]
  {
    if Utf16Length(s) < n then [Issue(field, Some(message))] else []
  }

  /** The shared `phone` field: the digits pattern, then the exact length
      of 10; both checks run. */
  function PhoneIssues(phone: string): (r: seq<Issue>)
    ensures r == [] <==> |phone| == 10 && forall i :: 0 <= i < |phone| ==> IsDigit(phone[i])
    ensures |r| <= 2 && forall j :: 0 <= j < |r| ==> r[j].field == Phone
  {
    MatchesDigitsIff(phone);
    Utf16LengthIsSize(phone);
    (if MatchesDigits(phone) then [] else [Issue(Phone, Some("Phone must contain only digits"))])
    + (if Utf16Length(phone) == 10 then [] else [Issue(Phone, Some("Phone number must be exactly 10 digits"))])
  }

  /** `z.enum(["male", "female"])`. */
  function GenderIssues(gender: string): (r: seq<Issue>)
    ensures r == [] <==> gender == "male" || gender == "female"
  {
    if gender == "male" || gender == "female" then [] else [Issue(Gender, None)]
  }

  /** The e-mail check; what the library accepts as an address is `isEmail`. */
  function EmailIssues(email: string, isEmail: string -> bool): (r: seq<Issue>)
    ensures r == [] <==> isEmail(email)
  {
    if isEmail(email) then [] else [Issue(Email, Some("Invalid email format"))]
  }

  /** `.regex(/^\d{4}-\d{2}-\d{2}$/, message)` on the date of birth. */
  function DateIssues(date: string): (r: seq<Issue>)
    ensures r == [] <==> MatchesAll(DatePattern, date)
  {
    if MatchesAll(DatePattern, date) then []
    else [Issue(DateOfBirth, Some("Date of Birth must be in YYYY-MM-DD format"))]
  }

  /** The rule of one field, applied to that field's value; a field's rule
      is the same in both schemas. */
  function Check(field: Field, value: string, isEmail: string -> bool): (r: seq<Issue>)
    ensures |r| <= 2
    ensures forall j :: 0 <= j < |r| ==> r[j].field == field
  {
    match field
    case FName => MinLength(FName, value, 2, "First name must be at least 2 characters")
    case LName => MinLength(LName, value, 2, "Last name must be at least 2 characters")
    case DateOfBirth => DateIssues(value)
    case Gender => GenderIssues(value)
    case DeptName => MinLength(DeptName, value, 2, "Department name is required")
    case YearOfStudy => MinLength(YearOfStudy, value, 1, "Year of study is required")
    case Phone => PhoneIssues(value)
    case Email => EmailIssues(value, isEmail)
    case Address => MinLength(Address, value, 5, "Address must be at least 5 characters")
    case StudentPassword => MinLength(StudentPassword, value, 6, "Password must be at least 6 characters")
    case StaffPassword => MinLength(StaffPassword, value, 6, "Password must be at least 6 characters")
  }

  /** Parsing an object schema: each field's rule on its value, the issues
      gathered field after field. */
  function CheckAll(fields: seq<Field>, values: seq<string>, isEmail: string -> bool): seq<Issue>
    requires |fields| == |values|
  {
    if fields == [] then []
    else Check(fields[0], values[0], isEmail) + CheckAll(fields[1..], values[1..], isEmail)
  }

  /** Fields declared in a schema's order never decrease in rank. */
  ghost predicate Ranked(fields: seq<Field>)
  {
    forall i, j :: 0 <= i < j < |fields| ==> Rank(fields[i]) <= Rank(fields[j])
  }

  /** Ranks that never drop between neighbours never drop at all. */
  lemma {:induction false} AdjacentRanked(fields: seq<Field>)
    requires forall i :: 0 < i < |fields| ==> Rank(fields[i - 1]) <= Rank(fields[i])
    ensures Ranked(fields)
  {
    if fields != [] {
      AdjacentRanked(fields[..|fields| - 1]);
      forall i, j | 0 <= i < j < |fields|
        ensures Rank(fields[i]) <= Rank(fields[j])
      {
        if j < |fields| - 1 {
          assert fields[i] == fields[..|fields| - 1][i] && fields[j] == fields[..|fields| - 1][j];
        } else if i < j - 1 {
          assert fields[i] == fields[..|fields| - 1][i] && fields[j - 1] == fields[..|fields| - 1][j - 1];
        }
      }
    }
  }

  /** Gathering follows the declaration order: every issue names one of the
      fields, issues come in field order, and a field yields at most two. */
  lemma {:induction false} CheckAllInOrder(fields: seq<Field>, values: seq<string>, isEmail: string -> bool)
    requires |fields| == |values| && Ranked(fields)
    ensures var r := CheckAll(fields, values, isEmail);
      && |r| <= 2 * |fields|
      && (forall j :: 0 <= j < |r| ==> r[j].field in fields)
      && (fields != [] ==> forall j :: 0 <= j < |r| ==> Rank(fields[0]) <= Rank(r[j].field))
      && InFieldOrder(r)
  {
    if fields != [] {
      var head := Check(fields[0], values[0], isEmail);
      var tail := CheckAll(fields[1..], values[1..], isEmail);
      CheckAllInOrder(fields[1..], values[1..], isEmail);
      assert forall j :: 0 <= j < |tail| ==> Rank(fields[0]) <= Rank(tail[j].field) by {
        if |fields| > 1 {
          assert Rank(fields[0]) <= Rank(fields[1..][0]);
        }
      }
      var r := head + tail;
      forall j | 0 <= j < |r|
        ensures r[j].field in fields && Rank(fields[0]) <= Rank(r[j].field)
      {
        if j >= |head| {
          assert r[j] == tail[j - |head|];
        }
      }
    }
  }

  /** A schema reports nothing exactly when every field passes its rule. */
  lemma {:induction false} CheckAllEmpty(fields: seq<Field>, values: seq<string>, isEmail: string -> bool)
    requires |fields| == |values|
    ensures CheckAll(fields, values, isEmail) == [] <==>
      forall i :: 0 <= i < |fields| ==> Check(fields[i], values[i], isEmail) == []
  {
    if fields != [] {
      CheckAllEmpty(fields[1..], values[1..], isEmail);
      assert forall i :: 1 <= i < |fields| ==> fields[i] == fields[1..][i - 1] && values[i] == values[1..][i - 1];
    }
  }

  /** The fields of `studentSchema`, in declaration order. */
  const StudentFields: seq<Field> :=
    [FName, LName, DateOfBirth, Gender, DeptName, YearOfStudy, Phone, Email, Address, StudentPassword]

  /** The fields of `staffSchema`, in declaration order. */
  const StaffFields: seq<Field> :=
    [FName, LName, Gender, Phone, Email, Address, StaffPassword]

  function StudentValues(f: StudentForm): seq<string>
  {
    [f.fname, f.lname, f.dateOfBirth, f.gender, f.deptName, f.yearOfStudy, f.phone, f.email, f.address, f.password]
  }

  function StaffValues(f: StaffForm): seq<string>
  {
    [f.fname, f.lname, f.gender, f.phone, f.email, f.address, f.password]
  }

  /** `studentSchema`: the issues of a student form, field by field in
      declaration order. */
  function StudentIssues(f: StudentForm, isEmail: string -> bool): (r: seq<Issue>)
    ensures |r| <= 20
    ensures forall j :: 0 <= j < |r| ==> r[j].field in StudentFields
    ensures InFieldOrder(r)
  {
    AdjacentRanked(StudentFields);
    CheckAllInOrder(StudentFields, StudentValues(f), isEmail);
    CheckAll(StudentFields, StudentValues(f), isEmail)
  }

  /** `staffSchema`: the student rules without date of birth, department and
      year, and with the password under its own name. */
  function StaffIssues(f: StaffForm, isEmail: string -> bool): (r: seq<Issue>)
    ensures |r| <= 14
    ensures forall j :: 0 <= j < |r| ==> r[j].field in StaffFields
    ensures InFieldOrder(r)
  {
    AdjacentRanked(StaffFields);
    CheckAllInOrder(StaffFields, StaffValues(f), isEmail);
    CheckAll(StaffFields, StaffValues(f), isEmail)
  }

  /** What a field's rule demands of its value. */
  ghost predicate FieldOk(field: Field, v: string, isEmail: string -> bool)
  {
    match field
    case FName => Utf16Length(v) >= 2
    case LName => Utf16Length(v) >= 2
    case DateOfBirth =>
      && |v| == 10 && v[4] == '-' && v[7] == '-'
      && forall i :: 0 <= i < 10 && i != 4 && i != 7 ==> IsDigit(v[i])
    case Gender => v == "male" || v == "female"
    case DeptName => Utf16Length(v) >= 2
    case YearOfStudy => v != []
    case Phone => |v| == 10 && forall i :: 0 <= i < 10 ==> IsDigit(v[i])
    case Email => isEmail(v)
    case Address => Utf16Length(v) >= 5
    case StudentPassword => Utf16Length(v) >= 6
    case StaffPassword => Utf16Length(v) >= 6
  }

  /** A field reports no issue exactly when its value meets the rule. */
  lemma CheckIff(field: Field, v: string, isEmail: string -> bool)
    ensures Check(field, v, isEmail) == [] <==> FieldOk(field, v, isEmail)
  {
    if field == DateOfBirth {
      DateFormatIff(v);
    }
  }

  /** What the student form demands, field by field. */
  ghost predicate StudentValid(f: StudentForm, isEmail: string -> bool)
  {
    && FieldOk(FName, f.fname, isEmail) && FieldOk(LName, f.lname, isEmail)
    && FieldOk(DateOfBirth, f.dateOfBirth, isEmail) && FieldOk(Gender, f.gender, isEmail)
    && FieldOk(DeptName, f.deptName, isEmail) && FieldOk(YearOfStudy, f.yearOfStudy, isEmail)
    && FieldOk(Phone, f.phone, isEmail) && FieldOk(Email, f.email, isEmail)
    && FieldOk(Address, f.address, isEmail) && FieldOk(StudentPassword, f.password, isEmail)
  }

  /** What the staff form demands, field by field. */
  ghost predicate StaffValid(f: StaffForm, isEmail: string -> bool)
  {
    && FieldOk(FName, f.fname, isEmail) && FieldOk(LName, f.lname, isEmail)
    && FieldOk(Gender, f.gender, isEmail) && FieldOk(Phone, f.phone, isEmail)
    && FieldOk(Email, f.email, isEmail) && FieldOk(Address, f.address, isEmail)
    && FieldOk(StaffPassword, f.password, isEmail)
  }

  /** Every field of a schema meets its rule. */
  ghost predicate AllOk(fields: seq<Field>, values: seq<string>, isEmail: string -> bool)
    requires |fields| == |values|
  {
    forall i :: 0 <= i < |fields| ==> FieldOk(fields[i], values[i], isEmail)
  }

  /** A schema reports nothing exactly when every field meets its rule. */
  lemma CheckAllEmptyIff(fields: seq<Field>, values: seq<string>, isEmail: string -> bool)
    requires |fields| == |values|
    ensures CheckAll(fields, values, isEmail) == [] <==> AllOk(fields, values, isEmail)
  {
    CheckAllEmpty(fields, values, isEmail);
    forall i | 0 <= i < |fields|
      ensures Check(fields[i], values[i], isEmail) == [] <==> FieldOk(fields[i], values[i], isEmail)
    {
      CheckIff(fields[i], values[i], isEmail);
    }
  }

  /** The student rules, read off the schema's field list. */
  lemma StudentAllOk(f: StudentForm, isEmail: string -> bool)
    ensures AllOk(StudentFields, StudentValues(f), isEmail) <==> StudentValid(f, isEmail)
  {
    var fs, vs := StudentFields, StudentValues(f);
    if AllOk(fs, vs, isEmail) {
      assert FieldOk(fs[0], vs[0], isEmail) && FieldOk(fs[1], vs[1], isEmail) && FieldOk(fs[2], vs[2], isEmail);
      assert FieldOk(fs[3], vs[3], isEmail) && FieldOk(fs[4], vs[4], isEmail) && FieldOk(fs[5], vs[5], isEmail);
      assert FieldOk(fs[6], vs[6], isEmail) && FieldOk(fs[7], vs[7], isEmail) && FieldOk(fs[8], vs[8], isEmail);
      assert FieldOk(fs[9], vs[9], isEmail);
    }
    if StudentValid(f, isEmail) {
      forall i | 0 <= i < |fs|
        ensures FieldOk(fs[i], vs[i], isEmail)
      {
        assert i == 0 || i == 1 || i == 2 || i == 3 || i == 4 || i == 5 || i == 6 || i == 7 || i == 8 || i == 9;
      }
    }
  }

  /** A student form parses exactly when it meets every rule. */
  lemma StudentIssuesEmptyIff(f: StudentForm, isEmail: string -> bool)
    ensures StudentIssues(f, isEmail) == [] <==> StudentValid(f, isEmail)
  {
    CheckAllEmptyIff(StudentFields, StudentValues(f), isEmail);
    StudentAllOk(f, isEmail);
  }

  /** The staff rules, read off the schema's field list. */
  lemma StaffAllOk(f: StaffForm, isEmail: string -> bool)
    ensures AllOk(StaffFields, StaffValues(f), isEmail) <==> StaffValid(f, isEmail)
  {
    var fs, vs := StaffFields, StaffValues(f);
    if AllOk(fs, vs, isEmail) {
      assert FieldOk(fs[0], vs[0], isEmail) && FieldOk(fs[1], vs[1], isEmail) && FieldOk(fs[2], vs[2], isEmail);
      assert FieldOk(fs[3], vs[3], isEmail) && FieldOk(fs[4], vs[4], isEmail) && FieldOk(fs[5], vs[5], isEmail);
      assert FieldOk(fs[6], vs[6], isEmail);
    }
    if StaffValid(f, isEmail) {
      forall i | 0 <= i < |fs|
        ensures FieldOk(fs[i], vs[i], isEmail)
      {
        assert i == 0 || i == 1 || i == 2 || i == 3 || i == 4 || i == 5 || i == 6;
      }
    }
  }

  /** A staff form parses exactly when it meets every rule. */
  lemma StaffIssuesEmptyIff(f: StaffForm, isEmail: string -> bool)
    ensures StaffIssues(f, isEmail) == [] <==> StaffValid(f, isEmail)
  {
    CheckAllEmptyIff(StaffFields, StaffValues(f), isEmail);
    StaffAllOk(f, isEmail);
  }

  /** The staff part of a student form: the fields both schemas share. */
  function StaffPart(f: StudentForm): StaffForm
  {
    StaffForm(f.fname, f.lname, f.gender, f.phone, f.email, f.address, f.password)
  }

  /** The shared fields obey the same rules in both schemas, so a valid
      student form's shared fields make a valid staff form. */
  lemma StudentRulesCoverStaff(f: StudentForm, isEmail: string -> bool)
    requires StudentIssues(f, isEmail) == []
    ensures StaffIssues(StaffPart(f), isEmail) == []
  {
    StudentIssuesEmptyIff(f, isEmail);
    StaffIssuesEmptyIff(StaffPart(f), isEmail);
  }
}
