# Hostel management core, modelled in Dafny

This project models the server-side rules of a hostel-management app built
on Convex. Students, staff, rooms, blocks and hostels are records in a
document store. Complaints are raised, assigned to a staff role through
`issues` rows, and resolved. Lost items are reported and marked found. An
admin dashboard aggregates all of it.

The model covers:

- **The document store** (`store.dfy`, module `Store`). Class `Db` holds one
  sequence of documents per table, in insertion order. A document is a
  `Doc(id, val)`; fresh identifiers come from `nextId`. Each insert and
  patch is a method whose `modifies` frame names the one table it writes,
  so nothing else can change. `Valid()` says identifiers are unique and
  already handed out. Every mutation keeps it.
- **Mutations** (`found.dfy`, `lost_item.dfy`, `students.dfy`, `staff.dfy`,
  `complaints.dfy`). Each mutation is a method over the store. A Convex
  mutation is a single transaction, so a handler that throws leaves every
  table as it was. The model snapshots the fields it touched and restores
  them on those paths, and its postconditions say the store is unchanged
  whenever the outcome is `Failed`.
- **Queries** (`getStudentsByRoom`, both `getByEmail` handlers, `getStaff`,
  `getAllLostPosts`, `getCurrentUserRole`, `getComplaintsForUser`). Each one
  is a function over the collected tables. The auth layer's answers (user
  id, identity e-mail), the bcrypt comparison and the clock are parameters.
- **The dashboard** (`analytics.dfy`). The three histograms are built by
  loops, as in the source. Each loop is proved against `Tally.IsTallyOf`:
  every key counts its occurrences, keys keep first-insertion order and the
  counts add up to the number of elements counted. The arg-max
  (`Tally.TopKey`) is the first key with a maximal count, which is what a
  stable descending sort puts first.
- **The form rules** (`validator.dfy`). These are the student and staff
  schemas: lengths in UTF-16 code units, the date and digit patterns, the
  gender enumeration, and issues listed in schema order. An issue names the
  field it concerns (`Validator.Path` gives the field's key) and carries the
  schema's message.

The handlers enforce no room-capacity or hostel-gender rule: `addStudent`
checks nothing before its insert (whatever the store's schema validation
then does is not modelled). So the model states the opposite of such a
guarantee: `Students.AddStudent` ensures that the room's occupancy grows by
one whatever the room's capacity.

## Model

| member | source | states |
|---|---|---|
| Seqs.FindIndex | convex/found.ts:11-14 | the position of the first element satisfying the predicate, or the length when none does; nothing before it satisfies it |
| Seqs.Find | convex/complaints.ts:26-28 | `find` answers nothing exactly when no element matches, otherwise the first matching element |
| Seqs.Filter | convex/complaints.ts:136-138 | `filter` keeps exactly the elements satisfying the predicate, as an order-preserving subsequence |
| Seqs.Count | convex/analytics.ts:21-23 | `filter(p).length` is at most the length, is zero iff nothing matches and is full iff everything matches |
| Seqs.CountIsFilterLength | convex/analytics.ts:21-23 | counting equals the length of the filtered list |
| Analytics.CountStatus | convex/analytics.ts:21-23 | the number of complaints with exactly that status: at most the total, zero iff none has it, the total iff all have it |
| Seqs.FilterSnoc | convex/students.ts:52-55 | filtering a list with one more row at the end adds that row exactly when it matches |
| Records.GetDoc | convex/staff.ts:55-56 | `db.get(id)` answers null exactly when no document has that id, otherwise a stored document with that id |
| Records.GetDocUnique | convex/analytics.ts:53-62 | when ids are unique, `db.get` of a stored document's id finds that very document |
| Store.Db.InsertStudent | convex/students.ts:26-39 | an insert appends exactly one document with a fresh id and the given fields, and keeps ids unique |
| Store.Db.InsertStaff | convex/staff.ts:26-41 | as above, for `management_staff` |
| Store.Db.InsertResolve | convex/complaints.ts:193-197 | as above, for `resolves` |
| Store.Db.InsertLostItem | convex/lostItem.ts:14-19 | as above, for `lost_item` |
| Store.Db.InsertFound | convex/found.ts:18-22 | as above, for `found` |
| Store.Db.InsertLost | convex/lostItem.ts:23-27 | as above, for `lost` |
| Store.Db.PatchLostItemStatus | convex/found.ts:24-26 | a patch succeeds iff the document exists and then changes only that document's status |
| Store.Db.PatchComplaintStatus | convex/complaints.ts:164-166 | as above, for complaints |
| Found.MarkItemFound | convex/found.ts:10-26 | an item that already has a `found` row: no change. Otherwise one `found` row is appended and only that item's status becomes "found". A missing item throws with no change. At most one `found` row per item is preserved |
| Found.RecordFound | convex/found.ts:18-26 | the insert followed by the patch: a missing item fails and discards the insert, otherwise one `found` row is appended and only that item's status becomes "found" |
| Found.AppendKeepsOneFound | convex/found.ts:11-22 | adding a `found` row for an item without one keeps at most one row per item |
| Found.MarkItemFoundTwice | convex/found.ts:10-26 | marking the same item twice leaves the store as one call with the first call's arguments; the second call answers as the first |
| LostItems.CreateLostItemWithLost | convex/lostItem.ts:12-30 | exactly one `lost_item` row ("lost", given name, description, image) and one `lost` row (given student, the new item's id, `now`) are appended; the answer is the new item's id |
| LostItems.GetAllLostPosts | convex/lostItem.ts:38-52 | one post per `lost` row, in order, with its id and date; item and student are the referenced documents or null exactly when the reference dangles |
| LostItems.NewPostShowsItem | convex/lostItem.ts:12-52 | after the paired insert, the listing's last post shows the new item and the reporting student |
| Students.AddStudent | convex/students.ts:25-40 | exactly one student row is appended, all fields copied, with no check; the room's occupancy grows by one |
| Students.GetStudentsByRoom | convex/students.ts:51-56 | exactly the students in that room, in table order |
| Students.GetByEmail | convex/students.ts:62-67 | the first student with that e-mail, or null exactly when there is none |
| Students.LoginStudent | convex/students.ts:78-110 | unknown e-mail gives "student not found"; otherwise the comparison's verdict gives "Invalid password" or success with the source's literal message |
| Students.LoginStudentSucceedsIff | convex/students.ts:78-110 | a login succeeds iff the first student with the e-mail exists and the password matches their hash |
| Students.LoginStudentUnknownIgnoresPassword | convex/students.ts:84-89 | for an unknown e-mail neither password nor comparison affects the answer |
| StaffMembers.RoleNameOr | convex/staff.ts:24-30 | the referenced role's name, or "Unknown" when the id resolves to no role |
| StaffMembers.AddStaff | convex/staff.ts:23-42 | exactly one staff row is appended, arguments copied and `role` set to the role's name or "Unknown" |
| StaffMembers.GetStaff | convex/staff.ts:49-67 | one entry per staff row, in order, with the row unchanged plus its hostel type and role name, each "Unknown" when the reference dangles |
| StaffMembers.GetByEmail | convex/staff.ts:73-78 | the first staff row with that e-mail, or null exactly when there is none |
| StaffMembers.LoginStaff | convex/staff.ts:89-121 | unknown e-mail gives "Staff not found"; otherwise "Invalid password" or success by the comparison's verdict |
| StaffMembers.LoginStaffSucceedsIff | convex/staff.ts:89-121 | a staff login succeeds iff the first staff row with the e-mail exists and the password matches its hash |
| StaffMembers.LoginStaffUnknownIgnoresPassword | convex/staff.ts:95-100 | for an unknown e-mail neither password nor comparison affects the answer |
| Complaints.CurrentUserRole | convex/complaints.ts:14-74 | no user: "Not authenticated". An admin row with the user id: admin, whatever else exists. Otherwise no e-mail: "Email not found in auth identity". No staff row: all null. A staff member: their role id and the role's name, or null when the role is missing |
| Complaints.AdminBeatsStaff | convex/complaints.ts:23-36 | for an admin, neither e-mail nor staff nor role records can change the answer |
| Complaints.StaffRoleName | convex/complaints.ts:113-123 | the role name of the first staff row with the e-mail, absent when that row or its role record is missing |
| Complaints.ComplaintsForUser | convex/complaints.ts:85-139 | always an ordered subsequence of all complaints. No user or e-mail: empty. An admin e-mail: all complaints. A staff member: exactly the complaints some issue assigns to their role name. Anyone else: empty |
| Complaints.AllowedIsAssigned | convex/complaints.ts:130-134 | the id set built from the issues holds exactly the ids of complaints assigned to the role |
| Complaints.AdminRecognitionDiffers | convex/complaints.ts:26-28 | an admin row with the caller's e-mail but not their user id shows every complaint while the role query answers non-admin |
| Complaints.ParseStatus | convex/complaints.ts:149-153 | only "issued", "in_progress" and "completed" are accepted, each as its own status |
| Complaints.StatusRoundTrip | convex/complaints.ts:149-153 | parsing a status's text gives the status back |
| Complaints.UpdateComplaintStatus | convex/complaints.ts:146-198 | an unknown status, no user or a missing complaint fails with no change. Other statuses only patch that complaint's status. "completed" also appends exactly one `resolves` row for the complaint and the staff member with the caller's e-mail, dated `now`, and fails with no change when the e-mail or staff row is missing |
| Tally.Bump | convex/analytics.ts:28-29 | a key's count goes up by one and every other count is unchanged |
| Tally.TallyStep | convex/analytics.ts:27-30 | counting one more element keeps the counter a tally of the elements seen: per-key occurrences, first-insertion key order, counts summing to the number of elements |
| Tally.TallyEmpty | convex/analytics.ts:26 | the empty record is the tally of nothing |
| Tally.DistinctElements | convex/analytics.ts:26-30 | the keys of a tally are exactly the elements counted, without repetition |
| Tally.TopIndex | convex/analytics.ts:32-34 | the position of a maximal count, with every earlier key strictly smaller (stable descending sort) |
| Tally.TopKey | convex/analytics.ts:32-34 | "None" for an empty record, otherwise a stored key (which may itself be the string "None") whose count is maximal |
| Tally.TopKeyIsFirstMaximum | convex/analytics.ts:32-34 | ties go to the first-inserted key |
| Analytics.StatusStats | convex/analytics.ts:19-24 | `total` is the number of complaints; the three status counts add up to at most it, exactly iff every status is one of the three |
| Analytics.StatusCountsAddUp | convex/analytics.ts:19-24 | complaints with another status count only toward the total |
| Analytics.ComplaintTypeCount | convex/analytics.ts:26-30 | the loop's record is the tally of complaint types; its values sum to the number of complaints |
| Analytics.StaffRoleKey | convex/analytics.ts:41-42 | a staff row counts under its role's name, and is skipped exactly when its role id matches no role |
| Analytics.RoleKeysCountAll | convex/analytics.ts:38-46 | every staff member is counted iff every role reference resolves |
| Analytics.StaffByRole | convex/analytics.ts:38-46 | the loop's record is the tally of resolved role names, summing to at most the staff count |
| Analytics.IssueHostelSound | convex/analytics.ts:52-66 | an issue counts toward a hostel only through stored student, room, block and hostel records that link up |
| Analytics.IssueHostelComplete | convex/analytics.ts:52-66 | with unique ids, a linked chain of stored records makes the issue count toward that chain's hostel |
| Analytics.HostelIssueCount | convex/analytics.ts:50-67 | the loop's record is the tally of resolved hostel names, summing to at most the issue count |
| Analytics.TopKeyIsMostFrequent | convex/analytics.ts:32-34 | the arg-max of a tally is "None" when nothing was counted. Otherwise it is a counted element (possibly the string "None" itself) occurring most often, and every element first seen before it occurs strictly less often |
| Analytics.GetAnalytics | convex/analytics.ts:7-84 | totals equal table sizes. `mostCommonIssue` is "None" when there are no complaints. Otherwise it is a complaint type of maximal frequency, the first such in table order of first occurrence. `mostProblematicHostel` is "None" when no issue resolves to a hostel. Otherwise it is the first-seen hostel name with most issues |
| Validator.Utf16LengthIsSize | app/validator.ts:6-8 | a string's JavaScript length equals its character count iff it has no character beyond the Basic Multilingual Plane |
| Validator.MatchesAllIff | app/validator.ts:16-19 | an anchored fixed-width pattern matches iff the widths agree and each character matches its position |
| Validator.DateFormatIff | app/validator.ts:14-19 | a date of birth is accepted iff it has 10 characters, `-` at positions 4 and 7 and ASCII digits elsewhere, with no calendar check |
| Validator.MatchesDigitsIff | app/validator.ts:32-34 | the digits pattern matches iff the string is non-empty and all ASCII digits |
| Validator.MinLength | app/validator.ts:6-8 | a minimum-length rule reports its message iff the string's JavaScript length is below the bound |
| Validator.PhoneIssues | app/validator.ts:32-35 | a phone passes iff it is exactly 10 ASCII digits; both checks run, so up to two issues |
| Validator.GenderIssues | app/validator.ts:22 | gender passes iff it is exactly "male" or "female" |
| Validator.EmailIssues | app/validator.ts:37-38 | the e-mail passes iff the library's format predicate accepts it |
| Validator.DateIssues | app/validator.ts:14-19 | the date of birth reports its message iff the anchored date pattern does not match |
| Validator.Check | app/validator.ts:5-47 | one field's chained checks report at most two issues, each naming that field |
| Validator.CheckIff | app/validator.ts:5-47 | a field reports no issue iff its value meets that field's rule (length bound, pattern, enumeration or e-mail format) |
| Validator.CheckAllInOrder | app/validator.ts:5-47 | parsing an object schema whose fields are in declaration order lists issues in field order, only for the schema's fields, at most two per field |
| Validator.CheckAllEmpty | app/validator.ts:5-47 | an object schema reports nothing iff every field reports nothing |
| Validator.CheckAllEmptyIff | app/validator.ts:5-47 | an object schema reports nothing iff every field meets its rule |
| Validator.StudentIssues | app/validator.ts:5-47 | the student form's issues name only the schema's fields, come in declaration order, at most two per field |
| Validator.StaffIssues | app/validator.ts:51-77 | the staff form's issues name only the schema's fields, come in declaration order, at most two per field |
| Validator.StudentAllOk | app/validator.ts:5-47 | the schema's field list applies exactly the student rules, field by field |
| Validator.StaffAllOk | app/validator.ts:51-77 | the schema's field list applies exactly the staff rules, field by field |
| Validator.StudentIssuesEmptyIff | app/validator.ts:5-47 | a student form has no issues iff every field meets its rule |
| Validator.StaffIssuesEmptyIff | app/validator.ts:51-77 | a staff form has no issues iff every field meets its rule |
| Validator.StudentRulesCoverStaff | app/validator.ts:51-77 | the shared fields follow the same rules in both schemas |

## Left out

- User interface pages, components and password generation are not part of this model. They are React state and forms with random numbers.
- Password hashing and comparison (bcrypt) are a foreign library. Login takes the comparison as a function parameter `compare(password, hash)`.
- The e-mail format check is defined by the validation library. It is the predicate parameter `isEmail`.
- The validation library's default message for a gender outside the enumeration is not reproduced. The model reports that issue with message `None`.
- The auth layer (`getAuthUserId`, `getUserIdentity`) becomes two optional inputs: the user id and the identity's e-mail.
- Clock readings (`Date.now()`, `new Date().toISOString()`) are inputs named `now`.
- `Promise.all` fan-out runs independent reads in parallel. It is modelled as a sequential map, which gives the same answer.
- CRUD files with no rule (hostels, blocks, rooms, roles, permissions, announcements, admin, users) are not part of this model. The same goes for HTTP file serving and generated code. Their tables appear only as store fields.
- Argument validators of handlers (`v.id`, `v.string`, `v.number`) are not modelled except the status union. Ids are natural numbers and a phone number is an unbounded integer, not a JavaScript double.
- Tally.TopKey: JavaScript objects list array-index-like keys (such as "12") before other keys whatever the insertion order. The model keeps plain insertion order, so a tie between such a key and an earlier ordinary key resolves differently.
- Tally.Bump: a key named like an `Object.prototype` member (such as "constructor") starts from an inherited value in a plain JavaScript object. The model starts every key from zero.
- Analytics.StaffByRole: the store does not constrain role names, so two roles with the same name pool their counts, as in the source.
- The store keeps unique ids only for the tables the modelled mutations write. Lemmas about other tables' joins (`Analytics.IssueHostelComplete`) take uniqueness as a precondition.
- Students.AddStudent, StaffMembers.AddStaff, LostItems.CreateLostItemWithLost: the store's write-time schema validation is not modelled. The schema (convex/schema.ts:13-24, 38-48, 84-88) declares no `student_password`, `staff_password` or `image_id` field, and these handlers write exactly those fields, so a deployed store with schema validation would reject the writes. The model's store accepts any row and these methods append it.
- Room capacity and hostel gender policy are never checked by the code, so the model states no invariant about them.
- Students.LoginStudent reports success with the literal message the staff login uses, as the source does.
- Complaints.UpdateComplaintStatus: a failing argument validator is reported as a `Failed` outcome whose message the model does not fix. The model uses its own message for the nonexistent-document error of a patch, because that text is the store's.
