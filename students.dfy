/**
 * The students screen (src/pages/Students.tsx): search, department scoping,
 * the status badge, and the add / edit / delete handlers over the in-memory list.
 */
module Students {
  import opened Common
  import opened Text
  import opened Lists
  import opened Ids
  import AuthContext

  datatype StudentRecord = StudentRecord(
    id: string, name: string, email: string, studentId: string,
    department: string, year: string, portfolioStatus: string)

  /** The add form. Its password is collected but never stored in the list. */
  datatype StudentForm = StudentForm(
    name: string, email: string, studentId: string, department: string, year: string, password: string)

  const InitialStudents: seq<StudentRecord> := [
    StudentRecord("1", "John Smith", "john@college.edu", "CS2021001", "Computer Science", "3rd", "Complete"),
    StudentRecord("2", "Emily Johnson", "emily@college.edu", "CS2021002", "Computer Science", "3rd", "In Progress"),
    StudentRecord("3", "Michael Brown", "michael@college.edu", "CS2020015", "Computer Science", "4th", "Complete"),
    StudentRecord("4", "Sophia Chen", "sophia@college.edu", "CS2022030", "Computer Science", "2nd", "Not Started"),
    StudentRecord("5", "James Wilson", "james@college.edu", "CS2020022", "Computer Science", "4th", "Complete")
  ]

  const FallbackDepartment: string := "Computer Science"
  const NotStarted: string := "Not Started"

  /** `user?.department || 'Computer Science'`. */
  function DefaultDepartment(user: Option<AuthContext.User>): (d: string)
    ensures d != ""
    ensures user.Some? && user.value.department.Some? && user.value.department.value != ""
            ==> d == user.value.department.value
    ensures user.None? || user.value.department.None? || user.value.department.value == ""
            ==> d == FallbackDepartment
  {
    if user.Some? && user.value.department.Some? && user.value.department.value != "" then
      user.value.department.value
    else FallbackDepartment
  }

  /** The form as it is reset after an add. */
  function BlankForm(user: Option<AuthContext.User>): StudentForm {
    StudentForm("", "", "", DefaultDepartment(user), "", "")
  }

  /** The record `handleAddStudent` appends to a list of the given length. */
  function NewRecord(form: StudentForm, length: nat): StudentRecord {
    StudentRecord(NextIdAsWritten(length), form.name, form.email, form.studentId, form.department, form.year, NotStarted)
  }

  // ---------------------------------------------------------------------------
  // Search and department scoping

  /** The lowercased term occurs in the lowercased name, email or student id. */
  predicate MatchesSearch(s: StudentRecord, term: string) {
    var t := Lower(term);
    Contains(Lower(s.name), t) || Contains(Lower(s.email), t) || Contains(Lower(s.studentId), t)
  }

  function FilteredStudents(students: seq<StudentRecord>, term: string): seq<StudentRecord> {
    Filter(students, s => MatchesSearch(s, term))
  }

  /** `student.department === user?.department`: false when there is no user or no department. */
  predicate InUserDepartment(s: StudentRecord, user: Option<AuthContext.User>) {
    user.Some? && user.value.department == Some(s.department)
  }

  /** A super admin sees the whole search result, anyone else only their department's rows. */
  function DepartmentFilteredStudents(filtered: seq<StudentRecord>, user: Option<AuthContext.User>): seq<StudentRecord> {
    if AuthContext.IsSuperAdmin(user) then filtered else Filter(filtered, s => InUserDepartment(s, user))
  }

  /** The search keeps exactly the matching records. */
  lemma SearchKeepsMatches(students: seq<StudentRecord>, term: string, s: StudentRecord)
    ensures s in FilteredStudents(students, term) <==> s in students && MatchesSearch(s, term)
  {
  }

  /** The search keeps the list's order: it distributes over concatenation. */
  lemma SearchKeepsOrder(a: seq<StudentRecord>, b: seq<StudentRecord>, term: string)
    ensures FilteredStudents(a + b, term) == FilteredStudents(a, term) + FilteredStudents(b, term)
  {
    FilterAppend(a, b, s => MatchesSearch(s, term));
  }

  /** An empty search keeps every record. */
  lemma EmptySearchKeepsAll(students: seq<StudentRecord>)
    ensures FilteredStudents(students, "") == students
  {
    forall s | s in students ensures MatchesSearch(s, "") {
      ContainsEmpty(Lower(s.name));
    }
    FilterKeepsAll(students, s => MatchesSearch(s, ""));
  }

  /** The search ignores the case of the term. */
  lemma SearchIgnoresCase(students: seq<StudentRecord>, term: string)
    ensures FilteredStudents(students, Lower(term)) == FilteredStudents(students, term)
  {
    LowerIdempotent(term);
    FilterCongruent(students, s => MatchesSearch(s, Lower(term)), s => MatchesSearch(s, term));
  }

  /**
   * What a viewer sees is one filter of the whole list: the search alone for a
   * super admin, the search and the department for anyone else.
   */
  lemma ScopedRowsAreOneFilter(students: seq<StudentRecord>, term: string, user: Option<AuthContext.User>)
    ensures AuthContext.IsSuperAdmin(user) ==>
      DepartmentFilteredStudents(FilteredStudents(students, term), user) == FilteredStudents(students, term)
    ensures !AuthContext.IsSuperAdmin(user) ==>
      DepartmentFilteredStudents(FilteredStudents(students, term), user)
      == Filter(students, s => MatchesSearch(s, term) && InUserDepartment(s, user))
  {
    FilterFilter(students, s => MatchesSearch(s, term), s => InUserDepartment(s, user),
                 s => MatchesSearch(s, term) && InUserDepartment(s, user));
  }

  /** The table shows exactly the page's students that match the search and, unless the viewer is a super admin, their department. */
  lemma RowsAreScopedSearch(page: StudentsPage, user: Option<AuthContext.User>)
    ensures forall s :: s in page.Rows(user) <==>
      s in page.students && MatchesSearch(s, page.searchTerm)
      && (AuthContext.IsSuperAdmin(user) || InUserDepartment(s, user))
  {
    ScopedRowsAreOneFilter(page.students, page.searchTerm, user);
  }

  /** A viewer who is not a super admin sees no row from another department. */
  lemma ScopedRowsInDepartment(filtered: seq<StudentRecord>, user: Option<AuthContext.User>)
    requires !AuthContext.IsSuperAdmin(user)
    ensures forall s :: s in DepartmentFilteredStudents(filtered, user) ==>
      s in filtered && user.Some? && user.value.department == Some(s.department)
  {
  }

  /** `getStatusBadge`: "Complete" and "In Progress" keep their label, anything else reads "Not Started". */
  function StatusBadge(status: string): (badge: string)
    ensures status == "Complete" || status == "In Progress" ==> badge == status
    ensures status != "Complete" && status != "In Progress" ==> badge == NotStarted
  {
    if status == "Complete" then "Complete"
    else if status == "In Progress" then "In Progress"
    else NotStarted
  }

  // ---------------------------------------------------------------------------
  // The list and its handlers

  /** `students.map(s => s.id === selected.id ? selected : s)`. */
  function ReplaceById(students: seq<StudentRecord>, selected: StudentRecord): seq<StudentRecord> {
    ReplaceWhere(students, (s: StudentRecord) => s.id == selected.id, selected)
  }

  /** `students.filter(s => s.id !== id)`. */
  function RemoveById(students: seq<StudentRecord>, id: string): seq<StudentRecord> {
    Filter(students, (s: StudentRecord) => s.id != id)
  }

  class StudentsPage {
    var students: seq<StudentRecord>
    var searchTerm: string
    /** The row picked from a row menu, as edited in the edit dialog. */
    var currentStudent: Option<StudentRecord>
    var newStudent: StudentForm

    constructor (user: Option<AuthContext.User>)
      ensures students == InitialStudents && searchTerm == ""
      ensures currentStudent == None && newStudent == BlankForm(user)
    {
      students := InitialStudents;
      searchTerm := "";
      currentStudent := None;
      newStudent := BlankForm(user);
    }

    /** The rows the table shows. */
    function Rows(user: Option<AuthContext.User>): seq<StudentRecord>
      reads this
    {
      DepartmentFilteredStudents(FilteredStudents(students, searchTerm), user)
    }

    /** A row menu's Edit or Delete item (or an edit of a field of the selected record). */
    method Select(s: StudentRecord)
      modifies this
      ensures currentStudent == Some(s)
      ensures students == old(students) && searchTerm == old(searchTerm) && newStudent == old(newStudent)
    {
      currentStudent := Some(s);
    }

    method AddStudent(user: Option<AuthContext.User>)
      modifies this
      ensures students == old(students) + [NewRecord(old(newStudent), |old(students)|)]
      ensures newStudent == BlankForm(user)
      ensures currentStudent == old(currentStudent) && searchTerm == old(searchTerm)
    {
      var id := NextIdAsWritten(|students|);
      students := students + [StudentRecord(id, newStudent.name, newStudent.email, newStudent.studentId,
                                            newStudent.department, newStudent.year, NotStarted)];
      newStudent := BlankForm(user);
    }

    /** The add handler with the corrected id rule: it keeps the ids unique. */
    method AddStudentCorrected(user: Option<AuthContext.User>)
      modifies this
      ensures students == old(students) + [CorrectedRecord(old(newStudent), old(students))]
      ensures Unique(IdsOf(old(students))) ==> Unique(IdsOf(students))
      ensures newStudent == BlankForm(user)
      ensures currentStudent == old(currentStudent) && searchTerm == old(searchTerm)
    {
      if Unique(IdsOf(students)) {
        FreshIdKeepsStudentIdsUnique(students, newStudent);
      }
      students := students + [CorrectedRecord(newStudent, students)];
      newStudent := BlankForm(user);
    }

    method EditStudent()
      modifies this
      ensures currentStudent == old(currentStudent) && searchTerm == old(searchTerm) && newStudent == old(newStudent)
      ensures currentStudent.None? ==> students == old(students)
      ensures currentStudent.Some? ==>
        students == ReplaceById(old(students), currentStudent.value)
    {
      if currentStudent.None? {
        return;
      }
      var selected := currentStudent.value;
      students := ReplaceById(students, selected);
    }

    method DeleteStudent()
      modifies this
      ensures currentStudent == old(currentStudent) && searchTerm == old(searchTerm) && newStudent == old(newStudent)
      ensures currentStudent.None? ==> students == old(students)
      ensures currentStudent.Some? ==> students == RemoveById(old(students), currentStudent.value.id)
    {
      if currentStudent.None? {
        return;
      }
      var selected := currentStudent.value;
      students := RemoveById(students, selected.id);
    }
  }

  // ---------------------------------------------------------------------------
  // What the handlers promise

  /** Adding appends one record: the old ones stay in place, and the new one is "Not Started" with id length + 1. */
  lemma AddAppendsOne(students: seq<StudentRecord>, form: StudentForm)
    ensures var after := students + [NewRecord(form, |students|)];
      && |after| == |students| + 1
      && after[..|students|] == students
      && after[|students|].id == Decimal(|students| + 1)
      && ParseDecimal(after[|students|].id) == |students| + 1
      && after[|students|].portfolioStatus == NotStarted
  {
    assert (students + [NewRecord(form, |students|)])[..|students|] == students;
  }

  /** Editing keeps the length and touches only the records with the selected id. */
  lemma EditTouchesOnlySelected(students: seq<StudentRecord>, selected: StudentRecord)
    ensures var after := ReplaceById(students, selected);
      && |after| == |students|
      && forall i :: 0 <= i < |students| ==>
           after[i] == (if students[i].id == selected.id then selected else students[i])
  {
  }

  /** Deleting removes exactly the records with the selected id and keeps the rest. */
  lemma DeleteRemovesExactlySelected(students: seq<StudentRecord>, id: string)
    ensures var after := RemoveById(students, id);
      && (forall s :: s in after <==> s in students && s.id != id)
      && |after| + |Filter(students, (s: StudentRecord) => s.id == id)| == |students|
  {
    FilterPartition(students, (s: StudentRecord) => s.id != id, (s: StudentRecord) => s.id == id);
  }

  /** Deleting keeps the order of the rest: it distributes over concatenation. */
  lemma DeleteKeepsOrder(x: seq<StudentRecord>, y: seq<StudentRecord>, id: string)
    ensures RemoveById(x + y, id) == RemoveById(x, id) + RemoveById(y, id)
  {
    FilterAppend(x, y, (s: StudentRecord) => s.id != id);
  }

  // ---------------------------------------------------------------------------
  // Ids after a delete

  function IdsOf(students: seq<StudentRecord>): (ids: seq<string>)
    ensures |ids| == |students|
    ensures forall i :: 0 <= i < |students| ==> ids[i] == students[i].id
  {
    seq(|students|, i requires 0 <= i < |students| => students[i].id)
  }

  /** The initial list has five distinct ids, "1" to "5". */
  lemma InitialIdsUnique()
    ensures IdsOf(InitialStudents) == ["1", "2", "3", "4", "5"]
    ensures Unique(IdsOf(InitialStudents))
  {
    assert IdsOf(InitialStudents) == ["1", "2", "3", "4", "5"];
  }

  /** Deleting by an id held only by the second of five records leaves the other four, in order. */
  lemma DeleteSecondOfFive(a: StudentRecord, b: StudentRecord, c: StudentRecord, d: StudentRecord,
                           e: StudentRecord)
    requires b.id == "2" && a.id != "2" && c.id != "2" && d.id != "2" && e.id != "2"
    ensures RemoveById([a, b, c, d, e], "2") == [a, c, d, e]
  {
    var all := [a, b, c, d, e];
    assert RemoveById([e], "2") == [e] by { assert [e][1..] == []; }
    assert RemoveById([d, e], "2") == [d, e] by { assert [d, e][1..] == [e]; }
    assert RemoveById([c, d, e], "2") == [c, d, e] by { assert [c, d, e][1..] == [d, e]; }
    assert RemoveById([b, c, d, e], "2") == [c, d, e] by { assert [b, c, d, e][1..] == [c, d, e]; }
    assert all[1..] == [b, c, d, e];
  }

  /** The record added to a four-row list gets id "5". */
  lemma AddToFourGetsFive(form: StudentForm)
    ensures NewRecord(form, 4).id == "5"
  {
    assert Decimal(5) == [DigitChar(5)];
  }

  /** Five rows whose last id is "5": delete row "2", add one, and two rows share id "5". */
  lemma DeleteThenAddCollides(a: StudentRecord, b: StudentRecord, c: StudentRecord, d: StudentRecord,
                              e: StudentRecord, form: StudentForm)
    requires b.id == "2" && a.id != "2" && c.id != "2" && d.id != "2" && e.id == "5"
    ensures var afterDelete := RemoveById([a, b, c, d, e], "2");
      var afterAdd := afterDelete + [NewRecord(form, |afterDelete|)];
      && |afterDelete| == 4
      && afterAdd[4].id == afterAdd[3].id == "5"
      && !Unique(IdsOf(afterAdd))
  {
    DeleteSecondOfFive(a, b, c, d, e);
    AddToFourGetsFive(form);
    var added := NewRecord(form, 4);
    var afterAdd := [a, c, d, e] + [added];
    assert afterAdd[3] == e && afterAdd[4] == added;
    var ids := IdsOf(afterAdd);
    assert ids[3] == ids[4];
  }

  /**
   * The length-based id can repeat one in use: delete student "2" from the
   * initial list, add a student, and the new record gets id "5", which James
   * Wilson already has; a later edit or delete of either then hits both.
   */
  lemma AddAfterDeleteReusesId(form: StudentForm)
    ensures var afterDelete := RemoveById(InitialStudents, "2");
      var afterAdd := afterDelete + [NewRecord(form, |afterDelete|)];
      && |afterDelete| == 4
      && afterAdd[4].id == afterAdd[3].id == "5"
      && !Unique(IdsOf(afterAdd))
  {
    var all := InitialStudents;
    assert all == [all[0], all[1], all[2], all[3], all[4]];
    DeleteThenAddCollides(all[0], all[1], all[2], all[3], all[4], form);
  }

  /** The record an add should append: the same fields, with an id no row holds. */
  function CorrectedRecord(form: StudentForm, students: seq<StudentRecord>): (r: StudentRecord)
    ensures r.id !in IdsOf(students)
    ensures r == NewRecord(form, |students|).(id := r.id)
  {
    NewRecord(form, |students|).(id := FreshId(IdsOf(students)))
  }

  /** With the corrected rule, adding to a list with unique ids keeps them unique. */
  lemma FreshIdKeepsStudentIdsUnique(students: seq<StudentRecord>, form: StudentForm)
    requires Unique(IdsOf(students))
    ensures Unique(IdsOf(students + [CorrectedRecord(form, students)]))
  {
    var r := CorrectedRecord(form, students);
    FreshIdKeepsUnique(IdsOf(students));
    var after := students + [r];
    assert IdsOf(after) == IdsOf(students) + [FreshId(IdsOf(students))] by {
      forall i | 0 <= i < |after| ensures IdsOf(after)[i] == (IdsOf(students) + [FreshId(IdsOf(students))])[i] {
      }
    }
  }
}
