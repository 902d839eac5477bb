/**
 * The parent/teacher service over its in-memory fixtures, together with the
 * diagnostic override store: the two module-level maps that the guardian's
 * toggle and the student's submission write and that profile readers overlay.
 */
module ParentTeacherService {
  import opened Wrappers
  import opened ApiTypes
  import opened Seqs
  import opened StudentSlice
  import opened ParentTeacherSlice

  /** The id of the signed-in guardian the mock service writes as owner and creator. */
  const CurrentGuardianId: string := "parent-1"

  /** One entry of `diagnosticOverrides`. */
  datatype Override = Override(diagnosticEnabled: bool, hasCompletedDiagnostic: bool)

  /** `students.find(s => s.email === email)`, as an index. */
  function EmailIndex(students: seq<Student>, email: string): (i: int)
    ensures -1 <= i < |students|
    ensures i >= 0 ==> students[i].email == email && forall j :: 0 <= j < i ==> students[j].email != email
    ensures i == -1 <==> forall j :: 0 <= j < |students| ==> students[j].email != email
  {
    FirstIndex(students, (s: Student) => s.email == email)
  }

  /** No two listed students share an email address. */
  predicate UniqueEmails(students: seq<Student>)
  {
    forall i, j :: 0 <= i < j < |students| ==> students[i].email != students[j].email
  }

  /** Appending a student whose email is not yet listed keeps emails unique. */
  lemma AppendFreshEmail(students: seq<Student>, s: Student)
    requires UniqueEmails(students)
    requires EmailIndex(students, s.email) == -1
    ensures UniqueEmails(students + [s])
  {
    var r := students + [s];
    forall i, j | 0 <= i < j < |r| ensures r[i].email != r[j].email {
      if j == |students| {
        assert r[i] == students[i];
      }
    }
  }

  /**
   * The detail record as `getStudentDetail` returns it: the override's two
   * flags replace the profile's, a stored result is attached, nothing else changes.
   */
  function OverlayDetail(d: StudentDetail, o: Option<Override>, result: Option<DiagnosticResult>): (r: StudentDetail)
    ensures r.progress == d.progress && r.recentAssessments == d.recentAssessments
    ensures r.recentExerciseAttempts == d.recentExerciseAttempts
    ensures r.student.(diagnosticEnabled := d.student.diagnosticEnabled,
                       hasCompletedDiagnostic := d.student.hasCompletedDiagnostic,
                       diagnosticResult := d.student.diagnosticResult) == d.student
    ensures o.Some? ==> r.student.diagnosticEnabled == o.value.diagnosticEnabled
                        && r.student.hasCompletedDiagnostic == o.value.hasCompletedDiagnostic
    ensures o.None? ==> r.student.diagnosticEnabled == d.student.diagnosticEnabled
                        && r.student.hasCompletedDiagnostic == d.student.hasCompletedDiagnostic
    ensures r.student.diagnosticResult == if result.Some? then result else d.student.diagnosticResult
    ensures o.None? && result.None? ==> r == d
  {
    var withFlags :=
      if o.Some? then d.(student := d.student.(diagnosticEnabled := o.value.diagnosticEnabled,
                                               hasCompletedDiagnostic := o.value.hasCompletedDiagnostic))
      else d;
    if result.Some? then withFlags.(student := withFlags.student.(diagnosticResult := result))
    else withFlags
  }

  /**
   * The override `toggleDiagnostic` stores: enabling also clears completion;
   * disabling keeps the completion flag of the previous override, or else of the profile.
   */
  function ToggledOverride(enabled: bool, previous: Option<Override>, profile: Student): (o: Override)
    ensures o.diagnosticEnabled == enabled
    ensures enabled ==> !o.hasCompletedDiagnostic
    ensures !enabled && previous.Some? ==> o.hasCompletedDiagnostic == previous.value.hasCompletedDiagnostic
    ensures !enabled && previous.None? ==> o.hasCompletedDiagnostic == profile.hasCompletedDiagnostic
  {
    Override(enabled, if enabled then false
                      else if previous.Some? then previous.value.hasCompletedDiagnostic
                      else profile.hasCompletedDiagnostic)
  }

  /** The message `toggleDiagnostic` answers with. */
  function ToggleMessage(enabled: bool): string
  {
    if enabled then "Diagnostic enabled. Student will be prompted on next login."
    else "Diagnostic disabled."
  }

  /** `updateStudent`'s spread: the four edited fields and the timestamp are replaced. */
  function EditedStudent(s: Student, firstName: string, lastName: string, email: string,
                         target: ReadingLevel, now: string): (r: Student)
    ensures r.firstName == firstName && r.lastName == lastName && r.email == email
    ensures r.targetGradeLevel == Some(target) && r.updatedAt == now
    ensures r.(firstName := s.firstName, lastName := s.lastName, email := s.email,
               targetGradeLevel := s.targetGradeLevel, updatedAt := s.updatedAt) == s
  {
    s.(firstName := firstName, lastName := lastName, email := email,
       targetGradeLevel := Some(target), updatedAt := now)
  }

  /** The list with the entry at `i` taken out (`splice(i, 1)`). */
  function RemoveAt<T>(s: seq<T>, i: nat): (r: seq<T>)
    requires i < |s|
    ensures |r| == |s| - 1
    ensures forall j :: 0 <= j < i ==> r[j] == s[j]
    ensures forall j :: i <= j < |r| ==> r[j] == s[j + 1]
    ensures multiset(r) + multiset{s[i]} == multiset(s)
  {
    assert s == s[..i] + [s[i]] + s[i + 1..];
    s[..i] + s[i + 1..]
  }

  datatype StoreState = StoreState(
    diagnosticOverrides: map<string, Override>,
    diagnosticResults: map<string, DiagnosticResult>,
    students: seq<Student>,
    studentDetails: map<string, StudentDetail>,
    goals: seq<Goal>,
    availableExercises: seq<Exercise>)

  /**
   * The fixtures the mock service works on, and the override store. The two
   * maps start empty; the lists start as the mock data passed in.
   */
  class ParentTeacherStore {
    var diagnosticOverrides: map<string, Override>
    var diagnosticResults: map<string, DiagnosticResult>
    var students: seq<Student>
    var studentDetails: map<string, StudentDetail>
    var goals: seq<Goal>
    var availableExercises: seq<Exercise>

    function State(): StoreState
      reads this
    {
      StoreState(diagnosticOverrides, diagnosticResults, students, studentDetails, goals, availableExercises)
    }

    constructor (students0: seq<Student>, details0: map<string, StudentDetail>,
                 goals0: seq<Goal>, exercises0: seq<Exercise>)
      ensures State() == StoreState(map[], map[], students0, details0, goals0, exercises0)
    {
      diagnosticOverrides, diagnosticResults := map[], map[];
      students, studentDetails, goals, availableExercises := students0, details0, goals0, exercises0;
    }

    /** `getStudents`: the whole list. */
    method GetStudents() returns (r: ApiResponse<seq<Student>>)
      ensures r == Ok(students)
    {
      r := Ok(students);
    }

    /** `getAvailableExercises`: the whole exercise catalogue. */
    method GetAvailableExercises() returns (r: ApiResponse<seq<Exercise>>)
      ensures r == Ok(availableExercises)
    {
      r := Ok(availableExercises);
    }

    /** `getStudentDetail`: an unknown id throws; otherwise the overlaid detail record. */
    method GetStudentDetail(studentId: string) returns (r: Result<ApiResponse<StudentDetail>>)
      ensures r.Failure? <==> studentId !in studentDetails
      ensures r.Failure? ==> r.error == "Student not found"
      ensures r.Success? ==> r.value == Ok(OverlayDetail(studentDetails[studentId],
                                                       Get(diagnosticOverrides, studentId),
                                                       Get(diagnosticResults, studentId)))
    {
      if studentId !in studentDetails {
        return Failure("Student not found");
      }
      var detail := studentDetails[studentId];
      var o := Get(diagnosticOverrides, studentId);
      var result := Get(diagnosticResults, studentId);
      r := Success(Ok(OverlayDetail(detail, o, result)));
    }

    /** `linkStudent`: the first student with that email, or an error. */
    method LinkStudent(studentEmail: string) returns (r: Result<ApiResponse<Student>>)
      ensures r.Failure? <==> forall j :: 0 <= j < |students| ==> students[j].email != studentEmail
      ensures r.Failure? ==> r.error == "Student not found with this email"
      ensures r.Success? ==> r.value.data.Some? && r.value.data.value.email == studentEmail
                             && r.value == Ok(students[EmailIndex(students, studentEmail)])
    {
      var i := EmailIndex(students, studentEmail);
      if i == -1 {
        return Failure("Student not found with this email");
      }
      r := Success(Ok(students[i]));
    }

    /**
     * `createStudent`: a listed email is rejected; otherwise exactly one new
     * student, not yet diagnosed and owned by the current guardian, is appended.
     */
    method CreateStudent(id: string, email: string, firstName: string, lastName: string, password: string,
                         targetGradeLevel: ReadingLevel, diagnosticEnabled: bool, now: string)
      returns (r: Result<ApiResponse<Student>>)
      modifies this
      ensures r.Failure? <==> EmailIndex(old(students), email) != -1
      ensures r.Failure? ==> r.error == "Student with this email already exists" && State() == old(State())
      ensures r.Success? ==> r.value.success && r.value.data.Some?
      ensures r.Success? ==>
        var s := r.value.data.value;
        && s.id == id && s.email == email && s.firstName == firstName && s.lastName == lastName
        && s.targetGradeLevel == Some(targetGradeLevel) && !s.hasCompletedDiagnostic
        && s.diagnosticEnabled == diagnosticEnabled && s.parentId == Some(CurrentGuardianId)
        && s.teacherId.None? && s.readingLevel.None? && s.diagnosticResult.None?
        && s.createdAt == now && s.updatedAt == now
        && State() == old(State()).(students := old(students) + [s])
      ensures UniqueEmails(old(students)) ==> UniqueEmails(students)
    {
      if EmailIndex(students, email) != -1 {
        return Failure("Student with this email already exists");
      }
      var s := Student(id, email, firstName, lastName, now, now, None, Some(CurrentGuardianId), None,
                       Some(targetGradeLevel), false, diagnosticEnabled, None);
      if UniqueEmails(students) {
        AppendFreshEmail(students, s);
      }
      students := students + [s];
      r := Success(Ok(s));
    }

    /** `assignExercise`: checks only that the student exists. */
    method AssignExercise(studentId: string, exerciseId: string) returns (r: Result<ApiResponse<()>>)
      ensures r.Failure? <==> StudentIndex(students, studentId) == -1
      ensures r.Failure? ==> r.error == "Student not found"
      ensures r.Success? ==> r.value == ApiResponse(true, None, None, None)
    {
      if StudentIndex(students, studentId) == -1 {
        return Failure("Student not found");
      }
      r := Success(ApiResponse(true, None, None, None));
    }

    /** `unlinkStudent`: the first entry with that id is spliced out; a missing id throws. */
    method UnlinkStudent(studentId: string) returns (r: Result<ApiResponse<()>>)
      modifies this
      ensures r.Failure? <==> StudentIndex(old(students), studentId) == -1
      ensures r.Failure? ==> r.error == "Student not found" && State() == old(State())
      ensures r.Success? ==>
        var i := StudentIndex(old(students), studentId);
        && r.value == ApiResponse(true, None, None, None)
        && State() == old(State()).(students := RemoveAt(old(students), i))
        && |students| == |old(students)| - 1
        && multiset(students) + multiset{old(students)[i]} == multiset(old(students))
    {
      var i := StudentIndex(students, studentId);
      if i == -1 {
        return Failure("Student not found");
      }
      students := RemoveAt(students, i);
      r := Success(ApiResponse(true, None, None, None));
    }

    /**
     * `updateStudent`: the entry is replaced at the same index by the edited
     * record; a detail record under the id, if any, is edited alike.
     */
    method UpdateStudent(studentId: string, firstName: string, lastName: string, email: string,
                         targetGradeLevel: ReadingLevel, now: string)
      returns (r: Result<ApiResponse<Student>>)
      modifies this
      ensures r.Failure? <==> StudentIndex(old(students), studentId) == -1
      ensures r.Failure? ==> r.error == "Student not found" && State() == old(State())
      ensures r.Success? ==>
        var i := StudentIndex(old(students), studentId);
        var updated := EditedStudent(old(students)[i], firstName, lastName, email, targetGradeLevel, now);
        && r.value == ApiResponse(true, Some(updated), Some("Student information updated successfully"), None)
        && |students| == |old(students)|
        && students == old(students)[i := updated]
        && (forall j :: 0 <= j < |students| && j != i ==> students[j] == old(students)[j])
        && studentDetails == (if studentId in old(studentDetails)
                              then var d := old(studentDetails)[studentId];
                                   old(studentDetails)[studentId := d.(student := EditedStudent(d.student, firstName, lastName, email, targetGradeLevel, now))]
                              else old(studentDetails))
        && State() == old(State()).(students := students, studentDetails := studentDetails)
    {
      var i := StudentIndex(students, studentId);
      if i == -1 {
        return Failure("Student not found");
      }
      var updated := EditedStudent(students[i], firstName, lastName, email, targetGradeLevel, now);
      students := students[i := updated];
      if studentId in studentDetails {
        var d := studentDetails[studentId];
        studentDetails := studentDetails[studentId := d.(student := EditedStudent(d.student, firstName, lastName, email, targetGradeLevel, now))];
      }
      r := Success(ApiResponse(true, Some(updated), Some("Student information updated successfully"), None));
    }

    /** `setGoal`: the student must exist; a fresh, unstarted goal is appended. */
    method SetGoal(id: string, studentId: string, title: string, description: string, targetValue: int,
                   unit: GoalUnit, deadline: string, now: string)
      returns (r: Result<ApiResponse<Goal>>)
      modifies this
      ensures r.Failure? <==> StudentIndex(old(students), studentId) == -1
      ensures r.Failure? ==> r.error == "Student not found" && State() == old(State())
      ensures r.Success? ==> r.value.data.Some?
      ensures r.Success? ==>
        var g := r.value.data.value;
        && g == Goal(id, studentId, title, description, targetValue, 0, unit, deadline, now, CurrentGuardianId, false)
        && r.value == Ok(g)
        && State() == old(State()).(goals := old(goals) + [g])
    {
      if StudentIndex(students, studentId) == -1 {
        return Failure("Student not found");
      }
      var g := Goal(id, studentId, title, description, targetValue, 0, unit, deadline, now, CurrentGuardianId, false);
      goals := goals + [g];
      r := Success(Ok(g));
    }

    /** `getStudentGoals`: exactly the goals of that student, in stored order. */
    method GetStudentGoals(studentId: string) returns (r: ApiResponse<seq<Goal>>)
      ensures r.success && r.data.Some?
      ensures r.data.value == Filter(goals, (g: Goal) => g.studentId == studentId)
      ensures forall i :: 0 <= i < |r.data.value| ==> r.data.value[i].studentId == studentId
      ensures forall i :: 0 <= i < |goals| && goals[i].studentId == studentId ==> goals[i] in r.data.value
      ensures IsSubsequence(r.data.value, goals)
    {
      r := Ok(Filter(goals, (g: Goal) => g.studentId == studentId));
    }

    /**
     * `toggleDiagnostic`: an unlisted student throws and the store is unchanged;
     * otherwise only that student's override is (re)written.
     */
    method ToggleDiagnostic(studentId: string, enabled: bool) returns (r: Result<ApiResponse<()>>)
      modifies this
      ensures r.Failure? <==> StudentIndex(old(students), studentId) == -1
      ensures r.Failure? ==> r.error == "Student not found" && State() == old(State())
      ensures r.Success? ==>
        var profile := old(students)[StudentIndex(old(students), studentId)];
        var o := ToggledOverride(enabled, Get(old(diagnosticOverrides), studentId), profile);
        && r.value == OkMessage(ToggleMessage(enabled))
        && State() == old(State()).(diagnosticOverrides := old(diagnosticOverrides)[studentId := o])
    {
      var i := StudentIndex(students, studentId);
      if i == -1 {
        return Failure("Student not found");
      }
      var o := ToggledOverride(enabled, Get(diagnosticOverrides, studentId), students[i]);
      diagnosticOverrides := diagnosticOverrides[studentId := o];
      r := Success(OkMessage(ToggleMessage(enabled)));
    }
  }
}
