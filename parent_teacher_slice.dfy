/** The parent/teacher slice: the detailed student record and the reducers over the guardian's view. */
module ParentTeacherSlice {
  import opened Wrappers
  import opened ApiTypes
  import opened Seqs
  import StudentSlice

  /** `StudentDetail extends Student` with progress and recent history. */
  datatype StudentDetail = StudentDetail(
    student: Student,
    progress: StudentSlice.StudentProgress,
    recentAssessments: seq<StudentSlice.Assessment>,
    recentExerciseAttempts: seq<StudentSlice.ExerciseAttempt>)

  /** Object spread `{ ...base, ...over }` of two students: present fields of `over` win. */
  function SpreadStudent(base: Student, over: Student): (r: Student)
    ensures r.id == over.id && r.email == over.email
    ensures r.firstName == over.firstName && r.lastName == over.lastName
    ensures r.createdAt == over.createdAt && r.updatedAt == over.updatedAt
    ensures r.hasCompletedDiagnostic == over.hasCompletedDiagnostic
    ensures r.diagnosticEnabled == over.diagnosticEnabled
    ensures r.readingLevel == if over.readingLevel.Some? then over.readingLevel else base.readingLevel
    ensures r.parentId == if over.parentId.Some? then over.parentId else base.parentId
    ensures r.teacherId == if over.teacherId.Some? then over.teacherId else base.teacherId
    ensures r.targetGradeLevel == if over.targetGradeLevel.Some? then over.targetGradeLevel else base.targetGradeLevel
    ensures r.diagnosticResult == if over.diagnosticResult.Some? then over.diagnosticResult else base.diagnosticResult
  {
    over.(
      readingLevel := if over.readingLevel.Some? then over.readingLevel else base.readingLevel,
      parentId := if over.parentId.Some? then over.parentId else base.parentId,
      teacherId := if over.teacherId.Some? then over.teacherId else base.teacherId,
      targetGradeLevel := if over.targetGradeLevel.Some? then over.targetGradeLevel else base.targetGradeLevel,
      diagnosticResult := if over.diagnosticResult.Some? then over.diagnosticResult else base.diagnosticResult)
  }

  /** Spreading a record over itself changes nothing, and a record with every field present wins outright. */
  lemma SpreadProperties(base: Student, over: Student)
    ensures SpreadStudent(over, over) == over
    ensures (over.readingLevel.Some? && over.parentId.Some? && over.teacherId.Some? &&
             over.targetGradeLevel.Some? && over.diagnosticResult.Some?) ==> SpreadStudent(base, over) == over
  {
  }

  /** `students.findIndex(s => s.id === id)`. */
  function StudentIndex(students: seq<Student>, id: string): (i: int)
    ensures -1 <= i < |students|
    ensures i >= 0 ==> students[i].id == id && forall j :: 0 <= j < i ==> students[j].id != id
    ensures i == -1 <==> forall j :: 0 <= j < |students| ==> students[j].id != id
  {
    FirstIndex(students, (s: Student) => s.id == id)
  }

  datatype ParentTeacherSliceState = ParentTeacherSliceState(
    students: seq<Student>,
    selectedStudent: Option<StudentDetail>,
    availableExercises: seq<StudentSlice.Exercise>,
    isLoading: bool,
    error: Option<string>)

  const InitialState: ParentTeacherSliceState := ParentTeacherSliceState([], None, [], false, None)

  class ParentTeacherState {
    var students: seq<Student>
    var selectedStudent: Option<StudentDetail>
    var availableExercises: seq<StudentSlice.Exercise>
    var isLoading: bool
    var error: Option<string>

    function State(): ParentTeacherSliceState
      reads this
    {
      ParentTeacherSliceState(students, selectedStudent, availableExercises, isLoading, error)
    }

    /** `initialState`: empty lists, nothing selected, not loading, no error. */
    constructor ()
      ensures State() == InitialState
      ensures students == [] && availableExercises == [] && selectedStudent.None?
      ensures !isLoading && error.None?
    {
      students, selectedStudent, availableExercises, isLoading, error := [], None, [], false, None;
    }

    /** `clearError`: only the error is reset. */
    method ClearError()
      modifies this
      ensures State() == old(State()).(error := None)
    {
      error := None;
    }

    /** `clearSelectedStudent`: only the selection is reset. */
    method ClearSelectedStudent()
      modifies this
      ensures State() == old(State()).(selectedStudent := None)
    {
      selectedStudent := None;
    }

    /** Every thunk's `pending` case: loading starts and the error is cleared. */
    method Pending()
      modifies this
      ensures State() == old(State()).(isLoading := true, error := None)
    {
      isLoading := true;
      error := None;
    }

    /** Every thunk's `rejected` case: loading stops and the rejection message is stored. */
    method Rejected(message: string)
      modifies this
      ensures State() == old(State()).(isLoading := false, error := Some(message))
    {
      isLoading := false;
      error := Some(message);
    }

    /** `fetchStudents.fulfilled`: the list is replaced by the payload, or emptied. */
    method FetchStudentsFulfilled(payload: Option<seq<Student>>)
      modifies this
      ensures State() == old(State()).(isLoading := false, students := payload.GetOr([]))
    {
      isLoading := false;
      students := payload.GetOr([]);
    }

    /** `fetchStudentDetail.fulfilled`: the payload, if any, becomes the selection. */
    method FetchStudentDetailFulfilled(payload: Option<StudentDetail>)
      modifies this
      ensures State() == old(State()).(isLoading := false, selectedStudent := payload)
    {
      isLoading := false;
      selectedStudent := payload;
    }

    /**
     * `linkStudent.fulfilled` and `createStudent.fulfilled`: a present payload is
     * appended, even when a student with the same id is already listed.
     */
    method AppendStudentFulfilled(payload: Option<Student>)
      modifies this
      ensures payload.Some? ==> State() == old(State()).(isLoading := false, students := old(students) + [payload.value])
      ensures payload.None? ==> State() == old(State()).(isLoading := false)
    {
      isLoading := false;
      if payload.Some? {
        students := students + [payload.value];
      }
    }

    /** `assignExercise.fulfilled`: only loading stops. */
    method AssignExerciseFulfilled()
      modifies this
      ensures State() == old(State()).(isLoading := false)
    {
      isLoading := false;
    }

    /** `fetchAvailableExercises.fulfilled`: the list is replaced by the payload, or emptied. */
    method FetchAvailableExercisesFulfilled(payload: Option<seq<StudentSlice.Exercise>>)
      modifies this
      ensures State() == old(State()).(isLoading := false, availableExercises := payload.GetOr([]))
    {
      isLoading := false;
      availableExercises := payload.GetOr([]);
    }

    /**
     * `updateStudent.fulfilled`: the first listed student with the payload's id
     * is replaced in place; the selection, when it is that student, has the
     * payload spread over it and keeps its progress and history.
     */
    method UpdateStudentFulfilled(payload: Option<Student>)
      modifies this
      ensures isLoading == false && error == old(error) && availableExercises == old(availableExercises)
      ensures |students| == |old(students)|
      ensures payload.None? ==> students == old(students) && selectedStudent == old(selectedStudent)
      ensures payload.Some? ==>
        var i := StudentIndex(old(students), payload.value.id);
        students == if i == -1 then old(students) else old(students)[i := payload.value]
      ensures payload.Some? ==>
        selectedStudent == match old(selectedStudent)
          case Some(d) => if d.student.id == payload.value.id
                          then Some(d.(student := SpreadStudent(d.student, payload.value)))
                          else old(selectedStudent)
          case None => None
    {
      isLoading := false;
      if payload.Some? {
        var p := payload.value;
        var i := StudentIndex(students, p.id);
        if i != -1 {
          students := students[i := p];
        }
        if selectedStudent.Some? && selectedStudent.value.student.id == p.id {
          selectedStudent := Some(selectedStudent.value.(student := SpreadStudent(selectedStudent.value.student, p)));
        }
      }
    }
  }
}
