/**
 * The student slice: its record types (assessments, exercises, attempts,
 * progress, goals) and its reducers, each an in-place update of the state.
 */
module StudentSlice {
  import opened Wrappers
  import opened ApiTypes
  import opened Seqs

  datatype Assessment = Assessment(
    id: string,
    studentId: string,
    readingLevel: ReadingLevel,
    score: int,
    feedback: string,
    completedAt: string)

  datatype QuestionType = MULTIPLE_CHOICE | TEXT

  /** A question; free-text questions usually have no `correctAnswer`. */
  datatype Question = Question(
    id: string,
    text: string,
    questionType: QuestionType,
    options: Option<seq<string>>,
    correctAnswer: Option<string>)

  datatype Exercise = Exercise(
    id: string,
    title: string,
    description: string,
    readingLevel: ReadingLevel,
    content: string,
    questions: seq<Question>,
    isCompleted: bool)

  /** A submitted attempt; `score` is `None` where the source computes `NaN`. */
  datatype ExerciseAttempt = ExerciseAttempt(
    id: string,
    exerciseId: string,
    studentId: string,
    answers: map<string, string>,
    score: Option<int>,
    feedback: string,
    completedAt: string,
    startedAt: string,
    timeSpentSeconds: int)

  datatype StudentProgress = StudentProgress(
    studentId: string,
    currentLevel: ReadingLevel,
    exercisesCompleted: int,
    totalExercises: int,
    averageScore: int,
    lastActivityAt: string)

  datatype GoalUnit = EXERCISES | SCORE | READING_TIME

  datatype Goal = Goal(
    id: string,
    studentId: string,
    title: string,
    description: string,
    targetValue: int,
    currentValue: int,
    unit: GoalUnit,
    deadline: string,
    createdAt: string,
    createdBy: string,
    isCompleted: bool)

  /** `exercises.findIndex(ex => ex.id === id)`. */
  function ExerciseIndex(exercises: seq<Exercise>, id: string): (i: int)
    ensures -1 <= i < |exercises|
    ensures i >= 0 ==> exercises[i].id == id && forall j :: 0 <= j < i ==> exercises[j].id != id
    ensures i == -1 <==> forall j :: 0 <= j < |exercises| ==> exercises[j].id != id
  {
    FirstIndex(exercises, (ex: Exercise) => ex.id == id)
  }

  /** The whole slice state as one value. */
  datatype StudentSliceState = StudentSliceState(
    currentAssessment: Option<Assessment>,
    assessmentHistory: seq<Assessment>,
    exercises: seq<Exercise>,
    currentExercise: Option<Exercise>,
    progress: Option<StudentProgress>,
    goals: seq<Goal>,
    isLoading: bool,
    error: Option<string>)

  const InitialState: StudentSliceState :=
    StudentSliceState(None, [], [], None, None, [], false, None)

  class StudentState {
    var currentAssessment: Option<Assessment>
    var assessmentHistory: seq<Assessment>
    var exercises: seq<Exercise>
    var currentExercise: Option<Exercise>
    var progress: Option<StudentProgress>
    var goals: seq<Goal>
    var isLoading: bool
    var error: Option<string>

    function State(): StudentSliceState
      reads this
    {
      StudentSliceState(currentAssessment, assessmentHistory, exercises, currentExercise,
        progress, goals, isLoading, error)
    }

    /** `initialState`: empty lists, nothing selected, not loading, no error. */
    constructor ()
      ensures State() == InitialState
      ensures assessmentHistory == [] && exercises == [] && goals == []
      ensures currentAssessment.None? && currentExercise.None? && progress.None?
      ensures !isLoading && error.None?
    {
      currentAssessment, assessmentHistory, exercises, currentExercise := None, [], [], None;
      progress, goals, isLoading, error := None, [], false, None;
    }

    /** `clearError`: only the error is reset. */
    method ClearError()
      modifies this
      ensures State() == old(State()).(error := None)
    {
      error := None;
    }

    /** `clearCurrentExercise`: only the open exercise is reset. */
    method ClearCurrentExercise()
      modifies this
      ensures State() == old(State()).(currentExercise := None)
    {
      currentExercise := None;
    }

    /** Every thunk's `pending` case: loading starts and the error is cleared. */
    method Pending()
      modifies this
      ensures State() == old(State()).(isLoading := true, error := None)
    {
      isLoading := true;
      error := None;
    }

    /** Every thunk's `rejected` case: loading stops and the rejection message is stored. */
    method Rejected(message: string)
      modifies this
      ensures State() == old(State()).(isLoading := false, error := Some(message))
    {
      isLoading := false;
      error := Some(message);
    }

    /** `takeAssessment.fulfilled`: the assessment becomes current and joins the history. */
    method TakeAssessmentFulfilled(payload: Option<Assessment>)
      modifies this
      ensures payload.Some? ==> State() == old(State()).(isLoading := false,
        currentAssessment := payload, assessmentHistory := old(assessmentHistory) + [payload.value])
      ensures payload.None? ==> State() == old(State()).(isLoading := false)
      ensures |assessmentHistory| == |old(assessmentHistory)| + (if payload.Some? then 1 else 0)
    {
      isLoading := false;
      if payload.Some? {
        currentAssessment := payload;
        assessmentHistory := assessmentHistory + [payload.value];
      }
    }

    /** `fetchExercises.fulfilled`: the list is replaced by the payload, or emptied. */
    method FetchExercisesFulfilled(payload: Option<seq<Exercise>>)
      modifies this
      ensures State() == old(State()).(isLoading := false, exercises := payload.GetOr([]))
    {
      isLoading := false;
      exercises := payload.GetOr([]);
    }

    /** `fetchExerciseById.fulfilled`: the payload, if any, becomes the open exercise. */
    method FetchExerciseByIdFulfilled(payload: Option<Exercise>)
      modifies this
      ensures State() == old(State()).(isLoading := false, currentExercise := payload)
    {
      isLoading := false;
      currentExercise := payload;
    }

    /**
     * `submitExercise.fulfilled`: the first exercise whose id is the attempt's
     * exercise id is marked completed; every other entry is left as it was.
     */
    method SubmitExerciseFulfilled(payload: Option<ExerciseAttempt>)
      modifies this
      ensures |exercises| == |old(exercises)|
      ensures payload.Some? && ExerciseIndex(old(exercises), payload.value.exerciseId) >= 0 ==>
        var i := ExerciseIndex(old(exercises), payload.value.exerciseId);
        State() == old(State()).(isLoading := false, exercises := old(exercises)[i := old(exercises)[i].(isCompleted := true)])
      ensures payload.None? || ExerciseIndex(old(exercises), payload.value.exerciseId) == -1 ==>
        State() == old(State()).(isLoading := false)
    {
      isLoading := false;
      if payload.Some? {
        var i := ExerciseIndex(exercises, payload.value.exerciseId);
        if i != -1 {
          exercises := exercises[i := exercises[i].(isCompleted := true)];
        }
      }
    }

    /** `fetchProgress.fulfilled`: the payload, if any, becomes the progress. */
    method FetchProgressFulfilled(payload: Option<StudentProgress>)
      modifies this
      ensures State() == old(State()).(isLoading := false, progress := payload)
    {
      isLoading := false;
      progress := payload;
    }

    /** `fetchGoals.fulfilled`: the goal list is replaced by the payload, or emptied. */
    method FetchGoalsFulfilled(payload: Option<seq<Goal>>)
      modifies this
      ensures State() == old(State()).(isLoading := false, goals := payload.GetOr([]))
    {
      isLoading := false;
      goals := payload.GetOr([]);
    }
  }
}
