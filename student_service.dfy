/**
 * The mock student service: exercise lookup and submission scoring over the
 * shared exercise list, and assessment submission over the shared history.
 */
module StudentService {
  import opened Wrappers
  import opened ApiTypes
  import opened Random
  import opened Text
  import opened StudentSlice

  /** The student every mock submission is filed under. */
  const MockStudentId: string := "student-1"

  /** `q.correctAnswer && answers[q.id] === q.correctAnswer`: keyed, and answered with the key. */
  predicate IsCorrect(q: Question, answers: map<string, string>)
  {
    q.correctAnswer.Some? && q.correctAnswer.value != ""
    && q.id in answers && answers[q.id] == q.correctAnswer.value
  }

  /** The number of correctly answered questions (the specification of the scoring loop). */
  function CorrectCount(questions: seq<Question>, answers: map<string, string>): (c: nat)
    ensures c <= |questions|
  {
    if questions == [] then 0
    else CorrectCount(questions[..|questions| - 1], answers)
         + (if IsCorrect(questions[|questions| - 1], answers) then 1 else 0)
  }

  /** All questions count exactly when every one of them is keyed and answered with its key. */
  lemma {:induction false} CorrectCountAll(questions: seq<Question>, answers: map<string, string>)
    ensures CorrectCount(questions, answers) == |questions|
            <==> forall i :: 0 <= i < |questions| ==> IsCorrect(questions[i], answers)
  {
    if questions != [] {
      var init := questions[..|questions| - 1];
      CorrectCountAll(init, answers);
      assert forall i :: 0 <= i < |init| ==> init[i] == questions[i];
    }
  }

  /** A question without a key never counts; it still belongs to the denominator. */
  lemma {:induction false} KeylessNeverCounts(questions: seq<Question>, answers: map<string, string>)
    requires forall i :: 0 <= i < |questions| ==> questions[i].correctAnswer.None?
    ensures CorrectCount(questions, answers) == 0
  {
    if questions != [] {
      var init := questions[..|questions| - 1];
      assert forall i :: 0 <= i < |init| ==> init[i] == questions[i];
      KeylessNeverCounts(init, answers);
    }
  }

  /** The `forEach` loop of `submitExercise` that counts correct answers. */
  method CountCorrectAnswers(questions: seq<Question>, answers: map<string, string>) returns (correctAnswers: nat)
    ensures correctAnswers == CorrectCount(questions, answers)
  {
    correctAnswers := 0;
    var i := 0;
    while i < |questions|
      invariant 0 <= i <= |questions|
      invariant correctAnswers == CorrectCount(questions[..i], answers)
    {
      assert questions[..i + 1][..i] == questions[..i];
      if IsCorrect(questions[i], answers) {
        correctAnswers := correctAnswers + 1;
      }
      i := i + 1;
    }
    assert questions[..i] == questions;
  }

  lemma ScaleBound(n: int, v: int)
    requires n > 0 && 2 * n * v <= 201 * n
    ensures v <= 100
  {
  }

  /**
   * `Math.round(correct / n * 100)` in exact arithmetic: the integer nearest
   * to 100·correct/n, halves rounding up. With no questions it is `NaN` (`None`).
   */
  function RoundedPercent(correct: nat, n: nat): (score: Option<int>)
    requires correct <= n
    ensures n == 0 <==> score.None?
    ensures score.Some? ==> 0 <= score.value <= 100
    ensures score.Some? ==> 2 * n * score.value <= 200 * correct + n < 2 * n * (score.value + 1)
    ensures score.Some? && correct == n ==> score.value == 100
    ensures score.Some? && correct == 0 ==> score.value == 0
  {
    if n == 0 then None
    else
      var v := (200 * correct + n) / (2 * n);
      RoundingFacts(correct, n, v);
      Some(v)
  }

  lemma RoundingFacts(correct: nat, n: nat, v: int)
    requires correct <= n && n > 0 && v == (200 * correct + n) / (2 * n)
    ensures 0 <= v <= 100
    ensures 2 * n * v <= 200 * correct + n < 2 * n * (v + 1)
    ensures correct == n ==> v == 100
    ensures correct == 0 ==> v == 0
  {
    assert 2 * n * v <= 200 * correct + n < 2 * n * (v + 1);
    assert 200 * correct <= 200 * n;
    ScaleBound(n, v);
    if correct == n {
      assert 2 * n * 100 <= 200 * correct + n < 2 * n * 101;
      RoundUnique(n, v, 100, 200 * correct + n);
    }
    if correct == 0 {
      RoundUnique(n, v, 0, n);
    }
  }

  /** At most one integer `v` has `2nv <= x < 2n(v + 1)`. */
  lemma RoundUnique(n: int, v: int, w: int, x: int)
    requires n > 0
    requires 2 * n * v <= x < 2 * n * (v + 1)
    requires 2 * n * w <= x < 2 * n * (w + 1)
    ensures v == w
  {
    if v < w {
      MulLe(2 * n, v + 1, w);
    } else if w < v {
      MulLe(2 * n, w + 1, v);
    }
  }

  lemma MulLe(k: int, a: int, b: int)
    requires k > 0 && a <= b
    ensures k * a <= k * b
  {
    assert k * b - k * a == k * (b - a);
  }

  /** The feedback line: praise exactly when the score is at least 70 (`NaN >= 70` is false). */
  function ExerciseFeedback(score: Option<int>): (f: string)
    ensures f == "Excellent work!" <==> score.Some? && score.value >= 70
    ensures f == "Keep practicing!" <==> !(score.Some? && score.value >= 70)
  {
    if score.Some? && score.value >= 70 then "Excellent work!" else "Keep practicing!"
  }

  /** `Math.floor(Math.random() * 30) + 70`: an integer in [70, 99] (the comment's 100 is never reached). */
  function AssessmentScore(r: Draw): (score: int)
    ensures 70 <= score <= 99
  {
    FloorScaled(r, 30) + 70
  }

  /** Every assessment score from 70 to 99 is produced by some draw. */
  lemma AssessmentScoreAttained(score: int)
    requires 70 <= score <= 99
    ensures AssessmentScore(Fraction(score - 70, 30)) == score
  {
    FloorScaledAttains(score - 70, 30);
  }

  datatype StudentStoreState = StudentStoreState(exercises: seq<Exercise>, assessments: seq<Assessment>)

  /** The shared mock exercise list and assessment history. */
  class StudentStore {
    var exercises: seq<Exercise>
    var assessments: seq<Assessment>

    function State(): StudentStoreState
      reads this
    {
      StudentStoreState(exercises, assessments)
    }

    constructor (exercises0: seq<Exercise>, assessments0: seq<Assessment>)
      ensures State() == StudentStoreState(exercises0, assessments0)
    {
      exercises, assessments := exercises0, assessments0;
    }

    /** `getExercises`: the whole list. */
    function GetExercises(): (r: ApiResponse<seq<Exercise>>)
      reads this
      ensures r == Ok(exercises)
    {
      Ok(exercises)
    }

    /** `getExerciseById`: the first exercise with that id, or "Exercise not found". */
    function GetExerciseById(exerciseId: string): (r: Result<ApiResponse<Exercise>>)
      reads this
      ensures r.Failure? <==> forall j :: 0 <= j < |exercises| ==> exercises[j].id != exerciseId
      ensures r.Failure? ==> r.error == "Exercise not found"
      ensures r.Success? ==> r.value.data.Some? && r.value.data.value.id == exerciseId
      ensures r.Success? ==> r.value == Ok(exercises[ExerciseIndex(exercises, exerciseId)])
    {
      var i := ExerciseIndex(exercises, exerciseId);
      if i == -1 then Failure("Exercise not found") else Success(Ok(exercises[i]))
    }

    /**
     * `submitExercise`: an unknown exercise throws and nothing changes.
     * Otherwise the attempt echoes the answers and time, is scored from the
     * correct-answer count, and the exercise is marked completed.
     */
    method SubmitExercise(exerciseId: string, answers: map<string, string>, timeSpentSeconds: int,
                          attemptId: string, completedAt: string, startedAt: string)
      returns (r: Result<ApiResponse<ExerciseAttempt>>)
      modifies this
      ensures r.Failure? <==> ExerciseIndex(old(exercises), exerciseId) == -1
      ensures r.Failure? ==> r.error == "Exercise not found" && State() == old(State())
      ensures r.Success? ==>
        var i := ExerciseIndex(old(exercises), exerciseId);
        var qs := old(exercises)[i].questions;
        var score := RoundedPercent(CorrectCount(qs, answers), |qs|);
        && r.value == Ok(ExerciseAttempt(attemptId, exerciseId, MockStudentId, answers, score,
                                         ExerciseFeedback(score), completedAt, startedAt, timeSpentSeconds))
        && State() == old(State()).(exercises := old(exercises)[i := old(exercises)[i].(isCompleted := true)])
    {
      var i := ExerciseIndex(exercises, exerciseId);
      if i == -1 {
        return Failure("Exercise not found");
      }
      var exercise := exercises[i];
      var correctAnswers := CountCorrectAnswers(exercise.questions, answers);
      var score := RoundedPercent(correctAnswers, |exercise.questions|);
      var attempt := ExerciseAttempt(attemptId, exerciseId, MockStudentId, answers, score,
                                     ExerciseFeedback(score), completedAt, startedAt, timeSpentSeconds);
      exercises := exercises[i := exercise.(isCompleted := true)];
      r := Success(Ok(attempt));
    }

    /** `submitAssessment`: a drawn score in [70, 99], filed at GRADE_1, appended to the history. */
    method SubmitAssessment(answers: map<string, string>, r: Draw, id: string, completedAt: string)
      returns (resp: ApiResponse<Assessment>)
      modifies this
      ensures resp.success && resp.data.Some?
      ensures var a := resp.data.value;
        && 70 <= a.score <= 99
        && a == Assessment(id, MockStudentId, GRADE_1, AssessmentScore(r),
                           "You scored " + DecimalString(AssessmentScore(r)) + "%. Keep up the great work!",
                           completedAt)
        && State() == old(State()).(assessments := old(assessments) + [a])
    {
      var score := AssessmentScore(r);
      var assessment := Assessment(id, MockStudentId, GRADE_1, score,
                                   "You scored " + DecimalString(score) + "%. Keep up the great work!",
                                   completedAt);
      assessments := assessments + [assessment];
      resp := Ok(assessment);
    }
  }
}
