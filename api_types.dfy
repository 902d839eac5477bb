/** The shared types of the application: roles, reading levels, skill strands and profiles. */
module ApiTypes {
  import opened Wrappers

  /** `{ success, data?, message?, error? }`, the envelope every service call returns. */
  datatype ApiResponse<+T> = ApiResponse(success: bool, data: Option<T>, message: Option<string>, error: Option<string>)

  function Ok<T>(data: T): (r: ApiResponse<T>)
    ensures r.success && r.data == Some(data) && r.message.None? && r.error.None?
  {
    ApiResponse(true, Some(data), None, None)
  }

  function OkMessage<T>(message: string): (r: ApiResponse<T>)
    ensures r.success && r.data.None? && r.message == Some(message) && r.error.None?
  {
    ApiResponse(true, None, Some(message), None)
  }

  datatype UserRole = STUDENT | PARENT | TEACHER

  /**
   * The seven reading levels. The declaration order is the order all
   * "one level up / one level down" arithmetic moves along.
   */
  datatype ReadingLevel = PRE_K | KINDERGARTEN | GRADE_1 | GRADE_2 | GRADE_3 | GRADE_4 | GRADE_5

  const MaxOrdinal: int := 6

  /** The levels in order, as the `gradeLevels` arrays list them. */
  const GradeLevels: seq<ReadingLevel> := [PRE_K, KINDERGARTEN, GRADE_1, GRADE_2, GRADE_3, GRADE_4, GRADE_5]

  /** `gradeLevels.indexOf(level)`. */
  function Ordinal(level: ReadingLevel): (i: int)
    ensures 0 <= i <= MaxOrdinal
    ensures GradeLevels[i] == level
  {
    match level
    case PRE_K => 0
    case KINDERGARTEN => 1
    case GRADE_1 => 2
    case GRADE_2 => 3
    case GRADE_3 => 4
    case GRADE_4 => 5
    case GRADE_5 => 6
  }

  /** `gradeLevels[i]`. */
  function FromOrdinal(i: int): (level: ReadingLevel)
    requires 0 <= i <= MaxOrdinal
    ensures Ordinal(level) == i
  {
    GradeLevels[i]
  }

  /** The ordinal is a bijection between the levels and 0..6: there are exactly seven levels. */
  lemma OrdinalBijection()
    ensures forall l :: FromOrdinal(Ordinal(l)) == l
    ensures forall l, m :: Ordinal(l) == Ordinal(m) ==> l == m
    ensures |GradeLevels| == MaxOrdinal + 1
    ensures forall i, j :: 0 <= i < j < |GradeLevels| ==> GradeLevels[i] != GradeLevels[j]
  {
    forall i, j | 0 <= i < j < |GradeLevels| ensures GradeLevels[i] != GradeLevels[j] {
      assert Ordinal(GradeLevels[i]) == i;
      assert Ordinal(GradeLevels[j]) == j;
    }
  }

  /** `gradeLevels[Math.min(index + 1, gradeLevels.length - 1)]`: one level up, clamped at GRADE_5. */
  function StepUp(level: ReadingLevel): (r: ReadingLevel)
    ensures Ordinal(level) < MaxOrdinal ==> Ordinal(r) == Ordinal(level) + 1
    ensures Ordinal(level) == MaxOrdinal ==> r == level
  {
    var i := Ordinal(level) + 1;
    FromOrdinal(if i < MaxOrdinal then i else MaxOrdinal)
  }

  /** `gradeLevels[Math.max(index - 1, 0)]`: one level down, clamped at PRE_K. */
  function StepDown(level: ReadingLevel): (r: ReadingLevel)
    ensures Ordinal(level) > 0 ==> Ordinal(r) == Ordinal(level) - 1
    ensures Ordinal(level) == 0 ==> r == level
  {
    var i := Ordinal(level) - 1;
    FromOrdinal(if i > 0 then i else 0)
  }

  /** "Within one step" of the order: the relation every clamped adjustment keeps. */
  predicate WithinOneStep(a: ReadingLevel, b: ReadingLevel) {
    -1 <= Ordinal(a) - Ordinal(b) <= 1
  }

  datatype SkillLevel = BELOW_GRADE | ON_GRADE | ABOVE_GRADE

  datatype SkillStrand = PHONOLOGICAL_AWARENESS | PHONICS | VOCABULARY | COMPREHENSION | FLUENCY

  /** The strands in the order the evaluator visits them. */
  const Strands: seq<SkillStrand> := [PHONOLOGICAL_AWARENESS, PHONICS, VOCABULARY, COMPREHENSION, FLUENCY]

  /** Every strand occurs exactly once in `Strands`: there are exactly five. */
  lemma StrandsListed()
    ensures |Strands| == 5
    ensures forall s: SkillStrand :: s in Strands
    ensures forall i, j :: 0 <= i < j < |Strands| ==> Strands[i] != Strands[j]
  {
    forall s: SkillStrand ensures s in Strands {
      match s
      case PHONOLOGICAL_AWARENESS => assert Strands[0] == s;
      case PHONICS => assert Strands[1] == s;
      case VOCABULARY => assert Strands[2] == s;
      case COMPREHENSION => assert Strands[3] == s;
      case FLUENCY => assert Strands[4] == s;
    }
  }

  /** The per-strand outcome of the placement activities. */
  datatype StrandResult = StrandResult(
    strand: SkillStrand,
    level: SkillLevel,
    accuracy: int,             // percentage, 0-100
    averageResponseTime: int,  // milliseconds
    placementLevel: ReadingLevel)

  datatype DiagnosticResult = DiagnosticResult(
    id: string,
    studentId: string,
    completedAt: string,
    overallPlacement: ReadingLevel,
    strandResults: seq<StrandResult>,
    recommendedStartingLevel: ReadingLevel)

  /** A student profile; optional interface fields are `None` when absent. */
  datatype Student = Student(
    id: string,
    email: string,
    firstName: string,
    lastName: string,
    createdAt: string,
    updatedAt: string,
    readingLevel: Option<ReadingLevel>,
    parentId: Option<string>,
    teacherId: Option<string>,
    targetGradeLevel: Option<ReadingLevel>,
    hasCompletedDiagnostic: bool,
    diagnosticEnabled: bool,
    diagnosticResult: Option<DiagnosticResult>)

  /** A parent or teacher profile, with the ids of their students. */
  datatype Guardian = Guardian(
    id: string,
    email: string,
    firstName: string,
    lastName: string,
    createdAt: string,
    updatedAt: string,
    students: seq<string>)

  /** `Student | Parent | Teacher`, discriminated by `role`. */
  datatype User = StudentUser(student: Student) | ParentUser(parent: Guardian) | TeacherUser(teacher: Guardian) {
    function Role(): UserRole {
      match this
      case StudentUser(_) => STUDENT
      case ParentUser(_) => PARENT
      case TeacherUser(_) => TEACHER
    }

    function Id(): string {
      match this
      case StudentUser(s) => s.id
      case ParentUser(g) => g.id
      case TeacherUser(g) => g.id
    }

    function Email(): string {
      match this
      case StudentUser(s) => s.email
      case ParentUser(g) => g.email
      case TeacherUser(g) => g.email
    }
  }
}
