/**
 * The adaptive diagnostic placement engine: a warm-up score, five scored
 * skill strands each placed one level around the target grade, the median
 * of those placements, a support adjustment, and the submission that writes
 * the shared override store.
 */
module Diagnostic {
  import opened Wrappers
  import opened ApiTypes
  import opened Random
  import opened Sorting
  import opened Text
  import opened ParentTeacherService

  // ---------------------------------------------------------------- warm-up

  datatype WarmupOutcome = WarmupOutcome(completed: bool, warmupScore: int)

  /** `Math.floor(Math.random() * 35) + 60`: an integer in [60, 94]; 95 is never reached. */
  function WarmupScore(r: Draw): (score: int)
    ensures 60 <= score <= 94
  {
    FloorScaled(r, 35) + 60
  }

  /** Every score from 60 to 94 is produced by some draw. */
  lemma WarmupScoreAttained(score: int)
    requires 60 <= score <= 94
    ensures WarmupScore(Fraction(score - 60, 35)) == score
  {
    FloorScaledAttains(score - 60, 35);
  }

  /** `runWarmupTasks`: always completed, with the drawn score, which lies in [60, 94]. */
  function RunWarmupTasks(studentId: string, targetGrade: ReadingLevel, r: Draw): (resp: ApiResponse<WarmupOutcome>)
    ensures resp.success && resp.data.Some? && resp.message.None? && resp.error.None?
    ensures resp.data.value.completed
    ensures resp.data.value.warmupScore == WarmupScore(r)
    ensures 60 <= resp.data.value.warmupScore <= 94
  {
    Ok(WarmupOutcome(true, WarmupScore(r)))
  }

  // ------------------------------------------------------- strand scoring

  /** `Math.floor(Math.random() * 20) - 10`: an integer in [-10, 9] (not up to +10). */
  function Variation(r: Draw): (v: int)
    ensures -10 <= v <= 9
  {
    FloorScaled(r, 20) - 10
  }

  /** Every variation from -10 to 9 is produced by some draw. */
  lemma VariationAttained(v: int)
    requires -10 <= v <= 9
    ensures Variation(Fraction(v + 10, 20)) == v
  {
    FloorScaledAttains(v + 10, 20);
  }

  /** `Math.floor(Math.random() * 1000)`: a response-time jitter in [0, 999]. */
  function Jitter(r: Draw): (t: int)
    ensures 0 <= t <= 999
  {
    FloorScaled(r, 1000)
  }

  /** `Math.min(100, Math.max(40, x))`. */
  function Clamp(x: int, lo: int, hi: int): (r: int)
    requires lo <= hi
    ensures lo <= r <= hi
    ensures lo <= x <= hi ==> r == x
    ensures x < lo ==> r == lo
    ensures x > hi ==> r == hi
  {
    if x > hi then hi else if x < lo then lo else x
  }

  /** `getBaseResponseTime`: the strand's expected milliseconds per item. */
  function BaseResponseTime(strand: SkillStrand): (t: int)
    ensures 1500 <= t <= 4000
    ensures t == 1500 <==> strand == PHONOLOGICAL_AWARENESS
    ensures t == 4000 <==> strand == COMPREHENSION
  {
    match strand
    case PHONOLOGICAL_AWARENESS => 1500
    case PHONICS => 2000
    case VOCABULARY => 2500
    case COMPREHENSION => 4000
    case FLUENCY => 3000
  }

  /** The five strands have five different base times. */
  lemma BaseResponseTimesDistinct(a: SkillStrand, b: SkillStrand)
    requires a != b
    ensures BaseResponseTime(a) != BaseResponseTime(b)
  {
  }

  /** `determineSkillLevel`: bands with inclusive lower bounds at 80 and 60. */
  function DetermineSkillLevel(accuracy: int): (l: SkillLevel)
    ensures l == ABOVE_GRADE <==> accuracy >= 80
    ensures l == ON_GRADE <==> 60 <= accuracy < 80
    ensures l == BELOW_GRADE <==> accuracy < 60
  {
    if accuracy >= 80 then ABOVE_GRADE
    else if accuracy >= 60 then ON_GRADE
    else BELOW_GRADE
  }

  /** The bands in increasing order. */
  function SkillRank(l: SkillLevel): nat
  {
    match l
    case BELOW_GRADE => 0
    case ON_GRADE => 1
    case ABOVE_GRADE => 2
  }

  /** The band never drops as accuracy rises. */
  lemma SkillLevelMonotone(a: int, b: int)
    requires a <= b
    ensures SkillRank(DetermineSkillLevel(a)) <= SkillRank(DetermineSkillLevel(b))
  {
  }

  /**
   * `determinePlacementLevel`: 85 and above moves one level up, 60 to 84
   * keeps the target, below 60 moves one level down; both ends clamp.
   */
  function DeterminePlacementLevel(accuracy: int, targetGrade: ReadingLevel): (p: ReadingLevel)
    ensures accuracy >= 85 ==> p == StepUp(targetGrade)
    ensures 60 <= accuracy < 85 ==> p == targetGrade
    ensures accuracy < 60 ==> p == StepDown(targetGrade)
    ensures WithinOneStep(p, targetGrade)
    ensures targetGrade == GRADE_5 && accuracy >= 85 ==> p == GRADE_5
    ensures targetGrade == PRE_K && accuracy < 60 ==> p == PRE_K
  {
    var targetIndex := Ordinal(targetGrade);
    if accuracy >= 85 then
      GradeLevels[if targetIndex + 1 < |GradeLevels| - 1 then targetIndex + 1 else |GradeLevels| - 1]
    else if accuracy >= 60 then
      targetGrade
    else
      GradeLevels[if targetIndex - 1 > 0 then targetIndex - 1 else 0]
  }

  /** The two random values one strand consumes: its accuracy variation and its timing jitter. */
  datatype StrandDraw = StrandDraw(variation: Draw, timing: Draw)

  /** The body of the `strands.map` callback in `generateStrandResults`. */
  function EvaluateStrand(strand: SkillStrand, targetGrade: ReadingLevel, warmupScore: int, d: StrandDraw): (r: StrandResult)
    ensures r.strand == strand
    ensures r.accuracy == Clamp(warmupScore + Variation(d.variation), 40, 100)
    ensures 40 <= r.accuracy <= 100
    ensures BaseResponseTime(strand) <= r.averageResponseTime <= BaseResponseTime(strand) + 999
    ensures r.level == DetermineSkillLevel(r.accuracy)
    ensures r.placementLevel == DeterminePlacementLevel(r.accuracy, targetGrade)
    ensures WithinOneStep(r.placementLevel, targetGrade)
  {
    var accuracy := Clamp(warmupScore + Variation(d.variation), 40, 100);
    StrandResult(strand, DetermineSkillLevel(accuracy), accuracy,
                 BaseResponseTime(strand) + Jitter(d.timing),
                 DeterminePlacementLevel(accuracy, targetGrade))
  }

  /**
   * A strand is BELOW_GRADE exactly when its placement took the move-down
   * branch: below the target whenever the target is not already PRE_K.
   */
  lemma BelowGradeIffMovedDown(strand: SkillStrand, targetGrade: ReadingLevel, warmupScore: int, d: StrandDraw)
    ensures var r := EvaluateStrand(strand, targetGrade, warmupScore, d);
            (r.level == BELOW_GRADE <==> r.accuracy < 60)
            && (r.level == BELOW_GRADE ==> r.placementLevel == StepDown(targetGrade))
            && (targetGrade != PRE_K ==> (r.level == BELOW_GRADE <==> Ordinal(r.placementLevel) < Ordinal(targetGrade)))
  {
    var r := EvaluateStrand(strand, targetGrade, warmupScore, d);
    if targetGrade != PRE_K {
      assert Ordinal(targetGrade) > 0;
    }
  }

  /** `generateStrandResults`: one result per strand, in the fixed strand order. */
  function GenerateStrandResults(targetGrade: ReadingLevel, warmupScore: int, draws: seq<StrandDraw>): (rs: seq<StrandResult>)
    requires |draws| == |Strands|
    ensures |rs| == |Strands| == 5
    ensures forall i :: 0 <= i < |rs| ==> rs[i].strand == Strands[i]
    ensures forall i :: 0 <= i < |rs| ==> rs[i] == EvaluateStrand(Strands[i], targetGrade, warmupScore, draws[i])
    ensures forall i :: 0 <= i < |rs| ==> WithinOneStep(rs[i].placementLevel, targetGrade)
  {
    seq(|Strands|, i requires 0 <= i < |Strands| => EvaluateStrand(Strands[i], targetGrade, warmupScore, draws[i]))
  }

  // ------------------------------------------------------ overall placement

  /** `strandResults.map(r => gradeLevels.indexOf(r.placementLevel))`. */
  function Ordinals(results: seq<StrandResult>): (r: seq<int>)
    ensures |r| == |results|
    ensures forall i :: 0 <= i < |r| ==> r[i] == Ordinal(results[i].placementLevel)
  {
    if results == [] then [] else [Ordinal(results[0].placementLevel)] + Ordinals(results[1..])
  }

  lemma OrdinalsAppend(a: seq<StrandResult>, b: seq<StrandResult>)
    ensures Ordinals(a + b) == Ordinals(a) + Ordinals(b)
  {
    assert forall i :: 0 <= i < |a| ==> (a + b)[i] == a[i];
    assert forall i :: |a| <= i < |a| + |b| ==> (a + b)[i] == b[i - |a|];
  }

  /** Reordering the results reorders their ordinals alike. */
  lemma {:induction false} OrdinalsPermutation(a: seq<StrandResult>, b: seq<StrandResult>)
    requires multiset(a) == multiset(b)
    ensures multiset(Ordinals(a)) == multiset(Ordinals(b))
    decreases |a|
  {
    assert |a| == |multiset(a)| == |b|;
    if a != [] {
      var x := a[0];
      assert x in multiset(b);
      var k :| 0 <= k < |b| && b[k] == x;
      var rest := b[..k] + b[k + 1..];
      assert b == b[..k] + [x] + b[k + 1..];
      assert a == [x] + a[1..];
      calc {
        multiset(a[1..]);
        multiset(a) - multiset{x};
        multiset(b) - multiset{x};
        multiset(b[..k]) + multiset{x} + multiset(b[k + 1..]) - multiset{x};
        multiset(rest);
      }
      OrdinalsPermutation(a[1..], rest);
      OrdinalsAppend(b[..k], [x]);
      OrdinalsAppend(b[..k] + [x], b[k + 1..]);
      OrdinalsAppend(b[..k], b[k + 1..]);
      OrdinalsAppend([x], a[1..]);
    }
  }

  /** Every element of the sorted ordinals is the ordinal of some strand's placement. */
  lemma SortedOrdinalIsPlacement(results: seq<StrandResult>, k: int)
    requires 0 <= k < |results|
    ensures exists i :: 0 <= i < |results| && SortedOf(Ordinals(results))[k] == Ordinal(results[i].placementLevel)
  {
    var s := SortedOf(Ordinals(results));
    assert s[k] in multiset(s);
    assert s[k] in Ordinals(results);
  }

  /**
   * The overall placement as a value: the level at index `n / 2` of the
   * ascending placement ordinals (for the five strands, the middle one).
   */
  function MedianPlacement(results: seq<StrandResult>): (m: ReadingLevel)
    requires results != []
    ensures exists i :: 0 <= i < |results| && results[i].placementLevel == m
  {
    SortedOrdinalIsPlacement(results, |results| / 2);
    OrdinalBijection();
    FromOrdinal(SortedOf(Ordinals(results))[|results| / 2])
  }

  /** The median lies between the lowest and the highest strand placement. */
  lemma MedianBetweenExtremes(results: seq<StrandResult>, lo: ReadingLevel, hi: ReadingLevel)
    requires results != []
    requires forall i :: 0 <= i < |results| ==> Ordinal(lo) <= Ordinal(results[i].placementLevel) <= Ordinal(hi)
    ensures Ordinal(lo) <= Ordinal(MedianPlacement(results)) <= Ordinal(hi)
  {
    var m := MedianPlacement(results);
    var i :| 0 <= i < |results| && results[i].placementLevel == m;
  }

  /** The median does not depend on the order of the strand results. */
  lemma MedianOrderIndependent(a: seq<StrandResult>, b: seq<StrandResult>)
    requires a != [] && multiset(a) == multiset(b)
    ensures b != [] && MedianPlacement(a) == MedianPlacement(b)
  {
    assert |a| == |multiset(a)| == |b|;
    OrdinalsPermutation(a, b);
    SortedUnique(SortedOf(Ordinals(a)), SortedOf(Ordinals(b)));
  }

  /** Every strand within one step of the target puts the median within one step too. */
  lemma MedianWithinOneStep(results: seq<StrandResult>, targetGrade: ReadingLevel)
    requires results != []
    requires forall i :: 0 <= i < |results| ==> WithinOneStep(results[i].placementLevel, targetGrade)
    ensures WithinOneStep(MedianPlacement(results), targetGrade)
  {
    var m := MedianPlacement(results);
    var i :| 0 <= i < |results| && results[i].placementLevel == m;
  }

  /**
   * `calculateOverallPlacement`: the ordinals are written into an array,
   * sorted in place, and the middle one is read back. An empty list has no
   * placement (the source then yields `undefined`).
   */
  method CalculateOverallPlacement(strandResults: seq<StrandResult>, targetGrade: ReadingLevel)
    returns (p: Option<ReadingLevel>)
    ensures strandResults == [] <==> p.None?
    ensures strandResults != [] ==> p == Some(MedianPlacement(strandResults))
  {
    if |strandResults| == 0 {
      return None;
    }
    var placementIndices := new int[|strandResults|];
    var i := 0;
    while i < |strandResults|
      invariant 0 <= i <= |strandResults|
      invariant forall j :: 0 <= j < i ==> placementIndices[j] == Ordinal(strandResults[j].placementLevel)
    {
      placementIndices[i] := Ordinal(strandResults[i].placementLevel);
      i := i + 1;
    }
    assert placementIndices[..] == Ordinals(strandResults);
    SortAscending(placementIndices);
    var medianIndex := placementIndices[placementIndices.Length / 2];
    SortedOrdinalIsPlacement(strandResults, |strandResults| / 2);
    p := Some(FromOrdinal(medianIndex));
  }

  // ------------------------------------------------- support adjustment

  /** `strandResults.filter(r => r.level === BELOW_GRADE).length`. */
  function BelowGradeCount(results: seq<StrandResult>): (n: nat)
    ensures n <= |results|
    ensures n == 0 <==> forall i :: 0 <= i < |results| ==> results[i].level != BELOW_GRADE
  {
    if results == [] then 0
    else
      (if results[0].level == BELOW_GRADE then 1 else 0) + BelowGradeCount(results[1..])
  }

  /**
   * `calculateRecommendedLevel`: three or more BELOW_GRADE strands lower the
   * overall placement one level (clamped at PRE_K); otherwise it is kept.
   */
  function CalculateRecommendedLevel(results: seq<StrandResult>, overallPlacement: ReadingLevel): (r: ReadingLevel)
    ensures BelowGradeCount(results) >= 3 ==> r == StepDown(overallPlacement)
    ensures BelowGradeCount(results) < 3 ==> r == overallPlacement
    ensures r == overallPlacement || Ordinal(r) == Ordinal(overallPlacement) - 1
    ensures r != overallPlacement <==> BelowGradeCount(results) >= 3 && overallPlacement != PRE_K
  {
    var overallIndex := Ordinal(overallPlacement);
    if BelowGradeCount(results) >= 3 then
      GradeLevels[if overallIndex - 1 > 0 then overallIndex - 1 else 0]
    else
      overallPlacement
  }

  // --------------------------------------------------------- the session

  /**
   * `runPlacementActivities`: evaluates the strands, takes their median and
   * applies the support adjustment. The clock supplies the id and timestamp.
   */
  method RunPlacementActivities(studentId: string, targetGrade: ReadingLevel, warmupScore: int,
                                draws: seq<StrandDraw>, now: nat, completedAt: string)
    returns (resp: ApiResponse<DiagnosticResult>)
    requires |draws| == |Strands|
    ensures resp.success && resp.data.Some? && resp.message.None? && resp.error.None?
    ensures var d := resp.data.value;
      && d.id == "diagnostic-" + DecimalString(now)
      && d.studentId == studentId && d.completedAt == completedAt
      && d.strandResults == GenerateStrandResults(targetGrade, warmupScore, draws)
      && d.overallPlacement == MedianPlacement(d.strandResults)
      && d.recommendedStartingLevel == CalculateRecommendedLevel(d.strandResults, d.overallPlacement)
      && WithinOneStep(d.overallPlacement, targetGrade)
      && Ordinal(targetGrade) - 2 <= Ordinal(d.recommendedStartingLevel) <= Ordinal(targetGrade) + 1
  {
    var strandResults := GenerateStrandResults(targetGrade, warmupScore, draws);
    var overall := CalculateOverallPlacement(strandResults, targetGrade);
    MedianWithinOneStep(strandResults, targetGrade);
    var overallPlacement := overall.value;
    var recommended := CalculateRecommendedLevel(strandResults, overallPlacement);
    var result := DiagnosticResult("diagnostic-" + DecimalString(now), studentId, completedAt,
                                   overallPlacement, strandResults, recommended);
    resp := Ok(result);
  }

  // ------------------------------------------------------------ submission

  /** The override a submission stores: completed, and enabled unless a guardian disabled it. */
  function SubmittedOverride(current: Option<Override>): (o: Override)
    ensures o.hasCompletedDiagnostic
    ensures o.diagnosticEnabled <==> current.None? || current.value.diagnosticEnabled
  {
    Override(if current.Some? then current.value.diagnosticEnabled else true, true)
  }

  /** The store after `submitDiagnosticResults(studentId, result)`. */
  function Submitted(s: StoreState, studentId: string, result: DiagnosticResult): (t: StoreState)
    ensures t.diagnosticOverrides.Keys == s.diagnosticOverrides.Keys + {studentId}
    ensures t.diagnosticResults.Keys == s.diagnosticResults.Keys + {studentId}
    ensures t.diagnosticOverrides[studentId] == SubmittedOverride(Get(s.diagnosticOverrides, studentId))
    ensures t.diagnosticResults[studentId] == result
    ensures forall k :: k in s.diagnosticOverrides && k != studentId ==> t.diagnosticOverrides[k] == s.diagnosticOverrides[k]
    ensures forall k :: k in s.diagnosticResults && k != studentId ==> t.diagnosticResults[k] == s.diagnosticResults[k]
    ensures t.(diagnosticOverrides := s.diagnosticOverrides, diagnosticResults := s.diagnosticResults) == s
  {
    s.(diagnosticOverrides := s.diagnosticOverrides[studentId := SubmittedOverride(Get(s.diagnosticOverrides, studentId))],
       diagnosticResults := s.diagnosticResults[studentId := result])
  }

  /** Submitting the same result twice leaves the store as one submission did. */
  lemma SubmitIdempotent(s: StoreState, studentId: string, result: DiagnosticResult)
    ensures Submitted(Submitted(s, studentId, result), studentId, result) == Submitted(s, studentId, result)
  {
    var t := Submitted(s, studentId, result);
    assert SubmittedOverride(Get(t.diagnosticOverrides, studentId)) == t.diagnosticOverrides[studentId];
    assert t.diagnosticOverrides[studentId := t.diagnosticOverrides[studentId]] == t.diagnosticOverrides;
    assert t.diagnosticResults[studentId := result] == t.diagnosticResults;
  }

  /** `submitDiagnosticResults`: writes both maps of the override store under the student's id. */
  method SubmitDiagnosticResults(store: ParentTeacherStore, studentId: string, diagnosticResult: DiagnosticResult)
    returns (resp: ApiResponse<()>)
    modifies store
    ensures store.State() == Submitted(old(store.State()), studentId, diagnosticResult)
    ensures resp == OkMessage("Diagnostic results saved successfully")
  {
    var currentOverride := Get(store.diagnosticOverrides, studentId);
    store.diagnosticOverrides := store.diagnosticOverrides[studentId := SubmittedOverride(currentOverride)];
    store.diagnosticResults := store.diagnosticResults[studentId := diagnosticResult];
    resp := OkMessage("Diagnostic results saved successfully");
  }
}
