# Forest: a verified model of the reading app's logic

Forest is a React front end for a reading-education product. Students take an
adaptive diagnostic that places them on a seven-level reading scale, work
through exercises and explore a map of world wonders that awards badges.
Parents and teachers manage their students and can switch the diagnostic on
or off for each of them. Everything the front end talks to is a mock service
working on in-memory fixtures.

This project models the logic under the pages, in Dafny:

- **Diagnostic placement engine** (`Diagnostic`). It computes:
  - a warm-up score;
  - five scored skill strands, each placed one level up, the same or one
    level down from the target grade, clamped at both ends;
  - the element at index n/2 of the sorted placement indices (for the five
    strands, the middle one), found by sorting an index array in place
    (`Sorting`);
  - a support adjustment that lowers the result one level when three or more
    strands are below grade.

  Submitting a result writes the shared diagnostic override store.
- **Override store and the parent/teacher service** (`ParentTeacherService`).
  One class holds both override maps and the mock lists of students, student
  details and goals. It implements the guardian operations: toggle the
  diagnostic, read a detail record, and link, create, update or unlink a
  student. It also sets goals, lists goals and assigns exercises.
- **Authentication service** (`AuthService`). It covers login, signup, the
  current user, logout and token verification. The client's token store is a
  field, and a token encodes the user's id. Profiles are read through the
  override overlay.
- **Dashboard routing** (`StudentDashboard`). This is the predicate
  `diagnosticEnabled && !hasCompletedDiagnostic` over overlaid profiles.
- **Exercise scoring service** (`StudentService`).
- **Student and parent/teacher Redux slices** (`StudentSlice`,
  `ParentTeacherSlice`). Their reducers are methods on a state class, with
  the pending/fulfilled/rejected loading pattern.
- **World Explorer** (`ExplorerSlice`, `ExplorerTypes`, `JourneyMap`,
  `ExplorerMap`):
  - the explorer slice, which handles visiting, awarding badges, favourites,
    dismissing achievements and unlocking the next wonder;
  - the journey map's station derivation;
  - the explorer map's filters and pins.
- **Utilities** (`RateLimiting`, `Security`):
  - the sliding-window rate limiter;
  - input sanitising, the URL-parameter and e-mail checks, password rules,
    key redaction and HTML escaping.

`Wrappers`, `Text`, `Seqs` and `Random` hold the JavaScript built-ins these
need:
- `Option` for `null`/`undefined`, and `Result` for a call that throws;
- `toLowerCase`, `includes`, `indexOf` and `replace`;
- `find`, `findIndex`, `filter` and `slice`;
- `Math.floor(Math.random() * k)` over an injected draw.

Where a comment in the source disagrees with its code, the model follows the
code:
- the warm-up score is 60 to 94 (the comment says 60-95);
- the strand variation is -10 to +9 (the comment says "+10");
- the assessment score is 70 to 99 (the comment says 70-100).

Lemmas prove that every value in those ranges is reachable.

## Model

| member | source | states |
|---|---|---|
| Wrappers.Get | src/features/parent_teacher/services/parent_teacher.api.service.ts:49-57 | `Map.get`: present exactly for stored keys, and then the stored value |
| Text.LowerChar | src/features/explorer/pages/ExplorerMapPage.tsx:68-76 | lower-casing maps A-Z to a-z (offset 32) and fixes every other character |
| Text.Lower | src/features/explorer/pages/ExplorerMapPage.tsx:68-76 | `toLowerCase` keeps the length and lowers each character independently |
| Text.LowerAppend | src/shared/utils/security.utils.ts:57-64 | lower-casing distributes over concatenation |
| Text.ContainsIff | src/shared/utils/security.utils.ts:57-64 | `includes` holds exactly when the needle occurs at some position |
| Text.IndexOf | src/features/auth/services/auth.api.service.ts:137 | `indexOf` gives the first occurrence, or -1 exactly when there is none |
| Text.ReplaceFirst | src/features/auth/services/auth.api.service.ts:137 | string `replace` splices the replacement in at the first occurrence and otherwise returns the input |
| Text.ReplaceLeadingPrefix | src/features/auth/services/auth.api.service.ts:137 | replacing a leading prefix by "" leaves exactly the rest |
| Text.DecimalString | src/features/student/services/diagnostic.service.ts:59 | a clock reading renders as a non-empty digit string with no leading zero |
| Text.DecimalRoundTrip | src/features/student/services/diagnostic.service.ts:59 | reading the digits back gives the number, so distinct readings give distinct ids |
| Seqs.FirstIndex | src/features/explorer/redux/slices/explorer.slice.ts:117 | `find`/`findIndex`: the first satisfying index, or -1 exactly when none satisfies |
| Seqs.Filter | src/features/parent_teacher/services/parent_teacher.api.service.ts:237 | `filter` keeps exactly the satisfying elements, as an order-preserving subsequence |
| Seqs.FilterMultiplicity | src/features/parent_teacher/services/parent_teacher.api.service.ts:237 | `filter` keeps each satisfying value exactly as many times as it occurs, so duplicates survive, and drops every other value |
| Seqs.FilterKeepsAll | src/features/explorer/pages/ExplorerMapPage.tsx:68-76 | a filter that rejects nothing returns its input |
| Seqs.FilterSnoc | src/shared/utils/botDetection.utils.ts:118-119 | filtering a list extended by one element extends the result by that element exactly when it passes |
| Seqs.FilterFilter | src/shared/utils/botDetection.utils.ts:118-119 | filtering twice with a stronger second predicate is filtering once with it |
| Seqs.FilterLengthMonotone | src/shared/utils/botDetection.utils.ts:118-119 | a weaker predicate keeps at least as many elements |
| Seqs.Take | src/features/explorer/pages/ExplorerMapPage.tsx:356 | `slice(0, n)` is the prefix of length min(n, length) |
| Random.FloorScaled | src/features/student/services/diagnostic.service.ts:27-28 | `Math.floor(r * k)` for r in [0, 1) lies in [0, k) |
| Random.FloorScaledBound | src/features/student/services/diagnostic.service.ts:27-28 | the scaled floor of a proper fraction is below k |
| Random.FloorScaledAttains | src/features/student/services/diagnostic.service.ts:27-28 | every integer in [0, k) is produced by some draw |
| Sorting.Insert | src/features/student/services/diagnostic.service.ts:186 | inserting into a sorted list keeps it sorted and adds exactly that element |
| Sorting.SortedOf | src/features/student/services/diagnostic.service.ts:186 | a sorted permutation of the input |
| Sorting.SortedUnique | src/features/student/services/diagnostic.service.ts:186 | two sorted lists with the same elements are equal, so the ascending sort has one result |
| Sorting.Swap | src/features/student/services/diagnostic.service.ts:186 | an exchange of two array cells keeps the multiset |
| Sorting.SiftDown | src/features/student/services/diagnostic.service.ts:186 | one insertion step extends the sorted prefix by one and keeps the multiset |
| Sorting.SortAscending | src/features/student/services/diagnostic.service.ts:186 | `sort((a, b) => a - b)` in place: sorted, a permutation, and equal to the sorted permutation |
| ApiTypes.Ok | src/shared/types/api.types.ts:5-10 | a successful envelope with data and no message or error |
| ApiTypes.OkMessage | src/shared/types/api.types.ts:5-10 | a successful envelope with only a message |
| ApiTypes.Ordinal | src/shared/types/api.types.ts:35-43 | `gradeLevels.indexOf(level)` is in 0..6 and indexes back to the level |
| ApiTypes.FromOrdinal | src/shared/types/api.types.ts:35-43 | indexing the level list inverts the ordinal |
| ApiTypes.OrdinalBijection | src/shared/types/api.types.ts:35-43 | exactly seven distinct levels, in declaration order, in bijection with 0..6 |
| ApiTypes.StepUp | src/features/student/services/diagnostic.service.ts:153-155 | one level up, clamped at GRADE_5 |
| ApiTypes.StepDown | src/features/student/services/diagnostic.service.ts:159-162 | one level down, clamped at PRE_K |
| ApiTypes.StrandsListed | src/shared/types/api.types.ts:51-57 | exactly five distinct skill strands, in the evaluator's order |
| Diagnostic.WarmupScore | src/features/student/services/diagnostic.service.ts:27-28 | the warm-up score lies in [60, 94] |
| Diagnostic.WarmupScoreAttained | src/features/student/services/diagnostic.service.ts:27-28 | every score in [60, 94] is reachable, so 94 is the true maximum and 95 never occurs |
| Diagnostic.RunWarmupTasks | src/features/student/services/diagnostic.service.ts:20-37 | always completed and successful, with the score `floor(r*35)+60` of the injected draw, hence in [60, 94] |
| Diagnostic.Variation | src/features/student/services/diagnostic.service.ts:89 | the accuracy variation lies in [-10, 9] |
| Diagnostic.VariationAttained | src/features/student/services/diagnostic.service.ts:89 | every variation in [-10, 9] is reachable |
| Diagnostic.Jitter | src/features/student/services/diagnostic.service.ts:94-95 | the response-time jitter lies in [0, 999] |
| Diagnostic.Clamp | src/features/student/services/diagnostic.service.ts:90 | `Math.min(hi, Math.max(lo, x))` lies in [lo, hi], is x inside and the nearer bound outside |
| Diagnostic.BaseResponseTime | src/features/student/services/diagnostic.service.ts:116-125 | every base time lies in [1500, 4000]; phonological awareness alone has the minimum and comprehension alone the maximum |
| Diagnostic.BaseResponseTimesDistinct | src/features/student/services/diagnostic.service.ts:116-125 | different strands have different base times |
| Diagnostic.DetermineSkillLevel | src/features/student/services/diagnostic.service.ts:130-134 | the bands partition accuracy with inclusive lower bounds at 80 and 60 (both directions) |
| Diagnostic.SkillLevelMonotone | src/features/student/services/diagnostic.service.ts:130-134 | the band never drops as accuracy rises |
| Diagnostic.DeterminePlacementLevel | src/features/student/services/diagnostic.service.ts:139-163 | 85 and above steps up, 60-84 keeps the target, below 60 steps down; always within one step; clamped at both ends |
| Diagnostic.EvaluateStrand | src/features/student/services/diagnostic.service.ts:88-101 | one strand's result: clamped accuracy in [40, 100], base time plus jitter, its band and its placement within one step |
| Diagnostic.BelowGradeIffMovedDown | src/features/student/services/diagnostic.service.ts:98-101 | a strand is BELOW_GRADE exactly when its placement took the move-down branch, so it lies below the target unless the target is PRE_K |
| Diagnostic.GenerateStrandResults | src/features/student/services/diagnostic.service.ts:77-111 | exactly five results, one per strand in the fixed order, each an evaluation of that strand |
| Diagnostic.Ordinals | src/features/student/services/diagnostic.service.ts:181-183 | the placement indices, one per result |
| Diagnostic.OrdinalsAppend | src/features/student/services/diagnostic.service.ts:181-183 | the index map distributes over concatenation |
| Diagnostic.OrdinalsPermutation | src/features/student/services/diagnostic.service.ts:181-183 | reordering the results reorders their indices alike |
| Diagnostic.SortedOrdinalIsPlacement | src/features/student/services/diagnostic.service.ts:186 | every sorted index is the index of some strand's placement |
| Diagnostic.MedianPlacement | src/features/student/services/diagnostic.service.ts:187-189 | the level at position n/2 of the sorted indices is one of the strand placements |
| Diagnostic.MedianBetweenExtremes | src/features/student/services/diagnostic.service.ts:169-190 | the median lies between the lowest and the highest placement |
| Diagnostic.MedianOrderIndependent | src/features/student/services/diagnostic.service.ts:169-190 | the median does not depend on the order of the strand results |
| Diagnostic.MedianWithinOneStep | src/features/student/services/diagnostic.service.ts:169-190 | if every strand is within one step of the target, so is the median |
| Diagnostic.CalculateOverallPlacement | src/features/student/services/diagnostic.service.ts:169-190 | the in-place sort-and-pick returns the median, and nothing exactly for an empty list |
| Diagnostic.BelowGradeCount | src/features/student/services/diagnostic.service.ts:199 | the number of BELOW_GRADE strands, zero exactly when there are none |
| Diagnostic.CalculateRecommendedLevel | src/features/student/services/diagnostic.service.ts:197-219 | three or more below-grade strands step the placement down (clamped); the result is the placement or its predecessor, and differs exactly when it stepped |
| Diagnostic.RunPlacementActivities | src/features/student/services/diagnostic.service.ts:43-71 | the result holds the five strands, their median and its adjustment; the placement is within one step of the target, and the recommendation between two below and one above |
| Diagnostic.SubmittedOverride | src/features/student/services/diagnostic.service.ts:235-241 | the stored override is completed, and enabled unless a guardian disabled it earlier |
| Diagnostic.Submitted | src/features/student/services/diagnostic.service.ts:235-244 | a submission writes the student's entry in both maps and no other key or field |
| Diagnostic.SubmitIdempotent | src/features/student/services/diagnostic.service.ts:235-244 | submitting the same result twice leaves the store as one submission did |
| Diagnostic.SubmitDiagnosticResults | src/features/student/services/diagnostic.service.ts:224-253 | the store changes exactly as a submission does, and the call answers with the saved message |
| ParentTeacherService.EmailIndex | src/features/parent_teacher/services/parent_teacher.api.service.ts:109-112 | the first student with that email, or -1 exactly when there is none |
| ParentTeacherService.AppendFreshEmail | src/features/parent_teacher/services/parent_teacher.api.service.ts:109-128 | appending a student with an unlisted email keeps emails unique |
| ParentTeacherService.OverlayDetail | src/features/parent_teacher/services/parent_teacher.api.service.ts:49-66 | an override's two flags replace the profile's, a stored result is attached, and nothing else changes |
| ParentTeacherService.ToggledOverride | src/features/parent_teacher/services/parent_teacher.api.service.ts:260-263 | enabling stores enabled and not completed; disabling keeps completion from the previous override, or else from the profile |
| ParentTeacherService.EditedStudent | src/features/parent_teacher/services/parent_teacher.api.service.ts:288-303 | an edit replaces the name, email, target grade and timestamp and keeps every other field |
| ParentTeacherService.RemoveAt | src/features/parent_teacher/services/parent_teacher.api.service.ts:175-180 | `splice(i, 1)` removes exactly entry i and keeps the rest in order |
| ParentTeacherService.ParentTeacherStore.constructor | src/features/parent_teacher/services/parent_teacher.api.service.ts:14-20 | both override maps start empty over the given fixtures |
| ParentTeacherService.ParentTeacherStore.GetStudents | src/features/parent_teacher/services/parent_teacher.api.service.ts:26-34 | the whole student list |
| ParentTeacherService.ParentTeacherStore.GetAvailableExercises | src/features/parent_teacher/services/parent_teacher.api.service.ts:158-166 | the whole exercise catalogue |
| ParentTeacherService.ParentTeacherStore.GetStudentDetail | src/features/parent_teacher/services/parent_teacher.api.service.ts:39-72 | an unknown id throws "Student not found"; otherwise the detail record with the store overlaid |
| ParentTeacherService.ParentTeacherStore.LinkStudent | src/features/parent_teacher/services/parent_teacher.api.service.ts:77-92 | throws exactly when no student has the email; otherwise a student with that email |
| ParentTeacherService.ParentTeacherStore.CreateStudent | src/features/parent_teacher/services/parent_teacher.api.service.ts:97-134 | a listed email throws and changes nothing; otherwise exactly one new, undiagnosed student with the requested flag is appended, and emails stay unique |
| ParentTeacherService.ParentTeacherStore.AssignExercise | src/features/parent_teacher/services/parent_teacher.api.service.ts:139-153 | throws exactly when the student is not listed; otherwise a bare success |
| ParentTeacherService.ParentTeacherStore.UnlinkStudent | src/features/parent_teacher/services/parent_teacher.api.service.ts:171-186 | a missing id throws and changes nothing; otherwise exactly the first entry with that id is removed |
| ParentTeacherService.ParentTeacherStore.UpdateStudent | src/features/parent_teacher/services/parent_teacher.api.service.ts:276-322 | a missing id throws; otherwise that entry is edited in place with every other entry and the length kept, and a detail record under the id is edited alike |
| ParentTeacherService.ParentTeacherStore.SetGoal | src/features/parent_teacher/services/parent_teacher.api.service.ts:191-228 | a missing student throws; otherwise exactly one goal at 0 and not completed is appended |
| ParentTeacherService.ParentTeacherStore.GetStudentGoals | src/features/parent_teacher/services/parent_teacher.api.service.ts:233-243 | exactly that student's goals, in stored order |
| ParentTeacherService.ParentTeacherStore.ToggleDiagnostic | src/features/parent_teacher/services/parent_teacher.api.service.ts:248-271 | an unlisted student throws and the store is unchanged; otherwise only that student's override is rewritten, with the matching message |
| AuthService.TokenRoundTrip | src/features/auth/services/auth.api.service.ts:116-137 | decoding a minted token gives back the id, whatever the id |
| AuthService.ApplyDiagnosticOverrides | src/features/auth/services/auth.api.service.ts:20-32 | only a student with an override changes, and then only its two flags |
| AuthService.ApplyOverridesIdempotent | src/features/auth/services/auth.api.service.ts:20-32 | overlaying twice is overlaying once |
| AuthService.UserEmailIndex | src/features/auth/services/auth.api.service.ts:45 | the first user with that email, or -1 exactly when there is none |
| AuthService.UserIdIndex | src/features/auth/services/auth.api.service.ts:138 | the first user with that id, or -1 exactly when there is none |
| AuthService.IdIndexOfMember | src/features/auth/services/auth.api.service.ts:138 | with unique ids, a member's id finds that member |
| AuthService.IdIndexOfAppended | src/features/auth/services/auth.api.service.ts:114 | a user appended under a fresh id is found at the end |
| AuthService.TokenForIsTruthy | src/features/auth/services/auth.api.service.ts:163-169 | a minted token is never empty, so it counts as present |
| AuthService.NewUser | src/features/auth/services/auth.api.service.ts:78-111 | the new user has the chosen role, id and email; a student starts with the diagnostic off and not done; a guardian has no students |
| AuthService.AuthApi.constructor | src/features/auth/services/auth.api.service.ts:1-4 | the user list as given, no token stored |
| AuthService.AuthApi.GetCurrentUser | src/features/auth/services/auth.api.service.ts:128-151 | no token throws "No token found"; an unknown decoded id throws "User not found"; otherwise that user, overlaid |
| AuthService.AuthApi.VerifyToken | src/features/auth/services/auth.api.service.ts:163-169 | valid exactly when a non-empty token is stored |
| AuthService.AuthApi.Login | src/features/auth/services/auth.api.service.ts:38-61 | an unknown email throws and changes nothing, and the password is never checked; otherwise the id's token is stored and reading the current user back gives the same overlaid user |
| AuthService.AuthApi.Signup | src/features/auth/services/auth.api.service.ts:66-123 | a listed email throws and changes nothing; otherwise exactly one user is appended, its token is stored and it reads back as the current user |
| AuthService.AuthApi.Logout | src/features/auth/services/auth.api.service.ts:156-158 | only the token is cleared, after which it does not verify and there is no current user |
| StudentDashboard.ReadersAgree | src/features/student/pages/StudentDashboard.tsx:35-40 | the login overlay and the detail overlay give a student the same two flags |
| StudentDashboard.EnableSendsToDiagnostic | src/features/student/pages/StudentDashboard.tsx:40 | after a guardian enables the diagnostic, the student is routed to it |
| StudentDashboard.DisableSkipsDiagnostic | src/features/student/pages/StudentDashboard.tsx:40 | after a guardian disables it, the student is not routed to it |
| StudentDashboard.SubmissionEndsDiagnostic | src/features/student/pages/StudentDashboard.tsx:40 | after a submission, the student is not routed to it again |
| StudentDashboard.NoOverrideProfileDecides | src/features/student/pages/StudentDashboard.tsx:40 | without an override, the profile's own flags decide |
| StudentDashboard.GuardiansNeverRouted | src/features/student/pages/StudentDashboard.tsx:40 | parents and teachers are never routed to the diagnostic |
| StudentService.CorrectCount | src/features/student/services/student.api.service.ts:90-95 | the count of correctly answered questions is at most the number of questions |
| StudentService.CorrectCountAll | src/features/student/services/student.api.service.ts:90-95 | all questions count exactly when each is keyed and answered with its key |
| StudentService.KeylessNeverCounts | src/features/student/services/student.api.service.ts:92 | questions without a key never count |
| StudentService.CountCorrectAnswers | src/features/student/services/student.api.service.ts:90-95 | the counting loop computes the correct count |
| StudentService.RoundedPercent | src/features/student/services/student.api.service.ts:97 | round(100·c/n) is the nearest integer (halves up) in [0, 100], hitting 100 and 0 at the ends; no score (NaN) exactly when there are no questions |
| StudentService.RoundingFacts | src/features/student/services/student.api.service.ts:97 | the integer formula satisfies the rounding bounds |
| StudentService.ExerciseFeedback | src/features/student/services/student.api.service.ts:107 | praise exactly when the score is at least 70 |
| StudentService.AssessmentScore | src/features/student/services/student.api.service.ts:21 | the assessment score lies in [70, 99] |
| StudentService.AssessmentScoreAttained | src/features/student/services/student.api.service.ts:21 | every score in [70, 99] is reachable |
| StudentService.StudentStore.constructor | src/features/student/services/student.api.service.ts:10 | the store starts as the given fixtures |
| StudentService.StudentStore.GetExercises | src/features/student/services/student.api.service.ts:43-51 | the whole exercise list |
| StudentService.StudentStore.GetExerciseById | src/features/student/services/student.api.service.ts:56-70 | throws "Exercise not found" exactly when no exercise has the id; otherwise the first with that id |
| StudentService.StudentStore.SubmitExercise | src/features/student/services/student.api.service.ts:75-120 | an unknown exercise throws and changes nothing; otherwise the attempt echoes the answers and time with the rounded score and its feedback, and only that exercise becomes completed |
| StudentService.StudentStore.SubmitAssessment | src/features/student/services/student.api.service.ts:16-38 | a score in [70, 99] filed at GRADE_1 with its feedback line, appended as exactly one assessment |
| StudentSlice.ExerciseIndex | src/features/student/redux/slices/student.slice.ts:231-242 | the first exercise with that id, or -1 exactly when there is none |
| StudentSlice.StudentState.constructor | src/features/student/redux/slices/student.slice.ts:78-87 | empty lists, nothing selected, not loading, no error |
| StudentSlice.StudentState.ClearError | src/features/student/redux/slices/student.slice.ts:169-171 | only the error is reset |
| StudentSlice.StudentState.ClearCurrentExercise | src/features/student/redux/slices/student.slice.ts:172-174 | only the open exercise is reset |
| StudentSlice.StudentState.Pending | src/features/student/redux/slices/student.slice.ts:179-276 | every pending case: loading, error cleared, nothing else |
| StudentSlice.StudentState.Rejected | src/features/student/redux/slices/student.slice.ts:179-276 | every rejected case: loading stops, the message is stored, nothing else |
| StudentSlice.StudentState.TakeAssessmentFulfilled | src/features/student/redux/slices/student.slice.ts:183-189 | the assessment becomes current and the history grows by exactly that one |
| StudentSlice.StudentState.FetchExercisesFulfilled | src/features/student/redux/slices/student.slice.ts:197-208 | the list becomes the payload, or empty |
| StudentSlice.StudentState.FetchExerciseByIdFulfilled | src/features/student/redux/slices/student.slice.ts:212-223 | the payload becomes the open exercise |
| StudentSlice.StudentState.SubmitExerciseFulfilled | src/features/student/redux/slices/student.slice.ts:227-246 | only the first exercise with the attempt's id is marked completed; an unknown id changes no exercise |
| StudentSlice.StudentState.FetchProgressFulfilled | src/features/student/redux/slices/student.slice.ts:250-261 | the payload becomes the progress |
| StudentSlice.StudentState.FetchGoalsFulfilled | src/features/student/redux/slices/student.slice.ts:265-276 | the goal list becomes the payload, or empty |
| ParentTeacherSlice.SpreadStudent | src/features/parent_teacher/redux/slices/parent_teacher.slice.ts:260-265 | `{ ...base, ...over }`: the required fields come from `over`, and each optional field from `over` when present |
| ParentTeacherSlice.SpreadProperties | src/features/parent_teacher/redux/slices/parent_teacher.slice.ts:260-265 | spreading a record over itself is the identity, and a record with every field present wins outright |
| ParentTeacherSlice.StudentIndex | src/features/parent_teacher/redux/slices/parent_teacher.slice.ts:254-258 | the first student with that id, or -1 exactly when there is none |
| ParentTeacherSlice.ParentTeacherState.constructor | src/features/parent_teacher/redux/slices/parent_teacher.slice.ts:20-26 | empty lists, no selection, not loading, no error |
| ParentTeacherSlice.ParentTeacherState.ClearError | src/features/parent_teacher/redux/slices/parent_teacher.slice.ts:144-146 | only the error is reset |
| ParentTeacherSlice.ParentTeacherState.ClearSelectedStudent | src/features/parent_teacher/redux/slices/parent_teacher.slice.ts:147-149 | only the selection is reset |
| ParentTeacherSlice.ParentTeacherState.Pending | src/features/parent_teacher/redux/slices/parent_teacher.slice.ts:153-271 | every pending case: loading, error cleared, nothing else |
| ParentTeacherSlice.ParentTeacherState.Rejected | src/features/parent_teacher/redux/slices/parent_teacher.slice.ts:153-271 | every rejected case: loading stops, the message is stored, nothing else |
| ParentTeacherSlice.ParentTeacherState.FetchStudentsFulfilled | src/features/parent_teacher/redux/slices/parent_teacher.slice.ts:154-165 | the list becomes the payload, or empty |
| ParentTeacherSlice.ParentTeacherState.FetchStudentDetailFulfilled | src/features/parent_teacher/redux/slices/parent_teacher.slice.ts:169-180 | the payload becomes the selection |
| ParentTeacherSlice.ParentTeacherState.AppendStudentFulfilled | src/features/parent_teacher/redux/slices/parent_teacher.slice.ts:184-214 | a present payload is appended, with no de-duplication |
| ParentTeacherSlice.ParentTeacherState.AssignExerciseFulfilled | src/features/parent_teacher/redux/slices/parent_teacher.slice.ts:218-228 | only loading stops |
| ParentTeacherSlice.ParentTeacherState.FetchAvailableExercisesFulfilled | src/features/parent_teacher/redux/slices/parent_teacher.slice.ts:232-243 | the catalogue becomes the payload, or empty |
| ParentTeacherSlice.ParentTeacherState.UpdateStudentFulfilled | src/features/parent_teacher/redux/slices/parent_teacher.slice.ts:247-271 | the first student with the payload's id is replaced in place with the length kept; a matching selection gets the payload spread over it and keeps its progress and history |
| ExplorerTypes.CategoriesListed | src/features/explorer/types/explorer.types.ts:1-4 | exactly two categories, with distinct string values |
| ExplorerTypes.ContinentsListed | src/features/explorer/types/explorer.types.ts:6-12 | exactly five continents, with distinct string values |
| ExplorerTypes.BadgeTypesListed | src/features/explorer/types/explorer.types.ts:14-23 | exactly eight badge types, with distinct string values |
| ExplorerSlice.WonderIndex | src/features/explorer/redux/slices/explorer.slice.ts:41 | the first wonder with that id, or -1 exactly when there is none |
| ExplorerSlice.WonderIndexAfterUpdate | src/features/explorer/redux/slices/explorer.slice.ts:43 | updating a wonder in place moves no lookup by id |
| ExplorerSlice.BadgeIndex | src/features/explorer/redux/slices/explorer.slice.ts:107-109 | the first held badge of that type, or -1 exactly when there is none |
| ExplorerSlice.Awarded | src/features/explorer/redux/slices/explorer.slice.ts:48-61 | the award loop only ever appends to the held badges |
| ExplorerSlice.AwardedCovers | src/features/explorer/redux/slices/explorer.slice.ts:48-61 | after the loop every one of the wonder's badge types is held |
| ExplorerSlice.AwardedFresh | src/features/explorer/redux/slices/explorer.slice.ts:52-57 | each appended badge is new, earned now, of one of the types, and was not held before |
| ExplorerSlice.AwardedUnique | src/features/explorer/redux/slices/explorer.slice.ts:49-53 | held badge types stay unique |
| ExplorerSlice.AwardedLatest | src/features/explorer/redux/slices/explorer.slice.ts:58-59 | the latest badge is the last one appended, the banner shows once something was appended, and otherwise both are kept |
| ExplorerSlice.AwardedHeldNoop | src/features/explorer/redux/slices/explorer.slice.ts:49-52 | when every type is already held the loop changes nothing |
| ExplorerSlice.AwardedTwice | src/features/explorer/redux/slices/explorer.slice.ts:48-61 | running the loop again over the same types changes nothing |
| ExplorerSlice.AwardBadges | src/features/explorer/redux/slices/explorer.slice.ts:48-61 | the `forEach` loop computes the award state |
| ExplorerSlice.VisitedNoop | src/features/explorer/redux/slices/explorer.slice.ts:41-42 | an unknown or already visited wonder leaves the whole state unchanged |
| ExplorerSlice.VisitedFrame | src/features/explorer/redux/slices/explorer.slice.ts:40-64 | a first visit flips exactly that wonder's flag and changes only the wonders, progress and banner; without progress only the flag changes |
| ExplorerSlice.VisitedLookups | src/features/explorer/redux/slices/explorer.slice.ts:41-43 | visiting moves no lookup by id, and the visited wonder is then flagged |
| ExplorerSlice.VisitedProgress | src/features/explorer/redux/slices/explorer.slice.ts:44-61 | a first visit with progress adds exactly one to the count, keeps the held badges in order, makes every badge type of the wonder held and keeps the other progress fields |
| ExplorerSlice.VisitedKeepsBadgesUnique | src/features/explorer/redux/slices/explorer.slice.ts:47-61 | visiting keeps progress present or absent and never gives the same badge type twice |
| ExplorerSlice.VisitedIdempotent | src/features/explorer/redux/slices/explorer.slice.ts:40-64 | a second visit to the same wonder changes nothing, whatever the time |
| ExplorerSlice.FilterMembership | src/features/explorer/redux/slices/explorer.slice.ts:73-75 | the filtered favourites hold exactly the old ids other than this one |
| ExplorerSlice.ExplorerState.constructor | src/features/explorer/redux/slices/explorer.slice.ts:17-27 | the catalogue, nothing selected or filtered, no progress, explorer mode, no banner |
| ExplorerSlice.ExplorerState.SelectWonder | src/features/explorer/redux/slices/explorer.slice.ts:33-36 | the selection becomes the first wonder with that id, or nothing; only the selection changes |
| ExplorerSlice.ExplorerState.ClearSelectedWonder | src/features/explorer/redux/slices/explorer.slice.ts:37-39 | only the selection is reset |
| ExplorerSlice.ExplorerState.VisitWonder | src/features/explorer/redux/slices/explorer.slice.ts:40-64 | the new state is the visited state, and unique badge types stay unique |
| ExplorerSlice.ExplorerState.ToggleFavorite | src/features/explorer/redux/slices/explorer.slice.ts:65-79 | the wonder's flag flips; becoming a favourite appends the id and leaving removes every occurrence; with unique ids, favourites stay in sync with the flags |
| ExplorerSlice.ExplorerState.SetFilterCategory | src/features/explorer/redux/slices/explorer.slice.ts:80-82 | only the category filter changes |
| ExplorerSlice.ExplorerState.SetFilterContinent | src/features/explorer/redux/slices/explorer.slice.ts:83-85 | only the continent filter changes |
| ExplorerSlice.ExplorerState.SetSearchQuery | src/features/explorer/redux/slices/explorer.slice.ts:86-88 | only the query changes |
| ExplorerSlice.ExplorerState.SetMode | src/features/explorer/redux/slices/explorer.slice.ts:89-91 | only the mode changes |
| ExplorerSlice.ExplorerState.InitializeProgress | src/features/explorer/redux/slices/explorer.slice.ts:92-102 | a fresh record: nothing visited, earned or favoured, zero streak and quiz score, out of 196 |
| ExplorerSlice.ExplorerState.HideAchievement | src/features/explorer/redux/slices/explorer.slice.ts:103-115 | the banner closes, the latest badge is forgotten and only the first held badge of that type stops being new |
| ExplorerSlice.ExplorerState.UnlockNextWonder | src/features/explorer/redux/slices/explorer.slice.ts:116-121 | only the first locked wonder is unlocked, and nothing changes when all are unlocked |
| JourneyMap.WondersVisited | src/features/explorer/pages/JourneyMapPage.tsx:20 | missing progress counts as zero visits |
| JourneyMap.Stations | src/features/explorer/pages/JourneyMapPage.tsx:23-78 | six stations numbered 1-6; the first is always unlocked; station k is unlocked exactly from its band's start and completed exactly from its band's end |
| JourneyMap.CompletionUnlocksNext | src/features/explorer/pages/JourneyMapPage.tsx:30-75 | completing a station unlocks the next |
| JourneyMap.FlagsMonotone | src/features/explorer/pages/JourneyMapPage.tsx:30-75 | both flags only switch on as visits grow |
| JourneyMap.CountsWithinCaps | src/features/explorer/pages/JourneyMapPage.tsx:31-76 | each count lies within its band's width and reaches it exactly when the station is completed |
| JourneyMap.CountsAddUp | src/features/explorer/pages/JourneyMapPage.tsx:31-76 | the counts add up to the visits, capped at 196 |
| JourneyMap.StationClick | src/features/explorer/pages/JourneyMapPage.tsx:80-84 | a click navigates to the explorer exactly when the station is unlocked |
| ExplorerMap.NextFilter | src/features/explorer/pages/ExplorerMapPage.tsx:60-66 | choosing the active value clears the filter, and any other choice sets it |
| ExplorerMap.FilterTogglesBack | src/features/explorer/pages/ExplorerMapPage.tsx:60-66 | pressing the same button twice from no filter returns to no filter |
| ExplorerMap.FilteredWonders | src/features/explorer/pages/ExplorerMapPage.tsx:68-76 | exactly the wonders matching category, continent and search, in catalogue order |
| ExplorerMap.NoFilterKeepsAll | src/features/explorer/pages/ExplorerMapPage.tsx:68-76 | no filter and an empty query keep every wonder |
| ExplorerMap.SearchIgnoresCase | src/features/explorer/pages/ExplorerMapPage.tsx:70-75 | the search ignores the case of the query's letters |
| ExplorerMap.LowerIdempotent | src/features/explorer/pages/ExplorerMapPage.tsx:70-75 | lower-casing twice is lower-casing once |
| ExplorerMap.Pins | src/features/explorer/pages/ExplorerMapPage.tsx:356 | exactly the first min(20, n) filtered wonders are pinned, in catalogue order |
| ExplorerMap.TotalShown | src/features/explorer/pages/ExplorerMapPage.tsx:78-79 | the stored total, or 196 when progress is missing or the total is 0 |
| RateLimiting.Recent | src/shared/utils/botDetection.utils.ts:118-119 | exactly the attempts younger than the window, in order |
| RateLimiting.RateLimiter.constructor | src/shared/utils/botDetection.utils.ts:105 | no key has any history |
| RateLimiting.RateLimiter.IsRateLimited | src/shared/utils/botDetection.utils.ts:114-130 | limited exactly when the recent count reaches the limit, and then nothing is stored; otherwise the recent attempts plus now become the key's history; other keys are untouched and the limit bounds every history |
| RateLimiting.RateLimiter.Clear | src/shared/utils/botDetection.utils.ts:136-138 | only that key is forgotten, so its next call sees no recent attempts |
| RateLimiting.RecentOfExact | src/shared/utils/botDetection.utils.ts:118-119 | under an exact history, the recent attempts are the accepted calls in the window |
| RateLimiting.AcceptKeepsHistoryExact | src/shared/utils/botDetection.utils.ts:126-129 | an accepted call keeps the history exact |
| RateLimiting.AcceptKeepsSlidingOk | src/shared/utils/botDetection.utils.ts:121-127 | an accepted call keeps every call within its limit |
| RateLimiting.AcceptKeepsOrder | src/shared/utils/botDetection.utils.ts:126-127 | calls in time order keep the accepted list ordered |
| RateLimiting.StepKeepsRunInv | src/shared/utils/botDetection.utils.ts:114-130 | one call keeps the run invariant |
| RateLimiting.RunInvariant | src/shared/utils/botDetection.utils.ts:114-130 | every run of calls in time order keeps the run invariant |
| RateLimiting.DropLast | src/shared/utils/botDetection.utils.ts:119-127 | a prefix of a run is still ordered and within its limits |
| RateLimiting.WindowWithinBefore | src/shared/utils/botDetection.utils.ts:118-119 | calls in a window ending after x, none later than x, are within x's window |
| RateLimiting.SlidingWindowCount | src/shared/utils/botDetection.utils.ts:119-127 | an ordered run within its limits has at most the limit of calls in any window |
| RateLimiting.WindowBound | src/shared/utils/botDetection.utils.ts:119-127 | for calls in time order, at most maxAttempts calls are accepted in any window |
| Security.TrimStart | src/shared/utils/security.utils.ts:30 | a suffix that does not start with whitespace, with only whitespace dropped |
| Security.TrimEnd | src/shared/utils/security.utils.ts:30 | a prefix that does not end with whitespace, with only whitespace dropped |
| Security.Trim | src/shared/utils/security.utils.ts:30 | a slice of the input with no whitespace at either end |
| Security.Collapse | src/shared/utils/security.utils.ts:30 | at most as long, empty exactly for empty input, and non-space ends kept |
| Security.CollapseIsSingleSpaced | src/shared/utils/security.utils.ts:30 | after collapsing, whitespace occurs only as single spaces |
| Security.CollapseChars | src/shared/utils/security.utils.ts:30 | collapsing writes only spaces and characters of its input |
| Security.CollapseSingleSpaced | src/shared/utils/security.utils.ts:30 | single-spaced text is already collapsed |
| Security.StripTags | src/shared/utils/security.utils.ts:24 | the result is no longer than the input and uses only its characters |
| Security.StripTagsLeavesNoTag | src/shared/utils/security.utils.ts:24 | after stripping, no '<' has a '>' after it |
| Security.StripTagsNoTag | src/shared/utils/security.utils.ts:24 | text with nothing tag-shaped passes through |
| Security.StripTagsLeadingTag | src/shared/utils/security.utils.ts:24 | a tag at the front is removed |
| Security.StripTagsPlainPrefix | src/shared/utils/security.utils.ts:24 | text without '<' is kept in front of the stripped rest |
| Security.StripTagsRemovesTag | src/shared/utils/security.utils.ts:24 | a tag after tag-free text is removed and the text kept |
| Security.StripTagsCons | src/shared/utils/security.utils.ts:24 | a leading character other than '<' is kept |
| Security.ScriptMatchEnd | src/shared/utils/security.utils.ts:27 | a script match at the front spans at least "<script" and "</script>" |
| Security.RemoveScripts | src/shared/utils/security.utils.ts:27 | removing scripts never lengthens the text |
| Security.ScriptMatchShape | src/shared/utils/security.utils.ts:27 | every script match starts with '<' and ends with '>' |
| Security.NoScriptMatch | src/shared/utils/security.utils.ts:24-27 | tag-free text holds no script match |
| Security.RemoveScriptsNoTag | src/shared/utils/security.utils.ts:24-27 | after tag stripping, the script pass is the identity |
| Security.SanitizeInput | src/shared/utils/security.utils.ts:20-33 | empty input gives empty output, and the output is never longer |
| Security.CollapseKeepsNoTag | src/shared/utils/security.utils.ts:24-30 | collapsing keeps tag-free text tag-free |
| Security.TrimCollapseIsClean | src/shared/utils/security.utils.ts:30 | trimming then collapsing tag-free text gives clean text |
| Security.SanitizedIsClean | src/shared/utils/security.utils.ts:20-33 | sanitised text has no tags, no whitespace at either end and only single spaces |
| Security.SanitizeClean | src/shared/utils/security.utils.ts:20-33 | clean text is a fixed point of sanitising |
| Security.SanitizeIdempotent | src/shared/utils/security.utils.ts:20-33 | sanitising twice is sanitising once |
| Security.IsValidUrlParam | src/shared/utils/security.utils.ts:40-43 | valid exactly when non-empty and every character is unreserved in the sense of section 2.3 of RFC 3986 |
| Security.SensitiveSnoc | src/shared/utils/security.utils.ts:57-64 | one more redaction key extends the sensitive keys by those containing it |
| Security.RedactSensitiveData | src/shared/utils/security.utils.ts:51-67 | the same keys; exactly the sensitive keys hold "[REDACTED]" and every other value is the original |
| Security.EmailCharacterisation | src/shared/utils/security.utils.ts:74-77 | valid exactly when there is no whitespace and exactly one '@', with text before it and a '.' after it that is neither first nor last in the domain |
| Security.Utf16Length | src/shared/utils/security.utils.ts:87 | `.length` counts UTF-16 code units: between one and two per character |
| Security.ValidatePassword | src/shared/utils/security.utils.ts:84-104 | valid exactly when at least 8 long with an upper-case letter, a lower-case letter and a digit; otherwise the first broken rule's message |
| Security.EscapeChar | src/shared/utils/security.utils.ts:112-119 | the six special characters become entities and every other character stays |
| Security.EscapeHtml | src/shared/utils/security.utils.ts:111-122 | no raw special character except entity '&'s remains; text without special characters is unchanged |
| Security.EscapeAppend | src/shared/utils/security.utils.ts:121 | escaping works character by character |
| Security.UnescapeChar | src/shared/utils/security.utils.ts:112-119 | each character's escape decodes back to that character |
| Security.EscapeRoundTrip | src/shared/utils/security.utils.ts:111-122 | decoding the entities gives the original text back |
| Security.EscapeInjective | src/shared/utils/security.utils.ts:111-122 | distinct texts have distinct escapes |
| Security.UrlParamIsInert | src/shared/utils/security.utils.ts:20-43 | a valid URL parameter passes unchanged through sanitising and escaping |

## Left out

- Pages, JSX rendering, styling, navigation, forms and the animated welcome scene are not modelled. Only the journey-station derivation, the explorer-map filter and the dashboard's routing predicate are taken from the pages.
- Simulated latency (`setTimeout`) and the async thunk machinery are not modelled. Service calls are synchronous; a thrown `Error` is a `Failure` with the same message, and a rejected thunk is `Rejected(message)`.
- The two reducer classes are independent of the services: nothing connects a thunk's fulfilled payload to the service call that produced it.
- The clock and randomness are parameters:
  - `Math.random()` is an injected fraction in [0, 1);
  - the `user-`, `student-`, `goal-`, `attempt-` and `assessment-` ids and the ISO timestamps are passed in as strings;
  - the diagnostic id is `"diagnostic-"` followed by the decimal digits of an injected clock reading.

  The distribution of the random values is not modelled.
- The HTTP client is not modelled. The stored token is a field of `AuthService.AuthApi`, and the override store is shared by reference between the auth service and the parent/teacher service.
- Mock data files are not modelled. The fixtures are constructor arguments.
- ParentTeacherService.ParentTeacherStore.CreateStudent, ParentTeacherService.ParentTeacherStore.UnlinkStudent, ParentTeacherService.ParentTeacherStore.UpdateStudent, ParentTeacherService.ParentTeacherStore.SetGoal and StudentService.StudentStore.SubmitExercise: object identity is not modelled. In the source, `getStudents`, `getExercises`, `getExerciseById` and `getGoals` hand back the mock arrays, and the objects in them, themselves. Once a slice has stored such a payload, Immer freezes it, so a later `push`, `splice` or `isCompleted = true` on the same fixture can throw a TypeError and the thunk rejects. The model treats service lists and slice state as separate values, so these calls always take their success path there.
- One timestamp per call: where the source reads the clock several times in one call (each awarded badge in `visitWonder`, `createdAt` and `updatedAt` in `createStudent`, the two `updatedAt` writes in `updateStudent`), the model uses one `now`. Console logging in `submitDiagnosticResults` and `toggleDiagnostic` is not modelled.
- Concurrency is not modelled. A guardian's toggle and a student's submission are separate calls; interleavings are not modelled, and the last write wins.
- `sanitizeHtml` and its sanitising library are not part of this model.
- Browser probes are not part of this model: `generateFingerprint`, `detectBotUserAgent`, `detectAutomation` and `performBotCheck` read browser globals.
- `getProgress`, `getAssessmentHistory` and `getGoals` of the student service only return fixtures, so they are not modelled.
- Floating-point displays are not modelled: average accuracies, percentages, map projection and day counts.
- StudentService.RoundedPercent: `Math.round(correct / n * 100)` is computed exactly in integers. The source computes it in doubles, where an exact half could in principle round differently.
- Text.Lower: `toLowerCase` is modelled on ASCII letters only. Other letters are left unchanged.
- Security.RedactSensitiveData: values are strings, numbers, booleans or null. Nested objects and arrays are not modelled; the source copies them shallowly and never looks inside.
- Security.StripTags and Security.RemoveScripts: the regular expressions are written out as character-level functions. Case-insensitive matching in the script pattern covers ASCII letters only.
- Diagnostic.CalculateOverallPlacement: an empty strand list gives `None`, where the source reads `undefined` out of range. The callers always pass five strands.
- ParentTeacherService.ParentTeacherStore.GetStudentDetail: the overlay puts the two flags and the result on the detail record's student part. In the source, the detail record extends the student and is the student itself.
- ParentTeacherService.ParentTeacherStore.UpdateStudent: like the source, it does no duplicate-email check, so the unique-email property is not preserved by updates.
- JourneyMap.CountsWithinCaps: only stated for a non-negative visit count, since the stored count never goes below zero.
- RateLimiting.RateLimiter.Clear: it keeps the history bound stated for the default limit of five. Clearing a key keeps any bound, but the postcondition names one.
- ExplorerSlice.ExplorerState.SelectWonder: the selection is the same frozen object as the list entry. Because the state is immutable, a later reducer write to that wonder makes a new copy in the list and leaves the selection as it was. So the model's value semantics (the selection is a value that later changes to the wonder list do not reach) match the source.
