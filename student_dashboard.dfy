/**
 * The dashboard's routing rule and how the override store drives it: a
 * guardian's toggle and a student's submission decide, through the overlaid
 * profile, whether the student is sent to the diagnostic on the next login.
 */
module StudentDashboard {
  import opened Wrappers
  import opened ApiTypes
  import opened ParentTeacherSlice
  import opened ParentTeacherService
  import opened AuthService
  import opened Diagnostic

  /** `student && student.diagnosticEnabled && !student.hasCompletedDiagnostic`, for the signed-in user. */
  predicate NeedsDiagnostic(user: Option<User>)
  {
    user.Some? && user.value.StudentUser?
    && user.value.student.diagnosticEnabled && !user.value.student.hasCompletedDiagnostic
  }

  /**
   * Both readers of the override store, the login overlay and the detail
   * overlay, show a student the same two flags.
   */
  lemma ReadersAgree(d: StudentDetail, overrides: map<string, Override>, results: map<string, DiagnosticResult>)
    ensures var viaLogin := ApplyDiagnosticOverrides(StudentUser(d.student), overrides);
            var viaDetail := OverlayDetail(d, Get(overrides, d.student.id), Get(results, d.student.id));
            && viaLogin.student.diagnosticEnabled == viaDetail.student.diagnosticEnabled
            && viaLogin.student.hasCompletedDiagnostic == viaDetail.student.hasCompletedDiagnostic
  {
    assert StudentUser(d.student).Id() == d.student.id;
  }

  /** After a guardian enables the diagnostic, the student is sent to it. */
  lemma EnableSendsToDiagnostic(s: Student, overrides: map<string, Override>)
    ensures var o := ToggledOverride(true, Get(overrides, s.id), s);
            NeedsDiagnostic(Some(ApplyDiagnosticOverrides(StudentUser(s), overrides[s.id := o])))
  {
    assert StudentUser(s).Id() == s.id;
  }

  /** After a guardian disables the diagnostic, the student is not sent to it. */
  lemma DisableSkipsDiagnostic(s: Student, overrides: map<string, Override>)
    ensures var o := ToggledOverride(false, Get(overrides, s.id), s);
            !NeedsDiagnostic(Some(ApplyDiagnosticOverrides(StudentUser(s), overrides[s.id := o])))
  {
    assert StudentUser(s).Id() == s.id;
  }

  /** After the student's results are submitted, the student is not sent to it again. */
  lemma SubmissionEndsDiagnostic(s: Student, store: StoreState, result: DiagnosticResult)
    ensures var t := Submitted(store, s.id, result);
            !NeedsDiagnostic(Some(ApplyDiagnosticOverrides(StudentUser(s), t.diagnosticOverrides)))
  {
    assert StudentUser(s).Id() == s.id;
  }

  /** Without an override, the profile's own flags decide. */
  lemma NoOverrideProfileDecides(s: Student, overrides: map<string, Override>)
    requires s.id !in overrides
    ensures NeedsDiagnostic(Some(ApplyDiagnosticOverrides(StudentUser(s), overrides)))
            <==> s.diagnosticEnabled && !s.hasCompletedDiagnostic
  {
    assert StudentUser(s).Id() == s.id;
  }

  /** Guardians and teachers are never routed to the diagnostic. */
  lemma GuardiansNeverRouted(u: User, overrides: map<string, Override>)
    requires !u.StudentUser?
    ensures !NeedsDiagnostic(Some(ApplyDiagnosticOverrides(u, overrides)))
  {
  }
}
