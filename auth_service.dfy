/**
 * The mock authentication service: users looked up by email or by the id
 * carried in a mock token, a token store, and the overlay of the diagnostic
 * override store onto student profiles.
 */
module AuthService {
  import opened Wrappers
  import opened ApiTypes
  import opened Seqs
  import opened Text
  import opened ParentTeacherService

  /** The prefix every mock token starts with. */
  const TokenPrefix: string := "mock-jwt-token-"

  /** `` `mock-jwt-token-${id}` ``. */
  function TokenFor(id: string): string
  {
    TokenPrefix + id
  }

  /** `token.replace('mock-jwt-token-', '')`. */
  function UserIdOf(token: string): string
  {
    ReplaceFirst(token, TokenPrefix, "")
  }

  /** Decoding a token minted for an id recovers that id, whatever the id contains. */
  lemma TokenRoundTrip(id: string)
    ensures UserIdOf(TokenFor(id)) == id
  {
    ReplaceLeadingPrefix(TokenPrefix, id);
  }

  /**
   * `applyDiagnosticOverrides`: a student with an override gets exactly its two
   * flags; every other user, and every other field, is returned unchanged.
   */
  function ApplyDiagnosticOverrides(user: User, overrides: map<string, Override>): (r: User)
    ensures r.Role() == user.Role() && r.Id() == user.Id() && r.Email() == user.Email()
    ensures !user.StudentUser? || user.Id() !in overrides ==> r == user
    ensures user.StudentUser? && user.Id() in overrides ==>
      && r.StudentUser?
      && r.student.diagnosticEnabled == overrides[user.Id()].diagnosticEnabled
      && r.student.hasCompletedDiagnostic == overrides[user.Id()].hasCompletedDiagnostic
      && r.student.(diagnosticEnabled := user.student.diagnosticEnabled,
                    hasCompletedDiagnostic := user.student.hasCompletedDiagnostic) == user.student
  {
    match user
    case StudentUser(s) =>
      var o := Get(overrides, s.id);
      if o.Some? then
        StudentUser(s.(diagnosticEnabled := o.value.diagnosticEnabled,
                       hasCompletedDiagnostic := o.value.hasCompletedDiagnostic))
      else user
    case _ => user
  }

  /** Applying the overlay a second time changes nothing. */
  lemma ApplyOverridesIdempotent(user: User, overrides: map<string, Override>)
    ensures ApplyDiagnosticOverrides(ApplyDiagnosticOverrides(user, overrides), overrides)
            == ApplyDiagnosticOverrides(user, overrides)
  {
  }

  /** `users.find(u => u.email === email)`, as an index. */
  function UserEmailIndex(users: seq<User>, email: string): (i: int)
    ensures -1 <= i < |users|
    ensures i >= 0 ==> users[i].Email() == email && forall j :: 0 <= j < i ==> users[j].Email() != email
    ensures i == -1 <==> forall j :: 0 <= j < |users| ==> users[j].Email() != email
  {
    FirstIndex(users, (u: User) => u.Email() == email)
  }

  /** `users.find(u => u.id === id)`, as an index. */
  function UserIdIndex(users: seq<User>, id: string): (i: int)
    ensures -1 <= i < |users|
    ensures i >= 0 ==> users[i].Id() == id && forall j :: 0 <= j < i ==> users[j].Id() != id
    ensures i == -1 <==> forall j :: 0 <= j < |users| ==> users[j].Id() != id
  {
    FirstIndex(users, (u: User) => u.Id() == id)
  }

  /** No two users share an id. */
  predicate UniqueIds(users: seq<User>)
  {
    forall i, j :: 0 <= i < j < |users| ==> users[i].Id() != users[j].Id()
  }

  /** In a list with unique ids, looking up a member's id finds that member. */
  lemma IdIndexOfMember(users: seq<User>, i: int)
    requires UniqueIds(users) && 0 <= i < |users|
    ensures UserIdIndex(users, users[i].Id()) == i
  {
  }

  /** A user appended under a fresh id is found at the end. */
  lemma IdIndexOfAppended(users: seq<User>, u: User)
    requires UserIdIndex(users, u.Id()) == -1
    ensures UserIdIndex(users + [u], u.Id()) == |users|
  {
    var all := users + [u];
    assert all[|users|] == u;
    assert forall j :: 0 <= j < |users| ==> all[j] == users[j];
  }

  /** A minted token is truthy. */
  lemma TokenForIsTruthy(id: string)
    ensures HasToken(Some(TokenFor(id)))
  {
    assert TokenFor(id)[0] == 'm';
  }

  /** A JavaScript string is truthy exactly when it is non-empty. */
  predicate HasToken(token: Option<string>)
  {
    token.Some? && token.value != ""
  }

  datatype LoginResponse = LoginResponse(user: User, token: string)

  datatype TokenCheck = TokenCheck(valid: bool)

  /** The data a signup creates for a role: students start with the diagnostic off and not done. */
  function NewUser(role: UserRole, id: string, email: string, firstName: string, lastName: string, now: string): (u: User)
    ensures u.Role() == role && u.Id() == id && u.Email() == email
    ensures u.StudentUser? ==> !u.student.diagnosticEnabled && !u.student.hasCompletedDiagnostic
                               && u.student.targetGradeLevel.None? && u.student.diagnosticResult.None?
    ensures !u.StudentUser? ==> (u.ParentUser? && u.parent.students == []) || (u.TeacherUser? && u.teacher.students == [])
  {
    match role
    case STUDENT => StudentUser(Student(id, email, firstName, lastName, now, now, None, None, None, None, false, false, None))
    case PARENT => ParentUser(Guardian(id, email, firstName, lastName, now, now, []))
    case TEACHER => TeacherUser(Guardian(id, email, firstName, lastName, now, now, []))
  }

  datatype AuthState = AuthState(users: seq<User>, token: Option<string>)

  /**
   * The mock user list with the client's stored token; overrides are read
   * from the shared store the parent/teacher service owns.
   */
  class AuthApi {
    var users: seq<User>
    var token: Option<string>
    const overrideStore: ParentTeacherStore

    function State(): AuthState
      reads this
    {
      AuthState(users, token)
    }

    constructor (users0: seq<User>, store: ParentTeacherStore)
      ensures State() == AuthState(users0, None) && overrideStore == store
    {
      users, token := users0, None;
      overrideStore := store;
    }

    /** `getCurrentUser`: decode the stored token and return that user, overlaid. */
    function GetCurrentUser(): (r: Result<ApiResponse<User>>)
      reads this, overrideStore
      ensures !HasToken(token) ==> r == Failure("No token found")
      ensures HasToken(token) && UserIdIndex(users, UserIdOf(token.value)) == -1 ==> r == Failure("User not found")
      ensures r.Success? ==>
        var i := UserIdIndex(users, UserIdOf(token.value));
        && HasToken(token) && i >= 0
        && r.value == Ok(ApplyDiagnosticOverrides(users[i], overrideStore.diagnosticOverrides))
    {
      if !HasToken(token) then Failure("No token found")
      else
        var i := UserIdIndex(users, UserIdOf(token.value));
        if i == -1 then Failure("User not found")
        else Success(Ok(ApplyDiagnosticOverrides(users[i], overrideStore.diagnosticOverrides)))
    }

    /** `verifyToken`: valid exactly when a non-empty token is stored. */
    function VerifyToken(): (r: ApiResponse<TokenCheck>)
      reads this
      ensures r.success && r.data.Some?
      ensures r.data.value.valid <==> HasToken(token)
    {
      Ok(TokenCheck(HasToken(token)))
    }

    /**
     * `login`: an unknown email throws and nothing changes; the password is
     * not checked. Otherwise the token for the user's id is stored, and
     * reading the current user back returns the same overlaid user.
     */
    method Login(email: string, password: string) returns (r: Result<ApiResponse<LoginResponse>>)
      modifies this
      ensures r.Failure? <==> UserEmailIndex(old(users), email) == -1
      ensures r.Failure? ==> r.error == "Invalid email or password" && State() == old(State())
      ensures r.Success? ==>
        var u := old(users)[UserEmailIndex(old(users), email)];
        var overlaid := ApplyDiagnosticOverrides(u, overrideStore.diagnosticOverrides);
        && r.value == Ok(LoginResponse(overlaid, TokenFor(u.Id())))
        && State() == old(State()).(token := Some(TokenFor(u.Id())))
        && VerifyToken().data.value.valid
        && (UniqueIds(users) ==> GetCurrentUser() == Success(Ok(overlaid)))
    {
      var i := UserEmailIndex(users, email);
      if i == -1 {
        return Failure("Invalid email or password");
      }
      var user := ApplyDiagnosticOverrides(users[i], overrideStore.diagnosticOverrides);
      var t := TokenFor(user.Id());
      token := Some(t);
      TokenRoundTrip(users[i].Id());
      if UniqueIds(users) {
        IdIndexOfMember(users, i);
      }
      r := Success(Ok(LoginResponse(user, t)));
    }

    /**
     * `signup`: an existing email throws and nothing changes; otherwise exactly
     * one user is appended and its token is stored (no overlay is applied).
     */
    method Signup(email: string, password: string, firstName: string, lastName: string, role: UserRole,
                  id: string, now: string)
      returns (r: Result<ApiResponse<LoginResponse>>)
      modifies this
      ensures r.Failure? <==> UserEmailIndex(old(users), email) != -1
      ensures r.Failure? ==> r.error == "User with this email already exists" && State() == old(State())
      ensures r.Success? ==>
        var u := NewUser(role, id, email, firstName, lastName, now);
        && r.value == Ok(LoginResponse(u, TokenFor(id)))
        && State() == AuthState(old(users) + [u], Some(TokenFor(id)))
        && (UserIdIndex(old(users), id) == -1 ==> GetCurrentUser() == Success(Ok(ApplyDiagnosticOverrides(u, overrideStore.diagnosticOverrides))))
    {
      if UserEmailIndex(users, email) != -1 {
        return Failure("User with this email already exists");
      }
      var u := NewUser(role, id, email, firstName, lastName, now);
      if UserIdIndex(users, id) == -1 {
        IdIndexOfAppended(users, u);
      }
      TokenRoundTrip(id);
      TokenForIsTruthy(id);
      users := users + [u];
      var t := TokenFor(u.Id());
      token := Some(t);
      r := Success(Ok(LoginResponse(u, t)));
    }

    /** `logout`: the stored token is cleared, so the token no longer verifies. */
    method Logout()
      modifies this
      ensures State() == old(State()).(token := None)
      ensures !VerifyToken().data.value.valid
      ensures GetCurrentUser() == Failure("No token found")
    {
      token := None;
    }
  }
}
