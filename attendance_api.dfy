/**
 * The deterministic parts of the demo API server: the login check, the
 * `/students` roster, the batch-submit summary and the `authenticateToken`
 * middleware, modelled as a function of the request header (the server
 * defines it but mounts it on no route). Token signing and verification are
 * parameters (`sign`, `verify`); the HTTP framework is not modelled.
 */
module AttendanceApi {
  import opened Options
  import opened Roster
  import opened Auth

  /** `/students` lists this many demo students. */
  const StudentCount: nat := 80

  datatype LoginResponse = LoginOk(token: string, user: User) | Unauthorized(error: string)

  /** `POST /login`: only the two fallback credentials log in, always as a teacher. */
  function Login(username: string, password: string, sign: User -> string): (r: LoginResponse)
    ensures r.LoginOk? <==> IsFallbackCredential(username, password)
    ensures r.LoginOk? ==> r.user == User(username, "teacher") && r.token == sign(r.user)
    ensures r.Unauthorized? ==> r.error == "Invalid credentials"
  {
    if IsFallbackCredential(username, password) then
      var user := User(username, "teacher");
      LoginOk(sign(user), user)
    else Unauthorized("Invalid credentials")
  }

  /** `GET /students`: the 80 demo students in id order. */
  method ListStudents() returns (students: seq<Student>)
    ensures students == SampleRoster(StudentCount)
    ensures |students| == StudentCount
    ensures forall k :: 0 <= k < |students| ==> students[k].id == k + 1
  {
    students := GenerateSampleStudents(StudentCount);
  }

  /** Students 1-30 are listed in S33, 31-60 in S34 and 61-80 in S35. */
  lemma ListedSections(k: nat)
    requires k < StudentCount
    ensures SampleRoster(StudentCount)[k].section == Some(if k < 30 then "S33" else if k < 60 then "S34" else "S35")
  {
    SampleRosterAt(StudentCount, k);
    SampleSection(k + 1);
  }

  datatype BatchSummary = BatchSummary(successful: nat, failed: nat, total: nat)

  /** `POST /attendance/batch-submit`: every submitted record counts as successful; a missing list counts 0. */
  function SubmitSummary<T>(attendanceData: Option<seq<T>>): (s: BatchSummary)
    ensures s.failed == 0 && s.successful == s.total
    ensures s.total == if attendanceData.Some? then |attendanceData.value| else 0
  {
    var n := if attendanceData.Some? then |attendanceData.value| else 0;
    BatchSummary(n, 0, n)
  }

  /** What `authenticateToken` does with a request: 401, 403, or pass it on with the token's claims. */
  datatype AuthOutcome<C> = MissingToken | InvalidToken | Authenticated(claims: C)

  /** HTTP status of a refusal; a request that passes gets the route's own answer. */
  function RefusalStatus<C>(r: AuthOutcome<C>): (code: Option<int>)
    ensures code.None? <==> r.Authenticated?
    ensures r.MissingToken? ==> code == Some(401)
    ensures r.InvalidToken? ==> code == Some(403)
  {
    match r
    case MissingToken => Some(401)
    case InvalidToken => Some(403)
    case Authenticated(_) => None
  }

  /** `authenticateToken`: no usable token is 401, a token that does not verify is 403. */
  function Authenticate<C>(header: Option<string>, verify: string -> Option<C>): (r: AuthOutcome<C>)
    ensures r.MissingToken? <==> ExtractToken(header).None?
    ensures r.InvalidToken? <==> ExtractToken(header).Some? && verify(ExtractToken(header).value).None?
    ensures r.Authenticated? ==> ExtractToken(header).Some? && verify(ExtractToken(header).value) == Some(r.claims)
  {
    match ExtractToken(header)
    case None => MissingToken
    case Some(token) =>
      match verify(token)
      case None => InvalidToken
      case Some(claims) => Authenticated(claims)
  }

  /**
   * The browser client's requests: were the middleware applied to the
   * client's header, it would refuse a request without a token with 401 and
   * verify exactly the token of a request with a space-free one.
   */
  lemma ClientRequestAuthentication<C>(authToken: Option<string>, verify: string -> Option<C>)
    requires authToken.Some? ==> ' ' !in authToken.value
    ensures (authToken.None? || authToken.value == "") ==> Authenticate(BearerHeader(authToken), verify) == MissingToken
    ensures authToken.Some? && authToken.value != "" ==>
      Authenticate(BearerHeader(authToken), verify) ==
        if verify(authToken.value).Some? then Authenticated(verify(authToken.value).value) else InvalidToken
  {
    if authToken.Some? && authToken.value != "" {
      BearerRoundTrip(authToken.value);
    }
  }
}
