/**
 * The backend's request handler up to the point where it calls the
 * database or the generators: the CORS origin it echoes, the user a bearer
 * token stands for, the routing with its 503/401 guards, the checks of the
 * sign-up and login bodies, and the ids read from a path. What the database
 * and the language model then do is not part of this model; the session
 * and user lookups are parameters, and a lookup that throws is an `Err`.
 */
module Server {
  import opened TextUtil
  import opened Json
  import AuthService

  // ---------------------------------------------------------------------
  // CORS
  // ---------------------------------------------------------------------

  /** The origins echoed with credentials by name; `localIp` is the detected LAN address. */
  function AllowedOrigins(localIp: string): seq<string>
  {
    ["https://localhost:5500", "https://127.0.0.1:5500", "https://127.0.0.1:8443", "https://localhost:8443",
     "https://" + localIp + ":8443", "http://localhost:8000", "http://127.0.0.1:8000"]
  }

  /** The address prefixes treated as a local network. */
  const PrivateMarkers: seq<string> :=
    ["192.168.", "10.0.", "172.16.", "172.17.", "172.18.", "172.19.", "172.20.", "172.21.", "172.22.",
     "172.23.", "172.24.", "172.25.", "172.26.", "172.27.", "172.28.", "172.29.", "172.30.", "172.31."]

  /** The local-network test: one of the prefixes occurs anywhere in the origin. */
  predicate PrivateNetwork(origin: string)
  {
    exists k :: 0 <= k < |PrivateMarkers| && Contains(origin, PrivateMarkers[k])
  }

  /** The `Access-Control-Allow-Origin` value and whether `Access-Control-Allow-Credentials: true` is sent. */
  datatype Cors = Cors(allowOrigin: string, credentials: bool)

  function CorsFor(origin: Option<string>, localIp: string): (c: Cors)
    ensures c.credentials <==>
      origin.Some? && (origin.value in AllowedOrigins(localIp) || (origin.value != [] && PrivateNetwork(origin.value)))
    ensures c.credentials ==> c.allowOrigin == origin.value
    ensures !c.credentials ==> c.allowOrigin == "*"
  {
    if origin.Some? && origin.value in AllowedOrigins(localIp) then Cors(origin.value, true)
    else if origin.Some? && origin.value != [] && PrivateNetwork(origin.value) then Cors(origin.value, true)
    else Cors("*", false)
  }

  /** The test is not anchored: a prefix anywhere in the origin, even in its path or another host name, earns credentials. */
  lemma MarkerAnywhereEarnsCredentials(before: string, after: string, localIp: string)
    ensures CorsFor(Some(before + "10.0." + after), localIp) == Cors(before + "10.0." + after, true)
  {
    var o := before + "10.0." + after;
    assert o[|before|..|before| + 5] == "10.0.";
    assert OccursAt(o, PrivateMarkers[1], |before|);
  }

  /** A 10.x address outside 10.0.x is not recognised as local and gets the wildcard without credentials. */
  lemma TenNetworkMissed(localIp: string)
    ensures CorsFor(Some("https://10.1.2.3"), localIp) == Cors("*", false)
  {
    var o := "https://10.1.2.3";
    assert '7' !in o && '9' !in o;
    forall k | 0 <= k < |PrivateMarkers| ensures !Contains(o, PrivateMarkers[k]) {
      var m := PrivateMarkers[k];
      if k == 0 {
        assert m[1] == '9';
        MissingCharacter(o, m, 1);
      } else if k == 1 {
        assert m[1] == '0' && m[3] == '0' && o[11] == '1';
        forall j | 0 <= j < |o| && o[j] == '0' ensures j == 9 { }
        forall j: nat ensures !OccursAt(o, m, j) {
          if j == 8 {
            NotOccursAt(o, m, j, 3);
          } else {
            NotOccursAt(o, m, j, 1);
          }
        }
      } else {
        assert m[1] == '7';
        MissingCharacter(o, m, 1);
      }
    }
    var mine := "https://" + localIp + ":8443";
    assert o[|o| - 5] == '1';
    assert mine[|mine| - 5] == ':';
    assert o !in AllowedOrigins(localIp);
  }

  // ---------------------------------------------------------------------
  // getUserIdFromRequest
  // ---------------------------------------------------------------------

  datatype Session = Session(userId: int, email: string, fullName: string)

  const BearerPrefix := "Bearer "

  /** The token of an `Authorization: Bearer <token>` header. */
  function BearerToken(authorization: Option<string>): (t: Option<string>)
    ensures t.Some? <==> authorization.Some? && StartsWith(authorization.value, BearerPrefix)
    ensures t.Some? ==> authorization.value == BearerPrefix + t.value
  {
    if authorization.Some? && StartsWith(authorization.value, BearerPrefix)
    then Some(authorization.value[7..]) else None
  }

  /** `getUserIdFromRequest`: the user of the session the bearer token names, or `null` when there is none or the lookup throws. */
  function UserIdFromRequest(authorization: Option<string>, lookup: string -> Result<Option<Session>>): (u: Option<int>)
    ensures u.Some? <==>
      BearerToken(authorization).Some? && lookup(BearerToken(authorization).value).Ok?
      && lookup(BearerToken(authorization).value).value.Some?
    ensures u.Some? ==> u.value == lookup(BearerToken(authorization).value).value.value.userId
  {
    var token := BearerToken(authorization);
    if token.None? then None
    else match lookup(token.value)
      case Ok(Some(s)) => Some(s.userId)
      case _ => None
  }

  /** The token is whatever follows "Bearer ". */
  lemma BearerTokenIsRest(token: string, lookup: string -> Result<Option<Session>>)
    ensures BearerToken(Some(BearerPrefix + token)) == Some(token)
    ensures UserIdFromRequest(Some(BearerPrefix + token), lookup) ==
      if lookup(token).Ok? && lookup(token).value.Some? then Some(lookup(token).value.value.userId) else None
  {
    assert (BearerPrefix + token)[..7] == BearerPrefix;
    assert (BearerPrefix + token)[7..] == token;
  }

  /** `if (!userId)`: a missing user and user id 0 both count as unauthenticated. */
  predicate Authenticated(u: Option<int>)
  {
    u.Some? && u.value != 0
  }

  // ---------------------------------------------------------------------
  // Routing
  // ---------------------------------------------------------------------

  datatype Request = Request(httpMethod: string, url: string, origin: Option<string>, authorization: Option<string>)

  datatype Body = NoBody | JsonBody(value: JsonValue) | TextBody(text: string)

  datatype Reply = Reply(status: nat, body: Body)

  /** The database work an authenticated request goes on to do. */
  datatype DbWork =
    | ListReviewers
    | GetReviewer(id: Option<int>)
    | DeleteReviewer(id: Option<int>)
    | GetQuizQuestions(reviewerId: Option<int>)
    | GetStatistics
    | SaveQuizAttempt

  /** What the handler goes on to do once its checks pass. */
  datatype Work =
    | ReadSignupBody
    | ReadLoginBody
    | EndSession(token: Option<string>)
    | GenerateReviewer(userId: int)
    | GenerateQuestions(userId: int)
    | Database(work: DbWork, userId: int)

  /** A reply written by the checks, further work, or an exception that leaves the request unanswered. */
  datatype Outcome = Respond(reply: Reply) | Continue(next: Work) | Unanswered

  function ErrorBody(message: string): Body
  {
    JsonBody(JObj(map["error" := JStr(message)]))
  }

  const DatabaseUnavailable := Reply(503, ErrorBody("Database not available"))
  const Unauthorized := Reply(401, ErrorBody("Unauthorized"))
  const NotFound := Reply(404, TextBody("Not Found"))

  function Health(dbAvailable: bool): JsonValue
  {
    var state := JStr(if dbAvailable then "enabled" else "disabled");
    JObj(map["status" := JStr("ok"), "message" := JStr("SciBrain Backend Server with Authentication"),
             "version" := JStr("10.1"), "database" := state, "authentication" := state,
             "mobileSupport" := JBool(true)])
  }

  /** `parseInt(url.split('/')[3])`, `None` for `NaN`. */
  function PathId(url: string): Option<int>
  {
    var pieces := SplitChar(url, '/');
    if |pieces| > 3 then ParseInt(pieces[3]) else None
  }

  /** The path id is the number after the third '/'. */
  lemma PathIdOfNumber(resource: string, n: nat)
    requires '/' !in resource
    ensures PathId("/api/" + resource + "/" + NatToString(n)) == Some(n)
  {
    var digits := NatToString(n);
    assert '/' !in digits by {
      forall k | 0 <= k < |digits| ensures digits[k] != '/' { assert IsDigit(digits[k]); }
    }
    SplitPath(resource, digits);
    ParseIntOfNatToString(n);
  }

  /** `"/api/<resource>/<rest>".split('/')` when neither part holds a '/'. */
  lemma SplitPath(resource: string, rest: string)
    requires '/' !in resource && '/' !in rest
    ensures SplitChar("/api/" + resource + "/" + rest, '/') == ["", "api", resource, rest]
  {
    PathNested(resource, rest);
    SplitNested(resource, rest);
  }

  lemma PathNested(resource: string, rest: string)
    ensures "/api/" + resource + "/" + rest == "" + "/" + ("api" + "/" + (resource + "/" + rest))
  {
    var t3 := resource + "/" + rest;
    assert "" + "/" + ("api" + "/") == "/api/";
    AppendThree("" + "/", "api" + "/", t3);
    AppendThree("/api/", resource + "/", rest);
    AppendThree("/api/", resource, "/");
  }

  lemma SplitNested(resource: string, rest: string)
    requires '/' !in resource && '/' !in rest
    ensures SplitChar("" + "/" + ("api" + "/" + (resource + "/" + rest)), '/') == ["", "api", resource, rest]
  {
    var t3 := resource + "/" + rest;
    var t2 := "api" + "/" + t3;
    SplitNone(rest, '/');
    SplitCons(resource, rest, '/');
    assert SplitChar(t3, '/') == [resource, rest];
    assert '/' !in "api";
    SplitCons("api", t3, '/');
    assert SplitChar(t2, '/') == ["api", resource, rest];
    SplitCons("", t2, '/');
  }

  /** A path that ends after the resource name gives `NaN`. */
  lemma PathIdMissing()
    ensures PathId("/api/reviewer/") == None
  {
    assert '/' !in "reviewer";
    SplitPath("reviewer", "");
    assert "/api/" + "reviewer" + "/" + "" == "/api/reviewer/";
    assert TrimStart("") == "";
  }

  /** The reply to `GET /api/auth/verify` once the database is available. */
  function VerifyReply(authorization: Option<string>, lookup: string -> Result<Option<Session>>): Outcome
  {
    var invalid := Reply(401, JsonBody(JObj(map["valid" := JBool(false)])));
    var token := BearerToken(authorization);
    if token.None? then Respond(invalid)
    else match lookup(token.value)
      case Err(_) => Unanswered
      case Ok(None) => Respond(invalid)
      case Ok(Some(s)) =>
        Respond(Reply(200, JsonBody(JObj(map["valid" := JBool(true), "userId" := JNum(s.userId as real),
                                           "email" := JStr(s.email), "fullName" := JStr(s.fullName)]))))
  }

  /** The database routes, in the order the handler tries them. */
  function DbRoute(req: Request): Option<DbWork>
  {
    var m, u := req.httpMethod, req.url;
    if u == "/api/reviewers" && m == "GET" then Some(ListReviewers)
    else if StartsWith(u, "/api/reviewer/") && m == "GET" then Some(GetReviewer(PathId(u)))
    else if StartsWith(u, "/api/reviewer/") && m == "DELETE" then Some(DeleteReviewer(PathId(u)))
    else if StartsWith(u, "/api/quiz-questions/") && m == "GET" then Some(GetQuizQuestions(PathId(u)))
    else if u == "/api/statistics" && m == "GET" then Some(GetStatistics)
    else if u == "/api/quiz-attempt" && m == "POST" then Some(SaveQuizAttempt)
    else None
  }

  /** The two generation routes, which check the session but not the database. */
  predicate GenerateRoute(req: Request)
  {
    req.httpMethod == "POST" && (req.url == "/api/generate-reviewer" || req.url == "/api/generate-questions")
  }

  /** The four account routes, which check the database first. */
  predicate AuthRoute(req: Request)
  {
    (req.httpMethod == "POST" && req.url in ["/api/auth/signup", "/api/auth/login", "/api/auth/logout"])
    || (req.httpMethod == "GET" && req.url == "/api/auth/verify")
  }

  /** The request handler's checks, in source order; CORS headers are set beforehand for every request. */
  function Handle(req: Request, dbAvailable: bool, lookup: string -> Result<Option<Session>>): Outcome
  {
    var m, u := req.httpMethod, req.url;
    var userId := UserIdFromRequest(req.authorization, lookup);
    if m == "OPTIONS" then Respond(Reply(200, NoBody))
    else if u == "/api/health" && m == "GET" then Respond(Reply(200, JsonBody(Health(dbAvailable))))
    else if AuthRoute(req) then
      if !dbAvailable then Respond(DatabaseUnavailable)
      else if u == "/api/auth/signup" then Continue(ReadSignupBody)
      else if u == "/api/auth/login" then Continue(ReadLoginBody)
      else if u == "/api/auth/logout" then Continue(EndSession(BearerToken(req.authorization)))
      else VerifyReply(req.authorization, lookup)
    else if GenerateRoute(req) then
      if !Authenticated(userId) then Respond(Unauthorized)
      else if u == "/api/generate-reviewer" then Continue(GenerateReviewer(userId.value))
      else Continue(GenerateQuestions(userId.value))
    else if DbRoute(req).Some? then
      if !dbAvailable then Respond(DatabaseUnavailable)
      else if !Authenticated(userId) then Respond(Unauthorized)
      else Continue(Database(DbRoute(req).value, userId.value))
    else Respond(NotFound)
  }

  /** A preflight request is answered 200 with an empty body, whatever its path. */
  lemma PreflightShortCircuit(req: Request, dbAvailable: bool, lookup: string -> Result<Option<Session>>)
    requires req.httpMethod == "OPTIONS"
    ensures Handle(req, dbAvailable, lookup) == Respond(Reply(200, NoBody))
  {
  }

  /** Database routes report a missing database before they look at the session. */
  lemma DatabaseBeforeSession(req: Request, lookup: string -> Result<Option<Session>>)
    requires DbRoute(req).Some? || AuthRoute(req)
    ensures Handle(req, false, lookup) == Respond(DatabaseUnavailable)
  {
    if AuthRoute(req) {
      AuthRouteIsNotEarlier(req);
    } else {
      DbRouteIsNotEarlier(req);
    }
  }

  /** An account route is neither a preflight nor the health check. */
  lemma AuthRouteIsNotEarlier(req: Request)
    requires AuthRoute(req)
    ensures req.httpMethod != "OPTIONS" && !(req.url == "/api/health" && req.httpMethod == "GET")
  {
    assert |"/api/health"| == 11 && |"/api/auth/verify"| == 16;
  }

  /** A database route is neither a preflight, nor the health check, nor a generation route. */
  lemma DbRouteIsNotEarlier(req: Request)
    requires DbRoute(req).Some?
    ensures req.httpMethod != "OPTIONS" && !(req.url == "/api/health" && req.httpMethod == "GET") && !GenerateRoute(req)
  {
    var m, u := req.httpMethod, req.url;
    if m == "POST" {
      assert u == "/api/quiz-attempt";
      assert |"/api/quiz-attempt"| == 17 && |"/api/generate-reviewer"| == 22 && |"/api/generate-questions"| == 23;
    }
  }

  /** The generation routes report a missing session even when the database is available, and run without one. */
  lemma GenerationChecksOnlySession(req: Request, dbAvailable: bool, lookup: string -> Result<Option<Session>>)
    requires GenerateRoute(req)
    ensures !Authenticated(UserIdFromRequest(req.authorization, lookup)) ==> Handle(req, dbAvailable, lookup) == Respond(Unauthorized)
    ensures Authenticated(UserIdFromRequest(req.authorization, lookup)) ==> Handle(req, dbAvailable, lookup).Continue?
  {
    assert req.url[5] == 'g';
    assert "/api/auth/signup"[5] == 'a' && "/api/auth/login"[5] == 'a' && "/api/auth/logout"[5] == 'a';
    assert "/api/auth/verify"[5] == 'a';
  }

  /** Database work and generation only ever run for the user of a live session with a non-zero id. */
  lemma WorkRunsForSessionUser(req: Request, dbAvailable: bool, lookup: string -> Result<Option<Session>>)
    ensures var o := Handle(req, dbAvailable, lookup);
      (o.Continue? && (o.next.Database? || o.next.GenerateReviewer? || o.next.GenerateQuestions?)) ==>
        var token := BearerToken(req.authorization);
        token.Some? && lookup(token.value).Ok? && lookup(token.value).value.Some?
        && o.next.userId == lookup(token.value).value.value.userId != 0
    ensures var o := Handle(req, dbAvailable, lookup);
      o.Continue? && o.next.Database? ==> dbAvailable && DbRoute(req) == Some(o.next.work)
  {
  }

  /** With no database and no session, a database route answers 503 while a generation route answers 401. */
  lemma GuardOrderDiffers(lookup: string -> Result<Option<Session>>)
    ensures Handle(Request("GET", "/api/reviewers", None, None), false, lookup) == Respond(DatabaseUnavailable)
    ensures Handle(Request("POST", "/api/generate-reviewer", None, None), false, lookup) == Respond(Unauthorized)
  {
    var list := Request("GET", "/api/reviewers", None, None);
    assert DbRoute(list) == Some(ListReviewers);
    DatabaseBeforeSession(list, lookup);
    var gen := Request("POST", "/api/generate-reviewer", None, None);
    assert GenerateRoute(gen);
    GenerationChecksOnlySession(gen, false, lookup);
  }

  // ---------------------------------------------------------------------
  // Sign-up and login bodies
  // ---------------------------------------------------------------------

  /** The account the handler creates once the sign-up checks pass; the password is hashed on the way in. */
  datatype Account = Account(fullName: JsonValue, email: string, password: JsonValue)

  datatype User = User(id: int, email: string, fullName: string, passwordHash: string)

  datatype BodyOutcome = BodyReply(reply: Reply) | CreateAccount(account: Account) | StartSession(user: User)

  /** `sanitizeInput(email).toLowerCase()`, which throws on a value that is not a string. */
  function NormalizedEmail(email: JsonValue): Option<string>
  {
    var v := AuthService.SanitizeInput(email);
    if v.JStr? then Some(Lower(v.s)) else None
  }

  /** Field reads of `const { … } = JSON.parse(body)`, which throw on `null`. */
  predicate Destructurable(parsed: Result<JsonValue>)
  {
    parsed.Ok? && !parsed.value.JNull?
  }

  /**
   * The sign-up body's checks: every field present and truthy (400), the
   * trimmed and lowercased e-mail well-formed (400), no user with that
   * e-mail (409). A body that does not parse, or an e-mail that is not a
   * string, ends in the 500 of the surrounding `catch`.
   */
  function SignupReply(parsed: Result<JsonValue>, userExists: string -> bool): (o: BodyOutcome)
    ensures o.CreateAccount? ==>
      Destructurable(parsed) && var v := parsed.value;
      TruthyOpt(Get(v, "fullName")) && TruthyOpt(Get(v, "email")) && TruthyOpt(Get(v, "password"))
      && NormalizedEmail(Get(v, "email").value) == Some(o.account.email)
      && AuthService.IsValidEmail(o.account.email) && !userExists(o.account.email)
      && o.account.fullName == AuthService.SanitizeInput(Get(v, "fullName").value)
      && o.account.password == Get(v, "password").value
    ensures o.BodyReply? ==> o.reply.status in {400, 409, 500}
    ensures o.BodyReply? && o.reply.status == 409 ==>
      Destructurable(parsed) && Get(parsed.value, "email").Some? && NormalizedEmail(Get(parsed.value, "email").value).Some?
      && AuthService.IsValidEmail(NormalizedEmail(Get(parsed.value, "email").value).value)
    ensures o.StartSession? ==> false
  {
    var fail := BodyReply(Reply(500, ErrorBody("Failed to create account")));
    if !Destructurable(parsed) then fail
    else
      var v := parsed.value;
      var fullName, email, password := Get(v, "fullName"), Get(v, "email"), Get(v, "password");
      if !TruthyOpt(fullName) || !TruthyOpt(email) || !TruthyOpt(password) then
        BodyReply(Reply(400, ErrorBody("All fields are required")))
      else
        var e := NormalizedEmail(email.value);
        if e.None? then fail
        else if !AuthService.IsValidEmail(e.value) then BodyReply(Reply(400, ErrorBody("Invalid email format")))
        else if userExists(e.value) then BodyReply(Reply(409, ErrorBody("User with this email already exists")))
        else CreateAccount(Account(AuthService.SanitizeInput(fullName.value), e.value, password.value))
  }

  /** A malformed e-mail is refused before the user table is consulted. */
  lemma InvalidEmailSkipsLookup(parsed: Result<JsonValue>, ue1: string -> bool, ue2: string -> bool)
    requires Destructurable(parsed)
    requires Get(parsed.value, "email").Some?
    requires var e := NormalizedEmail(Get(parsed.value, "email").value); e.Some? && !AuthService.IsValidEmail(e.value)
    ensures SignupReply(parsed, ue1) == SignupReply(parsed, ue2)
  {
  }

  /** E-mails that differ only in case or surrounding white space sign up alike. */
  lemma SignupNormalizesEmail(fields: map<string, JsonValue>, e1: string, e2: string, userExists: string -> bool)
    requires e1 != [] && e2 != [] && Lower(Trim(e1)) == Lower(Trim(e2))
    ensures SignupReply(Ok(JObj(fields["email" := JStr(e1)])), userExists) ==
            SignupReply(Ok(JObj(fields["email" := JStr(e2)])), userExists)
  {
    var v1, v2 := JObj(fields["email" := JStr(e1)]), JObj(fields["email" := JStr(e2)]);
    EmailVariants(fields, e1, e2);
    SignupSameFields(v1, v2, userExists);
  }

  /** Two bodies that differ only in an e-mail of the same normal form. */
  lemma EmailVariants(fields: map<string, JsonValue>, e1: string, e2: string)
    requires e1 != [] && e2 != [] && Lower(Trim(e1)) == Lower(Trim(e2))
    ensures var v1, v2 := JObj(fields["email" := JStr(e1)]), JObj(fields["email" := JStr(e2)]);
      Get(v1, "fullName") == Get(v2, "fullName") && Get(v1, "password") == Get(v2, "password")
      && TruthyOpt(Get(v1, "email")) && TruthyOpt(Get(v2, "email"))
      && NormalizedEmail(Get(v1, "email").value) == NormalizedEmail(Get(v2, "email").value)
  {
    var v1, v2 := JObj(fields["email" := JStr(e1)]), JObj(fields["email" := JStr(e2)]);
    assert Get(v1, "email") == Some(JStr(e1)) && Get(v2, "email") == Some(JStr(e2));
    assert AuthService.SanitizeInput(JStr(e1)) == JStr(Trim(e1));
    assert AuthService.SanitizeInput(JStr(e2)) == JStr(Trim(e2));
  }

  /** The sign-up reply depends on the body only through its name, its password and its normalised e-mail. */
  lemma SignupSameFields(v1: JsonValue, v2: JsonValue, userExists: string -> bool)
    requires !v1.JNull? && !v2.JNull?
    requires Get(v1, "fullName") == Get(v2, "fullName") && Get(v1, "password") == Get(v2, "password")
    requires TruthyOpt(Get(v1, "email")) && TruthyOpt(Get(v2, "email"))
    requires NormalizedEmail(Get(v1, "email").value) == NormalizedEmail(Get(v2, "email").value)
    ensures SignupReply(Ok(v1), userExists) == SignupReply(Ok(v2), userExists)
  {
  }

  /**
   * The login body's checks: both fields present (400), a user with the
   * normalised e-mail (401), a password that verifies against that user's
   * stored hash (401). A body that does not parse, an e-mail or password
   * that is not a string, ends in the 500 of the surrounding `catch`.
   */
  function LoginReply(parsed: Result<JsonValue>, users: string -> Option<User>,
                      kdf: (string, string) -> AuthService.Digest): (o: BodyOutcome)
    ensures o.StartSession? ==>
      Destructurable(parsed) && var v := parsed.value;
      TruthyOpt(Get(v, "email")) && TruthyOpt(Get(v, "password")) && Get(v, "password").value.JStr?
      && NormalizedEmail(Get(v, "email").value).Some?
      && users(NormalizedEmail(Get(v, "email").value).value) == Some(o.user)
      && AuthService.VerifyPassword(Get(v, "password").value.s, o.user.passwordHash, kdf)
    ensures o.BodyReply? ==> o.reply.status in {400, 401, 500}
    ensures o.CreateAccount? ==> false
  {
    var fail := BodyReply(Reply(500, ErrorBody("Login failed")));
    var refused := BodyReply(Reply(401, ErrorBody("Invalid email or password")));
    if !Destructurable(parsed) then fail
    else
      var v := parsed.value;
      var email, password := Get(v, "email"), Get(v, "password");
      if !TruthyOpt(email) || !TruthyOpt(password) then
        BodyReply(Reply(400, ErrorBody("Email and password are required")))
      else
        var e := NormalizedEmail(email.value);
        if e.None? then fail
        else
          var user := users(e.value);
          if user.None? then refused
          else if !password.value.JStr? then fail
          else if !AuthService.VerifyPassword(password.value.s, user.value.passwordHash, kdf) then refused
          else StartSession(user.value)
  }

  /**
   * An account created from a sign-up body, stored with the hash of its
   * password, can log in with the same body: the e-mail normalises to the
   * stored one and the password verifies.
   */
  lemma SignupThenLogin(parsed: Result<JsonValue>, userExists: string -> bool, users: string -> Option<User>,
                        id: int, salt: AuthService.SaltBytes, kdf: (string, string) -> AuthService.Digest)
    requires SignupReply(parsed, userExists).CreateAccount?
    requires var a := SignupReply(parsed, userExists).account;
      a.password.JStr? && users(a.email) == Some(User(id, a.email, "", AuthService.HashPassword(a.password.s, salt, kdf)))
    ensures LoginReply(parsed, users, kdf).StartSession?
    ensures LoginReply(parsed, users, kdf).user.id == id
  {
    var a := SignupReply(parsed, userExists).account;
    AuthService.VerifyOwnHash(a.password.s, salt, kdf);
  }

  /** A password whose derived key differs from the stored one is refused with 401. */
  lemma WrongPasswordRefused(parsed: Result<JsonValue>, users: string -> Option<User>, user: User,
                             password: string, salt: AuthService.SaltBytes, kdf: (string, string) -> AuthService.Digest)
    requires Destructurable(parsed) && TruthyOpt(Get(parsed.value, "email"))
    requires Get(parsed.value, "password") == Some(JStr(password)) && password != []
    requires var e := NormalizedEmail(Get(parsed.value, "email").value); e.Some? && users(e.value) == Some(user)
    requires exists stored :: user.passwordHash == AuthService.HashPassword(stored, salt, kdf)
               && kdf(password, AuthService.Hex(salt)) != kdf(stored, AuthService.Hex(salt))
    ensures LoginReply(parsed, users, kdf) == BodyReply(Reply(401, ErrorBody("Invalid email or password")))
  {
    var stored :| user.passwordHash == AuthService.HashPassword(stored, salt, kdf)
               && kdf(password, AuthService.Hex(salt)) != kdf(stored, AuthService.Hex(salt));
    AuthService.VerifyOtherPassword(stored, password, salt, kdf);
  }
}
