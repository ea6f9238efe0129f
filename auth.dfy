/** lib/auth.ts: the credentials provider's `authorize`, the educator and
    student sign-up/sign-in flows it dispatches to, the `jwt` and `session`
    callbacks that carry the principal's claims into the session, and the
    session lifetimes.

    Each flow is an imperative procedure over the store (read, then maybe
    create) and is proved equal to a function of the store snapshot; the
    properties of the flows are lemmas about those functions (module
    AuthProperties). A thrown error is an `Err` value; `authorize` turns every
    one of them into "no user". */
module Auth {
  import opened Common
  import opened Store
  import opened AuthUtils
  import Bcrypt

  /** The user object `authorize` returns. */
  datatype Principal = Principal(
    id: string,
    email: string,
    name: Option<string>,
    role: string,
    educatorId: Option<string>,
    tenant: Option<string>,
    domain: Option<string>)

  /** The errors the flows throw, in the order of their messages:
      "Educator account already exists", "Invalid academy", "Student already
      exists in this academy", "Invalid credentials", "Invalid action"; and
      the TypeError of reading the domain of a student's educator when there
      is none, which the foreign key of the students table rules out. */
  datatype AuthError = AccountExists | InvalidAcademy | StudentExists | InvalidCredentials | InvalidAction | OwnerMissing

  /** What a flow returns or throws, and the store afterwards. */
  datatype FlowOutcome = FlowOutcome(result: Result<Principal, AuthError>, db: Db)

  /** What `authorize` returns (a user or null), and the store afterwards. */
  datatype Attempt = Attempt(user: Option<Principal>, db: Db)

  /** `x || undefined` on a possibly absent string. */
  function Defined(s: Option<string>): (r: Option<string>)
    ensures r.Some? <==> Truthy(s)
    ensures r.Some? ==> r == s
  {
    if Truthy(s) then s else None
  }

  /** The principal built from an educator row, as both educator branches build it. */
  function EducatorPrincipal(e: EducatorRow): (p: Principal)
    ensures p.id == e.id && p.email == e.email && p.role == "educator"
    ensures p.educatorId.None? && p.tenant.None?
    ensures p.domain == Defined(Some(e.domain))
  {
    Principal(e.id, e.email, Defined(e.name), "educator", None, None, Defined(Some(e.domain)))
  }

  /** The row educator sign-up inserts: the password hashed, the name
      "New Educator", the domain `domain || "academy"`, not verified. */
  function SignupEducatorRow(id: string, email: string, password: string, domain: Option<string>, salt: nat): (row: EducatorRow)
    ensures row.id == id && row.email == email && row.name == Some("New Educator")
    ensures row.domain == OrElse(domain, "academy") && !row.domainVerified
    ensures row.passwordHash.Some? && VerifyPassword(password, row.passwordHash.value)
  {
    EducatorRow(id, email, Some(Bcrypt.Hash(password, salt)), Some("New Educator"), OrElse(domain, "academy"), false)
  }

  /** `handleEducatorAuth` as a function of the store it starts from. */
  function EducatorAuthOutcome(db: Db, email: string, password: string, action: Option<string>, domain: Option<string>,
                               newId: string, salt: nat): (o: FlowOutcome)
    ensures o.result.Err? ==> o.db == db
    ensures o.result.Ok? ==> o.result.value.role == "educator"
  {
    if action == Some("signup") then
      if FindEducatorByEmail(db, email).Some? then FlowOutcome(Err(AccountExists), db)
      else
        var row := SignupEducatorRow(newId, email, password, domain, salt);
        FlowOutcome(Ok(EducatorPrincipal(row)), db.(educators := db.educators + [row]))
    else if action == Some("signin") then
      match FindEducatorByEmail(db, email)
      case None => FlowOutcome(Err(InvalidCredentials), db)
      case Some(e) =>
        if e.passwordHash.None? || !Bcrypt.Compare(password, e.passwordHash.value) then FlowOutcome(Err(InvalidCredentials), db)
        else FlowOutcome(Ok(EducatorPrincipal(e)), db)
    else
      FlowOutcome(Err(InvalidAction), db)
  }

  /** The row student sign-up inserts under the resolved educator. */
  function SignupStudentRow(id: string, email: string, password: string, educatorId: string, salt: nat): (row: StudentRow)
    ensures row.id == id && row.email == email && row.educatorId == educatorId && row.name == Some("New Student")
    ensures row.passwordHash.Some? && VerifyPassword(password, row.passwordHash.value)
  {
    StudentRow(id, email, Some(Bcrypt.Hash(password, salt)), Some("New Student"), educatorId)
  }

  /** `handleStudentAuth` as a function of the store it starts from. The tenant
      parameter defaults to "default" only when it is absent. */
  function StudentAuthOutcome(db: Db, email: string, password: string, action: Option<string>, tenant: Option<string>,
                              newId: string, salt: nat): (o: FlowOutcome)
    ensures o.result.Err? ==> o.db == db
    ensures o.result.Ok? ==> o.result.value.role == "student" && o.result.value.domain.None?
  {
    var t := tenant.GetOr("default");
    if action == Some("signup") then
      match FindEducatorByDomain(db, t)
      case None => FlowOutcome(Err(InvalidAcademy), db)
      case Some(educator) =>
        if FindStudentByEmailAndEducator(db, email, educator.id).Some? then FlowOutcome(Err(StudentExists), db)
        else
          var row := SignupStudentRow(newId, email, password, educator.id, salt);
          var p := Principal(row.id, row.email, Defined(row.name), "student", Some(educator.id), Some(t), None);
          FlowOutcome(Ok(p), db.(students := db.students + [row]))
    else if action == Some("signin") then
      match FindStudentByEmail(db, email)
      case None => FlowOutcome(Err(InvalidCredentials), db)
      case Some(s) =>
        if s.passwordHash.None? || !Bcrypt.Compare(password, s.passwordHash.value) then FlowOutcome(Err(InvalidCredentials), db)
        else
          match FindEducatorById(db, s.educatorId)
          case Some(owner) =>
            var p := Principal(s.id, s.email, Defined(s.name), "student", Some(s.educatorId), Some(OrElse(Some(owner.domain), "default")), None);
            FlowOutcome(Ok(p), db)
          case None => FlowOutcome(Err(OwnerMissing), db)
    else
      FlowOutcome(Err(InvalidAction), db)
  }

  /** A thrown error becomes `null`, a returned principal the user. */
  function Collapse(o: FlowOutcome): (a: Attempt)
    ensures a.db == o.db
    ensures a.user.Some? <==> o.result.Ok?
    ensures o.result.Ok? ==> a.user == Some(o.result.value)
  {
    match o.result
    case Ok(p) => Attempt(Some(p), o.db)
    case Err(_) => Attempt(None, o.db)
  }

  /** `authorize` as a function of the store it starts from: with an email and
      a password it hands the request to the educator or the student flow by
      `userType`, and any error those throw, including an action other than
      sign-up or sign-in, becomes "no user". */
  function AuthorizeOutcome(db: Db, credentials: Option<Credentials>, newId: string, salt: nat): (a: Attempt)
    ensures credentials.None? || !Truthy(credentials.value.email) || !Truthy(credentials.value.password) ==> a == Attempt(None, db)
    ensures a.user.None? ==> a.db == db
    ensures credentials.Some? && Truthy(credentials.value.email) && Truthy(credentials.value.password) ==>
      var c := credentials.value;
      && (c.userType == Some("educator") ==>
            a == Collapse(EducatorAuthOutcome(db, c.email.value, c.password.value, c.action, c.domain, newId, salt)))
      && (c.userType == Some("student") ==>
            a == Collapse(StudentAuthOutcome(db, c.email.value, c.password.value, c.action, c.tenant, newId, salt)))
      && (c.userType != Some("educator") && c.userType != Some("student") ==> a == Attempt(None, db))
    ensures credentials.Some? && credentials.value.action != Some("signin") && credentials.value.action != Some("signup") ==>
      a == Attempt(None, db)
  {
    if credentials.None? || !Truthy(credentials.value.email) || !Truthy(credentials.value.password) then Attempt(None, db)
    else
      var c := credentials.value;
      if c.userType == Some("educator") then
        Collapse(EducatorAuthOutcome(db, c.email.value, c.password.value, c.action, c.domain, newId, salt))
      else if c.userType == Some("student") then
        Collapse(StudentAuthOutcome(db, c.email.value, c.password.value, c.action, c.tenant, newId, salt))
      else
        Attempt(None, db)
  }

  /** `handleEducatorAuth`. `newId` is the id the database assigns to a created
      row and `salt` the salt bcrypt draws. */
  method HandleEducatorAuth(store: CredentialStore, email: string, password: string, action: Option<string>, domain: Option<string>,
                            newId: string, salt: nat)
    returns (r: Result<Principal, AuthError>)
    modifies store
    ensures FlowOutcome(r, store.State()) == EducatorAuthOutcome(old(store.State()), email, password, action, domain, newId, salt)
  {
    if action == Some("signup") {
      var existing := FindEducatorByEmail(store.State(), email);
      if existing.Some? {
        return Err(AccountExists);
      }
      var hashed := Bcrypt.Hash(password, salt);
      var created := store.CreateEducator(EducatorRow(newId, email, Some(hashed), Some("New Educator"), OrElse(domain, "academy"), false));
      return Ok(EducatorPrincipal(created));
    }
    if action == Some("signin") {
      var educator := FindEducatorByEmail(store.State(), email);
      if educator.None? || educator.value.passwordHash.None? {
        return Err(InvalidCredentials);
      }
      var isValidPassword := Bcrypt.Compare(password, educator.value.passwordHash.value);
      if !isValidPassword {
        return Err(InvalidCredentials);
      }
      return Ok(EducatorPrincipal(educator.value));
    }
    return Err(InvalidAction);
  }

  /** `handleStudentAuth`. */
  method HandleStudentAuth(store: CredentialStore, email: string, password: string, action: Option<string>, tenant: Option<string>,
                           newId: string, salt: nat)
    returns (r: Result<Principal, AuthError>)
    modifies store
    ensures FlowOutcome(r, store.State()) == StudentAuthOutcome(old(store.State()), email, password, action, tenant, newId, salt)
  {
    var t := tenant.GetOr("default");
    if action == Some("signup") {
      var educator := FindEducatorByDomain(store.State(), t);
      if educator.None? {
        return Err(InvalidAcademy);
      }
      var existingStudent := FindStudentByEmailAndEducator(store.State(), email, educator.value.id);
      if existingStudent.Some? {
        return Err(StudentExists);
      }
      var hashed := Bcrypt.Hash(password, salt);
      var created := store.CreateStudent(StudentRow(newId, email, Some(hashed), Some("New Student"), educator.value.id));
      return Ok(Principal(created.id, created.email, Defined(created.name), "student", Some(educator.value.id), Some(t), None));
    }
    if action == Some("signin") {
      var student := FindStudentByEmail(store.State(), email);
      if student.None? || student.value.passwordHash.None? {
        return Err(InvalidCredentials);
      }
      var isValidPassword := Bcrypt.Compare(password, student.value.passwordHash.value);
      if !isValidPassword {
        return Err(InvalidCredentials);
      }
      var owner := FindEducatorById(store.State(), student.value.educatorId);
      if owner.None? {
        return Err(OwnerMissing);
      }
      var s := student.value;
      return Ok(Principal(s.id, s.email, Defined(s.name), "student", Some(s.educatorId), Some(OrElse(Some(owner.value.domain), "default")), None));
    }
    return Err(InvalidAction);
  }

  /** `authorize`: reject missing email or password, dispatch on the user
      type, and turn any thrown error into `null`. */
  method Authorize(store: CredentialStore, credentials: Option<Credentials>, newId: string, salt: nat)
    returns (user: Option<Principal>)
    modifies store
    ensures Attempt(user, store.State()) == AuthorizeOutcome(old(store.State()), credentials, newId, salt)
  {
    if credentials.None? || !Truthy(credentials.value.email) || !Truthy(credentials.value.password) {
      return None;
    }
    var c := credentials.value;
    var r: Result<Principal, AuthError>;
    if c.userType == Some("educator") {
      r := HandleEducatorAuth(store, c.email.value, c.password.value, c.action, c.domain, newId, salt);
    } else if c.userType == Some("student") {
      r := HandleStudentAuth(store, c.email.value, c.password.value, c.action, c.tenant, newId, salt);
    } else {
      return None;
    }
    user := if r.Ok? then Some(r.value) else None;
  }

  // ---------------------------------------------------------------------
  // Session claims

  /** The claims a session token carries: the subject and the four claims the `jwt` callback sets. */
  datatype Claims = Claims(
    sub: Option<string>,
    role: Option<string>,
    educatorId: Option<string>,
    tenant: Option<string>,
    domain: Option<string>)

  /** The decoded token the `jwt` callback receives and updates in place. */
  class Token {
    var sub: Option<string>
    var role: Option<string>
    var educatorId: Option<string>
    var tenant: Option<string>
    var domain: Option<string>

    constructor (c: Claims)
      ensures State() == c
    {
      sub, role, educatorId, tenant, domain := c.sub, c.role, c.educatorId, c.tenant, c.domain;
    }

    function State(): Claims
      reads this
    {
      Claims(sub, role, educatorId, tenant, domain)
    }
  }

  /** What the `jwt` callback leaves in the token: with a user (at sign-in) its
      role, educator id, tenant and domain; without one, the token as it was. */
  function JwtClaims(token: Claims, user: Option<Principal>): (t: Claims)
    ensures user.None? ==> t == token
    ensures user.Some? ==> (t.sub == token.sub && t.role == Some(user.value.role)
      && t.educatorId == user.value.educatorId && t.tenant == user.value.tenant && t.domain == user.value.domain)
  {
    match user
    case None => token
    case Some(u) => token.(role := Some(u.role), educatorId := u.educatorId, tenant := u.tenant, domain := u.domain)
  }

  /** The `jwt` callback. */
  method Jwt(token: Token, user: Option<Principal>) returns (t: Token)
    modifies token
    ensures t == token
    ensures token.State() == JwtClaims(old(token.State()), user)
    ensures user.None? ==> token.State() == old(token.State())
  {
    if user.Some? {
      token.role := Some(user.value.role);
      token.educatorId := user.value.educatorId;
      token.tenant := user.value.tenant;
      token.domain := user.value.domain;
    }
    return token;
  }

  /** `session.user` as pages read it. */
  datatype SessionUser = SessionUser(
    id: string,
    email: string,
    name: Option<string>,
    role: Option<string>,
    educatorId: Option<string>,
    tenant: Option<string>,
    domain: Option<string>)

  /** The session object the `session` callback receives and updates in place. */
  class Session {
    var user: Option<SessionUser>

    constructor (user: Option<SessionUser>)
      ensures this.user == user
    {
      this.user := user;
    }
  }

  /** What the `session` callback leaves in `session.user`: the subject (or
      "") as id and the token's four claims; no user stays no user. */
  function SessionUserFrom(user: Option<SessionUser>, token: Claims): (r: Option<SessionUser>)
    ensures user.None? ==> r.None?
    ensures user.Some? ==> (r.Some? && r.value.id == OrElse(token.sub, "")
      && r.value.email == user.value.email && r.value.name == user.value.name
      && r.value.role == token.role && r.value.educatorId == token.educatorId
      && r.value.tenant == token.tenant && r.value.domain == token.domain)
  {
    match user
    case None => None
    case Some(u) => Some(u.(id := OrElse(token.sub, ""), role := token.role, educatorId := token.educatorId,
                            tenant := token.tenant, domain := token.domain))
  }

  /** The `session` callback. */
  method SessionCallback(session: Session, token: Token) returns (s: Session)
    modifies session
    ensures s == session
    ensures session.user == SessionUserFrom(old(session.user), token.State())
  {
    if session.user.Some? {
      var u := session.user.value;
      session.user := Some(u.(id := OrElse(token.sub, ""), role := token.role, educatorId := token.educatorId,
                              tenant := token.tenant, domain := token.domain));
    }
    return session;
  }

  /** `session.maxAge` and `jwt.maxAge`: 30 days, in seconds. */
  const SessionMaxAge: nat := 30 * 24 * 60 * 60
  const JwtMaxAge: nat := 30 * 24 * 60 * 60
  /** `session.updateAge`: 24 hours, in seconds. */
  const SessionUpdateAge: nat := 24 * 60 * 60

  lemma SessionLifetimes()
    ensures SessionMaxAge == 2592000 && JwtMaxAge == SessionMaxAge
    ensures SessionUpdateAge == 86400 && SessionMaxAge == 30 * SessionUpdateAge
  {
  }
}
