/** app/dashboard/page.tsx: the dashboard both kinds of user land on. It reads
    the session, waits while it loads, sends a visitor without a session to
    the sign-in page, and otherwise renders the student or the educator view
    with names taken from the session claims, each with a fallback. */
module DashboardPage {
  import opened Common
  import opened Store
  import opened Auth

  /** `useSession().status`. */
  datatype Status = Loading | Authenticated | Unauthenticated

  /** `useSession().data`: a session may lack its user. */
  datatype SessionData = SessionData(user: Option<SessionUser>)

  /** What the page renders. */
  datatype View = LoadingView | Nothing | StudentView(academyName: string, userName: string) | EducatorView(userName: string)

  /** What the effect does. */
  datatype Effect = Stay | Redirect(path: string)

  /** `session?.user?.<claim>`. */
  function Claim(session: Option<SessionData>, pick: SessionUser -> Option<string>): Option<string> {
    if session.Some? && session.value.user.Some? then pick(session.value.user.value) else None
  }

  /** `academyName`: the `domain` claim, else "coursivo". */
  function AcademyName(session: Option<SessionData>): string {
    OrElse(Claim(session, (u: SessionUser) => u.domain), "coursivo")
  }

  /** `userType`: the `role` claim, else "educator" (the cast checks nothing). */
  function UserType(session: Option<SessionData>): string {
    OrElse(Claim(session, (u: SessionUser) => u.role), "educator")
  }

  /** `userName`: the `name` claim, else "User". */
  function UserName(session: Option<SessionData>): string {
    OrElse(Claim(session, (u: SessionUser) => u.name), "User")
  }

  /** The redirect effect. */
  function PageEffect(status: Status, session: Option<SessionData>): Effect {
    if status == Loading then Stay
    else if session.None? then Redirect("/signin")
    else Stay
  }

  /** The rendered view. */
  function Render(status: Status, session: Option<SessionData>): View {
    if status == Loading then LoadingView
    else if session.None? then Nothing
    else if UserType(session) == "student" then StudentView(AcademyName(session), UserName(session))
    else EducatorView(UserName(session))
  }

  /** Where the student view's "View All Courses", "Take a Quiz" and "Browse Courses" buttons go. */
  function StudentLinks(academyName: string): seq<string> {
    ["/" + academyName + "/courses", "/" + academyName + "/quiz", "/" + academyName + "/courses"]
  }

  /** While the session loads the page shows the loading view and does not redirect. */
  lemma LoadingWaits(session: Option<SessionData>)
    ensures Render(Loading, session) == LoadingView && PageEffect(Loading, session) == Stay
  {
  }

  /** Once loaded, no session means a redirect to sign-in and nothing rendered;
      a session means no redirect. */
  lemma NoSessionRedirects(status: Status, session: Option<SessionData>)
    requires status != Loading
    ensures session.None? ==> PageEffect(status, session) == Redirect("/signin") && Render(status, session) == Nothing
    ensures session.Some? ==> PageEffect(status, session) == Stay && Render(status, session) != Nothing
  {
  }

  /** The student view is rendered exactly when the role claim is "student";
      every other role, and none, gets the educator view. */
  lemma StudentViewIffStudentRole(status: Status, session: Option<SessionData>)
    requires status != Loading && session.Some?
    ensures Render(status, session).StudentView? <==> Claim(session, (u: SessionUser) => u.role) == Some("student")
    ensures !Render(status, session).StudentView? ==> Render(status, session) == EducatorView(UserName(session))
  {
  }

  /** The fallbacks: missing or empty claims give "coursivo", "educator" and "User". */
  lemma ClaimFallbacks(session: Option<SessionData>)
    ensures !Truthy(Claim(session, (u: SessionUser) => u.domain)) ==> AcademyName(session) == "coursivo"
    ensures Truthy(Claim(session, (u: SessionUser) => u.domain)) ==> AcademyName(session) == Claim(session, (u: SessionUser) => u.domain).value
    ensures !Truthy(Claim(session, (u: SessionUser) => u.role)) ==> UserType(session) == "educator"
    ensures !Truthy(Claim(session, (u: SessionUser) => u.name)) ==> UserName(session) == "User"
  {
  }

  /** A student who signed in sees the student view, but under the academy
      name "coursivo": the student principal carries the academy as `tenant`,
      and the page reads `domain`, which the callbacks leave empty. */
  lemma SignedInStudentSeesDefaultAcademy(db: Db, email: string, password: string, action: Option<string>,
                                          tenant: Option<string>, newId: string, salt: nat,
                                          token: Claims, user: SessionUser)
    requires StudentAuthOutcome(db, email, password, action, tenant, newId, salt).result.Ok?
    ensures var p := StudentAuthOutcome(db, email, password, action, tenant, newId, salt).result.value;
      var session := Some(SessionData(SessionUserFrom(Some(user), JwtClaims(token, Some(p)))));
      && Render(Authenticated, session).StudentView?
      && AcademyName(session) == "coursivo"
      && StudentLinks(AcademyName(session)) == ["/coursivo/courses", "/coursivo/quiz", "/coursivo/courses"]
  {
    var p := StudentAuthOutcome(db, email, password, action, tenant, newId, salt).result.value;
    var session := Some(SessionData(SessionUserFrom(Some(user), JwtClaims(token, Some(p)))));
    assert Claim(session, (u: SessionUser) => u.role) == Some("student");
    assert Claim(session, (u: SessionUser) => u.domain) == None;
    assert "/" + "coursivo" + "/courses" == "/coursivo/courses";
    assert "/" + "coursivo" + "/quiz" == "/coursivo/quiz";
  }

  /** An educator who signed in sees the educator view. */
  lemma SignedInEducatorSeesEducatorView(db: Db, email: string, password: string, action: Option<string>,
                                         domain: Option<string>, newId: string, salt: nat,
                                         token: Claims, user: SessionUser)
    requires EducatorAuthOutcome(db, email, password, action, domain, newId, salt).result.Ok?
    ensures var p := EducatorAuthOutcome(db, email, password, action, domain, newId, salt).result.value;
      var session := Some(SessionData(SessionUserFrom(Some(user), JwtClaims(token, Some(p)))));
      Render(Authenticated, session).EducatorView?
  {
    var p := EducatorAuthOutcome(db, email, password, action, domain, newId, salt).result.value;
    var session := Some(SessionData(SessionUserFrom(Some(user), JwtClaims(token, Some(p)))));
    assert Claim(session, (u: SessionUser) => u.role) == Some("educator");
  }
}
