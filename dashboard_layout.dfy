/** components/DashboardLayout.tsx: the sidebar shared by the dashboards. It
    picks the academy name shown in the header, builds the navigation links
    and the profile link, and highlights the link of the current page.

    The layout is declared for the types "student" and "educator", but the
    educator help and profile pages pass "academy"; the two tests in the
    source ("is it educator?" for the name, "is it student?" for the links)
    then take different sides, so the type is kept as the string passed. */
module DashboardLayout {
  import opened Common
  import opened Text

  datatype NavigationItem = NavigationItem(id: string, caption: string, href: string)

  /** What the navigation buttons and the logout button do: a client-side route change. */
  datatype Navigation = Push(path: string)

  /** The fallback academy name. */
  const DefaultAcademy: string := "coursivo"

  /** `currentAcademyName`: an educator sees the `domain` claim of the session,
      anyone else the `academyName` property; either falls back to "coursivo". */
  function CurrentAcademyName(kind: string, sessionDomain: Option<string>, academyName: Option<string>): (name: string)
    ensures name != ""
  {
    if kind == "educator" then OrElse(sessionDomain, DefaultAcademy) else OrElse(academyName, DefaultAcademy)
  }

  /** The student links, all under the academy's own path. */
  function StudentNavigationItems(name: string): seq<NavigationItem> {
    [ NavigationItem("dashboard", "Dashboard", "/" + name + "/dashboard"),
      NavigationItem("courses", "My Courses", "/" + name + "/courses"),
      NavigationItem("quiz", "Take Quiz", "/" + name + "/quiz"),
      NavigationItem("achievements", "Achievements", "/" + name + "/achievements"),
      NavigationItem("schedule", "Schedule", "/" + name + "/schedule") ]
  }

  /** The educator links, at fixed absolute paths. */
  function EducatorNavigationItems(): seq<NavigationItem> {
    [ NavigationItem("dashboard", "Dashboard", "/dashboard"),
      NavigationItem("courses", "Course Management", "/courses"),
      NavigationItem("students", "Student Management", "/students"),
      NavigationItem("settings", "Settings", "/settings"),
      NavigationItem("help", "Help & Support", "/help") ]
  }

  const StudentIds: seq<string> := ["dashboard", "courses", "quiz", "achievements", "schedule"]
  const EducatorIds: seq<string> := ["dashboard", "courses", "students", "settings", "help"]

  /** `navigationItems`: the student links for "student", the educator links otherwise. */
  function NavigationItems(kind: string, name: string): seq<NavigationItem> {
    if kind == "student" then StudentNavigationItems(name) else EducatorNavigationItems()
  }

  /** `profileHref`. */
  function ProfileHref(kind: string, name: string): string {
    if kind == "student" then "/" + name + "/profile" else "/profile"
  }

  /** `isActive`: the two dashboard links match the path exactly, any other
      link matches every path that starts with it. */
  predicate IsActive(pathname: string, href: string, name: string) {
    if href == "/dashboard" || href == "/" + name + "/dashboard" then pathname == href
    else StartsWith(pathname, href)
  }

  /** `handleLogout`: go to the home page. The session is not ended. */
  function HandleLogout(): (n: Navigation)
    ensures n.path == "/"
  {
    Push("/")
  }

  /** The academy name: the session's domain for an educator, the property for
      anyone else, and "coursivo" when the chosen one is missing or empty. */
  lemma AcademyNameSources(kind: string, sessionDomain: Option<string>, academyName: Option<string>)
    ensures kind == "educator" && Truthy(sessionDomain) ==> CurrentAcademyName(kind, sessionDomain, academyName) == sessionDomain.value
    ensures kind != "educator" && Truthy(academyName) ==> CurrentAcademyName(kind, sessionDomain, academyName) == academyName.value
    ensures kind == "educator" && !Truthy(sessionDomain) ==> CurrentAcademyName(kind, sessionDomain, academyName) == DefaultAcademy
    ensures kind != "educator" && !Truthy(academyName) ==> CurrentAcademyName(kind, sessionDomain, academyName) == DefaultAcademy
  {
  }

  /** Every student link is `/<academy>/<id>`, every educator link is `/<id>`, and
      the five ids of each list are different. The profile link is formed the
      same way from "profile" and is none of the menu's links. */
  lemma NavigationHrefs(kind: string, name: string)
    ensures var items := NavigationItems(kind, name);
      && |items| == 5
      && (forall i, j :: 0 <= i < j < |items| ==> items[i].id != items[j].id)
      && (forall i :: 0 <= i < |items| ==>
            items[i].href == if kind == "student" then "/" + name + "/" + items[i].id else "/" + items[i].id)
      && (forall i :: 0 <= i < |items| ==> items[i].href != ProfileHref(kind, name))
    ensures ProfileHref(kind, name) == if kind == "student" then "/" + name + "/" + "profile" else "/" + "profile"
  {
    if kind == "student" {
      StudentHrefs(name);
      var items := StudentNavigationItems(name);
      var prefix := "/" + name + "/";
      forall i | 0 <= i < |items| ensures items[i].href != ProfileHref(kind, name) {
        assert items[i].href == prefix + items[i].id;
        assert ProfileHref(kind, name) == prefix + "profile";
        assert (prefix + items[i].id)[|prefix|..] == items[i].id;
        assert (prefix + "profile")[|prefix|..] == "profile";
      }
    } else {
      EducatorHrefs();
    }
  }

  /** The student menu links, in order, to the dashboard, courses, quiz,
      achievements and schedule of the academy. */
  lemma StudentHrefs(name: string)
    ensures var items := StudentNavigationItems(name);
      && (forall i :: 0 <= i < |items| ==> items[i].id == StudentIds[i])
      && (forall i, j :: 0 <= i < j < |items| ==> items[i].id != items[j].id)
      && (forall i :: 0 <= i < |items| ==> items[i].href == "/" + name + "/" + items[i].id)
  {
    var items := StudentNavigationItems(name);
    var ids := StudentIds;
    assert forall i :: 0 <= i < 5 ==> items[i].id == ids[i];
    assert forall i :: 0 <= i < 5 ==> items[i].href == "/" + name + "/" + ids[i];
  }

  /** The educator menu links, in order, to the dashboard, courses, students,
      settings and help pages. */
  lemma EducatorHrefs()
    ensures var items := EducatorNavigationItems();
      && (forall i :: 0 <= i < |items| ==> items[i].id == EducatorIds[i])
      && (forall i, j :: 0 <= i < j < |items| ==> items[i].id != items[j].id)
      && (forall i :: 0 <= i < |items| ==> items[i].href == "/" + items[i].id)
  {
    var items := EducatorNavigationItems();
    assert items[0].href == "/" + "dashboard";
    assert items[1].href == "/" + "courses";
    assert items[2].href == "/" + "students";
    assert items[3].href == "/" + "settings";
    assert items[4].href == "/" + "help";
  }

  /** The "academy" layout of the help and profile pages mixes the two: the
      educator links and profile link, but the name from the (absent) property,
      so its header reads "coursivo" whatever the educator's domain. */
  lemma AcademyLayoutMixesTheTwo(sessionDomain: Option<string>)
    ensures NavigationItems("academy", DefaultAcademy) == EducatorNavigationItems()
    ensures ProfileHref("academy", DefaultAcademy) == "/profile"
    ensures CurrentAcademyName("academy", sessionDomain, None) == DefaultAcademy
  {
  }

  /** A dashboard link is active exactly on its own path. */
  lemma DashboardLinksMatchExactly(pathname: string, name: string)
    ensures IsActive(pathname, "/dashboard", name) <==> pathname == "/dashboard"
    ensures IsActive(pathname, "/" + name + "/dashboard", name) <==> pathname == "/" + name + "/dashboard"
  {
  }

  /** Any other link is active on every path that extends it, even past a
      segment boundary: "/courses-old" highlights "/courses". */
  lemma OtherLinksMatchPrefixes(pathname: string, href: string, name: string, rest: string)
    requires href != "/dashboard" && href != "/" + name + "/dashboard"
    ensures IsActive(pathname, href, name) <==> StartsWith(pathname, href)
    ensures IsActive(href + rest, href, name)
  {
    assert (href + rest)[..|href|] == href;
  }

  /** The prefix test at work on the educator links. */
  lemma CoursesOldHighlightsCourses(name: string)
    ensures IsActive("/courses-old", "/courses", name)
    ensures !IsActive("/dashboard/settings", "/dashboard", name)
  {
    assert "/courses-old"[..|"/courses"|] == "/courses";
    assert |"/" + name + "/dashboard"| > |"/courses"|;
  }
}
