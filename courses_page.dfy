/** app/courses/page.tsx: the educator's course list. The list is narrowed by
    a case-insensitive search on title or category, four figures sum up the
    whole list, and the page switches between the list and the course editor
    of components/AddNewCourse.tsx. */
module CoursesPage {
  import opened Common
  import opened Text
  import AddNewCourse

  /** The fields of a course record the page computes with. */
  datatype Course = Course(title: string, category: string, students: int, status: string)

  /** The four courses the page lists. */
  function MockCourses(): seq<Course> {
    [ Course("Introduction to Programming", "Technology", 45, "active"),
      Course("Digital Marketing Fundamentals", "Marketing", 32, "active"),
      Course("Graphic Design Basics", "Design", 28, "draft"),
      Course("Data Science Fundamentals", "Technology", 0, "draft") ]
  }

  /** `getStatusBadge`. */
  function StatusBadge(status: string): Badge {
    match status
    case "active" => Badge(Classes("bg-green-100 text-green-800"), "Active")
    case "draft" => Badge(Variant("secondary"), "Draft")
    case "archived" => Badge(Variant("outline"), "Archived")
    case _ => Badge(Variant("secondary"), status)
  }

  /** The search test on one course. */
  predicate CourseMatches(searchTerm: string, c: Course) {
    ContainsIgnoringCase(c.title, searchTerm) || ContainsIgnoringCase(c.category, searchTerm)
  }

  /** `filteredCourses`. */
  function FilteredCourses(courses: seq<Course>, searchTerm: string): seq<Course> {
    Filter(courses, (c: Course) => CourseMatches(searchTerm, c))
  }

  /** Whether the "No courses found" card is shown. */
  predicate ShowsNoCourses(courses: seq<Course>, searchTerm: string) {
    |FilteredCourses(courses, searchTerm)| == 0
  }

  predicate IsActive(c: Course) { c.status == "active" }
  predicate IsDraft(c: Course) { c.status == "draft" }

  /** The "Total Students" figure. */
  function TotalStudents(courses: seq<Course>): int {
    Sum(courses, (c: Course) => c.students)
  }

  /** The "Active Courses" figure. */
  function ActiveCourses(courses: seq<Course>): nat {
    Count(courses, IsActive)
  }

  /** The "Draft Courses" figure. */
  function DraftCourses(courses: seq<Course>): nat {
    Count(courses, IsDraft)
  }

  /** A course is listed exactly when the term occurs in its title or its
      category, ignoring case; the list keeps the original order. */
  lemma FilteredCoursesKeepsMatches(courses: seq<Course>, searchTerm: string)
    ensures var r := FilteredCourses(courses, searchTerm);
      && IsSubsequence(r, courses)
      && (forall i :: 0 <= i < |courses| ==> (courses[i] in r <==> CourseMatches(searchTerm, courses[i])))
      && (forall c :: c in r ==> c in courses && CourseMatches(searchTerm, c))
  {
    FilterIsSubsequence(courses, (c: Course) => CourseMatches(searchTerm, c));
  }

  /** No search lists every course, so the "No courses found" card shows only
      when there is no course at all. */
  lemma EmptySearchListsEveryCourse(courses: seq<Course>)
    ensures FilteredCourses(courses, "") == courses
    ensures ShowsNoCourses(courses, "") <==> courses == []
  {
    forall i | 0 <= i < |courses|
      ensures CourseMatches("", courses[i])
    {
      ContainsEmptyTerm(courses[i].title);
    }
    FilterAll(courses, (c: Course) => CourseMatches("", c));
  }

  /** No course is both active and a draft, so the two figures together never
      exceed the number of courses; each one is at most that number. */
  lemma StatusCountsBounded(courses: seq<Course>)
    ensures ActiveCourses(courses) <= |courses| && DraftCourses(courses) <= |courses|
    ensures ActiveCourses(courses) + DraftCourses(courses) <= |courses|
  {
    CountDisjoint(courses, IsActive, IsDraft);
  }

  /** Student counts that are never negative give a total at least each one. */
  lemma TotalStudentsBound(courses: seq<Course>)
    requires forall i :: 0 <= i < |courses| ==> courses[i].students >= 0
    ensures TotalStudents(courses) >= 0
    ensures forall i :: 0 <= i < |courses| ==> courses[i].students <= TotalStudents(courses)
  {
    SumNonNegative(courses, (c: Course) => c.students);
  }

  /** The figures for the listed courses: 4 courses, 105 students, 2 active and 2 drafts. */
  lemma MockFigures()
    ensures |MockCourses()| == 4
    ensures TotalStudents(MockCourses()) == 105
    ensures ActiveCourses(MockCourses()) == 2 && DraftCourses(MockCourses()) == 2
  {
  }

  /** The three known statuses get three different badges; any other status
      is shown as written on a secondary badge, so "Draft" looks like "draft". */
  lemma StatusBadges(status: string)
    ensures StatusBadge("active") != StatusBadge("draft")
    ensures StatusBadge("active") != StatusBadge("archived")
    ensures StatusBadge("draft") != StatusBadge("archived")
    ensures status !in {"active", "draft", "archived"} ==> StatusBadge(status) == Badge(Variant("secondary"), status)
    ensures StatusBadge("Draft") == StatusBadge("draft")
  {
  }

  /** What the buttons of the page do to `activeView`. */
  datatype ViewAction = AddNewCourseClicked | BackToCourses | CourseSaved

  /** The view after one action: the add buttons open the editor, its back
      button and its save both return to the list. */
  function NextView(action: ViewAction): string {
    match action
    case AddNewCourseClicked => "add-course"
    case BackToCourses => "list"
    case CourseSaved => "list"
  }

  /** The view after a run of actions from `view`. */
  function ViewAfter(view: string, actions: seq<ViewAction>): string
    decreases |actions|
  {
    if actions == [] then view else ViewAfter(NextView(actions[0]), actions[1..])
  }

  /** Whether the page renders the course editor in place of the list. */
  predicate ShowsEditor(activeView: string) {
    activeView == "add-course"
  }

  /** From any view, the editor is on screen after a non-empty run of actions
      exactly when the last action opened it; the view is always one of the
      two the page knows. */
  lemma {:induction false} EditorIffLastActionAdds(view: string, actions: seq<ViewAction>)
    requires |actions| > 0
    ensures ShowsEditor(ViewAfter(view, actions)) <==> actions[|actions| - 1] == AddNewCourseClicked
    ensures ViewAfter(view, actions) in {"list", "add-course"}
    decreases |actions|
  {
    if |actions| > 1 {
      EditorIffLastActionAdds(NextView(actions[0]), actions[1..]);
    }
  }

  /** The page's state: the active view and the search term. */
  class CourseManagementPage {
    var activeView: string
    var searchTerm: string

    constructor ()
      ensures activeView == "list" && searchTerm == ""
    {
      activeView := "list";
      searchTerm := "";
    }

    /** The search input. */
    method SetSearchTerm(term: string)
      modifies this
      ensures searchTerm == term && activeView == old(activeView)
    {
      searchTerm := term;
    }

    /** `handleAddNewCourse`. */
    method HandleAddNewCourse()
      modifies this
      ensures activeView == NextView(AddNewCourseClicked) && ShowsEditor(activeView)
      ensures searchTerm == old(searchTerm)
    {
      activeView := "add-course";
    }

    /** `handleBackToCourses`. */
    method HandleBackToCourses()
      modifies this
      ensures activeView == NextView(BackToCourses) && !ShowsEditor(activeView)
      ensures searchTerm == old(searchTerm)
    {
      activeView := "list";
    }

    /** `handleSaveCourse`: hands the editor's data on (the source only logs
        it) and returns to the list. */
    method HandleSaveCourse(courseData: AddNewCourse.CompleteData) returns (saved: AddNewCourse.CompleteData)
      modifies this
      ensures saved == courseData
      ensures activeView == NextView(CourseSaved) && !ShowsEditor(activeView)
      ensures searchTerm == old(searchTerm)
    {
      saved := courseData;
      activeView := "list";
    }
  }
}
