/** app/academy/dashboard/students/page.tsx: the educator's student list. The
    list is narrowed by a case-insensitive search on name or email and by a
    status filter, and four figures sum up the whole list. */
module StudentsPage {
  import opened Common
  import opened Text

  /** The fields of a student record the page computes with. */
  datatype Student = Student(name: string, email: string, enrolledCourses: int, totalProgress: int, status: string)

  /** The four students the page lists (names, enrolments, progress and status). */
  function MockStudents(): seq<Student> {
    [ Student("Alice Johnson", "alice.johnson@example.com", 3, 75, "active"),
      Student("Bob Smith", "bob.smith@example.com", 2, 100, "active"),
      Student("Carol Davis", "carol.davis@example.com", 1, 25, "inactive"),
      Student("David Wilson", "david.wilson@example.com", 4, 65, "active") ]
  }

  /** `matchesSearch && matchesFilter` for one student. */
  predicate Shown(searchTerm: string, selectedFilter: string, st: Student) {
    (ContainsIgnoringCase(st.name, searchTerm) || ContainsIgnoringCase(st.email, searchTerm))
    && (selectedFilter == "all" || st.status == selectedFilter)
  }

  /** `filteredStudents`. */
  function FilteredStudents(students: seq<Student>, searchTerm: string, selectedFilter: string): seq<Student> {
    Filter(students, (st: Student) => Shown(searchTerm, selectedFilter, st))
  }

  predicate IsActive(st: Student) { st.status == "active" }

  /** `activeStudents`. */
  function ActiveStudents(students: seq<Student>): nat {
    Count(students, IsActive)
  }

  /** `totalEnrollments`. */
  function TotalEnrollments(students: seq<Student>): int {
    Sum(students, (st: Student) => st.enrolledCourses)
  }

  /** `averageProgress`: the rounded mean of `totalProgress`. */
  function AverageProgress(students: seq<Student>): int
    requires |students| > 0
  {
    RoundDiv(Sum(students, (st: Student) => st.totalProgress), |students|)
  }

  /** `getStatusBadge`. */
  function StatusBadge(status: string): Badge {
    match status
    case "active" => Badge(Classes("bg-green-100 text-green-800"), "Active")
    case "inactive" => Badge(Variant("secondary"), "Inactive")
    case "suspended" => Badge(Classes("bg-red-100 text-red-800"), "Suspended")
    case _ => Badge(Variant("secondary"), status)
  }

  /** A student is listed exactly when the search term occurs in the name or
      the email, ignoring case, and the filter is "all" or the student's
      status; the list keeps the original order. */
  lemma FilteredStudentsKeepsMatches(students: seq<Student>, searchTerm: string, selectedFilter: string)
    ensures var r := FilteredStudents(students, searchTerm, selectedFilter);
      && IsSubsequence(r, students)
      && (forall i :: 0 <= i < |students| ==>
            (students[i] in r <==> Shown(searchTerm, selectedFilter, students[i])))
      && (forall st :: st in r ==> st in students && Shown(searchTerm, selectedFilter, st))
  {
    FilterIsSubsequence(students, (st: Student) => Shown(searchTerm, selectedFilter, st));
  }

  /** No search and the filter "all" list every student. */
  lemma EmptySearchListsEveryone(students: seq<Student>)
    ensures FilteredStudents(students, "", "all") == students
  {
    forall i | 0 <= i < |students|
      ensures Shown("", "all", students[i])
    {
      ContainsEmptyTerm(students[i].name);
    }
    FilterAll(students, (st: Student) => Shown("", "all", st));
  }

  /** With no search, choosing the "active" filter lists exactly the students
      the "active" figure counts. */
  lemma ActiveFilterMatchesActiveCount(students: seq<Student>)
    ensures FilteredStudents(students, "", "active") == Filter(students, IsActive)
    ensures |FilteredStudents(students, "", "active")| == ActiveStudents(students)
  {
    forall i | 0 <= i < |students|
      ensures Shown("", "active", students[i]) == IsActive(students[i])
    {
      ContainsEmptyTerm(students[i].name);
    }
    FilterAgreeing(students, (st: Student) => Shown("", "active", st), IsActive);
  }

  /** A sum of terms each at most `hi` is at most `hi` times their number, and
      one of terms each at least `lo` is at least `lo` times it. */
  lemma {:induction false} SumBetween(students: seq<Student>, lo: int, hi: int)
    requires forall i :: 0 <= i < |students| ==> lo <= students[i].totalProgress <= hi
    ensures lo * |students| <= Sum(students, (st: Student) => st.totalProgress) <= hi * |students|
  {
    if students != [] {
      assert forall i :: 1 <= i < |students| ==> students[i] == students[1..][i - 1];
      SumBetween(students[1..], lo, hi);
      assert hi * |students| == hi + hi * |students[1..]|;
      assert lo * |students| == lo + lo * |students[1..]|;
    }
  }

  /** The figures: at most as many active students as students, a
      non-negative enrolment total when every count is, and a percentage
      average when every progress is a percentage. */
  lemma StatsBounds(students: seq<Student>)
    requires |students| > 0
    requires forall i :: 0 <= i < |students| ==> 0 <= students[i].totalProgress <= 100
    ensures ActiveStudents(students) <= |students|
    ensures 0 <= AverageProgress(students) <= 100
  {
    var n := |students|;
    SumBetween(students, 0, 100);
    RoundDivBounds(Sum(students, (st: Student) => st.totalProgress), n, 100 * n);
    RoundDivExact(100, n);
  }

  /** Enrolment counts that are never negative give a non-negative total,
      at least any one student's count. */
  lemma EnrollmentsBound(students: seq<Student>)
    requires forall i :: 0 <= i < |students| ==> students[i].enrolledCourses >= 0
    ensures TotalEnrollments(students) >= 0
    ensures forall i :: 0 <= i < |students| ==> students[i].enrolledCourses <= TotalEnrollments(students)
  {
    SumNonNegative(students, (st: Student) => st.enrolledCourses);
  }

  /** The figures for the listed students: 4 students, 3 active, 10 enrolments
      and an average progress of 66 (265 / 4 rounded). */
  lemma MockStats()
    ensures |MockStudents()| == 4
    ensures ActiveStudents(MockStudents()) == 3
    ensures TotalEnrollments(MockStudents()) == 10
    ensures AverageProgress(MockStudents()) == 66
  {
    var s := MockStudents();
    assert Sum(s, (st: Student) => st.totalProgress) == 265;
  }

  /** The three known statuses get three different badges; any other status
      is shown as written on a secondary badge. */
  lemma StatusBadges(status: string)
    ensures StatusBadge("active") != StatusBadge("inactive")
    ensures StatusBadge("active") != StatusBadge("suspended")
    ensures StatusBadge("inactive") != StatusBadge("suspended")
    ensures status !in {"active", "inactive", "suspended"} ==> StatusBadge(status) == Badge(Variant("secondary"), status)
  {
  }

  /** An unknown status "Inactive" cannot be told from "inactive": the
      fallback shows it on the same secondary badge with the same text. */
  lemma CapitalisedInactiveLooksInactive()
    ensures StatusBadge("Inactive") == StatusBadge("inactive")
  {
  }
}
