/** components/AddNewCourse.tsx: the course editor. Its state is the course
    form, the curriculum (modules holding lessons) and the tag being typed;
    the handlers replace that state with a new value computed by `map`,
    `filter` or a spread. */
module AddNewCourse {
  import opened Common
  import opened Text

  datatype Lesson = Lesson(id: string, title: string, kind: string, duration: string, description: string)

  datatype Module = Module(id: string, title: string, description: string, lessons: seq<Lesson>)

  /** The module fields the editor changes through `updateModule`. */
  datatype ModuleField = ModuleTitle | ModuleDescription

  /** The lesson fields the editor changes through `updateLesson`. */
  datatype LessonField = LessonTitle | LessonKind | LessonDuration

  datatype CourseData = CourseData(
    title: string,
    description: string,
    shortDescription: string,
    category: string,
    level: string,
    language: string,
    duration: string,
    price: string,
    currency: string,
    thumbnail: string,
    tags: seq<string>,
    isPublished: bool,
    allowPreview: bool,
    maxStudents: string,
    certificate: bool)

  /** What `handleSave` hands to `onSave`: the course form with the modules added. */
  datatype CompleteData = CompleteData(course: CourseData, modules: seq<Module>)

  // ---------------------------------------------------------------------
  // Initial state

  /** The form the editor opens with. */
  function InitialCourse(): (c: CourseData)
    ensures c.tags == [] && !c.isPublished && c.allowPreview && c.certificate
    ensures c.language == "English" && c.currency == "USD"
    ensures c.title == "" && c.price == "" && c.maxStudents == ""
  {
    CourseData("", "", "", "", "", "English", "", "", "USD", "", [], false, true, "", true)
  }

  /** The curriculum the editor opens with: one introductory module with one video lesson. */
  function InitialModules(): (ms: seq<Module>)
    ensures |ms| == 1 && ms[0].id == "1" && |ms[0].lessons| == 1
    ensures ms[0].lessons[0].id == "1-1" && ms[0].lessons[0].kind == "video"
  {
    [Module("1", "Introduction", "Course introduction and overview",
      [Lesson("1-1", "Welcome to the Course", "video", "5", "Course overview and what you'll learn")])]
  }

  // ---------------------------------------------------------------------
  // Tags

  /** The tag list the editor keeps: no tag twice, none empty, none with
      surrounding white space. */
  predicate CleanTags(tags: seq<string>) {
    && Distinct(tags)
    && forall i :: 0 <= i < |tags| ==> tags[i] != "" && Trim(tags[i]) == tags[i]
  }

  /** Whether `addTag` accepts the typed text: trimmed, it is non-empty and not yet a tag. */
  predicate AcceptsTag(tags: seq<string>, typed: string) {
    Trim(typed) != "" && Trim(typed) !in tags
  }

  /** The tags after `addTag`. */
  function AddTagTo(tags: seq<string>, typed: string): seq<string> {
    if AcceptsTag(tags, typed) then tags + [Trim(typed)] else tags
  }

  /** The tags after `removeTag`. */
  function RemoveTagFrom(tags: seq<string>, tag: string): seq<string> {
    Filter(tags, (t: string) => t != tag)
  }

  /** Trimming is idempotent, so a trimmed tag is already clean. */
  lemma TrimTwice(s: string)
    ensures Trim(Trim(s)) == Trim(s)
  {
    TrimOfTrimmed(Trim(s));
  }

  /** `addTag` adds exactly the trimmed text, and only when it accepts it. */
  lemma {:induction false} AddTagElements(tags: seq<string>, typed: string, x: string)
    ensures x in AddTagTo(tags, typed) <==> x in tags || (x == Trim(typed) && AcceptsTag(tags, typed))
    ensures |AddTagTo(tags, typed)| == |tags| + (if AcceptsTag(tags, typed) then 1 else 0)
  {
  }

  /** `addTag` keeps the tag list clean. */
  lemma {:induction false} AddTagKeepsTagsClean(tags: seq<string>, typed: string)
    requires CleanTags(tags)
    ensures CleanTags(AddTagTo(tags, typed))
  {
    if AcceptsTag(tags, typed) {
      var t := Trim(typed);
      var r := tags + [t];
      TrimTwice(typed);
      forall i, j | 0 <= i < j < |r|
        ensures r[i] != r[j]
      {
        if j == |tags| {
          assert r[i] == tags[i];
        }
      }
      forall i | 0 <= i < |r|
        ensures r[i] != "" && Trim(r[i]) == r[i]
      {
        if i < |tags| {
          assert r[i] == tags[i];
        }
      }
    }
  }

  /** `removeTag` drops every copy of the tag and keeps the others in order. */
  lemma {:induction false} RemoveTagElements(tags: seq<string>, tag: string, x: string)
    ensures x in RemoveTagFrom(tags, tag) <==> x in tags && x != tag
    ensures IsSubsequence(RemoveTagFrom(tags, tag), tags)
  {
    FilterIsSubsequence(tags, (t: string) => t != tag);
    if x in tags && x != tag {
      var i :| 0 <= i < |tags| && tags[i] == x;
    }
  }

  /** `removeTag` keeps the tag list clean. */
  lemma {:induction false} RemoveTagKeepsTagsClean(tags: seq<string>, tag: string)
    requires CleanTags(tags)
    ensures CleanTags(RemoveTagFrom(tags, tag))
  {
    DistinctFilter(tags, (t: string) => t != tag);
    var r := RemoveTagFrom(tags, tag);
    forall i | 0 <= i < |r|
      ensures r[i] != "" && Trim(r[i]) == r[i]
    {
      assert r[i] in tags;
    }
  }

  /** Removing a tag just added gives back the tags from before. */
  lemma {:induction false} RemoveAddedTag(tags: seq<string>, typed: string)
    requires AcceptsTag(tags, typed)
    ensures RemoveTagFrom(AddTagTo(tags, typed), Trim(typed)) == tags
  {
    var t := Trim(typed);
    var p := (x: string) => x != t;
    FilterAppend(tags, t, p);
    FilterAll(tags, p);
  }

  // ---------------------------------------------------------------------
  // Modules and lessons

  /** `prev.map(module => module.id === id ? f(module) : module)`. */
  function MapModules(ms: seq<Module>, id: string, f: Module -> Module): (r: seq<Module>)
    ensures |r| == |ms|
    ensures forall i :: 0 <= i < |ms| ==> r[i] == if ms[i].id == id then f(ms[i]) else ms[i]
  {
    if ms == [] then []
    else [if ms[0].id == id then f(ms[0]) else ms[0]] + MapModules(ms[1..], id, f)
  }

  /** `{ ...module, [field]: value }`. */
  function SetModuleField(m: Module, field: ModuleField, value: string): Module {
    match field
    case ModuleTitle => m.(title := value)
    case ModuleDescription => m.(description := value)
  }

  /** `{ ...lesson, [field]: value }`. */
  function SetLessonField(l: Lesson, field: LessonField, value: string): Lesson {
    match field
    case LessonTitle => l.(title := value)
    case LessonKind => l.(kind := value)
    case LessonDuration => l.(duration := value)
  }

  /** The module `addModule` appends; `now` is the clock reading its id is made of. */
  function NewModule(now: nat): (m: Module)
    ensures m.id == NatToString(now) && m.title == "New Module" && m.description == "" && m.lessons == []
  {
    Module(NatToString(now), "New Module", "", [])
  }

  /** The lesson `addLesson` appends to module `moduleId`. */
  function NewLesson(moduleId: string, now: nat): (l: Lesson)
    ensures l.id == moduleId + "-" + NatToString(now)
    ensures l.title == "New Lesson" && l.kind == "video" && l.duration == "10" && l.description == ""
  {
    Lesson(moduleId + "-" + NatToString(now), "New Lesson", "video", "10", "")
  }

  function AddModuleTo(ms: seq<Module>, now: nat): seq<Module> {
    ms + [NewModule(now)]
  }

  function UpdateModuleIn(ms: seq<Module>, id: string, field: ModuleField, value: string): seq<Module> {
    MapModules(ms, id, (m: Module) => SetModuleField(m, field, value))
  }

  function DeleteModuleFrom(ms: seq<Module>, id: string): seq<Module> {
    Filter(ms, (m: Module) => m.id != id)
  }

  function AddLessonTo(ms: seq<Module>, moduleId: string, now: nat): seq<Module> {
    MapModules(ms, moduleId, (m: Module) => m.(lessons := m.lessons + [NewLesson(moduleId, now)]))
  }

  function UpdateLessonIn(ms: seq<Module>, moduleId: string, lessonId: string, field: LessonField, value: string): seq<Module> {
    MapModules(ms, moduleId, (m: Module) =>
      m.(lessons := seq(|m.lessons|, i requires 0 <= i < |m.lessons| =>
        if m.lessons[i].id == lessonId then SetLessonField(m.lessons[i], field, value) else m.lessons[i])))
  }

  function DeleteLessonFrom(ms: seq<Module>, moduleId: string, lessonId: string): seq<Module> {
    MapModules(ms, moduleId, (m: Module) => m.(lessons := Filter(m.lessons, (l: Lesson) => l.id != lessonId)))
  }

  /** The ids of the modules, in order. */
  function ModuleIds(ms: seq<Module>): (ids: seq<string>)
    ensures |ids| == |ms| && forall i :: 0 <= i < |ms| ==> ids[i] == ms[i].id
  {
    seq(|ms|, i requires 0 <= i < |ms| => ms[i].id)
  }

  /** The number of lessons in the whole curriculum. */
  function TotalLessons(ms: seq<Module>): nat {
    if ms == [] then 0 else |ms[0].lessons| + TotalLessons(ms[1..])
  }

  /** Updating a module changes only the chosen field of the modules with
      that id; the ids, the lessons and every other module stay as they were. */
  lemma UpdateModuleChangesOnlyTheField(ms: seq<Module>, id: string, field: ModuleField, value: string)
    ensures var r := UpdateModuleIn(ms, id, field, value);
      && ModuleIds(r) == ModuleIds(ms)
      && (forall i :: 0 <= i < |ms| && ms[i].id != id ==> r[i] == ms[i])
      && (forall i :: 0 <= i < |ms| && ms[i].id == id ==>
            && r[i].lessons == ms[i].lessons
            && (field == ModuleTitle ==> r[i].title == value && r[i].description == ms[i].description)
            && (field == ModuleDescription ==> r[i].description == value && r[i].title == ms[i].title))
  {
  }

  /** Writing the same value twice is writing it once. */
  lemma UpdateModuleIdempotent(ms: seq<Module>, id: string, field: ModuleField, value: string)
    ensures UpdateModuleIn(UpdateModuleIn(ms, id, field, value), id, field, value) == UpdateModuleIn(ms, id, field, value)
  {
    var once := UpdateModuleIn(ms, id, field, value);
    var twice := UpdateModuleIn(once, id, field, value);
    assert forall i :: 0 <= i < |ms| ==> twice[i] == once[i];
  }

  /** Deleting a module removes every module with that id and keeps the rest in order. */
  lemma {:induction false} DeleteModuleRemovesOnlyThatId(ms: seq<Module>, id: string)
    ensures var r := DeleteModuleFrom(ms, id);
      && (forall i :: 0 <= i < |r| ==> r[i].id != id)
      && (forall i :: 0 <= i < |ms| && ms[i].id != id ==> ms[i] in r)
      && IsSubsequence(r, ms)
      && |r| == |ms| - Count(ms, (m: Module) => m.id == id)
  {
    var keep := (m: Module) => m.id != id;
    var drop := (m: Module) => m.id == id;
    FilterIsSubsequence(ms, keep);
    FilterComplement(ms, keep, drop);
  }

  /** A predicate and its negation split a sequence's length between their filters. */
  lemma {:induction false} FilterComplement<T>(s: seq<T>, p: T -> bool, q: T -> bool)
    requires forall x :: q(x) == !p(x)
    ensures |Filter(s, p)| + |Filter(s, q)| == |s|
  {
    if s != [] {
      FilterComplement(s[1..], p, q);
    }
  }

  /** Deleting a module just added, under an id no other module has, gives back the curriculum. */
  lemma {:induction false} DeleteAddedModule(ms: seq<Module>, now: nat)
    requires forall i :: 0 <= i < |ms| ==> ms[i].id != NatToString(now)
    ensures DeleteModuleFrom(AddModuleTo(ms, now), NatToString(now)) == ms
  {
    var p := (m: Module) => m.id != NatToString(now);
    FilterAppend(ms, NewModule(now), p);
    FilterAll(ms, p);
  }

  /** Adding a lesson appends the default lesson to each module with that id
      and to no other module; the module ids stay as they were. */
  lemma AddLessonAppendsToThatModule(ms: seq<Module>, moduleId: string, now: nat)
    ensures var r := AddLessonTo(ms, moduleId, now);
      && ModuleIds(r) == ModuleIds(ms)
      && (forall i :: 0 <= i < |ms| && ms[i].id != moduleId ==> r[i] == ms[i])
      && (forall i :: 0 <= i < |ms| && ms[i].id == moduleId ==>
            r[i] == ms[i].(lessons := ms[i].lessons + [NewLesson(moduleId, now)]))
  {
  }

  /** Adding a lesson adds one lesson per module carrying that id. */
  lemma {:induction false} AddLessonCount(ms: seq<Module>, moduleId: string, now: nat)
    ensures TotalLessons(AddLessonTo(ms, moduleId, now)) == TotalLessons(ms) + Count(ms, (m: Module) => m.id == moduleId)
  {
    if ms != [] {
      AddLessonCount(ms[1..], moduleId, now);
      var r := AddLessonTo(ms, moduleId, now);
      assert r[1..] == AddLessonTo(ms[1..], moduleId, now);
    }
  }

  /** Updating a lesson sets the field on the lessons with that id inside the
      modules with that id and touches nothing else; every other module, and
      the lesson ids, stay. */
  lemma UpdateLessonStaysInItsModule(ms: seq<Module>, moduleId: string, lessonId: string, field: LessonField, value: string)
    ensures var r := UpdateLessonIn(ms, moduleId, lessonId, field, value);
      && ModuleIds(r) == ModuleIds(ms)
      && (forall i :: 0 <= i < |ms| && ms[i].id != moduleId ==> r[i] == ms[i])
      && (forall i :: 0 <= i < |ms| && ms[i].id == moduleId ==>
            && |r[i].lessons| == |ms[i].lessons|
            && r[i].title == ms[i].title && r[i].description == ms[i].description
            && forall k :: 0 <= k < |ms[i].lessons| ==>
                 r[i].lessons[k].id == ms[i].lessons[k].id
                 && (ms[i].lessons[k].id == lessonId ==> r[i].lessons[k] == SetLessonField(ms[i].lessons[k], field, value))
                 && (ms[i].lessons[k].id != lessonId ==> r[i].lessons[k] == ms[i].lessons[k]))
  {
  }

  /** Deleting a lesson removes it from the modules with that id only, keeping
      their other lessons in order and adding none. */
  lemma DeleteLessonStaysInItsModule(ms: seq<Module>, moduleId: string, lessonId: string)
    ensures var r := DeleteLessonFrom(ms, moduleId, lessonId);
      && ModuleIds(r) == ModuleIds(ms)
      && (forall i :: 0 <= i < |ms| && ms[i].id != moduleId ==> r[i] == ms[i])
      && (forall i :: 0 <= i < |ms| && ms[i].id == moduleId ==>
            && r[i].lessons == Filter(ms[i].lessons, (l: Lesson) => l.id != lessonId)
            && (forall k :: 0 <= k < |r[i].lessons| ==> r[i].lessons[k].id != lessonId)
            && IsSubsequence(r[i].lessons, ms[i].lessons)
            && r[i].title == ms[i].title && r[i].description == ms[i].description)
  {
    forall i | 0 <= i < |ms| && ms[i].id == moduleId
      ensures IsSubsequence(Filter(ms[i].lessons, (l: Lesson) => l.id != lessonId), ms[i].lessons)
    {
      FilterIsSubsequence(ms[i].lessons, (l: Lesson) => l.id != lessonId);
    }
  }

  // ---------------------------------------------------------------------
  // Lesson badge colour

  /** `getLessonTypeColor`. */
  function LessonTypeColor(kind: string): string {
    match kind
    case "video" => "bg-blue-100 text-blue-800"
    case "reading" => "bg-green-100 text-green-800"
    case "quiz" => "bg-purple-100 text-purple-800"
    case "assignment" => "bg-orange-100 text-orange-800"
    case _ => "bg-gray-100 text-gray-800"
  }

  /** The four lesson types get four different colours, and no other text gets any of them. */
  lemma LessonTypeColorsDistinct(a: string, b: string)
    requires a in ["video", "reading", "quiz", "assignment"]
    ensures b != a ==> LessonTypeColor(b) != LessonTypeColor(a)
    ensures LessonTypeColor(a) != "bg-gray-100 text-gray-800"
  {
  }

  // ---------------------------------------------------------------------
  // The editor state

  class CourseEditor {
    var course: CourseData
    var modules: seq<Module>
    var currentTag: string

    /** The invariant the handlers keep. */
    predicate Valid()
      reads this
    {
      CleanTags(course.tags)
    }

    /** The state the editor opens with. */
    constructor()
      ensures course == InitialCourse() && modules == InitialModules() && currentTag == ""
      ensures Valid()
    {
      course := InitialCourse();
      modules := InitialModules();
      currentTag := "";
    }

    /** `setCurrentTag`, bound to the tag input. */
    method TypeTag(text: string)
      requires Valid()
      modifies this
      ensures Valid()
      ensures currentTag == text && course == old(course) && modules == old(modules)
    {
      currentTag := text;
    }

    /** `addTag`: add the trimmed tag and clear the input, or change nothing. */
    method AddTag()
      requires Valid()
      modifies this
      ensures Valid()
      ensures course == old(course).(tags := AddTagTo(old(course.tags), old(currentTag)))
      ensures currentTag == if AcceptsTag(old(course.tags), old(currentTag)) then "" else old(currentTag)
      ensures modules == old(modules)
    {
      AddTagKeepsTagsClean(course.tags, currentTag);
      var tag := Trim(currentTag);
      if tag != "" && tag !in course.tags {
        course := course.(tags := course.tags + [tag]);
        currentTag := "";
      }
    }

    /** `removeTag`. */
    method RemoveTag(tag: string)
      requires Valid()
      modifies this
      ensures Valid()
      ensures course == old(course).(tags := RemoveTagFrom(old(course.tags), tag))
      ensures modules == old(modules) && currentTag == old(currentTag)
    {
      RemoveTagKeepsTagsClean(course.tags, tag);
      course := course.(tags := Filter(course.tags, (t: string) => t != tag));
    }

    /** `addModule`; `now` stands for `Date.now()`. */
    method AddModule(now: nat)
      modifies this
      ensures modules == AddModuleTo(old(modules), now)
      ensures course == old(course) && currentTag == old(currentTag)
    {
      modules := modules + [Module(NatToString(now), "New Module", "", [])];
    }

    /** `updateModule`. */
    method UpdateModule(id: string, field: ModuleField, value: string)
      modifies this
      ensures modules == UpdateModuleIn(old(modules), id, field, value)
      ensures course == old(course) && currentTag == old(currentTag)
    {
      modules := MapModules(modules, id, (m: Module) => SetModuleField(m, field, value));
    }

    /** `deleteModule`. */
    method DeleteModule(id: string)
      modifies this
      ensures modules == DeleteModuleFrom(old(modules), id)
      ensures course == old(course) && currentTag == old(currentTag)
    {
      modules := Filter(modules, (m: Module) => m.id != id);
    }

    /** `addLesson`; `now` stands for `Date.now()`. */
    method AddLesson(moduleId: string, now: nat)
      modifies this
      ensures modules == AddLessonTo(old(modules), moduleId, now)
      ensures course == old(course) && currentTag == old(currentTag)
    {
      var lesson := Lesson(moduleId + "-" + NatToString(now), "New Lesson", "video", "10", "");
      modules := MapModules(modules, moduleId, (m: Module) => m.(lessons := m.lessons + [lesson]));
    }

    /** `updateLesson`. */
    method UpdateLesson(moduleId: string, lessonId: string, field: LessonField, value: string)
      modifies this
      ensures modules == UpdateLessonIn(old(modules), moduleId, lessonId, field, value)
      ensures course == old(course) && currentTag == old(currentTag)
    {
      modules := UpdateLessonIn(modules, moduleId, lessonId, field, value);
    }

    /** `deleteLesson`. */
    method DeleteLesson(moduleId: string, lessonId: string)
      modifies this
      ensures modules == DeleteLessonFrom(old(modules), moduleId, lessonId)
      ensures course == old(course) && currentTag == old(currentTag)
    {
      modules := DeleteLessonFrom(modules, moduleId, lessonId);
    }

    /** `handleSave`: what is handed to `onSave`; the editor state is unchanged. */
    method HandleSave() returns (data: CompleteData)
      ensures data.course == course && data.modules == modules
    {
      data := CompleteData(course, modules);
    }
  }
}
