/** app/academy/dashboard/profile/page.tsx: the academy profile. The page keeps
    the saved profile and a working copy; "Edit" starts from the saved one,
    the inputs change the copy, "Save" commits it and "Cancel" drops it. */
module ProfilePage {
  /** A profile value: most fields are text, `expertise` is a list. */
  datatype FieldValue = Text(text: string) | List(items: seq<string>)

  /** A profile object, field name to value. */
  type Profile = map<string, FieldValue>

  /** The biography the page starts with. */
  const InitialBio: string := "Passionate educator with over 15 years of experience in online learning and curriculum development. Dedicated to creating engaging educational experiences that empower learners worldwide."

  /** The profile the page starts with. */
  function InitialProfile(): Profile {
    map[
      "name" := Text("Dr. Sarah Chen"),
      "title" := Text("Academy Director"),
      "email" := Text("sarah.chen@coursivo.academy"),
      "phone" := Text("+1 (555) 123-4567"),
      "location" := Text("San Francisco, CA"),
      "bio" := Text(InitialBio),
      "joinDate" := Text("2023-06-01"),
      "avatar" := Text("/api/placeholder/150/150"),
      "website" := Text("https://sarahchen.edu"),
      "linkedin" := Text("https://linkedin.com/in/sarahchen"),
      "twitter" := Text("https://twitter.com/sarahchen"),
      "organization" := Text("Coursivo Academy"),
      "expertise" := List(["Online Learning", "Curriculum Development", "Educational Technology", "Student Engagement"])
    ]
  }

  /** The three state variables of the page. */
  datatype ProfileState = ProfileState(isEditing: bool, profileData: Profile, editData: Profile)

  /** The state on first render: not editing, the copy equal to the profile. */
  function InitialState(): ProfileState {
    ProfileState(false, InitialProfile(), InitialProfile())
  }

  /** A change to the working copy made through an input. */
  datatype Edit = InputChange(field: string, value: string) | ExpertiseChange(expertise: seq<string>)

  /** `{ ...prev, [field]: value }` and `{ ...prev, expertise }`. */
  function ApplyEdit(data: Profile, e: Edit): (r: Profile)
    ensures r.Keys == data.Keys + {if e.InputChange? then e.field else "expertise"}
  {
    match e
    case InputChange(field, value) => data[field := Text(value)]
    case ExpertiseChange(expertise) => data["expertise" := List(expertise)]
  }

  /** A run of edits applied in order. */
  function ApplyEdits(data: Profile, edits: seq<Edit>): Profile
    decreases |edits|
  {
    if edits == [] then data else ApplyEdits(ApplyEdit(data, edits[0]), edits[1..])
  }

  /** `handleEdit`. */
  function StartEdit(s: ProfileState): ProfileState {
    ProfileState(true, s.profileData, s.profileData)
  }

  /** `handleSave`. */
  function Save(s: ProfileState): ProfileState {
    ProfileState(false, s.editData, s.editData)
  }

  /** `handleCancel`. */
  function Cancel(s: ProfileState): ProfileState {
    ProfileState(false, s.profileData, s.profileData)
  }

  /** `handleInputChange` and `handleExpertiseChange`: only the copy changes. */
  function ChangeCopy(s: ProfileState, e: Edit): ProfileState {
    s.(editData := ApplyEdit(s.editData, e))
  }

  /** A run of input changes. */
  function ChangeCopyAll(s: ProfileState, edits: seq<Edit>): ProfileState
    decreases |edits|
  {
    if edits == [] then s else ChangeCopyAll(ChangeCopy(s, edits[0]), edits[1..])
  }

  /** An input change sets its one field of the copy and keeps every other;
      the saved profile and the editing flag are untouched. A text input
      named "expertise" would replace the list with text. */
  lemma InputChangeSetsOneField(s: ProfileState, field: string, value: string)
    ensures var t := ChangeCopy(s, InputChange(field, value));
      && t.editData[field] == Text(value)
      && (forall k :: k in s.editData && k != field ==> k in t.editData && t.editData[k] == s.editData[k])
      && t.profileData == s.profileData && t.isEditing == s.isEditing
  {
  }

  /** The expertise change replaces the expertise list of the copy only. */
  lemma ExpertiseChangeSetsTheList(s: ProfileState, expertise: seq<string>)
    ensures var t := ChangeCopy(s, ExpertiseChange(expertise));
      && t.editData == s.editData["expertise" := List(expertise)]
      && t.profileData == s.profileData && t.isEditing == s.isEditing
  {
  }

  /** Input changes never reach the saved profile or the flag, and leave the
      copy as the edits applied to it. */
  lemma {:induction false} ChangesStayInTheCopy(s: ProfileState, edits: seq<Edit>)
    ensures ChangeCopyAll(s, edits) == ProfileState(s.isEditing, s.profileData, ApplyEdits(s.editData, edits))
    decreases |edits|
  {
    if edits != [] {
      ChangesStayInTheCopy(ChangeCopy(s, edits[0]), edits[1..]);
    }
  }

  /** Edit, any input changes, then cancel: the saved profile is what it was
      and the copy is back to it. */
  lemma CancelRestores(s: ProfileState, edits: seq<Edit>)
    ensures Cancel(ChangeCopyAll(StartEdit(s), edits)) == ProfileState(false, s.profileData, s.profileData)
  {
    ChangesStayInTheCopy(StartEdit(s), edits);
  }

  /** Edit, any input changes, then save: the saved profile is the old one
      with the edits applied, and the copy equals it. */
  lemma SaveCommits(s: ProfileState, edits: seq<Edit>)
    ensures var saved := ApplyEdits(s.profileData, edits);
      Save(ChangeCopyAll(StartEdit(s), edits)) == ProfileState(false, saved, saved)
  {
    ChangesStayInTheCopy(StartEdit(s), edits);
  }

  /** Outside an edit the copy always equals the saved profile: the initial
      state, a save and a cancel all leave them equal. */
  lemma CopyInSyncWhenNotEditing(s: ProfileState)
    ensures InitialState().editData == InitialState().profileData && !InitialState().isEditing
    ensures Save(s).editData == Save(s).profileData && !Save(s).isEditing
    ensures Cancel(s).editData == Cancel(s).profileData && !Cancel(s).isEditing
    ensures StartEdit(s).isEditing && StartEdit(s).editData == s.profileData
  {
  }

  /** The page's state. */
  class AcademyProfilePage {
    var isEditing: bool
    var profileData: Profile
    var editData: Profile

    function State(): ProfileState
      reads this
    {
      ProfileState(isEditing, profileData, editData)
    }

    constructor ()
      ensures State() == InitialState()
    {
      var p := InitialProfile();
      isEditing := false;
      profileData := p;
      editData := p;
    }

    /** `handleEdit`: turn editing on and start the copy from the saved profile. */
    method HandleEdit()
      modifies this
      ensures State() == StartEdit(old(State()))
    {
      isEditing := true;
      editData := profileData;
    }

    /** `handleSave`: commit the copy and turn editing off. */
    method HandleSave()
      modifies this
      ensures State() == Save(old(State()))
    {
      profileData := editData;
      isEditing := false;
    }

    /** `handleCancel`: drop the copy and turn editing off. */
    method HandleCancel()
      modifies this
      ensures State() == Cancel(old(State()))
    {
      editData := profileData;
      isEditing := false;
    }

    /** `handleInputChange`. */
    method HandleInputChange(field: string, value: string)
      modifies this
      ensures State() == ChangeCopy(old(State()), InputChange(field, value))
    {
      editData := editData[field := Text(value)];
    }

    /** `handleExpertiseChange`. */
    method HandleExpertiseChange(expertise: seq<string>)
      modifies this
      ensures State() == ChangeCopy(old(State()), ExpertiseChange(expertise))
    {
      editData := editData["expertise" := List(expertise)];
    }
  }
}
