# Coursivo core, modelled in Dafny

Coursivo is a multi-tenant e-learning application. Educators run academies,
and each academy is a tenant named by its domain. Students belong to one
educator's academy. This project models the parts of the application that hold
logic:

- **Credentials flow** (`lib/auth.ts`, `lib/utils/auth-utils.ts`,
  `prisma/seed.ts`):
  - educator and student sign-up and sign-in over an in-memory store of
    educator and student rows;
  - `authorize`, which turns every failure into "no user";
  - the `jwt` and `session` callbacks;
  - the seed upsert of the `alpha` academy.
- **Utilities** (`lib/utils.ts`): `capitalize`, `truncate`, `isValidEmail`,
  `isValidPassword`, `groupBy`, `omit`, `pick`.
- **Page state machines and derived views:**
  - the course editor (`components/AddNewCourse.tsx`);
  - the timed quiz (`components/QuizPage.tsx`);
  - the dashboard layout's navigation (`components/DashboardLayout.tsx`);
  - the dashboard page's session handling (`app/dashboard/page.tsx`);
  - the academy students, help and profile pages;
  - the course management page;
  - the settings page.

## Modelling choices

- **Store.** The relational store is a class, `Store.CredentialStore`, with
  two sequence fields that its methods extend. `findFirst` returns the
  earliest matching row in table order.
- **Flows.** Each flow is a method over that store. Each method is proved
  equal to a pure function on a `Db` snapshot, which returns the result and
  the new store. The properties are lemmas about those functions.
- **bcrypt.** bcrypt is an ideal salted hash, `Bcrypt.Digest(cost, salt,
  preimage)`. `compare` succeeds exactly on the hashed password. The salt
  and the ids the database assigns are parameters.
- **Clocks.** `Date.now()` is a parameter `now`. The one-second timer is a
  discrete `Tick`.
- **JavaScript operators.** `a || b` on strings is `Common.OrElse`, where
  the empty string counts as absent. `Math.round(a / b)` is
  `Common.RoundDiv`, which rounds halves up. `toLowerCase`, `trim`,
  `includes`, `padStart` and `toString` are written out in module `Text`.
- **Dictionaries.** Plain objects used as dictionaries are
  `Utils.Record`, which holds an ordered key list and a map. The settings
  and profile objects are maps keyed by field name.
- **React state.** React component state becomes a class whose fields are
  the `useState` variables. Each event handler is a method proved equal to
  a pure transition function.

### Consequences of the credentials code

- **Domains are not unique.** Educator sign-up (lib/auth.ts:112-139) looks
  for an existing educator by email only and never by the requested domain.
  Student sign-up resolves an academy with `findFirst` by domain
  (lib/auth.ts:170-176), so when two educators hold one domain, students
  always join the earlier one (`AuthProperties.EducatorSignupAllowsTakenDomain`).
- **Student sign-in ignores the tenant.** `authorize` reads a `tenant`
  credential (lib/auth.ts:36) and hands it to the student flow
  (lib/auth.ts:44), but the sign-in branch (lib/auth.ts:209-234) looks the
  student up by email alone and never reads it (`AuthProperties.StudentSignin`).
  Sign-up only rejects an email already in the same academy
  (lib/auth.ts:178-188), so one email can be registered in two academies.
  The second registration can then never sign in
  (`AuthProperties.SecondRegistrationCannotSignIn`), and the first password
  lands in the first academy whatever tenant is asked for
  (`AuthProperties.FirstRegistrationKeepsItsTenant`).
- **An empty tenant is not defaulted.** The default parameter
  `tenant = "default"` (lib/auth.ts:168) applies only when the tenant is
  absent, not when it is empty (`AuthProperties.EmptyTenantIsNotDefaulted`).

## Model

| member | source | states |
|---|---|---|
| Bcrypt.Hash | lib/utils/auth-utils.ts:33-35 | a hash records the fixed cost 12 and the salt it was made with |
| Bcrypt.CompareHash | lib/utils/auth-utils.ts:37-39 | a password always matches its own hash |
| Bcrypt.Compare | lib/utils/auth-utils.ts:38 | bcrypt `compare` of a password against a digest, no contract of its own; `Bcrypt.CompareHash` and `Bcrypt.CompareOtherPassword` state it |
| Bcrypt.CompareOtherPassword | lib/utils/auth-utils.ts:37-39 | a different password never matches the hash |
| Bcrypt.HashIsSalted | lib/utils/auth-utils.ts:33-35 | two salts give two different hashes of one password |
| AuthUtils.ValidateCredentialsRejects | lib/utils/auth-utils.ts:25-30 | credentials are rejected when they are missing or when the email, password, user type or action is missing or empty; they are accepted when all four are present |
| AuthUtils.ValidateCredentials | lib/utils/auth-utils.ts:25-30 | `validateCredentials` as a predicate, with no contract of its own; `AuthUtils.ValidateCredentialsRejects` states when it holds |
| AuthUtils.HashPassword | lib/utils/auth-utils.ts:33-35 | the hash has cost 12 and verifies against the password |
| AuthUtils.VerifyHashedPassword | lib/utils/auth-utils.ts:33-39 | verifying against a password's own hash succeeds, and verifying any other password fails |
| AuthUtils.VerifyPassword | lib/utils/auth-utils.ts:37-39 | `verifyPassword`, no contract of its own; `AuthUtils.VerifyHashedPassword` states it |
| AuthUtils.FindEducatorByEmail | lib/utils/auth-utils.ts:42-46 | the result is a row of the table with that email; none exactly when no row has it |
| AuthUtils.FindEducatorByDomain | lib/utils/auth-utils.ts:48-52 | the result is a row of the table with that domain; none exactly when no row has it |
| AuthUtils.FindEducatorById | lib/utils/auth-utils.ts:57-59 | the student's joined educator: a row with that id, none exactly when no row has it |
| AuthUtils.FindStudentByEmail | lib/utils/auth-utils.ts:54-61 | the result is a student row with that email; none exactly when no row has it |
| AuthUtils.FindStudentByEmailAndEducator | lib/utils/auth-utils.ts:63-71 | the result is a student row with that email and owner; none exactly when no row has both |
| AuthUtils.EducatorLookupsReadEducators | lib/utils/auth-utils.ts:42-52 | educator lookups depend only on the educator table |
| AuthUtils.FindStudentByEmailIsEarliest | lib/utils/auth-utils.ts:54-61 | the lookup returns the earliest row with the email |
| AuthUtils.NewEducatorAccount | lib/utils/auth-utils.ts:73-84 | the new row has the given id and email, a hash that accepts exactly the given password, the name or "New Educator", and the unverified domain "academy" |
| AuthUtils.CreateEducatorAccount | lib/utils/auth-utils.ts:73-84 | appends exactly that row to the educators and leaves the students alone |
| AuthUtils.NewStudentAccount | lib/utils/auth-utils.ts:86-96 | the new row has the given id, email and owner, a hash that accepts exactly the given password, and the name or "New Student" |
| AuthUtils.CreateStudentAccount | lib/utils/auth-utils.ts:86-96 | appends exactly that row to the students and leaves the educators alone |
| Store.FirstWhere | lib/auth.ts:113-115 | `findFirst`: the earliest matching row, or none exactly when no row matches |
| Store.FirstWhereAppend | lib/auth.ts:122-130 | after a row is appended, the lookup still finds the earlier match and finds the new row only when nothing earlier matched |
| Store.CredentialStore.constructor | lib/auth.ts:113-130 | the store starts with the given tables |
| Store.CredentialStore.CreateEducator | lib/auth.ts:122-130 | `create` appends the row to the educators and nothing else changes |
| Store.CredentialStore.CreateStudent | lib/auth.ts:190-198 | `create` appends the row to the students and nothing else changes |
| Auth.Defined | lib/auth.ts:135-137 | the fallback to undefined: a value is kept exactly when it is a non-empty string |
| Auth.EducatorPrincipal | lib/auth.ts:153-161 | the signed-in educator carries the row's id and email, role "educator", the domain if non-empty, and no tenant |
| Auth.SignupEducatorRow | lib/auth.ts:122-130 | the signed-up educator is named "New Educator", takes the domain or "academy", is unverified, and its hash accepts the password |
| Auth.EducatorAuthOutcome | lib/auth.ts:111-165 | a failed educator flow leaves the store unchanged; a successful one yields role "educator" |
| Auth.SignupStudentRow | lib/auth.ts:190-198 | the signed-up student is owned by the academy's educator, is named "New Student", and its hash accepts the password |
| Auth.StudentAuthOutcome | lib/auth.ts:168-237 | a failed student flow leaves the store unchanged; a successful one yields role "student" and no domain |
| Auth.Collapse | lib/auth.ts:38-52 | the `catch` in `authorize`: a user exactly when the flow succeeded, and the store is kept |
| Auth.AuthorizeOutcome | lib/auth.ts:22-53 | missing credentials, or an empty email or password, give no user and leave the store untouched; otherwise "educator" runs the educator flow with the domain, "student" runs the student flow with the tenant, any other user type gives no user, and an action other than "signin" or "signup" gives no user; any failure leaves the store unchanged |
| Auth.HandleEducatorAuth | lib/auth.ts:111-165 | the method's result and new store are those of the educator flow function |
| Auth.HandleStudentAuth | lib/auth.ts:168-237 | the method's result and new store are those of the student flow function |
| Auth.Authorize | lib/auth.ts:22-53 | the method's user and new store are those of `Auth.AuthorizeOutcome`, so it dispatches on the user type as that function states |
| Auth.Token.constructor | lib/auth.ts:57 | a token holds the given claims |
| Auth.JwtClaims | lib/auth.ts:57-65 | without a user the token is unchanged; with one, the role, educator id, tenant and domain are copied onto it and the subject is kept |
| Auth.Jwt | lib/auth.ts:57-65 | the callback updates the same token in place to those claims, so a later call without a user (a refresh) leaves the claims written at sign-in unchanged |
| Auth.Session.constructor | lib/auth.ts:66-68 | a session holds the given user |
| Auth.SessionUserFrom | lib/auth.ts:66-92 | a session without a user stays without one; otherwise its user takes the id from the subject and the claims from the token |
| Auth.SessionCallback | lib/auth.ts:66-92 | the callback updates the same session in place to that user |
| Auth.SessionLifetimes | lib/auth.ts:98-105 | sessions and tokens live 30 days and sessions refresh daily |
| AuthProperties.RejectedCredentialsAreRefused | lib/auth.ts:31-52 | credentials that fail validation give no user and an unchanged store |
| AuthProperties.UnknownUserTypeIsRefused | lib/auth.ts:36-45 | a user type other than educator or student gives no user and an unchanged store |
| AuthProperties.EducatorSignup | lib/auth.ts:112-139 | sign-up fails exactly when the email is taken; otherwise it appends one educator row and returns its id, its email and the domain or "academy" |
| AuthProperties.EducatorSignupAllowsTakenDomain | lib/auth.ts:112-139 | sign-up succeeds with a domain another educator already holds, and that domain still resolves to the earlier educator |
| AuthProperties.EducatorSignin | lib/auth.ts:141-162 | sign-in never changes the store and succeeds exactly when the email's row has a hash the password verifies; the error is always "invalid credentials" |
| AuthProperties.EducatorSignupThenSignin | lib/auth.ts:112-162 | after signing up with a fresh email, signing in with the same password returns the same user |
| AuthProperties.AuthorizeEducatorSignupThenSignin | lib/auth.ts:22-162 | through `authorize` itself: an educator sign-up with a fresh email returns a user and appends exactly the new educator row, and a later sign-in with the same email and password returns that same user |
| AuthProperties.StudentSignup | lib/auth.ts:168-207 | sign-up fails for an unknown tenant, or when the email is already in that academy; otherwise it appends one row owned by the tenant's educator |
| AuthProperties.EmptyTenantIsNotDefaulted | lib/auth.ts:168 | an empty tenant is looked up as given and fails, while an absent one becomes "default" |
| AuthProperties.StudentSignin | lib/auth.ts:209-234 | sign-in never changes the store and does not depend on the tenant; it succeeds exactly when the earliest row with the email verifies, and reports that row's educator's domain, or "default", as the tenant |
| AuthProperties.OwnerIsUnique | lib/auth.ts:212-214 | with unique ids, the joined educator is the one holding that id |
| AuthProperties.SignupKeepsOwners | lib/auth.ts:190-198 | appending a student owned by an existing educator keeps every student's owner present |
| AuthProperties.EducatorSignupKeepsOwners | lib/auth.ts:122-130 | appending an educator keeps every student's owner present |
| AuthProperties.AuthorizePreservesOwners | lib/auth.ts:22-53 | no `authorize` call leaves a student without its educator |
| AuthProperties.StudentSignupAppends | lib/auth.ts:169-207 | sign-up into a known academy with a new email appends exactly the new row |
| AuthProperties.StudentSigninOf | lib/auth.ts:209-234 | sign-in for a known student returns that student's principal when the password verifies, and "invalid credentials" otherwise |
| AuthProperties.SameEmailInTwoAcademies | lib/auth.ts:169-207 | one email can register in two academies, and the email lookup then finds the first registration |
| AuthProperties.SecondRegistrationCannotSignIn | lib/auth.ts:209-224 | after that, the second registration's password is refused |
| AuthProperties.FirstRegistrationKeepsItsTenant | lib/auth.ts:209-234 | after that, the first password signs in to the first academy even when the second is asked for |
| AuthProperties.SigninClaimsReachSession | lib/auth.ts:57-92 | the claims the `jwt` callback writes at sign-in are the ones the session exposes |
| Seed.SeedRow | prisma/seed.ts:12-18 | the seeded educator is admin@alpha.com, "Alpha Academy", with the verified domain "alpha" and no password |
| Seed.SeedResult | prisma/seed.ts:9-19 | the upsert returns the existing row for the email untouched, or creates and returns the seed row |
| Seed.Seed | prisma/seed.ts:9-19 | the method's result and new store are those of the upsert function |
| Seed.SeedIsIdempotent | prisma/seed.ts:9-19 | seeding twice is the same as seeding once |
| Seed.SeededAdminCannotSignIn | prisma/seed.ts:17 | with no password, no password signs in as the seeded administrator |
| Seed.SeededAcademyAcceptsStudents | prisma/seed.ts:13 | after seeding, students can sign up to tenant "alpha" and belong to the seeded educator |
| Text.Lower | lib/utils.ts:32 | `toLowerCase` maps each character to its lower-case form and keeps the length |
| Text.Upper | lib/utils.ts:32 | `toUpperCase` maps each character to its upper-case form and keeps the length |
| Text.LowerIdempotent | app/courses/page.tsx:97-100 | lowering twice is lowering once |
| Text.Includes | app/courses/page.tsx:97-100 | `includes` holds exactly when the needle occurs at some position |
| Text.Trim | components/AddNewCourse.tsx:85 | `trim` returns a slice with only white space cut off either side, and the result neither starts nor ends with white space |
| Text.TrimOfTrimmed | components/AddNewCourse.tsx:85 | trimming a trimmed string changes nothing |
| Text.NatToString | components/AddNewCourse.tsx:103 | `toString` of a number gives decimal digits without a leading zero |
| Text.ParseNatToString | components/AddNewCourse.tsx:103 | reading the digits back gives the number |
| Text.NatToStringInjective | components/AddNewCourse.tsx:103-126 | different timestamps render as different ids |
| Text.IndexOf | lib/utils.ts:42 | the position of the first occurrence of a character, or the length when there is none |
| Text.StartsWith | components/DashboardLayout.tsx:85 | `startsWith`, no contract of its own; `DashboardLayout.OtherLinksMatchPrefixes` and `DashboardLayout.CoursesOldHighlightsCourses` state it |
| Text.ContainsIgnoringCase | app/courses/page.tsx:97-100 | the case-insensitive `includes` search of the list pages, no contract of its own; `Text.ContainsEmptyTerm`, `CoursesPage.FilteredCoursesKeepsMatches` and `StudentsPage.FilteredStudentsKeepsMatches` state it |
| Text.IsWhitespace | lib/utils.ts:42 | JavaScript's `\s` class as a predicate, with no contract of its own; `Text.Trim` and `Utils.IsValidEmail` state what depends on it |
| Text.PadStart2 | components/QuizPage.tsx:94 | `padStart(2, "0")` keeps longer strings and left-pads shorter ones with zeros to length 2 |
| Common.OrElse | lib/auth.ts:232 | the JavaScript `or` fallback yields the value when it is a non-empty string and the fallback otherwise |
| Common.Filter | app/academy/dashboard/students/page.tsx:110-116 | `filter` keeps exactly the elements that satisfy the predicate, in order |
| Common.Count | app/academy/dashboard/students/page.tsx:119 | `filter(...).length` is the size of the filtered list and at most the list's length |
| Common.Sum | app/academy/dashboard/students/page.tsx:120 | the `reduce` that adds up a field, no contract of its own; `Common.SumNonNegative`, `StudentsPage.SumBetween`, `StudentsPage.EnrollmentsBound` and `CoursesPage.TotalStudentsBound` state it |
| Common.RoundDiv | app/academy/dashboard/students/page.tsx:121-123 | `Math.round(a / b)` is the integer nearest to a/b, with halves rounded up |
| Common.RoundDivBounds | app/academy/dashboard/students/page.tsx:121-123 | rounding keeps a non-negative quotient between 0 and the rounded bound |
| Common.RoundDivExact | components/QuizPage.tsx:116 | an exact multiple rounds to its quotient |
| Utils.Capitalize | lib/utils.ts:31-33 | the first character is upper-cased and every other is lower-cased; the length is kept |
| Utils.CapitalizeIdempotent | lib/utils.ts:31-33 | capitalizing twice is capitalizing once |
| Utils.SliceTo | lib/utils.ts:36 | `slice(0, end)` follows JavaScript's rules for ends past the length and for negative ends |
| Utils.Truncate | lib/utils.ts:35-38 | a string within the limit is kept; a longer one keeps its first `length` characters followed by "..." |
| Utils.TruncateNegativeLength | lib/utils.ts:35-38 | a negative length cuts from the end and can make the result longer than the input |
| Utils.IsValidEmail | lib/utils.ts:41-44 | the check holds exactly when the email matches `^[^\s@]+@[^\s@]+\.[^\s@]+$` |
| Utils.EmailPartsMatch | lib/utils.ts:41-44 | the check splits the email at its first "@" and looks for a dot strictly inside the domain part |
| Utils.PatternMatchesParts | lib/utils.ts:41-44 | every email matching the pattern passes the split check |
| Utils.MatchAtParts | lib/utils.ts:41-44 | an email of the form local@name.tld with clean segments is split at that "@" |
| Utils.PasswordThreshold | lib/utils.ts:46-48 | a password is valid from eight characters of any kind, and stays valid when it grows |
| Utils.IsValidPassword | lib/utils.ts:46-48 | `isValidPassword`, no contract of its own; `Utils.PasswordThreshold` states it |
| Utils.EmptyRecord | lib/utils.ts:56 | the empty object has no keys |
| Utils.Assign | lib/utils.ts:54-55 | assigning a key sets its value, and appends the key to the order only if it is new |
| Utils.Delete | lib/utils.ts:63 | `delete` removes the key from the entries and from the order |
| Utils.Grouped | lib/utils.ts:51-58 | `groupBy`'s reduction yields a well-formed record |
| Utils.GroupByResult | lib/utils.ts:51-58 | `groupBy` throws exactly when some item's key is a name inherited from `Object.prototype` (reading such a key on the accumulator yields a non-array, so `push` fails); otherwise it returns a well-formed record with no inherited key |
| Utils.GroupBy | lib/utils.ts:51-58 | the loop returns exactly that result, stopping with the TypeError at the first inherited key |
| Utils.GroupedContents | lib/utils.ts:51-58 | a key is present exactly when some item has it, and its group holds exactly the items with that key, in order |
| Utils.GroupedSizesSum | lib/utils.ts:51-58 | the group sizes add up to the number of items |
| Utils.Omitted | lib/utils.ts:61-65 | `omit` keeps the record well formed |
| Utils.OmittedStep | lib/utils.ts:63 | one loop step deletes the next key |
| Utils.Omit | lib/utils.ts:61-65 | the loop computes `omit` and returns a well-formed record |
| Utils.Dedup | lib/utils.ts:67-75 | the distinct keys, each once |
| Utils.PickedEntries | lib/utils.ts:67-75 | `pick` keeps exactly the requested keys present in the object, with their values |
| Utils.Picked | lib/utils.ts:67-75 | `pick`'s result is well formed |
| Utils.Pick | lib/utils.ts:67-75 | the loop computes `pick` and returns a well-formed record |
| Utils.OmitPickPartition | lib/utils.ts:61-75 | omitting and picking the same keys split the object's entries into two disjoint parts that make up the whole |
| Utils.OmitNothing | lib/utils.ts:61-65 | omitting no keys gives back the object |
| Utils.PickEverything | lib/utils.ts:67-75 | picking all of an object's keys gives back the object |
| AddNewCourse.InitialCourse | components/AddNewCourse.tsx:43-63 | the form starts empty, unpublished, in English and USD, with preview and certificate on |
| AddNewCourse.InitialModules | components/AddNewCourse.tsx:65-76 | the editor starts with module "1" holding the one video lesson "1-1" |
| AddNewCourse.AddTagTo | components/AddNewCourse.tsx:84-92 | `addTag` on the tag list, with no contract of its own; stated by `AddTagElements`, `AddTagKeepsTagsClean` and `RemoveAddedTag` |
| AddNewCourse.AcceptsTag | components/AddNewCourse.tsx:85 | the guard of `addTag`: the trimmed text is non-empty and not already a tag, no contract of its own; `AddNewCourse.AddTagElements` states it |
| AddNewCourse.RemoveTagFrom | components/AddNewCourse.tsx:94-99 | `removeTag` on the tag list, with no contract of its own; stated by `RemoveTagElements`, `RemoveTagKeepsTagsClean` and `RemoveAddedTag` |
| AddNewCourse.AddModuleTo | components/AddNewCourse.tsx:101-109 | `addModule`, with no contract of its own; stated by `NewModule` and `DeleteAddedModule` |
| AddNewCourse.UpdateModuleIn | components/AddNewCourse.tsx:111-115 | `updateModule`, with no contract of its own; stated by `UpdateModuleChangesOnlyTheField` and `UpdateModuleIdempotent` |
| AddNewCourse.DeleteModuleFrom | components/AddNewCourse.tsx:117-119 | `deleteModule`, with no contract of its own; stated by `DeleteModuleRemovesOnlyThatId` and `DeleteAddedModule` |
| AddNewCourse.AddLessonTo | components/AddNewCourse.tsx:121-135 | `addLesson`, with no contract of its own; stated by `AddLessonAppendsToThatModule` and `AddLessonCount` |
| AddNewCourse.UpdateLessonIn | components/AddNewCourse.tsx:137-150 | `updateLesson`, with no contract of its own; stated by `UpdateLessonStaysInItsModule` |
| AddNewCourse.DeleteLessonFrom | components/AddNewCourse.tsx:152-160 | `deleteLesson`, with no contract of its own; stated by `DeleteLessonStaysInItsModule` |
| AddNewCourse.LessonTypeColor | components/AddNewCourse.tsx:170-183 | `getLessonTypeColor`, with no contract of its own; stated by `LessonTypeColorsDistinct` |
| AddNewCourse.TrimTwice | components/AddNewCourse.tsx:85 | trimming is idempotent |
| AddNewCourse.AddTagElements | components/AddNewCourse.tsx:84-92 | adding a tag adds the trimmed text only when it is non-empty and new, and adds nothing else |
| AddNewCourse.AddTagKeepsTagsClean | components/AddNewCourse.tsx:84-92 | tags stay distinct, non-empty and trimmed |
| AddNewCourse.RemoveTagElements | components/AddNewCourse.tsx:94-99 | removing a tag keeps exactly the other tags, in order |
| AddNewCourse.RemoveTagKeepsTagsClean | components/AddNewCourse.tsx:94-99 | removal keeps the tags clean |
| AddNewCourse.RemoveAddedTag | components/AddNewCourse.tsx:84-99 | removing a tag just added restores the list |
| AddNewCourse.MapModules | components/AddNewCourse.tsx:111-115 | the `map` over modules changes exactly the modules with the given id |
| AddNewCourse.SetModuleField | components/AddNewCourse.tsx:113 | `{ ...module, [field]: value }` for the module fields the form edits, no contract of its own; `AddNewCourse.UpdateModuleChangesOnlyTheField` states it |
| AddNewCourse.SetLessonField | components/AddNewCourse.tsx:144 | `{ ...lesson, [field]: value }` for the lesson fields the form edits, no contract of its own; `AddNewCourse.UpdateLessonStaysInItsModule` states it |
| AddNewCourse.NewModule | components/AddNewCourse.tsx:101-109 | a new module takes the timestamp as id, "New Module" as title and has no lessons |
| AddNewCourse.NewLesson | components/AddNewCourse.tsx:121-135 | a new lesson has id `<module>-<timestamp>` and is a 10-minute video titled "New Lesson" |
| AddNewCourse.ModuleIds | components/AddNewCourse.tsx:117-119 | the module ids, in order |
| AddNewCourse.UpdateModuleChangesOnlyTheField | components/AddNewCourse.tsx:111-115 | updating sets the field on the matching modules and leaves the rest unchanged |
| AddNewCourse.UpdateModuleIdempotent | components/AddNewCourse.tsx:111-115 | applying the same update twice is applying it once |
| AddNewCourse.DeleteModuleRemovesOnlyThatId | components/AddNewCourse.tsx:117-119 | deleting keeps exactly the modules with other ids, in order |
| AddNewCourse.FilterComplement | components/AddNewCourse.tsx:117-119 | the kept and the dropped modules together account for all of them |
| AddNewCourse.DeleteAddedModule | components/AddNewCourse.tsx:101-119 | deleting a module just added with a fresh id restores the list |
| AddNewCourse.AddLessonAppendsToThatModule | components/AddNewCourse.tsx:121-135 | the new lesson is appended to each module with that id; other modules are unchanged |
| AddNewCourse.AddLessonCount | components/AddNewCourse.tsx:121-135 | the lesson total grows by the number of modules with that id |
| AddNewCourse.UpdateLessonStaysInItsModule | components/AddNewCourse.tsx:137-150 | a lesson update touches only the named module, keeps its lesson count, sets the field on the lessons with that id and leaves its other lessons unchanged |
| AddNewCourse.DeleteLessonStaysInItsModule | components/AddNewCourse.tsx:152-160 | a lesson deletion touches only the named module, whose lessons become exactly its lessons with other ids, in order, and whose title and description stay |
| AddNewCourse.LessonTypeColorsDistinct | components/AddNewCourse.tsx:170-183 | the four lesson types get four distinct colours, none of them the fallback |
| AddNewCourse.CourseEditor.constructor | components/AddNewCourse.tsx:43-78 | the editor starts in the initial state, with clean tags |
| AddNewCourse.CourseEditor.TypeTag | components/AddNewCourse.tsx:78 | typing changes only the pending tag |
| AddNewCourse.CourseEditor.AddTag | components/AddNewCourse.tsx:84-92 | adds the pending tag as specified and clears the input only when the tag was accepted |
| AddNewCourse.CourseEditor.RemoveTag | components/AddNewCourse.tsx:94-99 | removes the tag as specified, keeping the tags clean |
| AddNewCourse.CourseEditor.AddModule | components/AddNewCourse.tsx:101-109 | appends the new module |
| AddNewCourse.CourseEditor.UpdateModule | components/AddNewCourse.tsx:111-115 | applies the module update |
| AddNewCourse.CourseEditor.DeleteModule | components/AddNewCourse.tsx:117-119 | applies the module deletion |
| AddNewCourse.CourseEditor.AddLesson | components/AddNewCourse.tsx:121-135 | applies the lesson addition |
| AddNewCourse.CourseEditor.UpdateLesson | components/AddNewCourse.tsx:137-150 | applies the lesson update |
| AddNewCourse.CourseEditor.DeleteLesson | components/AddNewCourse.tsx:152-160 | applies the lesson deletion |
| AddNewCourse.CourseEditor.HandleSave | components/AddNewCourse.tsx:162-168 | hands the current course and modules to the save callback |
| QuizPage.Questions | components/QuizPage.tsx:28-80 | five questions with ids 1 to 5, each with a correct answer among its options |
| QuizPage.InitialState | components/QuizPage.tsx:22-26 | the first question, no answers, 1800 seconds, not submitted; no contract of its own; `QuizPage.Quiz.constructor` installs it and `QuizPage.SubmitButton` uses it |
| QuizPage.IsCorrect | components/QuizPage.tsx:112 | `selectedAnswers[question.id] === question.correctAnswer`, no contract of its own; `QuizPage.ScoreBounds`, `QuizPage.ScoreMonotone` and `QuizPage.PassingTheFiveQuestions` state it |
| QuizPage.FormatTime | components/QuizPage.tsx:91-95 | `formatTime`, with no contract of its own; stated by `FormatTimeSplit`, `FormatTimeRoundTrip`, `FormatTimeInjective` and `FormatTimeExamples` |
| QuizPage.CorrectCount | components/QuizPage.tsx:109-115 | the count of correctly answered questions, with no contract of its own; stated by `ScoreBounds`, `ScoreMonotone` and `PassingTheFiveQuestions` |
| QuizPage.Score | components/QuizPage.tsx:109-117 | `calculateScore`, with no contract of its own; stated by `ScoreBounds`, `ScoreMonotone` and `PassingTheFiveQuestions` |
| QuizPage.Passed | components/QuizPage.tsx:134 | the pass mark of 70, with no contract of its own; stated by `PassingTheFiveQuestions` |
| QuizPage.AnsweredCount | components/QuizPage.tsx:119-121 | `getAnsweredCount`, with no contract of its own; stated by `SelectAnswerChangesOneEntry` and `SubmitButton` |
| QuizPage.SelectAnswer | components/QuizPage.tsx:97-102 | `handleAnswerSelect` on the answers, with no contract of its own; stated by `SelectAnswerChangesOneEntry` |
| QuizPage.Previous | components/QuizPage.tsx:313-320 | the "Previous" button, with no contract of its own; stated by `StepsKeepReachable` |
| QuizPage.Next | components/QuizPage.tsx:323-330 | the "Next" button, with no contract of its own; stated by `StepsKeepReachable` |
| QuizPage.Jump | components/QuizPage.tsx:246 | a button of the question grid, with no contract of its own; stated by `StepsKeepReachable` |
| QuizPage.Submit | components/QuizPage.tsx:104-107 | `handleSubmit`, with no contract of its own; stated by `StepsKeepReachable` and `TimeoutSubmits` |
| QuizPage.Tick | components/QuizPage.tsx:82-89 | one run of the countdown effect, with no contract of its own; stated by `TickCountsDown`, `TimeoutSubmits` and `SubmittedClockStops` |
| QuizPage.SubmitButton | components/QuizPage.tsx:335 | the "Submit" button starts disabled, is enabled exactly when some answer is recorded, and is enabled after any answer is selected |
| QuizPage.SubmitEnabled | components/QuizPage.tsx:335 | the "Submit" button's enabled state, no contract of its own; `QuizPage.SubmitButton` states it |
| QuizPage.ParsePaddedSeconds | components/QuizPage.tsx:91-95 | the padded seconds read back as the seconds |
| QuizPage.FormatTimeSplit | components/QuizPage.tsx:91-95 | the display is the minutes, a colon, then the seconds padded to two digits |
| QuizPage.FormatTimeRoundTrip | components/QuizPage.tsx:91-95 | the `m:ss` display can be read back to the number of seconds |
| QuizPage.FormatTimeInjective | components/QuizPage.tsx:91-95 | different times display differently |
| QuizPage.FormatTimeExamples | components/QuizPage.tsx:91-95 | the 30-minute limit shows "30:00", 65 seconds shows "1:05" and zero shows "0:00" |
| QuizPage.ScoreBounds | components/QuizPage.tsx:109-117 | the score is a percentage: 0 with nothing right, 100 with everything right |
| QuizPage.ScoreMonotone | components/QuizPage.tsx:109-117 | more correct answers never lower the score |
| QuizPage.PassingTheFiveQuestions | components/QuizPage.tsx:134 | on the five questions each is worth 20 points, a pass needs four right, and 100 needs all five |
| QuizPage.SelectAnswerChangesOneEntry | components/QuizPage.tsx:97-121 | selecting an answer records it for that question and keeps the others; the answered count grows exactly when the question was unanswered |
| QuizPage.StepsKeepReachable | components/QuizPage.tsx:97-107 | every step keeps the current question within range |
| QuizPage.TickCountsDown | components/QuizPage.tsx:82-89 | while the quiz runs, a tick takes one second off and changes nothing else |
| QuizPage.TimeoutSubmits | components/QuizPage.tsx:82-89 | running the clock down submits the quiz and shows the results |
| QuizPage.SubmittedClockStops | components/QuizPage.tsx:82-89 | after submission the clock no longer moves |
| QuizPage.Quiz.constructor | components/QuizPage.tsx:22-26 | the quiz starts at the first question, with no answers, 30 minutes and not submitted |
| QuizPage.Quiz.HandleAnswerSelect | components/QuizPage.tsx:97-102 | records the answer as specified |
| QuizPage.Quiz.GoPrevious | components/QuizPage.tsx:316-317 | moves back one question, stopping at the first |
| QuizPage.Quiz.GoNext | components/QuizPage.tsx:324-326 | moves forward one question, stopping at the last |
| QuizPage.Quiz.GoTo | components/QuizPage.tsx:246 | jumps to the chosen question |
| QuizPage.Quiz.HandleSubmit | components/QuizPage.tsx:104-107 | submits and shows the results |
| QuizPage.Quiz.CountdownEffect | components/QuizPage.tsx:82-89 | performs one tick of the timer |
| QuizPage.Quiz.CalculateScore | components/QuizPage.tsx:109-117 | the counting loop computes the score |
| DashboardLayout.CurrentAcademyName | components/DashboardLayout.tsx:39-40 | the displayed academy name is never empty |
| DashboardLayout.HandleLogout | components/DashboardLayout.tsx:70-73 | logging out lands on "/" |
| DashboardLayout.StudentNavigationItems | components/DashboardLayout.tsx:42-53 | `studentNavigationItems`, with no contract of its own; stated by `StudentHrefs` and `NavigationHrefs` |
| DashboardLayout.EducatorNavigationItems | components/DashboardLayout.tsx:55-61 | `educatorNavigationItems`, with no contract of its own; stated by `EducatorHrefs` and `NavigationHrefs` |
| DashboardLayout.NavigationItems | components/DashboardLayout.tsx:63 | `navigationItems`, with no contract of its own; stated by `NavigationHrefs` and `AcademyLayoutMixesTheTwo` |
| DashboardLayout.ProfileHref | components/DashboardLayout.tsx:64 | `profileHref`, with no contract of its own; stated by `NavigationHrefs` |
| DashboardLayout.IsActive | components/DashboardLayout.tsx:81-86 | `isActive`, with no contract of its own; stated by `DashboardLinksMatchExactly`, `OtherLinksMatchPrefixes` and `CoursesOldHighlightsCourses` |
| DashboardLayout.AcademyNameSources | components/DashboardLayout.tsx:39-40 | educators show their session's domain and others the academy name prop, each falling back to "coursivo" when missing or empty |
| DashboardLayout.NavigationHrefs | components/DashboardLayout.tsx:42-64 | each menu has five links with distinct ids; student links are `/<academy>/<id>` and educator links `/<id>`; the profile link is built the same way from "profile" and is none of the menu links |
| DashboardLayout.StudentHrefs | components/DashboardLayout.tsx:42-53 | the student links are, in order, the academy's dashboard, courses, quiz, achievements and schedule |
| DashboardLayout.EducatorHrefs | components/DashboardLayout.tsx:55-61 | the educator links are, in order, the dashboard, courses, students, settings and help pages |
| DashboardLayout.AcademyLayoutMixesTheTwo | components/DashboardLayout.tsx:29-64 | the "academy" layout type gets the educator menu and profile link and the default academy name |
| DashboardLayout.DashboardLinksMatchExactly | components/DashboardLayout.tsx:81-86 | a dashboard link is active only on exactly its own path |
| DashboardLayout.OtherLinksMatchPrefixes | components/DashboardLayout.tsx:81-86 | every other link is active exactly on paths starting with it |
| DashboardLayout.CoursesOldHighlightsCourses | components/DashboardLayout.tsx:81-86 | the prefix test also lights "/courses" on "/courses-old" but not the dashboard on a subpage |
| DashboardPage.AcademyName | app/dashboard/page.tsx:31 | the domain claim or "coursivo", with no contract of its own; stated by `ClaimFallbacks` |
| DashboardPage.UserType | app/dashboard/page.tsx:32 | the role claim or "educator", with no contract of its own; stated by `ClaimFallbacks` and `StudentViewIffStudentRole` |
| DashboardPage.UserName | app/dashboard/page.tsx:33 | the name claim or "User", with no contract of its own; stated by `ClaimFallbacks` |
| DashboardPage.PageEffect | app/dashboard/page.tsx:36-42 | the redirect effect, with no contract of its own; stated by `LoadingWaits` and `NoSessionRedirects` |
| DashboardPage.Render | app/dashboard/page.tsx:45-124 | the rendered view, with no contract of its own; stated by `LoadingWaits`, `NoSessionRedirects` and `StudentViewIffStudentRole` |
| DashboardPage.LoadingWaits | app/dashboard/page.tsx:36-56 | while loading, the page shows the spinner and does not redirect |
| DashboardPage.NoSessionRedirects | app/dashboard/page.tsx:36-61 | once loaded, a missing session redirects to "/signin" and renders nothing; a session stays |
| DashboardPage.StudentViewIffStudentRole | app/dashboard/page.tsx:32-124 | the student view is shown exactly for role "student"; everyone else gets the educator view |
| DashboardPage.ClaimFallbacks | app/dashboard/page.tsx:31-33 | an empty or missing domain, role or name falls back to "coursivo", "educator" or "User" |
| DashboardPage.SignedInStudentSeesDefaultAcademy | app/dashboard/page.tsx:31-124 | a signed-in student has no domain claim, so the page shows the student view for academy "coursivo" |
| DashboardPage.StudentLinks | app/dashboard/page.tsx:234-259 | the targets of the student view's three course and quiz buttons, no contract of its own; `DashboardPage.SignedInStudentSeesDefaultAcademy` states them |
| DashboardPage.SignedInEducatorSeesEducatorView | app/dashboard/page.tsx:32-124 | a signed-in educator gets the educator view |
| StudentsPage.FilteredStudents | app/academy/dashboard/students/page.tsx:110-116 | `filteredStudents`, with no contract of its own; stated by `FilteredStudentsKeepsMatches` and `EmptySearchListsEveryone` |
| StudentsPage.Shown | app/academy/dashboard/students/page.tsx:110-116 | the search-and-status test on one student, no contract of its own; `StudentsPage.FilteredStudentsKeepsMatches` states it |
| StudentsPage.MockStudents | app/academy/dashboard/students/page.tsx:26-95 | the page's four students, no contract of its own; `StudentsPage.MockStats` states its figures |
| StudentsPage.ActiveStudents | app/academy/dashboard/students/page.tsx:119 | `activeStudents`, with no contract of its own; stated by `ActiveFilterMatchesActiveCount` and `StatsBounds` |
| StudentsPage.TotalEnrollments | app/academy/dashboard/students/page.tsx:120 | `totalEnrollments`, with no contract of its own; stated by `EnrollmentsBound` |
| StudentsPage.AverageProgress | app/academy/dashboard/students/page.tsx:121-123 | `averageProgress`, with no contract of its own; stated by `StatsBounds` |
| StudentsPage.StatusBadge | app/academy/dashboard/students/page.tsx:97-108 | `getStatusBadge`, with no contract of its own; stated by `StatusBadges` and `CapitalisedInactiveLooksInactive` |
| StudentsPage.FilteredStudentsKeepsMatches | app/academy/dashboard/students/page.tsx:110-116 | the list keeps, in order, exactly the students whose name or email contains the search and whose status passes the filter |
| StudentsPage.EmptySearchListsEveryone | app/academy/dashboard/students/page.tsx:110-116 | with no search and filter "all" everyone is listed |
| StudentsPage.ActiveFilterMatchesActiveCount | app/academy/dashboard/students/page.tsx:110-119 | the "active" filter lists exactly as many students as the active count |
| StudentsPage.SumBetween | app/academy/dashboard/students/page.tsx:121-123 | when each progress lies in a range, the total lies in that range times the count |
| StudentsPage.StatsBounds | app/academy/dashboard/students/page.tsx:118-123 | the active count is at most the total, and the average progress stays within 0 to 100 |
| StudentsPage.EnrollmentsBound | app/academy/dashboard/students/page.tsx:120 | total enrollments are non-negative and at least any one student's |
| StudentsPage.MockStats | app/academy/dashboard/students/page.tsx:26-123 | the built-in list shows 4 students, 3 active, 10 enrollments and average progress 66 |
| StudentsPage.StatusBadges | app/academy/dashboard/students/page.tsx:97-108 | the three known statuses get distinct badges, and any other status shows as a plain badge with its own text |
| StudentsPage.CapitalisedInactiveLooksInactive | app/academy/dashboard/students/page.tsx:97-108 | the status test is case-sensitive; "Inactive" falls to the default branch, whose secondary badge with the status's own text equals the badge of "inactive" |
| HelpPage.FilteredFaqs | app/academy/dashboard/help/page.tsx:185-194 | `filteredFAQs`, with no contract of its own; stated by `FilteredFaqsContents` |
| HelpPage.DisplayedFaqs | app/academy/dashboard/help/page.tsx:239 | the list the FAQ tab shows, with no contract of its own; stated by `EmptySearchShowsEverything` |
| HelpPage.ShowsNoResults | app/academy/dashboard/help/page.tsx:261 | the "no results" card, with no contract of its own; stated by `NoResultsIffNothingMatches` and `EmptySearchShowsEverything` |
| HelpPage.NarrowAll | app/academy/dashboard/help/page.tsx:185-193 | each category is narrowed to its matching questions, position by position |
| HelpPage.FilteredFaqsContents | app/academy/dashboard/help/page.tsx:185-194 | the result keeps, in order, exactly the narrowed categories with a matching question, and each question shown matches the search |
| HelpPage.NarrowKeepsMatches | app/academy/dashboard/help/page.tsx:187-193 | a narrowed category keeps exactly the questions whose question or answer contains the search |
| HelpPage.FaqMatches | app/academy/dashboard/help/page.tsx:188-191 | the search test on one question, no contract of its own; `HelpPage.NarrowKeepsMatches` and `HelpPage.NoResultsIffNothingMatches` state it |
| HelpPage.Narrow | app/academy/dashboard/help/page.tsx:186-193 | one category cut down to its matching questions, no contract of its own; `HelpPage.NarrowKeepsMatches` states it |
| HelpPage.EmptySearchShowsEverything | app/academy/dashboard/help/page.tsx:239-261 | with no search every category is shown and "no results" is not |
| HelpPage.NoResultsIffNothingMatches | app/academy/dashboard/help/page.tsx:261 | "no results" shows exactly when there is a search and no question matches it |
| HelpPage.SetField | app/academy/dashboard/help/page.tsx:308-356 | each form input sets its own field and no other |
| HelpPage.HelpSupportPage.constructor | app/academy/dashboard/help/page.tsx:27-34 | the page starts with no search and a blank general, medium-priority request |
| HelpPage.HelpSupportPage.SetSearchTerm | app/academy/dashboard/help/page.tsx:27 | typing a search leaves the form alone |
| HelpPage.HelpSupportPage.EditForm | app/academy/dashboard/help/page.tsx:308-356 | an input edits only the form |
| HelpPage.HelpSupportPage.HandleSupportSubmit | app/academy/dashboard/help/page.tsx:196-206 | submitting logs the form as it was (console output, not modelled) and resets it to blank |
| CoursesPage.FilteredCoursesKeepsMatches | app/courses/page.tsx:97-100 | the list keeps, in order, exactly the courses whose title or category contains the search |
| CoursesPage.EmptySearchListsEveryCourse | app/courses/page.tsx:97-100 | with no search every course is listed, and "no courses" shows only when there are none |
| CoursesPage.StatusCountsBounded | app/courses/page.tsx:186-202 | the active and draft counts together never exceed the number of courses |
| CoursesPage.TotalStudentsBound | app/courses/page.tsx:170 | the student total is non-negative and at least any one course's |
| CoursesPage.MockFigures | app/courses/page.tsx:29-202 | the built-in list shows 4 courses, 105 students, 2 active and 2 drafts |
| CoursesPage.StatusBadges | app/courses/page.tsx:84-95 | the three statuses get distinct badges and others show their own text on a secondary badge; the test is case-sensitive, and "Draft" falls to that default, which equals the badge of "draft" |
| CoursesPage.EditorIffLastActionAdds | app/courses/page.tsx:102-124 | the editor is shown exactly when the last action was "add new course" |
| CoursesPage.FilteredCourses | app/courses/page.tsx:97-100 | `filteredCourses`, with no contract of its own; stated by `FilteredCoursesKeepsMatches` and `EmptySearchListsEveryCourse` |
| CoursesPage.CourseMatches | app/courses/page.tsx:97-100 | the search test on one course, no contract of its own; `CoursesPage.FilteredCoursesKeepsMatches` states it |
| CoursesPage.ShowsNoCourses | app/courses/page.tsx:295 | the "no courses" card, no contract of its own; `CoursesPage.EmptySearchListsEveryCourse` states it |
| CoursesPage.MockCourses | app/courses/page.tsx:29-82 | the page's four courses, no contract of its own; `CoursesPage.MockFigures` states its figures |
| CoursesPage.StatusBadge | app/courses/page.tsx:84-95 | `getStatusBadge`, with no contract of its own; stated by `StatusBadges` |
| CoursesPage.TotalStudents | app/courses/page.tsx:170 | the student total, with no contract of its own; stated by `TotalStudentsBound` |
| CoursesPage.ActiveCourses | app/courses/page.tsx:186 | the active count, with no contract of its own; stated by `StatusCountsBounded` |
| CoursesPage.DraftCourses | app/courses/page.tsx:202 | the draft count, with no contract of its own; stated by `StatusCountsBounded` |
| CoursesPage.NextView | app/courses/page.tsx:102-114 | the view after one button, with no contract of its own; stated by `EditorIffLastActionAdds` |
| CoursesPage.ShowsEditor | app/courses/page.tsx:116 | whether the editor replaces the list, with no contract of its own; stated by `EditorIffLastActionAdds` |
| CoursesPage.CourseManagementPage.constructor | app/courses/page.tsx:26-27 | the page starts on the list with no search |
| CoursesPage.CourseManagementPage.SetSearchTerm | app/courses/page.tsx:218 | typing a search keeps the view |
| CoursesPage.CourseManagementPage.HandleAddNewCourse | app/courses/page.tsx:102-104 | opens the editor |
| CoursesPage.CourseManagementPage.HandleBackToCourses | app/courses/page.tsx:106-108 | returns to the list |
| CoursesPage.CourseManagementPage.HandleSaveCourse | app/courses/page.tsx:110-114 | takes the course data and returns to the list |
| ProfilePage.ApplyEdit | app/academy/dashboard/profile/page.tsx:89-95 | an edit adds at most its own key to the profile |
| ProfilePage.InitialProfile | app/academy/dashboard/profile/page.tsx:35-49 | the profile the page starts with, no contract of its own; `ProfilePage.CopyInSyncWhenNotEditing` states that the page starts outside an edit with the copy equal to it |
| ProfilePage.InputChangeSetsOneField | app/academy/dashboard/profile/page.tsx:89-91 | a text input sets its field in the copy being edited, and the saved profile stays unchanged |
| ProfilePage.ExpertiseChangeSetsTheList | app/academy/dashboard/profile/page.tsx:93-95 | the expertise input sets the list in the copy being edited, and the saved profile stays unchanged |
| ProfilePage.ChangesStayInTheCopy | app/academy/dashboard/profile/page.tsx:89-95 | any run of edits changes only the copy being edited |
| ProfilePage.CancelRestores | app/academy/dashboard/profile/page.tsx:73-87 | editing and then cancelling restores the saved profile |
| ProfilePage.SaveCommits | app/academy/dashboard/profile/page.tsx:73-82 | editing and then saving commits exactly those edits |
| ProfilePage.CopyInSyncWhenNotEditing | app/academy/dashboard/profile/page.tsx:34-87 | outside editing the copy equals the profile, and starting an edit copies the profile |
| ProfilePage.StartEdit | app/academy/dashboard/profile/page.tsx:73-76 | `handleEdit`, with no contract of its own; stated by `CancelRestores`, `SaveCommits` and `CopyInSyncWhenNotEditing` |
| ProfilePage.Save | app/academy/dashboard/profile/page.tsx:78-82 | `handleSave`, with no contract of its own; stated by `SaveCommits` and `CopyInSyncWhenNotEditing` |
| ProfilePage.Cancel | app/academy/dashboard/profile/page.tsx:84-87 | `handleCancel`, with no contract of its own; stated by `CancelRestores` and `CopyInSyncWhenNotEditing` |
| ProfilePage.ChangeCopy | app/academy/dashboard/profile/page.tsx:89-95 | an input change to the copy, with no contract of its own; stated by `InputChangeSetsOneField`, `ExpertiseChangeSetsTheList` and `ChangesStayInTheCopy` |
| ProfilePage.AcademyProfilePage.constructor | app/academy/dashboard/profile/page.tsx:34-51 | the page starts in the initial state |
| ProfilePage.AcademyProfilePage.HandleEdit | app/academy/dashboard/profile/page.tsx:73-76 | starts editing a copy |
| ProfilePage.AcademyProfilePage.HandleSave | app/academy/dashboard/profile/page.tsx:78-82 | commits the copy |
| ProfilePage.AcademyProfilePage.HandleCancel | app/academy/dashboard/profile/page.tsx:84-87 | discards the copy |
| ProfilePage.AcademyProfilePage.HandleInputChange | app/academy/dashboard/profile/page.tsx:89-91 | sets one text field of the copy |
| ProfilePage.AcademyProfilePage.HandleExpertiseChange | app/academy/dashboard/profile/page.tsx:93-95 | sets the expertise list of the copy |
| SettingsPage.InputChangeTouchesOneField | app/settings/page.tsx:74-82 | a change sets one field of one section and leaves all else alone |
| SettingsPage.UnknownSectionIsIgnored | app/settings/page.tsx:74-82 | a change to an unknown section changes nothing |
| SettingsPage.IndependentChangesCommute | app/settings/page.tsx:74-82 | changes to different fields can be applied in either order |
| SettingsPage.LastChangeWins | app/settings/page.tsx:74-82 | of two changes to the same field, the later one wins |
| SettingsPage.InputChange | app/settings/page.tsx:74-82 | `handleInputChange` on the settings, with no contract of its own; stated by `InputChangeTouchesOneField`, `UnknownSectionIsIgnored`, `IndependentChangesCommute` and `LastChangeWins` |
| SettingsPage.InitialAcademySettings | app/settings/page.tsx:27-45 | the academy settings the page starts with, no contract of its own; `SettingsPage.SettingsPage.constructor` installs them |
| SettingsPage.InitialNotificationSettings | app/settings/page.tsx:47-55 | the notification settings the page starts with, no contract of its own; `SettingsPage.SettingsPage.constructor` installs them |
| SettingsPage.InitialSecuritySettings | app/settings/page.tsx:57-63 | the security settings the page starts with, no contract of its own; `SettingsPage.SettingsPage.constructor` installs them |
| SettingsPage.SettingsPage.constructor | app/settings/page.tsx:25-63 | the page opens on the general tab with the initial settings |
| SettingsPage.SettingsPage.SetActiveTab | app/settings/page.tsx:25 | switching tabs keeps the settings |
| SettingsPage.SettingsPage.HandleInputChange | app/settings/page.tsx:74-82 | applies the change and keeps the tab |
| SettingsPage.SettingsPage.HandleSaveSettings | app/settings/page.tsx:65-72 | saving hands over the current settings |

## Left out

- `cn`, `formatDate`, `formatDateTime`, `getErrorMessage` and the `localStorage` helpers in `lib/utils.ts` are left out. They wrap a class-name library, the `Date` and `Intl` APIs, `Error` objects and browser storage.
- The JSX markup is left out. So are the Next.js router calls (other than the target path), the clipboard, `alert` and `console` logging. These are rendering and I/O. `DashboardLayout`'s `copyStudentLandingLink` and the navigation click handler are left out because they only write to the clipboard or push a route.
- Bcrypt.CompareOtherPassword: bcrypt is modelled as an ideal salted hash in which different passwords never collide. Real bcrypt reads only the first 72 bytes of the password, so two passwords that agree on those bytes compare equal; the model does not capture this truncation.
- Prisma and the database are modelled as in-memory tables. `findFirst` returns the earliest row in insertion order. Transactions, concurrency and database-side uniqueness constraints are not modelled.
- NextAuth's token signing, cookies and expiry enforcement are left out. Only the callbacks and the configured lifetimes are modelled. The session callback's `catch` branch is left out because the modelled body cannot throw.
- Ids generated by the database and the clock reading `Date.now()` are parameters.
- `Text.Lower`, `Text.Upper` and `Utils.Capitalize`: case mapping covers ASCII only, so each keeps the length; JavaScript's full mapping can change it ("ß" upper-cases to "SS"). String lengths count characters, not UTF-16 code units.
- Utils.Assign: keys keep insertion order. JavaScript enumerates integer-like keys ("0", "1", …) first, in ascending numeric order, and the model does not.
- Utils.Grouped: the order of the group keys is the order of first occurrence, without JavaScript's integer-like keys first.
- Utils.GroupBy: same key-order simplification as `Utils.Grouped`; the thrown TypeError is `None`, without its message.
- `Utils.Picked`: JavaScript's `in` also finds keys inherited from the prototype. The model looks only at the object's own keys. It also does not reorder integer-like keys the way JavaScript enumeration does.
- `Common.RoundDiv` rounds an exact rational quotient. The source divides in floating point first.
- `StudentsPage.AverageProgress` requires a non-empty list. On an empty list the source computes `NaN`. The page's list is a constant of four students.
- `QuizPage.Score` requires a non-empty list. On an empty list the source computes `NaN`. The page's list is a constant of five questions.
- The settings page's `parseInt`/`parseFloat` inputs (app/settings/page.tsx:223, 240, 468, 481) are modelled as already-parsed integers. `NaN` and fractional values are not modelled. Numbers in the mock data are integers.
- `AddNewCourse`'s generic `handleInputChange` (components/AddNewCourse.tsx:80-82) is left out. It is an untyped field setter over the course form, with no logic beyond assignment. Module and lesson updates are limited to the fields the form's inputs pass.
- The help form's HTML `required` attributes are browser validation and are not modelled. The FAQ and support-channel texts are data and are not reproduced.
- The timer is a discrete tick rather than a real `setTimeout`.
- Static mock pages are not part of this model. Neither are the sign-in and sign-up pages, `services/api.ts` or `lib/prisma.ts`. They hold no logic beyond what is modelled here.
