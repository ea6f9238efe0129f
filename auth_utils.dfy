/** lib/utils/auth-utils.ts: credential validation, the password pair, the
    four store lookups and the two account-creation helpers. */
module AuthUtils {
  import opened Common
  import Bcrypt
  import opened Store

  /** The credentials a sign-in or sign-up form submits. Every field can be
      absent at run time, whatever the declared type says. */
  datatype Credentials = Credentials(
    email: Option<string>,
    password: Option<string>,
    userType: Option<string>,
    action: Option<string>,
    tenant: Option<string>,
    domain: Option<string>,
    name: Option<string>)

  /** `validateCredentials`: the object is present and email, password,
      user type and action are all non-empty. */
  predicate ValidateCredentials(c: Option<Credentials>) {
    && c.Some?
    && Truthy(c.value.email) && Truthy(c.value.password)
    && Truthy(c.value.userType) && Truthy(c.value.action)
  }

  /** Validation rejects exactly the absent object and each absent or empty required field. */
  lemma ValidateCredentialsRejects(c: Option<Credentials>)
    ensures c.None? ==> !ValidateCredentials(c)
    ensures c.Some? && (c.value.email == None || c.value.email == Some("")) ==> !ValidateCredentials(c)
    ensures c.Some? && (c.value.password == None || c.value.password == Some("")) ==> !ValidateCredentials(c)
    ensures c.Some? && (c.value.userType == None || c.value.userType == Some("")) ==> !ValidateCredentials(c)
    ensures c.Some? && (c.value.action == None || c.value.action == Some("")) ==> !ValidateCredentials(c)
    ensures c.Some? && c.value.email.Some? && c.value.email.value != "" && c.value.password.Some? && c.value.password.value != ""
      && c.value.userType.Some? && c.value.userType.value != "" && c.value.action.Some? && c.value.action.value != ""
      ==> ValidateCredentials(c)
  {
  }

  /** `hashPassword`: bcrypt with cost 12 and a fresh salt. */
  function HashPassword(password: string, salt: nat): (d: Bcrypt.Digest)
    ensures d.cost == 12
    ensures VerifyPassword(password, d)
  {
    Bcrypt.Hash(password, salt)
  }

  /** `verifyPassword`. */
  predicate VerifyPassword(password: string, digest: Bcrypt.Digest) {
    Bcrypt.Compare(password, digest)
  }

  /** The assumed contract of the bcrypt pair: a password verifies against its
      own hash and no other password does. */
  lemma VerifyHashedPassword(password: string, other: string, salt: nat)
    ensures VerifyPassword(password, HashPassword(password, salt))
    ensures other != password ==> !VerifyPassword(other, HashPassword(password, salt))
  {
    Bcrypt.CompareHash(password, salt);
    if other != password {
      Bcrypt.CompareOtherPassword(password, other, salt);
    }
  }

  /** `findEducatorByEmail`: the first educator whose email is `email`. */
  function FindEducatorByEmail(db: Db, email: string): (r: Option<EducatorRow>)
    ensures r.Some? ==> r.value in db.educators && r.value.email == email
    ensures r.None? <==> forall i :: 0 <= i < |db.educators| ==> db.educators[i].email != email
  {
    FirstWhere(db.educators, (e: EducatorRow) => e.email == email)
  }

  /** `findEducatorByDomain`: the first educator whose domain is `domain`. */
  function FindEducatorByDomain(db: Db, domain: string): (r: Option<EducatorRow>)
    ensures r.Some? ==> r.value in db.educators && r.value.domain == domain
    ensures r.None? <==> forall i :: 0 <= i < |db.educators| ==> db.educators[i].domain != domain
  {
    FirstWhere(db.educators, (e: EducatorRow) => e.domain == domain)
  }

  /** The educator a student belongs to (Prisma's `include: { educator: true }`). */
  function FindEducatorById(db: Db, id: string): (r: Option<EducatorRow>)
    ensures r.Some? ==> r.value in db.educators && r.value.id == id
    ensures r.None? <==> forall i :: 0 <= i < |db.educators| ==> db.educators[i].id != id
  {
    FirstWhere(db.educators, (e: EducatorRow) => e.id == id)
  }

  /** `findStudentByEmail`: the first student with that email, in any academy. */
  function FindStudentByEmail(db: Db, email: string): (r: Option<StudentRow>)
    ensures r.Some? ==> r.value in db.students && r.value.email == email
    ensures r.None? <==> forall i :: 0 <= i < |db.students| ==> db.students[i].email != email
  {
    FirstWhere(db.students, (s: StudentRow) => s.email == email)
  }

  /** `findStudentByEmailAndEducator`: a student matching both the email and the owning educator. */
  function FindStudentByEmailAndEducator(db: Db, email: string, educatorId: string): (r: Option<StudentRow>)
    ensures r.Some? ==> r.value in db.students && r.value.email == email && r.value.educatorId == educatorId
    ensures r.None? <==> forall i :: 0 <= i < |db.students| ==> db.students[i].email != email || db.students[i].educatorId != educatorId
  {
    FirstWhere(db.students, (s: StudentRow) => s.email == email && s.educatorId == educatorId)
  }

  /** The educator lookups read only the educator table. */
  lemma EducatorLookupsReadEducators(db: Db, other: Db, key: string)
    requires db.educators == other.educators
    ensures FindEducatorByEmail(db, key) == FindEducatorByEmail(other, key)
    ensures FindEducatorByDomain(db, key) == FindEducatorByDomain(other, key)
    ensures FindEducatorById(db, key) == FindEducatorById(other, key)
  {
  }

  /** The email lookup ignores academies: it returns the earliest student with
      that email, whichever educator owns it. */
  lemma FindStudentByEmailIsEarliest(db: Db, i: nat)
    requires i < |db.students|
    requires forall j :: 0 <= j < i ==> db.students[j].email != db.students[i].email
    ensures FindStudentByEmail(db, db.students[i].email) == Some(db.students[i])
  {
    var e := db.students[i].email;
    var r := FindStudentByEmail(db, e);
    var p := (s: StudentRow) => s.email == e;
    var k :| 0 <= k < |db.students| && db.students[k] == r.value && p(r.value)
      && forall j :: 0 <= j < k ==> !p(db.students[j]);
    assert !(i < k);
  }

  /** The row `createEducatorAccount` writes. */
  function NewEducatorAccount(id: string, email: string, password: string, name: Option<string>, salt: nat): (row: EducatorRow)
    ensures row.id == id && row.email == email
    ensures row.passwordHash.Some? && VerifyPassword(password, row.passwordHash.value)
    ensures forall other :: other != password ==> !VerifyPassword(other, row.passwordHash.value)
    ensures row.name == Some(OrElse(name, "New Educator"))
    ensures row.domain == "academy" && !row.domainVerified
  {
    EducatorRow(id, email, Some(HashPassword(password, salt)), Some(OrElse(name, "New Educator")), "academy", false)
  }

  /** `createEducatorAccount`: hash the password and insert the educator. */
  method CreateEducatorAccount(store: CredentialStore, id: string, email: string, password: string, name: Option<string>, salt: nat)
    returns (row: EducatorRow)
    modifies store
    ensures row == NewEducatorAccount(id, email, password, name, salt)
    ensures store.educators == old(store.educators) + [row]
    ensures store.students == old(store.students)
  {
    var hashed := HashPassword(password, salt);
    row := store.CreateEducator(EducatorRow(id, email, Some(hashed), Some(OrElse(name, "New Educator")), "academy", false));
  }

  /** The row `createStudentAccount` writes. */
  function NewStudentAccount(id: string, email: string, password: string, educatorId: string, name: Option<string>, salt: nat): (row: StudentRow)
    ensures row.id == id && row.email == email && row.educatorId == educatorId
    ensures row.passwordHash.Some? && VerifyPassword(password, row.passwordHash.value)
    ensures forall other :: other != password ==> !VerifyPassword(other, row.passwordHash.value)
    ensures row.name == Some(OrElse(name, "New Student"))
  {
    StudentRow(id, email, Some(HashPassword(password, salt)), Some(OrElse(name, "New Student")), educatorId)
  }

  /** `createStudentAccount`: hash the password and insert the student under `educatorId`. */
  method CreateStudentAccount(store: CredentialStore, id: string, email: string, password: string, educatorId: string, name: Option<string>, salt: nat)
    returns (row: StudentRow)
    modifies store
    ensures row == NewStudentAccount(id, email, password, educatorId, name, salt)
    ensures store.students == old(store.students) + [row]
    ensures store.educators == old(store.educators)
  {
    var hashed := HashPassword(password, salt);
    row := store.CreateStudent(StudentRow(id, email, Some(hashed), Some(OrElse(name, "New Student")), educatorId));
  }
}
