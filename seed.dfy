/** prisma/seed.ts: the seed script upserts the administrator educator of the
    "alpha" academy, keyed by email, with an empty update and no password. */
module Seed {
  import opened Common
  import opened Store
  import opened AuthUtils
  import opened Auth

  const AdminEmail: string := "admin@alpha.com"

  /** The row the upsert creates when the email is not yet taken. */
  function SeedRow(id: string): (row: EducatorRow)
    ensures row.email == AdminEmail && row.domain == "alpha" && row.domainVerified
    ensures row.name == Some("Alpha Academy") && row.passwordHash.None?
  {
    EducatorRow(id, AdminEmail, None, Some("Alpha Academy"), "alpha", true)
  }

  /** The educator the upsert returns and the store afterwards. */
  datatype SeedOutcome = SeedOutcome(educator: EducatorRow, db: Db)

  /** The upsert: an educator with the administrator's email is returned as
      it is (the update is empty); otherwise the seed row is created. */
  function SeedResult(db: Db, newId: string): (o: SeedOutcome)
    ensures o.educator.email == AdminEmail
    ensures FindEducatorByEmail(db, AdminEmail).Some? ==> o == SeedOutcome(FindEducatorByEmail(db, AdminEmail).value, db)
    ensures FindEducatorByEmail(db, AdminEmail).None? ==>
      o == SeedOutcome(SeedRow(newId), db.(educators := db.educators + [SeedRow(newId)]))
  {
    match FindEducatorByEmail(db, AdminEmail)
    case Some(existing) => SeedOutcome(existing, db)
    case None =>
      var row := SeedRow(newId);
      SeedOutcome(row, db.(educators := db.educators + [row]))
  }

  /** `main`: run the upsert; `newId` is the id the database would assign. */
  method Seed(store: CredentialStore, newId: string) returns (educator: EducatorRow)
    modifies store
    ensures SeedOutcome(educator, store.State()) == SeedResult(old(store.State()), newId)
  {
    var existing := FindEducatorByEmail(store.State(), AdminEmail);
    if existing.Some? {
      return existing.value;
    }
    educator := store.CreateEducator(SeedRow(newId));
  }

  /** Seeding twice is the same as seeding once. */
  lemma {:induction false} SeedIsIdempotent(db: Db, newId: string, laterId: string)
    ensures var once := SeedResult(db, newId);
      SeedResult(once.db, laterId) == once
  {
    var once := SeedResult(db, newId);
    if FindEducatorByEmail(db, AdminEmail).None? {
      FirstWhereAppend(db.educators, SeedRow(newId), (e: EducatorRow) => e.email == AdminEmail);
    }
  }

  /** The seeded administrator has no password, so no password signs in as it. */
  lemma {:induction false} SeededAdminCannotSignIn(db: Db, newId: string, password: string, domain: Option<string>,
                                                   laterId: string, salt: nat)
    requires forall k :: 0 <= k < |db.educators| ==> db.educators[k].email != AdminEmail
    ensures var seeded := SeedResult(db, newId).db;
      EducatorAuthOutcome(seeded, AdminEmail, password, Some("signin"), domain, laterId, salt).result == Err(InvalidCredentials)
  {
    FirstWhereAppend(db.educators, SeedRow(newId), (e: EducatorRow) => e.email == AdminEmail);
  }

  /** On a store without an "alpha" academy, seeding makes the tenant "alpha"
      reachable: a new student signing up there is owned by the seeded educator. */
  lemma {:induction false} SeededAcademyAcceptsStudents(db: Db, newId: string, email: string, password: string,
                                                        studentId: string, salt: nat)
    requires forall k :: 0 <= k < |db.educators| ==> db.educators[k].email != AdminEmail && db.educators[k].domain != "alpha"
    requires forall k :: 0 <= k < |db.students| ==> db.students[k].email != email || db.students[k].educatorId != newId
    ensures var seeded := SeedResult(db, newId).db;
      var o := StudentAuthOutcome(seeded, email, password, Some("signup"), Some("alpha"), studentId, salt);
      && o.result.Ok? && o.result.value.educatorId == Some(newId) && o.result.value.tenant == Some("alpha")
  {
    FirstWhereAppend(db.educators, SeedRow(newId), (e: EducatorRow) => e.email == AdminEmail);
    FirstWhereAppend(db.educators, SeedRow(newId), (e: EducatorRow) => e.domain == "alpha");
  }
}
