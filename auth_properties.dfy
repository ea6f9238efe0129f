/** What the authentication flows of lib/auth.ts guarantee, and the quirks
    they have, stated over the functions the flows are proved equal to. */
module AuthProperties {
  import opened Common
  import opened Store
  import opened AuthUtils
  import opened Auth
  import Bcrypt

  /** Every credential object that validation rejects is also turned away by
      `authorize`, and the store is left as it was. */
  lemma RejectedCredentialsAreRefused(db: Db, credentials: Option<Credentials>, newId: string, salt: nat)
    requires !ValidateCredentials(credentials)
    ensures AuthorizeOutcome(db, credentials, newId, salt) == Attempt(None, db)
  {
  }

  /** A user type other than "educator" or "student" never authenticates. */
  lemma UnknownUserTypeIsRefused(db: Db, credentials: Credentials, newId: string, salt: nat)
    requires credentials.userType != Some("educator") && credentials.userType != Some("student")
    ensures AuthorizeOutcome(db, Some(credentials), newId, salt) == Attempt(None, db)
  {
  }

  /** Educator sign-up fails exactly when the email is taken; otherwise it
      appends one row, with the domain defaulting to "academy", and returns it. */
  lemma EducatorSignup(db: Db, email: string, password: string, domain: Option<string>, newId: string, salt: nat)
    ensures var o := EducatorAuthOutcome(db, email, password, Some("signup"), domain, newId, salt);
      && ((exists i :: 0 <= i < |db.educators| && db.educators[i].email == email) <==> o.result == Err(AccountExists))
      && (o.result.Ok? ==>
            && o.db == db.(educators := db.educators + [SignupEducatorRow(newId, email, password, domain, salt)])
            && o.result.value.id == newId && o.result.value.email == email
            && o.result.value.domain == Some(OrElse(domain, "academy")))
  {
  }

  /** Sign-up does not check the requested domain: a second educator can take
      a domain that is already in use, and then student sign-up for that
      domain still resolves to the earlier educator. */
  lemma {:induction false} EducatorSignupAllowsTakenDomain(db: Db, i: nat, email: string, password: string, newId: string, salt: nat)
    requires i < |db.educators| && db.educators[i].domain != ""
    requires forall k :: 0 <= k < |db.educators| ==> db.educators[k].email != email
    ensures var d := db.educators[i].domain;
      var o := EducatorAuthOutcome(db, email, password, Some("signup"), Some(d), newId, salt);
      && o.result.Ok?
      && o.db.educators[|db.educators|].domain == d && o.db.educators[i].domain == d
      && FindEducatorByDomain(o.db, d) == FindEducatorByDomain(db, d)
  {
    var d := db.educators[i].domain;
    var row := SignupEducatorRow(newId, email, password, Some(d), salt);
    var o := EducatorAuthOutcome(db, email, password, Some("signup"), Some(d), newId, salt);
    assert o.db.educators == db.educators + [row];
    assert FindEducatorByDomain(db, d).Some?;
    FirstWhereAppend(db.educators, row, (e: EducatorRow) => e.domain == d);
  }

  /** Educator sign-in reads the store without changing it, succeeds exactly
      when the first educator with that email has a hash the password
      verifies against, and returns that stored row whatever domain the caller
      supplied. */
  lemma EducatorSignin(db: Db, email: string, password: string, domain: Option<string>, newId: string, salt: nat)
    ensures var o := EducatorAuthOutcome(db, email, password, Some("signin"), domain, newId, salt);
      var found := FindEducatorByEmail(db, email);
      && o.db == db
      && (o.result.Ok? <==> found.Some? && found.value.passwordHash.Some? && VerifyPassword(password, found.value.passwordHash.value))
      && (o.result.Ok? ==> o.result.value == EducatorPrincipal(found.value))
      && (o.result.Err? ==> o.result.error == InvalidCredentials)
  {
  }

  /** An educator who has just signed up can sign in with the same email and
      password, and gets the same principal back. */
  lemma {:induction false} EducatorSignupThenSignin(db: Db, email: string, password: string, domain: Option<string>,
                                                    newId: string, salt: nat, laterId: string, laterSalt: nat, laterDomain: Option<string>)
    requires forall k :: 0 <= k < |db.educators| ==> db.educators[k].email != email
    ensures var up := EducatorAuthOutcome(db, email, password, Some("signup"), domain, newId, salt);
      && up.result.Ok?
      && EducatorAuthOutcome(up.db, email, password, Some("signin"), laterDomain, laterId, laterSalt) == up
  {
    var row := SignupEducatorRow(newId, email, password, domain, salt);
    var up := EducatorAuthOutcome(db, email, password, Some("signup"), domain, newId, salt);
    assert up.db.educators == db.educators + [row];
    FirstWhereAppend(db.educators, row, (e: EducatorRow) => e.email == email);
    assert FindEducatorByEmail(up.db, email) == Some(row);
    Bcrypt.CompareHash(password, salt);
  }

  /** Student sign-up: the tenant defaults to "default" only when absent; it
      fails when no educator has that domain, or when the first such educator
      already has a student with the email; otherwise it appends one student
      owned by that educator and returns the tenant as given. */
  lemma StudentSignup(db: Db, email: string, password: string, tenant: Option<string>, newId: string, salt: nat)
    ensures var t := if tenant.None? then "default" else tenant.value;
      var o := StudentAuthOutcome(db, email, password, Some("signup"), tenant, newId, salt);
      var academy := FindEducatorByDomain(db, t);
      && ((forall k :: 0 <= k < |db.educators| ==> db.educators[k].domain != t) <==> o.result == Err(InvalidAcademy))
      && (academy.Some? ==>
            ((exists k :: 0 <= k < |db.students| && db.students[k].email == email && db.students[k].educatorId == academy.value.id)
             <==> o.result == Err(StudentExists)))
      && (o.result.Ok? ==>
            && o.db == db.(students := db.students + [SignupStudentRow(newId, email, password, academy.value.id, salt)])
            && o.result.value.educatorId == Some(academy.value.id)
            && o.result.value.tenant == Some(t))
  {
  }

  /** The default applies only to an absent tenant: an empty tenant string is
      looked up as the domain "", so a form that sends "" cannot reach the
      "default" academy. */
  lemma EmptyTenantIsNotDefaulted(db: Db, email: string, password: string, newId: string, salt: nat)
    requires forall k :: 0 <= k < |db.educators| ==> db.educators[k].domain != ""
    requires exists k :: 0 <= k < |db.educators| && db.educators[k].domain == "default"
    ensures StudentAuthOutcome(db, email, password, Some("signup"), Some(""), newId, salt).result == Err(InvalidAcademy)
    ensures StudentAuthOutcome(db, email, password, Some("signup"), None, newId, salt).result != Err(InvalidAcademy)
  {
  }

  /** Student sign-in reads the store without changing it, ignores the tenant
      it was asked for, and succeeds exactly when the first student with that
      email (in any academy) has a hash the password verifies against; the
      session's tenant is then that student's owner's domain, or "default". */
  lemma StudentSignin(db: Db, email: string, password: string, tenant: Option<string>, otherTenant: Option<string>,
                      newId: string, salt: nat)
    requires OwnersExist(db)
    ensures var o := StudentAuthOutcome(db, email, password, Some("signin"), tenant, newId, salt);
      var found := FindStudentByEmail(db, email);
      && o.db == db
      && o == StudentAuthOutcome(db, email, password, Some("signin"), otherTenant, newId, salt)
      && o.result != Err(OwnerMissing)
      && (o.result.Ok? <==> found.Some? && found.value.passwordHash.Some? && VerifyPassword(password, found.value.passwordHash.value))
      && (o.result.Ok? ==>
            && FindEducatorById(db, found.value.educatorId).Some?
            && o.result.value.id == found.value.id
            && o.result.value.educatorId == Some(found.value.educatorId)
            && o.result.value.tenant == Some(OrElse(Some(FindEducatorById(db, found.value.educatorId).value.domain), "default")))
  {
  }

  /** With unique educator ids, the owner found for a student is the educator
      at the index the student's foreign key points to. */
  lemma OwnerIsUnique(db: Db, k: nat)
    requires EducatorIdsUnique(db)
    requires k < |db.educators|
    ensures FindEducatorById(db, db.educators[k].id) == Some(db.educators[k])
  {
    var r := FindEducatorById(db, db.educators[k].id);
    var j :| 0 <= j < |db.educators| && db.educators[j] == r.value;
    assert j == k;
  }

  /** Appending a student whose owner is an existing educator keeps the foreign key. */
  lemma SignupKeepsOwners(db: Db, row: StudentRow, owner: EducatorRow)
    requires OwnersExist(db)
    requires owner in db.educators && row.educatorId == owner.id
    ensures OwnersExist(db.(students := db.students + [row]))
  {
    var n := db.(students := db.students + [row]);
    forall i | 0 <= i < |n.students|
      ensures HasEducator(n, n.students[i].educatorId)
    {
      if i < |db.students| {
        assert n.students[i] == db.students[i];
      } else {
        var j :| 0 <= j < |db.educators| && db.educators[j] == owner;
      }
    }
  }

  /** Appending an educator keeps the foreign key. */
  lemma EducatorSignupKeepsOwners(db: Db, row: EducatorRow)
    requires OwnersExist(db)
    ensures OwnersExist(db.(educators := db.educators + [row]))
  {
    var n := db.(educators := db.educators + [row]);
    forall i | 0 <= i < |n.students|
      ensures HasEducator(n, n.students[i].educatorId)
    {
      var j :| 0 <= j < |db.educators| && db.educators[j].id == db.students[i].educatorId;
      assert n.educators[j] == db.educators[j];
    }
  }

  /** Sign-up and sign-in both keep every student's owner in the table. */
  lemma AuthorizePreservesOwners(db: Db, credentials: Option<Credentials>, newId: string, salt: nat)
    requires OwnersExist(db)
    ensures OwnersExist(AuthorizeOutcome(db, credentials, newId, salt).db)
  {
    var a := AuthorizeOutcome(db, credentials, newId, salt);
    if a.db != db {
      var c := credentials.value;
      var email, password := c.email.value, c.password.value;
      if c.userType == Some("educator") {
        var row := SignupEducatorRow(newId, email, password, c.domain, salt);
        assert a.db == db.(educators := db.educators + [row]);
        EducatorSignupKeepsOwners(db, row);
      } else {
        var academy := FindEducatorByDomain(db, c.tenant.GetOr("default")).value;
        var row := SignupStudentRow(newId, email, password, academy.id, salt);
        assert a.db == db.(students := db.students + [row]);
        SignupKeepsOwners(db, row, academy);
      }
    }
  }

  /** Through `authorize` itself: an educator who signs up with a fresh email
      can then sign in with the same password, and gets the same user back
      without the store changing again. */
  lemma {:induction false} AuthorizeEducatorSignupThenSignin(db: Db, email: string, password: string, domain: Option<string>,
                                                             newId: string, salt: nat, laterId: string, laterSalt: nat)
    requires email != "" && password != ""
    requires forall k :: 0 <= k < |db.educators| ==> db.educators[k].email != email
    ensures var up := AuthorizeOutcome(db, Some(Credentials(Some(email), Some(password), Some("educator"), Some("signup"), None, domain, None)), newId, salt);
      && up.user.Some? && up.user.value.email == email
      && up.db == db.(educators := db.educators + [SignupEducatorRow(newId, email, password, domain, salt)])
      && AuthorizeOutcome(up.db, Some(Credentials(Some(email), Some(password), Some("educator"), Some("signin"), None, None, None)), laterId, laterSalt)
         == up
  {
    EducatorSignupThenSignin(db, email, password, domain, newId, salt, laterId, laterSalt, None);
    EducatorSignup(db, email, password, domain, newId, salt);
  }

  /** Student sign-up into an academy where the email is free appends the
      student, and keeps both the foreign key and the primary key. */
  lemma StudentSignupAppends(db: Db, email: string, password: string, domain: string, newId: string, salt: nat, academy: EducatorRow)
    requires FindEducatorByDomain(db, domain) == Some(academy)
    requires forall k :: 0 <= k < |db.students| ==> db.students[k].email != email || db.students[k].educatorId != academy.id
    ensures var o := StudentAuthOutcome(db, email, password, Some("signup"), Some(domain), newId, salt);
      && o.result.Ok? && o.result.value.educatorId == Some(academy.id)
      && o.db == db.(students := db.students + [SignupStudentRow(newId, email, password, academy.id, salt)])
  {
  }

  /** Student sign-in for an email whose first row is `student`, owned by the
      educator at index `k`. */
  lemma StudentSigninOf(db: Db, email: string, password: string, tenant: Option<string>, newId: string, salt: nat,
                        student: StudentRow, k: nat)
    requires EducatorIdsUnique(db)
    requires FindStudentByEmail(db, email) == Some(student)
    requires k < |db.educators| && db.educators[k].id == student.educatorId
    ensures StudentAuthOutcome(db, email, password, Some("signin"), tenant, newId, salt).result ==
      if student.passwordHash.Some? && Bcrypt.Compare(password, student.passwordHash.value) then
        Ok(Principal(student.id, student.email, Defined(student.name), "student", Some(student.educatorId),
                     Some(OrElse(Some(db.educators[k].domain), "default")), None))
      else Err(InvalidCredentials)
  {
    OwnerIsUnique(db, k);
  }

  /** Registering the same email in two academies: both sign-ups succeed,
      and afterwards the email lookup finds the first registration. */
  lemma {:induction false} SameEmailInTwoAcademies(
    db: Db, email: string, first: string, second: string, d1: string, d2: string,
    id1: string, id2: string, salt1: nat, salt2: nat)
    requires forall k :: 0 <= k < |db.students| ==> db.students[k].email != email
    requires FindEducatorByDomain(db, d1).Some? && FindEducatorByDomain(db, d2).Some?
    requires FindEducatorByDomain(db, d1).value.id != FindEducatorByDomain(db, d2).value.id
    ensures var one := StudentAuthOutcome(db, email, first, Some("signup"), Some(d1), id1, salt1);
      && one.result.Ok?
      && var two := StudentAuthOutcome(one.db, email, second, Some("signup"), Some(d2), id2, salt2);
      && two.result.Ok?
      && two.db.educators == db.educators
      && FindStudentByEmail(two.db, email) == Some(SignupStudentRow(id1, email, first, FindEducatorByDomain(db, d1).value.id, salt1))
  {
    var e1 := FindEducatorByDomain(db, d1).value;
    var e2 := FindEducatorByDomain(db, d2).value;
    var row1 := SignupStudentRow(id1, email, first, e1.id, salt1);
    var db1 := db.(students := db.students + [row1]);
    StudentSignupAppends(db, email, first, d1, id1, salt1, e1);
    assert forall k :: 0 <= k < |db1.students| ==> db1.students[k].email != email || db1.students[k].educatorId != e2.id by {
      assert forall k :: 0 <= k < |db.students| ==> db1.students[k] == db.students[k];
    }
    EducatorLookupsReadEducators(db1, db, d2);
    var row2 := SignupStudentRow(id2, email, second, e2.id, salt2);
    StudentSignupAppends(db1, email, second, d2, id2, salt2, e2);
    FirstWhereAppend(db.students, row1, (s: StudentRow) => s.email == email);
    FirstWhereAppend(db1.students, row2, (s: StudentRow) => s.email == email);
  }

  /** After the same email has registered in two academies, the second
      registration can never sign in: the email lookup ignores the tenant and
      finds the earlier row, against which the second password fails. */
  lemma SecondRegistrationCannotSignIn(
    db: Db, email: string, first: string, second: string, d1: string, d2: string,
    id1: string, id2: string, salt1: nat, salt2: nat, laterId: string, laterSalt: nat)
    requires EducatorIdsUnique(db)
    requires forall k :: 0 <= k < |db.students| ==> db.students[k].email != email
    requires FindEducatorByDomain(db, d1).Some? && FindEducatorByDomain(db, d2).Some?
    requires FindEducatorByDomain(db, d1).value.id != FindEducatorByDomain(db, d2).value.id
    requires first != second
    ensures var one := StudentAuthOutcome(db, email, first, Some("signup"), Some(d1), id1, salt1);
      var two := StudentAuthOutcome(one.db, email, second, Some("signup"), Some(d2), id2, salt2);
      && one.result.Ok? && two.result.Ok?
      && StudentAuthOutcome(two.db, email, second, Some("signin"), Some(d2), laterId, laterSalt).result == Err(InvalidCredentials)
  {
    SameEmailInTwoAcademies(db, email, first, second, d1, d2, id1, id2, salt1, salt2);
    var e1 := FindEducatorByDomain(db, d1).value;
    var row1 := SignupStudentRow(id1, email, first, e1.id, salt1);
    var one := StudentAuthOutcome(db, email, first, Some("signup"), Some(d1), id1, salt1);
    var two := StudentAuthOutcome(one.db, email, second, Some("signup"), Some(d2), id2, salt2);
    var k :| 0 <= k < |db.educators| && db.educators[k] == e1;
    assert two.db.educators[k] == e1;
    Bcrypt.CompareOtherPassword(first, second, salt1);
    StudentSigninOf(two.db, email, second, Some(d2), laterId, laterSalt, row1, k);
  }

  /** After the same email has registered in two academies, signing in with
      the first password lands in the first academy, even when the second
      academy is the one asked for. */
  lemma FirstRegistrationKeepsItsTenant(
    db: Db, email: string, first: string, second: string, d1: string, d2: string,
    id1: string, id2: string, salt1: nat, salt2: nat, laterId: string, laterSalt: nat)
    requires EducatorIdsUnique(db)
    requires forall k :: 0 <= k < |db.students| ==> db.students[k].email != email
    requires FindEducatorByDomain(db, d1).Some? && FindEducatorByDomain(db, d2).Some?
    requires FindEducatorByDomain(db, d1).value.id != FindEducatorByDomain(db, d2).value.id
    requires d1 != ""
    ensures var one := StudentAuthOutcome(db, email, first, Some("signup"), Some(d1), id1, salt1);
      var two := StudentAuthOutcome(one.db, email, second, Some("signup"), Some(d2), id2, salt2);
      var back := StudentAuthOutcome(two.db, email, first, Some("signin"), Some(d2), laterId, laterSalt);
      && back.result.Ok? && back.result.value.tenant == Some(d1)
  {
    SameEmailInTwoAcademies(db, email, first, second, d1, d2, id1, id2, salt1, salt2);
    var e1 := FindEducatorByDomain(db, d1).value;
    var row1 := SignupStudentRow(id1, email, first, e1.id, salt1);
    var one := StudentAuthOutcome(db, email, first, Some("signup"), Some(d1), id1, salt1);
    var two := StudentAuthOutcome(one.db, email, second, Some("signup"), Some(d2), id2, salt2);
    var k :| 0 <= k < |db.educators| && db.educators[k] == e1;
    assert two.db.educators[k] == e1;
    Bcrypt.CompareHash(first, salt1);
    StudentSigninOf(two.db, email, first, Some(d2), laterId, laterSalt, row1, k);
  }

  // ---------------------------------------------------------------------
  // Claims through the callbacks

  /** At sign-in the principal's role, educator id, tenant and domain travel
      through the token into `session.user`, whose id becomes the subject. */
  lemma SigninClaimsReachSession(token: Claims, user: Principal, sessionUser: SessionUser)
    ensures SessionUserFrom(Some(sessionUser), JwtClaims(token, Some(user))) ==
      Some(sessionUser.(id := OrElse(token.sub, ""), role := Some(user.role), educatorId := user.educatorId,
                        tenant := user.tenant, domain := user.domain))
  {
  }
}
