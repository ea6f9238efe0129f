/** The two credential tables of the relational store, `educator_account`
    and `students`, as the Prisma client exposes them to the authentication
    code: `findFirst` with a filter (the first matching row in table order)
    and `create` (append a row). Identifiers are assigned by the database and
    are parameters here. */
module Store {
  import opened Common
  import Bcrypt

  /** A row of `educator_account`. `passwordHash` is nullable (and an empty
      column reads as absent too, as the code tests it for truthiness). */
  datatype EducatorRow = EducatorRow(
    id: string,
    email: string,
    passwordHash: Option<Bcrypt.Digest>,
    name: Option<string>,
    domain: string,
    domainVerified: bool)

  /** A row of `students`, owned by the educator whose id is `educatorId`. */
  datatype StudentRow = StudentRow(
    id: string,
    email: string,
    passwordHash: Option<Bcrypt.Digest>,
    name: Option<string>,
    educatorId: string)

  /** A snapshot of both tables. */
  datatype Db = Db(educators: seq<EducatorRow>, students: seq<StudentRow>)

  /** Some educator has the id `id`. */
  ghost predicate HasEducator(db: Db, id: string) {
    exists j :: 0 <= j < |db.educators| && db.educators[j].id == id
  }

  /** The foreign key of `students.educator_id`: every student's owner exists. */
  ghost predicate OwnersExist(db: Db) {
    forall i :: 0 <= i < |db.students| ==> HasEducator(db, db.students[i].educatorId)
  }

  /** `educator_account.id` is the primary key: no two educators share an id. */
  ghost predicate EducatorIdsUnique(db: Db) {
    forall i, j :: 0 <= i < j < |db.educators| ==> db.educators[i].id != db.educators[j].id
  }

  /** `findFirst`: the first row in table order that matches, or none. */
  function FirstWhere<T(==)>(rows: seq<T>, matches: T -> bool): (r: Option<T>)
    ensures r.None? <==> forall i :: 0 <= i < |rows| ==> !matches(rows[i])
    ensures r.Some? ==> exists i ::
      && 0 <= i < |rows| && rows[i] == r.value && matches(r.value)
      && forall j :: 0 <= j < i ==> !matches(rows[j])
  {
    if rows == [] then None
    else if matches(rows[0]) then Some(rows[0])
    else
      var r := FirstWhere(rows[1..], matches);
      assert forall j :: 1 <= j < |rows| ==> rows[j] == rows[1..][j - 1];
      if r.Some? then
        var i :| 0 <= i < |rows[1..]| && rows[1..][i] == r.value && matches(r.value)
          && forall j :: 0 <= j < i ==> !matches(rows[1..][j]);
        assert rows[i + 1] == r.value;
        r
      else
        r
  }

  /** A match in an appended row is found only when the earlier rows have none. */
  lemma {:induction false} FirstWhereAppend<T>(rows: seq<T>, row: T, matches: T -> bool)
    ensures FirstWhere(rows + [row], matches) ==
      if FirstWhere(rows, matches).Some? then FirstWhere(rows, matches)
      else if matches(row) then Some(row) else None
  {
    if rows != [] {
      assert (rows + [row])[1..] == rows[1..] + [row];
      FirstWhereAppend(rows[1..], row, matches);
    }
  }

  /** The Prisma client's handle on the two tables. */
  class CredentialStore {
    var educators: seq<EducatorRow>
    var students: seq<StudentRow>

    constructor (db: Db)
      ensures State() == db
    {
      educators := db.educators;
      students := db.students;
    }

    function State(): Db
      reads this
    {
      Db(educators, students)
    }

    /** `prisma.educator_account.create`. */
    method CreateEducator(row: EducatorRow) returns (created: EducatorRow)
      modifies this
      ensures created == row
      ensures educators == old(educators) + [row] && students == old(students)
    {
      educators := educators + [row];
      created := row;
    }

    /** `prisma.students.create`. */
    method CreateStudent(row: StudentRow) returns (created: StudentRow)
      modifies this
      ensures created == row
      ensures students == old(students) + [row] && educators == old(educators)
    {
      students := students + [row];
      created := row;
    }
  }
}
