/** The user table (src/users/entities/user.entity.ts) as the account
    services use it, and the JWT payload (`JwtPayloadType` of
    `utils/types`, which is not part of this model: it is taken to hold
    `sub` and `role`, the two fields the services put in it).

    The row at position `i` has the generated id `i + 1`; users are never
    deleted by the services modelled here. The two token columns are read
    and written by the services although the entity file does not declare
    them; they are modelled as nullable strings. */
module UserEntity {
  import opened Wrappers
  import opened Constants

  datatype Account = Account(
    firstName: string,
    lastName: string,
    email: string,
    password: string,
    role: UserRole,
    isActive: bool,
    verificationToken: Option<string>,
    resetPasswordToken: Option<string>)

  datatype JwtPayload = JwtPayload(sub: int, role: UserRole)

  /** `findOne({ where: { id } })`. */
  function FindById(rows: seq<Account>, id: int): (a: Option<Account>)
    ensures a.Some? <==> 1 <= id <= |rows|
    ensures a.Some? ==> a.value == rows[id - 1]
  {
    if 1 <= id <= |rows| then Some(rows[id - 1]) else None
  }

  /** `findOne({ where: { email } })`: the position of the row with that e-mail. */
  function IndexOfEmail(rows: seq<Account>, email: string): (k: Option<nat>)
    ensures k.Some? ==> k.value < |rows| && rows[k.value].email == email
    ensures k.None? <==> forall i :: 0 <= i < |rows| ==> rows[i].email != email
  {
    if rows == [] then None
    else if rows[|rows| - 1].email == email then Some(|rows| - 1)
    else IndexOfEmail(rows[..|rows| - 1], email)
  }

  /** The `unique` constraint of the e-mail column. */
  predicate UniqueEmails(rows: seq<Account>) {
    forall i, j :: 0 <= i < j < |rows| ==> rows[i].email != rows[j].email
  }

  /** With unique e-mails, the lookup by e-mail finds the one row holding it. */
  lemma IndexOfUniqueEmail(rows: seq<Account>, k: nat)
    requires UniqueEmails(rows) && k < |rows|
    ensures IndexOfEmail(rows, rows[k].email) == Some(k)
  {
    assert IndexOfEmail(rows, rows[k].email).Some?;
  }

  /** Saving a row again under its own e-mail keeps the e-mails unique. */
  lemma SameEmailUpdateKeepsUnique(rows: seq<Account>, k: nat, a: Account)
    requires UniqueEmails(rows) && k < |rows| && a.email == rows[k].email
    ensures UniqueEmails(rows[k := a])
  {
    var r := rows[k := a];
    forall i, j | 0 <= i < j < |r| ensures r[i].email != r[j].email {
      assert r[i].email == rows[i].email && r[j].email == rows[j].email;
    }
  }

  /** The users table. */
  class UserRepository {
    var rows: seq<Account>

    /** The table's e-mail column is unique. */
    ghost predicate Valid()
      reads this
    {
      UniqueEmails(rows)
    }

    constructor()
      ensures Valid() && rows == []
    {
      rows := [];
    }
  }
}
