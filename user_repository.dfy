/** The user table behind `UserRepository`: rows keyed by id, with `email` and `username`
    unique columns as the database enforces them. */
module UserStore {
  import opened Outcomes

  datatype User = User(id: string, email: string, username: string, password: string)

  /** Every row sits under its own id; no two rows share an email or a username. */
  ghost predicate WellFormed(rows: map<string, User>) {
    && (forall id :: id in rows ==> rows[id].id == id)
    && (forall a, b :: a in rows && b in rows && rows[a].email == rows[b].email ==> a == b)
    && (forall a, b :: a in rows && b in rows && rows[a].username == rows[b].username ==> a == b)
  }

  predicate EmailTaken(rows: map<string, User>, email: string) {
    exists id :: id in rows && rows[id].email == email
  }

  predicate UsernameTaken(rows: map<string, User>, username: string) {
    exists id :: id in rows && rows[id].username == username
  }

  /** The one row whose email is `email`. */
  ghost function WithEmail(rows: map<string, User>, email: string): (u: User)
    requires EmailTaken(rows, email)
    ensures u in rows.Values && u.email == email
  {
    var id :| id in rows && rows[id].email == email; rows[id]
  }

  /** Adding a user whose email and username are new keeps both columns unique. */
  lemma InsertKeepsWellFormed(rows: map<string, User>, u: User)
    requires WellFormed(rows) && u.id !in rows
    requires !EmailTaken(rows, u.email) && !UsernameTaken(rows, u.username)
    ensures WellFormed(rows[u.id := u])
  {
  }

  class UserRepository {
    var rows: map<string, User>

    ghost predicate Valid()
      reads this
    {
      WellFormed(rows)
    }

    constructor ()
      ensures Valid() && rows == map[]
    {
      rows := map[];
    }

    /** `prisma.user.create`: the database rejects (None) a duplicate email or username. */
    method Create(id: string, email: string, username: string, password: string) returns (r: Option<User>)
      requires Valid() && id !in rows
      modifies this
      ensures Valid()
      ensures r.Some? <==> !EmailTaken(old(rows), email) && !UsernameTaken(old(rows), username)
      ensures r.Some? ==> r.value == User(id, email, username, password) && rows == old(rows)[id := r.value]
      ensures r.None? ==> rows == old(rows)
    {
      if EmailTaken(rows, email) || UsernameTaken(rows, username) {
        r := None;
      } else {
        var u := User(id, email, username, password);
        InsertKeepsWellFormed(rows, u);
        rows := rows[id := u];
        r := Some(u);
      }
    }

    /** `findByEmail`: the row with that email, or None. */
    method FindByEmail(email: string) returns (r: Option<User>)
      requires Valid()
      ensures r.Some? <==> EmailTaken(rows, email)
      ensures r.Some? ==> r.value == WithEmail(rows, email) && rows[r.value.id] == r.value
    {
      if EmailTaken(rows, email) {
        var id :| id in rows && rows[id].email == email;
        r := Some(rows[id]);
        assert rows[WithEmail(rows, email).id] == WithEmail(rows, email);
      } else {
        r := None;
      }
    }

    /** `findByUserName`: the row with that username, or None. */
    method FindByUserName(username: string) returns (r: Option<User>)
      requires Valid()
      ensures r.Some? <==> UsernameTaken(rows, username)
      ensures r.Some? ==> r.value.username == username && r.value.id in rows && rows[r.value.id] == r.value
    {
      if UsernameTaken(rows, username) {
        var id :| id in rows && rows[id].username == username;
        r := Some(rows[id]);
      } else {
        r := None;
      }
    }

    /** `findById`: the row with that id, or None. */
    function FindById(id: string): (r: Option<User>)
      reads this
      requires Valid()
      ensures r.Some? <==> id in rows
      ensures r.Some? ==> r.value == rows[id] && r.value.id == id
    {
      if id in rows then Some(rows[id]) else None
    }
  }
}
