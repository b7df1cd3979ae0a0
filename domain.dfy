/** The user entity and the user repository the authentication service talks
    to. The repository is an in-memory stand-in for the SQL implementation: a
    table of users keyed by email, with a unique key on email, and a fault per
    operation that stands for whatever the database answers with an error. */
module Domain {
  import opened Basics

  /** domain.User */
  datatype User = User(
    id: Uuid,
    email: string,
    passwordHash: string,
    firstName: string,
    lastName: string,
    createdAt: Time,
    updatedAt: Time)

  /** The error, if any, that the database returns for each operation. */
  datatype Faults = Faults(find: Option<Fault>, create: Option<Fault>, delete: Option<Fault>)

  /** The repository's state: its user table and the faults it answers with. */
  datatype Store = Store(users: map<string, User>, faults: Faults)

  /** The error the unique key on email raises for a second row with the same email. */
  const DuplicateEmail := Fault(Database, "duplicate key value violates unique constraint")

  /** Every row sits under its own email: the table has one user per email. */
  predicate Keyed(users: map<string, User>)
  {
    forall e :: e in users ==> users[e].email == e
  }

  /** UserRepository.FindByEmail: the user stored under `email`, None when
      there is none, or the database's error. */
  function Find(st: Store, email: string): (r: Result<Option<User>, Fault>)
    ensures r.Failure? <==> st.faults.find.Some?
    ensures r.Success? ==> (r.value.Some? <==> email in st.users)
    ensures r.Success? && r.value.Some? ==> r.value.value == st.users[email]
    ensures r.Success? && r.value.Some? && Keyed(st.users) ==> r.value.value.email == email
  {
    match st.faults.find
    case Some(f) => Failure(f)
    case None => Success(if email in st.users then Some(st.users[email]) else None)
  }

  /** UserRepository.CreateUser: inserts one row, unless the database fails or
      the email is already taken; a failed insert changes nothing. */
  function Create(st: Store, user: User): (r: (Outcome<Fault>, Store))
    ensures r.0.Pass? <==> st.faults.create.None? && user.email !in st.users
    ensures r.0.Pass? ==> r.1 == st.(users := st.users[user.email := user])
    ensures Keyed(st.users) ==> Keyed(r.1.users)
    ensures r.0.Fail? ==> r.1 == st
    ensures st.faults.create.None? && user.email in st.users ==> r.0 == Fail(DuplicateEmail)
  {
    match st.faults.create
    case Some(f) => (Fail(f), st)
    case None =>
      if user.email in st.users then (Fail(DuplicateEmail), st)
      else (Pass, st.(users := st.users[user.email := user]))
  }

  /** UserRepository.Delete: removes every row with the given id (none is not
      an error), unless the database fails. */
  function Remove(st: Store, id: Uuid): (r: (Outcome<Fault>, Store))
    ensures r.0.Pass? <==> st.faults.delete.None?
    ensures r.0.Fail? ==> r.1 == st
    ensures r.1.faults == st.faults
    ensures r.0.Pass? ==> forall e :: e in r.1.users <==> e in st.users && st.users[e].id != id
    ensures forall e :: e in r.1.users ==> e in st.users && r.1.users[e] == st.users[e]
    ensures Keyed(st.users) ==> Keyed(r.1.users)
  {
    match st.faults.delete
    case Some(f) => (Fail(f), st)
    case None => (Pass, st.(users := map e | e in st.users && st.users[e].id != id :: st.users[e]))
  }

  /** The repository object the service holds. Its table keeps every row
      under the row's own email, as a lookup `WHERE email = $1` sees it. */
  class UserRepository {
    var users: map<string, User>
    var faults: Faults

    ghost predicate Valid()
      reads this
    {
      Keyed(users)
    }

    constructor (users: map<string, User>, faults: Faults)
      requires Keyed(users)
      ensures Valid() && State() == Store(users, faults)
    {
      this.users := users;
      this.faults := faults;
    }

    function State(): Store
      reads this
    {
      Store(users, faults)
    }

    method FindByEmail(email: string) returns (r: Result<Option<User>, Fault>)
      ensures r == Find(State(), email)
    {
      if faults.find.Some? {
        return Failure(faults.find.value);
      }
      if email in users {
        return Success(Some(users[email]));
      }
      return Success(None);
    }

    method CreateUser(user: User) returns (r: Outcome<Fault>)
      requires Valid()
      modifies this
      ensures Valid()
      ensures (r, State()) == Create(old(State()), user)
    {
      if faults.create.Some? {
        return Fail(faults.create.value);
      }
      if user.email in users {
        return Fail(DuplicateEmail);
      }
      users := users[user.email := user];
      return Pass;
    }

    method Delete(id: Uuid) returns (r: Outcome<Fault>)
      requires Valid()
      modifies this
      ensures Valid()
      ensures (r, State()) == Remove(old(State()), id)
    {
      if faults.delete.Some? {
        return Fail(faults.delete.value);
      }
      users := map e | e in users && users[e].id != id :: users[e];
      return Pass;
    }
  }
}
