/** The single `User` table behind the auth core, as a store keyed by email.

    The unique index on `email` is what the map's keys express; `nextId` is
    the next primary key the database would assign. Sessions, commits and
    rollbacks collapse into one atomic update. */
module Models {
  import opened Wrappers

  datatype User = User(id: nat, email: string, hashedPassword: Option<string>, role: string, isActive: bool)

  datatype Store = Store(users: map<string, User>, nextId: nat)

  /** Each user is filed under its own email, and primary keys are distinct
      and below the next one to be assigned. */
  ghost predicate Valid(s: Store) {
    && (forall e :: e in s.users ==> s.users[e].email == e && s.users[e].id < s.nextId)
    && (forall e1, e2 :: e1 in s.users && e2 in s.users && e1 != e2 ==> s.users[e1].id != s.users[e2].id)
  }

  /** The users whose email column equals `email`. */
  ghost function WithEmail(s: Store, email: string): (emails: set<string>) {
    set e | e in s.users && s.users[e].email == email
  }

  /** `select(User).where(User.email == email).first()`. */
  function FindByEmail(s: Store, email: string): (r: Option<User>)
    ensures Valid(s) ==> (r.Some? <==> WithEmail(s, email) != {})
    ensures Valid(s) && r.Some? ==> r.value.email == email && r.value in s.users.Values
  {
    if email in s.users then
      assert Valid(s) ==> email in WithEmail(s, email);
      Some(s.users[email])
    else
      None
  }

  /** In a valid store, at most one row carries a given email. */
  lemma UniqueEmail(s: Store, email: string)
    requires Valid(s)
    ensures WithEmail(s, email) == if email in s.users then {email} else {}
  {
  }

  /** `session.add(user); session.commit(); session.refresh(user)` for an
      email not yet present: the row gets the next primary key. */
  function Insert(s: Store, email: string, hashedPassword: Option<string>, role: string, isActive: bool): (r: (Store, User))
    requires email !in s.users
    ensures r.1 == User(s.nextId, email, hashedPassword, role, isActive)
    ensures r.0.users == s.users[email := r.1]
    ensures Valid(s) ==> Valid(r.0) && |r.0.users| == |s.users| + 1
  {
    var u := User(s.nextId, email, hashedPassword, role, isActive);
    (Store(s.users[email := u], s.nextId + 1), u)
  }

}
