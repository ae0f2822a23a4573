/**
  The user store behind the controller's user service: user records keyed by
  username, with an index from email to username for the email lookups. The
  database and the password hashing are outside this model; hashing is an
  abstract encoder.
*/
module UserStore {
  import opened Wrappers

  datatype User = User(
    username: string,
    email: string,
    password: string,  // the stored hash
    active: bool,      // the email address has been confirmed
    status: bool,      // the account is not banned
    role: string)

  datatype Store = Store(users: map<string, User>, byEmail: map<string, string>)

  const Empty: Store := Store(map[], map[])

  /**
    Every record is filed under its own username and is reachable from its own
    email, and every email in the index leads to a record with that email. In
    particular no two users share an email.
  */
  ghost predicate Consistent(s: Store) {
    && (forall u :: u in s.users ==>
          s.users[u].username == u && s.users[u].email in s.byEmail && s.byEmail[s.users[u].email] == u)
    && (forall e :: e in s.byEmail ==> s.byEmail[e] in s.users && s.users[s.byEmail[e]].email == e)
  }

  /**
    Whether some user is registered with `email`. In a consistent store the
    index says yes exactly when some record carries that email.
  */
  predicate ExistsByEmail(s: Store, email: string)
    ensures Consistent(s) ==>
              (ExistsByEmail(s, email) <==> exists u :: u in s.users && s.users[u].email == email)
  {
    email in s.byEmail
  }

  /** Whether a user is filed under `username`; in a consistent store, whether some record has that username. */
  predicate ExistsByUsername(s: Store, username: string)
    ensures Consistent(s) ==>
              (ExistsByUsername(s, username) <==> exists u :: u in s.users && s.users[u].username == username)
  {
    username in s.users
  }

  /** The stored record filed under `username`, if any. */
  function FindByUsername(s: Store, username: string): (r: Option<User>)
    ensures r.Some? <==> ExistsByUsername(s, username)
    ensures r.Some? ==> r.value == s.users[username]
    ensures Consistent(s) && r.Some? ==> r.value.username == username
  {
    if username in s.users then Some(s.users[username]) else None
  }

  /** The user registered with `email`. */
  function GetUser(s: Store, email: string): (u: User)
    requires Consistent(s) && ExistsByEmail(s, email)
    ensures u.email == email
    ensures u.username in s.users && s.users[u.username] == u
  {
    s.users[s.byEmail[email]]
  }

  /**
    Adds a user record under its username and binds its email to that
    username; every other record and email binding stays as it was.
  */
  function SaveUser(s: Store, u: User): (t: Store)
    ensures t.users.Keys == s.users.Keys + {u.username} && t.users[u.username] == u
    ensures t.byEmail.Keys == s.byEmail.Keys + {u.email} && t.byEmail[u.email] == u.username
    ensures forall v :: v in s.users && v != u.username ==> t.users[v] == s.users[v]
    ensures forall e :: e in s.byEmail && e != u.email ==> t.byEmail[e] == s.byEmail[e]
  {
    Store(s.users[u.username := u], s.byEmail[u.email := u.username])
  }

  /** Sets the `active` flag of one user; nothing else in the store changes. */
  function UpdateActive(s: Store, username: string): (t: Store)
    requires username in s.users
    ensures t.byEmail == s.byEmail && t.users.Keys == s.users.Keys
    ensures t.users[username] == s.users[username].(active := true)
    ensures forall v :: v in s.users && v != username ==> t.users[v] == s.users[v]
  {
    Store(s.users[username := s.users[username].(active := true)], s.byEmail)
  }

  /** Replaces the stored hash of one user; nothing else in the store changes. */
  function UpdateUserPassword(s: Store, username: string, hash: string): (t: Store)
    requires username in s.users
    ensures t.byEmail == s.byEmail && t.users.Keys == s.users.Keys
    ensures t.users[username] == s.users[username].(password := hash)
    ensures forall v :: v in s.users && v != username ==> t.users[v] == s.users[v]
  {
    Store(s.users[username := s.users[username].(password := hash)], s.byEmail)
  }

  /** Saving a user whose username and email are both unused keeps the store consistent. */
  lemma SaveUserConsistent(s: Store, u: User)
    requires Consistent(s) && u.username !in s.users && u.email !in s.byEmail
    ensures Consistent(SaveUser(s, u))
  {
    var t := SaveUser(s, u);
    forall v | v in t.users
      ensures t.users[v].username == v && t.users[v].email in t.byEmail && t.byEmail[t.users[v].email] == v
    {
      if v != u.username {
        var w := s.users[v];
        assert t.users[v] == w;
        assert w.email in s.byEmail && s.byEmail[w.email] == v;
        assert w.email != u.email;
      }
    }
    forall e | e in t.byEmail
      ensures t.byEmail[e] in t.users && t.users[t.byEmail[e]].email == e
    {
      if e != u.email {
        var v := s.byEmail[e];
        assert v in s.users && s.users[v].email == e;
        assert v != u.username;
      }
    }
  }

  /** Saving a user under an unused username adds exactly one record. */
  lemma SaveUserAddsOne(s: Store, u: User)
    requires u.username !in s.users
    ensures SaveUser(s, u).users.Keys == s.users.Keys + {u.username}
    ensures |SaveUser(s, u).users| == |s.users| + 1
  {
    assert SaveUser(s, u).users.Keys == s.users.Keys + {u.username};
  }

  /** Changing a user's flags or password leaves the username and email index intact. */
  lemma UpdateActiveConsistent(s: Store, username: string)
    requires Consistent(s) && username in s.users
    ensures Consistent(UpdateActive(s, username))
  {
  }

  lemma UpdateUserPasswordConsistent(s: Store, username: string, hash: string)
    requires Consistent(s) && username in s.users
    ensures Consistent(UpdateUserPassword(s, username, hash))
  {
  }

  /**
    The password hashing the controller relies on: `encode` hashes a plain
    password, `matches` checks a plain password against a stored hash.
  */
  datatype PasswordEncoder = PasswordEncoder(encode: string -> string, matches: (string, string) -> bool)

  /** A password always matches its own hash. */
  ghost predicate Sound(pe: PasswordEncoder) {
    forall p :: pe.matches(p, pe.encode(p))
  }

  /** A hash matches no password other than the one it was made from. */
  ghost predicate Discriminating(pe: PasswordEncoder) {
    forall p, q :: pe.matches(q, pe.encode(p)) ==> q == p
  }
}
