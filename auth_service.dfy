/** `AuthService` (app/services/auth_service.py): inserting a new account
    and checking a password. */
module AuthService {
  import opened Domain
  import opened Store

  predicate EmailTaken(users: map<Uuid, User>, email: string)
  {
    exists id | id in users :: users[id].email == email
  }

  predicate UsernameTaken(users: map<Uuid, User>, username: string)
  {
    exists id | id in users :: users[id].username == username
  }

  /** Inserting a row under a fresh id takes exactly its email and its
      username in addition to those already taken. */
  lemma {:induction false} InsertMarksTaken(users: map<Uuid, User>, id: Uuid, u: User, email: string, username: string)
    requires id !in users
    ensures EmailTaken(users[id := u], email) <==> EmailTaken(users, email) || email == u.email
    ensures UsernameTaken(users[id := u], username) <==> UsernameTaken(users, username) || username == u.username
  {
    var users' := users[id := u];
    assert users'[id] == u;
    if EmailTaken(users, email) {
      var w :| w in users && users[w].email == email;
      assert users'[w] == users[w];
    }
    if EmailTaken(users', email) && email != u.email {
      var w :| w in users' && users'[w].email == email;
      assert w != id && users[w] == users'[w];
    }
    if UsernameTaken(users, username) {
      var w :| w in users && users[w].username == username;
      assert users'[w] == users[w];
    }
    if UsernameTaken(users', username) && username != u.username {
      var w :| w in users' && users'[w].username == username;
      assert w != id && users[w] == users'[w];
    }
  }

  /** The widths of the user columns (app/models.py:39-45); Postgres
      refuses a longer value. The digest always fits its column. */
  predicate FitsColumns(u: User)
  {
    |u.email| <= 80 && |u.username| <= 45 && |u.firstName| <= 40 && |u.lastName| <= 40
  }

  /** The row `register_user` builds: the password hashed, the profile
      image as given, and the cover "none". */
  function NewUser(email: string, password: string, salt: string, username: string,
                   firstName: string, lastName: string, file: Option<Image>): User
  {
    User(email, username, Encode(password, salt), firstName, lastName, "none", file)
  }

  /** Whether the commit of a new row succeeds: the unique columns are free,
      the values fit, and the store does not fail for a reason of its own. */
  predicate InsertAccepted(users: map<Uuid, User>, u: User, storeOk: bool)
  {
    storeOk && !EmailTaken(users, u.email) && !UsernameTaken(users, u.username) && FitsColumns(u)
  }

  /** Adding a user whose email and username are free keeps the store consistent. */
  lemma {:induction false} AddUserKeepsConsistent(t: Tables, id: Uuid, u: User)
    requires Consistent(t)
    requires id !in t.users
    requires !EmailTaken(t.users, u.email) && !UsernameTaken(t.users, u.username)
    ensures Consistent(t.(users := t.users[id := u]))
  {
    var t' := t.(users := t.users[id := u]);
    forall a, b | a in t'.users && b in t'.users && a != b
      ensures t'.users[a].email != t'.users[b].email && t'.users[a].username != t'.users[b].username
    {
      if a == id {
        assert b in t.users;
      } else if b == id {
        assert a in t.users;
      }
    }
    forall v | v in t'.videos
      ensures VideoRowConsistent(t', t'.videos[v])
    {
      assert VideoRowConsistent(t, t.videos[v]);
    }
  }

  /** `register_user` (app/services/auth_service.py:15-45). On success exactly
      one row is added; on any failure the session is rolled back and the
      call raises (`ok` is false). */
  method RegisterUser(db: Database, newId: Uuid, email: string, password: string, salt: string,
                      username: string, firstName: string, lastName: string, file: Option<Image>,
                      storeOk: bool) returns (ok: bool)
    requires db.Valid()
    requires newId !in db.users
    modifies db
    ensures db.Valid()
    ensures ok == InsertAccepted(old(db.users), NewUser(email, password, salt, username, firstName, lastName, file), storeOk)
    ensures ok ==> db.State() == old(db.State()).(users := old(db.users)[newId := NewUser(email, password, salt, username, firstName, lastName, file)])
    ensures ok ==>
      && db.users[newId].password == Encode(password, salt)
      && db.users[newId].cover == "none"
      && db.users[newId].profileImg == file
      && |db.users| == |old(db.users)| + 1
    ensures !ok ==> db.State() == old(db.State())
  {
    var user := NewUser(email, password, salt, username, firstName, lastName, file);
    ok := InsertAccepted(db.users, user, storeOk);
    if ok {
      AddUserKeepsConsistent(db.State(), newId, user);
      db.users := db.users[newId := user];
    }
  }

  /** `AuthService.login` (app/services/auth_service.py:47-56): false when no
      user has the email, otherwise the password check against that
      user's stored digest. */
  function Login(users: map<Uuid, User>, email: string, password: string): (ok: bool)
    requires UniqueAccounts(users)
    ensures !EmailTaken(users, email) ==> !ok
    ensures forall id :: id in users && users[id].email == email ==> (ok <==> CheckPw(password, users[id].password))
  {
    exists id | id in users && users[id].email == email :: CheckPw(password, users[id].password)
  }

  /** A user just registered can log in with the password they chose. */
  lemma RegisteredUserCanLogIn(t: Tables, id: Uuid, email: string, password: string, salt: string,
                               username: string, firstName: string, lastName: string, file: Option<Image>)
    requires Consistent(t) && id !in t.users
    requires InsertAccepted(t.users, NewUser(email, password, salt, username, firstName, lastName, file), true)
    ensures UniqueAccounts(t.users[id := NewUser(email, password, salt, username, firstName, lastName, file)])
    ensures Login(t.users[id := NewUser(email, password, salt, username, firstName, lastName, file)], email, password)
  {
    var u := NewUser(email, password, salt, username, firstName, lastName, file);
    AddUserKeepsConsistent(t, id, u);
    var users := t.users[id := u];
    assert id in users && users[id].email == email && CheckPw(password, users[id].password);
  }
}
