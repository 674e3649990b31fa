/** The `/auth` handlers (app/routes/auth_route.py): the three-step
    registration protocol over the cache (register, verify, create) and
    login. Results are HTTP status codes. */
module AuthRoute {
  import opened Domain
  import opened Store
  import opened Uploads
  import opened Schemas
  import opened AuthService

  /** Both cache entries are set with a 600 second expiry; the mail
      template's default of 10 minutes says the same. */
  const VerificationTtl: nat := 600

  /** The cache key of a verification token. */
  function TokenKey(token: string): string
  {
    "token:" + token
  }

  /** The cache after `register`: the token is bound to the email. */
  function AfterRegister(c: map<string, Entry>, email: string, token: string): map<string, Entry>
  {
    c[TokenKey(token) := Entry(email, VerificationTtl)]
  }

  /** `verify` accepts when the value cached under the token is the email. */
  predicate VerifyAccepts(c: map<string, Entry>, email: string, token: string)
  {
    Lookup(c, TokenKey(token)) == Some(email)
  }

  /** The cache after a successful `verify`: the token entry is gone and
      the email is bound to the registry token. */
  function AfterVerify(c: map<string, Entry>, email: string, token: string, registryToken: string): map<string, Entry>
  {
    (c - {TokenKey(token)})[email := Entry(registryToken, VerificationTtl)]
  }

  /** `create` accepts when the value cached under the email is the token. */
  predicate CreateAccepts(c: map<string, Entry>, email: string, token: string)
  {
    Lookup(c, email) == Some(token)
  }

  /** `register` (app/routes/auth_route.py:32-59). `token` is the fresh
      `uuid1().hex`; `mailSent` whether the mailer accepts the message.
      `mail` is the token the composed mail carries, whether or not the
      mailer then accepts it. */
  method Register(db: Database, cache: KeyValueCache, email: string, token: string, mailSent: bool)
    returns (code: nat, mail: Option<string>)
    modifies cache
    ensures EmailTaken(db.users, email) ==>
      code == 403 && mail == None && cache.entries == old(cache.entries)
    ensures !EmailTaken(db.users, email) ==>
      && cache.entries == AfterRegister(old(cache.entries), email, token)
      && mail == Some(token)
      && code == (if mailSent then 200 else 500)
  {
    if EmailTaken(db.users, email) {
      return 403, None;
    }
    cache.Set(TokenKey(token), email, VerificationTtl);
    mail := Some(token);
    code := if mailSent then 200 else 500;
  }

  /** `verifyUser` (app/routes/auth_route.py:62-98). `newToken` is the fresh
      `uuid1().hex` handed out as the registry token. */
  method VerifyUser(cache: KeyValueCache, email: string, token: string, newToken: string)
    returns (code: nat, registryToken: Option<string>)
    modifies cache
    ensures !VerifyAccepts(old(cache.entries), email, token) ==>
      code == 403 && registryToken == None && cache.entries == old(cache.entries)
    ensures VerifyAccepts(old(cache.entries), email, token) ==>
      && code == 200
      && registryToken == Some(newToken)
      && cache.entries == AfterVerify(old(cache.entries), email, token, newToken)
  {
    var key := cache.Get(TokenKey(token));
    if key != Some(email) {
      return 403, None;
    }
    cache.Delete(TokenKey(token));
    cache.Set(email, newToken, VerificationTtl);
    code, registryToken := 200, Some(newToken);
  }

  /** The text fields of the `/create` form. */
  datatype SignupForm = SignupForm(
    email: string,
    token: string,
    username: string,
    password: string,
    firstName: string,
    lastName: string)

  /** Every check `createUser` makes before it uploads: the schema, the
      registry token, and (if a profile image part is sent) its name and type. */
  predicate SignupChecksPass(c: map<string, Entry>, form: SignupForm, image: Option<FilePart>, imageTypes: set<string>)
  {
    && ValidUsername(form.username) && ValidPassword(form.password)
    && CreateAccepts(c, form.email, form.token)
    && (image.Some? ==> Accepted(image, imageTypes))
  }

  /** The image descriptor `createUser` stores for an uploaded file. */
  function SignupImage(image: Option<FilePart>, upload: Blob): Option<Image>
  {
    if image.Some? then Some(Image(upload.fileId, upload.url, false)) else None
  }

  /** `createUser` (app/routes/auth_route.py:100-197). `upload` is what the
      storage returns for the profile image, `salt` the bcrypt salt, and
      `storeOk` whether the store accepts the insert for reasons of its own.
      The cache is only read: the registry token is never consumed. */
  method CreateUser(db: Database, cache: KeyValueCache, storage: BlobStorage, form: SignupForm,
                    image: Option<FilePart>, imageTypes: set<string>, upload: Blob, newId: Uuid,
                    salt: string, storeOk: bool) returns (code: nat, created: Option<Uuid>)
    requires db.Valid()
    requires newId !in db.users
    requires upload.fileId !in storage.live
    modifies db, storage
    ensures db.Valid()
    ensures !(ValidUsername(form.username) && ValidPassword(form.password)) ==>
      code == 400 && created == None && db.State() == old(db.State()) && storage.live == old(storage.live)
    ensures !CreateAccepts(cache.entries, form.email, form.token) ==>
      code == 400 && created == None && db.State() == old(db.State()) && storage.live == old(storage.live)
    ensures image.Some? && !Accepted(image, imageTypes) ==>
      code == 400 && created == None && db.State() == old(db.State()) && storage.live == old(storage.live)
    ensures SignupChecksPass(cache.entries, form, image, imageTypes) ==>
      var user := NewUser(form.email, form.password, salt, form.username, form.firstName, form.lastName, SignupImage(image, upload));
      if InsertAccepted(old(db.users), user, storeOk) then
        && code == 201 && created == Some(newId)
        && db.State() == old(db.State()).(users := old(db.users)[newId := user])
        && storage.live == old(storage.live) + (if image.Some? then {upload.fileId} else {})
      else
        // the uploaded image is deleted again
        && code == 500 && created == None
        && db.State() == old(db.State())
        && storage.live == old(storage.live)
  {
    if !(ValidUsername(form.username) && ValidPassword(form.password)) {
      return 400, None;
    }
    var cached := cache.Get(form.email);
    if cached != Some(form.token) {
      return 400, None;
    }
    var uploaded := false;
    if image.Some? {
      if image.value.filename == "" {
        return 400, None;
      }
      if Extension(image.value.filename) !in imageTypes {
        return 400, None;
      }
      storage.Upload(upload);
      uploaded := true;
    }
    var ok := RegisterUser(db, newId, form.email, form.password, salt, form.username,
                           form.firstName, form.lastName, SignupImage(image, upload), storeOk);
    if !ok {
      if uploaded {
        storage.DeleteFile(upload.fileId);
      }
      return 500, None;
    }
    code, created := 201, Some(newId);
  }

  /** `login_user` (app/routes/auth_route.py:199-239): 200 (with session
      cookies, not modelled) exactly when a user has the email and the
      password matches that user's digest; 401 otherwise. */
  function LoginUser(users: map<Uuid, User>, email: string, password: string): (code: nat)
    requires UniqueAccounts(users)
    ensures code == 200 || code == 401
    ensures code == 200 <==> exists id :: id in users && users[id].email == email && CheckPw(password, users[id].password)
  {
    if EmailTaken(users, email) && Login(users, email, password) then 200 else 401
  }

  /** The name of the cookie that carries the refresh token. */
  const RefreshCookie := "refresh_token_cookie"

  /** `check_auth` (app/routes/auth_route.py:263-268): the status is whether
      the request carries a cookie named `refresh_token_cookie`. `cookies`
      maps each cookie name to its value; the value is never read. */
  function CheckAuth(cookies: map<string, string>): (status: bool)
    ensures status <==> RefreshCookie in cookies
  {
    RefreshCookie in cookies
  }

  /** The status does not depend on the refresh cookie's value: a request
      whose cookie holds a forged, expired or empty token reads as logged in
      exactly like one holding a valid token, and no other cookie matters. */
  lemma CheckAuthIgnoresToken(cookies: map<string, string>, forged: string, others: map<string, string>)
    ensures CheckAuth(cookies[RefreshCookie := forged])
    ensures CheckAuth(cookies[RefreshCookie := forged]) == CheckAuth(others[RefreshCookie := ""])
    ensures !CheckAuth(others - {RefreshCookie})
  {
  }

  /** Register followed by verify with the mailed token succeeds, and the
      registry token it hands out is what `create` accepts. */
  lemma RegisterVerifyCreate(c: map<string, Entry>, email: string, token: string, registryToken: string)
    requires email != "" && registryToken != ""
    ensures VerifyAccepts(AfterRegister(c, email, token), email, token)
    ensures CreateAccepts(AfterVerify(AfterRegister(c, email, token), email, token, registryToken), email, registryToken)
  {
  }

  /** A verification token works once: after a successful verify the token
      is refused for every email, the one it was mailed to included. */
  lemma {:induction false} VerifyIsSingleUse(c: map<string, Entry>, email: string, token: string,
                                              registryToken: string, other: string)
    requires VerifyAccepts(c, email, token)
    requires email != TokenKey(token)
    ensures !VerifyAccepts(AfterVerify(c, email, token, registryToken), other, token)
  {
    assert TokenKey(token) !in AfterVerify(c, email, token, registryToken);
  }

  /** Expiry closes both later steps: once the token entry has expired no
      email verifies with the token, and once the email's entry has expired
      no registry token creates the account; every other entry still reads
      as before. */
  lemma ExpiredTokenRefused(c: map<string, Entry>, email: string, token: string, other: string, registryToken: string)
    ensures !VerifyAccepts(c - {TokenKey(token)}, other, token)
    ensures !CreateAccepts(c - {email}, email, registryToken)
    ensures other != TokenKey(token) ==> Lookup(c - {TokenKey(token)}, other) == Lookup(c, other)
  {
  }

  /** The example run: register "a@example.com" with token "T"; verify with
      "X" is refused; verify with "T" succeeds and binds the email to "R";
      create with "R" is accepted, and after the insert the email counts
      as registered, so a second register is refused. */
  lemma RegistrationScenario(c: map<string, Entry>, users: map<Uuid, User>, id: Uuid, salt: string)
    requires TokenKey("X") !in c
    ensures var email := "a@example.com";
      var c1 := AfterRegister(c, email, "T");
      && Lookup(c1, "token:T") == Some(email)
      && !VerifyAccepts(c1, email, "X")
      && VerifyAccepts(c1, email, "T")
      && var c2 := AfterVerify(c1, email, "T", "R");
      && Lookup(c2, email) == Some("R") && "token:T" !in c2
      && CreateAccepts(c2, email, "R")
      && EmailTaken(users[id := NewUser(email, "password1", salt, "a_user", "A", "B", None)], email)
  {
    var users' := users[id := NewUser("a@example.com", "password1", salt, "a_user", "A", "B", None)];
    assert users'[id].email == "a@example.com";
    assert TokenKey("T") == "token:T";
    assert TokenKey("X")[6] != TokenKey("T")[6];
  }
}
