/**
  The session handlers of last-project/src/controllers/authController.ts:
  `login`, `register`, the `protect` guard, `refresh` and `logout`, over the
  users collection. Each handler is one atomic step: it reads the collection
  and either leaves it alone or writes one user's refresh-token slot
  (`register` also inserts the new user first).

  Every handler is given twice: as a function of the collection's contents
  (`LoginOutcome`, ...), which the properties below are stated about, and as a
  method that runs the handler's statements against a `UserCollection`, proved
  to agree with that function.
*/
module AuthController {
  import opened Wrappers
  import opened SeqSearch
  import opened JsText
  import opened Jwt
  import opened UserModel

  /** `process.env.JWT_SECRET`, `process.env.REFRESH_TOKEN` and the two libraries. */
  datatype Env = Env(signer: Signer, hasher: Hasher, jwtSecret: string, refreshSecret: string)

  ghost predicate Sound(env: Env) {
    SignerSound(env.signer) && HasherSound(env.hasher)
  }

  /** `JWT_EXPIRES = "15m"` and `REFRESH_TOKEN_EXPIRES = "7d"`, in seconds. */
  const AccessLifetime: nat := 900
  const RefreshLifetime: nat := 604800

  /** `generateToken(id)`: the access token. */
  function GenerateToken(env: Env, id: UserId, nowMs: nat): string {
    Sign(env.signer, id, env.jwtSecret, AccessLifetime, nowMs)
  }

  /** The refresh token `sendResponse` signs. */
  function IssueRefreshToken(env: Env, id: UserId, nowMs: nat): string {
    Sign(env.signer, id, env.refreshSecret, RefreshLifetime, nowMs)
  }

  /** A user as the handlers send it back: everything but the password. */
  datatype UserView = UserView(id: UserId, name: string, email: string,
                               passwordChangeAt: Option<int>, refreshToken: string)

  function ViewOf(id: UserId, u: User): UserView {
    UserView(id, u.name, u.email, u.passwordChangeAt, u.refreshToken)
  }

  /** An exception that leaves the handler for the global error handler. */
  datatype Uncaught = SaveFailed(error: SaveError) | JwtRejected(verdict: Verdict)

  datatype Reply =
    /** `next(new AppError(message, status))` */
    | Fail(status: nat, message: string)
    | Thrown(error: Uncaught)
    /** `res.status(status).json({ status: "success", token, data: { user } })`,
        with the `jwt` cookie set when `cookie` is present */
    | TokenIssued(status: nat, token: string, user: UserView, cookie: Option<string>)
    /** `req.user = currentUser; next()` */
    | Granted(user: UserView)
    /** `res.status(status).json({ status: "success" })`, after `res.clearCookie("jwt")` when `cookieCleared` */
    | LoggedOut(status: nat, cookieCleared: bool)

  datatype Outcome = Outcome(reply: Reply, users: seq<User>)

  const ProvideCredentials := "Please provide email and password"
  const IncorrectCredentials := "Incorrect email or password"
  const CreationFailed := "Something went wrong"
  const NotLoggedIn := "You are not logged in. Please log in to get access"
  const UserGone := "The user belonging to this token does no longer exist"
  const PasswordChanged := "User recently changed password. Please log in again"
  const RefreshInvalid := "Refresh token is not valid"

  // ---------------------------------------------------------------------------
  // The handlers as functions of the collection
  // ---------------------------------------------------------------------------

  /** The token `protect` takes from the `Authorization` header: the second
      space-separated piece of a header that starts with "Bearer", else none. */
  function BearerToken(header: string): (t: string)
    ensures !StartsWith(header, "Bearer") ==> t == ""
    ensures ' ' !in t
  {
    if StartsWith(header, "Bearer") then
      var parts := Split(header, ' ');
      if |parts| > 1 then parts[1] else ""
    else ""
  }

  /** `sendResponse(res, user, code)`: both tokens are signed, the refresh token
      is written into the user's slot and set as the cookie. */
  function SendResponseOutcome(env: Env, db: seq<User>, id: UserId, view: UserView, code: nat, nowMs: nat): Outcome {
    var refreshToken := IssueRefreshToken(env, id, nowMs);
    Outcome(TokenIssued(code, GenerateToken(env, id, nowMs), view, Some(refreshToken)),
            if id < |db| then db[id := db[id].(refreshToken := refreshToken)] else db)
  }

  function LoginOutcome(env: Env, db: seq<User>, email: string, password: string, nowMs: nat): Outcome {
    if email == "" || password == "" then Outcome(Fail(400, ProvideCredentials), db)
    else
      var i := FirstIndex(db, EmailIs(email));
      if i < 0 || !PasswordMatches(env.hasher, db[i], password) then Outcome(Fail(401, IncorrectCredentials), db)
      else SendResponseOutcome(env, db, i, ViewOf(i, db[i]), 200, nowMs)
  }

  /** What `register` does with the result of `User.create`: nothing created
      gives 400, a created user gets the tokens with status 201. */
  function RespondToNewUser(env: Env, db: seq<User>, newUser: Option<(UserId, User)>, nowMs: nat): Outcome {
    match newUser
    case None => Outcome(Fail(400, CreationFailed), db)
    case Some(created) => SendResponseOutcome(env, db, created.0, ViewOf(created.0, created.1), 201, nowMs)
  }

  function RegisterOutcome(env: Env, db: seq<User>, email: string, password: string, name: string,
                           nowMs: nat, salt: nat): Outcome
  {
    match SaveOutcome(env.hasher, db, 0, User(name, email, password, None, ""), true, true, nowMs, salt)
    case Rejected(e) => Outcome(Thrown(SaveFailed(e)), db)
    case Saved(id, created) => RespondToNewUser(env, created, Some((id, created[id])), nowMs)
  }

  function ProtectOutcome(env: Env, db: seq<User>, authorization: string, nowMs: nat): Reply {
    var token := BearerToken(authorization);
    if token == "" then Fail(401, NotLoggedIn)
    else
      match Verify(env.signer, token, env.jwtSecret, nowMs)
      case Valid(decoded) =>
        if decoded.id >= |db| then Fail(401, UserGone)
        else if ChangedPasswordAfter(db[decoded.id], decoded.iat) then Fail(401, PasswordChanged)
        else Granted(ViewOf(decoded.id, db[decoded.id]))
      case verdict => Thrown(JwtRejected(verdict))
  }

  function RefreshOutcome(env: Env, db: seq<User>, cookie: string, nowMs: nat): Reply {
    if cookie == "" then Fail(401, NotLoggedIn)
    else
      match Verify(env.signer, cookie, env.refreshSecret, nowMs)
      case Valid(decoded) =>
        if decoded.id < |db| then TokenIssued(200, GenerateToken(env, decoded.id, nowMs), ViewOf(decoded.id, db[decoded.id]), None)
        else Fail(403, RefreshInvalid)
      case _ => Fail(403, RefreshInvalid)
  }

  function LogoutOutcome(db: seq<User>, cookie: string): Outcome {
    if cookie == "" then Outcome(LoggedOut(204, false), db)
    else
      var i := FirstIndex(db, RefreshTokenIs(cookie));
      if i < 0 then Outcome(LoggedOut(204, true), db)
      else Outcome(LoggedOut(200, true), db[i := db[i].(refreshToken := "")])
  }

  // ---------------------------------------------------------------------------
  // The handlers as statements over the collection
  // ---------------------------------------------------------------------------

  method SendResponse(env: Env, store: UserCollection, user: UserDocument, code: nat, nowMs: nat) returns (r: Reply)
    requires store.Valid()
    modifies store
    ensures store.Valid()
    ensures Outcome(r, store.users)
            == SendResponseOutcome(env, old(store.users), user.id, ViewOf(user.id, user.Fields()), code, nowMs)
  {
    var token := GenerateToken(env, user.id, nowMs);
    var refreshToken := IssueRefreshToken(env, user.id, nowMs);
    store.FindByIdAndUpdateRefreshToken(user.id, refreshToken);
    r := TokenIssued(code, token, ViewOf(user.id, user.Fields()), Some(refreshToken));
  }

  method Login(env: Env, store: UserCollection, email: string, password: string, nowMs: nat) returns (r: Reply)
    requires store.Valid()
    modifies store
    ensures store.Valid()
    ensures Outcome(r, store.users) == LoginOutcome(env, old(store.users), email, password, nowMs)
  {
    if email == "" || password == "" {
      return Fail(400, ProvideCredentials);
    }
    var user := store.FindOne(EmailIs(email));
    if user == null || !user.ComparePassword(env.hasher, password) {
      return Fail(401, IncorrectCredentials);
    }
    r := SendResponse(env, store, user, 200, nowMs);
  }

  method Register(env: Env, store: UserCollection, email: string, password: string, name: string,
                  nowMs: nat, salt: nat) returns (r: Reply)
    requires store.Valid()
    modifies store
    ensures store.Valid()
    ensures Outcome(r, store.users) == RegisterOutcome(env, old(store.users), email, password, name, nowMs, salt)
  {
    var newUser, err := store.Create(env.hasher, name, email, password, nowMs, salt);
    if err.Some? {
      return Thrown(SaveFailed(err.value));
    }
    r := SendResponse(env, store, newUser, 201, nowMs);
  }

  method Protect(env: Env, store: UserCollection, authorization: string, nowMs: nat) returns (r: Reply)
    ensures r == ProtectOutcome(env, store.users, authorization, nowMs)
  {
    var token := BearerToken(authorization);
    if token == "" {
      return Fail(401, NotLoggedIn);
    }
    var decoded := Verify(env.signer, token, env.jwtSecret, nowMs);
    if !decoded.Valid? {
      return Thrown(JwtRejected(decoded));
    }
    var currentUser := store.FindById(decoded.claims.id);
    if currentUser == null {
      return Fail(401, UserGone);
    }
    if ChangedPasswordAfter(currentUser.Fields(), decoded.claims.iat) {
      return Fail(401, PasswordChanged);
    }
    r := Granted(ViewOf(currentUser.id, currentUser.Fields()));
  }

  method Refresh(env: Env, store: UserCollection, cookie: string, nowMs: nat) returns (r: Reply)
    ensures r == RefreshOutcome(env, store.users, cookie, nowMs)
  {
    if cookie == "" {
      return Fail(401, NotLoggedIn);
    }
    var decoded := Verify(env.signer, cookie, env.refreshSecret, nowMs);
    if !decoded.Valid? {
      return Fail(403, RefreshInvalid);
    }
    var existingUser := store.FindById(decoded.claims.id);
    if existingUser == null {
      return Fail(403, RefreshInvalid);
    }
    var token := GenerateToken(env, existingUser.id, nowMs);
    r := TokenIssued(200, token, ViewOf(existingUser.id, existingUser.Fields()), None);
  }

  method Logout(env: Env, store: UserCollection, cookie: string, nowMs: nat, salt: nat) returns (r: Reply)
    requires store.Valid()
    modifies store
    ensures store.Valid()
    ensures Outcome(r, store.users) == LogoutOutcome(old(store.users), cookie)
  {
    if cookie == "" {
      return LoggedOut(204, false);
    }
    var user := store.FindOne(RefreshTokenIs(cookie));
    if user == null {
      return LoggedOut(204, true);
    }
    user.SetRefreshToken("");
    var _ := store.Save(env.hasher, user, nowMs, salt);
    r := LoggedOut(200, true);
  }

  // ---------------------------------------------------------------------------
  // The Authorization header
  // ---------------------------------------------------------------------------

  /** A `Bearer <token>` header yields the token. */
  lemma BearerTokenOfHeader(t: string)
    requires ' ' !in t
    ensures BearerToken("Bearer " + t) == t
  {
    assert "Bearer " + t == "Bearer" + [' '] + t;
    SplitAfterWord("Bearer", ' ', t);
    SplitNoSeparator(t, ' ');
  }

  /** The extraction is looser and stricter than the scheme of RFC 6750,
      section 2.1, in three ways: any word that begins with "Bearer" is taken as
      the scheme, the scheme is case-sensitive, and a second space before the
      token leaves no token at all. */
  lemma BearerTokenQuirks(t: string)
    requires ' ' !in t
    ensures BearerToken("Bearerish " + t) == t
    ensures BearerToken("bearer " + t) == ""
    ensures BearerToken("Bearer  " + t) == ""
  {
    assert "Bearerish " + t == "Bearerish" + [' '] + t;
    SplitAfterWord("Bearerish", ' ', t);
    SplitNoSeparator(t, ' ');
    assert !StartsWith("bearer " + t, "Bearer") by {
      assert ("bearer " + t)[0] != "Bearer"[0];
    }
    assert "Bearer  " + t == "Bearer" + [' '] + ("" + [' '] + t);
    SplitAfterWord("Bearer", ' ', "" + [' '] + t);
    SplitAfterWord("", ' ', t);
  }

  // ---------------------------------------------------------------------------
  // login
  // ---------------------------------------------------------------------------

  /** `db2` is `db` with user `i`'s refresh-token slot set to `t` and nothing else changed. */
  predicate SlotRewritten(db: seq<User>, db2: seq<User>, i: int, t: string) {
    0 <= i < |db| && db2 == db[i := db[i].(refreshToken := t)]
  }

  /** `login` either refuses and leaves the collection alone, or answers 200
      and writes the cookie it sets into the slot of the user it found, and
      nowhere else. */
  lemma LoginWritesOnlyTheSlot(env: Env, db: seq<User>, email: string, password: string, nowMs: nat)
    ensures var o := LoginOutcome(env, db, email, password, nowMs);
            && (o.reply.Fail? || o.reply.TokenIssued?)
            && (o.reply.Fail? ==> o.users == db)
            && (o.reply.TokenIssued? ==>
                  && o.reply.status == 200 && o.reply.cookie.Some?
                  && SlotRewritten(db, o.users, FirstIndex(db, EmailIs(email)), o.reply.cookie.value))
  {
  }

  /** Without both credentials `login` answers 400; an unknown email and a wrong
      password get the same 401, so the reply does not tell them apart. */
  lemma LoginRefusals(env: Env, db: seq<User>, email: string, password: string, nowMs: nat)
    ensures email == "" || password == "" ==>
              LoginOutcome(env, db, email, password, nowMs) == Outcome(Fail(400, ProvideCredentials), db)
    ensures email != "" && password != "" &&
            (forall i :: 0 <= i < |db| && db[i].email == email ==> !PasswordMatches(env.hasher, db[i], password)) ==>
              LoginOutcome(env, db, email, password, nowMs) == Outcome(Fail(401, IncorrectCredentials), db)
  {
  }

  /** With the right password, `login` signs in the one user with that email:
      a 15-minute access token for that user, the user without the password,
      and the new refresh token both as the cookie and in that user's slot. */
  lemma LoginSucceeds(env: Env, db: seq<User>, email: string, password: string, nowMs: nat, i: nat)
    requires UniqueEmails(db)
    requires email != "" && password != ""
    requires i < |db| && db[i].email == email && PasswordMatches(env.hasher, db[i], password)
    ensures var o := LoginOutcome(env, db, email, password, nowMs);
            && o.reply == TokenIssued(200, GenerateToken(env, i, nowMs), ViewOf(i, db[i]),
                                      Some(IssueRefreshToken(env, i, nowMs)))
            && SlotRewritten(db, o.users, i, IssueRefreshToken(env, i, nowMs))
            && (SignerSound(env.signer) ==> o.reply.token != "")
  {
  }

  // ---------------------------------------------------------------------------
  // register
  // ---------------------------------------------------------------------------

  /** A missing result from `User.create` answers 400 and changes nothing; a
      created user is answered with 201. */
  lemma RespondToNewUserCases(env: Env, db: seq<User>, newUser: Option<(UserId, User)>, nowMs: nat)
    ensures var o := RespondToNewUser(env, db, newUser, nowMs);
            && (newUser.None? <==> o.reply.Fail?)
            && (newUser.None? ==> o.reply.status == 400 && o.users == db)
            && (newUser.Some? ==> o.reply.TokenIssued? && o.reply.status == 201
                                  && o.reply.user == ViewOf(newUser.value.0, newUser.value.1))
  {
  }

  /** `register` either throws the save error and changes nothing, or appends
      exactly one user: the given name and email, the hashed password, no
      change time, and the refresh token it sets as the cookie; the reply shows
      that user as created, without password or token. */
  lemma RegisterCases(env: Env, db: seq<User>, email: string, password: string, name: string, nowMs: nat, salt: nat)
    ensures var o := RegisterOutcome(env, db, email, password, name, nowMs, salt);
            && (o.reply.Thrown? || o.reply.TokenIssued?)
            && (o.reply.Thrown? ==> o.users == db)
            && (o.reply == Thrown(SaveFailed(ValidationError)) <==> name == "" || email == "" || password == "")
            && (o.reply == Thrown(SaveFailed(DuplicateKey)) <==>
                  name != "" && email != "" && password != ""
                  && exists j :: 0 <= j < |db| && db[j].email == email)
            && (o.reply.TokenIssued? ==>
                  && o.reply.status == 201
                  && o.reply.token == GenerateToken(env, |db|, nowMs)
                  && o.reply.user == UserView(|db|, name, email, None, "")
                  && o.reply.cookie == Some(IssueRefreshToken(env, |db|, nowMs))
                  && o.users == db + [User(name, email, env.hasher.hash(password, salt), None,
                                           IssueRefreshToken(env, |db|, nowMs))])
  {
  }

  /** The user `register` creates can log in with the password it registered with. */
  lemma RegisterThenLogin(env: Env, db: seq<User>, email: string, password: string, name: string,
                          nowMs: nat, salt: nat, loginMs: nat)
    requires HasherSound(env.hasher)
    requires RegisterOutcome(env, db, email, password, name, nowMs, salt).reply.TokenIssued?
    ensures var created := RegisterOutcome(env, db, email, password, name, nowMs, salt).users;
            var o := LoginOutcome(env, created, email, password, loginMs);
            && o.reply.TokenIssued? && o.reply.status == 200 && o.reply.user.id == |db|
            && SlotRewritten(created, o.users, |db|, IssueRefreshToken(env, |db|, loginMs))
  {
    RegisterCases(env, db, email, password, name, nowMs, salt);
    var created := RegisterOutcome(env, db, email, password, name, nowMs, salt).users;
    assert EmailIs(email)(created[|db|]);
    forall j | 0 <= j < |db| ensures !EmailIs(email)(created[j]) {
      assert created[j] == db[j];
    }
    assert FirstIndex(created, EmailIs(email)) == |db|;
    assert PasswordMatches(env.hasher, created[|db|], password);
  }

  // ---------------------------------------------------------------------------
  // protect
  // ---------------------------------------------------------------------------

  /** `protect` lets a request through exactly when the access token verifies
      and has not expired, its user still exists and has not changed the
      password since the token was signed; the request then carries that user. */
  lemma ProtectGrantsOnlyLiveTokens(env: Env, db: seq<User>, authorization: string, nowMs: nat)
    ensures var r := ProtectOutcome(env, db, authorization, nowMs);
            var v := Verify(env.signer, BearerToken(authorization), env.jwtSecret, nowMs);
            && (r.Granted? <==>
                  && BearerToken(authorization) != "" && v.Valid? && v.claims.id < |db|
                  && !ChangedPasswordAfter(db[v.claims.id], v.claims.iat))
            && (r.Granted? ==> r.user == ViewOf(v.claims.id, db[v.claims.id]))
  {
  }

  /** Each verdict on a bearer token, and each answer about its user, leads to
      its own reply: a rejected token is thrown, a token whose user is gone and
      one signed before a password change get their own 401s. */
  lemma ProtectCases(env: Env, db: seq<User>, authorization: string, nowMs: nat)
    requires BearerToken(authorization) != ""
    ensures var r := ProtectOutcome(env, db, authorization, nowMs);
            var v := Verify(env.signer, BearerToken(authorization), env.jwtSecret, nowMs);
            && (!v.Valid? ==> r == Thrown(JwtRejected(v)))
            && (v.Valid? && v.claims.id >= |db| ==> r == Fail(401, UserGone))
            && (v.Valid? && v.claims.id < |db| && ChangedPasswordAfter(db[v.claims.id], v.claims.iat) ==>
                     r == Fail(401, PasswordChanged))
            && (v.Valid? && v.claims.id < |db| && !ChangedPasswordAfter(db[v.claims.id], v.claims.iat) ==>
                     r == Granted(ViewOf(v.claims.id, db[v.claims.id])))
  {
  }

  /** A request whose header yields no token (none at all, one that does not
      start with "Bearer", or nothing after the first space) is refused with 401
      before any token check. */
  lemma ProtectWithoutToken(env: Env, db: seq<User>, authorization: string, nowMs: nat)
    requires BearerToken(authorization) == ""
    ensures ProtectOutcome(env, db, authorization, nowMs) == Fail(401, NotLoggedIn)
  {
  }

  /** An access token from `login` or `register` gets its user through for 15
      minutes, as long as the password was not changed after it was signed;
      from then on it is rejected as expired. */
  lemma ProtectAcceptsIssuedToken(env: Env, db: seq<User>, id: UserId, issueMs: nat, nowMs: nat)
    requires Sound(env)
    requires id < |db|
    requires !ChangedPasswordAfter(db[id], Seconds(issueMs))
    ensures ProtectOutcome(env, db, "Bearer " + GenerateToken(env, id, issueMs), nowMs)
            == if Seconds(nowMs) < Seconds(issueMs) + AccessLifetime then Granted(ViewOf(id, db[id]))
               else Thrown(JwtRejected(Expired))
  {
    var token := GenerateToken(env, id, issueMs);
    assert IsCompact(token);
    assert ' ' !in token by {
      forall k | 0 <= k < |token| ensures token[k] != ' ' { assert IsCompactChar(token[k]); }
    }
    BearerTokenOfHeader(token);
    VerifySigned(env.signer, id, env.jwtSecret, AccessLifetime, issueMs, nowMs);
  }

  /** After the user's password is changed and saved at `saveMs`, an unexpired
      access token signed earlier is refused exactly when it was signed more
      than a second before the save (the change time is backdated by one
      second, and `iat` is in whole seconds). An empty new password is refused
      by the `required` validator and saves nothing. */
  lemma ProtectAfterPasswordChange(env: Env, db: seq<User>, id: UserId, issueMs: nat, saveMs: nat,
                                   newPassword: string, salt: nat, nowMs: nat)
    requires Sound(env)
    requires id < |db|
    requires Seconds(nowMs) < Seconds(issueMs) + AccessLifetime
    ensures var r := SaveOutcome(env.hasher, db, id, db[id].(password := newPassword), false, true, saveMs, salt);
            newPassword == "" ==> r == Rejected(ValidationError)
    ensures var r := SaveOutcome(env.hasher, db, id, db[id].(password := newPassword), false, true, saveMs, salt);
            newPassword != "" ==>
            && r.Saved?
            && ProtectOutcome(env, r.users, "Bearer " + GenerateToken(env, id, issueMs), nowMs)
               == if Seconds(issueMs) * 1000 + 1000 < saveMs then Fail(401, PasswordChanged)
                  else Granted(ViewOf(id, r.users[id]))
  {
    if newPassword == "" {
      return;
    }
    var u := db[id].(password := newPassword);
    var r := SaveOutcome(env.hasher, db, id, u, false, true, saveMs, salt);
    var v := PreSave(env.hasher, u, false, true, saveMs, salt);
    assert r.users[id].passwordChangeAt == v.passwordChangeAt;
    StaleAfterPasswordChange(env.hasher, u, saveMs, salt, Seconds(issueMs));
    ChangedPasswordAfterInMs(v, Seconds(issueMs));
    ChangedPasswordAfterInMs(r.users[id], Seconds(issueMs));
    var token := GenerateToken(env, id, issueMs);
    assert IsCompact(token);
    assert ' ' !in token by {
      forall k | 0 <= k < |token| ensures token[k] != ' ' { assert IsCompactChar(token[k]); }
    }
    BearerTokenOfHeader(token);
    VerifySigned(env.signer, id, env.jwtSecret, AccessLifetime, issueMs, nowMs);
  }

  // ---------------------------------------------------------------------------
  // refresh
  // ---------------------------------------------------------------------------

  /** `refresh` never looks at the refresh-token slots: rewriting any slot does
      not change whether it issues a token, nor the token it issues. */
  lemma RefreshIgnoresSlots(env: Env, db: seq<User>, cookie: string, nowMs: nat, i: nat, slot: string)
    requires i < |db|
    ensures var before := RefreshOutcome(env, db, cookie, nowMs);
            var after := RefreshOutcome(env, db[i := db[i].(refreshToken := slot)], cookie, nowMs);
            && (before.TokenIssued? <==> after.TokenIssued?)
            && (before.TokenIssued? ==> after.token == before.token && after.status == 200)
            && (!before.TokenIssued? ==> after == before)
  {
  }

  /** A missing cookie gives 401; a cookie that does not verify under the
      refresh secret, or whose user does not exist, gives 403; otherwise a new
      access token for that user, with no new cookie. */
  lemma RefreshCases(env: Env, db: seq<User>, cookie: string, nowMs: nat)
    ensures var r := RefreshOutcome(env, db, cookie, nowMs);
            var v := Verify(env.signer, cookie, env.refreshSecret, nowMs);
            && (cookie == "" ==> r == Fail(401, NotLoggedIn))
            && (cookie != "" && !v.Valid? ==> r == Fail(403, RefreshInvalid))
            && (cookie != "" && v.Valid? && v.claims.id >= |db| ==> r == Fail(403, RefreshInvalid))
            && (cookie != "" && v.Valid? && v.claims.id < |db| ==>
                     r == TokenIssued(200, GenerateToken(env, v.claims.id, nowMs), ViewOf(v.claims.id, db[v.claims.id]), None))
  {
  }

  /** A refresh token that `login` or `register` issued gets a new 15-minute
      access token (and no new cookie) for seven days, whatever the slots hold;
      after that it is refused with 403. */
  lemma RefreshAcceptsIssuedToken(env: Env, db: seq<User>, id: UserId, issueMs: nat, nowMs: nat)
    requires Sound(env)
    requires id < |db|
    ensures RefreshOutcome(env, db, IssueRefreshToken(env, id, issueMs), nowMs)
            == if Seconds(nowMs) < Seconds(issueMs) + RefreshLifetime
               then TokenIssued(200, GenerateToken(env, id, nowMs), ViewOf(id, db[id]), None)
               else Fail(403, RefreshInvalid)
  {
  }

  /** Logging out does not end the refresh token's life: the cookie from an
      earlier login still gets new access tokens after `logout` cleared its slot. */
  lemma RefreshAfterLogout(env: Env, db: seq<User>, id: UserId, issueMs: nat, nowMs: nat)
    requires Sound(env)
    requires id < |db|
    requires Seconds(nowMs) < Seconds(issueMs) + RefreshLifetime
    ensures var cookie := IssueRefreshToken(env, id, issueMs);
            var loggedOut := LogoutOutcome(db, cookie).users;
            RefreshOutcome(env, loggedOut, cookie, nowMs)
            == TokenIssued(200, GenerateToken(env, id, nowMs), ViewOf(id, loggedOut[id]), None)
  {
  }

  /** With distinct secrets the two kinds of token are not interchangeable: an
      access token is refused by `refresh` with 403, and a refresh token sent
      as a bearer token fails `protect`'s signature check. */
  lemma TokensNotInterchangeable(env: Env, db: seq<User>, id: UserId, issueMs: nat, nowMs: nat)
    requires Sound(env)
    requires env.jwtSecret != env.refreshSecret
    ensures RefreshOutcome(env, db, GenerateToken(env, id, issueMs), nowMs) == Fail(403, RefreshInvalid)
    ensures ProtectOutcome(env, db, "Bearer " + IssueRefreshToken(env, id, issueMs), nowMs)
            == Thrown(JwtRejected(Invalid))
  {
    assert IsCompact(GenerateToken(env, id, issueMs));
    VerifyOtherSecret(env.signer, id, env.jwtSecret, env.refreshSecret, AccessLifetime, issueMs, nowMs);
    var token := IssueRefreshToken(env, id, issueMs);
    assert IsCompact(token);
    assert ' ' !in token by {
      forall k | 0 <= k < |token| ensures token[k] != ' ' { assert IsCompactChar(token[k]); }
    }
    BearerTokenOfHeader(token);
    VerifyOtherSecret(env.signer, id, env.refreshSecret, env.jwtSecret, RefreshLifetime, issueMs, nowMs);
  }

  // ---------------------------------------------------------------------------
  // logout
  // ---------------------------------------------------------------------------

  /** `logout` answers 200 exactly when some slot holds the cookie, and then
      clears the first such slot and nothing else; otherwise it answers 204
      and changes nothing. The cookie is cleared whenever one was sent. */
  lemma LogoutCases(db: seq<User>, cookie: string)
    ensures var o := LogoutOutcome(db, cookie);
            && o.reply.LoggedOut?
            && (o.reply.cookieCleared <==> cookie != "")
            && (o.reply.status == 200 <==> cookie != "" && exists j :: 0 <= j < |db| && db[j].refreshToken == cookie)
            && (o.reply.status == 200 ==> SlotRewritten(db, o.users, FirstIndex(db, RefreshTokenIs(cookie)), ""))
            && (o.reply.status != 200 ==> o.reply.status == 204 && o.users == db)
  {
  }

  // ---------------------------------------------------------------------------
  // The session invariant
  // ---------------------------------------------------------------------------

  /** Every non-empty slot holds a refresh token signed for the user it belongs to. */
  predicate SessionsIssued(env: Env, db: seq<User>) {
    forall i :: 0 <= i < |db| && db[i].refreshToken != "" ==>
      var claims := env.signer.unsign(db[i].refreshToken, env.refreshSecret);
      claims.Some? && claims.value.id == i
  }

  /** Under the invariant no two users hold the same refresh token. */
  lemma SessionSlotsDistinct(env: Env, db: seq<User>, i: nat, j: nat)
    requires SessionsIssued(env, db)
    requires i < |db| && j < |db| && db[i].refreshToken != ""
    requires db[i].refreshToken == db[j].refreshToken
    ensures i == j
  {
  }

  /** `login` keeps the unique email index and the session invariant. */
  lemma LoginKeepsInvariants(env: Env, db: seq<User>, email: string, password: string, nowMs: nat)
    requires Sound(env)
    requires UniqueEmails(db) && SessionsIssued(env, db)
    ensures var db2 := LoginOutcome(env, db, email, password, nowMs).users;
            UniqueEmails(db2) && SessionsIssued(env, db2)
  {
  }

  /** `register` keeps the unique email index and the session invariant. */
  lemma RegisterKeepsInvariants(env: Env, db: seq<User>, email: string, password: string, name: string,
                                nowMs: nat, salt: nat)
    requires Sound(env)
    requires UniqueEmails(db) && SessionsIssued(env, db)
    ensures var db2 := RegisterOutcome(env, db, email, password, name, nowMs, salt).users;
            UniqueEmails(db2) && SessionsIssued(env, db2)
  {
  }

  /** `logout` keeps the unique email index and the session invariant. */
  lemma LogoutKeepsInvariants(env: Env, db: seq<User>, cookie: string)
    requires UniqueEmails(db) && SessionsIssued(env, db)
    ensures var db2 := LogoutOutcome(db, cookie).users;
            UniqueEmails(db2) && SessionsIssued(env, db2)
  {
  }

  /** Under the invariant, logging out twice with the same cookie finds nothing
      to clear the second time and answers 204. */
  lemma LogoutTwice(env: Env, db: seq<User>, cookie: string)
    requires SessionsIssued(env, db)
    requires cookie != ""
    ensures LogoutOutcome(LogoutOutcome(db, cookie).users, cookie).reply == LoggedOut(204, true)
  {
  }
}
