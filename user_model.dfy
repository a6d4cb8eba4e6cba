/**
  The User model of the session service (last-project/src/models/user.ts):
  the stored record, the two `pre("save")` hooks, `comparePassword`,
  `changedPasswordAfter`, and the collection the controllers query, with its
  unique email index. Users are never deleted, so a user's id is its position
  in the collection, which is also the order a `findOne` scan sees them in.
*/
module UserModel {
  import opened Wrappers
  import opened SeqSearch

  type UserId = nat

  /** A stored user. `password` is the bcrypt hash once saved; `passwordChangeAt`
      is a time in milliseconds; an empty `refreshToken` is no open session. */
  datatype User = User(
    name: string,
    email: string,
    password: string,
    passwordChangeAt: Option<int>,
    refreshToken: string)

  /** bcrypt, kept abstract: `hash(plain, salt)` (the salt stands for the random
      one `bcrypt.hash(plain, 12)` draws) and `compare(plain, hash)`. */
  datatype Hasher = Hasher(hash: (string, nat) -> string, compare: (string, string) -> bool)

  /** What the application assumes of bcrypt: a password matches its own hash. */
  ghost predicate HasherSound(h: Hasher) {
    forall plain: string, salt: nat :: h.compare(plain, h.hash(plain, salt))
  }

  // ---------------------------------------------------------------------------
  // Instance methods
  // ---------------------------------------------------------------------------

  /** `user.comparePassword(candidate)`. */
  predicate PasswordMatches(h: Hasher, u: User, candidate: string) {
    h.compare(candidate, u.password)
  }

  /** `user.changedPasswordAfter(JWTTimestamp)`: the token's `iat` (seconds)
      against the change time converted to (fractional) seconds. */
  predicate ChangedPasswordAfter(u: User, jwtTimestamp: int) {
    match u.passwordChangeAt
    case None => false
    case Some(changedMs) => (jwtTimestamp as real) < (changedMs as real) / 1000.0
  }

  /** The same comparison in whole milliseconds. */
  lemma ChangedPasswordAfterInMs(u: User, iat: int)
    ensures ChangedPasswordAfter(u, iat) <==> u.passwordChangeAt.Some? && iat * 1000 < u.passwordChangeAt.value
  {
  }

  /** Once a token is recent enough to pass the check, every later one does too. */
  lemma NotChangedIsMonotone(u: User, iat: int, later: int)
    requires iat <= later
    requires !ChangedPasswordAfter(u, iat)
    ensures !ChangedPasswordAfter(u, later)
  {
  }

  // ---------------------------------------------------------------------------
  // The pre("save") hooks, as functions of the document's fields
  // ---------------------------------------------------------------------------

  /** The first hook: the password is hashed only when it was modified. */
  function HashOnSave(h: Hasher, u: User, passwordModified: bool, salt: nat): User {
    if !passwordModified then u else u.(password := h.hash(u.password, salt))
  }

  /** The second hook: a modified password on a document that is not new stamps
      the change time, backdated by one second. */
  function StampOnSave(u: User, passwordModified: bool, isNew: bool, nowMs: int): User {
    if !passwordModified || isNew then u else u.(passwordChangeAt := Some(nowMs - 1000))
  }

  /** Both hooks, in the order they are registered. */
  function PreSave(h: Hasher, u: User, isNew: bool, passwordModified: bool, nowMs: int, salt: nat): (v: User)
    ensures v.name == u.name && v.email == u.email && v.refreshToken == u.refreshToken
  {
    StampOnSave(HashOnSave(h, u, passwordModified, salt), passwordModified, isNew, nowMs)
  }

  /** The hooks re-hash the password exactly when it was modified, and leave the
      whole record alone otherwise. */
  lemma PreSaveHashesOnlyModified(h: Hasher, u: User, isNew: bool, passwordModified: bool, nowMs: int, salt: nat)
    ensures !passwordModified ==> PreSave(h, u, isNew, passwordModified, nowMs, salt) == u
    ensures passwordModified ==> PreSave(h, u, isNew, passwordModified, nowMs, salt).password == h.hash(u.password, salt)
  {
  }

  /** The change time is set, to one second before the save, only for a modified
      password on an existing document. */
  lemma PreSaveStampsOnlyPasswordChange(h: Hasher, u: User, isNew: bool, passwordModified: bool, nowMs: int, salt: nat)
    ensures PreSave(h, u, isNew, passwordModified, nowMs, salt).passwordChangeAt
            == if passwordModified && !isNew then Some(nowMs - 1000) else u.passwordChangeAt
  {
  }

  /** A user created without a change time never fails the staleness check. */
  lemma NewUserNeverStale(h: Hasher, u: User, nowMs: int, salt: nat, iat: int)
    requires u.passwordChangeAt == None
    ensures !ChangedPasswordAfter(PreSave(h, u, true, true, nowMs, salt), iat)
  {
  }

  /** After a password change saved at `saveMs`, a token is judged stale exactly
      when its `iat` is more than a second before the save. */
  lemma StaleAfterPasswordChange(h: Hasher, u: User, saveMs: int, salt: nat, iat: int)
    ensures ChangedPasswordAfter(PreSave(h, u, false, true, saveMs, salt), iat) <==> iat * 1000 + 1000 < saveMs
  {
  }

  /** The one-second backdate: a token signed at or after the save (so with
      `iat = floor(issueMs / 1000)`) is never judged stale. */
  lemma TokenAfterSaveIsFresh(h: Hasher, u: User, saveMs: int, salt: nat, issueMs: nat)
    requires saveMs <= issueMs
    ensures !ChangedPasswordAfter(PreSave(h, u, false, true, saveMs, salt), issueMs / 1000)
  {
  }

  /** After a save that hashed a new password, `comparePassword` accepts that
      plaintext. */
  lemma ComparePasswordAfterSave(h: Hasher, u: User, isNew: bool, nowMs: int, salt: nat)
    requires HasherSound(h)
    ensures PasswordMatches(h, PreSave(h, u, isNew, true, nowMs, salt), u.password)
  {
  }

  // ---------------------------------------------------------------------------
  // The collection and its unique email index
  // ---------------------------------------------------------------------------

  /** `email: { unique: true }`: no two stored users share an email. */
  ghost predicate UniqueEmails(db: seq<User>) {
    forall i, j :: 0 <= i < j < |db| ==> db[i].email != db[j].email
  }

  /** `findOne({ email })` */
  function EmailIs(email: string): User -> bool {
    (u: User) => u.email == email
  }

  /** `findOne({ refreshToken })` */
  function RefreshTokenIs(token: string): User -> bool {
    (u: User) => u.refreshToken == token
  }

  /** With the unique index, the user a lookup by email finds is the only one with that email. */
  lemma EmailLookupUnique(db: seq<User>, email: string, i: nat)
    requires UniqueEmails(db)
    requires i < |db| && db[i].email == email
    ensures FirstIndex(db, EmailIs(email)) == i
  {
  }

  /** `required: true` on name, email and password. */
  predicate RequiredPresent(u: User) {
    u.name != "" && u.email != "" && u.password != ""
  }

  /** On an existing document only the modified paths are validated; the only
      path the handlers modify that has a validator is the password. */
  predicate ClearsRequiredPassword(u: User, passwordModified: bool) {
    passwordModified && u.password == ""
  }

  datatype SaveError = ValidationError | DuplicateKey | DocumentNotFound

  datatype SaveResult = Saved(id: UserId, users: seq<User>) | Rejected(error: SaveError)

  /** `doc.save()`: a new document is validated, goes through the hooks and is
      inserted unless its email is taken; an existing one has its modified
      password validated, goes through the hooks and has its password, change
      time and refresh token written back. */
  function SaveOutcome(h: Hasher, db: seq<User>, id: UserId, u: User, isNew: bool,
                       passwordModified: bool, nowMs: int, salt: nat): (r: SaveResult)
    // a new document: rejected when a required field is empty, then when the
    // email is taken; otherwise the hooked record is appended as the last user
    ensures isNew ==> (r == Rejected(ValidationError) <==> !RequiredPresent(u))
    ensures isNew && RequiredPresent(u) ==>
              (r == Rejected(DuplicateKey) <==> exists j :: 0 <= j < |db| && db[j].email == u.email)
    ensures isNew ==> (r.Saved? <==> RequiredPresent(u) && forall j :: 0 <= j < |db| ==> db[j].email != u.email)
    ensures r.Saved? && isNew ==> r.id == |db| && |r.users| == |db| + 1 && r.users[..|db|] == db
    ensures r.Saved? && isNew ==> r.users[|db|] == PreSave(h, u, true, passwordModified, nowMs, salt)
    // an existing document: rejected when its password was modified to empty,
    // then when its id is unknown; otherwise only its password, change time
    // and refresh token are written back
    ensures !isNew ==> (r == Rejected(ValidationError) <==> ClearsRequiredPassword(u, passwordModified))
    ensures !isNew && !ClearsRequiredPassword(u, passwordModified) ==>
              (r == Rejected(DocumentNotFound) <==> id >= |db|)
    ensures !isNew ==> (r.Saved? <==> !ClearsRequiredPassword(u, passwordModified) && id < |db|)
    ensures r.Saved? && !isNew ==> r.id == id && |r.users| == |db|
    ensures r.Saved? && !isNew ==> forall j :: 0 <= j < |db| && j != id ==> r.users[j] == db[j]
    ensures r.Saved? && !isNew ==>
              var v := PreSave(h, u, false, passwordModified, nowMs, salt);
              && r.users[id].name == db[id].name && r.users[id].email == db[id].email
              && r.users[id].password == v.password && r.users[id].passwordChangeAt == v.passwordChangeAt
              && r.users[id].refreshToken == u.refreshToken
    ensures r.Saved? ==> forall j :: 0 <= j < |db| ==> r.users[j].email == db[j].email
  {
    var v := PreSave(h, u, isNew, passwordModified, nowMs, salt);
    if isNew then
      if !RequiredPresent(u) then Rejected(ValidationError)
      else if FirstIndex(db, EmailIs(u.email)) >= 0 then Rejected(DuplicateKey)
      else Saved(|db|, db + [v])
    else if ClearsRequiredPassword(u, passwordModified) then Rejected(ValidationError)
    else if id < |db| then
      Saved(id, db[id := db[id].(password := v.password, passwordChangeAt := v.passwordChangeAt,
                                  refreshToken := v.refreshToken)])
    else Rejected(DocumentNotFound)
  }

  /** Saving never breaks the unique email index. */
  lemma SaveKeepsEmailsUnique(h: Hasher, db: seq<User>, id: UserId, u: User, isNew: bool,
                              passwordModified: bool, nowMs: int, salt: nat)
    requires UniqueEmails(db)
    ensures var r := SaveOutcome(h, db, id, u, isNew, passwordModified, nowMs, salt);
            r.Saved? ==> UniqueEmails(r.users)
  {
  }

  // ---------------------------------------------------------------------------
  // Documents
  // ---------------------------------------------------------------------------

  /** A Mongoose document: the fields of one user held in memory, whether it is
      new, and whether its password path has been modified since loading. */
  class UserDocument {
    var id: UserId
    const name: string
    const email: string
    var password: string
    var passwordChangeAt: Option<int>
    var refreshToken: string
    var isNew: bool
    var passwordModified: bool

    /** `new User({ email, password, name })`: the password is still the plaintext. */
    constructor New(name: string, email: string, password: string)
      ensures Fields() == User(name, email, password, None, "")
      ensures isNew && passwordModified
    {
      this.id := 0;
      this.name := name;
      this.email := email;
      this.password := password;
      this.passwordChangeAt := None;
      this.refreshToken := "";
      this.isNew := true;
      this.passwordModified := true;
    }

    /** A document hydrated from the collection by a query. */
    constructor Load(id: UserId, u: User)
      ensures this.id == id && Fields() == u
      ensures !isNew && !passwordModified
    {
      this.id := id;
      this.name := u.name;
      this.email := u.email;
      this.password := u.password;
      this.passwordChangeAt := u.passwordChangeAt;
      this.refreshToken := u.refreshToken;
      this.isNew := false;
      this.passwordModified := false;
    }

    function Fields(): User
      reads this
    {
      User(name, email, password, passwordChangeAt, refreshToken)
    }

    /** `user.comparePassword(candidate)` */
    function ComparePassword(h: Hasher, candidate: string): (ok: bool)
      reads this
      ensures ok == PasswordMatches(h, Fields(), candidate)
    {
      h.compare(candidate, password)
    }

    /** `user.refreshToken = token` */
    method SetRefreshToken(token: string)
      modifies this
      ensures Fields() == old(Fields()).(refreshToken := token)
      ensures id == old(id) && isNew == old(isNew) && passwordModified == old(passwordModified)
    {
      refreshToken := token;
    }

    /** The first `pre("save")` hook. */
    method HashPasswordHook(h: Hasher, salt: nat)
      modifies this`password
      ensures Fields() == HashOnSave(h, old(Fields()), passwordModified, salt)
    {
      if !passwordModified {
        return;
      }
      password := h.hash(password, salt);
    }

    /** The second `pre("save")` hook. */
    method TrackPasswordChangeHook(nowMs: int)
      modifies this`passwordChangeAt
      ensures Fields() == StampOnSave(old(Fields()), passwordModified, isNew, nowMs)
    {
      if !passwordModified || isNew {
        return;
      }
      passwordChangeAt := Some(nowMs - 1000);
    }
  }

  /** The `users` collection behind the `User` model. */
  class UserCollection {
    var users: seq<User>

    ghost predicate Valid()
      reads this
    {
      UniqueEmails(users)
    }

    constructor ()
      ensures Valid() && users == []
    {
      users := [];
    }

    /** `User.findOne(filter)`: the first matching user, as a fresh document. */
    method FindOne(filter: User -> bool) returns (doc: UserDocument?)
      ensures var i := FirstIndex(users, filter);
              if i < 0 then doc == null
              else doc != null && fresh(doc) && doc.id == i && doc.Fields() == users[i]
                   && !doc.isNew && !doc.passwordModified
    {
      var i := FindIndex(users, filter);
      if i < 0 {
        doc := null;
      } else {
        doc := new UserDocument.Load(i, users[i]);
      }
    }

    /** `User.findById(id)` */
    method FindById(id: UserId) returns (doc: UserDocument?)
      ensures if id < |users| then doc != null && fresh(doc) && doc.id == id && doc.Fields() == users[id]
              else doc == null
    {
      if id < |users| {
        doc := new UserDocument.Load(id, users[id]);
      } else {
        doc := null;
      }
    }

    /** `User.findByIdAndUpdate(id, { refreshToken })`: a single write of one
        user's refresh-token slot; no write when there is no such user. */
    method FindByIdAndUpdateRefreshToken(id: UserId, token: string)
      requires Valid()
      modifies this
      ensures Valid()
      ensures users == if id < |old(users)| then old(users)[id := old(users)[id].(refreshToken := token)]
                       else old(users)
    {
      if id < |users| {
        users := users[id := users[id].(refreshToken := token)];
      }
    }

    /** `doc.save()` */
    method Save(h: Hasher, doc: UserDocument, nowMs: int, salt: nat) returns (err: Option<SaveError>)
      requires Valid()
      modifies this, doc
      ensures Valid()
      ensures var r := SaveOutcome(h, old(users), old(doc.id), old(doc.Fields()), old(doc.isNew),
                                   old(doc.passwordModified), nowMs, salt);
              && (if r.Saved? then
                    && err == None && users == r.users && doc.id == r.id
                    && !doc.isNew && !doc.passwordModified
                  else err == Some(r.error) && users == old(users))
              && doc.Fields() == if r.Saved? || r.error == DuplicateKey
                                 then PreSave(h, old(doc.Fields()), old(doc.isNew), old(doc.passwordModified), nowMs, salt)
                                 else old(doc.Fields())
    {
      SaveKeepsEmailsUnique(h, users, doc.id, doc.Fields(), doc.isNew, doc.passwordModified, nowMs, salt);
      if doc.isNew {
        if !RequiredPresent(doc.Fields()) {
          return Some(ValidationError);
        }
        doc.HashPasswordHook(h, salt);
        doc.TrackPasswordChangeHook(nowMs);
        var taken := FindIndex(users, EmailIs(doc.email));
        if taken >= 0 {
          return Some(DuplicateKey);
        }
        doc.id := |users|;
        users := users + [doc.Fields()];
      } else {
        if ClearsRequiredPassword(doc.Fields(), doc.passwordModified) {
          return Some(ValidationError);
        }
        if doc.id >= |users| {
          return Some(DocumentNotFound);
        }
        doc.HashPasswordHook(h, salt);
        doc.TrackPasswordChangeHook(nowMs);
        users := users[doc.id := users[doc.id].(password := doc.password,
                                                 passwordChangeAt := doc.passwordChangeAt,
                                                 refreshToken := doc.refreshToken)];
      }
      doc.isNew := false;
      doc.passwordModified := false;
      err := None;
    }

    /** `User.create({ email, password, name })`: a new document saved at once. */
    method Create(h: Hasher, name: string, email: string, password: string, nowMs: int, salt: nat)
      returns (doc: UserDocument?, err: Option<SaveError>)
      requires Valid()
      modifies this
      ensures Valid()
      ensures var r := SaveOutcome(h, old(users), 0, User(name, email, password, None, ""), true, true, nowMs, salt);
              if r.Saved? then
                && err == None && users == r.users
                && doc != null && fresh(doc) && doc.id == r.id && doc.Fields() == r.users[r.id]
              else doc == null && err == Some(r.error) && users == old(users)
    {
      var d := new UserDocument.New(name, email, password);
      err := Save(h, d, nowMs, salt);
      doc := if err == None then d else null;
    }
  }
}
