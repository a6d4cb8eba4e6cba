# Session handlers and product list, modelled in Dafny

This project models two parts of a small Node.js/Express code base.

**The session service** (`last-project`). Users log in with email and password and get two JSON Web Tokens. One is a 15-minute access token in the response. The other is a 7-day refresh token, set as the `jwt` cookie and stored in the user's single `refreshToken` slot. Protected routes go through the `protect` guard, which reads the access token from the `Authorization: Bearer` header. `refresh` trades the cookie for a new access token. `logout` clears the slot that holds the cookie. The `User` model hashes the password in a `pre("save")` hook and stamps `passwordChangeAt` when an existing user's password changes. `changedPasswordAfter` then makes `protect` reject tokens signed more than about a second before the change.

**The product list** (`build-api`): a module-level array of products with five handlers. They list, append, find by `parseInt(id)`, splice out and merge-update.

How the model is built:
- The users collection is a sequence of records; a user's id is its position. Users are never deleted, and `findOne` scans in that order.
- Each handler is one atomic step. It is written twice:
  - as a function of the collection (`LoginOutcome`, `ProtectOutcome`, …), which the properties are stated about;
  - as a method that runs the handler's statements against a `UserCollection` of Mongoose-like documents, proved equal to that function.
- `jsonwebtoken` and `bcrypt` are function values handed in by the caller. Two ghost predicates state what the handlers rely on:
  - `Jwt.SignerSound`: a token verifies under its own secret, under no other, and is a compact string;
  - `UserModel.HasherSound`: a password matches its own hash.
- The clock (`nowMs`) and bcrypt's random salt are parameters.
- An empty string stands for a missing value (an absent header, cookie or body field, or an unset refresh token).

Modules:
- `Wrappers`: the `Option` type.
- `SeqSearch`: first-match search, for `find`, `findIndex` and `findOne`.
- `JsText`: `startsWith`, `split(" ")` and `parseInt`.
- `Jwt`: signing and verifying with the library's `iat`/`exp` bookkeeping.
- `UserModel`: the record, hooks, instance methods, documents and collection.
- `AuthController`: the handlers.
- `ProductsController`: the product array.

Two behaviours of the code that a rotating refresh-token scheme would not have; the model follows the code:
- `refresh` never compares the cookie with the stored slot. A refresh token that `login` has since replaced, or that `logout` has cleared, still gets new access tokens for its whole seven days (`AuthController.RefreshIgnoresSlots`, `AuthController.RefreshAfterLogout`).
- The one-second backdate of `passwordChangeAt` does not make a token signed at the moment of a password change stale; it does the opposite. A token passes exactly when its `iat * 1000 + 1000 >= saveMs`. So a token signed within about a second before the change is still accepted (`UserModel.StaleAfterPasswordChange`, `AuthController.ProtectAfterPasswordChange`).

## Model

| member | source | states |
|---|---|---|
| AuthController.GenerateToken | last-project/src/controllers/authController.ts:11-15 | reference definition of `generateToken`: the id signed under `JWT_SECRET` for 900 s; `ProtectAcceptsIssuedToken` and `TokensNotInterchangeable` state what it yields |
| AuthController.BearerToken | last-project/src/controllers/authController.ts:76-79 | a header not starting with "Bearer" yields no token; the token never contains a space |
| AuthController.BearerTokenOfHeader | last-project/src/controllers/authController.ts:77-78 | `Bearer <t>` yields exactly `t` for any space-free `t` |
| AuthController.BearerTokenQuirks | last-project/src/controllers/authController.ts:77-78 | looser and stricter than RFC 6750 section 2.1: `Bearerish <t>` yields `t`; lower-case `bearer` and a doubled space yield no token |
| AuthController.IssueRefreshToken | last-project/src/controllers/authController.ts:28-30 | reference definition of the refresh token `sendResponse` signs: the id under `REFRESH_TOKEN` for 604800 s; `RefreshAcceptsIssuedToken` and `TokensNotInterchangeable` state what it yields |
| AuthController.ViewOf | last-project/src/controllers/authController.ts:40-41 | reference definition of the user sent back once `user.password = undefined`: every field but the password |
| AuthController.SendResponseOutcome | last-project/src/controllers/authController.ts:26-42 | reference definition of `sendResponse`; `LoginSucceeds`, `LoginWritesOnlyTheSlot` and `RegisterCases` state its effect on the slot, the cookie and the reply |
| AuthController.LoginOutcome | last-project/src/controllers/authController.ts:45-54 | reference definition of `login`; `LoginRefusals`, `LoginWritesOnlyTheSlot`, `LoginSucceeds` and `LoginKeepsInvariants` state its properties |
| AuthController.RespondToNewUser | last-project/src/controllers/authController.ts:60-62 | reference definition of the 400-or-`sendResponse` step of `register`; `RespondToNewUserCases` states both cases |
| AuthController.RegisterOutcome | last-project/src/controllers/authController.ts:57-63 | reference definition of `register`; `RegisterCases`, `RegisterThenLogin` and `RegisterKeepsInvariants` state its properties |
| AuthController.ProtectOutcome | last-project/src/controllers/authController.ts:70-98 | reference definition of `protect`; `ProtectWithoutToken`, `ProtectGrantsOnlyLiveTokens`, `ProtectCases`, `ProtectAcceptsIssuedToken` and `ProtectAfterPasswordChange` state its properties |
| AuthController.RefreshOutcome | last-project/src/controllers/authController.ts:101-114 | reference definition of `refresh`; `RefreshCases`, `RefreshIgnoresSlots`, `RefreshAcceptsIssuedToken` and `RefreshAfterLogout` state its properties |
| AuthController.LogoutOutcome | last-project/src/controllers/authController.ts:117-136 | reference definition of `logout`; `LogoutCases`, `LogoutKeepsInvariants` and `LogoutTwice` state its properties |
| AuthController.SendResponse | last-project/src/controllers/authController.ts:26-42 | signs both tokens, writes the refresh token into that user's slot only, sets it as the cookie, replies with the user without password |
| AuthController.Login | last-project/src/controllers/authController.ts:45-54 | the handler's statements give the reply and collection `LoginOutcome` describes; the unique email index is kept |
| AuthController.LoginRefusals | last-project/src/controllers/authController.ts:46-51 | a missing email or password gives 400 with the collection unchanged; an unknown email and a wrong password give the same 401 with the collection unchanged |
| AuthController.LoginWritesOnlyTheSlot | last-project/src/controllers/authController.ts:45-54 | login either fails with the collection unchanged, or answers 200 and the cookie it sets is what the found user's slot now holds, nothing else changed |
| AuthController.LoginSucceeds | last-project/src/controllers/authController.ts:26-53 | with the right password: status 200, a non-empty access token for that user, the user view without password, and that user's slot rewritten to the cookie |
| AuthController.Register | last-project/src/controllers/authController.ts:57-63 | the handler's statements give the reply and collection `RegisterOutcome` describes; the unique email index is kept |
| AuthController.RespondToNewUserCases | last-project/src/controllers/authController.ts:60-62 | no created user gives 400 and no change; a created user gets 201 with its view |
| AuthController.RegisterCases | last-project/src/controllers/authController.ts:57-63 | a validation error exactly when a field is empty; a duplicate-key error exactly when the email is taken; on both, no change; otherwise exactly one user is appended (hashed password, no change time, slot = cookie) and the reply is 201 |
| AuthController.RegisterThenLogin | last-project/src/controllers/authController.ts:50-53 | a user just registered can log in with the same email and password and is the user found |
| AuthController.Protect | last-project/src/controllers/authController.ts:70-98 | the guard's statements give `ProtectOutcome` and change nothing (no modifies clause) |
| AuthController.ProtectWithoutToken | last-project/src/controllers/authController.ts:76-80 | no token from the header gives 401 "You are not logged in" |
| AuthController.ProtectGrantsOnlyLiveTokens | last-project/src/controllers/authController.ts:82-96 | a request passes exactly when the access token verifies and is unexpired, its user exists and has not changed the password since `iat`; it then carries exactly that user |
| AuthController.ProtectCases | last-project/src/controllers/authController.ts:82-96 | for any extracted token: a rejected verification is thrown with its verdict; a missing user gives 401 "no longer exist"; a password changed after `iat` gives 401 "recently changed password"; otherwise the user is granted |
| AuthController.ProtectAcceptsIssuedToken | last-project/src/controllers/authController.ts:82-96 | an issued access token passes for 15 minutes and is rejected as expired afterwards |
| AuthController.ProtectAfterPasswordChange | last-project/src/controllers/authController.ts:91-93 | an empty new password is refused by the `required` validator; a non-empty one is saved, and then an unexpired earlier token gives 401 exactly when `iat * 1000 + 1000 < saveMs`, and passes otherwise |
| AuthController.Refresh | last-project/src/controllers/authController.ts:101-114 | the handler's statements give `RefreshOutcome` and change nothing |
| AuthController.RefreshCases | last-project/src/controllers/authController.ts:101-113 | no cookie gives 401; a cookie that fails verification under the refresh secret gives 403; a verified cookie whose user is missing gives 403; otherwise 200 with a new access token for that user and no new cookie |
| AuthController.RefreshAcceptsIssuedToken | last-project/src/controllers/authController.ts:101-113 | an issued refresh token gets a new access token for its user (no new cookie) for seven days, then 403 |
| AuthController.RefreshIgnoresSlots | last-project/src/controllers/authController.ts:105-111 | rewriting any user's slot changes neither whether refresh succeeds nor the token it issues |
| AuthController.RefreshAfterLogout | last-project/src/controllers/authController.ts:105-112 | after logout cleared the slot, the same cookie still gets a new access token |
| AuthController.TokensNotInterchangeable | last-project/src/controllers/authController.ts:82-87 | with distinct secrets an access token gets 403 from refresh, and a refresh token fails protect's signature check |
| AuthController.Logout | last-project/src/controllers/authController.ts:117-136 | the handler's statements (find by token, clear, save) give `LogoutOutcome`; the unique email index is kept |
| AuthController.LogoutCases | last-project/src/controllers/authController.ts:117-135 | 200 exactly when some slot holds the cookie, and then only the first such slot is cleared; otherwise 204 and no change; the cookie is cleared whenever one was sent |
| AuthController.SessionSlotsDistinct | last-project/src/controllers/authController.ts:28-35 | while every slot holds a token signed for its own user, no two users hold the same token |
| AuthController.LoginKeepsInvariants | last-project/src/controllers/authController.ts:45-54 | login keeps unique emails and "every non-empty slot holds a refresh token signed for its user" |
| AuthController.RegisterKeepsInvariants | last-project/src/controllers/authController.ts:57-63 | register keeps both invariants |
| AuthController.LogoutKeepsInvariants | last-project/src/controllers/authController.ts:117-135 | logout keeps both invariants |
| AuthController.LogoutTwice | last-project/src/controllers/authController.ts:124-135 | under the slot invariant a second logout with the same cookie answers 204 |
| UserModel.ChangedPasswordAfter | last-project/src/models/user.ts:52-58 | reference definition of `changedPasswordAfter`, on real-valued seconds; `ChangedPasswordAfterInMs`, `NotChangedIsMonotone` and `StaleAfterPasswordChange` state its properties |
| UserModel.PasswordMatches | last-project/src/models/user.ts:47-49 | reference definition of `comparePassword`; `ComparePasswordAfterSave` states what it accepts |
| UserModel.ChangedPasswordAfterInMs | last-project/src/models/user.ts:52-58 | false when no change time is set; otherwise true exactly when `iat * 1000 < passwordChangeAt` |
| UserModel.NotChangedIsMonotone | last-project/src/models/user.ts:54-55 | a token time that passes the check makes every later one pass too |
| UserModel.HashOnSave | last-project/src/models/user.ts:33-37 | reference definition of the hashing hook; `PreSaveHashesOnlyModified` states its effect |
| UserModel.StampOnSave | last-project/src/models/user.ts:40-44 | reference definition of the change-time hook; `PreSaveStampsOnlyPasswordChange` states its effect |
| UserModel.PreSave | last-project/src/models/user.ts:33-44 | the hooks never change name, email or refresh token |
| UserModel.PreSaveHashesOnlyModified | last-project/src/models/user.ts:33-37 | an unmodified password leaves the record unchanged; a modified one is replaced by its hash |
| UserModel.PreSaveStampsOnlyPasswordChange | last-project/src/models/user.ts:40-44 | the change time becomes `now - 1000` only for a modified password on an existing document |
| UserModel.NewUserNeverStale | last-project/src/models/user.ts:40-41 | a newly created user never fails the staleness check |
| UserModel.StaleAfterPasswordChange | last-project/src/models/user.ts:42 | after a change saved at `saveMs`, a token is stale exactly when `iat * 1000 + 1000 < saveMs` |
| UserModel.TokenAfterSaveIsFresh | last-project/src/models/user.ts:42 | a token signed at or after the save is never stale |
| UserModel.ComparePasswordAfterSave | last-project/src/models/user.ts:47-49 | `comparePassword` accepts the plaintext hashed at the last save |
| UserModel.UniqueEmails | last-project/src/models/user.ts:22 | reference definition of the `unique` email index; `UserCollection.Valid` holds it, and `SaveKeepsEmailsUnique` and the `*KeepsInvariants` lemmas preserve it |
| UserModel.RequiredPresent | last-project/src/models/user.ts:21-23 | reference definition of the `required` validators on a new document; `SaveOutcome` and `RegisterCases` give the validation error exactly when it fails |
| UserModel.ClearsRequiredPassword | last-project/src/models/user.ts:23 | reference definition of the `required` check on a modified password of an existing document; `SaveOutcome` gives the validation error exactly when it holds |
| UserModel.EmailLookupUnique | last-project/src/models/user.ts:22 | with unique emails, a lookup by email finds the one user with that email |
| UserModel.SaveOutcome | last-project/src/models/user.ts:19-44 | a new document is rejected exactly when a required field is empty (validation) or, failing that, its email is taken (duplicate key); otherwise its hooked record is appended as the last user, the others unchanged. An existing document is rejected with a validation error exactly when its password was modified to empty, and otherwise exactly when its id is unknown; otherwise only its password and change time (as the hooks leave them) and its refresh token are written at its id, every other user unchanged; no email changes |
| UserModel.SaveKeepsEmailsUnique | last-project/src/models/user.ts:22 | a successful save keeps emails unique |
| UserModel.UserDocument.New | last-project/src/models/user.ts:19-30 | a new document holds the given fields, no change time, no token, and is new with a modified password |
| UserModel.UserDocument.Load | last-project/src/models/user.ts:19-30 | a loaded document holds the stored record and is neither new nor modified |
| UserModel.UserDocument.ComparePassword | last-project/src/models/user.ts:47-49 | compares the candidate with the document's stored hash |
| UserModel.UserDocument.SetRefreshToken | last-project/src/controllers/authController.ts:131 | only the refresh token changes |
| UserModel.UserDocument.HashPasswordHook | last-project/src/models/user.ts:33-37 | updates the password in place as `HashOnSave` describes, touching nothing else |
| UserModel.UserDocument.TrackPasswordChangeHook | last-project/src/models/user.ts:40-44 | updates the change time in place as `StampOnSave` describes, touching nothing else |
| UserModel.UserCollection.constructor | last-project/src/models/user.ts:61 | an empty collection satisfies the unique email index |
| UserModel.UserCollection.FindOne | last-project/src/controllers/authController.ts:50 | returns a fresh document for the first matching user, or null when none matches |
| UserModel.UserCollection.FindById | last-project/src/controllers/authController.ts:88 | returns the user with that id, or null |
| UserModel.UserCollection.FindByIdAndUpdateRefreshToken | last-project/src/controllers/authController.ts:35 | one write of one slot; no change for an unknown id; unique emails kept |
| UserModel.UserCollection.Save | last-project/src/models/user.ts:33-44 | runs both hooks on the document and stores the result as `SaveOutcome` describes, or reports its error and leaves the collection alone |
| UserModel.UserCollection.Create | last-project/src/controllers/authController.ts:58 | a new document saved at once: either a created document equal to the stored record, or null with the error |
| Jwt.Sign | last-project/src/controllers/authController.ts:11-15 | reference definition of `jwt.sign({ id }, secret, { expiresIn })`: claims with `iat` the current second and `exp = iat + lifetime`; `VerifySigned` and `VerifyOtherSecret` state what verifies |
| Jwt.Verify | last-project/src/controllers/authController.ts:82-87 | valid exactly when the signature checks and `exp` has not been reached, giving the signed claims; invalid exactly when the signature fails |
| Jwt.VerifySigned | last-project/src/controllers/authController.ts:11-15 | a token verifies under its own secret, with `iat` = signing second and `exp` = `iat` + lifetime, until it expires |
| Jwt.VerifyOtherSecret | last-project/src/controllers/authController.ts:28-30 | a token never verifies under another secret |
| JsText.StartsWith | last-project/src/controllers/authController.ts:77 | reference definition of `startsWith`; `BearerToken`, `BearerTokenOfHeader` and `BearerTokenQuirks` state its effect on the header |
| JsText.Split | last-project/src/controllers/authController.ts:78 | at least one piece, none containing the separator |
| JsText.JoinSplit | last-project/src/controllers/authController.ts:78 | the pieces joined by the separator give back the header |
| JsText.SplitNoSeparator | last-project/src/controllers/authController.ts:78 | a string without the separator is one piece |
| JsText.SplitAfterWord | last-project/src/controllers/authController.ts:78 | a leading word followed by the separator is the first piece |
| JsText.TrimStartSkipsWhiteSpace | build-api/controller/productsController.js:22 | trimming leaves a suffix that does not start with white space, and everything removed is white space |
| JsText.DigitPrefix | build-api/controller/productsController.js:22 | every character of the digit run is a digit of the radix |
| JsText.DigitPrefixIsLongest | build-api/controller/productsController.js:22 | the digit run is a prefix of the string and the next character, if any, is not a digit |
| JsText.ToDecimalDigits | build-api/controller/productsController.js:22 | the decimal rendering of `n` is made of digits and denotes `n` |
| JsText.DecimalDigitPrefix | build-api/controller/productsController.js:22 | a string of '0'-'9' is its own radix-10 digit run |
| JsText.DecimalPieces | build-api/controller/productsController.js:22 | a decimal string has no white space to skip, no sign and no `0x` prefix, so it is read in radix 10 |
| JsText.ParseInt | build-api/controller/productsController.js:22 | reference definition of ECMAScript `parseInt` with no radix argument; `ParseIntUnsigned`, `ParseIntNegated` and `ParseIntToDecimal` state its properties |
| JsText.ParseIntUnsigned | build-api/controller/productsController.js:22 | `parseInt` of a plain decimal string is its value |
| JsText.ParseIntNegated | build-api/controller/productsController.js:22 | `parseInt` of '-' followed by a decimal string is the negated value |
| JsText.ParseIntToDecimal | build-api/controller/productsController.js:22 | `parseInt(String(n)) === n` for every non-negative `n` |
| SeqSearch.FirstIndex | build-api/controller/productsController.js:22 | the index of the first element satisfying the predicate, or -1 exactly when none does |
| SeqSearch.FindIndex | build-api/controller/productsController.js:33 | the scan returns `FirstIndex` |
| SeqSearch.FirstIndexStable | build-api/controller/productsController.js:46-48 | changing elements after the first match, keeping it a match, keeps the result |
| ProductsController.Listing | build-api/controller/productsController.js:8-10 | one JSON object per product, in order |
| ProductsController.NewProduct | build-api/controller/productsController.js:15 | the body's properties plus `id`; the body wins; `id` is length + 1 when the body has none |
| ProductsController.Assign | build-api/controller/productsController.js:48 | every body property is copied over; the others stay |
| ProductsController.IdIs | build-api/controller/productsController.js:22 | reference definition of the callback `p => p.id === parseInt(id)` (also lines 33 and 46), with a NaN key matching nothing; `GetAfterCreate` and `CreatedIsFirstWithId` use it |
| ProductsController.AfterCreate | build-api/controller/productsController.js:13-17 | exactly one element appended; earlier elements unchanged |
| ProductsController.AfterDelete | build-api/controller/productsController.js:31-40 | no match leaves the array unchanged; otherwise the first match is cut out, length - 1, others in order, the multiset loses just that element |
| ProductsController.AfterUpdate | build-api/controller/productsController.js:43-53 | same length; no match leaves the array unchanged; otherwise the first match gets the body merged in and all others are unchanged |
| ProductsController.ProductStore.constructor | build-api/controller/productsController.js:2-5 | the array starts as the two seed products |
| ProductsController.ProductStore.GetAllProducts | build-api/controller/productsController.js:8-10 | status 200 and the whole array in order |
| ProductsController.ProductStore.CreateProduct | build-api/controller/productsController.js:13-17 | the array becomes `AfterCreate`; the reply is 201 and echoes the body, not the stored record |
| ProductsController.ProductStore.GetProductById | build-api/controller/productsController.js:20-28 | the first product whose id equals `parseInt(id)`, or 404 |
| ProductsController.ProductStore.DeleteProduct | build-api/controller/productsController.js:31-40 | the array becomes `AfterDelete`; 200 with the deletion message, or 404 |
| ProductsController.ProductStore.UpdateProduct | build-api/controller/productsController.js:43-53 | the array becomes `AfterUpdate`; the reply carries the updated product, or 404 |
| ProductsController.IdsNotUnique | build-api/controller/productsController.js:15 | from the seed array, deleting id 1 and then creating hands out id 2 a second time |
| ProductsController.CreatedIsFirstWithId | build-api/controller/productsController.js:15 | a created product without a body `id` is the first one with id length + 1 when no earlier product has it |
| ProductsController.GetAfterCreate | build-api/controller/productsController.js:15 | a product created without an `id` is found by its decimal id when no earlier product has it |
| ProductsController.UpdateIdempotent | build-api/controller/productsController.js:46-49 | updating twice with the same body equals updating once, when the body keeps the id |

## Left out

- Signing, signature checking and bcrypt are not modelled, only the properties the handlers rely on (`SignerSound`, `HasherSound`). Verification failures carry no error detail beyond invalid or expired.
- `Date.now()` is a parameter, and so is bcrypt's random salt.
- Concurrency and async ordering are not modelled: the un-awaited `sendResponse`, the `jwt.verify` callback in `refresh`, and races between concurrent requests. Every handler is one atomic step.
- The status the global error handler gives a thrown error is not modelled. Save errors and `jwt.verify` exceptions in `protect` are returned as `Thrown`, whatever status they get there.
- Cookie attributes (`cookieOptions`, and its mutation of `secure` in production) are not modelled; a reply only says whether the `jwt` cookie is set or cleared and to what.
- Express routing, middleware, the database connection, the server and the other routers are not part of this model, and neither is `lesson1/firstApi.js` (an HTTP server with file reads).
- The Mongoose CRUD wrappers (last-project/src/controllers/productsController.ts, handlerFactory.ts) and the schema-only order and product models are not part of this model.
- The user fields `role`, `isAdmin`, `createdAt` and the timestamps are not modelled; nothing in the core reads them.
- `user.password = undefined` before replying is modelled as a user view type without a password field. An undefined `refreshToken` is the empty string.
- User ids are positions in the collection, not ObjectIds. A malformed id in a token (a cast error in `findById`) is not modelled; users are never deleted.
- AuthController.LogoutCases: request values that are not strings are not modelled. Cookies, headers and body fields are strings, and a missing one is empty. `cookieParser()` (last-project/src/app.ts:51) parses a `j:`-prefixed cookie as JSON, and `mongoSanitize()` (app.ts:57) does not clean cookies. So a `jwt` cookie such as `j:{"$ne":""}` reaches `logout`'s `findOne({ refreshToken })` (authController.ts:124) as a query operator. It would match the first user with a non-empty slot, clear it and answer 200. `LogoutCases` and `LogoutOutcome` describe string cookies only. The same holds for `refresh` and for the `login`/`register` bodies, where the model does not capture non-string JSON fields.
- ProductsController.Assign: a body key `__proto__` is not modelled. `JSON.parse` makes it an own property. On a product without its own `__proto__`, `Object.assign` would then change the prototype and add no key. The model copies it as an ordinary key.
- The `console.log` calls (after the refresh-token update in `sendResponse`, and in the product app's middleware) are not modelled.
- UserModel.UserCollection.Save: saving an existing document writes back only the password, change time and refresh token, and validates only the password, and only when it was modified. Name and email are never changed on a loaded document here. That is all the handlers change on a loaded document. `select: false` on the password is not modelled: a loaded document always holds its hash.
- JSON numbers are integers; fractional numbers and `parseInt` results beyond 2^53 are not modelled. JSON object key order is not modelled (products are maps).
- ProductsController.ProductStore.CreateProduct: a non-object body (an array or a primitive) is not modelled; bodies are property maps.
- AuthController.RegisterCases: the 400 branch for a missing creation result lives in `RespondToNewUser`. The `register` method has no such branch, because `User.create` either returns a document or throws.
