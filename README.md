# Users, sessions and contacts of a NestJS contact-management API, in Dafny

This project models the credential and session core of a NestJS REST service
for user accounts and per-user contacts, and proves what it promises.

- **User lifecycle** (`UserService`): register, login, get, update and logout
  over a user table keyed by username. Passwords are stored as bcrypt hashes.
  A login issues a fresh token and overwrites the previous one, so each user
  has at most one session. Logout clears the token. The table lives in the
  class `Store.Database` (the stand-in for `PrismaService`). The services
  hold a reference to it and change it through `modifies` clauses.
- **Authentication pipeline**: `AuthMiddleware.Use` reads the raw
  `Authorization` header and attaches the user holding that token, if any.
  It never rejects a request. The `Auth` guard turns a missing identity into
  a 401 "Unauthorized".
- **Error normalisation**: `ErrorFilter.Catch` maps an `HttpException`, a
  `ZodError` or any other error to a status and an `{errors}` body.
- **Validation schemas**: the Zod schemas `REGISTER`, `LOGIN`, `UPDATE`
  (users) and `CREATE`, `UPDATE` (contacts) are predicates over payloads
  whose fields may be missing. Each validation step either returns the typed
  request or fails with a `ZodError` that names every offending field.
- **Contact creation** (`ContactService.create`): a validated insert. The
  authenticated user owns the new contact, and the store assigns its id.

Randomness is passed in as parameters. bcrypt's salt is a 22-character
string supplied by the caller. `uuid()` is a `token` argument; the caller
guarantees it is non-empty and held by no user (`Store.FreshToken`).

bcrypt is modelled by `Bcrypt.Hash(password, salt)` (prefix `$2b$10$`, salt,
digest) and `Bcrypt.Verify`. The digest depends only on bcrypt's key, the
first 72 bytes of the password's UTF-8 encoding. `Verify(p, h)` holds exactly
when `h` is `Hash(p, s)` for some salt `s`. Passwords whose keys agree share
their hashes, so two passwords that differ only after byte 72 verify against
each other.

String lengths are JavaScript lengths (`Schema.Utf16Length`): Zod's `.min`
and `.max` count UTF-16 code units, so a character above U+FFFF counts twice.

The store keeps these invariants (`Store.Database.Valid`):
- rows are keyed by their own username;
- no two users share a token, and no stored token is empty;
- every contact is stored under its positive id, below the next id to assign,
  and its owner is an existing user.

Every operation preserves them.

The `Sessions` module composes the pieces:
- after a re-login the old token resolves to nobody;
- after logout the former token resolves to nobody;
- other users' sessions are untouched.

Five client methods (`RegisterScenario`, `LogoutScenario`,
`RenameScenario`, `RekeyScenario`, `EmptyUpdateScenario`) replay the
end-to-end test flows of `test/user.spec.ts` against the method contracts.
A sixth, `RotationScenario`, checks token rotation across two logins in a
row: only the second token still authenticates.

Three facts of the code shape the model:
- A duplicate username is `HttpException('Username already exists', 400)`
  (src/user/user.service.ts:44-46). It is not a separate conflict kind.
- `update` writes the whole authenticated user object back, token included
  (src/user/user.service.ts:148-153). The token is written back as it was.
- The error filter is registered only for `ZodError` and `HttpException`
  (src/common/error.filter.ts:12). Its catch-all 500 branch is modelled, and
  `CaughtNeverFallsThrough` shows that this branch is never taken for those
  two exception kinds.

## Model

| member | source | states |
|---|---|---|
| Bcrypt.Hash | src/user/user.service.ts:49 | a stored password hash verifies against its plaintext, and differs from it for every password under 101 characters |
| Bcrypt.VerifyIffHashed | src/user/user.service.ts:87-90 | `compare(p, h)` succeeds exactly when `h` was produced by hashing `p` with some salt |
| Bcrypt.VerifyRejectsOtherPasswords | src/user/user.service.ts:87-95 | a hash never verifies a password whose 72-byte key differs from the hashed password's |
| Bcrypt.VerifyAcceptsSameKey | src/user/user.service.ts:87-95 | a hash verifies every password whose 72-byte key equals the hashed password's |
| Bcrypt.OnlyFirst72BytesCount | src/user/user.service.ts:87-90 | 72 `a`s followed by `Y` verify against the hash of 72 `a`s followed by `X`: bytes after the 72nd are ignored |
| Bcrypt.Key | src/user/user.service.ts:49 | bcrypt's key is a prefix of the password's UTF-8 encoding: the whole encoding when it fits in 72 bytes, otherwise exactly its first 72 bytes |
| Bcrypt.LaterBytesIgnored | src/user/user.service.ts:87-90 | two passwords whose encodings are at least 72 bytes long and agree on the first 72 verify against each other's hash |
| Bcrypt.AsciiEncodeLength | src/user/user.service.ts:49 | an ASCII password encodes to one byte per character |
| Bcrypt.Utf8EncodeAppend | src/user/user.service.ts:49 | the UTF-8 encoding of a concatenation is the concatenation of the encodings |
| Schema.Utf16Length | src/user/user.validation.ts:8 | a string's length in UTF-16 code units lies between its character count and twice that, and is zero only for the empty string |
| Schema.BmpLength | src/user/user.validation.ts:8 | a string without characters above U+FFFF has as many code units as characters |
| Schema.AstralLength | src/user/user.validation.ts:8 | a string of characters above U+FFFF has two code units per character |
| ErrorFilter.Catch | src/common/error.filter.ts:15-36 | an HTTP exception keeps its status and message, a validation error becomes 400 "Validation error", anything else 500 with its message; the body has `errors` and never `data` |
| ErrorFilter.ValidationDetailHidden | src/common/error.filter.ts:25-29 | any two validation errors produce the same response, so no field detail reaches the client |
| ErrorFilter.CaughtNeverFallsThrough | src/common/error.filter.ts:12-35 | for the two registered exception kinds a 500 only comes from an HTTP exception that carried 500 |
| ErrorFilter.ServiceErrorStatuses | src/common/error.filter.ts:19-23 | duplicate username gives 400, bad credentials and a missing identity give 401, each with its own message |
| UserValidation.ValidateRegister | src/user/user.validation.ts:6-15 | accepts exactly when username, password and name are present with 1..100 UTF-16 code units, yielding those fields; otherwise a ZodError naming exactly the failing fields |
| UserValidation.ValidateLogin | src/user/user.validation.ts:18-24 | accepts exactly when username and password are present with 1..100 UTF-16 code units; otherwise a ZodError naming exactly the failing fields |
| UserValidation.ValidateUpdate | src/user/user.validation.ts:27-33 | accepts exactly when each present field has 1..100 UTF-16 code units and passes the payload through; otherwise a ZodError naming the failing fields |
| UserValidation.EmptyStringsRejected | src/user/user.validation.ts:6-33 | a present empty string fails each of the three schemas |
| UserValidation.BoundsInclusive | src/user/user.validation.ts:8-14 | lengths of 1 and 100 UTF-16 code units pass, 0 and 101 fail, for required and optional fields |
| UserValidation.AstralCharactersCountTwice | src/user/user.validation.ts:14 | a name of 50 characters above U+FFFF (100 code units) registers, one of 51 does not |
| UserValidation.EmptyUpdateAccepted | src/user/user.validation.ts:27-33 | the empty update payload is valid |
| UserValidation.RegisteredCredentialsLogIn | src/user/user.validation.ts:6-24 | the username and password of any valid registration form a valid login |
| UserValidation.RegisterExamples | test/user.spec.ts:41-81 | the all-empty registration fails on all three fields and the `test` registration passes |
| ContactValidation.ValidateCreate | src/contact/contact.validation.ts:9-14 | accepts exactly when first_name is present (1..100 UTF-16 code units) and each present last_name (1..100), email (1..100 and email-shaped) and phone (1..20) is in bounds; drops unknown keys; otherwise a ZodError naming the failing fields |
| ContactValidation.UpdateValidIsCreateValid | src/contact/contact.validation.ts:18-33 | every payload `UPDATE` accepts is, without its id, one `CREATE` accepts |
| ContactValidation.UpdateNeedsPositiveId | src/contact/contact.validation.ts:20 | `UPDATE` rejects a missing, zero or negative id |
| ContactValidation.FieldBounds | src/contact/contact.validation.ts:10-13 | a `CREATE`-valid payload has first_name of 1..100 UTF-16 code units, and last_name, email and phone within their bounds when present, the email also email-shaped |
| Store.FindFirstByToken | src/common/auth.middleware.ts:23-27 | finds a user exactly when some stored user holds the token, and then it is that stored row |
| Store.WithToken | src/user/user.service.ts:98-105 | the token write changes that user's token only: same keys, same username, password and name, other rows untouched |
| Store.WithTokenValid | src/user/user.service.ts:98-105 | writing a fresh token or none keeps usernames as keys and tokens unique and non-empty |
| Middleware.Resolve | src/common/auth.middleware.ts:18-32 | a missing or empty header attaches nobody; otherwise the user whose token is exactly the header, when there is one |
| Middleware.AuthMiddleware.Use | src/common/auth.middleware.ts:16-37 | always completes, only reads the store, and sets `req.user` to the resolved user or leaves it as it was |
| Guard.Auth | src/common/auth.decorator.ts:16-28 | returns exactly the attached user, or fails with 401 "Unauthorized" when there is none |
| Guard.GuardAfterResolve | test/user.spec.ts:171-185 | on a fresh request a missing, empty or unknown token ends in 401, a held token yields its stored user |
| Users.Get | src/user/user.service.ts:116-122 | returns the user's username and name and no token |
| Users.Updated | src/user/user.service.ts:137-153 | the row written by update keeps username and token, replaces the name only if given, and holds a hash of the new password only if one is given |
| Users.UserService.Register | src/user/user.service.ts:28-61 | an invalid payload fails validation and a taken username fails with 400, both leaving the store unchanged; otherwise exactly one row is added with the hashed password and no token, and only username and name are returned |
| Users.UserService.Login | src/user/user.service.ts:64-113 | an invalid payload fails validation; an unknown user and a wrong password fail with the same 401 and change nothing; otherwise only that user's token becomes the fresh token, which is returned with username and name |
| Users.UserService.Update | src/user/user.service.ts:125-160 | an invalid payload changes nothing; otherwise the user's row becomes the partially updated snapshot and username and new name are returned |
| Users.UserService.Logout | src/user/user.service.ts:163-181 | clears that user's token, changes nothing else, and returns username and name |
| Contacts.ResponseOf | src/contact/contact.service.ts:51-57 | the response carries the stored contact's id, names, email and phone |
| Contacts.ContactService.Create | src/contact/contact.service.ts:28-58 | an invalid payload stores nothing; otherwise exactly one new contact under a new id, with the request's fields and the authenticated username as owner, and returns it |
| Sessions.ReloginRevokesOldToken | src/user/user.service.ts:98-105 | after a new login the previous token resolves to nobody and the new one to the user |
| Sessions.LogoutRevokesToken | src/user/user.service.ts:166-173 | after logout the user's former token resolves to nobody |
| Sessions.OtherSessionsKept | src/user/user.service.ts:98-105 | a login or logout of one user leaves every other user's token resolving to that user |

## Left out

- Concurrency: each operation is atomic and runs alone. The check-then-create race in `register` and concurrent logins are not modelled. The database's own unique constraint on usernames is not modelled either.
- Users.UserService.Update: requires that the user passed in is the row currently stored. That user comes from the middleware in the same request. Prisma's "record not found" error, raised when the row vanished meanwhile, is not modelled. Neither is the in-place change of the request's user object (aliasing).
- Users.UserService.Logout: requires that the user passed in is the row currently stored, for the same reason as `Update`.
- Contacts.ContactService.Create: requires that the authenticated user is stored. The foreign-key failure for a missing owner is not modelled.
- bcrypt: one-wayness, the cost factor's work and random salting are not modelled. The salt is a caller-supplied argument. The digest is the 72-byte key itself, one character per byte, so the hash is not bcrypt's fixed 60-character string and distinct keys never collide. Only the hash/verify relation, key truncation and "hash differs from plaintext" are captured.
- Bcrypt.Hash: "differs from the plaintext" is stated for passwords under 101 characters only, which covers every password the schemas accept. For longer inputs the digest is still the truncated key, not bcrypt's output.
- Strings are sequences of Unicode scalar values. A JavaScript string holding an unpaired surrogate cannot be represented, so its length and its UTF-8 encoding are not modelled.
- `uuid()`: randomness is replaced by a `token` argument that must be non-empty and unused. That two logins hand out different tokens is this assumption, not a proved property.
- Store.FindFirstByToken: Prisma's `findFirst` picks an unspecified row when several users share a token. The model rules this out by the token-uniqueness invariant that every operation keeps.
- Zod: fields of the wrong JSON type are not modelled, because payload fields are strings or missing. The email regex is the uninterpreted parameter `isEmail`. A contact `id` is a `real`, so JSON `Infinity` and `NaN` are not represented. Stripping of unknown keys is shown only for a `username` key in contact payloads.
- `HttpException` responses are message strings. Object responses are not modelled.
- Exceptions other than `ZodError` and `HttpException` are handled by the framework's default handler. That handler is not part of this model.
- The controller envelope `{data: result}` and logout's `{data: true}` are HTTP routing in `src/user/user.controller.ts` and are not modelled.
- Dependency-injection modules, server bootstrap, the Prisma client and its log forwarding, and `logger.debug` calls are wiring and logging, and are not modelled.
- Auto-increment of contact ids is modelled as a counter starting at 1. The database schema file is not part of this model.
