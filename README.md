# User account service

A Dafny model of `UserService`, the account logic of a blog backend: user
registration with a username/email uniqueness check, login lookup with
password verification, lookups by id and by email that return a view with a
fresh session token, profile update by spreading a request over the stored
record, and the two pure projections that build the view and the token.

The repository (the ORM's user table) is modelled as the field
`users: seq<User>` of the class `Service.UserService`, in storage order, with
a counter `nextId` standing for the table's id sequence. The service's methods
read and reassign that field. The library calls the service makes are
function-valued fields of the class, fixed at construction:

- `verify: (Option<string>, string) -> Verdict` stands for argon2's `verify`.
  `Malformed` is a stored digest it cannot parse, which makes it throw.
- `validate: NewUser -> seq<ValidationError>` stands for class-validator's
  `validate`. Its rules live in entity decorators that are not part of this
  model.
- `sign: Claims -> Token` stands for `jwt.sign` with the process secret.

The clock is a parameter `nowMs` (milliseconds since the epoch, as
`Date.getTime` returns). The token's `exp` is a `real`, because
`getTime() / 1000` can be fractional.

Files:

- `wrappers.dfy`: `Option` and `Result`.
- `user_data.dfy` (module `UserData`): the row, the request bodies, the view
  `UserRO`, the token claims, `BuildUserRO`, `GenerateJWT` and the expiry rule.
- `user_table.dfy` (module `UserTable`): single-row queries as "first match in
  storage order", the uniqueness and primary-key predicates, and the
  specification of registration and update as functions of the table.
- `user_service.dfy` (module `Service`): the class `UserService`.

Two behaviours of the code that are easy to misread:

- `create` stores the request's password as given
  (src/user/user.service.ts:107). Any hashing would happen in the entity
  class, which is not part of this model, so the model does not claim that a
  stored password is a digest.
- `update` deletes `password` and `favorites` from the loaded object and then
  spreads the request over it (src/user/user.service.ts:78-81). The object it
  saves and returns therefore carries the request's `password` and
  `favorites` when the request has them, and lacks them otherwise
  (`UserTable.UpdatedRecord`). `save` writes only the properties the object
  defines, so the stored row keeps its password and favorites unless the
  request replaces them (`UserTable.UpdatedRow`).

Uniqueness of usernames and emails is checked only at registration.
`UserTable.UpdateCanDuplicateEmail` shows an update that gives one account
another's email, so uniqueness is a property `Create` preserves, not part of
the class invariant `Valid()`. `Valid()` holds only the table's own guarantee:
ids are distinct and below `nextId`.

## Model

| member | source | states |
|---|---|---|
| `UserData.TokenClaims` | src/user/user.service.ts:29-40 | the claims carry the user's id, username and email, and `exp` is exactly 60 days of seconds after the issuance time |
| `UserData.GenerateJWT` | src/user/user.service.ts:29-43 | the token is the signature of the claims `{id, username, email, exp}` that `TokenClaims` describes |
| `UserData.BuildUserRO` | src/user/user.service.ts:19-27 | the view carries the record's id, username, email and image, and a token whose claims name that same id, username and email with the 60-day expiry |
| `UserData.TokenLivesSixtyDays` | src/user/user.service.ts:30-39 | under the `exp` rule of section 4.1.4 of RFC 7519, a token issued at time now is accepted at time t exactly when t is less than now plus 60 days |
| `UserData.ViewIgnoresCredentials` | src/user/user.service.ts:19-27 | the view does not depend on the password, articles or favorites: records that agree on id, username, email and image give the same view |
| `UserTable.FirstIndex` | src/user/user.service.ts:50-51 | a single-row query returns the first row the where clause selects, and returns none exactly when no row matches |
| `UserTable.Draft` | src/user/user.service.ts:104-108 | the unsaved entity carries the request's username, email and password and an empty article list |
| `UserTable.Saved` | src/user/user.service.ts:118 | the inserted row has the id the table hands out, the entity's username, email, password and articles, and no image or favorites |
| `UserTable.Registration` | src/user/user.service.ts:85-121 | fails with 400 NotUnique exactly when some row has the username or the email; fails with 400 InvalidInput exactly when there is no clash and the validator reports an error; succeeds exactly when there is no clash and no validation error, and then the new row has the fresh id, the request's username, email and password, no image, an empty article list and no favorites |
| `UserTable.RegistrationKeepsKeysUnique` | src/user/user.service.ts:88-101 | if usernames and emails are pairwise distinct before a successful registration, they still are after the new row is appended |
| `UserTable.RegistrationKeepsIdsDistinct` | src/user/user.service.ts:118 | inserting under an id above every existing id keeps ids distinct |
| `UserTable.RegisteredRowIsFound` | src/user/user.service.ts:104-118 | after a successful registration, the lookup by the new email and the lookup by the new id both select the new row |
| `UserTable.SecondRegistrationFails` | src/user/user.service.ts:88-101 | after one registration succeeds, a second one that repeats its username or its email fails with 400 NotUnique; either field alone is enough |
| `UserTable.Stripped` | src/user/user.service.ts:78-79 | the object has no password and no favorites, and differs from the loaded row in nothing else |
| `UserTable.Overlay` | src/user/user.service.ts:81 | keeps the record's id; each property the request carries takes the request's value, each property it lacks keeps the record's |
| `UserTable.SaveOver` | src/user/user.service.ts:82 | saving an object over an existing row writes every property the object defines; a password, image or favorites list the object lacks keeps the stored value |
| `UserTable.UpdatedRow` | src/user/user.service.ts:78-82 | saving the stripped-and-overlaid object over the stored row leaves the request's properties over the stored row: the password and favorites are the request's when it has them and the stored ones otherwise |
| `UserTable.UpdatedRecord` | src/user/user.service.ts:76-83 | the record handed to `save` and returned keeps the id; each property present in the request takes the request's value; username, email, image and articles otherwise keep the stored value; password and favorites are those of the request, never the stored ones |
| `UserTable.UpdateCanDuplicateEmail` | src/user/user.service.ts:76-83 | update does not check uniqueness: a table with unique keys, after the row `update` stores, can hold two rows sharing an email |
| `Service.UserService.constructor` | src/user/user.service.ts:14-17 | the service starts over the given table, whose ids are distinct and below the first free id |
| `Service.UserService.FindAll` | src/user/user.service.ts:45-47 | returns every row of the table |
| `Service.UserService.FindOne` | src/user/user.service.ts:49-58 | returns null when no row has the email; otherwise the first such row if the password verifies, null if it does not, and a failure if the verifier throws; a returned user is a row with that email whose password verified; the table is not changed |
| `Service.UserService.FindById` | src/user/user.service.ts:60-69 | fails with status 401 exactly when no row has the id; otherwise returns the view of the row with the id; the table is not changed |
| `Service.UserService.FindByEmail` | src/user/user.service.ts:71-74 | for an email some row has, returns the view of the first row with that email |
| `Service.UserService.Update` | src/user/user.service.ts:76-83 | for an existing id, returns the stripped-and-overlaid record, whose password and favorites are the request's; the row with the id becomes the request's properties over the stored row, so its password and favorites survive unless the request replaces them; nothing else in the table changes and ids stay distinct |
| `Service.UserService.Create` | src/user/user.service.ts:85-121 | on a clash or a validation error, fails with that error and leaves the table and the id counter unchanged; otherwise appends exactly the new row, advances the id counter and returns the row's view; unique usernames and emails stay unique |

## Left out

- Hashing and verification of passwords (argon2) are the function field `verify`. The model does not say what a digest is.
- Token signing with the process secret (jsonwebtoken) is the function field `sign`. Tokens are opaque.
- The rules of field validation (class-validator decorators on the entity) are the function field `validate`.
- `UserData.TokenClaims`: the expiry is 60 days of 86400 seconds. `setDate` works in local time, so across a daylight-saving change the real expiry is an hour longer or shorter. Time zones are not modelled.
- `Service.UserService.FindOne`: the verifier's failure is one `VerifierError`; the exception's contents are not modelled.
- Query order: SQL leaves row order unspecified without `ORDER BY`. The model takes the first matching row in storage order for single-row queries, and `Service.UserService.FindAll` returns the rows in storage order, whereas `find()` may return them in any order. With unique keys and ids at most one row matches a lookup.
- String comparison: the database compares usernames and emails under its collation, which may ignore case, so "Ada" and "ada" can clash in the program. The model compares strings exactly (`UserTable.Matches`).
- The ORM's `save` is modelled on insert as storing the new entity, and on update as writing the properties the object defines over the row (`UserTable.SaveOver`). Column defaults the entity may declare (such as one for `image`) are not modelled. Relations (`articles`, `favorites`) are stored as lists of article ids, as if always loaded.
- `Service.UserService.Update` and `UserTable.UpdatedRecord` assume the request carries no `id`. The spread would let a body with an `id` replace the loaded row's id, and `save` would then write over another row or insert one; the model's request type has no `id`.
- `Service.UserService.Update`, `UserTable.UpdatedRow`, `UserTable.UpdatedRecord`, `UserTable.Overlay`, `UserTable.SaveOver`: the request's properties are assumed never to be `null`; a request property is either absent (`None`) or a value. In the code the spread copies a `null` property (src/user/user.service.ts:81) and `save` writes it: `image: null` clears the stored image, `password: null` clears the stored digest so later logins make argon2 throw, and `favorites: null` removes every favorite. The model has no `null` request value and so does not capture these outcomes.
- `UserData.GenerateJWT`: jsonwebtoken adds an `iat` (issued at) claim to the signed claims unless told not to; the model's claims hold only `id`, `username`, `email` and `exp`.
- `HttpException` payloads are reduced to the status code and a reason (`NotUnique`, `InvalidInput`, `NotFound`). The message strings are not modelled.
- `Service.UserService.FindByEmail` requires some row to have the email: on a missing email the source passes null into `buildUserRO` and dereferences it.
- `Service.UserService.Update` requires some row to have the id: on a missing id the source deletes a property of null.
- Asynchrony and concurrency: each method runs to completion. The race between two registrations that both pass the uniqueness check before either saves is not modelled.
- The follow relationship entity (src/profile/follows.entity.ts) has no behaviour in the code and is not modelled.
