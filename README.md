# User management backend: user store, login and password reset

This project models the core of a NestJS user-management backend in Dafny:

- `UserService`, the service over the user table. It registers users, updates and deletes
  profiles, looks users up, writes the password-reset token and the password, and lists users
  page by page.
- `AuthService`. Login checks credentials and signs a session token. forgotPassword stores a
  signed reset token with a 15-minute expiry and mails a link. resetPassword checks the token,
  its expiry and the password confirmation, then changes the password.
- The constraints `CreateUserDto` declares on a registration body, above all the password
  policy.

The table is a `seq<User>` in database order. `UserService` is a class whose methods change that
sequence. Each change is stated through pure functions (`FindFirst`, `Filter`, `UpdateWhere`), and
the lemmas are proved about those functions. `AuthService` is a class over the same store. Its
methods are proved equal to the pure functions `LoginDecision`, `Forgot` and `Reset`, and the
lemmas about the reset-token state machine are proved about those functions.

Collaborators are modelled as follows:

- bcrypt is an idealised injective `Hash(password, salt)`, compared only through `Matches`.
- jsonwebtoken is `Sign`/`Verify` over a canonical text encoding of the claims. `Verify` accepts
  exactly the texts `Sign` produces (`VerifySigned`, `OnlySignedVerify`). jsonwebtoken's `iat`
  claim (the issue time in whole seconds) is part of the claims.
- The clock is a parameter `now` in milliseconds.
- The mailer's answer is a boolean parameter `delivered`.
- The salt bcrypt would draw at random is a parameter.

Errors are modelled as the kind of exception thrown plus the status the service's `catch` block
re-throws with (`Http.Rethrow`). createUser, updateUserById, deleteUserById, getUserById and
login re-throw with `error.status || 500`, so the Nest status (400, 401 or 404) survives.
forgotPassword re-throws with `error.statusCode || 500` and resetPassword with
`error.statusCode || 400`. Nest exceptions have no `statusCode` field, so every forgotPassword
failure reaches the client as 500, both the unknown email and the mail that was not delivered.
Every resetPassword error reaches the client as 400.

Where the code does something other than what the system evidently intends, the model follows the code:

- The reset fields are meant to be cleared after a successful reset. The code's clearing call
  has no effect, so they are not cleared (see Findings).
- Registration checks email and phone uniqueness across all records, active or not.
- updateUserById changes the phone without any uniqueness check. So the model's table
  invariant (`TableInvariant`) covers unique ids and emails, not phones.
- Login does not filter on `is_active`, so inactive users can log in.
- src/main.ts:6-21 installs no validation pipe. The `CreateUserDto` decorators are declared but
  nothing applies them, so `CreateUser` does not require `Violations(dto) == {}`.

## Model

| member | source | states |
|---|---|---|
| `Http.Rethrow` | src/api/user/user.service.ts:55-60 | The re-thrown error keeps its kind and message. With `error.statusCode` it always takes the fallback status. With `error.status`, BadRequest keeps 400, NotFound keeps 404 and Unauthorized keeps 401. A JWT error or TypeError, which has no `status`, takes the fallback. |
| `Bcrypt.MatchesExactly` | src/api/auth/auth.service.ts:31-34 | `compare` accepts a digest for the password it was made from and for no other. |
| `Jwt.VerifySigned` | src/api/auth/auth.service.ts:69-73 | A signed token verifies and yields exactly the claims it was signed with. |
| `Jwt.OnlySignedVerify` | src/api/auth/auth.service.ts:108-110 | A token that verifies is the signature of its claims: a tampered token does not verify under other claims. |
| `Jwt.SignInjective` | src/api/auth/auth.service.ts:69-73 | Two tokens are equal exactly when their claims are equal, including the issue second. |
| `UserDto.Utf16Length` | src/api/user/dto/create-user.dto.ts:37 | A string's JavaScript length lies between its character count and twice that. |
| `UserDto.PatternCharacterisation` | src/api/user/dto/create-user.dto.ts:37 | The password pattern matches exactly one line with an ASCII digit, an upper-case and a lower-case letter, of 8 to 12 UTF-16 code units. |
| `UserDto.PasswordViolations` | src/api/user/dto/create-user.dto.ts:34-40 | A pattern failure is reported with the PASSWORD_INVALID message. MinLength(8) fails exactly below 8 characters and MaxLength(12) exactly above 12. |
| `UserDto.PasswordAccepted` | src/api/user/dto/create-user.dto.ts:35-37 | A password passes all its constraints exactly when it has at least 8 characters, at most 12 code units, no line terminator, and a digit, an upper-case and a lower-case letter. It then has 8 to 12 characters. |
| `UserDto.Violations` | src/api/user/dto/create-user.dto.ts:17-40 | A body is accepted exactly when first name, last name, phone and email are non-empty and the password passes. `is_active` and `role` may be absent. |
| `UserStore.FindFirst` | src/api/user/user.service.ts:126-134 | `findOne` finds nothing exactly when no record matches. Otherwise it finds the first matching record in table order. |
| `UserStore.Filter` | src/api/user/user.service.ts:214-216 | The kept rows are exactly the table's rows for which the clause holds (or fails), with none added. |
| `UserStore.Apply` | src/api/user/user.service.ts:77-83 | No change touches id, email or role. The profile change sets first name, last name, phone and active flag to the body's values, keeps a column whose field is absent, and leaves password and reset fields alone. The reset write sets token and expiry together. The password write touches only the password. |
| `UserStore.UpdateWhere` | src/api/user/user.service.ts:170-175 | An UPDATE changes exactly the selected records and keeps the others and the table's length. |
| `UserStore.UpdateKeepsInvariant` | src/api/user/user.service.ts:190-195 | Every UPDATE the services run keeps ids below the next id, ids and emails unique, and reset fields paired. |
| `UserStore.FilterKeepsInvariant` | src/api/user/user.service.ts:108 | Deleting rows keeps the table invariant. |
| `UserStore.DeleteRemovesOne` | src/api/user/user.service.ts:108 | Deleting by an existing id removes exactly one record. |
| `UserStore.FindAfterUpdateByEmail` | src/api/user/user.service.ts:163-176 | After an UPDATE keyed on an email, looking that email up finds the updated version of the same record. |
| `UserStore.NewRecord` | src/api/user/user.service.ts:38-45 | A new record has role SUB, whatever role the body declares (default SUPER). Its password is a digest that matches the plaintext. Its reset fields are null. Its names, phone and email come from the body. Its active flag is the table's default, whatever `is_active` the body sends. |
| `UserStore.RegistrationIgnoresDeclaredRole` | src/api/user/dto/create-user.dto.ts:47-50 | A body without a role declares SUPER, yet every new record is SUB. |
| `UserStore.Page` | src/api/user/user.service.ts:218-221 | `skip`/`take` returns at most `take` rows, the ones starting at offset `skip`, in order. |
| `UserStore.UserService.GetUserByEmail` | src/api/user/user.service.ts:126-134 | Finds a record exactly when some record, active or not, has the email. |
| `UserStore.UserService.GetUserById` | src/api/user/user.service.ts:137-160 | Fails NotFound (404) exactly when no active record has the id. Otherwise returns that active record with 200. |
| `UserStore.UserService.CreateUser` | src/api/user/user.service.ts:20-61 | A taken email fails with EMAIL_ALREADY_EXISTS (400). Only then is the phone checked: a taken phone fails with PHONE_ALREADY_EXISTS (400). Both failures leave the table unchanged. Otherwise exactly one record, `NewRecord`, is appended, and the reply is 201 with the password left out. |
| `UserStore.UserService.UpdateUserById` | src/api/user/user.service.ts:64-97 | Without an active record with the id it fails NotFound and changes nothing. Otherwise only that record's first name, last name, phone and active flag change, and the reply is 201. |
| `UserStore.UserService.DeleteUserById` | src/api/user/user.service.ts:100-122 | Without an active record with the id it fails NotFound, so inactive records cannot be deleted. Otherwise exactly that record is removed and the reply is 200. |
| `UserStore.UserService.SetTokenAndDate` | src/api/user/user.service.ts:163-183 | Token and expiry are written together on the records with the email, and only when both are given. With either null the table is unchanged. |
| `UserStore.UserService.UserPasswordUpdate` | src/api/user/user.service.ts:186-203 | Replaces only the password of the records with the email, and always returns true. |
| `UserStore.UserService.FindAllUsers` | src/api/user/user.service.ts:206-234 | Page 0 becomes 1 and limit 0 becomes 5. The reply holds at most `limit` rows from offset `(page-1)*limit`, all from the table. When a name is given, every row's first name contains it. |
| `UserStore.UserService.ClearTokenAndDate` | src/api/auth/auth.service.ts:132-136 | Corrected clearing step: both reset fields of the records with the email become null. |
| `Auth.LoginDecision` | src/api/auth/auth.service.ts:23-56 | An unknown email fails with EMAIL_CREDENTIAL (401) whatever the password. A wrong password fails with the distinct INVALID_PASSWORD_CREDENTIALS (401). Success, with active flag ignored, happens exactly when the record's digest matches. It returns 201, the profile without password, and a token that verifies to `{email, role}`. |
| `Auth.Forgot` | src/api/auth/auth.service.ts:59-103 | An unknown email fails and changes nothing, with no mail. An undelivered mail fails NotFound. Both surface as 500. It succeeds exactly when the email is known and the mail is delivered, and then replies 201 with "Forgot password email sent". For a known email the new table is the old one with the new token and expiry written on that email's records. Its length and every other record stay the same. |
| `Auth.ForgotStoresToken` | src/api/auth/auth.service.ts:69-91 | The user's record gets a token that verifies to `{user: id, email}` and an expiry of exactly now + 900000 ms, whether or not the mail is delivered. The mail carries `protocol://host/auth/password-reset/token`. |
| `Auth.Reset` | src/api/auth/auth.service.ts:106-154 | An unverifiable token fails with 400 and changes nothing. A token whose email has no record fails with a TypeError, surfaced as 400, and changes nothing. The reply is 201 USER_PASSWORD_UPDATED exactly when the token equals the stored token, the stored expiry is at or after now, and the password equals its confirmation. If the record is found but any of those three fails, the reply is 406 LINK_EXPIRE, not an error, and the table is unchanged. On success only the password of the token email's records changes, and the table keeps its length. |
| `Auth.ResetKeepsToken` | src/api/auth/auth.service.ts:126-136 | After a successful reset the record has the new digest and still holds the same token and expiry. |
| `Auth.ResetWithinWindow` | src/api/auth/auth.service.ts:117-121 | A link used between issue time and issue time + 15 minutes (inclusive) succeeds, even when the mail failed. |
| `Auth.ResetMismatchedPasswords` | src/api/auth/auth.service.ts:123-147 | A valid, unexpired link whose confirmation differs from the password gets 406 LINK_EXPIRE, and nothing changes. |
| `Auth.ResetAfterWindow` | src/api/auth/auth.service.ts:117-121 | After the 15 minutes the same link gets 406 LINK_EXPIRE and nothing changes. |
| `Auth.ReplayAfterReset` | src/api/auth/auth.service.ts:132-136 | As written, a used link succeeds again, with any new password, until the stored expiry passes. |
| `Auth.ReissueRevokesOlderToken` | src/api/auth/auth.service.ts:119-121 | After a newer forgotPassword in a later second, the older link gets 406 whatever the passwords and the time. |
| `Auth.ReissueInSameSecondKeepsToken` | src/api/auth/auth.service.ts:69-73 | A newer forgotPassword in the same second signs the same token, so the older link stays valid. |
| `Auth.ResetClearingToken` | src/api/auth/auth.service.ts:132-136 | Corrected reset: same reply as `Reset`. On success the new digest is written and then the reset fields are cleared, on the token email's records. On failure nothing changes. |
| `Auth.ClearingResetWrites` | src/api/auth/auth.service.ts:124-136 | After a corrected successful reset, the token's record has the new digest and null reset fields. Every record with another email is unchanged, and no record is added or removed. |
| `Auth.ClearedTokenIsSingleUse` | src/api/auth/auth.service.ts:132-136 | With the clearing step in force, a link that succeeded once gets 406 on every later use, and nothing changes. |
| `Auth.AuthService.Login` | src/api/auth/auth.service.ts:23-56 | Login is exactly `LoginDecision` on the current table and changes nothing. |
| `Auth.AuthService.ForgotPassword` | src/api/auth/auth.service.ts:59-103 | Outcome, mail and new table are exactly those of `Forgot`. The table invariant is kept. |
| `Auth.AuthService.ResetPassword` | src/api/auth/auth.service.ts:106-154 | Outcome and new table are exactly those of `Reset`, so the null clearing call changes nothing. The table invariant is kept. |
| `Auth.AuthService.ResetPasswordClearingToken` | src/api/auth/auth.service.ts:132-136 | The corrected handler: outcome and new table are exactly those of `ResetClearingToken`. |

## Findings

| source | as written | input that shows it | evidently intended | confidence | as-written member | corrected member |
|---|---|---|---|---|---|---|
| src/api/auth/auth.service.ts:132-136 | After the password change, resetPassword calls `setTokenAndDate(email, null, null)` to clear the link. setTokenAndDate writes only when both values are non-null (src/api/user/user.service.ts:169), so nothing is cleared. | forgotPassword for a known email at time t. Then resetPassword(T, "Passw0rd!", "Passw0rd!") at t + 1 s succeeds. Then resetPassword(T, "0therPass", "0therPass") at t + 2 s succeeds again. | The reset fields are cleared after a successful reset, so a link works once. | high; not executed | `Auth.ReplayAfterReset` | `Auth.ClearedTokenIsSingleUse` |

## Left out

- Controllers, `JwtStrategy`, src/main.ts and src/app.module.ts are routing and wiring only. The user controller calls `findAlluser`, which does not exist, so `FindAllUsers` is modelled directly.
- bcrypt's salting rounds and algorithm are not modelled. Its truncation of passwords to 72 bytes is not modelled either: `Matches` tells apart passwords that bcrypt would confuse.
- JWT headers, base64url, JSON and the HMAC are not modelled. The signing secret lives in a file that is not part of this model. `Sign`/`Verify` stand for signing under one secret, so the login token and the reset token share it. An `exp` claim that the JWT module configuration might add to login tokens is not part of this model.
- The mailer is a boolean answer. A mailer that throws is not modelled.
- Database failures are not modelled, nor the `catch` paths they would take.
- MySQL `LIKE` is modelled as substring containment. Case-insensitive collation and `%`/`_` acting as wildcards in `name` are not modelled.
- Rows come back in table order. The database's actual order without ORDER BY is not modelled.
- The stored expiry keeps millisecond precision. The column type is in the entity file, which is not part of this model, and a MySQL DATETIME column would round it to the second.
- Unique constraints the entity might declare are not part of this model.
- `UserStore.UserService.FindAllUsers`: page and limit are natural numbers. Negative values and query strings that are not numbers are not modelled.
- `UserStore.UserService.UpdateUserById`: a body with none of the four fields is treated as a successful no-op. What TypeORM does with an empty SET is not modelled.
- updateUserById and deleteUserById fall through and reply with nothing when `affected` is 0. That cannot happen once the record was found, and the model has no concurrent writers.
- `UserStore.UserService.CreateUser`: the reply carries the profile. The saved entity also echoes `is_active`, and that field is not in the reply.
- `UserDto.Violations`: `@IsEmail()` is not modelled, so the model accepts bodies whose email is not an address.
- `UserDto.PasswordViolations`: validator.js versions that also discount U+FE0E/U+FE0F in MinLength/MaxLength are not modelled.
- `phone` is kept as text. The body declares a number, and `@IsNotEmpty()` is read as "non-empty".
- Lookups by email and phone (`Selects` with `ByEmail`/`ByPhone`) use exact string equality. MySQL's default collations compare case-insensitively, and the older PAD SPACE collations also ignore trailing spaces. So the database would treat "A@x.com" as a duplicate of "a@x.com", and login with "A@x.com" would find the stored "a@x.com". The model treats them as different emails.
- A registration or login body without `email` or `phone` is not modelled: fields are strings, never `undefined`. TypeORM drops `undefined` where-keys, so in the real service such a lookup matches the first row.
- Missing or non-string `password`/`confirm_password` fields are not modelled: passwords are strings. resetPassword has no body DTO. A body `{}` sent with a valid, unexpired token passes `undefined == undefined`, and `bcrypt.hash(undefined, …)` then rejects, which surfaces as 400 where the model replies 201. A numeric `password` equal to a string `confirm_password` also passes `==`. A login or registration body without `password` makes `bcrypt.compare`/`bcrypt.hash` throw, which surfaces as 500.
- `Auth.ReissueInSameSecondKeepsToken`: one clock reading `now` stands for both the `iat` that `jwt.sign` reads and the `Date.now()` that the expiry uses. In the real service the two readings can fall in different seconds.
- Concurrency is not modelled: async/await and last-write-wins races on the reset fields.
