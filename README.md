# Email/password authentication server — Dafny model

This project models the server side of a small Express application that
registers accounts and logs them in. The server keeps an in-memory list of
users (email plus bcrypt hash). Two routes, `POST /api/signup` and
`POST /api/login`, each run the `validateAuthInput` middleware first and then
their handler. Each answers with an HTTP status, a `success` flag and either
a message or a signed JSON Web Token.

The model has four modules:

- `Wrappers` (`wrappers.dfy`): `Option` for a body field that may be missing,
  and `Call` (`Done(value)` or `Threw`) for a library call that may throw.
- `Validation` (`validation.dfy`): the middleware as the pure function
  `Validate`. Its three checks keep the source's order and messages. The
  email regex `^[^\s@]+@[^\s@]+\.[^\s@]+$` is `EmailPattern`, written as the
  concatenation of runs it matches. It is proved equal, in both directions,
  to `EmailShape`: exactly one `@`, not first; no whitespace and no other
  `@`; a `.` in the domain that is neither its first nor its last
  character. `\s` is ECMAScript's set of WhiteSpace and LineTerminator code
  points. `password.length` counts UTF-16 code units (`Utf16Length`)
  because Dafny characters are Unicode scalar values.
- `Auth` (`auth.dfy`): the `User`, `Payload` and `Response` datatypes. The
  route semantics are the functions `SignupOutcome` and `LoginOutcome`,
  from the user list and the request to the response (and, for signup, the
  new list). Lemmas about them state the route properties.
- `Server` (`server.dfy`): the class `AuthServer`. Its field
  `users: seq<User>` is the module-level array. Its methods are the
  handlers, with loops for `find` and `some`. Each method is proved equal
  to its `Auth` function. `Login` has no `modifies` clause, so the verifier
  checks that it never changes `users`. `Signup` keeps the invariant "no
  two users share an email". `ExampleSession` proves, for a fresh server,
  the sequence: signup 201, duplicate 409, wrong password 401, right
  password 200.

bcrypt and jsonwebtoken are not modelled. They are the class's function-typed
constants `hash`, `verify` and `sign`, each returning `Call<...>` so that a
throw can be expressed. The only fact assumed about them is `HashLaw`: a
password verifies against any hash successfully made from it. The random
salt bcrypt draws and the issue time `iat` jwt reads from the clock are
method parameters.

Three details of the handlers that are easy to misread:

- "both fields present" is JavaScript truthiness, so an empty string is
  rejected with "Email and password are required";
- the minimum length is measured in UTF-16 code units;
- the login handler looks the email up by exact, case-sensitive equality
  and takes the first match.

## Model

| member | source | states |
|---|---|---|
| `Validation.Validate` | server/src/server.ts:25-51 | The checks run in order. A missing or empty field gives 400 "Email and password are required" before anything else. A malformed email gives 400 "Invalid email format" whatever the password. A well-formed email with a password under 8 UTF-16 units gives 400 "Password must be at least 8 characters". A request is admitted iff all three checks pass, and it is admitted with the request's own email and password. |
| `Validation.IsSpace` | server/src/server.ts:38 | `\s` matches exactly ECMAScript's WhiteSpace and LineTerminator code points: tab, line feed, vertical tab, form feed, carriage return, space, U+00A0, U+1680, U+2000 to U+200A, U+2028, U+2029, U+202F, U+205F, U+3000 and U+FEFF. |
| `Validation.EmailPattern` | server/src/server.ts:38 | The regex `^[^\s@]+@[^\s@]+\.[^\s@]+$` holds of a string iff it splits into a non-empty `[^\s@]` run, an `@`, a non-empty run, a `.`, and a non-empty run. |
| `Validation.Truthy` | server/src/server.ts:31 | A body field passes `!field` iff it was sent and is not the empty string. |
| `Validation.EmailPatternIff` | server/src/server.ts:38 | The regex matches a string iff the string has exactly one `@`, which is not first; no whitespace or other `@`; and a `.` in the domain that is neither its first nor its last character. |
| `Validation.Utf16Length` | server/src/server.ts:43 | `password.length` is between the number of code points and twice that, and equals the number of code points when none is above U+FFFF. |
| `Validation.ExampleEmailMatches` | server/src/server.ts:38 | `a@b.com` matches the email regex. |
| `Validation.NoAtNoMatch` | server/src/server.ts:38 | A string with no `@` never matches the email regex. |
| `Validation.ExampleEmailAdmits` | server/src/server.ts:31-50 | `a@b.com` with any password of at least 8 code units passes the middleware unchanged. |
| `Validation.ExampleEmailRejected` | server/src/server.ts:38-41 | `not-an-email` with any non-empty password gets 400 "Invalid email format". |
| `Auth.Registered` | server/src/server.ts:92 | `some` holds iff some stored user's email equals the given one exactly. |
| `Auth.HashLaw` | server/src/server.ts:67 | The one law assumed of bcrypt: whenever `hash(p, rounds, salt)` returns a hash, `compare(p, that hash)` returns true. |
| `Auth.Lookup` | server/src/server.ts:60 | `find` returns nothing iff no user has the email. Otherwise it returns a stored user with exactly that email, and no earlier user has that email. |
| `Auth.SignupOutcome` | server/src/server.ts:85-112 | Signup answers 201, 400, 409 or 500. `success` holds iff the status is 201 iff a token is returned. The user list is either unchanged, or (for an email not yet registered) grows by one entry at the end that carries the request's email; the earlier entries stay as they were. |
| `Auth.LoginOutcome` | server/src/server.ts:53-83 | Login answers 200, 400, 401 or 500. `success` holds iff the status is 200 iff a token is returned. |
| `Auth.RejectedRequestTouchesNothing` | server/src/server.ts:25-51 | A request the middleware rejects gets the same 400 and message on both routes, and signup leaves the user list exactly unchanged. |
| `Auth.SignupDuplicate` | server/src/server.ts:92-98 | Signing up a registered email gives 409 "User already exists" and leaves the list unchanged, including the first account's stored hash. |
| `Auth.SignupAppends` | server/src/server.ts:100-104 | Signing up a fresh email whose password hashes to `h` stores exactly `users + [{email, h}]`, with every earlier entry unchanged. It answers 201 with the signed token, or 500 if signing throws. |
| `Auth.SignupInternalError` | server/src/server.ts:100-109 | For a fresh, valid signup, the status is 500 iff hashing or signing throws, and the message is then "Internal server error". A 500 that leaves the list changed means hashing succeeded, so the fault was in signing, after the push. |
| `Auth.SignupKeepsEmailsUnique` | server/src/server.ts:92-101 | If no two users shared an email before a signup, none do after it. |
| `Auth.LoginUnauthorizedIff` | server/src/server.ts:60-73 | A valid login gets 401 iff the email is unknown or the password check returns false. Both cases give the identical response 401 "Invalid credentials". |
| `Auth.LoginInternalError` | server/src/server.ts:67-80 | For a valid login, the status is 500 iff the email is known and either the password check throws, or it matches and signing throws; the response is then 500 "Internal server error". The status is 200 iff the email is known, the password matches and signing succeeds; the response then carries the signed token. |
| `Auth.LookupAppended` | server/src/server.ts:60 | After an account is pushed for an email no earlier user had, `find` on that email returns that account. |
| `Auth.SignupThenLogin` | server/src/server.ts:67-75 | Given the hash law, a fresh signup whose hashing succeeds means a login with the same credentials returns 200 with the token signed at login time, or 500 if that signing throws. It is never 401. |
| `Server.AuthServer.constructor` | server/src/server.ts:20 | The store starts empty, satisfies the invariant and holds the given library calls. |
| `Server.AuthServer.FindByEmail` | server/src/server.ts:60 | The loop returns exactly `Lookup(users, email)`: the first user with that email, or none. |
| `Server.AuthServer.EmailTaken` | server/src/server.ts:92 | The loop returns true iff some stored user has that email. |
| `Server.AuthServer.Login` | server/src/server.ts:53-83 | The handler, after the middleware, returns exactly `LoginOutcome` on the current list and never modifies `users`. |
| `Server.AuthServer.Signup` | server/src/server.ts:85-112 | The handler, after the middleware, returns `SignupOutcome`'s response. The new `users` is `SignupOutcome`'s list, computed from the old one. It keeps "no two users share an email". When it stores an account, the request's password verifies against the stored hash (by the hash law). |
| `Server.ExampleSession` | server/src/server.ts:53-112 | On a fresh server: signing up `a@b.com`/`password1` gives 201 with a token, signing up again gives 409, a wrong password gives 401, and the right password gives 200 with a token. |

## Left out

- Express plumbing is left out because it is transport only: CORS, JSON body parsing, `app.listen`, writing the status and JSON, and the `/api/landing-page` stub. A response is the datatype `Response(status, success, Message | Token)`.
- bcrypt's and jsonwebtoken's internals are left out because they are foreign library calls. So are the cost factor's effect, `JWT_SECRET`, dotenv and the `'1h'` expiry. They are the opaque function constants `hash`, `verify` and `sign`, and the only law assumed is `HashLaw`. Nothing in the handlers checks tokens, so token verification and expiry are not modelled.
- `Auth.SignupThenLogin` does not say the login token differs from the signup token: that depends on jwt embedding a different `iat`, which is library behaviour.
- `async`/`await` is left out, and with it the race between `some` and `push` in concurrent signups. The model runs one request at a time, and uniqueness is proved only for that sequential execution.
- `console.log`/`console.error` logging is left out because it is output only.
- Strings holding a lone UTF-16 surrogate (a JSON body may carry `"\ud800"`) are outside the model, because a Dafny `string` holds only Unicode scalar values. JavaScript treats such a character as one `[^\s@]` code unit counting 1 toward `.length`.
- Body fields are `Option<string>`. A non-string JSON value (a number, an object) and JavaScript's coercions of it are not modelled.
- server/src/routes/users.ts is not part of this model. It is an unmounted router returning fixed strings.
- client/src/SignUp.tsx, client/src/LandingPage.tsx and client/src/App.tsx are not part of this model. They hold the React form (validated by zod), local storage of the token and the presence-only route guard, and navigation.
