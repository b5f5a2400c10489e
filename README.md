# MentorVerse backend: request gates and account tables

This project models the part of the MentorVerse Express backend (`server.js`) that makes decisions:

- the authentication gate `authenticateToken`: it takes the token from the `Authorization` header, has the JWT library verify it, and either sets `req.user` and calls `next()` or answers 401/403;
- the role gate `isAdmin`, which every admin route runs after `authenticateToken`;
- the login decision procedure: user found, then account active, then password matches, then a token over `{user_id, email, role}` valid for 24h;
- registration and course enrollment, seen as updates of the `users`, `user_settings` and `course_enrollments` tables.

The browser's side is included only as the line that builds the header, `"Bearer " + token` (`global.js`).

Modules:

- `Wrappers` (`wrappers.dfy`): `Option`.
- `Header` (`header.dfy`): JavaScript's `split(' ')` as `Split`, its inverse `Join`, and token extraction `ExtractToken`. Also the browser's `ClientHeader` and the round trip between the two.
- `Middleware` (`middleware.dfy`): the gate decisions as functions (`Authenticate`, `RequireAdmin`, `AdminChain`). A `Request` class whose methods `AuthenticateToken` and `IsAdmin` update `user`, `response` and a count of `next()` calls. Route runners that chain the gates as the routes do.
- `Accounts` (`accounts.dfy`): `Login` as a function over the users table. A `Database` class holding the tables, with the in-place updates `Register` and `Enroll`.
- `Routes` (`routes.dfy`): the enroll route behind the authentication gate. The journey of an issued token back through the gates.

The external libraries become parameters:
- `jwt.verify` is `verify: string -> Option<Claims>`;
- `jwt.sign` is `sign: (Claims, string) -> string`;
- `bcrypt.compare` is `passwordMatches: (string, string) -> bool`;
- the output of `bcrypt.hash` is the `passwordHash` argument of `Register`.

Where signing and verifying must fit together, the predicate `Routes.TokenCodec` states what is assumed of them.

Points where the code is looser than a strict bearer-token scheme, and the model keeps the code's behaviour:
- A strict bearer parser would require the `Bearer ` prefix. `authenticateToken` never reads the scheme word: `"Basic t"` yields `t` (`Header.SchemeIgnored`).
- The JWT library can fail for a malformed, a badly signed or an expired token. `authenticateToken` answers all three with one 403 `Invalid token`, so `verify` returns only `Some`/`None`.
- `isAdmin` compares the role string with `'admin'`; no other role value is treated specially.
- The role inside a token is never re-checked against the users table. `AdminChain` depends only on the header and the verifier. `Routes.IssuedTokenOpensGates` shows the admin chain opens according to the role stored *when the token was issued*.

## Model

| member | source | states |
|---|---|---|
| Header.Split | server.js:54 | `split(' ')` always gives at least one field and no field contains a space (its recursive calls' contracts carry this) |
| Header.JoinSplit | server.js:54 | joining the fields of `split(' ')` with single spaces gives back the header exactly: splitting loses nothing |
| Header.SplitJoin | server.js:54 | splitting space-joined, space-free fields gives back exactly those fields |
| Header.SplitNoSeparator | server.js:54 | a string without a space splits into itself alone |
| Header.SplitAfterField | server.js:54 | a space-free word followed by a space becomes the first field, and the rest splits on its own |
| Header.ExtractToken | server.js:53-56 | an extracted token is never empty and never contains a space |
| Header.TokenIsSecondField | server.js:54-56 | for any header made of space-free fields, the token is exactly the second field, or none when it is empty; other fields are ignored |
| Header.SchemeIgnored | server.js:54 | `scheme + " " + token` yields `token` for every scheme word: the `Bearer` prefix is not checked |
| Header.NoSpaceNoToken | server.js:53-56 | a header with no space yields no token |
| Header.DoubleSpaceNoToken | server.js:54-56 | two spaces after the scheme leave the second field empty, so no token, whatever follows |
| Header.HeaderExamples | server.js:54-56 | `"Basic t"` yields `t`; `"Bearer  x"` yields nothing |
| Header.ClientHeaderRoundTrip | global.js:14-16 | on a call made with `auth` set, the header the browser builds from a stored non-empty, space-free token parses back to exactly that token; with no stored token none is extracted |
| Header.ClientHeader | global.js:14-16 | the header of a call made with `auth` set; `Header.ClientHeaderRoundTrip` states that the server extracts exactly the stored token from it |
| Middleware.MissingTokenDenied | server.js:53-56 | with no token both the authenticated and the admin chain answer 401 `Access denied`, whatever the verifier would say: verification is not consulted and no role check comes first |
| Middleware.Authenticate | server.js:52-63 | the gate answers only 401 (exactly when there is no token) or 403 `Invalid token` (exactly when the verifier refuses it); when it continues, the user is the verifier's decoding of the header's token |
| Middleware.RequireAdmin | server.js:66-71 | `isAdmin` continues if and only if the role is `admin`, keeps the user unchanged, and otherwise answers 403 `Admin access required` |
| Middleware.AdminChain | server.js:453 | an admin handler is reached if and only if a token is present, it verifies, and the decoded role is `admin`; the handler sees the decoded claims |
| Middleware.AdminChainRejections | server.js:52-71 | the admin chain's rejections in decision order: 401 for a missing token, then 403 `Invalid token`, then 403 `Admin access required`; nothing else |
| Middleware.Request.AuthenticateToken | server.js:52-63 | on success `req.user` becomes the decoded claims and `next()` is called exactly once; on failure the response is set, `req.user` is left unset and `next()` is not called |
| Middleware.Request.IsAdmin | server.js:66-71 | calls `next()` exactly once for an admin, otherwise answers 403; never changes `req.user` |
| Middleware.RunAuthenticatedRoute | server.js:272 | a route behind `authenticateToken` runs its handler exactly when the gate continues; a rejected request keeps no user |
| Middleware.RunAdminRoute | server.js:453 | `authenticateToken, isAdmin, handler`: the handler runs exactly when the admin chain continues, with an admin user and no response sent; otherwise the chain's rejection is the response, `req.user` stays unset after a 401 or `Invalid token`, and holds the decoded non-admin claims after `Admin access required` |
| Accounts.Login | server.js:113-161 | a token is issued if and only if the user is found, active and the password matches; the token signs exactly `{user_id, email, role}` of the stored record with `24h`, and the response user is that record |
| Accounts.ClaimsOf | server.js:141-145 | the payload signed at login, `{user_id, email, role}` of the stored row; `Accounts.Login` and `Routes.IssuedTokenOpensGates` state that the issued token carries exactly it |
| Accounts.LoginUnknownEmail | server.js:118-125 | an unknown or absent email gives 401 `Invalid credentials` whatever the password |
| Accounts.LoginInactiveBeforePassword | server.js:127-138 | an inactive account gives 403 `Account is inactive`, and neither the password nor the password check can change that answer |
| Accounts.LoginWrongPasswordLikeUnknownEmail | server.js:123-138 | a wrong password on an active account gets the same 401 `Invalid credentials` as an unknown email |
| Accounts.Complete | server.js:83-85 | the three required fields are truthy; `Accounts.Database.Register` states that failing it is refused with 400 `All fields are required` before anything else |
| Accounts.Database.NewUser | server.js:97-100 | the row the INSERT stores; `Accounts.Database.Register` states that it is added under the email and nothing else is, and `Routes.RegisteredUserLogsIn` that it can log in |
| Accounts.Database.Register | server.js:78-105 | missing `full_name`/`email`/`password` gives 400 `All fields are required` first, then a taken email gives 400 `Email already registered`, both changing nothing; otherwise exactly one user with a fresh id and one settings row for that id are added; every user keeps a settings row and a unique id |
| Accounts.Database.Enroll | server.js:277-292 | a (user, course) pair already present gives 400 `Already enrolled in this course` and changes nothing; otherwise exactly that pair is added |
| Routes.EnrollRoute | server.js:272-292 | a request the authentication gate rejects never reaches the handler and leaves the enrollments unchanged; otherwise the token's user is enrolled as `Enroll` states; users and settings never change |
| Routes.IssuedTokenOpensGates | server.js:141-145 | a token issued by login, sent back as `"Bearer " + token`, passes `authenticateToken` with exactly the stored `{user_id, email, role}`, and passes the admin chain if and only if the stored role was `admin` |
| Routes.RegisteredUserLogsIn | server.js:97-145 | the row `Database.Register` stores for a complete registration lets that email log in with the registered password, when new accounts default to active and the stored hash matches the password; the token carries the new id, the email and the default role |

## Left out

- JWT cryptography, the clock and expiry are not modelled. `sign` and `verify` are parameters, and `Routes.TokenCodec` assumes that a signed token is a non-empty string without spaces (the compact JWS form) and verifies back to exactly its claims within its lifetime. The `iat`/`exp` fields that `jsonwebtoken` adds to the decoded payload are not part of `Claims`.
- bcrypt is not modelled. `passwordMatches` stands for `bcrypt.compare`, and the salted output of `bcrypt.hash` is an argument to `Register`.
- The MySQL pool and SQL text are replaced by in-memory tables. Emails are compared exactly, not by the column's collation (typically case- and accent-insensitive), which is not modelled. The `users` table is assumed to hold at most one row per email, which the map enforces.
- The defaults of the `role`, `is_active` and enrollment `status` columns come from a schema that is not part of this model. `role` and `is_active` are fixed when the `Database` is constructed.
- The catch-all 500 responses of every handler are left out. They come only from database or library failures, including `bcrypt.compare` throwing on a login request with no password.
- `Accounts.Database.Register` and `Accounts.Database.Enroll` return their outcome, not the HTTP body. Success is 201 `Registration successful` with the new `user_id` for registration, and `Enrolled successfully` for enrollment.
- Accounts.Database.Enroll: course ids are compared as the exact text of the path segment, not by the SQL comparison `course_id = ?`. `course_enrollments.course_id` is an integer column holding the auto-increment `courses.course_id`, so MySQL treats `05` and `5` as the same course and refuses the second enrollment. The model enrolls both.
- Routes.EnrollRoute: inherits the exact-text comparison of course ids from `Accounts.Database.Enroll`.
- Accounts.Database.Register: every body field (`full_name`, `email`, `password` and the optional `college_name`, `branch`, `year`, `mobile`) is taken as an optional string. Other JSON values are not represented: a falsy `full_name: 0` or `false` (400 in the source) and a numeric `password` (on which `bcrypt.hash` throws, giving 500).
- `Accounts.Login`: the user record in the response is modelled, but the other fields of the selected row are not.
- `Middleware.Request.IsAdmin` requires `req.user` to be set. Every route in `server.js` runs it after `authenticateToken`; on its own it would throw a TypeError.
- The read-only routes are out of scope: courses, internships, webinars, certificates, learning content, profile reads, admin stats/users/applications. So are profile update, internship application, contact messages and admin course/application updates. Each forwards a single query and makes no decision of its own.
- The webinar registration's duplicate check is left out. It is the database refusing a duplicate row (`ER_DUP_ENTRY`), and the constraint behind it is part of the schema, which is not part of this model.
- multer uploads, static files, `app.listen`, the SIGINT handler and CORS are I/O and process lifecycle.
- Concurrent requests are not modelled. Each route method runs alone, so two registrations racing on one email are not captured.
- The browser scripts are not modelled, apart from the header construction in `global.js`.
