# Task-list service: request decisions, modelled in Dafny

This project models the request-handling core of a small multi-user task
list service. Users register and log in. They then create, list, update
and delete their own text tasks, authenticating each task request with a
bearer token. The service has two entry points that implement nearly the
same flows and are modelled separately, as written:

- `server.js`: a standalone app with its own token gate, `/register`,
  `/login` and `POST/GET/PUT/DELETE /tasks`.
- The router-and-controller app: `routes/taskRoutes.js` (its own token
  gate and three bindings), `controllers/taskController.js` and
  `controllers/authController.js`.

The document database is replaced by an in-memory store: a `Db` class
whose fields are the user table (`map<Username, User>`), the task table
(`map<TaskId, Task>`) and the next fresh identifier. Every handler is a
method that returns a `Response(status, body)`. It changes exactly one
row or nothing, and its contract says which. Password hashing and tokens
are symbolic stand-ins:

- `Hash`/`Compare`: a password matches exactly the digest made from it.
- `Sign`/`Verify`: a signed token verifies, under the same secret, to
  exactly the signed claims. It never verifies under another secret.

Files, one module each: `wrappers.dfy` (Option), `jstext.dfy`
(JavaScript truthiness, `split`, `trim`), `decimal.dfy` (identifier
text), `crypto.dfy`, `store.dfy`, `http.dfy`, `server.dfy`,
`task_controller.dfy`, `auth_controller.dfy`, `task_routes.dfy`,
`config.dfy` (where the router app's secret comes from) and
`end_to_end.dfy` (properties spanning several requests).

Store failures are an input. The flag `outage` says every store call of
the request fails. The controllers catch this and answer 500. In
`server.js` only the update handler has a `try`. Everywhere else there,
the failure rejects the handler's promise. Assuming Express 4, which
does not handle a rejected promise, no response is sent (`Unanswered`);
the Node process may also exit. Express 5 would answer 500 instead.

Two behaviours of `server.js` worth knowing:

- The register handler has no `try`, so a store error during
  registration sends no response.
- The update handler refuses all-whitespace text, but stores the text
  it was sent, untrimmed.

## Model

| member | source | states |
|---|---|---|
| JsText.Split | routes/taskRoutes.js:10 | splitting at a one-character separator gives at least one field, no field contains the separator, and joining the fields gives the input back |
| JsText.SplitJoin | routes/taskRoutes.js:10 | splitting inverts joining when no field contains the separator |
| JsText.Trim | server.js:139 | trimming cuts exactly the leading and trailing whitespace: the result is the piece of the input between a blank prefix and a blank suffix, neither starts nor ends with whitespace, and is empty exactly when the input is all whitespace |
| Decimal.NatText | server.js:151 | an identifier's string form is a non-empty run of digits |
| Decimal.ParseNat | server.js:145 | casting an `:id` string to an identifier succeeds exactly on non-empty digit strings |
| Decimal.ParseNatText | server.js:145 | casting an identifier's string form gives that identifier back |
| Decimal.NatTextInjective | server.js:151 | two identifiers have equal string forms exactly when they are equal |
| Crypto.Hash | server.js:80 | the digest records the cost factor and matches the hashed password and no other |
| Crypto.Sign | server.js:104 | signing fails exactly for an empty secret; otherwise the token is non-empty, has no spaces, and verifies under the same secret to exactly the signed claims |
| Crypto.Compare | server.js:98 | a password matches a digest exactly when the digest was made from that password (see `Crypto.Hash`) |
| Crypto.Verify | server.js:53-54 | a token verifies only under a non-empty secret whose tag it carries |
| Crypto.WrongSecretRejected | server.js:53-54 | a token signed with one secret never verifies under a different secret |
| Crypto.VerifiesUnderOneSecret | routes/taskRoutes.js:17 | a token that verifies under one secret verifies under no other |
| Store.TaskSchemaAccepts | models/taskModel.js:5 | the task schema, as in server.js:32, accepts a task only when its text is non-empty; the owner is always present |
| Store.CredentialsMatch | server.js:92-101 | login accepts exactly a known username whose stored digest matches the password, as in controllers/authController.js:36 |
| Store.SameOwner | server.js:151 | comparing the string forms of two owner identifiers is true exactly when they are equal |
| Store.OwnedBy | server.js:128 | the owner-filtered query holds exactly the tasks with that owner, unchanged |
| Store.Db.Valid | server.js:31-40 | the store invariant: each user is filed under its own username, user identifiers are unique, and every stored task passes the task schema; every identifier is below the next fresh one |
| Store.Db.InsertUser | server.js:81-83 | saving a user adds exactly that user under a fresh identifier and keeps the store invariant |
| Store.Db.InsertTask | server.js:119-120 | saving a task adds exactly that task under a fresh identifier and keeps the store invariant |
| Store.Db.ReplaceText | server.js:156-157 | saving an edited task replaces only that task's text, keeping its owner |
| Store.Db.Remove | server.js:181 | deleting by identifier removes exactly that key |
| ServerApp.UserSchemaAccepts | server.js:38 | the user schema accepts a user only when the username is non-empty (the password is always a digest) |
| ServerApp.BearerToken | server.js:48 | no header gives no token, and an extracted token never contains a space |
| ServerApp.AuthenticateToken | server.js:47-58 | no truthy token gives 401 "Access Denied", a token that fails verification gives 403 "Invalid token", each leaving `req.user` alone; otherwise `req.user` becomes the decoded claims and `next` is called |
| ServerApp.Register | server.js:70-85 | a taken username gives 400 with the store unchanged; otherwise exactly one user is added, holding `Hash(password)`, with 201; an empty username fails the schema and a store failure leaves the request unanswered, both with nothing stored |
| ServerApp.Login | server.js:88-106 | unknown username and wrong password give the identical 400 "Invalid username or password"; good credentials give 200 with the username and a token that verifies to the stored user's id with a one-hour lifetime |
| ServerApp.CreateTask | server.js:109-123 | missing or empty text gives 400 with nothing stored; otherwise exactly one task with that text, owned by the caller, is added under a fresh id, with 201 "Task added" |
| ServerApp.ListTasks | server.js:126-130 | 200 with exactly the tasks whose owner is the caller |
| ServerApp.UpdateTask | server.js:133-164 | absent, empty or all-whitespace text gives 400 before any lookup; a store failure or malformed id gives 500, an unknown id 404, another owner's task 403, each with the store unchanged; otherwise only that task's text changes, to the text as sent, and 200 returns the task |
| ServerApp.DeleteTask | server.js:167-183 | unknown id gives 404 and another owner's task 403, each with the store unchanged; otherwise exactly that id is removed, with 200 |
| ServerApp.Handle | server.js:109-167 | every task route runs the gate first; a request the gate stops gets 401 or 403 and changes nothing; an admitted list request returns the token owner's tasks |
| TaskController.GetTasks | controllers/taskController.js:4-11 | 200 with exactly the caller's tasks, or 500 on a store failure |
| TaskController.AddTask | controllers/taskController.js:14-33 | missing or empty text gives 400 `{message: 'Task text is required'}` with nothing saved (blank text is accepted); otherwise exactly one task owned by the caller is saved and returned with 201; a store failure gives 500 |
| TaskController.DeleteTask | controllers/taskController.js:36-54 | unknown id gives 404 and a non-owner 403, each with the store unchanged; otherwise exactly that task is removed, with 200; a store failure or malformed id gives 500 |
| AuthController.RegisterUser | controllers/authController.js:8-26 | a taken username gives 400 with no user added; otherwise exactly one user holding `Hash(password)` is added, with 201; a store failure gives 500 |
| AuthController.LoginUser | controllers/authController.js:30-46 | unknown username and wrong password give the identical 401 "Invalid credentials"; good credentials give 200 `{token}`, signed under SECRET_KEY or else `'yourSecretKey'`, whose claims name the stored user's id and carry no lifetime; a store failure gives 500 |
| TaskRoutes.BearerToken | routes/taskRoutes.js:9-10 | no header gives no token, and an extracted token never contains a space |
| TaskRoutes.TokenAfterScheme | routes/taskRoutes.js:10 | a header `<scheme> <token>`, with or without further space-separated fields, yields exactly `<token>`, whatever the scheme |
| TaskRoutes.HeaderExamples | routes/taskRoutes.js:10-13 | "Basic abc" yields "abc"; "Bearer" yields no token |
| TaskRoutes.EmptyTokenExamples | routes/taskRoutes.js:10-13 | "Bearer ", "Bearer  x" and "" yield no truthy token |
| TaskRoutes.AuthenticateToken | routes/taskRoutes.js:8-23 | no truthy token gives 401 "Access Denied", a failed verification gives 403 "Invalid Token", each leaving `req.user` alone; otherwise `req.user` becomes the decoded claims and `next` is called |
| TaskRoutes.Handle | routes/taskRoutes.js:6-27 | all three bindings pass through the gate first, which verifies with SECRET_KEY or else `'123456'`; a stopped request gets 401 or 403 and changes nothing; an admitted list request returns the token owner's tasks |
| TaskRoutes.HandleCorrected | routes/taskRoutes.js:6-27 | the router with the gate verifying under the secret login signs with; otherwise as `TaskRoutes.Handle` |
| TaskRoutes.Serve | routes/taskRoutes.js:8-27 | for a given gate secret: a stopped request gets 401 or 403 and changes nothing; an admitted list request returns the token owner's tasks |
| TaskRoutes.Dispatch | routes/taskRoutes.js:25-27 | for an admitted caller, each binding does what its handler does: GET gives 500 on a store failure, else lists exactly the caller's tasks, and changes nothing; POST gives 400 on a missing or empty text, 500 on a store failure, each with nothing saved, else stores exactly one task owned by the caller with 201; DELETE gives 500 on a malformed id or store failure, 404 on an unknown id, 403 on another owner's task, else removes exactly that task with 200 |
| Config.AuthControllerSecret | controllers/authController.js:5 | login's secret is SECRET_KEY when set, otherwise `'yourSecretKey'`, and never empty |
| Config.TaskRoutesSecret | routes/taskRoutes.js:6 | the router's secret is SECRET_KEY when set, otherwise `'123456'`, and never empty |
| Config.ConfiguredSecretsAgree | routes/taskRoutes.js:6 | when SECRET_KEY is set, login and the router use the same secret |
| Config.UnsetSecretRejectsEveryToken | controllers/authController.js:5 | with SECRET_KEY unset, every token login issues fails verification at the router's gate |
| Config.SharedSecret | routes/taskRoutes.js:6 | the corrected shared secret is never empty and is SECRET_KEY when that is set |
| Config.SharedSecretAdmitsEveryToken | routes/taskRoutes.js:17 | with the shared secret, every token login issues verifies at the router's gate to the claims it was issued for |
| EndToEnd.ExtractionAgrees | routes/taskRoutes.js:10 | the two entry points' token extractions agree on whether a usable token exists and on its value |
| EndToEnd.BearerHeaderCarriesToken | server.js:48 | a non-empty, space-free token sent as `Bearer <token>` is what both gates extract |
| EndToEnd.SignedTokensHaveNoSpace | server.js:53 | any token that verifies is non-empty and space-free |
| EndToEnd.RegisterTwice | server.js:74-84 | registering a username twice stores exactly one user, holding the first password's digest, and the second attempt gets 400 |
| EndToEnd.RegisterLoginList | server.js:70-130 | register, login, then list with the token received: 201, 200 with a token naming the new user's id, then 200 with exactly that user's tasks |
| EndToEnd.CreateThenList | server.js:109-130 | after a create, the list is the caller's earlier tasks plus the new task with its text and owner |
| EndToEnd.DeleteTwice | controllers/taskController.js:39-50 | after a successful delete, deleting the same id again gives 404 and changes nothing |
| EndToEnd.OtherUsersTaskForbidden | server.js:150-153 | a caller with user A's identity gets 403 on updating or deleting user B's task, and nothing changes |
| EndToEnd.ControllerRegisterLoginList | controllers/authController.js:8-46 | with SECRET_KEY set: registerUser, loginUser, then GET through the router with the token received: 201, 200, then exactly the new user's tasks |
| EndToEnd.ControllerUnsetSecretForbidden | routes/taskRoutes.js:6-21 | with SECRET_KEY unset: registerUser and loginUser succeed, but the router answers 403 "Invalid Token" to the token issued, on every binding, and no task changes |
| EndToEnd.ControllerRegisterLoginListCorrected | routes/taskRoutes.js:6-27 | with the corrected router, whatever SECRET_KEY says: 201, 200, then exactly the new user's tasks |

## Left out

- Database connection, the connection-status flag and the status endpoint are not modelled. They are I/O and logging.
- Express wiring, CORS, JSON body parsing and the listening socket are not modelled. They are framework plumbing.
- The path where the router is mounted is not modelled. The file that mounts it is not part of this model. Requests to unbound routes are not modelled either.
- Handlers are atomic steps. Async scheduling and concurrent requests are not modelled.
- Store failures are a single flag: every store call of the request fails. A failure of only a later call (the final save after a successful lookup, say) is not modelled separately.
- Password hashing is symbolic and deterministic. bcrypt's salting, the 72-byte input limit and constant-time comparison are not modelled.
- Tokens are a reversible rendering of the claims plus a tag of the secret. Cryptographic unforgeability is not modelled; the model only shows that a token does not verify under a different secret. The issued-at time is not modelled.
- Token expiry is recorded in the claims (one hour in `server.js`, none in the controller), but no clock exists, so no token ever expires.
- `server.js` reads its secret from JWT_SECRET. That secret is a parameter here.
- Record identifiers are naturals with decimal string forms, standing in for 24-hex-digit object ids. Any non-empty digit string, leading zeros included, casts to an identifier.
- Registration and login assume the username and password are strings. Task text is either absent or a string. Other JSON values in request bodies are not modelled.
- The controllers' user model is not part of this model, so no schema check is applied to the users `AuthController.RegisterUser` saves.
- Listed tasks are a map from identifier to task. The order the store returns them in is not modelled.
- Logging is not modelled.
- ServerApp.Handle: the contract states what the gate does for each route and what the list route returns once admitted. The other routes' outcomes are stated by their handlers' own contracts, not repeated here.
- TaskRoutes.Handle: same as ServerApp.Handle, for the router's three bindings; what admitted create and delete requests do is stated by `TaskRoutes.Dispatch`, not repeated here.
- TaskRoutes.HandleCorrected: what admitted create and delete requests do is stated by `TaskRoutes.Dispatch`, not repeated here.
- TaskRoutes.Serve: what admitted create and delete requests do is stated by `TaskRoutes.Dispatch`, not repeated here.

## Findings

| source | as written | input that shows it | evidently intended | confidence | as-written member | corrected member |
|---|---|---|---|---|---|---|
| controllers/authController.js:5 | login signs with SECRET_KEY or else `'yourSecretKey'`, while routes/taskRoutes.js:6 verifies with SECRET_KEY or else `'123456'` | SECRET_KEY unset: log in, then send the token as `Bearer <token>` to any task route; verification fails and the gate answers 403 "Invalid Token" | one secret shared by the signer and the verifier, so a login token passes the router's gate | medium (not executed) | Config.UnsetSecretRejectsEveryToken | TaskRoutes.HandleCorrected |
