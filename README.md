# UnitedPet account lifecycle, modelled in Dafny

This project models the account-lifecycle logic of the UnitedPet pet-service
backend's authentication controller (`AuthentiactionController`). It covers
seven REST endpoints and the field-tagged error envelope they share. Each endpoint is a
fixed chain of guards over a user store whose records carry a username, an
email, a password hash, an `active` flag (email confirmed) and a `status` flag
(not banned):

- register (`POST /register`)
- login (`POST /login`)
- token refresh, with the refresh token in the request body (`POST /refreshtoken`) or in a cookie (`POST /refreshtokencookie`)
- activation (`GET /active?key=`)
- re-sending the activation email (`POST /reactive`)
- password reset (`POST /forgetpassword`)

Layout:

- `wrappers.dfy`: `Option`.
- `jwt.dfy` (module `Jwt`): a token is the claims the controller reads,
  `Token(username, kind, expired)`. This module also parses the `Authorization: Bearer` header.
- `payload.dfy` (module `Payload`): request bodies, the success envelope, the
  error envelope, and the exceptions the controller throws. A call ends in one `Response`:
  `Ok`, `BadRequest` (the field-tagged envelope) or `Thrown`.
- `user_store.dfy` (module `UserStore`): user records keyed by username plus an index from
  email to username. It has the predicate `Consistent` (usernames are keys, emails are unique
  and indexed), the service calls the controller makes, and an abstract `PasswordEncoder`.
- `auth_controller.dfy` (module `AuthController`): the endpoints.
  - Login, both refreshes and re-send are functions of the store.
  - Register, activation and reset are specified by functions returning a `Step` (new store plus
    response). Class `Controller` implements them as methods with `modifies this`, each proved
    equal to its `Step` function and proved to keep the store consistent.
- `auth_properties.dfy` (module `AuthProperties`): lemmas that relate several endpoints.
- `lifecycle.dfy` (module `Lifecycle`): serves a history of requests, one after another, on the same store, and proves what holds across every history.

Outside inputs become parameters:

- `decode: string -> Token` reads a token string's claims. This is JWT parsing and expiry.
- `encoder` hashes passwords and checks them against a hash. This is BCrypt.
- `mailOk` says whether the email service delivered.
- `newPass` is the random password. A precondition gives it length 8.

Behaviour of the code as written that the model keeps, where it differs from the
intended design:

- Refresh does not check that the access token and the refresh token name the same user.
  The "pair" test compares the refresh token's username with itself, so it never rejects
  (`RefreshAcceptsTokensOfDifferentUsers`, `RefreshPairNotChecked`).
- The "refresh token is missing" check is never reached, and the model has no path for it.
  In the body variant the request has already been dereferenced before the check. In the
  cookie variant the framework refuses a request without the (required) cookie before the
  method runs.
- Re-sending the activation email tests `status` (not banned) instead of `active`.
  The resend is therefore refused to every freshly registered account
  (`ReActiveRefusesFreshAccount`) and allowed only for banned accounts (`ReActiveOnlyForBanned`,
  `ReActiveTestsStatusNotActive`).
- Register saves the user before it sends the activation email. If the email fails, the
  account exists but the reply is "Can't create your account". Password reset likewise changes
  the password before it sends the email.
- Refresh and activation never look at the token's kind. Refresh does not look at the
  access token's user either.

## Model

| member | source | states |
|---|---|---|
| Jwt.BearerToken | src/main/java/petservice/controller/AuthentiactionController.java:164-166 | a token is present iff the header exists and starts with "Bearer "; the header is then "Bearer " followed by the token, so exactly 7 characters are dropped |
| Jwt.BearerRoundTrip | src/main/java/petservice/controller/AuthentiactionController.java:165-166 | parsing "Bearer " + t yields t |
| UserStore.FindByUsername | src/main/java/petservice/controller/AuthentiactionController.java:118 | the lookup finds a record iff the username exists, and the record it finds is the one stored under that username (so, in a consistent store, a record with that username) |
| UserStore.GetUser | src/main/java/petservice/controller/AuthentiactionController.java:306 | the record found by email has that email and is the record stored under its own username |
| UserStore.ExistsByEmail | src/main/java/petservice/controller/AuthentiactionController.java:77 | in a consistent store, the email check says yes iff some stored record carries that email |
| UserStore.ExistsByUsername | src/main/java/petservice/controller/AuthentiactionController.java:81 | in a consistent store, the username check says yes iff some stored record carries that username |
| UserStore.SaveUser | src/main/java/petservice/controller/AuthentiactionController.java:89 | the new record is stored under its username and its email is bound to that username; all other records and bindings are unchanged |
| UserStore.UpdateActive | src/main/java/petservice/controller/AuthentiactionController.java:278 | only the named user's active flag becomes true; the email index and every other record are unchanged |
| UserStore.UpdateUserPassword | src/main/java/petservice/controller/AuthentiactionController.java:352 | only the named user's stored hash is replaced; the email index and every other record are unchanged |
| Jwt.GenerateJwtToken | src/main/java/petservice/controller/AuthentiactionController.java:138 | an issued access token names the given user and has not expired |
| Jwt.GenerateRefreshJwtToken | src/main/java/petservice/controller/AuthentiactionController.java:139 | an issued refresh token names the given user and has not expired |
| AuthController.NewUser | src/main/java/petservice/controller/AuthentiactionController.java:87 | the registered record has the requested username and email, the hash of the requested password, is not active, not banned, and has role USER |
| UserStore.SaveUserConsistent | src/main/java/petservice/controller/AuthentiactionController.java:89 | saving a user with an unused username and email keeps usernames as keys and emails unique |
| UserStore.SaveUserAddsOne | src/main/java/petservice/controller/AuthentiactionController.java:89 | saving under an unused username adds exactly one record |
| UserStore.UpdateActiveConsistent | src/main/java/petservice/controller/AuthentiactionController.java:278 | setting the active flag keeps the store consistent |
| UserStore.UpdateUserPasswordConsistent | src/main/java/petservice/controller/AuthentiactionController.java:352 | replacing a password hash keeps the store consistent |
| AuthController.SendErrorValid | src/main/java/petservice/controller/AuthentiactionController.java:248-258 | the error envelope has status 400, message equal to the title, and exactly one detail, field mapped to message |
| AuthController.Register | src/main/java/petservice/controller/AuthentiactionController.java:77-103 | a used email gets exactly the `email` error envelope (400, message `email <email>" has already used"`, one detail on "email") even when the username is also taken; otherwise a used username gets exactly the `username` envelope; neither rejection changes the store; otherwise the new inactive user is stored and indexed by email; success iff both are unused and the email went out, and the reply is then exactly status 200, success true, "Register successful" and data holding the email; when both are unused but the email fails, the reply is always the exception "Can't create your account", and the store has already changed |
| AuthController.SignIn | src/main/java/petservice/controller/AuthentiactionController.java:114-154 | rejections in order, each the exact 400 envelope: "username" with "No account found" (unknown user), "password" with "password is not matched" (hash mismatch), "active" with "Unactivated account", "status" with "Banned account"; success iff all four conditions hold; a success is exactly status 200, success true, "Login successful" and data holding an access and a refresh token, both naming the login username |
| AuthController.RefreshToken | src/main/java/petservice/controller/AuthentiactionController.java:163-203 | no Bearer header gives "access token is missing"; an unexpired access token gives "access token is not expired"; then an expired refresh token gives "refresh token is expired"; "two token are not a pair" never occurs; success iff the access token is expired, the refresh token is live and its user exists; when both token checks pass but the user is missing, a null-pointer exception escapes; a success is exactly status 200, success true, "Login successful" and data holding a new access token naming the refresh token's user and the request body as it came |
| AuthController.RefreshTokenCookie | src/main/java/petservice/controller/AuthentiactionController.java:206-246 | the same outcomes as the body variant, including the null-pointer case and the exact success reply, with the refresh token read from the cookie and returned unchanged |
| AuthController.Activate | src/main/java/petservice/controller/AuthentiactionController.java:261-290 | an empty key is refused; a key naming an unknown user gives not-found; an already-active user is refused; these leave the store unchanged; otherwise exactly that user's active flag becomes true, nothing else changes, and the reply is exactly status 200, success true, "Active successful" and data holding the user's email |
| AuthController.ReActiveToken | src/main/java/petservice/controller/AuthentiactionController.java:302-325 | an unregistered email is refused; a user whose status flag holds is refused as already activated; a failed email is a generic failure; success iff registered, status false and the email went out, and the reply is then exactly status 200, success true, "Resend email successful" and data holding the email |
| AuthController.ResetPassword | src/main/java/petservice/controller/AuthentiactionController.java:341-362 | an unregistered email is refused with the store unchanged; otherwise only that user's password changes, to the hash of the 8-character new password; success iff registered and the email went out; a failed email is the generic failure "Some error when send active email"; a success is exactly status 200, success true, "Send email with new password successful" and data holding the email |
| AuthController.Controller.AddUser | src/main/java/petservice/controller/AuthentiactionController.java:65-104 | the method's new store and response are those of Register, and the store stays consistent |
| AuthController.Controller.ActiveToken | src/main/java/petservice/controller/AuthentiactionController.java:261-290 | the method's new store and response are those of Activate, and the store stays consistent |
| AuthController.Controller.ForgetPassword | src/main/java/petservice/controller/AuthentiactionController.java:332-366 | the method's new store and response are those of ResetPassword, and the store stays consistent |
| AuthProperties.RegisterConsistent | src/main/java/petservice/controller/AuthentiactionController.java:77-98 | registration keeps the store consistent |
| AuthProperties.RegisterAddsOneUser | src/main/java/petservice/controller/AuthentiactionController.java:85-98 | a registration with unused email and username adds exactly one user, found by its email and not active |
| AuthProperties.RegisterSameEmailTwice | src/main/java/petservice/controller/AuthentiactionController.java:77-79 | after a successful registration, a second one with the same email is rejected on "email" and changes nothing |
| AuthProperties.FreshAccountCannotSignIn | src/main/java/petservice/controller/AuthentiactionController.java:124-126 | a just-registered account cannot log in with any password; with the right password the refusal is on "active" |
| AuthProperties.ReActiveRefusesFreshAccount | src/main/java/petservice/controller/AuthentiactionController.java:306-310 | re-sending the activation email to a just-registered account is refused as "already activated" |
| AuthProperties.ReActiveOnlyForBanned | src/main/java/petservice/controller/AuthentiactionController.java:308-310 | for a registered email, re-sending succeeds iff the user's status flag is false |
| AuthProperties.ActivateConsistent | src/main/java/petservice/controller/AuthentiactionController.java:274-278 | activation keeps the store consistent |
| AuthProperties.ActivateTwiceFails | src/main/java/petservice/controller/AuthentiactionController.java:274-276 | a second activation with the same key fails as already activated and changes nothing |
| AuthProperties.RegisterActivateSignIn | src/main/java/petservice/controller/AuthentiactionController.java:120-130 | register, then activate with a key naming the new user: the registered password then logs in |
| AuthProperties.ResetPasswordConsistent | src/main/java/petservice/controller/AuthentiactionController.java:345-352 | a password reset keeps the store consistent |
| AuthProperties.ResetPasswordChangesLogin | src/main/java/petservice/controller/AuthentiactionController.java:349-352 | after a reset the new password logs in to an active, unbanned account; when a hash matches only its own password, any other password is refused on "password" |
| AuthProperties.RefreshAcceptsTokensOfDifferentUsers | src/main/java/petservice/controller/AuthentiactionController.java:180-187 | an expired access token of one user and a live refresh token of another mint a new access token for the second user |
| AuthProperties.RefreshPairNotChecked | src/main/java/petservice/controller/AuthentiactionController.java:180-182 | some consistent store and tokens exist where an access token of one user and a refresh token of another are accepted as a pair |
| AuthProperties.ReActiveTestsStatusNotActive | src/main/java/petservice/controller/AuthentiactionController.java:308-310 | some account that is not yet activated is refused the activation email as "already activated", and some activated but banned account is sent it again |
| AuthProperties.RefreshVariantsAgree | src/main/java/petservice/controller/AuthentiactionController.java:164-246 | the body and cookie variants give the same error, or both succeed with the same status, message and new access token |
| AuthProperties.SignInErrorsWellFormed | src/main/java/petservice/controller/AuthentiactionController.java:114-130 | every error envelope login returns has status 400 and exactly one detail |
| AuthProperties.RegisterErrorsWellFormed | src/main/java/petservice/controller/AuthentiactionController.java:77-83 | every error envelope registration returns has status 400 and one detail, on "email" or "username" |
| Lifecycle.Serve | src/main/java/petservice/controller/AuthentiactionController.java:63-366 | serving any one request keeps the store consistent; login, both refreshes and re-send leave the store as it was |
| Lifecycle.Run | src/main/java/petservice/controller/AuthentiactionController.java:63-366 | serving any history of requests, one after another on the same store, keeps the store consistent |
| Lifecycle.ServeExtends | src/main/java/petservice/controller/AuthentiactionController.java:63-366 | no single request removes a user, changes a user's email binding or deactivates an account |
| Lifecycle.RunExtends | src/main/java/petservice/controller/AuthentiactionController.java:63-366 | no history of requests removes a user, changes an email binding or deactivates an account |
| Lifecycle.RegisteredEmailStaysTaken | src/main/java/petservice/controller/AuthentiactionController.java:77-79 | after a successful registration and any later requests, registering the same email again is rejected on "email" and changes nothing |
| Lifecycle.ActivationIsPermanent | src/main/java/petservice/controller/AuthentiactionController.java:274-276 | after a successful activation and any later requests, every activation naming the same user fails as already activated |

## Left out

- Request validation (`BindingResult`, lines 67-69, 110-112, 295-297, 334-336) and the null-body checks (lines 70-75, 298-300, 337-339): framework input handling, not part of the guard chains.
- The activation key test (line 263) compares references in Java (`key == ""`). The model reads it as an emptiness test, `|key| == 0`, and treats a missing key as empty, as the parameter's default does.
- The unreachable null checks on the refresh token (lines 176-178, 219-221). In the body variant the request object has already been dereferenced at line 172, so a null body fails before line 176. In the cookie variant the cookie is bound with `@CookieValue("refreshToken")` (line 206), which is required by default, so a request without the cookie never reaches the method.
- The store effects of the user service and the tokens of the JWT library are assumptions, because their code is not part of this model. These are: `existsByEmail`/`existsByUsername` answer whether such a record exists; `saveUser` stores the record and binds its email to its username; `updateActive` sets only `active`; `updateUserPassword` replaces only the hash; an issued token names the user it was issued for and is unexpired. See `ExistsByEmail`, `ExistsByUsername`, `SaveUser`, `UpdateActive`, `UpdateUserPassword`, `GenerateJwtToken`, `GenerateRefreshJwtToken`.
- Cookies set on login (lines 147-151), the authentication manager and the security context (lines 132-135): framework state. A login that passes the four checks is taken to authenticate.
- JWT signing, parsing and clock-based expiry: a library outside this model, represented by `decode` and by issued tokens given as their claims. `decode` is total: it always yields claims, so the exceptions the JWT library throws for a malformed or badly signed token, or for an expired activation key at line 267, are not modelled. In `Lifecycle` one `decode` serves a whole history, so a token's expiry never changes from one request to the next.
- BCrypt hashing (lines 55, 120) and the hashing inside the password update: foreign crypto, represented by `PasswordEncoder`. Registration is assumed to store the encoder's hash of the requested password, because the mapping from request to record is not part of this model.
- The new-user defaults (not active, not banned, role USER): the mapping code is not part of this model, so these are an assumption.
- Refresh for a user missing from the store (line 185): the user-detail builder is not part of this model, so the model assumes it fails on a missing record and returns `NullPointer`.
- Random password generation (lines 349-350): nondeterministic, taken as the parameter `newPass` of length 8.
- Email delivery: I/O, reduced to the flag `mailOk`. The catch blocks (lines 101-103, 326-328, 363-365) become a generic `Failure` carrying the controller's message.
- Exceptions thrown by the store itself: persistence I/O, not modelled.
- Logging, response-entity construction and HTTP status mapping of exceptions: framework plumbing.
- The non-atomic uniqueness check in register: a concurrency concern, out of scope.
- src/main/java/petservice/Service/ServiceService.java: a persistence interface with no logic.
