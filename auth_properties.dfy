/**
  Properties that relate several endpoints to each other: the store stays
  consistent, registration and activation interact as the account lifecycle
  says, a password reset changes which password logs in, and the two refresh
  endpoints behave alike. The quirks of the controller are stated as they are:
  the refresh "pair" check accepts tokens of different users, and re-sending
  the activation email is refused to every freshly registered account.
*/
module AuthProperties {
  import opened Wrappers
  import opened Jwt
  import opened Payload
  import opened UserStore
  import opened AuthController

  lemma RegisterConsistent(s: Store, req: RegisterRequest, encoder: PasswordEncoder, mailOk: bool)
    requires Consistent(s)
    ensures Consistent(Register(s, req, encoder, mailOk).store)
  {
    if !ExistsByEmail(s, req.email) && !ExistsByUsername(s, req.username) {
      SaveUserConsistent(s, NewUser(req, encoder));
    }
  }

  /** A registration with an unused email and username adds exactly the one new user, findable by its email. */
  lemma RegisterAddsOneUser(s: Store, req: RegisterRequest, encoder: PasswordEncoder, mailOk: bool)
    requires Consistent(s) && !ExistsByEmail(s, req.email) && !ExistsByUsername(s, req.username)
    ensures var t := Register(s, req, encoder, mailOk).store;
            && Consistent(t)
            && t.users.Keys == s.users.Keys + {req.username}
            && |t.users| == |s.users| + 1
            && ExistsByEmail(t, req.email)
            && GetUser(t, req.email) == NewUser(req, encoder)
            && !GetUser(t, req.email).active
  {
    RegisterConsistent(s, req, encoder, mailOk);
    SaveUserAddsOne(s, NewUser(req, encoder));
  }

  /** Registering a second time with the same email is rejected on "email", whatever the username. */
  lemma RegisterSameEmailTwice(s: Store, first: RegisterRequest, second: RegisterRequest,
                               encoder: PasswordEncoder, mailOk: bool, mailOk': bool)
    requires Consistent(s) && first.email == second.email
    requires Register(s, first, encoder, mailOk).response.Ok?
    ensures var t := Register(s, first, encoder, mailOk).store;
            && RejectedOn(Register(t, second, encoder, mailOk').response, "email")
            && Register(t, second, encoder, mailOk').store == t
  {
    RegisterAddsOneUser(s, first, encoder, mailOk);
  }

  /** A freshly registered account cannot log in, whatever the password; with the right one the refusal is on "active". */
  lemma FreshAccountCannotSignIn(s: Store, req: RegisterRequest, encoder: PasswordEncoder, mailOk: bool, password: string)
    requires Consistent(s) && Register(s, req, encoder, mailOk).response.Ok?
    ensures var t := Register(s, req, encoder, mailOk).store;
            Consistent(t) && !SignIn(t, LoginRequest(req.username, password), encoder).Ok?
    ensures var t := Register(s, req, encoder, mailOk).store;
            Sound(encoder) ==> RejectedOn(SignIn(t, LoginRequest(req.username, req.password), encoder), "active")
  {
    RegisterAddsOneUser(s, req, encoder, mailOk);
  }

  /**
    Re-sending the activation email is refused to a freshly registered account:
    the guard tests `status`, which registration sets, instead of `active`.
  */
  lemma ReActiveRefusesFreshAccount(s: Store, req: RegisterRequest, encoder: PasswordEncoder, mailOk: bool, mailOk': bool)
    requires Consistent(s) && Register(s, req, encoder, mailOk).response.Ok?
    ensures var t := Register(s, req, encoder, mailOk).store;
            Consistent(t) && ReActiveToken(t, ReActiveRequest(req.email), mailOk') == Thrown(MessageNotReadable(AlreadyActivated))
  {
    RegisterAddsOneUser(s, req, encoder, mailOk);
  }

  /** Re-sending is allowed exactly for banned accounts, whether or not they are activated. */
  lemma ReActiveOnlyForBanned(s: Store, email: string)
    requires Consistent(s) && ExistsByEmail(s, email)
    ensures ReActiveToken(s, ReActiveRequest(email), true).Ok? <==> !GetUser(s, email).status
  {
  }

  lemma ActivateConsistent(s: Store, key: string, decode: string -> Token)
    requires Consistent(s)
    ensures Consistent(Activate(s, key, decode).store)
  {
    if |key| > 0 && decode(key).username in s.users {
      UpdateActiveConsistent(s, decode(key).username);
    }
  }

  /** Activating twice with the same key: the second attempt fails and changes nothing. */
  lemma ActivateTwiceFails(s: Store, key: string, decode: string -> Token)
    requires Consistent(s) && Activate(s, key, decode).response.Ok?
    ensures var t := Activate(s, key, decode).store;
            && Consistent(t)
            && Activate(t, key, decode) == Step(t, Thrown(RecordNotFound(AlreadyActivated)))
  {
    ActivateConsistent(s, key, decode);
  }

  /** Register, then activate with a key naming the new user: the registered password now logs in. */
  lemma RegisterActivateSignIn(s: Store, req: RegisterRequest, encoder: PasswordEncoder, key: string, decode: string -> Token)
    requires Consistent(s) && Sound(encoder)
    requires Register(s, req, encoder, true).response.Ok?
    requires |key| > 0 && decode(key).username == req.username
    ensures var t := Register(s, req, encoder, true).store;
            && Consistent(t)
            && Activate(t, key, decode).response.Ok?
            && Consistent(Activate(t, key, decode).store)
            && SignIn(Activate(t, key, decode).store, LoginRequest(req.username, req.password), encoder).Ok?
  {
    RegisterAddsOneUser(s, req, encoder, true);
    var t := Register(s, req, encoder, true).store;
    ActivateConsistent(t, key, decode);
  }

  lemma ResetPasswordConsistent(s: Store, req: ReActiveRequest, newPass: string, encoder: PasswordEncoder, mailOk: bool)
    requires Consistent(s) && |newPass| == 8
    ensures Consistent(ResetPassword(s, req, newPass, encoder, mailOk).store)
  {
    if ExistsByEmail(s, req.email) {
      UpdateUserPasswordConsistent(s, GetUser(s, req.email).username, encoder.encode(newPass));
    }
  }

  /**
    After a reset, the emailed password logs in to an activated, unbanned
    account, and (for an encoder whose hashes match only their own password)
    any other password, the old one included, is refused on "password".
  */
  lemma ResetPasswordChangesLogin(s: Store, req: ReActiveRequest, newPass: string, encoder: PasswordEncoder,
                                  mailOk: bool, other: string)
    requires Consistent(s) && |newPass| == 8 && ExistsByEmail(s, req.email)
    requires Sound(encoder)
    ensures var name := GetUser(s, req.email).username;
            var t := ResetPassword(s, req, newPass, encoder, mailOk).store;
            && Consistent(t)
            && (GetUser(s, req.email).active && GetUser(s, req.email).status ==>
                  SignIn(t, LoginRequest(name, newPass), encoder).Ok?)
            && (Discriminating(encoder) && other != newPass ==>
                  RejectedOn(SignIn(t, LoginRequest(name, other), encoder), "password"))
  {
    ResetPasswordConsistent(s, req, newPass, encoder, mailOk);
  }

  /**
    The pair check does not compare the two tokens: an expired access token of
    one user and a live refresh token of another user mint a new access token
    for the second user.
  */
  lemma RefreshAcceptsTokensOfDifferentUsers(s: Store, accessToken: string, refreshToken: string, decode: string -> Token)
    requires Consistent(s)
    requires decode(accessToken).expired && !decode(refreshToken).expired
    requires decode(refreshToken).username in s.users
    requires decode(accessToken).username != decode(refreshToken).username
    ensures var r := RefreshToken(s, RefreshTokenRequest(refreshToken), Some(BearerPrefix + accessToken), decode);
            && r.Ok?
            && r.body.data["accessToken"] == Issued(Token(decode(refreshToken).username, Access, false))
  {
    BearerRoundTrip(accessToken);
  }

  /** The body and cookie variants give the same outcome and the same new access token. */
  lemma RefreshVariantsAgree(s: Store, refreshToken: string, header: Option<string>, decode: string -> Token)
    requires Consistent(s)
    ensures var byBody := RefreshToken(s, RefreshTokenRequest(refreshToken), header, decode);
            var byCookie := RefreshTokenCookie(s, refreshToken, header, decode);
            && byBody.Ok? == byCookie.Ok?
            && (!byBody.Ok? ==> byBody == byCookie)
            && (byBody.Ok? ==>
                  && byBody.body.status == byCookie.body.status
                  && byBody.body.message == byCookie.body.message
                  && byBody.body.data["accessToken"] == byCookie.body.data["accessToken"])
  {
  }

  /** Every field-tagged error login can give is a 400 with exactly one detail. */
  lemma SignInErrorsWellFormed(s: Store, req: LoginRequest, encoder: PasswordEncoder)
    requires Consistent(s)
    ensures var r := SignIn(s, req, encoder);
            r.BadRequest? ==> r.error.status == StatusBadRequest && |r.error.details| == 1
  {
  }

  /** Every field-tagged error registration can give is a 400 with exactly one detail, on "email" or "username". */
  lemma RegisterErrorsWellFormed(s: Store, req: RegisterRequest, encoder: PasswordEncoder, mailOk: bool)
    ensures var r := Register(s, req, encoder, mailOk).response;
            r.BadRequest? ==> && r.error.status == StatusBadRequest
                              && |r.error.details| == 1
                              && (r.error.details.Keys == {"email"} || r.error.details.Keys == {"username"})
  {
  }

  /** A consistent store whose one user "bob" is registered as bob@example.com with the given flags. */
  function BobStore(active: bool, status: bool): Store {
    var bob := User("bob", "bob@example.com", "hash", active, status, DefaultRole);
    Store(map["bob" := bob], map["bob@example.com" := "bob"])
  }

  /**
    There are inputs on which the refresh endpoint takes an expired access
    token of one user ("alice") and a live refresh token of another ("bob")
    as a pair.
  */
  lemma RefreshPairNotChecked()
    ensures exists s: Store, accessToken: string, refreshToken: string, decode: string -> Token ::
              && Consistent(s)
              && decode(accessToken).username != decode(refreshToken).username
              && RefreshToken(s, RefreshTokenRequest(refreshToken), Some(BearerPrefix + accessToken), decode).Ok?
  {
    var s := BobStore(true, true);
    assert Consistent(s);
    var decode := (t: string) => if t == "a" then Token("alice", Access, true) else Token("bob", Refresh, false);
    assert decode("a").username != decode("r").username;
    BearerRoundTrip("a");
    assert RefreshAllowed(s, Some(BearerPrefix + "a"), "r", decode);
    assert RefreshToken(s, RefreshTokenRequest("r"), Some(BearerPrefix + "a"), decode).Ok?;
  }

  /**
    There is an account that is not yet activated and is still told it "has
    been actived" when it asks for the activation email again, and an
    activated account to which the email is sent again.
  */
  lemma ReActiveTestsStatusNotActive()
    ensures exists s: Store, email: string ::
              && Consistent(s) && ExistsByEmail(s, email)
              && !GetUser(s, email).active
              && ReActiveToken(s, ReActiveRequest(email), true) == Thrown(MessageNotReadable(AlreadyActivated))
    ensures exists s: Store, email: string ::
              && Consistent(s) && ExistsByEmail(s, email)
              && GetUser(s, email).active
              && ReActiveToken(s, ReActiveRequest(email), true).Ok?
  {
    var newcomer := BobStore(false, true);
    assert Consistent(newcomer) && GetUser(newcomer, "bob@example.com").username == "bob";
    assert ReActiveToken(newcomer, ReActiveRequest("bob@example.com"), true) == Thrown(MessageNotReadable(AlreadyActivated));
    var banned := BobStore(true, false);
    assert Consistent(banned) && GetUser(banned, "bob@example.com").username == "bob";
    assert ReActiveToken(banned, ReActiveRequest("bob@example.com"), true).Ok?;
  }
}
