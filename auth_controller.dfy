/**
  The account-lifecycle endpoints of the authentication controller: register,
  login, the two token-refresh variants, activation, re-sending the activation
  email and forgotten-password reset. Each is a fixed chain of guards over the
  user store. The read-only endpoints are functions of the store; the three that
  write to it are specified by functions returning the new store together with
  the response (`Step`), and implemented by the methods of `Controller`.

  Outside inputs are parameters: `decode` reads the claims of a token string,
  `encoder` hashes and checks passwords, `mailOk` is whether the email service
  delivered, and `newPass` is the random 8-character password.
*/
module AuthController {
  import opened Wrappers
  import opened Jwt
  import opened Payload
  import opened UserStore

  const DefaultRole: string := "USER"

  const InvalidKey: string := "key active is not valid"
  const NotRegistered: string := "Not found, please register again"
  const AlreadyActivated: string := "user already has been actived!"
  const EmailNotRegistered: string := "Email is not Registed"
  const AccessTokenMissing: string := "access token is missing"
  const AccessTokenNotExpired: string := "access token is not expired"
  const RefreshTokenExpired: string := "refresh token is expired"
  const TokensNotPaired: string := "two token are not a pair"
  const CannotCreateAccount: string := "Can't create your account"
  const SendEmailFailed: string := "Some error when send active email"

  const RegisterSuccessful: string := "Register successful"
  const LoginSuccessful: string := "Login successful"
  const ActiveSuccessful: string := "Active successful"
  const ResendSuccessful: string := "Resend email successful"
  const NewPasswordSent: string := "Send email with new password successful"

  /** The field-tagged 400 error envelope: one detail, `field` mapped to `message`, titled `title`. */
  function SendErrorValid(field: string, message: string, title: string): (e: ErrorResponseMap)
    ensures e.status == StatusBadRequest
    ensures e.message == title
    ensures field in e.details && e.details[field] == message
    ensures e.details.Keys == {field} && |e.details| == 1
  {
    ErrorResponseMap(StatusBadRequest, title, map[field := message])
  }

  function EmailUsed(email: string): Response {
    BadRequest(SendErrorValid("email", email + "\" has already used\"", "email " + email + "\" has already used\""))
  }

  function UsernameUsed(username: string): Response {
    BadRequest(SendErrorValid("username", username + "\" has already used\"", "username " + username + "\" has already used\""))
  }

  function NoAccount(username: string): Response {
    BadRequest(SendErrorValid("username", username + " not found", "No account found"))
  }

  function PasswordNotMatched(): Response {
    BadRequest(SendErrorValid("password", "password is not matched", "password is not matched"))
  }

  function Unactivated(): Response {
    BadRequest(SendErrorValid("active", "Your account haven't activated", "Unactivated account"))
  }

  function Banned(): Response {
    BadRequest(SendErrorValid("status", "Your account is banned", "Banned account"))
  }

  /** The record a registration creates: not yet activated, not banned, role USER. */
  function NewUser(req: RegisterRequest, encoder: PasswordEncoder): (u: User)
    ensures u.username == req.username && u.email == req.email
    ensures u.password == encoder.encode(req.password)
    ensures !u.active && u.status && u.role == DefaultRole
  {
    User(req.username, req.email, encoder.encode(req.password), false, true, DefaultRole)
  }

  /** The store after an operation, with the operation's response. */
  datatype Step = Step(store: Store, response: Response)

  /**
    POST /register. The email is checked before the username; only when both
    are unused is the user saved. The activation email is sent after saving, so
    when it fails the account exists although the reply is an error.
  */
  function Register(s: Store, req: RegisterRequest, encoder: PasswordEncoder, mailOk: bool): (r: Step)
    ensures ExistsByEmail(s, req.email) ==> r == Step(s, EmailUsed(req.email)) && RejectedOn(r.response, "email")
    ensures !ExistsByEmail(s, req.email) && ExistsByUsername(s, req.username) ==>
              r == Step(s, UsernameUsed(req.username)) && RejectedOn(r.response, "username")
    ensures !ExistsByEmail(s, req.email) && !ExistsByUsername(s, req.username) ==>
              && r.store.users == s.users[req.username := NewUser(req, encoder)]
              && r.store.byEmail == s.byEmail[req.email := req.username]
    ensures r.response.Ok? <==> !ExistsByEmail(s, req.email) && !ExistsByUsername(s, req.username) && mailOk
    ensures r.response.Ok? ==> r.response == Success(RegisterSuccessful, map["email" := Text(req.email)])
    ensures !ExistsByEmail(s, req.email) && !ExistsByUsername(s, req.username) && !mailOk ==>
              r.response == Thrown(Failure(CannotCreateAccount))
    ensures r.response.Thrown? ==> r.response.exception == Failure(CannotCreateAccount) && r.store != s
  {
    if ExistsByEmail(s, req.email) then Step(s, EmailUsed(req.email))
    else if ExistsByUsername(s, req.username) then Step(s, UsernameUsed(req.username))
    else
      var saved := SaveUser(s, NewUser(req, encoder));
      assert req.username in saved.users && req.username !in s.users;
      if mailOk then Step(saved, Success(RegisterSuccessful, map["email" := Text(req.email)]))
      else Step(saved, Thrown(Failure(CannotCreateAccount)))
  }

  /** The four conditions a login needs. */
  predicate CanAuthenticate(s: Store, username: string, password: string, encoder: PasswordEncoder) {
    && username in s.users
    && encoder.matches(password, s.users[username].password)
    && s.users[username].active
    && s.users[username].status
  }

  /**
    POST /login. Checked in order: the user exists, the password matches the
    stored hash, the account is activated, the account is not banned. On success
    an access and a refresh token for the user are issued.
  */
  function SignIn(s: Store, req: LoginRequest, encoder: PasswordEncoder): (r: Response)
    requires Consistent(s)
    ensures r.Ok? <==> CanAuthenticate(s, req.username, req.password, encoder)
    ensures !r.Ok? ==> r.BadRequest?
    ensures !ExistsByUsername(s, req.username) ==> r == NoAccount(req.username) && RejectedOn(r, "username")
    ensures ExistsByUsername(s, req.username) && !encoder.matches(req.password, s.users[req.username].password) ==>
              r == PasswordNotMatched() && RejectedOn(r, "password")
    ensures (&& ExistsByUsername(s, req.username)
             && encoder.matches(req.password, s.users[req.username].password)
             && !s.users[req.username].active) ==> r == Unactivated() && RejectedOn(r, "active")
    ensures (&& ExistsByUsername(s, req.username)
             && encoder.matches(req.password, s.users[req.username].password)
             && s.users[req.username].active
             && !s.users[req.username].status) ==> r == Banned() && RejectedOn(r, "status")
    ensures r.Ok? ==> r == Success(LoginSuccessful, map["accessToken" := Issued(Token(req.username, Access, false)),
                                                        "refreshToken" := Issued(Token(req.username, Refresh, false))])
  {
    if !ExistsByUsername(s, req.username) then NoAccount(req.username)
    else
      var loginUser := s.users[req.username];
      if !encoder.matches(req.password, loginUser.password) then PasswordNotMatched()
      else if !loginUser.active then Unactivated()
      else if !loginUser.status then Banned()
      else
        var accessToken := GenerateJwtToken(loginUser.username);
        var refreshToken := GenerateRefreshJwtToken(loginUser.username);
        Success(LoginSuccessful, map["accessToken" := Issued(accessToken), "refreshToken" := Issued(refreshToken)])
  }

  /**
    When a refresh succeeds: a Bearer access token is present and has expired,
    the refresh token has not expired, and the user it names is in the store.
    Nothing relates the access token's user to the refresh token's user.
  */
  predicate RefreshAllowed(s: Store, header: Option<string>, refreshToken: string, decode: string -> Token) {
    RefreshChecksPass(header, refreshToken, decode) && decode(refreshToken).username in s.users
  }

  /** The token checks of a refresh pass: a Bearer access token that has expired, and a live refresh token. */
  predicate RefreshChecksPass(header: Option<string>, refreshToken: string, decode: string -> Token) {
    var accessToken := BearerToken(header);
    && accessToken.Some?
    && decode(accessToken.value).expired
    && !decode(refreshToken).expired
  }

  /** POST /refreshtoken: the refresh token comes in the request body. */
  function RefreshToken(s: Store, body: RefreshTokenRequest, header: Option<string>, decode: string -> Token): (r: Response)
    requires Consistent(s)
    ensures BearerToken(header).None? ==> r == Thrown(BadCredentials(AccessTokenMissing))
    ensures BearerToken(header).Some? && !decode(BearerToken(header).value).expired ==>
              r == Thrown(BadCredentials(AccessTokenNotExpired))
    ensures BearerToken(header).Some? && decode(BearerToken(header).value).expired && decode(body.refreshToken).expired ==>
              r == Thrown(BadCredentials(RefreshTokenExpired))
    ensures r != Thrown(BadCredentials(TokensNotPaired))
    ensures r.Ok? <==> RefreshAllowed(s, header, body.refreshToken, decode)
    ensures RefreshChecksPass(header, body.refreshToken, decode) && decode(body.refreshToken).username !in s.users ==>
              r == Thrown(NullPointer)
    ensures r.Ok? ==> r == Success(LoginSuccessful, map["accessToken" := Issued(Token(decode(body.refreshToken).username, Access, false)),
                                                        "refreshToken" := Body(body)])
  {
    var authorization := BearerToken(header);
    if authorization.None? then Thrown(BadCredentials(AccessTokenMissing))
    else
      var accessToken := authorization.value;
      if !decode(accessToken).expired then Thrown(BadCredentials(AccessTokenNotExpired))
      else if decode(body.refreshToken).expired then Thrown(BadCredentials(RefreshTokenExpired))
      // the controller compares the refresh token's username with itself
      else if decode(body.refreshToken).username != decode(body.refreshToken).username then
        Thrown(BadCredentials(TokensNotPaired))
      else
        match FindByUsername(s, decode(body.refreshToken).username)
        case None => Thrown(NullPointer)
        case Some(user) =>
          Success(LoginSuccessful, map["accessToken" := Issued(GenerateJwtToken(user.username)),
                                          "refreshToken" := Body(body)])
  }

  /** POST /refreshtokencookie: the refresh token comes from the refreshToken cookie. */
  function RefreshTokenCookie(s: Store, cookie: string, header: Option<string>, decode: string -> Token): (r: Response)
    requires Consistent(s)
    ensures BearerToken(header).None? ==> r == Thrown(BadCredentials(AccessTokenMissing))
    ensures BearerToken(header).Some? && !decode(BearerToken(header).value).expired ==>
              r == Thrown(BadCredentials(AccessTokenNotExpired))
    ensures BearerToken(header).Some? && decode(BearerToken(header).value).expired && decode(cookie).expired ==>
              r == Thrown(BadCredentials(RefreshTokenExpired))
    ensures r != Thrown(BadCredentials(TokensNotPaired))
    ensures r.Ok? <==> RefreshAllowed(s, header, cookie, decode)
    ensures RefreshChecksPass(header, cookie, decode) && decode(cookie).username !in s.users ==>
              r == Thrown(NullPointer)
    ensures r.Ok? ==> r == Success(LoginSuccessful, map["accessToken" := Issued(Token(decode(cookie).username, Access, false)),
                                                        "refreshToken" := Text(cookie)])
  {
    var authorization := BearerToken(header);
    if authorization.None? then Thrown(BadCredentials(AccessTokenMissing))
    else
      var accessToken := authorization.value;
      if !decode(accessToken).expired then Thrown(BadCredentials(AccessTokenNotExpired))
      else if decode(cookie).expired then Thrown(BadCredentials(RefreshTokenExpired))
      // the controller compares the refresh token's username with itself
      else if decode(cookie).username != decode(cookie).username then
        Thrown(BadCredentials(TokensNotPaired))
      else
        match FindByUsername(s, decode(cookie).username)
        case None => Thrown(NullPointer)
        case Some(user) =>
          Success(LoginSuccessful, map["accessToken" := Issued(GenerateJwtToken(user.username)),
                                          "refreshToken" := Text(cookie)])
  }

  /**
    GET /active?key=. The key is an activation token naming the user. It must
    be non-empty, name a registered user, and that user must not be activated yet;
    then that user, and nothing else, becomes active.
  */
  function Activate(s: Store, key: string, decode: string -> Token): (r: Step)
    ensures |key| == 0 ==> r == Step(s, Thrown(BadCredentials(InvalidKey)))
    ensures |key| > 0 && decode(key).username !in s.users ==> r == Step(s, Thrown(RecordNotFound(NotRegistered)))
    ensures |key| > 0 && decode(key).username in s.users && s.users[decode(key).username].active ==>
              r == Step(s, Thrown(RecordNotFound(AlreadyActivated)))
    ensures r.response.Ok? <==> |key| > 0 && decode(key).username in s.users && !s.users[decode(key).username].active
    ensures !r.response.Ok? ==> r.store == s
    ensures r.response.Ok? ==>
              var name := decode(key).username;
              && r.store.byEmail == s.byEmail
              && r.store.users.Keys == s.users.Keys
              && r.store.users[name] == s.users[name].(active := true)
              && (forall u :: u in s.users && u != name ==> r.store.users[u] == s.users[u])
              && r.response == Success(ActiveSuccessful, map["email" := Text(s.users[name].email)])
  {
    if |key| == 0 then Step(s, Thrown(BadCredentials(InvalidKey)))
    else
      var username := decode(key).username;
      match FindByUsername(s, username)
      case None => Step(s, Thrown(RecordNotFound(NotRegistered)))
      case Some(user) =>
        if user.active then Step(s, Thrown(RecordNotFound(AlreadyActivated)))
        else Step(UpdateActive(s, username), Success(ActiveSuccessful, map["email" := Text(user.email)]))
  }

  /**
    POST /reactive: re-send the activation email. The email must be registered,
    and the guard that follows tests the user's `status` (not-banned) flag, not
    `active`: a user who is not banned is told the account is already activated.
  */
  function ReActiveToken(s: Store, req: ReActiveRequest, mailOk: bool): (r: Response)
    requires Consistent(s)
    ensures !ExistsByEmail(s, req.email) ==> r == Thrown(MessageNotReadable(EmailNotRegistered))
    ensures ExistsByEmail(s, req.email) && GetUser(s, req.email).status ==> r == Thrown(MessageNotReadable(AlreadyActivated))
    ensures ExistsByEmail(s, req.email) && !GetUser(s, req.email).status && !mailOk ==> r == Thrown(Failure(SendEmailFailed))
    ensures r.Ok? <==> ExistsByEmail(s, req.email) && !GetUser(s, req.email).status && mailOk
    ensures r.Ok? ==> r == Success(ResendSuccessful, map["email" := Text(req.email)])
  {
    if !ExistsByEmail(s, req.email) then Thrown(MessageNotReadable(EmailNotRegistered))
    else
      var user := GetUser(s, req.email);
      if user.status then Thrown(MessageNotReadable(AlreadyActivated))
      else if !mailOk then Thrown(Failure(SendEmailFailed))
      else Success(ResendSuccessful, map["email" := Text(user.email)])
  }

  /**
    POST /forgetpassword. The email must be registered; the user's stored hash is
    replaced by the hash of the new 8-character password before the email is
    sent, so a failed email still leaves the password changed.
  */
  function ResetPassword(s: Store, req: ReActiveRequest, newPass: string, encoder: PasswordEncoder, mailOk: bool): (r: Step)
    requires Consistent(s) && |newPass| == 8
    ensures !ExistsByEmail(s, req.email) ==> r == Step(s, Thrown(MessageNotReadable(EmailNotRegistered)))
    ensures ExistsByEmail(s, req.email) ==>
              var name := GetUser(s, req.email).username;
              && r.store.byEmail == s.byEmail
              && r.store.users.Keys == s.users.Keys
              && r.store.users[name] == s.users[name].(password := encoder.encode(newPass))
              && (forall u :: u in s.users && u != name ==> r.store.users[u] == s.users[u])
    ensures r.response.Ok? <==> ExistsByEmail(s, req.email) && mailOk
    ensures ExistsByEmail(s, req.email) && !mailOk ==> r.response == Thrown(Failure(SendEmailFailed))
    ensures r.response.Ok? ==> r.response == Success(NewPasswordSent, map["email" := Text(req.email)])
  {
    if !ExistsByEmail(s, req.email) then Step(s, Thrown(MessageNotReadable(EmailNotRegistered)))
    else
      var user := GetUser(s, req.email);
      var updated := UpdateUserPassword(s, user.username, encoder.encode(newPass));
      if mailOk then Step(updated, Success(NewPasswordSent, map["email" := Text(user.email)]))
      else Step(updated, Thrown(Failure(SendEmailFailed)))
  }

  /**
    The controller together with the state of its user service. The three
    endpoints that write to the store are methods; each is proved to do what
    the corresponding `Step` function says and to keep the store consistent.
  */
  class Controller {
    var users: map<string, User>
    var byEmail: map<string, string>

    function Snapshot(): Store
      reads this
    {
      Store(users, byEmail)
    }

    ghost predicate Valid()
      reads this
    {
      Consistent(Snapshot())
    }

    constructor ()
      ensures Valid() && Snapshot() == Empty
    {
      users := map[];
      byEmail := map[];
    }

    method AddUser(req: RegisterRequest, encoder: PasswordEncoder, mailOk: bool) returns (r: Response)
      requires Valid()
      modifies this
      ensures Valid()
      ensures Step(Snapshot(), r) == Register(old(Snapshot()), req, encoder, mailOk)
    {
      if req.email in byEmail {
        r := EmailUsed(req.email);
        return;
      }
      if req.username in users {
        r := UsernameUsed(req.username);
        return;
      }
      var newUser := NewUser(req, encoder);
      SaveUserConsistent(Snapshot(), newUser);
      users := users[req.username := newUser];
      byEmail := byEmail[req.email := req.username];
      if !mailOk {
        r := Thrown(Failure(CannotCreateAccount));
        return;
      }
      r := Success(RegisterSuccessful, map["email" := Text(req.email)]);
    }

    method ActiveToken(key: string, decode: string -> Token) returns (r: Response)
      requires Valid()
      modifies this
      ensures Valid()
      ensures Step(Snapshot(), r) == Activate(old(Snapshot()), key, decode)
    {
      if |key| == 0 {
        r := Thrown(BadCredentials(InvalidKey));
        return;
      }
      var username := decode(key).username;
      if username !in users {
        r := Thrown(RecordNotFound(NotRegistered));
        return;
      }
      var user := users[username];
      if user.active {
        r := Thrown(RecordNotFound(AlreadyActivated));
        return;
      }
      UpdateActiveConsistent(Snapshot(), username);
      users := users[username := user.(active := true)];
      r := Success(ActiveSuccessful, map["email" := Text(user.email)]);
    }

    method ForgetPassword(req: ReActiveRequest, newPass: string, encoder: PasswordEncoder, mailOk: bool) returns (r: Response)
      requires Valid() && |newPass| == 8
      modifies this
      ensures Valid()
      ensures Step(Snapshot(), r) == ResetPassword(old(Snapshot()), req, newPass, encoder, mailOk)
    {
      if req.email !in byEmail {
        r := Thrown(MessageNotReadable(EmailNotRegistered));
        return;
      }
      var username := byEmail[req.email];
      var user := users[username];
      UpdateUserPasswordConsistent(Snapshot(), username, encoder.encode(newPass));
      users := users[username := user.(password := encoder.encode(newPass))];
      if !mailOk {
        r := Thrown(Failure(SendEmailFailed));
        return;
      }
      r := Success(NewPasswordSent, map["email" := Text(user.email)]);
    }
  }
}
