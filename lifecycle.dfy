/**
  The controller serves one request after another against the same user
  store; what one request writes, the next one reads. This module runs a
  history of requests through the endpoints and proves what holds across any
  history: the store stays consistent, no user is ever removed, an email once
  registered stays bound to the same username (so it can never be registered
  again), and an activated account stays activated.
*/
module Lifecycle {
  import opened Wrappers
  import opened Jwt
  import opened Payload
  import opened UserStore
  import opened AuthController
  import opened AuthProperties

  /** One request to one of the endpoints, with the outside facts it meets. */
  datatype Call =
    | RegisterCall(register: RegisterRequest, mailOk: bool)
    | SignInCall(login: LoginRequest)
    | RefreshCall(body: RefreshTokenRequest, header: Option<string>)
    | RefreshCookieCall(cookie: string, header: Option<string>)
    | ActivateCall(key: string)
    | ReActiveCall(reactive: ReActiveRequest, mailOk: bool)
    | ForgetPasswordCall(forget: ReActiveRequest, newPass: string, mailOk: bool)

  /** The random password of a reset always has 8 characters. */
  predicate WellFormed(c: Call) {
    c.ForgetPasswordCall? ==> |c.newPass| == 8
  }

  /** Serves one request: the new store and the response. */
  function Serve(s: Store, c: Call, encoder: PasswordEncoder, decode: string -> Token): (r: Step)
    requires Consistent(s) && WellFormed(c)
    ensures Consistent(r.store)
    ensures (c.SignInCall? || c.RefreshCall? || c.RefreshCookieCall? || c.ReActiveCall?) ==> r.store == s
  {
    match c
    case RegisterCall(req, mailOk) =>
      RegisterConsistent(s, req, encoder, mailOk);
      Register(s, req, encoder, mailOk)
    case SignInCall(req) => Step(s, SignIn(s, req, encoder))
    case RefreshCall(body, header) => Step(s, RefreshToken(s, body, header, decode))
    case RefreshCookieCall(cookie, header) => Step(s, RefreshTokenCookie(s, cookie, header, decode))
    case ActivateCall(key) =>
      ActivateConsistent(s, key, decode);
      Activate(s, key, decode)
    case ReActiveCall(req, mailOk) => Step(s, ReActiveToken(s, req, mailOk))
    case ForgetPasswordCall(req, newPass, mailOk) =>
      ResetPasswordConsistent(s, req, newPass, encoder, mailOk);
      ResetPassword(s, req, newPass, encoder, mailOk)
  }

  predicate AllWellFormed(calls: seq<Call>) {
    forall i :: 0 <= i < |calls| ==> WellFormed(calls[i])
  }

  /** The store after serving `calls` in order. */
  function Run(s: Store, calls: seq<Call>, encoder: PasswordEncoder, decode: string -> Token): (t: Store)
    requires Consistent(s) && AllWellFormed(calls)
    ensures Consistent(t)
    decreases |calls|
  {
    if calls == [] then s
    else
      assert WellFormed(calls[0]);
      assert AllWellFormed(calls[1..]) by {
        forall i | 0 <= i < |calls[1..]| ensures WellFormed(calls[1..][i]) {
          assert calls[1..][i] == calls[i + 1];
        }
      }
      Run(Serve(s, calls[0], encoder, decode).store, calls[1..], encoder, decode)
  }

  /** `t` keeps every user of `s`, every email binding of `s`, and every activation of `s`. */
  ghost predicate Extends(s: Store, t: Store) {
    && (forall u :: u in s.users ==> u in t.users && t.users[u].email == s.users[u].email)
    && (forall u :: u in s.users && s.users[u].active ==> t.users[u].active)
    && (forall e :: e in s.byEmail ==> e in t.byEmail && t.byEmail[e] == s.byEmail[e])
  }

  /** No single request removes a user, rebinds an email or deactivates an account. */
  lemma ServeExtends(s: Store, c: Call, encoder: PasswordEncoder, decode: string -> Token)
    requires Consistent(s) && WellFormed(c)
    ensures Extends(s, Serve(s, c, encoder, decode).store)
  {
    match c
    case RegisterCall(req, mailOk) =>
    case SignInCall(req) =>
    case RefreshCall(body, header) =>
    case RefreshCookieCall(cookie, header) =>
    case ActivateCall(key) =>
    case ReActiveCall(req, mailOk) =>
    case ForgetPasswordCall(req, newPass, mailOk) =>
  }

  lemma {:induction false} ExtendsTransitive(s: Store, t: Store, w: Store)
    requires Extends(s, t) && Extends(t, w)
    ensures Extends(s, w)
  {
  }

  /** No history removes a user, rebinds an email or deactivates an account. */
  lemma {:induction false} RunExtends(s: Store, calls: seq<Call>, encoder: PasswordEncoder, decode: string -> Token)
    requires Consistent(s) && AllWellFormed(calls)
    ensures Extends(s, Run(s, calls, encoder, decode))
    decreases |calls|
  {
    if calls != [] {
      assert WellFormed(calls[0]);
      var next := Serve(s, calls[0], encoder, decode).store;
      ServeExtends(s, calls[0], encoder, decode);
      assert AllWellFormed(calls[1..]) by {
        forall i | 0 <= i < |calls[1..]| ensures WellFormed(calls[1..][i]) {
          assert calls[1..][i] == calls[i + 1];
        }
      }
      RunExtends(next, calls[1..], encoder, decode);
      ExtendsTransitive(s, next, Run(next, calls[1..], encoder, decode));
    }
  }

  /**
    Once an account is registered, however many requests follow, registering
    its email again is rejected on "email" and changes nothing.
  */
  lemma RegisteredEmailStaysTaken(s: Store, req: RegisterRequest, calls: seq<Call>, again: RegisterRequest,
                                  encoder: PasswordEncoder, decode: string -> Token, mailOk: bool, mailOk': bool)
    requires Consistent(s) && AllWellFormed(calls) && again.email == req.email
    requires Register(s, req, encoder, mailOk).response.Ok?
    ensures var t := Register(s, req, encoder, mailOk).store;
            var w := Run(t, calls, encoder, decode);
            && RejectedOn(Register(w, again, encoder, mailOk').response, "email")
            && Register(w, again, encoder, mailOk').store == w
  {
    RegisterConsistent(s, req, encoder, mailOk);
    var t := Register(s, req, encoder, mailOk).store;
    RunExtends(t, calls, encoder, decode);
  }

  /** Once activated, an account is never asked to activate again: every later activation naming it fails. */
  lemma ActivationIsPermanent(s: Store, key: string, calls: seq<Call>, key': string,
                              encoder: PasswordEncoder, decode: string -> Token)
    requires Consistent(s) && AllWellFormed(calls)
    requires Activate(s, key, decode).response.Ok?
    requires |key'| > 0 && decode(key').username == decode(key).username
    ensures var t := Activate(s, key, decode).store;
            var w := Run(t, calls, encoder, decode);
            Activate(w, key', decode) == Step(w, Thrown(RecordNotFound(AlreadyActivated)))
  {
    ActivateConsistent(s, key, decode);
    var t := Activate(s, key, decode).store;
    RunExtends(t, calls, encoder, decode);
  }
}
