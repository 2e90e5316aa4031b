/**
 The vocabulary shared by every page of the front end: the user profile the
 backend returns, the requests the pages send, the abstract outcome of a
 request, and the observable effects a handler produces.

 No request is ever executed here. A handler is a pure function of the page
 state and of the `Reply` its request would receive; it reports WHICH request
 it issues (if any) and the ordered list of effects that follow.
 */
module Api {

  datatype Option<+T> = None | Some(value: T)

  /** The profile object the backend sends under `userData`. The name may be
      absent from the object, hence the `Option`; a `null` name is folded
      into `None` too. */
  datatype Profile = Profile(name: Option<string>, email: string, isAccountVerified: bool)

  /** The in-memory `userData` value: a profile object, or any falsy value
      (`null`, `undefined`), all of which the pages treat alike. */
  type UserData = Option<Profile>

  /** The outcome of one network call, as the handlers observe it.
      - `Ok(payload)`: the call returned and the body says `success: true`;
      - `Rejected(message)`: the call returned and the body says `success: false`;
      - `TransportError`: the call threw. For the seven axios calls that is an
        unreachable server or a non-2xx status; axios hands a 2xx body that is
        not JSON back as a plain string, which reads as `Ok(())` for the
        logout call (its body is never looked at) and as `Rejected` for the
        others (`success` is then undefined). The profile fetch uses `fetch`,
        which does not throw on a non-2xx status but whose `response.json()`
        throws on a body that is not JSON: there an unparsable body is a
        `TransportError`. */
  datatype Reply<+P> = Ok(payload: P) | Rejected(message: string) | TransportError

  /** One request to the backend, with exactly the body the page sends. */
  datatype Request =
    | PostRegister(name: string, email: string, password: string)          // /api/auth/register
    | PostLogin(email: string, password: string)                           // /api/auth/login
    | GetLogout                                                            // /api/auth/logout
    | PostSendVerifyOtp                                                    // /api/auth/send-verify-otp
    | PostVerifyAccount(otp: string)                                       // /api/auth/verify-account
    | PostSendResetOtp(email: string)                                      // /api/auth/send-reset-otp
    | PostResetPassword(email: string, otp: string, newPassword: string)   // /api/auth/reset-password
    | PostGetUserData                                                      // /api/user/get-user-data

  /** A toast notification. */
  datatype Notice = Success(text: string) | Error(text: string)

  /** An observable effect of a handler, in the order the handler performs it. */
  datatype Effect =
    | SetLoggedIn(loggedIn: bool)      // the shared session's login flag setter
    | SetUserData(user: UserData)      // the shared session's profile setter
    | Refresh                          // an awaited profile refresh (getUserData)
    | Navigate(path: string)           // a client-side route change
    | Toast(notice: Notice)

  /** What one call of a page handler produced: the page's new local state,
      the request it issued (`None` when a local check stopped it first) and
      its effects. */
  datatype Handled<F> = Handled(form: F, request: Option<Request>, effects: seq<Effect>)
}
