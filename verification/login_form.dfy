/**
 The login / sign-up form: a mode string toggled between "login" and
 "Sign up", and a submit handler that registers or logs in.
 */
module LoginForm {
  import opened Api
  import AppContext

  const LoginMode: string := "login"
  const SignUpMode: string := "Sign up"

  const GenericFailure: string := "An error occurred. Please try again."

  datatype Form = Form(mode: string, name: string, email: string, password: string)

  const Initial: Form := Form(LoginMode, "", "", "")

  /** The two values the mode takes. */
  predicate IsMode(m: string) {
    m == LoginMode || m == SignUpMode
  }

  /** The "click here" toggle: "login" goes to "Sign up", anything else back
      to "login". */
  function Toggle(m: string): (r: string)
    ensures IsMode(r)
    ensures r != m
    ensures m == LoginMode ==> r == SignUpMode
  {
    if m == LoginMode then SignUpMode else LoginMode
  }

  /** Toggling twice returns to the same mode. */
  lemma ToggleTwice(m: string)
    requires IsMode(m)
    ensures Toggle(Toggle(m)) == m
  {
  }

  /** The name input is rendered in every mode but "login". */
  function ShowsNameField(m: string): (r: bool)
    ensures m == LoginMode ==> !r
    ensures IsMode(m) ==> (r <==> m == SignUpMode)
  {
    m != LoginMode
  }

  /** The request the form sends: register with all three fields in "Sign up"
      mode, log in with email and password in every other mode. */
  function Endpoint(f: Form): (r: Request)
    ensures r.PostRegister? || r.PostLogin?
    ensures r.PostRegister? <==> f.mode == SignUpMode
    ensures r.email == f.email && r.password == f.password
    ensures r.PostRegister? ==> r.name == f.name
  {
    if f.mode == SignUpMode then PostRegister(f.name, f.email, f.password)
    else PostLogin(f.email, f.password)
  }

  /** In either mode the form can be in, the name field is on screen exactly
      when the name is sent. */
  lemma NameFieldMatchesRequest(f: Form)
    requires IsMode(f.mode)
    ensures ShowsNameField(f.mode) <==> Endpoint(f).PostRegister?
  {
  }

  /** `onSubmitHandler`: send the request; on success log in, await a profile
      refresh, then go home; on a rejection show the server's message; on a
      transport error show the generic message. The form itself is unchanged. */
  function Submit(f: Form, reply: Reply<()>): (r: Handled<Form>)
    ensures r.form == f
    ensures f.mode == SignUpMode ==> r.request == Some(PostRegister(f.name, f.email, f.password))
    ensures f.mode != SignUpMode ==> r.request == Some(PostLogin(f.email, f.password))
    ensures reply.Ok? ==> r.effects == [SetLoggedIn(true), Refresh, Navigate("/")]
    ensures reply.Rejected? ==> r.effects == [Toast(Error(reply.message))]
    ensures reply.TransportError? ==> r.effects == [Toast(Error(GenericFailure))]
  {
    var req := Some(Endpoint(f));
    match reply
    case Ok(_) => Handled(f, req, [SetLoggedIn(true), Refresh, Navigate("/")])
    case Rejected(m) => Handled(f, req, [Toast(Error(m))])
    case TransportError => Handled(f, req, [Toast(Error(GenericFailure))])
  }

  /** The session after a submit: a success is the session logged in and then
      reconciled by the awaited refresh; any other outcome leaves it as it was. */
  lemma SubmitSessionEffect(f: Form, reply: Reply<()>, s: AppContext.Session, refresh: Reply<UserData>)
    ensures AppContext.Apply(s, Submit(f, reply).effects, refresh) ==
              (if reply.Ok? then AppContext.GetUserData(s.(isLoggedin := true), refresh).form else s)
  {
  }

  /** A successful submit whose refresh returns a profile ends logged in with
      exactly that profile. */
  lemma SuccessfulLogin(f: Form, s: AppContext.Session, p: Profile)
    ensures AppContext.Apply(s, Submit(f, Ok(())).effects, Ok(Some(p))) == AppContext.Session(true, Some(p))
  {
  }
}
