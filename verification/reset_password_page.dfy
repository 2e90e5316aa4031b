/**
 The password-reset page: step 1 asks for the email and requests a reset
 code, step 2 takes the six-box code and the new password twice and submits
 the reset.
 */
module ResetPasswordPage {
  import opened Api
  import Otp
  import AppContext

  /** The page's `step`: 1 is `RequestCode`, 2 is `EnterCode`. */
  datatype Step = RequestCode | EnterCode

  datatype Form = Form(
    step: Step,
    email: string,
    otp: seq<string>,
    newPassword: string,
    confirmPassword: string,
    loading: bool)

  const Initial: Form := Form(RequestCode, "", Otp.Blank, "", "", false)

  const EmailMissing: string := "Please enter your email"
  const OtpIncomplete: string := "Please enter complete 6-digit OTP"
  const PasswordTooShort: string := "Password must be at least 6 characters"
  const PasswordMismatch: string := "Passwords do not match"

  /** `handleOtpChange` on this page: only the code boxes change. */
  function HandleOtpChange(f: Form, i: nat, v: string): (r: Form)
    requires i < |f.otp|
    ensures r.(otp := f.otp) == f
    ensures |r.otp| == |f.otp|
    ensures Otp.Accepts(v) ==> r.otp[i] == v
    ensures !Otp.Accepts(v) ==> r == f
    ensures forall j :: 0 <= j < |f.otp| && j != i ==> r.otp[j] == f.otp[j]
    ensures Otp.WellFormed(f.otp) ==> Otp.WellFormed(r.otp)
  {
    f.(otp := Otp.Change(f.otp, i, v))
  }

  /** `sendResetOtp` (also the "Resend OTP" button): an empty email is refused
      locally; otherwise the code is requested for that email, and only a
      success moves the page to step 2. */
  function SendResetOtp(f: Form, reply: Reply<()>): (r: Handled<Form>)
    ensures r.request.None? <==> f.email == ""
    ensures r.request.Some? ==> r.request.value == PostSendResetOtp(f.email)
    ensures f.email == "" ==> r.form == f && r.effects == [Toast(Error(EmailMissing))]
    ensures r.request.Some? ==> !r.form.loading
    ensures r.form.step == (if f.email != "" && reply.Ok? then EnterCode else f.step)
    ensures r.form.(step := f.step, loading := f.loading) == f
    ensures r.request.Some? && reply.Ok? ==> r.effects == [Toast(Success("OTP sent to your email"))]
    ensures r.request.Some? && reply.Rejected? ==> r.effects == [Toast(Error(reply.message))]
    ensures r.request.Some? && reply.TransportError? ==> r.effects == [Toast(Error("Failed to send OTP"))]
  {
    if f.email == "" then
      Handled(f, None, [Toast(Error(EmailMissing))])
    else
      var req := Some(PostSendResetOtp(f.email));
      match reply
      case Ok(_) => Handled(f.(step := EnterCode, loading := false), req, [Toast(Success("OTP sent to your email"))])
      case Rejected(m) => Handled(f.(loading := false), req, [Toast(Error(m))])
      case TransportError => Handled(f.(loading := false), req, [Toast(Error("Failed to send OTP"))])
  }

  /** The local checks of `verifyOtpAndReset`, in the order the page makes
      them; the message of the first failing one, or `None`. */
  function Validate(f: Form): (r: Option<string>)
    ensures r.None? <==>
              |Otp.Join(f.otp)| == Otp.Width && |f.newPassword| >= 6 && f.newPassword == f.confirmPassword
    ensures r.Some? ==> r.value in {OtpIncomplete, PasswordTooShort, PasswordMismatch}
  {
    var code := Otp.Join(f.otp);
    if |code| != Otp.Width then Some(OtpIncomplete)
    else if f.newPassword == "" || |f.newPassword| < 6 then Some(PasswordTooShort)
    else if f.newPassword != f.confirmPassword then Some(PasswordMismatch)
    else None
  }

  /** An independent statement of the same checks: a list of (passes, message)
      pairs and the first one that fails. */
  datatype Check = Check(passes: bool, message: string)

  function Checks(f: Form): seq<Check> {
    [ Check(|Otp.Join(f.otp)| == Otp.Width, OtpIncomplete),
      Check(|f.newPassword| >= 6, PasswordTooShort),
      Check(f.newPassword == f.confirmPassword, PasswordMismatch) ]
  }

  function FirstFailure(checks: seq<Check>): (r: Option<string>)
    ensures r.None? <==> forall i :: 0 <= i < |checks| ==> checks[i].passes
    ensures r.Some? ==> exists i :: 0 <= i < |checks| && !checks[i].passes && checks[i].message == r.value
                                   && forall j :: 0 <= j < i ==> checks[j].passes
    decreases |checks|
  {
    if checks == [] then None
    else if !checks[0].passes then Some(checks[0].message)
    else
      var rest := FirstFailure(checks[1..]);
      if rest.Some? then
        ghost var i :| 0 <= i < |checks[1..]| && !checks[1..][i].passes && checks[1..][i].message == rest.value
                      && forall j :: 0 <= j < i ==> checks[1..][j].passes;
        assert !checks[i + 1].passes && checks[i + 1].message == rest.value;
        assert forall j :: 0 <= j < i + 1 ==> checks[j].passes by {
          forall j | 0 <= j < i + 1 ensures checks[j].passes {
            if j > 0 { assert checks[j] == checks[1..][j - 1]; }
          }
        }
        rest
      else
        assert forall i :: 0 <= i < |checks| ==> checks[i].passes by {
          forall i | 0 <= i < |checks| ensures checks[i].passes {
            if i > 0 { assert checks[i] == checks[1..][i - 1]; }
          }
        }
        rest
  }

  /** The page reports exactly the first failing check of the three. */
  lemma ValidateIsFirstFailure(f: Form)
    ensures Validate(f) == FirstFailure(Checks(f))
  {
    var c := Checks(f);
    assert c[1..] == [c[1], c[2]];
    assert c[1..][1..] == [c[2]];
    assert c[1..][1..][1..] == [];
  }

  /** The ordering in practice: an incomplete code is reported whatever the
      passwords are, and a mismatch is reported only once the code and the
      length pass. */
  lemma ValidationOrder(f: Form)
    ensures |Otp.Join(f.otp)| != Otp.Width ==> Validate(f) == Some(OtpIncomplete)
    ensures Validate(f) == Some(PasswordTooShort) ==> |Otp.Join(f.otp)| == Otp.Width && |f.newPassword| < 6
    ensures Validate(f) == Some(PasswordMismatch) <==>
              |Otp.Join(f.otp)| == Otp.Width && |f.newPassword| >= 6 && f.newPassword != f.confirmPassword
  {
  }

  /** `verifyOtpAndReset`: the reset is requested only when all three checks
      pass, with the email, the joined code and the new password; success
      leads to the login page. The boxes and the passwords are kept either way. */
  function VerifyOtpAndReset(f: Form, reply: Reply<()>): (r: Handled<Form>)
    ensures r.request.Some? <==>
              |Otp.Join(f.otp)| == Otp.Width && |f.newPassword| >= 6 && f.newPassword == f.confirmPassword
    ensures r.request.Some? ==> r.request.value == PostResetPassword(f.email, Otp.Join(f.otp), f.newPassword)
    ensures r.request.None? ==> r.form == f && r.effects == [Toast(Error(Validate(f).value))]
    ensures r.request.Some? ==> !r.form.loading
    ensures r.form.(loading := f.loading) == f
    ensures Navigate("/login") in r.effects <==> r.request.Some? && reply.Ok?
    ensures r.request.Some? && reply.Ok? ==>
              r.effects == [Toast(Success("Password reset successfully!")), Navigate("/login")]
    ensures r.request.Some? && reply.Rejected? ==> r.effects == [Toast(Error(reply.message))]
    ensures r.request.Some? && reply.TransportError? ==> r.effects == [Toast(Error("Password reset failed"))]
  {
    match Validate(f)
    case Some(m) => Handled(f, None, [Toast(Error(m))])
    case None =>
      var req := Some(PostResetPassword(f.email, Otp.Join(f.otp), f.newPassword));
      var done := f.(loading := false);
      match reply
      case Ok(_) => Handled(done, req, [Toast(Success("Password reset successfully!")), Navigate("/login")])
      case Rejected(m) => Handled(done, req, [Toast(Error(m))])
      case TransportError => Handled(done, req, [Toast(Error("Password reset failed"))])
  }

  /** On well-formed boxes a reset request carries six digits, and is issued
      exactly when every box is filled and the passwords pass. */
  lemma ResetSendsSixDigits(f: Form, reply: Reply<()>)
    requires Otp.WellFormed(f.otp)
    ensures VerifyOtpAndReset(f, reply).request.Some? <==>
              Otp.Filled(f.otp) && |f.newPassword| >= 6 && f.newPassword == f.confirmPassword
    ensures VerifyOtpAndReset(f, reply).request.Some? ==>
              var code := VerifyOtpAndReset(f, reply).request.value.otp;
              |code| == Otp.Width && forall k :: 0 <= k < |code| ==> Otp.IsDigit(code[k])
  {
    Otp.CompleteIffFilled(f.otp);
  }

  /** The reset flow is unauthenticated: none of its outcomes touches the
      shared session. */
  lemma ResetFlowKeepsSession(f: Form, reply: Reply<()>, s: AppContext.Session, refresh: Reply<UserData>)
    ensures AppContext.Apply(s, SendResetOtp(f, reply).effects, refresh) == s
    ensures AppContext.Apply(s, VerifyOtpAndReset(f, reply).effects, refresh) == s
  {
    AppContext.ApplyNoSessionEffects(s, SendResetOtp(f, reply).effects, refresh);
    AppContext.ApplyNoSessionEffects(s, VerifyOtpAndReset(f, reply).effects, refresh);
  }

  /** A user action on the page. `EditEmail` and the two password edits are
      the inputs' change handlers. */
  datatype Event =
    | EditEmail(email: string)
    | EditOtp(index: Otp.Box, value: string)
    | EditNewPassword(password: string)
    | EditConfirmPassword(password: string)
    | SendCode(sendReply: Reply<()>)
    | Reset(resetReply: Reply<()>)

  function Next(f: Form, e: Event): (r: Form)
    requires |f.otp| == Otp.Width
    ensures |r.otp| == Otp.Width
  {
    match e
    case EditEmail(s) => f.(email := s)
    case EditOtp(i, v) => HandleOtpChange(f, i, v)
    case EditNewPassword(p) => f.(newPassword := p)
    case EditConfirmPassword(p) => f.(confirmPassword := p)
    case SendCode(reply) => SendResetOtp(f, reply).form
    case Reset(reply) => VerifyOtpAndReset(f, reply).form
  }

  /** The form after a sequence of user actions. */
  function Run(f: Form, events: seq<Event>): (r: Form)
    requires |f.otp| == Otp.Width
    decreases |events|
  {
    if events == [] then f else Run(Next(f, events[0]), events[1..])
  }

  /** The page's invariant: well-formed boxes, and no request in flight
      between handler calls. */
  predicate Invariant(f: Form) {
    Otp.WellFormed(f.otp) && !f.loading
  }

  /** Every user action keeps the invariant, and none takes the page back from
      step 2 to step 1. */
  lemma {:induction false} RunKeepsInvariant(f: Form, events: seq<Event>)
    requires Invariant(f)
    ensures Invariant(Run(f, events))
    ensures f.step == EnterCode ==> Run(f, events).step == EnterCode
    decreases |events|
  {
    if events != [] {
      var f' := Next(f, events[0]);
      assert Invariant(f');
      assert f.step == EnterCode ==> f'.step == EnterCode;
      RunKeepsInvariant(f', events[1..]);
    }
  }

  lemma InitialIsInvariant()
    ensures Invariant(Initial)
    ensures Initial.step == RequestCode
  {
  }
}
