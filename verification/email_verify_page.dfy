/**
 The email-verification page: a button that has a code mailed to the
 logged-in user, then the six-box code entry that verifies the account.
 */
module EmailVerifyPage {
  import opened Api
  import Otp
  import AppContext

  datatype Form = Form(otp: seq<string>, isOtpSent: bool, loading: bool)

  const Initial: Form := Form(Otp.Blank, false, false)

  const OtpIncomplete: string := "Please enter complete 6-digit OTP"

  /** `handleOtpChange` on this page: only the code boxes change. */
  function HandleOtpChange(f: Form, i: nat, v: string): (r: Form)
    requires i < |f.otp|
    ensures r.(otp := f.otp) == f
    ensures |r.otp| == |f.otp|
    ensures Otp.Accepts(v) ==> r.otp[i] == v
    ensures !Otp.Accepts(v) ==> r == f
    ensures forall j :: 0 <= j < |f.otp| && j != i ==> r.otp[j] == f.otp[j]
    ensures Otp.WellFormed(f.otp) ==> Otp.WellFormed(r.otp)
  {
    f.(otp := Otp.Change(f.otp, i, v))
  }

  /** `sendVerifyOtp` (also "Resend OTP"): always requests a code; only a
      success switches the page to code entry, and nothing switches it back. */
  function SendVerifyOtp(f: Form, reply: Reply<()>): (r: Handled<Form>)
    ensures r.request == Some(PostSendVerifyOtp)
    ensures r.form.isOtpSent == (f.isOtpSent || reply.Ok?)
    ensures r.form.otp == f.otp && !r.form.loading
    ensures |r.effects| == 1 && r.effects[0].Toast?
    ensures reply.Ok? ==> r.effects == [Toast(Success("OTP sent to your email"))]
    ensures reply.Rejected? ==> r.effects == [Toast(Error(reply.message))]
    ensures reply.TransportError? ==> r.effects == [Toast(Error("Failed to send OTP"))]
  {
    var done := f.(loading := false);
    match reply
    case Ok(_) => Handled(done.(isOtpSent := true), Some(PostSendVerifyOtp), [Toast(Success("OTP sent to your email"))])
    case Rejected(m) => Handled(done, Some(PostSendVerifyOtp), [Toast(Error(m))])
    case TransportError => Handled(done, Some(PostSendVerifyOtp), [Toast(Error("Failed to send OTP"))])
  }

  /** `verifyEmail`: a joined code that is not six characters long is refused
      locally; otherwise it is sent, and a success refreshes the profile and
      then goes home. The boxes are kept in every case, so a failed attempt
      can be retried. */
  function VerifyEmail(f: Form, reply: Reply<()>): (r: Handled<Form>)
    ensures r.request.Some? <==> |Otp.Join(f.otp)| == Otp.Width
    ensures r.request.Some? ==> r.request.value == PostVerifyAccount(Otp.Join(f.otp))
    ensures r.request.None? ==> r.form == f && r.effects == [Toast(Error(OtpIncomplete))]
    ensures r.request.Some? ==> !r.form.loading
    ensures r.form.(loading := f.loading) == f
    ensures r.request.Some? && reply.Ok? ==>
              r.effects == [Toast(Success("Email verified successfully!")), Refresh, Navigate("/")]
    ensures Refresh in r.effects <==> r.request.Some? && reply.Ok?
    ensures r.request.Some? && reply.Rejected? ==> r.effects == [Toast(Error(reply.message))]
    ensures r.request.Some? && reply.TransportError? ==> r.effects == [Toast(Error("Verification failed"))]
  {
    var code := Otp.Join(f.otp);
    if |code| != Otp.Width then
      Handled(f, None, [Toast(Error(OtpIncomplete))])
    else
      var req := Some(PostVerifyAccount(code));
      var done := f.(loading := false);
      match reply
      case Ok(_) => Handled(done, req, [Toast(Success("Email verified successfully!")), Refresh, Navigate("/")])
      case Rejected(m) => Handled(done, req, [Toast(Error(m))])
      case TransportError => Handled(done, req, [Toast(Error("Verification failed"))])
  }

  /** On well-formed boxes exactly one verification request is issued when all
      six boxes are filled, and none otherwise; what it carries is six digits. */
  lemma VerifyRequestIffFilled(f: Form, reply: Reply<()>)
    requires Otp.WellFormed(f.otp)
    ensures VerifyEmail(f, reply).request.Some? <==> Otp.Filled(f.otp)
    ensures VerifyEmail(f, reply).request.Some? ==>
              var code := VerifyEmail(f, reply).request.value.otp;
              |code| == Otp.Width && forall k :: 0 <= k < |code| ==> Otp.IsDigit(code[k])
  {
    Otp.CompleteIffFilled(f.otp);
  }

  /** The session after a verification: a success leaves it as the awaited
      profile refresh makes it; any other outcome leaves it untouched. */
  lemma VerifySessionEffect(f: Form, reply: Reply<()>, s: AppContext.Session, refresh: Reply<UserData>)
    ensures var r := VerifyEmail(f, reply);
            AppContext.Apply(s, r.effects, refresh) ==
              (if r.request.Some? && reply.Ok? then AppContext.GetUserData(s, refresh).form else s)
  {
  }

  /** Requesting a verification code never touches the shared session,
      whatever the outcome. */
  lemma SendCodeKeepsSession(f: Form, reply: Reply<()>, s: AppContext.Session, refresh: Reply<UserData>)
    ensures AppContext.Apply(s, SendVerifyOtp(f, reply).effects, refresh) == s
  {
    AppContext.ApplyNoSessionEffects(s, SendVerifyOtp(f, reply).effects, refresh);
  }

  /** A user action on the page. */
  datatype Event =
    | EditOtp(index: Otp.Box, value: string)
    | SendCode(sendReply: Reply<()>)
    | Verify(verifyReply: Reply<()>)

  function Next(f: Form, e: Event): (r: Form)
    requires |f.otp| == Otp.Width
    ensures |r.otp| == Otp.Width
  {
    match e
    case EditOtp(i, v) => HandleOtpChange(f, i, v)
    case SendCode(reply) => SendVerifyOtp(f, reply).form
    case Verify(reply) => VerifyEmail(f, reply).form
  }

  /** The form after a sequence of user actions. */
  function Run(f: Form, events: seq<Event>): (r: Form)
    requires |f.otp| == Otp.Width
    decreases |events|
  {
    if events == [] then f else Run(Next(f, events[0]), events[1..])
  }

  /** The page's invariant: well-formed boxes, and no request in flight
      between handler calls. */
  predicate Invariant(f: Form) {
    Otp.WellFormed(f.otp) && !f.loading
  }

  /** Every user action keeps the invariant, and once a code has been sent the
      page stays in code entry. */
  lemma {:induction false} RunKeepsInvariant(f: Form, events: seq<Event>)
    requires Invariant(f)
    ensures Invariant(Run(f, events))
    ensures f.isOtpSent ==> Run(f, events).isOtpSent
    decreases |events|
  {
    if events != [] {
      var f' := Next(f, events[0]);
      assert Invariant(f');
      assert f.isOtpSent ==> f'.isOtpSent;
      RunKeepsInvariant(f', events[1..]);
    }
  }

  lemma InitialIsInvariant()
    ensures Invariant(Initial)
    ensures !Initial.isOtpSent
  {
  }
}
