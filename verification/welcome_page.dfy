/**
 The landing page: logout, its own profile-refresh effect, and what it
 derives from the session for display (greeting, avatar initial, the
 unverified-account warning).
 */
module WelcomePage {
  import opened Api
  import AppContext

  /** `handleLogout`: once the logout call returns, whatever its body says,
      the session is cleared; if the call throws, the session is kept (the
      user stays logged in locally when the server could not confirm). */
  function HandleLogout(reply: Reply<()>): (r: Handled<()>)
    ensures r.request == Some(GetLogout)
    ensures !reply.TransportError? ==>
              r.effects == [SetLoggedIn(false), SetUserData(None), Toast(Success("Logged out successfully"))]
    ensures reply.TransportError? ==> r.effects == [Toast(Error("Logout failed"))]
  {
    match reply
    case TransportError => Handled((), Some(GetLogout), [Toast(Error("Logout failed"))])
    case _ => Handled((), Some(GetLogout), [SetLoggedIn(false), SetUserData(None), Toast(Success("Logged out successfully"))])
  }

  /** The session after a logout: logged out with no profile when the call
      returned, unchanged when it threw. */
  lemma LogoutSessionEffect(reply: Reply<()>, s: AppContext.Session, refresh: Reply<UserData>)
    ensures AppContext.Apply(s, HandleLogout(reply).effects, refresh) ==
              (if reply.TransportError? then s else AppContext.Session(false, None))
  {
  }

  /** The page's `[isLoggedin]` effect. It runs on the page's first render
      (`previous` is `None`) and whenever the login flag differs from the
      previous render's; when it runs it refreshes the profile if logged in
      without one. */
  function RefreshOnRender(previous: Option<bool>, s: AppContext.Session): (r: bool)
    ensures r ==> s.isLoggedin && s.userData.None?
    ensures previous == Some(s.isLoggedin) ==> !r
  {
    (previous.None? || previous.value != s.isLoggedin) && AppContext.NeedsProfile(s)
  }

  /** After a logout that went through, the page never asks for a profile. */
  lemma NoRefreshAfterLogout(previous: Option<bool>, s: AppContext.Session, refresh: Reply<UserData>)
    ensures !RefreshOnRender(previous, AppContext.Apply(s, HandleLogout(Ok(())).effects, refresh))
  {
  }

  /** ASCII upper-casing of one character. */
  function Upper(c: char): (r: char)
    ensures 'a' <= c <= 'z' ==> 'A' <= r <= 'Z' && r as int - 'A' as int == c as int - 'a' as int
    ensures !('a' <= c <= 'z') ==> r == c
  {
    if 'a' <= c <= 'z' then (c as int - 'a' as int + 'A' as int) as char else c
  }

  /** The avatar letter: the first character of the profile's name,
      upper-cased, or "U" when there is no profile, no name or an empty name. */
  function Avatar(u: UserData): (r: string)
    ensures |r| == 1
    ensures (u.None? || u.value.name.None? || u.value.name.value == "") ==> r == "U"
    ensures u.Some? && u.value.name.Some? && u.value.name.value != "" ==> r[0] == Upper(u.value.name.value[0])
  {
    match u
    case None => "U"
    case Some(p) =>
      match p.name
      case None => "U"
      case Some(n) => if n == "" then "U" else [Upper(n[0])]
  }

  /** The avatar letter is never a lower-case ASCII letter. */
  lemma AvatarNeverLowerCase(u: UserData)
    ensures !('a' <= Avatar(u)[0] <= 'z')
  {
  }

  /** How a template literal renders the profile's name: an absent property
      renders as "undefined". */
  function NameText(name: Option<string>): string {
    match name
    case Some(n) => n
    case None => "undefined"
  }

  const DefaultGreeting: string := "Hey Developer!"

  /** The heading: personal when logged in with a profile, generic otherwise. */
  function Greeting(s: AppContext.Session): (r: string)
    ensures |r| >= 5 && r[..4] == "Hey " && r[|r| - 1] == '!'
    ensures !s.isLoggedin || s.userData.None? ==> r == DefaultGreeting
  {
    if s.isLoggedin && s.userData.Some? then "Hey " + NameText(s.userData.value.name) + "!"
    else DefaultGreeting
  }

  /** The warning under the heading: logged in, with a profile whose account
      is not verified. */
  function ShowsWarning(s: AppContext.Session): (r: bool)
    ensures r ==> s.isLoggedin && s.userData.Some?
    ensures s.userData.Some? && s.userData.value.isAccountVerified ==> !r
  {
    s.isLoggedin && s.userData.Some? && !s.userData.value.isAccountVerified
  }

  /** The page's refresh agrees with the provider's mount-time refresh on the
      first render, and never fires on a render that kept the login flag. */
  lemma PageRefreshCondition(previous: Option<bool>, s: AppContext.Session, st: AppContext.Storage, codec: AppContext.Codec)
    ensures previous.Some? && previous.value == s.isLoggedin ==> !RefreshOnRender(previous, s)
    ensures previous.None? || previous.value != s.isLoggedin ==>
              (RefreshOnRender(previous, s) <==> s.isLoggedin && s.userData.None?)
    ensures AppContext.Mount(st, codec).Some? ==>
              var m := AppContext.Mount(st, codec).value;
              RefreshOnRender(None, m.session) == m.refresh
  {
  }

  /** What the page shows once a logout went through: the generic greeting,
      the "U" avatar and no warning. */
  lemma DisplayAfterLogout(s: AppContext.Session, body: Reply<()>, refresh: Reply<UserData>)
    requires !body.TransportError?
    ensures var s' := AppContext.Apply(s, HandleLogout(body).effects, refresh);
            && Greeting(s') == DefaultGreeting
            && Avatar(s'.userData) == "U"
            && !ShowsWarning(s')
  {
  }

  /** What the page shows once a refresh delivered profile `p` to a logged-in
      session: a greeting with p's name, p's initial, and the warning exactly
      when p's account is unverified. */
  lemma DisplayAfterProfile(s: AppContext.Session, p: Profile)
    requires s.isLoggedin
    ensures var s' := AppContext.GetUserData(s, Ok(Some(p))).form;
            && Greeting(s') == "Hey " + NameText(p.name) + "!"
            && Avatar(s'.userData) == Avatar(Some(p))
            && (ShowsWarning(s') <==> !p.isAccountVerified)
  {
  }

  /** The warning only ever accompanies the personal greeting, and a logged-out
      session shows neither. */
  lemma WarningImpliesPersonalGreeting(s: AppContext.Session)
    ensures ShowsWarning(s) ==> Greeting(s) == "Hey " + NameText(s.userData.value.name) + "!"
    ensures !s.isLoggedin ==> Greeting(s) == DefaultGreeting && !ShowsWarning(s)
    ensures !(s.isLoggedin && s.userData.Some?) ==> Greeting(s) == DefaultGreeting
  {
  }
}
