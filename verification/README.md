# MERN_Auth front end — a Dafny model of its session and form logic

The front end is a single-page React application for user registration, login,
password reset and email verification against a remote REST backend. Its logic
lives in a shared session context and in the event handlers of four screens.
This project models that logic as pure functions over immutable records:

- **`AppContext`** (`src/context/AppContext.tsx`): the session, meaning the
  login flag and the user profile. It covers how the session is decoded from
  browser storage at start-up, the two effects that mirror it back to storage,
  the mount-time refresh condition, and `getUserData`, which reconciles the
  session with the server's answer.
- **`Otp`**: the six-box code entry used by both code pages. It covers the
  per-box input filter, the invariant that filter keeps ("every box is empty
  or holds one digit") and the joined code.
- **`ResetPasswordPage`** (`src/pages/ResetPassword.tsx`): requesting a reset
  code (step 1 to step 2), then the ordered local checks and the reset request.
- **`EmailVerifyPage`** (`src/pages/EmailVerify.tsx`): requesting a
  verification code (the `isOtpSent` sub-state), then the length gate and the
  verification request.
- **`LoginForm`** (`src/components/ui/login.tsx`): the login / sign-up mode
  toggle, the choice of endpoint and what each outcome does to the session.
- **`WelcomePage`** (`src/pages/Welcome.tsx`): logout, the page's own refresh
  effect, and the greeting, avatar initial and verification warning it shows.

Each network call is replaced by its abstract outcome
`Reply = Ok(payload) | Rejected(message) | TransportError` (module `Api`):

- `Ok` is a response whose body says `success: true`, and `Rejected` one
  whose body says `success: false`.
- `TransportError` is a call that threw. For the seven axios calls that is an
  unreachable server or a non-2xx status.
- axios returns a 2xx body that is not JSON as a plain string instead of
  throwing. That reads as `Ok(())` for the logout call, whose body is never
  inspected, and as `Rejected` for the other axios calls.
- The profile fetch (`PostGetUserData`) uses `fetch`. A non-2xx status does
  not throw there, but `response.json()` throws on a body that is not JSON,
  so for this call alone an unparsable body is a `TransportError`.

A handler maps its page state and the reply to a `Handled` record with three
parts:

- the page's new state;
- the request it issued, which is `None` when a local check stopped it;
- its ordered effects: session setters, an awaited profile refresh,
  navigation and toast notices.

`AppContext.Apply` runs those effects on the session. The reply to the awaited
profile refresh is passed in as a parameter.

Browser storage is a `map<string, string>`. `JSON.stringify`/`JSON.parse` are
library code, so they become a `Codec` parameter. The storage round-trip
properties assume `Faithful(codec)`: encoding gives a non-empty string, and
decoding that string gives the same profile back.

Three points of the source that the model follows as written:

- A stored profile that fails to parse is not recovered. The `JSON.parse` at
  `src/context/AppContext.tsx:36` has no `try`, so the initialiser throws and
  the provider does not render; `AppContext.Init` returns `None`.
- `verifyEmail` checks only that the joined code is 6 characters long.
  `EmailVerifyPage.VerifyRequestIffFilled` shows that the box filter makes
  those characters digits.
- `send-verify-otp` is posted with the empty body `{}`, so the model's
  `PostSendVerifyOtp` carries no fields.

## Model

| member | source | states |
|---|---|---|
| AppContext.Init | src/context/AppContext.tsx:29-37 | the starting login flag is true exactly when the stored text is "true" (a missing key or any other text gives false); the profile is absent when its entry is missing or empty, otherwise it is the decoded value; a stored profile that does not parse gives no session at all, never a recovered one |
| AppContext.PersistLoggedIn | src/context/AppContext.tsx:41-43 | the flag effect writes "true"/"false" under `isLoggedin` and leaves every other key as it was |
| AppContext.LoggedInRoundTrip | src/context/AppContext.tsx:29-43 | decoding what the flag effect wrote gives back the same flag |
| AppContext.PersistUserData | src/context/AppContext.tsx:46-54 | a profile is stored under `userData` as its encoding; no profile removes the key; other keys are untouched |
| AppContext.UserDataRoundTrip | src/context/AppContext.tsx:34-54 | with a faithful codec, decoding what the profile effect wrote gives back the same profile, or none |
| AppContext.RemoveAbsentIsNoOp | src/context/AppContext.tsx:50-53 | clearing the profile when no profile entry is stored leaves storage unchanged |
| AppContext.Sync | src/context/AppContext.tsx:39-54 | if storage mirrored the previous session, running only the effects whose dependency changed makes it mirror the new one; unrelated keys are kept, and an unchanged session writes nothing |
| AppContext.RestartRestoresSession | src/context/AppContext.tsx:29-54 | with a faithful codec, storage that mirrors a session decodes at the next start-up to exactly that session |
| AppContext.Mount | src/context/AppContext.tsx:29-62 | the first render fails exactly when start-up decoding fails; otherwise storage afterwards mirrors the decoded session, and the mount refresh is issued exactly when logged in without a profile |
| AppContext.MountNormalisesStorage | src/context/AppContext.tsx:29-54 | after the first render the stored flag is the canonical text of the decoded flag, and a stored profile that decodes to nothing has been removed |
| AppContext.GetUserData | src/context/AppContext.tsx:65-88 | success replaces the profile wholesale and keeps the flag; a rejection logs out and clears the profile; a transport error changes nothing and shows "Error loading user data"; the session is what the listed setter effects produce |
| AppContext.NeedsProfile | src/context/AppContext.tsx:59 | the refresh condition holds only without a profile and never when logged out |
| AppContext.RefreshSettles | src/context/AppContext.tsx:58-81 | after a rejection, or a success that delivers a profile, the refresh condition no longer holds |
| Otp.AcceptsIsCell | src/pages/ResetPassword.tsx:35 | the filter (at most one character, all of them ASCII digits) admits exactly the empty string and the single digits |
| Otp.Change | src/pages/ResetPassword.tsx:33-38 | an admitted value replaces only the indexed box, a refused value changes nothing, the box count never changes, and well-formed boxes stay well formed |
| Otp.JoinOfCells | src/pages/ResetPassword.tsx:90 | joining boxes that are each empty or one digit gives one character per filled box, all of them digits |
| Otp.CompleteIffFilled | src/pages/ResetPassword.tsx:90-96 | on well-formed boxes the "joined length is 6" check holds exactly when all six boxes are filled, and what passes is six digits |
| Otp.BlankIsWellFormed | src/pages/ResetPassword.tsx:16 | the initial six empty boxes satisfy the invariant and join to "" |
| ResetPasswordPage.HandleOtpChange | src/pages/ResetPassword.tsx:33-46 | only the code boxes change, as `Otp.Change` says; the step, email, passwords and loading flag are untouched |
| ResetPasswordPage.SendResetOtp | src/pages/ResetPassword.tsx:58-85 | no request exactly when the email is empty, in which case only "Please enter your email" is shown; otherwise the request carries the email; the step becomes 2 only on success and otherwise stays put; success shows "OTP sent to your email", a rejection the server's message, a throw "Failed to send OTP"; loading ends false; nothing else changes |
| ResetPasswordPage.Validate | src/pages/ResetPassword.tsx:93-106 | no message exactly when the code is 6 characters, the password has at least 6 characters and the confirmation matches; any message is one of the three check texts |
| ResetPasswordPage.ValidateIsFirstFailure | src/pages/ResetPassword.tsx:92-106 | the message reported equals the first failing check of the list [code length 6, password length at least 6, passwords equal] |
| ResetPasswordPage.ValidationOrder | src/pages/ResetPassword.tsx:93-106 | an incomplete code is reported whatever the passwords are; "too short" only once the code passes; "do not match" exactly when the code and length pass and the passwords differ |
| ResetPasswordPage.VerifyOtpAndReset | src/pages/ResetPassword.tsx:88-132 | a reset request is issued exactly when all three checks pass, with body {email, joined code, new password}; otherwise only the first failing check's message is shown and the form is untouched; the boxes and passwords are kept; success shows "Password reset successfully!" and then navigates to the login page, a rejection shows the server's message, a throw "Password reset failed"; loading ends false |
| ResetPasswordPage.ResetSendsSixDigits | src/pages/ResetPassword.tsx:90-118 | on well-formed boxes the reset request is issued exactly when every box is filled and the password checks pass, and its code is six digits |
| ResetPasswordPage.ResetFlowKeepsSession | src/pages/ResetPassword.tsx:58-132 | neither reset handler changes the shared session, whatever the outcome |
| ResetPasswordPage.RunKeepsInvariant | src/pages/ResetPassword.tsx:14-131 | over any sequence of user actions the boxes stay well formed and loading stays false between handler calls; once at step 2 the page never returns to step 1 |
| ResetPasswordPage.InitialIsInvariant | src/pages/ResetPassword.tsx:14-19 | the page starts at step 1 satisfying the invariant |
| EmailVerifyPage.HandleOtpChange | src/pages/EmailVerify.tsx:16-28 | only the code boxes change, as `Otp.Change` says; `isOtpSent` and loading are untouched |
| EmailVerifyPage.SendVerifyOtp | src/pages/EmailVerify.tsx:44-63 | always requests a code; afterwards `isOtpSent` is true exactly when it was already true or the call succeeded, so nothing resets it; the boxes are kept and loading ends false; success shows "OTP sent to your email", a rejection the server's message, a throw "Failed to send OTP" |
| EmailVerifyPage.VerifyEmail | src/pages/EmailVerify.tsx:65-91 | the request is issued exactly when the joined code has 6 characters, and carries that code; otherwise only the incomplete-code message is shown; success shows a notice, awaits a profile refresh and then goes home; a refresh happens only on success; a rejection shows the server's message and a throw "Verification failed"; the boxes are kept in every case |
| EmailVerifyPage.VerifyRequestIffFilled | src/pages/EmailVerify.tsx:65-78 | on well-formed boxes exactly one request is issued when all six boxes are filled, and none otherwise; the code sent is six digits |
| EmailVerifyPage.VerifySessionEffect | src/pages/EmailVerify.tsx:80-89 | after a successful verification the session is what the profile refresh makes it; after any other outcome the session is unchanged |
| EmailVerifyPage.SendCodeKeepsSession | src/pages/EmailVerify.tsx:44-63 | requesting a verification code never changes the shared session, whatever the outcome |
| EmailVerifyPage.RunKeepsInvariant | src/pages/EmailVerify.tsx:11-91 | over any sequence of user actions the boxes stay well formed and loading stays false; once `isOtpSent` is true it stays true |
| EmailVerifyPage.InitialIsInvariant | src/pages/EmailVerify.tsx:11-13 | the page starts with no code sent and satisfies the invariant |
| LoginForm.Toggle | src/components/ui/login.tsx:171 | the toggle always lands on one of the two modes, never stays in the same mode, and goes from "login" to "Sign up" |
| LoginForm.ToggleTwice | src/components/ui/login.tsx:13-171 | toggling twice from either mode returns to that mode |
| LoginForm.ShowsNameField | src/components/ui/login.tsx:92 | the name field is hidden in "login" mode and, in the two modes the form takes, shown exactly in "Sign up" |
| LoginForm.Endpoint | src/components/ui/login.tsx:41-52 | the request is a registration exactly in "Sign up" mode and a login otherwise; it always carries the form's email and password, and a registration also the name |
| LoginForm.NameFieldMatchesRequest | src/components/ui/login.tsx:41-112 | in either mode the name field is shown exactly when the request sends a name, i.e. when it is a registration |
| LoginForm.Submit | src/components/ui/login.tsx:35-65 | "Sign up" mode registers with {name, email, password} and every other mode logs in with {email, password}; success sets the login flag, then refreshes, then navigates to "/"; a rejection shows the server's message and a transport error the generic message, with no other effect |
| LoginForm.SubmitSessionEffect | src/components/ui/login.tsx:44-64 | after a successful submit the session is logged in and then reconciled by the refresh; after a rejection or a transport error it is unchanged |
| LoginForm.SuccessfulLogin | src/components/ui/login.tsx:44-57 | a successful submit whose refresh returns profile p ends logged in with exactly p |
| WelcomePage.HandleLogout | src/pages/Welcome.tsx:21-30 | issues the logout call; whenever the call returns, whatever its body, it clears the flag and the profile; when it throws, it only shows "Logout failed" |
| WelcomePage.LogoutSessionEffect | src/pages/Welcome.tsx:21-29 | after a logout the session is logged out with no profile if the call returned, and unchanged if it threw |
| WelcomePage.NoRefreshAfterLogout | src/pages/Welcome.tsx:21-36 | after a logout that went through, the page's refresh effect never fires |
| WelcomePage.PageRefreshCondition | src/pages/Welcome.tsx:32-36 | the page's effect never fires on a render that kept the login flag; on the first render or a flag change it fires exactly when logged in without a profile, which on mount agrees with the provider's own refresh decision |
| WelcomePage.RefreshOnRender | src/pages/Welcome.tsx:32-36 | the page's effect asks for a profile only when logged in without one, and never on a render that kept the login flag |
| WelcomePage.Upper | src/pages/Welcome.tsx:53 | lower-case ASCII letters map to the matching capital letter and every other character is left alone |
| WelcomePage.Avatar | src/pages/Welcome.tsx:53 | the avatar is always one character: "U" when there is no profile, no name or an empty name, otherwise the upper-cased first character of the name |
| WelcomePage.AvatarNeverLowerCase | src/pages/Welcome.tsx:53 | the avatar is never a lower-case ASCII letter |
| WelcomePage.Greeting | src/pages/Welcome.tsx:95 | the heading always has the form "Hey …!", and is "Hey Developer!" whenever logged out or without a profile |
| WelcomePage.ShowsWarning | src/pages/Welcome.tsx:97 | the warning needs a logged-in session with a profile, and never shows for a verified account |
| WelcomePage.DisplayAfterLogout | src/pages/Welcome.tsx:21-101 | once a logout went through, the page shows the generic greeting, the "U" avatar and no warning |
| WelcomePage.DisplayAfterProfile | src/pages/Welcome.tsx:53-97 | once a refresh delivered profile p to a logged-in session, the greeting uses p's name, the avatar is p's initial, and the warning shows exactly when p is unverified |
| WelcomePage.WarningImpliesPersonalGreeting | src/pages/Welcome.tsx:95-97 | the warning only appears with the personal greeting; a session that is logged out or has no profile gets "Hey Developer!", and a logged-out one no warning |

## Left out

- HTTP, the backend base URL and cookies are not modelled. Each call is its
  abstract `Reply`.
- The global `axios.defaults.withCredentials = true` set by the login form is
  not modelled. It also affects later requests from other pages.
- Toasts are recorded only as `Notice` values in the effect list.
- `console.log` in the catch blocks is not modelled.
- Focus movement in `handleOtpChange` and all of `handleKeyDown` are not
  modelled. They move DOM focus only and change no state.
- The interval while a request is in flight is not represented. A handler
  call is modelled as one step from state and reply to the final state. The
  `loading = true` interval lies inside that step, so the model shows only
  that `loading` is false again afterwards.
- React effect scheduling, StrictMode double effects, and overlapping or
  duplicate profile refreshes are not modelled. The source does not
  coordinate them.
- JSON encoding and decoding are the `Codec` parameter. Stored profile text
  that parses to a truthy non-object value (a number, a string) is not
  distinguished from a profile.
- Routing, rendering, styling and the dropdown's open/closed state are not
  modelled. The application shell and router setup, the login page wrapper
  and the verified tick in the dropdown are not part of this model.
- The "must be used within AppContentProvider" throws are not modelled. They
  are programming-contract checks.
- Browser-side form validation and disabled buttons are not modelled. This
  covers `required` inputs on the login form and buttons disabled while
  loading or while the code is incomplete. The handlers are modelled as if
  called directly.
- Otp.Change: the box index is assumed to be below the box count. The page
  only renders boxes 0 to 5. An out-of-range index, which JavaScript would
  use to grow the array, is not modelled.
- WelcomePage.Upper: only ASCII letters are upper-cased.
  `String.prototype.toUpperCase` applies full Unicode case mapping, which can
  turn one character into several (for example "ß" into "SS").
- WelcomePage.Avatar: "always one character" holds for the model's ASCII
  upper-casing only. In the source a name starting with "ß" gives the
  two-character avatar "SS".
- WelcomePage.Greeting: a `null` name and a missing name are both `None`, so
  the model renders "Hey undefined!" for both. The source renders
  "Hey null!" for a `null` name.
- ResetPasswordPage.VerifyOtpAndReset: the model counts string length in
  characters, while JavaScript counts UTF-16 code units. For characters
  outside the Basic Multilingual Plane, the password length check and the
  box filter's `length <= 1` can differ.
