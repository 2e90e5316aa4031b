/**
 The shared session store of the application (`AppContentProvider`): the
 login flag and the user profile, their start-up decoding from browser
 storage, the two effects that mirror them back to storage, the mount-time
 refresh trigger and the profile refresh (`getUserData`).

 Browser storage is a `map<string, string>`. JSON encoding and decoding are
 library calls this model cannot see, so they are a `Codec` parameter.
 */
module AppContext {
  import opened Api

  const LoggedInKey: string := "isLoggedin"
  const UserDataKey: string := "userData"

  type Storage = map<string, string>

  datatype Session = Session(isLoggedin: bool, userData: UserData)

  /** What `JSON.parse` yields on a stored profile string: a value (a profile
      object or a falsy value such as `null`), or a syntax error, which the
      start-up code does not catch. */
  datatype Parse = Parsed(user: UserData) | Malformed

  datatype Codec = Codec(encode: Profile -> string, decode: string -> Parse)

  /** A codec that round-trips every profile through a non-empty string, as
      `JSON.stringify`/`JSON.parse` do for an object. Non-emptiness matters:
      the start-up code treats an empty stored string as "no profile". */
  ghost predicate Faithful(codec: Codec) {
    forall p: Profile :: codec.encode(p) != "" && codec.decode(codec.encode(p)) == Parsed(Some(p))
  }

  /** JavaScript's `Boolean.prototype.toString`. */
  function BoolText(b: bool): string {
    if b then "true" else "false"
  }

  // ---------------------------------------------------------------------------
  // Start-up decoding (the two lazy state initialisers)
  // ---------------------------------------------------------------------------

  /** The initial login flag: only the exact stored text "true" logs in. */
  function InitialLoggedIn(st: Storage): bool {
    LoggedInKey in st && st[LoggedInKey] == "true"
  }

  /** The initial profile: a missing or empty entry is "no profile"; anything
      else goes through the decoder, whose syntax error is passed on. */
  function InitialUserData(st: Storage, codec: Codec): Parse {
    if UserDataKey in st && st[UserDataKey] != "" then codec.decode(st[UserDataKey])
    else Parsed(None)
  }

  /** The session the provider starts with, or `None` when the stored profile
      does not parse: the initialiser then throws and the provider never
      renders. There is no recovery from corrupt stored data. */
  function Init(st: Storage, codec: Codec): (r: Option<Session>)
    ensures r.None? <==> UserDataKey in st && st[UserDataKey] != "" && codec.decode(st[UserDataKey]).Malformed?
    ensures r.Some? ==> (r.value.isLoggedin <==> LoggedInKey in st && st[LoggedInKey] == "true")
    ensures r.Some? && (UserDataKey !in st || st[UserDataKey] == "") ==> r.value.userData.None?
    ensures r.Some? && UserDataKey in st && st[UserDataKey] != "" ==>
              codec.decode(st[UserDataKey]) == Parsed(r.value.userData)
  {
    match InitialUserData(st, codec)
    case Malformed => None
    case Parsed(u) => Some(Session(InitialLoggedIn(st), u))
  }

  // ---------------------------------------------------------------------------
  // Persistence effects
  // ---------------------------------------------------------------------------

  /** The `[isLoggedin]` effect: write the flag as "true"/"false". */
  function PersistLoggedIn(st: Storage, b: bool): (r: Storage)
    ensures r.Keys == st.Keys + {LoggedInKey}
    ensures r[LoggedInKey] == (if b then "true" else "false")
    ensures forall k :: k in st && k != LoggedInKey ==> r[k] == st[k]
  {
    st[LoggedInKey := BoolText(b)]
  }

  /** The `[userData]` effect: store the encoded profile, or remove the entry
      when there is no profile. */
  function PersistUserData(st: Storage, u: UserData, codec: Codec): (r: Storage)
    ensures u.None? ==> r.Keys == st.Keys - {UserDataKey}
    ensures u.Some? ==> r.Keys == st.Keys + {UserDataKey} && r[UserDataKey] == codec.encode(u.value)
    ensures forall k :: k in st && k != UserDataKey ==> r[k] == st[k]
  {
    match u
    case Some(p) => st[UserDataKey := codec.encode(p)]
    case None => st - {UserDataKey}
  }

  /** Storage reflects the session: the flag's text and the profile's encoding
      (no entry at all when there is no profile). */
  predicate Mirrors(st: Storage, s: Session, codec: Codec) {
    && LoggedInKey in st && st[LoggedInKey] == BoolText(s.isLoggedin)
    && (s.userData.None? ==> UserDataKey !in st)
    && (s.userData.Some? ==> UserDataKey in st && st[UserDataKey] == codec.encode(s.userData.value))
  }

  /** Re-running the login-flag initialiser on what the effect wrote gives the
      same flag back. */
  lemma LoggedInRoundTrip(st: Storage, b: bool)
    ensures InitialLoggedIn(PersistLoggedIn(st, b)) == b
  {
  }

  /** Re-running the profile initialiser on what the effect wrote gives the
      same profile back (or none), provided the codec is faithful. */
  lemma UserDataRoundTrip(st: Storage, u: UserData, codec: Codec)
    requires Faithful(codec)
    ensures InitialUserData(PersistUserData(st, u, codec), codec) == Parsed(u)
  {
  }

  /** Clearing an already absent profile entry leaves storage as it was. */
  lemma RemoveAbsentIsNoOp(st: Storage, codec: Codec)
    requires UserDataKey !in st
    ensures PersistUserData(st, None, codec) == st
  {
  }

  /** Both effects after a render in which `prev` became `cur`: each runs only
      when its own dependency changed. */
  function Sync(prev: Session, cur: Session, st: Storage, codec: Codec): (r: Storage)
    requires Mirrors(st, prev, codec)
    ensures Mirrors(r, cur, codec)
    ensures forall k :: k in st && k != LoggedInKey && k != UserDataKey ==> k in r && r[k] == st[k]
    ensures prev == cur ==> r == st
  {
    var st1 := if cur.isLoggedin != prev.isLoggedin then PersistLoggedIn(st, cur.isLoggedin) else st;
    if cur.userData != prev.userData then PersistUserData(st1, cur.userData, codec) else st1
  }

  /** Whatever the storage held, once the effects have mirrored a session the
      next start-up rebuilds exactly that session. */
  lemma RestartRestoresSession(st: Storage, s: Session, codec: Codec)
    requires Faithful(codec)
    requires Mirrors(st, s, codec)
    ensures Init(st, codec) == Some(s)
  {
  }

  // ---------------------------------------------------------------------------
  // Mount and profile refresh
  // ---------------------------------------------------------------------------

  /** The refresh condition, shared by the provider's mount effect and the
      landing page's `[isLoggedin]` effect: logged in without a profile. */
  function NeedsProfile(s: Session): (r: bool)
    ensures r ==> s.userData.None?
    ensures !s.isLoggedin ==> !r
  {
    s.isLoggedin && s.userData.None?
  }

  datatype Mounted = Mounted(session: Session, storage: Storage, refresh: bool)

  /** The provider's first render: decode storage, run both persistence
      effects (React runs every effect on mount) and decide the mount-time
      refresh. `None` when the stored profile does not parse. */
  function Mount(st: Storage, codec: Codec): (r: Option<Mounted>)
    ensures r.None? <==> Init(st, codec).None?
    ensures r.Some? ==> Init(st, codec) == Some(r.value.session)
    ensures r.Some? ==> Mirrors(r.value.storage, r.value.session, codec)
    ensures r.Some? ==> (r.value.refresh <==> r.value.session.isLoggedin && r.value.session.userData.None?)
  {
    match Init(st, codec)
    case None => None
    case Some(s) =>
      var st' := PersistUserData(PersistLoggedIn(st, s.isLoggedin), s.userData, codec);
      Some(Mounted(s, st', NeedsProfile(s)))
  }

  /** A stored flag other than the exact text "true" is normalised to "false"
      by the first render, and a stored profile that decodes to no profile is
      removed. */
  lemma MountNormalisesStorage(st: Storage, codec: Codec)
    requires Mount(st, codec).Some?
    ensures Mount(st, codec).value.storage[LoggedInKey] == BoolText(InitialLoggedIn(st))
    ensures InitialUserData(st, codec) == Parsed(None) ==> UserDataKey !in Mount(st, codec).value.storage
  {
  }

  /** The state change of one session-setter effect; every other effect leaves
      the session alone. */
  function Setter(s: Session, e: Effect): Session {
    match e
    case SetLoggedIn(b) => s.(isLoggedin := b)
    case SetUserData(u) => s.(userData := u)
    case _ => s
  }

  /** The session after the setter effects of `effects`, in order. */
  function Settle(s: Session, effects: seq<Effect>): Session
    decreases |effects|
  {
    if effects == [] then s else Settle(Setter(s, effects[0]), effects[1..])
  }

  /** `getUserData`: fetch the profile and reconcile the session with it.
      - success: the profile is replaced wholesale, the flag is kept;
      - rejection (invalid or expired session): logged out, profile cleared;
      - transport error: a notice, the session untouched. */
  function GetUserData(s: Session, reply: Reply<UserData>): (r: Handled<Session>)
    ensures r.request == Some(PostGetUserData)
    ensures r.form == Settle(s, r.effects)
    ensures reply.Ok? ==> r.form.isLoggedin == s.isLoggedin && r.form.userData == reply.payload
    ensures reply.Rejected? ==> !r.form.isLoggedin && r.form.userData.None?
    ensures reply.TransportError? ==> r.form == s && r.effects == [Toast(Error("Error loading user data"))]
  {
    match reply
    case Ok(u) =>
      Handled(s.(userData := u), Some(PostGetUserData), [SetUserData(u)])
    case Rejected(_) =>
      Handled(Session(false, None), Some(PostGetUserData), [SetLoggedIn(false), SetUserData(None)])
    case TransportError =>
      Handled(s, Some(PostGetUserData), [Toast(Error("Error loading user data"))])
  }

  /** A refresh that got an answer settles the refresh condition: after a
      rejection or a delivered profile, no further refresh is triggered. */
  lemma RefreshSettles(s: Session, reply: Reply<UserData>)
    requires reply.Rejected? || (reply.Ok? && reply.payload.Some?)
    ensures !NeedsProfile(GetUserData(s, reply).form)
  {
  }

  /** Runs a handler's effects on the session, in order. The handlers await at
      most one profile refresh, whose reply is `refresh`. */
  function Apply(s: Session, effects: seq<Effect>, refresh: Reply<UserData>): Session
    decreases |effects|
  {
    if effects == [] then s
    else
      var s' := if effects[0].Refresh? then GetUserData(s, refresh).form else Setter(s, effects[0]);
      Apply(s', effects[1..], refresh)
  }

  /** Effects that are only notices and navigation leave the session alone. */
  lemma {:induction false} ApplyNoSessionEffects(s: Session, effects: seq<Effect>, refresh: Reply<UserData>)
    requires forall i :: 0 <= i < |effects| ==> effects[i].Toast? || effects[i].Navigate?
    ensures Apply(s, effects, refresh) == s
    decreases |effects|
  {
    if effects != [] {
      ApplyNoSessionEffects(s, effects[1..], refresh);
    }
  }
}
