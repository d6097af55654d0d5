/** The session store: the signed-in user, the in-flight flags of the
    authentication requests, and the real-time channel bound to the user. The
    server's answer to each request is a parameter; the canvas image
    compression is represented by its result. */
module AuthStore {
  import opened Wrappers
  import opened Io

  /** The signed-in user as the server describes it; `createdAt` is an epoch
      time. */
  datatype AuthUser = AuthUser(
    id: string,
    name: string,
    lastName: string,
    username: string,
    dateOfBirth: string,
    email: string,
    profilePicture: Option<string>,
    bio: Option<string>,
    createdAt: Option<int>)

  /** Where a channel is: its handshake still pending (the library keeps
      trying), open, or closed by `disconnect()`, after which the library
      never reconnects it. */
  datatype ChannelState = Pending | Open | Closed

  /** The real-time channel: the user id it was opened for (sent as the
      `userId` query parameter) and its state. */
  datatype Channel = Channel(userId: string, state: ChannelState)

  /** The store's state. */
  datatype Session = Session(
    authUser: Option<AuthUser>,
    isSigningUp: bool,
    isLoggingIn: bool,
    isUpdatingProfile: bool,
    isCheckingAuth: bool,
    socket: Option<Channel>)

  /** The state the store starts in: nobody signed in, the session check
      pending, no channel. */
  const Initial: Session := Session(None, false, false, false, true, None)

  /** The state after an operation and the effects it requested, in order. */
  datatype AuthStep = AuthStep(session: Session, effects: seq<Effect>)

  const SignupSuccessText: string := "Account created successfully"
  const SignupErrorFallback: string := "Error signing up"
  const LoginSuccessText: string := "Logged in successfully"
  const LoginErrorFallback: string := "Error logging in"
  const LogoutSuccessText: string := "Logged out successfully"
  const LogoutErrorFallback: string := "Error logging out"
  const ProfileSuccessText: string := "Profil zaktualizowany pomyślnie"
  const ProfileErrorFallback: string := "Błąd podczas aktualizacji profilu"

  /** A profile picture longer than this many characters is compressed before
      upload. */
  const CompressionThreshold: nat := 500000

  /** `socket.value?.connected` */
  predicate Connected(s: Session) {
    s.socket.Some? && s.socket.value.state == Open
  }

  /** `connectSocket`: without a user, or with a connected channel, nothing
      happens; otherwise a new channel for the user's id replaces the old one.
      Its handshake is pending: it completes later, if at all. */
  function ConnectSocket(s: Session): (r: Session)
    ensures r.(socket := s.socket) == s
    ensures s.authUser.None? || Connected(s) ==> r == s
    ensures s.authUser.Some? ==> r.socket.Some?
    ensures s.authUser.Some? && !Connected(s) ==>
      r.socket == Some(Channel(s.authUser.value.id, Pending))
  {
    if s.authUser.None? || Connected(s) then s
    else s.(socket := Some(Channel(s.authUser.value.id, Pending)))
  }

  /** The channel library reporting a completed handshake: only a pending
      channel opens; an open or closed one, or none, stays as it is. */
  function ChannelOpened(s: Session): (r: Session)
    ensures r.(socket := s.socket) == s
    ensures s.socket.Some? && s.socket.value.state == Pending ==>
      Connected(r) && r.socket == Some(s.socket.value.(state := Open))
    ensures s.socket.Some? && s.socket.value.state == Closed ==> r == s && !Connected(r)
    ensures s.socket.Some? && s.socket.value.state == Open ==> r == s
    ensures s.socket.None? ==> r == s
  {
    match s.socket
    case Some(c) => if c.state == Pending then s.(socket := Some(c.(state := Open))) else s
    case None => s
  }

  /** `disconnectSocket`: closes an open channel; a pending one is left
      alone, as is a closed one. The channel handle itself is kept. */
  function DisconnectSocket(s: Session): (r: Session)
    ensures !Connected(r)
    ensures r.(socket := s.socket) == s
    ensures !Connected(s) ==> r == s
    ensures Connected(s) ==> r.socket == Some(s.socket.value.(state := Closed))
  {
    if Connected(s) then s.(socket := Some(s.socket.value.(state := Closed))) else s
  }

  /** Disconnecting twice is disconnecting once. */
  lemma DisconnectIdempotent(s: Session)
    ensures DisconnectSocket(DisconnectSocket(s)) == DisconnectSocket(s)
  {
  }

  /** A channel closed by `disconnectSocket` is not reopened by a late
      handshake report. */
  lemma DisconnectedChannelStaysClosed(s: Session)
    requires Connected(s)
    ensures ChannelOpened(DisconnectSocket(s)) == DisconnectSocket(s)
    ensures DisconnectSocket(s).socket.value.state == Closed
  {
  }

  /** Once the handshake has completed, connecting again changes nothing. */
  lemma ConnectIdempotentOnceOpen(s: Session)
    requires s.authUser.Some?
    ensures ConnectSocket(ChannelOpened(ConnectSocket(s))) == ChannelOpened(ConnectSocket(s))
    ensures Connected(ChannelOpened(ConnectSocket(s)))
  {
  }

  /** `checkAuth`: on success the response becomes the user and the channel is
      opened; on failure the user is cleared. The check flag ends false either
      way, which is what the route guard waits for. */
  function CheckAuth(s: Session, res: Response<AuthUser>): (r: Session)
    ensures !r.isCheckingAuth
    ensures res.Ok? ==> r.authUser == Some(res.data) && r.socket.Some?
    ensures res.Ok? ==> r == ConnectSocket(s.(authUser := Some(res.data))).(isCheckingAuth := false)
    ensures res.Failed? ==> r.authUser.None? && r == s.(authUser := None, isCheckingAuth := false)
  {
    match res
    case Ok(u) => ConnectSocket(s.(authUser := Some(u))).(isCheckingAuth := false)
    case Failed(_) => s.(authUser := None, isCheckingAuth := false)
  }

  /** The shared body of `signup` and `login`: on success the user from the
      response is stored, a success toast shown and the channel opened; on
      failure the user stays and an error toast carries the server's message
      or the fallback. */
  function SignIn(s: Session, res: Response<AuthUser>, successText: string, errorFallback: string): (r: AuthStep)
    ensures res.Ok? ==> r.session.authUser == Some(res.data) && r.session.socket.Some?
    ensures res.Ok? ==> r.session == ConnectSocket(s.(authUser := Some(res.data)))
    ensures res.Ok? ==> r.effects == [SuccessToast(successText)]
    ensures res.Failed? ==> r.session == s
    ensures res.Failed? ==> r.effects == [ErrorToast(ErrorText(res.error, errorFallback))]
  {
    match res
    case Ok(u) => AuthStep(ConnectSocket(s.(authUser := Some(u))), [SuccessToast(successText)])
    case Failed(e) => AuthStep(s, [ErrorToast(ErrorText(e, errorFallback))])
  }

  /** `signup`: as `SignIn`, with the sign-up flag false afterwards; a failure
      always surfaces a non-empty error toast. */
  function Signup(s: Session, res: Response<AuthUser>): (r: AuthStep)
    ensures !r.session.isSigningUp
    ensures r.session.isLoggingIn == s.isLoggingIn && r.session.isCheckingAuth == s.isCheckingAuth
    ensures res.Ok? ==> r.session.authUser == Some(res.data) && r.session.socket.Some?
    ensures res.Ok? ==> r.session == ConnectSocket(s.(authUser := Some(res.data))).(isSigningUp := false)
    ensures res.Failed? ==> r.session == s.(isSigningUp := false)
    ensures res.Ok? ==> r.effects == [SuccessToast(SignupSuccessText)]
    ensures res.Failed? ==> r.effects == [ErrorToast(ErrorText(res.error, SignupErrorFallback))]
    ensures res.Failed? ==> r.effects[0].text != ""
  {
    var step := SignIn(s, res, SignupSuccessText, SignupErrorFallback);
    step.(session := step.session.(isSigningUp := false))
  }

  /** `login`: as `SignIn`, with the log-in flag false afterwards; a failure
      always surfaces a non-empty error toast. */
  function Login(s: Session, res: Response<AuthUser>): (r: AuthStep)
    ensures !r.session.isLoggingIn
    ensures r.session.isSigningUp == s.isSigningUp && r.session.isCheckingAuth == s.isCheckingAuth
    ensures res.Ok? ==> r.session.authUser == Some(res.data) && r.session.socket.Some?
    ensures res.Ok? ==> r.session == ConnectSocket(s.(authUser := Some(res.data))).(isLoggingIn := false)
    ensures res.Failed? ==> r.session == s.(isLoggingIn := false)
    ensures res.Ok? ==> r.effects == [SuccessToast(LoginSuccessText)]
    ensures res.Failed? ==> r.effects == [ErrorToast(ErrorText(res.error, LoginErrorFallback))]
    ensures res.Failed? ==> r.effects[0].text != ""
  {
    var step := SignIn(s, res, LoginSuccessText, LoginErrorFallback);
    step.(session := step.session.(isLoggingIn := false))
  }

  /** `logout`: only after the server confirms is the user cleared and the
      channel closed; on failure the session is unchanged and an error toast
      is shown. */
  function Logout(s: Session, res: Response<()>): (r: AuthStep)
    ensures res.Ok? ==> r.session.authUser.None? && !Connected(r.session)
    ensures res.Ok? ==> r.session == DisconnectSocket(s.(authUser := None))
    ensures res.Ok? ==> r.effects == [SuccessToast(LogoutSuccessText)]
    ensures res.Failed? ==> r.session == s
    ensures res.Failed? ==> r.effects == [ErrorToast(ErrorText(res.error, LogoutErrorFallback))]
    ensures res.Failed? ==> r.effects[0].text != ""
  {
    match res
    case Ok(_) => AuthStep(DisconnectSocket(s.(authUser := None)), [SuccessToast(LogoutSuccessText)])
    case Failed(e) => AuthStep(s, [ErrorToast(ErrorText(e, LogoutErrorFallback))])
  }

  /** Logging in and then out right away leaves nobody signed in. The channel
      is closed only if one was already open before the login; otherwise it
      is the login's own channel, still pending, which the logout leaves
      alone. */
  lemma LoginThenLogout(s: Session, u: AuthUser)
    ensures var t := Logout(Login(s, Ok(u)).session, Ok(())).session;
      && t.authUser.None? && !Connected(t) && !t.isLoggingIn
      && (Connected(s) ==> t.socket == Some(s.socket.value.(state := Closed)))
      && (!Connected(s) ==> t.socket == Some(Channel(u.id, Pending)))
  {
  }

  /** A channel whose handshake is still pending at logout survives it, and
      when the handshake then completes it is open for the user who left,
      with nobody signed in. */
  lemma PendingChannelSurvivesLogout(s: Session, c: Channel)
    requires s.socket == Some(c) && c.state == Pending
    ensures var t := Logout(s, Ok(())).session;
      && t.authUser.None? && t.socket == Some(c)
      && ChannelOpened(t).authUser.None?
      && ChannelOpened(t).socket == Some(Channel(c.userId, Open))
  {
  }

  /** The profile form as the view submits it. */
  datatype ProfileForm = ProfileForm(
    name: string,
    lastName: string,
    username: string,
    dateOfBirth: string,
    bio: Option<string>,
    profilePicture: Option<string>)

  /** The body of the profile update request. */
  datatype ProfilePayload = ProfilePayload(
    name: string,
    lastName: string,
    username: string,
    dateOfBirth: string,
    bio: string,
    profilePicture: Option<string>)

  /** The picture is a string longer than the compression threshold. */
  predicate NeedsCompression(picture: Option<string>) {
    picture.Some? && |picture.value| > CompressionThreshold
  }

  /** The request body built from the form: the five text fields copied, a
      missing or empty bio sent as `""`, and the picture replaced by its
      compressed form exactly when it needs compression. */
  function ProfileRequest(form: ProfileForm, compressed: string): (p: ProfilePayload)
    ensures p.name == form.name && p.lastName == form.lastName
    ensures p.username == form.username && p.dateOfBirth == form.dateOfBirth
    ensures p.bio == form.bio.GetOr("")
    ensures NeedsCompression(form.profilePicture) ==> p.profilePicture == Some(compressed)
    ensures !NeedsCompression(form.profilePicture) ==> p.profilePicture == form.profilePicture
  {
    ProfilePayload(
      form.name, form.lastName, form.username, form.dateOfBirth,
      if Truthy(form.bio) then form.bio.value else "",
      if NeedsCompression(form.profilePicture) then Some(compressed) else form.profilePicture)
  }

  /** The outcome of `updateProfile`: the session, the request body sent (if
      one was), and the effects. */
  datatype ProfileUpdate = ProfileUpdate(session: Session, request: Option<ProfilePayload>, effects: seq<Effect>)

  /** The picture needs compression and the compression never settles: the
      picture cannot be decoded, so the image's load handler never runs. */
  predicate CompressionStalls(form: ProfileForm, compressed: Option<string>) {
    NeedsCompression(form.profilePicture) && compressed.None?
  }

  /** `updateProfile`: `compressed` is how the canvas compression of the
      picture ends, `Some` of its result or `None` when it never settles.
      Unless the compression stalls, the request body is sent; on success the
      response replaces the user, on failure the user stays and an error toast
      is shown, and the update flag ends false. A stalled compression leaves
      the flag true, sends nothing and shows no final toast. */
  function UpdateProfile(s: Session, form: ProfileForm, compressed: Option<string>, res: Response<AuthUser>): (r: ProfileUpdate)
    ensures r.session.isUpdatingProfile <==> CompressionStalls(form, compressed)
    ensures CompressionStalls(form, compressed) ==>
      r.session == s.(isUpdatingProfile := true) && r.request.None? && r.effects == []
    ensures !CompressionStalls(form, compressed) ==>
      r.request == Some(ProfileRequest(form, compressed.GetOr("")))
    ensures !CompressionStalls(form, compressed) && res.Ok? ==>
      r.session == s.(authUser := Some(res.data), isUpdatingProfile := false)
      && r.effects == [SuccessToast(ProfileSuccessText)]
    ensures !CompressionStalls(form, compressed) && res.Failed? ==>
      r.session == s.(isUpdatingProfile := false)
      && r.effects == [ErrorToast(ErrorText(res.error, ProfileErrorFallback))]
  {
    if CompressionStalls(form, compressed) then ProfileUpdate(s.(isUpdatingProfile := true), None, [])
    else
      var request := Some(ProfileRequest(form, compressed.GetOr("")));
      match res
      case Ok(u) =>
        ProfileUpdate(s.(authUser := Some(u), isUpdatingProfile := false), request, [SuccessToast(ProfileSuccessText)])
      case Failed(e) =>
        ProfileUpdate(s.(isUpdatingProfile := false), request, [ErrorToast(ErrorText(e, ProfileErrorFallback))])
  }

  /** `updateProfile` with a compression that rejects when the picture cannot
      be decoded: the rejection reaches the `catch`, which shows the fallback
      error toast, and the `finally` resets the flag. Every outcome then ends
      with the flag false and exactly one non-empty final toast. */
  function UpdateProfileSettled(s: Session, form: ProfileForm, compressed: Option<string>, res: Response<AuthUser>): (r: ProfileUpdate)
    ensures !r.session.isUpdatingProfile
    ensures |r.effects| == 1 && (r.effects[0].ErrorToast? || r.effects[0].SuccessToast?)
    ensures r.effects[0].text != ""
    ensures CompressionStalls(form, compressed) ==>
      r.session == s.(isUpdatingProfile := false) && r.request.None?
      && r.effects == [ErrorToast(ProfileErrorFallback)]
    ensures !CompressionStalls(form, compressed) ==> r == UpdateProfile(s, form, compressed, res)
  {
    if CompressionStalls(form, compressed) then
      ProfileUpdate(s.(isUpdatingProfile := false), None, [ErrorToast(ErrorText(NoResponse, ProfileErrorFallback))])
    else UpdateProfile(s, form, compressed, res)
  }

  /** A picture over the threshold that cannot be decoded stalls the update
      for good, while the rejecting compression ends it with an error toast. */
  lemma UndecodablePictureStallsUpdate(s: Session, form: ProfileForm, res: Response<AuthUser>)
    requires NeedsCompression(form.profilePicture)
    ensures UpdateProfile(s, form, None, res).session.isUpdatingProfile
    ensures UpdateProfile(s, form, None, res).effects == []
    ensures !UpdateProfileSettled(s, form, None, res).session.isUpdatingProfile
    ensures UpdateProfileSettled(s, form, None, res).effects == [ErrorToast(ProfileErrorFallback)]
  {
  }

  /** `fullName`: empty without a user, otherwise the name, one space and the
      last name. */
  function FullName(user: Option<AuthUser>): (r: string)
    ensures user.None? ==> r == ""
    ensures user.Some? ==>
      && |r| == |user.value.name| + 1 + |user.value.lastName|
      && r[..|user.value.name|] == user.value.name
      && r[|user.value.name|] == ' '
      && r[|user.value.name| + 1..] == user.value.lastName
  {
    match user
    case None => ""
    case Some(u) =>
      var r := u.name + " " + u.lastName;
      assert r[..|u.name|] == u.name;
      assert r[|u.name| + 1..] == u.lastName;
      r
  }
}
