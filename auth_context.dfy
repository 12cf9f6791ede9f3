/** The client-side session holder (src/contexts/AuthContext.tsx): three state cells,
    `user`, `loading` and `error`, changed by the session probe, the auth-change
    notification, and the completions of `signIn` and `signOut`. Router calls are
    recorded in order in `navigation`. */
module AuthContext {
  import opened Types
  import RootPage

  datatype Session = Session(user: User)

  /** The kinds of notification the auth backend sends. */
  datatype AuthEvent = InitialSession | SignedIn | SignedOut | TokenRefreshed | UserUpdated | PasswordRecovery

  datatype AuthError = AuthError(message: string, name: string, status: Option<int>)

  /** What `signIn` and `signOut` return when no client could be created. */
  const ClientMissing := AuthError("Supabase client not initialized", "AuthError", Some(500))

  /** `session?.user ?? null`. */
  function UserOf(session: Option<Session>): (u: Option<User>)
    ensures u.Some? <==> session.Some?
    ensures session.Some? ==> u.value == session.value.user
  {
    match session
    case None => None
    case Some(s) => Some(s.user)
  }

  class AuthProvider {
    /** The `!supabase` guards of the provider. The application's client factory throws when
        its configuration is missing and otherwise returns a client, so with that factory this
        is always true and the guards are dead; false models only what the guards do. */
    const hasClient: bool
    var user: Option<User>
    var loading: bool
    var error: Option<AuthError>
    var navigation: seq<Navigation>

    /** Were the guards ever taken, the effect would return at once and nothing would leave
        the initial state. */
    ghost predicate Valid()
      reads this
    {
      !hasClient ==> user.None? && loading && error.None? && navigation == []
    }

    /** The provider mounts with no user, loading, and no error. */
    constructor (hasClient: bool)
      ensures this.hasClient == hasClient
      ensures user.None? && loading && error.None? && navigation == []
      ensures Valid()
    {
      this.hasClient := hasClient;
      user := None;
      loading := true;
      error := None;
      navigation := [];
    }

    /** The initial `getSession` probe has answered. */
    method SessionProbed(session: Option<Session>)
      requires Valid() && hasClient
      modifies this
      ensures Valid()
      ensures user == UserOf(session) && !loading
      ensures error == old(error) && navigation == old(navigation)
      ensures RootPage.Redirect(user, loading) ==
        Some(Replace(if session.Some? then BarbershopsRoute else LoginRoute))
    {
      user := UserOf(session);
      loading := false;
    }

    /** An `onAuthStateChange` notification: whatever the event, the user follows the
        session and loading ends; a sign-out also pushes the login page. */
    method AuthStateChanged(event: AuthEvent, session: Option<Session>)
      requires Valid() && hasClient
      modifies this
      ensures Valid()
      ensures user == UserOf(session) && !loading && error == old(error)
      ensures event == SignedOut ==> navigation == old(navigation) + [Push(LoginRoute)]
      ensures event != SignedOut ==> navigation == old(navigation)
      ensures RootPage.Redirect(user, loading) ==
        Some(Replace(if session.Some? then BarbershopsRoute else LoginRoute))
    {
      user := UserOf(session);
      loading := false;
      if event == SignedOut {
        navigation := navigation + [Push(LoginRoute)];
      }
    }

    /** `signIn` as it completes, with `signInError` the backend's answer. The user is
        left to the notification that follows a successful sign-in. */
    method SignIn(signInError: Option<AuthError>) returns (r: Option<AuthError>)
      requires Valid()
      modifies this
      ensures Valid()
      ensures !hasClient ==> r == Some(ClientMissing) && unchanged(this)
      ensures hasClient ==> r == signInError && error == signInError && !loading && user == old(user)
      ensures hasClient && signInError.None? ==>
        navigation == old(navigation) + [Push(BarbershopsRoute), Refresh]
      ensures hasClient && signInError.Some? ==> navigation == old(navigation)
    {
      if !hasClient {
        return Some(ClientMissing);
      }
      error := signInError;
      loading := false;
      if signInError.None? {
        navigation := navigation + [Push(BarbershopsRoute), Refresh];
      }
      r := signInError;
    }

    /** `signOut` as it completes: the error is recorded and loading ends; the redirect
        is left to the SIGNED_OUT notification. */
    method SignOut(signOutError: Option<AuthError>) returns (r: Option<AuthError>)
      requires Valid()
      modifies this
      ensures Valid()
      ensures !hasClient ==> r == Some(ClientMissing) && unchanged(this)
      ensures hasClient ==> r == signOutError && error == signOutError && !loading
      ensures hasClient ==> user == old(user) && navigation == old(navigation)
    {
      if !hasClient {
        return Some(ClientMissing);
      }
      error := signOutError;
      loading := false;
      r := signOutError;
    }
  }
}
