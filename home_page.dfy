// The home page: the session and profile name kept in step with the
// authentication service, the sign-up / log-in / log-out / account-deletion
// handlers, the write counter handed to the order list, and the choice
// between the loading screen, the authentication form and the main page.
module HomePage {
  import opened Wrappers
  import opened Orders

  const SignUpSentMessage: string := "確認メールを送信しました。受信トレイをご確認ください。"
  const AccountErrorPrefix: string := "エラーが発生しました: "
  const AccountDeletedMessage: string := "アカウントが正常に削除されました。ログアウトします..."
  const GuestName: string := "ゲスト"

  datatype User = User(id: UserId)

  /** A signed-in session always carries its user. */
  datatype Session = Session(user: User)

  /** A `profiles` row as far as the page reads it; `name` may be `null`. */
  datatype Profile = Profile(name: Option<string>)

  datatype AuthMode = Login | Signup

  /** Which authentication call a form submit made. */
  datatype AuthCall = SignUpCall | LogInCall

  /** The page's handlers that child components and buttons receive. */
  datatype PageHandler = OrderMutationHandler | LogoutHandler | AccountDeleteHandler

  /** What the page renders. */
  datatype PageView =
    | LoadingScreen
    | AuthForm(mode: AuthMode, message: string, loading: bool)
    | MainPage(greeting: string, user: User, refreshCounter: nat, message: string,
               loading: bool, onOrderCreated: PageHandler, onOrderMutated: PageHandler)

  /** `profile?.name || ''`: the profile lookup's name, or empty. */
  function ProfileName(profile: Option<Profile>): (r: string)
    ensures r != "" ==> profile.Some? && profile.value.name == Some(r)
    ensures profile.Some? && profile.value.name.Some? ==> r == profile.value.name.value
  {
    if profile.Some? then profile.value.name.GetOr("") else ""
  }

  /** `profileName || 'ゲスト'`. */
  function Greeting(profileName: string): (r: string)
    ensures r != ""
    ensures profileName != "" ==> r == profileName
  {
    if profileName != "" then profileName else GuestName
  }

  class Home {
    var session: Option<Session>
    var loading: bool
    var message: string
    var refreshCounter: nat
    var authMode: AuthMode
    var profileName: string
    var isLoading: bool

    /** The page's state on mount, before the initial session check. */
    constructor ()
      ensures session == None && !loading && message == "" && refreshCounter == 0
      ensures authMode == Login && profileName == "" && isLoading
    {
      session := None;
      loading := false;
      message := "";
      refreshCounter := 0;
      authMode := Login;
      profileName := "";
      isLoading := true;
    }

    /** The three-way render choice. */
    function View(): (v: PageView)
      reads this
      ensures v == LoadingScreen <==> isLoading
      ensures v.AuthForm? <==> !isLoading && session.None?
      ensures v.AuthForm? ==> v.mode == authMode && v.loading == loading
      ensures v.MainPage? <==> !isLoading && session.Some?
      ensures v.MainPage? ==>
        v.user == session.value.user && v.refreshCounter == refreshCounter &&
        v.onOrderCreated == OrderMutationHandler && v.onOrderMutated == OrderMutationHandler
    {
      if isLoading then LoadingScreen
      else if session.None? then AuthForm(authMode, message, loading)
      else MainPage(Greeting(profileName), session.value.user, refreshCounter, message,
                    loading, OrderMutationHandler, OrderMutationHandler)
    }

    /** The initial session check: it records the session, looks up the
        profile name only when there is a user, and ends the loading screen.
        `profile` is the profile lookup's answer. */
    method InitialSession(s: Option<Session>, profile: Option<Profile>)
      modifies this`session, this`profileName, this`isLoading
      ensures session == s && !isLoading
      ensures s.Some? ==> profileName == ProfileName(profile)
      ensures s.None? ==> profileName == old(profileName)
    {
      session := s;
      if s.Some? {
        profileName := ProfileName(profile);
      }
      isLoading := false;
    }

    /** The authentication listener: it records the session and resets the
        profile name, and never touches the loading screen. */
    method AuthStateChanged(s: Option<Session>, profile: Option<Profile>)
      modifies this`session, this`profileName
      ensures session == s
      ensures profileName == if s.Some? then ProfileName(profile) else ""
    {
      session := s;
      if s.Some? {
        profileName := ProfileName(profile);
      } else {
        profileName := "";
      }
    }

    /** The log-in and sign-up tabs above the form. */
    method SelectAuthMode(mode: AuthMode)
      modifies this`authMode
      ensures authMode == mode
    {
      authMode := mode;
    }

    /** `handleSignUp`; `signUpError` is the sign-up call's answer. */
    method HandleSignUp(signUpError: Option<string>)
      modifies this`loading, this`message, this`authMode
      ensures !loading
      ensures signUpError.Some? ==> message == signUpError.value && authMode == old(authMode)
      ensures signUpError.None? ==> message == SignUpSentMessage && authMode == Login
    {
      loading := true;
      message := "";
      if signUpError.Some? {
        message := signUpError.value;
      } else {
        message := SignUpSentMessage;
        authMode := Login;
      }
      loading := false;
    }

    /** `handleLogin`; the session itself arrives through the listener. */
    method HandleLogin(loginError: Option<string>)
      modifies this`loading, this`message
      ensures !loading
      ensures message == loginError.GetOr("")
    {
      loading := true;
      message := "";
      if loginError.Some? {
        message := loginError.value;
      }
      loading := false;
    }

    /** The form submit: sign-up in sign-up mode, log-in otherwise. */
    method HandleSubmit(callError: Option<string>) returns (call: AuthCall)
      modifies this`loading, this`message, this`authMode
      ensures call == if old(authMode) == Signup then SignUpCall else LogInCall
      ensures !loading
      ensures call == LogInCall ==> message == callError.GetOr("") && authMode == old(authMode)
      ensures call == SignUpCall && callError.Some? ==>
        message == callError.value && authMode == Signup
      ensures call == SignUpCall && callError.None? ==>
        message == SignUpSentMessage && authMode == Login
    {
      if authMode == Signup {
        call := SignUpCall;
        HandleSignUp(callError);
      } else {
        call := LogInCall;
        HandleLogin(callError);
      }
    }

    /** `handleLogout`; the session is cleared by the listener. */
    method HandleLogout(signOutError: Option<string>)
      modifies this`loading, this`message
      ensures !loading
      ensures message == signOutError.GetOr("")
    {
      loading := true;
      message := "";
      if signOutError.Some? {
        message := signOutError.value;
      }
      loading := false;
    }

    /** `handleAccountDelete`: nothing without confirmation; an error of the
        deletion call is shown and ends loading; on success the sign-out is
        issued and loading stays on. */
    method HandleAccountDelete(confirmed: bool, rpcError: Option<string>)
      returns (rpcIssued: bool, signOutIssued: bool)
      modifies this`loading, this`message
      ensures rpcIssued == confirmed
      ensures !confirmed ==> !signOutIssued && loading == old(loading) && message == old(message)
      ensures confirmed && rpcError.Some? ==>
        !signOutIssued && !loading && message == AccountErrorPrefix + rpcError.value
      ensures confirmed && rpcError.None? ==>
        signOutIssued && loading && message == AccountDeletedMessage
    {
      rpcIssued, signOutIssued := false, false;
      if confirmed {
        loading := true;
        message := "";
        rpcIssued := true;
        if rpcError.Some? {
          message := AccountErrorPrefix + rpcError.value;
          loading := false;
        } else {
          message := AccountDeletedMessage;
          signOutIssued := true;
        }
      }
    }

    /** `handleOrderMutation`: one more write seen. */
    method HandleOrderMutation()
      modifies this`refreshCounter
      ensures refreshCounter == old(refreshCounter) + 1 && refreshCounter > 0
    {
      refreshCounter := refreshCounter + 1;
    }
  }
}
